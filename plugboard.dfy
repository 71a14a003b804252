/** The plugboard: a list of letter pairs, scanned in order
    (`apply_plugboard`). */
module Plugboard {
  import opened Alphabet

  /** One plug: `board[i][0]` and `board[i][1]`. */
  type Pair = (Byte, Byte)

  predicate Contains(p: Pair, code: Byte) {
    code == p.0 || code == p.1
  }

  /** The end of the plug opposite to `code`, as the scan reports it. */
  function Other(p: Pair, code: Byte): Byte {
    if code == p.0 then p.1 else p.0
  }

  /** Every plug joins two codes. */
  predicate PairsAreCodes(board: seq<Pair>) {
    forall i :: 0 <= i < |board| ==> IsCode(board[i].0) && IsCode(board[i].1)
  }

  /** No code is on two different plugs. */
  predicate Disjoint(board: seq<Pair>) {
    forall i, j :: 0 <= i < j < |board| ==> !Contains(board[j], board[i].0) && !Contains(board[j], board[i].1)
  }

  /** What the scan of `apply_plugboard` returns: the partner of `code` on the
      first plug that holds it, or `code` itself. */
  function Swap(board: seq<Pair>, code: Byte): (r: Byte)
    ensures r != code ==> exists i :: 0 <= i < |board| && Contains(board[i], code) && r == Other(board[i], code)
    ensures PairsAreCodes(board) && IsCode(code) ==> IsCode(r)
  {
    if board == [] then code
    else if code == board[0].0 then board[0].1
    else if code == board[0].1 then board[0].0
    else Swap(board[1..], code)
  }

  /** The first plug holding `code` decides the result. */
  lemma {:induction false} SwapFirstMatch(board: seq<Pair>, code: Byte, i: nat)
    requires i < |board| && Contains(board[i], code)
    requires forall j :: 0 <= j < i ==> !Contains(board[j], code)
    ensures Swap(board, code) == Other(board[i], code)
  {
    if i > 0 {
      assert !Contains(board[0], code);
      SwapFirstMatch(board[1..], code, i - 1);
    }
  }

  /** A code on no plug passes through unchanged. */
  lemma {:induction false} SwapUnplugged(board: seq<Pair>, code: Byte)
    requires forall i :: 0 <= i < |board| ==> !Contains(board[i], code)
    ensures Swap(board, code) == code
  {
    if board != [] {
      assert !Contains(board[0], code);
      SwapUnplugged(board[1..], code);
    }
  }

  /** With no code on two plugs, the plugboard undoes itself. */
  lemma {:induction false} SwapInvolution(board: seq<Pair>, code: Byte)
    requires Disjoint(board)
    ensures Swap(board, Swap(board, code)) == code
  {
    if board != [] && !Contains(board[0], code) {
      var rest := board[1..];
      var r := Swap(rest, code);
      assert Disjoint(rest) by {
        forall i, j | 0 <= i < j < |rest|
          ensures !Contains(rest[j], rest[i].0) && !Contains(rest[j], rest[i].1)
        {
          assert rest[i] == board[i + 1] && rest[j] == board[j + 1];
        }
      }
      assert !Contains(board[0], r) by {
        if r != code {
          var i :| 0 <= i < |rest| && Contains(rest[i], code) && r == Other(rest[i], code);
          assert rest[i] == board[i + 1];
        }
      }
      SwapInvolution(rest, code);
    }
  }

  /** With no code on two plugs, both ends of every plug swap with each other. */
  lemma SwapPairedCodes(board: seq<Pair>, i: nat)
    requires Disjoint(board) && i < |board|
    ensures Swap(board, board[i].0) == board[i].1
    ensures Swap(board, board[i].1) == board[i].0
  {
    SwapFirstMatch(board, board[i].0, i);
    SwapFirstMatch(board, board[i].1, i);
  }
}
