/** Wiring tables: 26-entry substitution tables built from alphabet
    strings (`init_wiring`), and the properties a table can have. */
module Wiring {
  import opened Alphabet

  /** The entry `init_wiring` stores for one character of the alphabet string:
      the character cast to `uint8_t`, minus `'A'`, truncated to `uint8_t`. */
  function EntryOf(ch: char): (e: Byte)
  {
    ((ch as int) % 256 - 'A' as int) % 256
  }

  /** The table `init_wiring` builds from an alphabet string. */
  function WiringOf(alphabet: string): (w: seq<Byte>)
    ensures |w| == |alphabet|
  {
    seq(|alphabet|, i requires 0 <= i < |alphabet| => EntryOf(alphabet[i]))
  }

  /** A string of upper-case ASCII letters. */
  predicate IsUpperString(s: string) {
    forall i :: 0 <= i < |s| ==> 'A' <= s[i] <= 'Z'
  }

  /** The table of a letter string holds codes, and writing each entry back as
      a letter gives the string again. */
  lemma WiringOfLetters(alphabet: string)
    requires IsUpperString(alphabet)
    ensures forall i :: 0 <= i < |alphabet| ==>
      IsCode(WiringOf(alphabet)[i]) && CodeToChar(WiringOf(alphabet)[i]) == alphabet[i] as int
  {
    forall i | 0 <= i < |alphabet|
      ensures IsCode(WiringOf(alphabet)[i]) && CodeToChar(WiringOf(alphabet)[i]) == alphabet[i] as int
    {
      assert EntryOf(alphabet[i]) == CharToCode(alphabet[i] as int);
      LetterRoundTrip(alphabet[i] as int);
    }
  }

  /** `init_wiring(wiring, alphabet, alphabet_len)`: fills the first
      `alphabet_len` entries of the table, one character at a time. */
  method InitWiring(wiring: array<Byte>, alphabet: string, alphabetLen: nat)
    requires alphabetLen <= |alphabet| && alphabetLen <= wiring.Length
    modifies wiring
    ensures wiring[..alphabetLen] == WiringOf(alphabet[..alphabetLen])
    ensures wiring[alphabetLen..] == old(wiring[alphabetLen..])
  {
    var i := 0;
    while i < alphabetLen
      invariant 0 <= i <= alphabetLen
      invariant forall k :: 0 <= k < i ==> wiring[k] == EntryOf(alphabet[k])
      invariant wiring[alphabetLen..] == old(wiring[alphabetLen..])
    {
      wiring[i] := EntryOf(alphabet[i]);
      i := i + 1;
    }
  }

  /** A table of ALPHABET_SIZE codes. */
  predicate IsTable(w: seq<Byte>) {
    |w| == ALPHABET_SIZE && forall x :: 0 <= x < |w| ==> IsCode(w[x])
  }

  /** A bijection on the codes. */
  predicate IsPermutation(w: seq<Byte>) {
    IsTable(w) && forall x, y :: 0 <= x < |w| && 0 <= y < |w| && w[x] == w[y] ==> x == y
  }

  /** A self-inverse table with no fixed point, as a reflector must be. */
  predicate IsReflection(w: seq<Byte>) {
    IsTable(w) && forall x :: 0 <= x < |w| ==> w[w[x]] == x && w[x] != x
  }

  /** A table is a permutation as soon as some table undoes it. */
  lemma PermutationByInverse(w: seq<Byte>, inv: seq<Byte>)
    requires IsTable(w) && |inv| == ALPHABET_SIZE
    requires forall x :: 0 <= x < ALPHABET_SIZE ==> inv[w[x]] == x
    ensures IsPermutation(w)
  {
  }

  /** A reflection is in particular a permutation, and every code is hit. */
  lemma ReflectionIsPermutation(w: seq<Byte>)
    requires IsReflection(w)
    ensures IsPermutation(w)
    ensures forall y :: 0 <= y < ALPHABET_SIZE ==> y in w
  {
    PermutationByInverse(w, w);
    forall y | 0 <= y < ALPHABET_SIZE
      ensures y in w
    {
      assert w[w[y]] == y;
    }
  }
}
