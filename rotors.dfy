/** Rotors: the single-rotor lookup (`apply_rotor`), the three-rotor
    substitutions, and the stepping of the rotor offsets (`apply_rotors`). */
module Rotors {
  import opened Alphabet
  import opened Wiring
  import opened Catalogue

  /** The C struct `Rotor`: a wiring table, the current offset, and the
      turnover position (which the C code calls `ring_position`). */
  datatype Rotor = Rotor(wiring: seq<Byte>, offset: Byte, ringPosition: Byte)

  predicate WellFormed(r: Rotor) {
    IsTable(r.wiring) && IsCode(r.offset) && IsCode(r.ringPosition)
  }

  /** Every rotor of a sequence is well formed. */
  predicate AllWellFormed(rs: seq<Rotor>) {
    forall i :: 0 <= i < |rs| ==> WellFormed(rs[i])
  }

  /** The three rotors of a machine, index 0 first. */
  predicate WellFormedRotors(rs: seq<Rotor>) {
    |rs| == 3 && AllWellFormed(rs)
  }

  /** The rotor `init_rotor` configures for a catalogue model: its wiring, its
      turnover letter, and offset 0. */
  function CatalogueRotor(n: RotorName): (r: Rotor)
    ensures WellFormed(r) && IsPermutation(r.wiring) && r.offset == 0 && r.ringPosition == Turnover(n)
    ensures r.wiring == WiringOf(RotorAlphabet(n))
  {
    RotorWiringIsPermutation(n);
    Rotor(WiringOf(RotorAlphabet(n)), 0, Turnover(n))
  }

  /** `init_rotor`: sets the offset to 0, the turnover position, and fills the
      wiring table from the model's alphabet string. */
  method InitRotor(n: RotorName) returns (r: Rotor)
    ensures r == CatalogueRotor(n)
  {
    var wiring := new Byte[ALPHABET_SIZE];
    InitWiring(wiring, RotorAlphabet(n), ALPHABET_SIZE);
    var alphabet := RotorAlphabet(n);
    assert alphabet[..ALPHABET_SIZE] == alphabet;
    r := Rotor(wiring[..], 0, Turnover(n));
  }

  /** `apply_rotor` as written: `rotor_wiring[code + offset]`, with no
      reduction modulo the alphabet size, so it stays inside the table only
      while `code + offset < 26`. */
  function ApplyRotorAsWritten(r: Rotor, code: Byte): (c: Byte)
    requires code + r.offset < |r.wiring|
    ensures IsTable(r.wiring) ==> IsCode(c)
  {
    r.wiring[code + r.offset]
  }

  /** `apply_rotor` with the index reduced modulo the alphabet size, so that
      every code and offset stays inside the table. */
  function ApplyRotor(r: Rotor, code: Byte): (c: Byte)
    requires |r.wiring| == ALPHABET_SIZE
    ensures IsTable(r.wiring) ==> IsCode(c)
  {
    r.wiring[(code + r.offset) % ALPHABET_SIZE]
  }

  /** Wherever the C index stays inside the table, the corrected lookup
      reads the same entry. */
  lemma ApplyRotorAgreesInRange(r: Rotor, code: Byte)
    requires |r.wiring| == ALPHABET_SIZE && code + r.offset < ALPHABET_SIZE
    ensures ApplyRotor(r, code) == ApplyRotorAsWritten(r, code)
  {
  }

  /** With a permutation wiring, the corrected lookup is a bijection on the
      codes at every offset: distinct codes stay distinct. */
  lemma ApplyRotorInjective(r: Rotor, x: Byte, y: Byte)
    requires WellFormed(r) && IsPermutation(r.wiring) && IsCode(x) && IsCode(y)
    requires ApplyRotor(r, x) == ApplyRotor(r, y)
    ensures x == y
  {
    var i, j := (x + r.offset) % 26, (y + r.offset) % 26;
    assert i == j;
    assert i == if x + r.offset < ALPHABET_SIZE then x + r.offset else x + r.offset - ALPHABET_SIZE;
    assert j == if y + r.offset < ALPHABET_SIZE then y + r.offset else y + r.offset - ALPHABET_SIZE;
  }

  /** The forward substitution: the rotors in index order, `rs[0]` first. */
  function ForwardPass(rs: seq<Rotor>, code: Byte): (c: Byte)
    requires AllWellFormed(rs)
    ensures rs != [] || IsCode(code) ==> IsCode(c)
    decreases |rs|
  {
    if rs == [] then code else ForwardPass(rs[1..], ApplyRotor(rs[0], code))
  }

  /** The backward substitution: the rotors from the last index down to 0,
      through the same forward tables (the C code has no inverse wiring). */
  function BackwardPass(rs: seq<Rotor>, code: Byte): (c: Byte)
    requires AllWellFormed(rs)
    ensures rs != [] || IsCode(code) ==> IsCode(c)
    decreases |rs|
  {
    if rs == [] then code else BackwardPass(rs[..|rs| - 1], ApplyRotor(rs[|rs| - 1], code))
  }

  /** On the three rotors of a machine: forward is rotor 0, then 1, then 2;
      backward is rotor 2, then 1, then 0, each through its forward table. */
  lemma PassesOnThree(rs: seq<Rotor>, code: Byte)
    requires WellFormedRotors(rs)
    ensures ForwardPass(rs, code) == ApplyRotor(rs[2], ApplyRotor(rs[1], ApplyRotor(rs[0], code)))
    ensures BackwardPass(rs, code) == ApplyRotor(rs[0], ApplyRotor(rs[1], ApplyRotor(rs[2], code)))
  {
    var c0 := ApplyRotor(rs[0], code);
    var c1 := ApplyRotor(rs[1], c0);
    assert ForwardPass(rs[1..], c0) == ForwardPass(rs[1..][1..], c1);
    assert ForwardPass(rs[1..][1..], c1) == ForwardPass(rs[1..][1..][1..], ApplyRotor(rs[2], c1));
    var b2 := ApplyRotor(rs[2], code);
    var b1 := ApplyRotor(rs[1], b2);
    assert rs[..2][..1] == [rs[0]] && rs[..2] == [rs[0], rs[1]];
    assert BackwardPass(rs[..2], b2) == BackwardPass(rs[..2][..1], b1);
    assert BackwardPass(rs[..2][..1], b1) == BackwardPass(rs[..2][..1][..0], ApplyRotor(rs[0], b1));
  }

  /** With permutation wirings, both passes are bijections on the codes. */
  lemma {:induction false} PassesInjective(rs: seq<Rotor>, x: Byte, y: Byte)
    requires AllWellFormed(rs) && IsCode(x) && IsCode(y)
    requires forall i :: 0 <= i < |rs| ==> IsPermutation(rs[i].wiring)
    ensures ForwardPass(rs, x) == ForwardPass(rs, y) ==> x == y
    ensures BackwardPass(rs, x) == BackwardPass(rs, y) ==> x == y
    decreases |rs|
  {
    if rs != [] {
      var front, back := rs[1..], rs[..|rs| - 1];
      var last := |rs| - 1;
      PassesInjective(front, ApplyRotor(rs[0], x), ApplyRotor(rs[0], y));
      PassesInjective(back, ApplyRotor(rs[last], x), ApplyRotor(rs[last], y));
      if ForwardPass(rs, x) == ForwardPass(rs, y) {
        ApplyRotorInjective(rs[0], x, y);
      }
      if BackwardPass(rs, x) == BackwardPass(rs, y) {
        ApplyRotorInjective(rs[last], x, y);
      }
    }
  }

  /** One step of a rotor: `offset = (offset + 1) % ALPHABET_SIZE`. */
  function Advance(r: Rotor): (a: Rotor)
    ensures a.wiring == r.wiring && a.ringPosition == r.ringPosition
    ensures WellFormed(r) ==> WellFormed(a)
  {
    r.(offset := (r.offset + 1) % ALPHABET_SIZE)
  }

  predicate AtTurnover(r: Rotor) {
    r.offset == r.ringPosition
  }

  /** The stepping of `apply_rotors` after a forward pass: first the
      double-step check on rotor 1, else the turnover check on rotor 0, both
      on the offsets before this step; then rotor 0 advances. */
  function StepRotors(rs: seq<Rotor>): (s: seq<Rotor>)
    requires |rs| == 3
    ensures |s| == 3
    ensures WellFormedRotors(rs) ==> WellFormedRotors(s)
  {
    [ Advance(rs[0]),
      if AtTurnover(rs[1]) || AtTurnover(rs[0]) then Advance(rs[1]) else rs[1],
      if AtTurnover(rs[1]) then Advance(rs[2]) else rs[2] ]
  }

  /** The stepping rule on the offsets: rotor 0 always advances; rotor 1
      advances when it or rotor 0 is at its turnover; rotor 2 advances exactly
      when rotor 1 is at its turnover. */
  lemma StepRule(rs: seq<Rotor>)
    requires |rs| == 3
    ensures StepRotors(rs)[0].offset == (rs[0].offset + 1) % 26
    ensures StepRotors(rs)[1].offset ==
      if AtTurnover(rs[1]) || AtTurnover(rs[0]) then (rs[1].offset + 1) % 26 else rs[1].offset
    ensures StepRotors(rs)[2].offset ==
      if AtTurnover(rs[1]) then (rs[2].offset + 1) % 26 else rs[2].offset
  {
  }

  /** `n` characters' worth of stepping. */
  function Steps(rs: seq<Rotor>, n: nat): (s: seq<Rotor>)
    requires |rs| == 3
    ensures |s| == 3
  {
    if n == 0 then rs else StepRotors(Steps(rs, n - 1))
  }

  /** Stepping never rewires a rotor or moves its turnover position. */
  lemma {:induction false} StepsKeepWiring(rs: seq<Rotor>, n: nat)
    requires |rs| == 3
    ensures forall i :: 0 <= i < 3 ==>
      Steps(rs, n)[i].wiring == rs[i].wiring && Steps(rs, n)[i].ringPosition == rs[i].ringPosition
    ensures WellFormedRotors(rs) ==> WellFormedRotors(Steps(rs, n))
  {
    if n > 0 {
      StepsKeepWiring(rs, n - 1);
    }
  }

  /** Stepping `a` times and then `b` times is stepping `a + b` times. */
  lemma {:induction false} StepsAdd(rs: seq<Rotor>, a: nat, b: nat)
    requires |rs| == 3
    ensures Steps(Steps(rs, a), b) == Steps(rs, a + b)
  {
    if b > 0 {
      StepsAdd(rs, a, b - 1);
    }
  }

  /** One step and then `n` more is `n + 1` steps. */
  lemma {:induction false} StepsFirst(rs: seq<Rotor>, n: nat)
    requires |rs| == 3
    ensures Steps(StepRotors(rs), n) == Steps(rs, n + 1)
  {
    if n > 0 {
      StepsFirst(rs, n - 1);
    }
  }

  /** Rotor 0 advances once per step: after `n` steps it has moved by `n`
      modulo the alphabet size. */
  lemma {:induction false} FastRotorAdvance(rs: seq<Rotor>, n: nat)
    requires |rs| == 3 && IsCode(rs[0].offset)
    ensures Steps(rs, n)[0].offset == (rs[0].offset + n) % 26
  {
    if n > 0 {
      var a := rs[0].offset + n - 1;
      assert (a % 26 + 1) % 26 == (a + 1) % 26 by {
        var q, r := a / 26, a % 26;
        assert a == 26 * q + r;
        if r + 1 < ALPHABET_SIZE {
          assert a + 1 == ALPHABET_SIZE * q + (r + 1);
        } else {
          assert a + 1 == ALPHABET_SIZE * (q + 1);
        }
      }
      FastRotorAdvance(rs, n - 1);
      StepRule(Steps(rs, n - 1));
    }
  }

  /** The double step: when rotor 0 is at its turnover and rotor 1 one short
      of its own, rotor 1 advances on two consecutive steps and drags rotor 2
      along on the second. */
  lemma DoubleStep(rs: seq<Rotor>)
    requires WellFormedRotors(rs)
    requires AtTurnover(rs[0]) && (rs[1].offset + 1) % 26 == rs[1].ringPosition
    ensures StepRotors(rs)[1].offset == rs[1].ringPosition
    ensures StepRotors(StepRotors(rs))[1].offset == (rs[1].offset + 2) % 26
    ensures StepRotors(StepRotors(rs))[2].offset == (rs[2].offset + 1) % 26
  {
    StepRule(rs);
    StepRule(StepRotors(rs));
  }

  /** From any offset, rotor 0 reaches its turnover position after
      `(turnover - offset) mod 26` steps. */
  lemma StepsToTurnover(rs: seq<Rotor>)
    requires |rs| == 3 && IsCode(rs[0].offset) && IsCode(rs[0].ringPosition)
    ensures AtTurnover(Steps(rs, (rs[0].ringPosition - rs[0].offset) % 26)[0])
  {
    var o, t := rs[0].offset, rs[0].ringPosition;
    var k := (t - o) % 26;
    assert (o + k) % 26 == t by {
      if t >= o {
        assert k == t - o;
      } else {
        assert k == t - o + ALPHABET_SIZE;
      }
    }
    FastRotorAdvance(rs, k);
    StepsKeepWiring(rs, k);
  }

  /** On the step taken while rotor 0 sits at its turnover, rotor 1
      advances. */
  lemma MiddleRotorAdvancesAtTurnover(rs: seq<Rotor>, k: nat)
    requires |rs| == 3 && AtTurnover(Steps(rs, k)[0])
    ensures Steps(rs, k + 1)[1].offset == (Steps(rs, k)[1].offset + 1) % 26
  {
    StepRule(Steps(rs, k));
  }

  /** Rotor 1 advances at least once in any 26 consecutive steps. */
  lemma MiddleRotorAdvancesWithinCycle(rs: seq<Rotor>)
    requires |rs| == 3 && IsCode(rs[0].offset) && IsCode(rs[0].ringPosition)
    ensures var k := (rs[0].ringPosition - rs[0].offset) % 26;
      k < 26 &&
      Steps(rs, k + 1)[1].offset == (Steps(rs, k)[1].offset + 1) % 26
  {
    var k := (rs[0].ringPosition - rs[0].offset) % 26;
    StepsToTurnover(rs);
    MiddleRotorAdvancesAtTurnover(rs, k);
  }
}
