/** The machine: the per-character signal path through plugboard, rotors and
    reflector, the buffer loop of `apply_enigma`, and the `Enigma` object
    whose rotor offsets change with every character. */
module Machine {
  import opened Alphabet
  import opened Wiring
  import opened Catalogue
  import opened Plugboard
  import opened Rotors

  /** The direction argument of `apply_rotors`. */
  datatype RotorOrder = Forward | Backward

  /** The contents of an `Enigma` struct, as a value. */
  datatype State = State(plugboard: seq<Pair>, rotors: seq<Rotor>, reflector: seq<Byte>)

  predicate WellFormedState(m: State) {
    |m.plugboard| <= PLUGBOARD_SIZE && PairsAreCodes(m.plugboard)
    && WellFormedRotors(m.rotors) && IsTable(m.reflector)
  }

  /** The machine `init_enigma` builds: the rotors in the order the names are
      given, index 0 first, the reflector table, and the plugboard as
      supplied. */
  function Initial(rotorNames: seq<RotorName>, reflectorName: ReflectorName, board: seq<Pair>): (m: State)
    requires |rotorNames| == 3
    ensures |m.rotors| == 3
  {
    State(board,
          [CatalogueRotor(rotorNames[0]), CatalogueRotor(rotorNames[1]), CatalogueRotor(rotorNames[2])],
          WiringOf(ReflectorAlphabet(reflectorName)))
  }

  /** A freshly built machine: every offset 0, rotor `i` is the model named
      `i`-th (no reversal), the reflector is self-inverse without fixed
      points, the plugboard is the one supplied, and the machine is well
      formed whenever the plugboard is within its limit. */
  lemma {:induction false} InitialState(rotorNames: seq<RotorName>, reflectorName: ReflectorName, board: seq<Pair>)
    requires |rotorNames| == 3
    ensures var m := Initial(rotorNames, reflectorName, board);
      (forall i :: 0 <= i < 3 ==>
        m.rotors[i].offset == 0 && m.rotors[i].ringPosition == Turnover(rotorNames[i])
        && m.rotors[i].wiring == WiringOf(RotorAlphabet(rotorNames[i])))
      && IsReflection(m.reflector) && m.plugboard == board
      && (|board| <= PLUGBOARD_SIZE && PairsAreCodes(board) ==> WellFormedState(m))
  {
    ReflectorWiringIsReflection(reflectorName);
  }

  /** The machine after `n` characters: only the rotor offsets have moved,
      by `n` steps. */
  function After(m: State, n: nat): (a: State)
    requires |m.rotors| == 3
    ensures a.plugboard == m.plugboard && a.reflector == m.reflector && |a.rotors| == 3
    ensures WellFormedState(m) ==> WellFormedState(a)
  {
    StepsKeepWiring(m.rotors, n);
    m.(rotors := Steps(m.rotors, n))
  }

  /** One character through `apply_enigma`'s loop body: plugboard, forward
      pass on the offsets in force, stepping, reflector, backward pass on the
      stepped offsets, plugboard. */
  function EncodeChar(m: State, ch: Byte): (c: Byte)
    requires WellFormedState(m) && IsUpper(ch)
    ensures IsUpper(c)
  {
    var forward := ForwardPass(m.rotors, Swap(m.plugboard, CharToCode(ch)));
    var backward := BackwardPass(StepRotors(m.rotors), m.reflector[forward]);
    CodeToChar(Swap(m.plugboard, backward))
  }

  /** Concatenation of output buffers is associative. */
  lemma Associative(a: seq<Byte>, b: seq<Byte>, c: seq<Byte>)
    ensures a + (b + c) == (a + b) + c
  {
  }

  /** A whole buffer, in order: the first letter through the machine as it
      stands, the rest through the machine stepped once. */
  function Encipher(m: State, input: seq<Byte>): (out: seq<Byte>)
    requires WellFormedState(m) && IsUpperText(input)
    ensures |out| == |input| && forall i :: 0 <= i < |out| ==> IsUpper(out[i])
    decreases |input|
  {
    if input == [] then []
    else [EncodeChar(m, input[0])] + Encipher(m.(rotors := StepRotors(m.rotors)), input[1..])
  }

  /** Output `i` of a buffer is letter `i` through the machine as it stands
      after `i` letters: one output per input letter, in order. */
  lemma {:induction false} EncipherAt(m: State, input: seq<Byte>, i: nat)
    requires WellFormedState(m) && IsUpperText(input)
    requires i < |input|
    ensures Encipher(m, input)[i] == EncodeChar(After(m, i), input[i])
    decreases i
  {
    if i > 0 {
      var m1 := m.(rotors := StepRotors(m.rotors));
      var rest := input[1..];
      assert Encipher(m, input)[i] == Encipher(m1, rest)[i - 1];
      EncipherAt(m1, rest, i - 1);
      StepsFirst(m.rotors, i - 1);
      var a1, a := After(m1, i - 1), After(m, i);
      assert a1 == a;
      assert rest[i - 1] == input[i];
    }
  }

  /** After a buffer of `n` letters, rotor 0 has advanced by `n` modulo 26. */
  lemma FastRotorAfterMessage(m: State, n: nat)
    requires WellFormedState(m)
    ensures After(m, n).rotors[0].offset == (m.rotors[0].offset + n) % 26
  {
    FastRotorAdvance(m.rotors, n);
  }

  /** With catalogue tables and no code on two plugs, distinct letters give
      distinct output letters at every rotor position. */
  lemma EncodeCharInjective(m: State, a: Byte, b: Byte)
    requires WellFormedState(m) && Disjoint(m.plugboard) && IsReflection(m.reflector)
    requires forall i :: 0 <= i < 3 ==> IsPermutation(m.rotors[i].wiring)
    requires IsUpper(a) && IsUpper(b) && EncodeChar(m, a) == EncodeChar(m, b)
    ensures a == b
  {
    var stepped := StepRotors(m.rotors);
    var inA, inB := Swap(m.plugboard, CharToCode(a)), Swap(m.plugboard, CharToCode(b));
    var fA, fB := ForwardPass(m.rotors, inA), ForwardPass(m.rotors, inB);
    var bA, bB := BackwardPass(stepped, m.reflector[fA]), BackwardPass(stepped, m.reflector[fB]);
    CodeRoundTrip(Swap(m.plugboard, bA));
    CodeRoundTrip(Swap(m.plugboard, bB));
    SwapInvolution(m.plugboard, bA);
    SwapInvolution(m.plugboard, bB);
    assert bA == bB;
    StepsKeepWiring(m.rotors, 1);
    assert Steps(m.rotors, 1) == stepped;
    PassesInjective(stepped, m.reflector[fA], m.reflector[fB]);
    ReflectionIsPermutation(m.reflector);
    PassesInjective(m.rotors, inA, inB);
    SwapInvolution(m.plugboard, CharToCode(a));
    SwapInvolution(m.plugboard, CharToCode(b));
    LetterRoundTrip(a);
    LetterRoundTrip(b);
  }

  /** On a machine with an empty plugboard whose rotor 0 starts at offset 0,
      the letter after the first reaches rotor 0 as code 25 for Z while the
      offset is 1. */
  lemma ZAfterOneLetter(m: State)
    requires WellFormedState(m) && m.plugboard == [] && m.rotors[0].offset == 0
    ensures var m1 := After(m, 1);
      Swap(m1.plugboard, CharToCode('Z' as int)) + m1.rotors[0].offset == |m1.rotors[0].wiring| == ALPHABET_SIZE
  {
    FastRotorAfterMessage(m, 1);
  }

  /** A letter after the first reaches rotor 0 of a freshly built machine with
      an empty plugboard with offset 1; the letter Z then arrives there as
      code 25, and the C index `code + offset` is 26, one past the end
      of the 26-entry table. */
  lemma AsWrittenIndexLeavesTable(rotorNames: seq<RotorName>, reflectorName: ReflectorName)
    requires |rotorNames| == 3
    ensures var m := After(Initial(rotorNames, reflectorName, []), 1);
      var code := Swap(m.plugboard, CharToCode('Z' as int));
      !(code + m.rotors[0].offset < |m.rotors[0].wiring|)
  {
    InitialState(rotorNames, reflectorName, []);
    ZAfterOneLetter(Initial(rotorNames, reflectorName, []));
  }

  /** `init_reflector`: fills the reflector table from the model's alphabet
      string. */
  method InitReflector(n: ReflectorName) returns (w: seq<Byte>)
    ensures w == WiringOf(ReflectorAlphabet(n)) && IsReflection(w)
  {
    var wiring := new Byte[ALPHABET_SIZE];
    InitWiring(wiring, ReflectorAlphabet(n), ALPHABET_SIZE);
    var alphabet := ReflectorAlphabet(n);
    assert alphabet[..ALPHABET_SIZE] == alphabet;
    w := wiring[..];
    ReflectorWiringIsReflection(n);
  }

  /** The C struct `Enigma`: a plugboard, three rotors and a reflector
      table. Only the rotor offsets change once it is built. */
  class Enigma {
    var plugboard: seq<Pair>
    var rotors: seq<Rotor>
    var reflector: seq<Byte>

    function Snapshot(): State
      reads this
    {
      State(plugboard, rotors, reflector)
    }

    ghost predicate Valid()
      reads this
    {
      WellFormedState(Snapshot())
    }

    /** The part of `init_enigma` after the plugboard check: the rotors in
        the order given, the reflector, and the plugboard as supplied. */
    constructor (rotorNames: seq<RotorName>, reflectorName: ReflectorName, board: seq<Pair>)
      requires |rotorNames| == 3 && |board| <= PLUGBOARD_SIZE && PairsAreCodes(board)
      ensures Valid() && Snapshot() == Initial(rotorNames, reflectorName, board)
    {
      var r0 := InitRotor(rotorNames[0]);
      var r1 := InitRotor(rotorNames[1]);
      var r2 := InitRotor(rotorNames[2]);
      var table := InitReflector(reflectorName);
      rotors := [r0, r1, r2];
      reflector := table;
      plugboard := board;
    }

    /** `apply_rotors`. Forward: substitutes through rotors 0, 1, 2 with the
        offsets in force, then steps the rotors. Backward: substitutes
        through rotors 2, 1, 0 and moves nothing. */
    method ApplyRotors(code: Byte, order: RotorOrder) returns (c: Byte)
      requires Valid()
      modifies this
      ensures Valid() && plugboard == old(plugboard) && reflector == old(reflector)
      ensures order == Forward ==> c == ForwardPass(old(rotors), code) && rotors == StepRotors(old(rotors))
      ensures order == Backward ==> c == BackwardPass(old(rotors), code) && rotors == old(rotors)
    {
      PassesOnThree(rotors, code);
      match order
      case Forward =>
        c := ApplyRotor(rotors[0], code);
        c := ApplyRotor(rotors[1], c);
        c := ApplyRotor(rotors[2], c);
        if rotors[1].offset == rotors[1].ringPosition {
          rotors := rotors[2 := rotors[2].(offset := (rotors[2].offset + 1) % ALPHABET_SIZE)];
          rotors := rotors[1 := rotors[1].(offset := (rotors[1].offset + 1) % ALPHABET_SIZE)];
        } else if rotors[0].offset == rotors[0].ringPosition {
          rotors := rotors[1 := rotors[1].(offset := (rotors[1].offset + 1) % ALPHABET_SIZE)];
        }
        rotors := rotors[0 := rotors[0].(offset := (rotors[0].offset + 1) % ALPHABET_SIZE)];
      case Backward =>
        c := ApplyRotor(rotors[2], code);
        c := ApplyRotor(rotors[1], c);
        c := ApplyRotor(rotors[0], c);
    }

    /** `apply_plugboard`: scans the plugs in order and returns at the first
        one that holds the code. */
    method ApplyPlugboard(code: Byte) returns (r: Byte)
      ensures r == Swap(plugboard, code)
    {
      var i := 0;
      while i < |plugboard|
        invariant 0 <= i <= |plugboard|
        invariant Swap(plugboard, code) == Swap(plugboard[i..], code)
      {
        if code == plugboard[i].0 {
          return plugboard[i].1;
        } else if code == plugboard[i].1 {
          return plugboard[i].0;
        }
        assert plugboard[i..][1..] == plugboard[i + 1..];
        i := i + 1;
      }
      return code;
    }

    /** `apply_reflector`: a plain lookup. With a catalogue reflector the
        result is never the code itself and reflects back to it. */
    method ApplyReflector(code: Byte) returns (c: Byte)
      requires Valid() && IsCode(code)
      ensures c == reflector[code] && IsCode(c)
      ensures IsReflection(reflector) ==> c != code && reflector[c] == code
    {
      c := reflector[code];
    }

    /** The body of `apply_enigma`'s loop for one letter: plugboard, rotors
        forward (which steps them), reflector, rotors backward, plugboard. */
    method EncodeLetter(letter: Byte) returns (out: Byte)
      requires Valid() && IsUpper(letter)
      modifies this
      ensures Valid() && out == EncodeChar(old(Snapshot()), letter)
      ensures Snapshot() == old(Snapshot()).(rotors := StepRotors(old(rotors)))
    {
      var charCode := CharToCode(letter);
      charCode := ApplyPlugboard(charCode);
      charCode := ApplyRotors(charCode, Forward);
      charCode := ApplyReflector(charCode);
      charCode := ApplyRotors(charCode, Backward);
      charCode := ApplyPlugboard(charCode);
      out := CodeToChar(charCode);
    }

    /** `apply_enigma`: writes one output letter per input letter, in order,
        into the first `|input|` cells of `output`, stepping the machine once
        per letter. */
    method ApplyEnigma(input: seq<Byte>, output: array<Byte>)
      requires Valid() && |input| <= output.Length
      requires IsUpperText(input)
      modifies this, output
      ensures Valid()
      ensures output[..|input|] == Encipher(old(Snapshot()), input)
      ensures output[|input|..] == old(output[|input|..])
      ensures Snapshot() == After(old(Snapshot()), |input|)
    {
      ghost var start := Snapshot();
      var i := 0;
      while i < |input|
        invariant 0 <= i <= |input| && Valid()
        invariant Encipher(start, input) == output[..i] + Encipher(Snapshot(), input[i..])
        invariant After(start, |input|) == After(Snapshot(), |input| - i)
        invariant output[|input|..] == old(output[|input|..])
      {
        ghost var before := Snapshot();
        output[i] := EncodeLetter(input[i]);
        assert input[i..][1..] == input[i + 1..];
        assert output[..i + 1] == output[..i] + [output[i]];
        Associative(output[..i], [output[i]], Encipher(Snapshot(), input[i + 1..]));
        StepsFirst(before.rotors, |input| - i - 1);
        i := i + 1;
      }
      assert After(Snapshot(), 0) == Snapshot();
    }

    /** `enigma_encrypt`: the ciphertext buffer must be as long as the
        plaintext; the transformation is `apply_enigma`'s. */
    method EnigmaEncrypt(plaintext: seq<Byte>, ciphertext: array<Byte>)
      requires Valid() && ciphertext.Length == |plaintext|
      requires IsUpperText(plaintext)
      modifies this, ciphertext
      ensures Valid()
      ensures ciphertext[..] == Encipher(old(Snapshot()), plaintext)
      ensures Snapshot() == After(old(Snapshot()), |plaintext|)
    {
      ApplyEnigma(plaintext, ciphertext);
    }

    /** `enigma_decrypt`: the same transformation as `enigma_encrypt`. */
    method EnigmaDecrypt(ciphertext: seq<Byte>, plaintext: array<Byte>)
      requires Valid() && plaintext.Length == |ciphertext|
      requires IsUpperText(ciphertext)
      modifies this, plaintext
      ensures Valid()
      ensures plaintext[..] == Encipher(old(Snapshot()), ciphertext)
      ensures Snapshot() == After(old(Snapshot()), |ciphertext|)
    {
      ApplyEnigma(ciphertext, plaintext);
    }
  }

  /** `init_enigma`: a plugboard with more than PLUGBOARD_SIZE plugs ends the
      process (no machine); otherwise a machine configured as named. */
  method InitEnigma(rotorNames: seq<RotorName>, reflectorName: ReflectorName, board: seq<Pair>)
    returns (e: Enigma?)
    requires |rotorNames| == 3 && PairsAreCodes(board)
    ensures (e == null) <==> |board| > PLUGBOARD_SIZE
    ensures e != null ==> fresh(e) && e.Valid() && e.Snapshot() == Initial(rotorNames, reflectorName, board)
  {
    if |board| > PLUGBOARD_SIZE {
      return null;
    }
    e := new Enigma(rotorNames, reflectorName, board);
  }
}
