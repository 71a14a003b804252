/** The fixed catalogue of rotor and reflector models (`init_rotor`,
    `init_reflector`): their alphabet strings, the rotors' turnover letters,
    and the lookup by name. */
module Catalogue {
  import opened Alphabet
  import opened Wiring

  datatype Option<T> = None | Some(value: T)

  datatype RotorName = I | II | III | IV | V

  datatype ReflectorName = A | B | C

  /** The name under which a rotor model is selected. */
  function RotorLabel(n: RotorName): string {
    match n
    case I => "I"
    case II => "II"
    case III => "III"
    case IV => "IV"
    case V => "V"
  }

  /** The rotor model `init_rotor` picks for a name: an exact string match,
      and no model at all for any other name (the offset is then still set
      to 0, but the turnover position and the wiring stay unset). */
  function RotorByName(s: string): (r: Option<RotorName>)
    ensures r.Some? ==> RotorLabel(r.value) == s
  {
    if s == "I" then Some(I)
    else if s == "II" then Some(II)
    else if s == "III" then Some(III)
    else if s == "IV" then Some(IV)
    else if s == "V" then Some(V)
    else None
  }

  /** Every rotor model is found under its own label. */
  lemma RotorLabelRoundTrip(n: RotorName)
    ensures RotorByName(RotorLabel(n)) == Some(n)
  {
  }

  /** The letter a reflector model's name starts with. */
  function ReflectorLetter(n: ReflectorName): char {
    match n
    case A => 'A'
    case B => 'B'
    case C => 'C'
  }

  /** The reflector model `init_reflector` picks for a name: it compares only
      the first character (`strncmp(name, "B", 1)`), so "Bogus" selects B;
      no model for a name that does not start with A, B or C. */
  function ReflectorByName(s: string): (r: Option<ReflectorName>)
    ensures r.Some? <==> |s| >= 1 && s[0] in "ABC"
    ensures r.Some? ==> s[0] == ReflectorLetter(r.value)
  {
    if |s| >= 1 && s[0] == 'A' then Some(A)
    else if |s| >= 1 && s[0] == 'B' then Some(B)
    else if |s| >= 1 && s[0] == 'C' then Some(C)
    else None
  }

  /** Only the first character of a reflector name matters. */
  lemma ReflectorByNameFirstCharacter(s: string, t: string)
    requires |s| >= 1 && |t| >= 1 && s[0] == t[0]
    ensures ReflectorByName(s) == ReflectorByName(t)
  {
  }

  /** The alphabet string of each rotor model, enigma.h:88-100. */
  function RotorAlphabet(n: RotorName): (s: string)
    ensures |s| == ALPHABET_SIZE
  {
    match n
    case I => "EKMFLGDQVZNTOWYHXUSPAIBRCJ"
    case II => "AJDKSIRUXBLHWTMCQGZNPYFVOE"
    case III => "BDFHJLCPRTXVZNYEIWGAKMUSQO"
    case IV => "ESOVPZJAYQUIRHXLNFTGKDCMWB"
    case V => "VZBRGITYUPSDNHLXAWMJQOFECK"
  }

  /** The turnover letter of each rotor model, stored by the C code in the
      field `ring_position`, as a code. */
  function Turnover(n: RotorName): (t: Byte)
    ensures IsCode(t)
  {
    match n
    case I => 'R' as int - 'A' as int
    case II => 'F' as int - 'A' as int
    case III => 'W' as int - 'A' as int
    case IV => 'K' as int - 'A' as int
    case V => 'A' as int - 'A' as int
  }

  /** The alphabet string of each reflector model, enigma.h:106-110. */
  function ReflectorAlphabet(n: ReflectorName): (s: string)
    ensures |s| == ALPHABET_SIZE
  {
    match n
    case A => "EJMZALYXVBWFCRQUONTSPIKHGD"
    case B => "YRUHQSLDPXNGOKMIEBFZCWVJAT"
    case C => "FVPJIAOYEDRZXWGCTKUQSBNMHL"
  }

  /** Every rotor string is an arrangement of A-Z, so `init_wiring` turns it
      into a bijection on the codes. */
  lemma RotorWiringIsPermutation(n: RotorName)
    ensures IsPermutation(WiringOf(RotorAlphabet(n)))
  {
    match n
    case I => RotorIEntries(); RotorITable(WiringOf(RotorAlphabet(I)),
        [20, 22, 24, 6, 0, 3, 5, 15, 21, 25, 1, 4, 2, 10, 12, 19, 7, 23, 18, 11, 17, 8, 13, 16, 14, 9]);
    case II => RotorIIEntries(); RotorIITable(WiringOf(RotorAlphabet(II)),
        [0, 9, 15, 2, 25, 22, 17, 11, 5, 1, 3, 10, 14, 19, 24, 20, 16, 6, 4, 13, 7, 23, 12, 8, 21, 18]);
    case III => RotorIIIEntries(); RotorIIITable(WiringOf(RotorAlphabet(III)),
        [19, 0, 6, 1, 15, 2, 18, 3, 16, 4, 20, 5, 21, 13, 25, 7, 24, 8, 23, 9, 22, 11, 17, 10, 14, 12]);
    case IV => RotorIVEntries(); RotorIVTable(WiringOf(RotorAlphabet(IV)),
        [7, 25, 22, 21, 0, 17, 19, 13, 11, 6, 20, 15, 23, 16, 2, 4, 9, 12, 1, 18, 10, 3, 24, 14, 8, 5]);
    case V => RotorVEntries(); RotorVTable(WiringOf(RotorAlphabet(V)),
        [16, 2, 24, 11, 23, 22, 4, 13, 5, 19, 25, 14, 18, 12, 21, 9, 20, 3, 10, 6, 8, 0, 17, 15, 7, 1]);
  }

  lemma RotorIEntries()
    ensures WiringOf(RotorAlphabet(I)) == [4, 10, 12, 5, 11, 6, 3, 16, 21, 25, 13, 19, 14, 22, 24, 7, 23, 20, 18, 15, 0, 8, 1, 17, 2, 9]
  {
  }

  lemma RotorITable(w: seq<Byte>, inv: seq<Byte>)
    requires w == [4, 10, 12, 5, 11, 6, 3, 16, 21, 25, 13, 19, 14, 22, 24, 7, 23, 20, 18, 15, 0, 8, 1, 17, 2, 9]
    requires inv == [20, 22, 24, 6, 0, 3, 5, 15, 21, 25, 1, 4, 2, 10, 12, 19, 7, 23, 18, 11, 17, 8, 13, 16, 14, 9]
    ensures IsPermutation(w)
  {
    forall x | 0 <= x < ALPHABET_SIZE ensures IsCode(w[x]) && inv[w[x]] == x {
      CodeCases(x);
    }
    PermutationByInverse(w, inv);
  }

  lemma RotorIIEntries()
    ensures WiringOf(RotorAlphabet(II)) == [0, 9, 3, 10, 18, 8, 17, 20, 23, 1, 11, 7, 22, 19, 12, 2, 16, 6, 25, 13, 15, 24, 5, 21, 14, 4]
  {
  }

  lemma RotorIITable(w: seq<Byte>, inv: seq<Byte>)
    requires w == [0, 9, 3, 10, 18, 8, 17, 20, 23, 1, 11, 7, 22, 19, 12, 2, 16, 6, 25, 13, 15, 24, 5, 21, 14, 4]
    requires inv == [0, 9, 15, 2, 25, 22, 17, 11, 5, 1, 3, 10, 14, 19, 24, 20, 16, 6, 4, 13, 7, 23, 12, 8, 21, 18]
    ensures IsPermutation(w)
  {
    forall x | 0 <= x < ALPHABET_SIZE ensures IsCode(w[x]) && inv[w[x]] == x {
      CodeCases(x);
    }
    PermutationByInverse(w, inv);
  }

  lemma RotorIIIEntries()
    ensures WiringOf(RotorAlphabet(III)) == [1, 3, 5, 7, 9, 11, 2, 15, 17, 19, 23, 21, 25, 13, 24, 4, 8, 22, 6, 0, 10, 12, 20, 18, 16, 14]
  {
  }

  lemma RotorIIITable(w: seq<Byte>, inv: seq<Byte>)
    requires w == [1, 3, 5, 7, 9, 11, 2, 15, 17, 19, 23, 21, 25, 13, 24, 4, 8, 22, 6, 0, 10, 12, 20, 18, 16, 14]
    requires inv == [19, 0, 6, 1, 15, 2, 18, 3, 16, 4, 20, 5, 21, 13, 25, 7, 24, 8, 23, 9, 22, 11, 17, 10, 14, 12]
    ensures IsPermutation(w)
  {
    forall x | 0 <= x < ALPHABET_SIZE ensures IsCode(w[x]) && inv[w[x]] == x {
      CodeCases(x);
    }
    PermutationByInverse(w, inv);
  }

  lemma RotorIVEntries()
    ensures WiringOf(RotorAlphabet(IV)) == [4, 18, 14, 21, 15, 25, 9, 0, 24, 16, 20, 8, 17, 7, 23, 11, 13, 5, 19, 6, 10, 3, 2, 12, 22, 1]
  {
  }

  lemma RotorIVTable(w: seq<Byte>, inv: seq<Byte>)
    requires w == [4, 18, 14, 21, 15, 25, 9, 0, 24, 16, 20, 8, 17, 7, 23, 11, 13, 5, 19, 6, 10, 3, 2, 12, 22, 1]
    requires inv == [7, 25, 22, 21, 0, 17, 19, 13, 11, 6, 20, 15, 23, 16, 2, 4, 9, 12, 1, 18, 10, 3, 24, 14, 8, 5]
    ensures IsPermutation(w)
  {
    forall x | 0 <= x < ALPHABET_SIZE ensures IsCode(w[x]) && inv[w[x]] == x {
      CodeCases(x);
    }
    PermutationByInverse(w, inv);
  }

  lemma RotorVEntries()
    ensures WiringOf(RotorAlphabet(V)) == [21, 25, 1, 17, 6, 8, 19, 24, 20, 15, 18, 3, 13, 7, 11, 23, 0, 22, 12, 9, 16, 14, 5, 4, 2, 10]
  {
  }

  lemma RotorVTable(w: seq<Byte>, inv: seq<Byte>)
    requires w == [21, 25, 1, 17, 6, 8, 19, 24, 20, 15, 18, 3, 13, 7, 11, 23, 0, 22, 12, 9, 16, 14, 5, 4, 2, 10]
    requires inv == [16, 2, 24, 11, 23, 22, 4, 13, 5, 19, 25, 14, 18, 12, 21, 9, 20, 3, 10, 6, 8, 0, 17, 15, 7, 1]
    ensures IsPermutation(w)
  {
    forall x | 0 <= x < ALPHABET_SIZE ensures IsCode(w[x]) && inv[w[x]] == x {
      CodeCases(x);
    }
    PermutationByInverse(w, inv);
  }

  /** Every reflector table is self-inverse and maps no letter to itself. */
  lemma ReflectorWiringIsReflection(n: ReflectorName)
    ensures IsReflection(WiringOf(ReflectorAlphabet(n)))
  {
    match n
    case A => ReflectorAEntries(); ReflectorATable(WiringOf(ReflectorAlphabet(A)));
    case B => ReflectorBEntries(); ReflectorBTable(WiringOf(ReflectorAlphabet(B)));
    case C => ReflectorCEntries(); ReflectorCTable(WiringOf(ReflectorAlphabet(C)));
  }

  lemma ReflectorAEntries()
    ensures WiringOf(ReflectorAlphabet(A)) == [4, 9, 12, 25, 0, 11, 24, 23, 21, 1, 22, 5, 2, 17, 16, 20, 14, 13, 19, 18, 15, 8, 10, 7, 6, 3]
  {
  }

  lemma ReflectorATable(w: seq<Byte>)
    requires w == [4, 9, 12, 25, 0, 11, 24, 23, 21, 1, 22, 5, 2, 17, 16, 20, 14, 13, 19, 18, 15, 8, 10, 7, 6, 3]
    ensures IsReflection(w)
  {
    forall x | 0 <= x < ALPHABET_SIZE ensures IsCode(w[x]) && w[w[x]] == x && w[x] != x {
      CodeCases(x);
    }
  }

  lemma ReflectorBEntries()
    ensures WiringOf(ReflectorAlphabet(B)) == [24, 17, 20, 7, 16, 18, 11, 3, 15, 23, 13, 6, 14, 10, 12, 8, 4, 1, 5, 25, 2, 22, 21, 9, 0, 19]
  {
  }

  lemma ReflectorBTable(w: seq<Byte>)
    requires w == [24, 17, 20, 7, 16, 18, 11, 3, 15, 23, 13, 6, 14, 10, 12, 8, 4, 1, 5, 25, 2, 22, 21, 9, 0, 19]
    ensures IsReflection(w)
  {
    forall x | 0 <= x < ALPHABET_SIZE ensures IsCode(w[x]) && w[w[x]] == x && w[x] != x {
      CodeCases(x);
    }
  }

  lemma ReflectorCEntries()
    ensures WiringOf(ReflectorAlphabet(C)) == [5, 21, 15, 9, 8, 0, 14, 24, 4, 3, 17, 25, 23, 22, 6, 2, 19, 10, 20, 16, 18, 1, 13, 12, 7, 11]
  {
  }

  lemma ReflectorCTable(w: seq<Byte>)
    requires w == [5, 21, 15, 9, 8, 0, 14, 24, 4, 3, 17, 25, 23, 22, 6, 2, 19, 10, 20, 16, 18, 1, 13, 12, 7, 11]
    ensures IsReflection(w)
  {
    forall x | 0 <= x < ALPHABET_SIZE ensures IsCode(w[x]) && w[w[x]] == x && w[x] != x {
      CodeCases(x);
    }
  }
}
