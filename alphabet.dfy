/** The 26-letter alphabet of the machine and the conversions between
    letters (bytes) and symbol codes, with the C `uint8_t` arithmetic
    written out. */
module Alphabet {

  const ALPHABET_SIZE: nat := 26
  const PLUGBOARD_SIZE: nat := 10

  /** An unsigned 8-bit value, the C `uint8_t`. */
  type Byte = b: int | 0 <= b < 256

  /** A symbol code: a byte in [0, ALPHABET_SIZE). */
  predicate IsCode(b: int) {
    0 <= b < ALPHABET_SIZE
  }

  /** An upper-case ASCII letter. */
  predicate IsUpper(ch: Byte) {
    'A' as int <= ch <= 'Z' as int
  }

  /** A text of upper-case ASCII letters. */
  predicate IsUpperText(s: seq<Byte>) {
    forall i :: 0 <= i < |s| ==> IsUpper(s[i])
  }

  /** `CHAR2CODE(ch)`: `ch - 'A'` truncated to `uint8_t`. */
  function CharToCode(ch: Byte): (code: Byte)
    ensures IsCode(code) <==> IsUpper(ch)
  {
    (ch - 'A' as int) % 256
  }

  /** `CODE2CHAR(code)`: `'A' + code` truncated to 8 bits. */
  function CodeToChar(code: Byte): (ch: Byte)
    ensures IsCode(code) ==> IsUpper(ch)
  {
    ('A' as int + code) % 256
  }

  /** Decoding a letter and encoding it again gives back the letter. */
  lemma LetterRoundTrip(ch: Byte)
    requires IsUpper(ch)
    ensures CodeToChar(CharToCode(ch)) == ch
  {
  }

  /** Encoding a code as a letter and decoding it gives back the code. */
  lemma CodeRoundTrip(code: Byte)
    requires IsCode(code)
    ensures CharToCode(CodeToChar(code)) == code
  {
  }

  /** Every code is one of the 26 literal values: lets a proof about a
      literal table go case by case. */
  lemma CodeCases(x: int)
    requires IsCode(x)
    ensures x == 0 || x == 1 || x == 2 || x == 3 || x == 4 || x == 5 || x == 6
         || x == 7 || x == 8 || x == 9 || x == 10 || x == 11 || x == 12
         || x == 13 || x == 14 || x == 15 || x == 16 || x == 17 || x == 18
         || x == 19 || x == 20 || x == 21 || x == 22 || x == 23 || x == 24
         || x == 25
  {
  }
}
