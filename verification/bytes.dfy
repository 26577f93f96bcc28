/** Bytes, the byte classes the lexer distinguishes, and decimal text.

    The reader and writer work on `std::string` one byte at a time, so the
    whole model is stated over byte sequences. */
module Bytes {

  type byte = b: int | 0 <= b < 256
  type bytes = seq<byte>

  const TAB: byte := 9
  const LF: byte := 10
  const CR: byte := 13
  const SPACE: byte := 32
  const QUOTE: byte := 34       // "
  const DOLLAR: byte := 36      // $
  const APOSTROPHE: byte := 39  // '
  const LPAREN: byte := 40      // (
  const RPAREN: byte := 41      // )
  const COMMA: byte := 44       // ,
  const MINUS: byte := 45       // -
  const COLON: byte := 58       // :
  const LBRACKET: byte := 91    // [
  const BACKSLASH: byte := 92   // \
  const RBRACKET: byte := 93    // ]
  const LBRACE: byte := 123     // {
  const RBRACE: byte := 125     // }

  /** The bytes of an ASCII string literal (characters are taken modulo 256). */
  function Ascii(s: string): (r: bytes)
    ensures |r| == |s|
  {
    seq(|s|, i requires 0 <= i < |s| => (s[i] as int) % 256)
  }

  /** `isdigit` in the C locale. */
  predicate IsDigit(b: byte) {
    '0' as int <= b <= '9' as int
  }

  /** `isalpha` in the C locale: ASCII letters only. */
  predicate IsAlpha(b: byte) {
    'A' as int <= b <= 'Z' as int || 'a' as int <= b <= 'z' as int
  }

  predicate AllDigits(s: bytes) {
    forall i :: 0 <= i < |s| ==> IsDigit(s[i])
  }

  predicate AllAlpha(s: bytes) {
    forall i :: 0 <= i < |s| ==> IsAlpha(s[i])
  }

  /** Every byte is a single-byte (7-bit) character. */
  predicate IsAscii(s: bytes) {
    forall i :: 0 <= i < |s| ==> s[i] < 0x80
  }

  /** The decimal text `std::to_string` writes for a non-negative value:
      most significant digit first, no leading zeros. */
  function Decimal(n: nat): (r: bytes)
    ensures 1 <= |r|
    ensures AllDigits(r)
    ensures r[0] == '0' as int ==> n == 0
  {
    if n < 10 then ['0' as int + n] else Decimal(n / 10) + ['0' as int + n % 10]
  }

  /** The value `get_number` accumulates over a run of digits:
      starting from zero, `v := 10 * v + digit` from left to right. */
  function DecimalValue(ds: bytes): nat
    requires AllDigits(ds)
  {
    if |ds| == 0 then 0
    else 10 * DecimalValue(ds[..|ds| - 1]) + (ds[|ds| - 1] - '0' as int)
  }

  /** Reading back the decimal text of n gives n. */
  lemma {:induction false} DecimalRoundTrip(n: nat)
    ensures DecimalValue(Decimal(n)) == n
  {
    if n >= 10 {
      var d := Decimal(n);
      assert d[..|d| - 1] == Decimal(n / 10);
      DecimalRoundTrip(n / 10);
    }
  }

  /** A decimal text holds no byte that frames a raw block. */
  lemma DecimalHasNoRightParen(n: nat)
    ensures RPAREN !in Decimal(n)
  {
  }
}
