/**
  Hexadecimal text over octets, as the standard `encoding/hex` package writes
  it, and the ASCII character classes the UUID text form is built from.
  Text is a sequence of octets: a Go string is indexed and measured in bytes.
*/
module Hex {

  type byte = bv8

  /** The lower-case digit for a nibble: "0123456789abcdef"[n]. */
  function Digit(n: byte): (c: byte)
    requires n < 16
  {
    if n < 10 then 0x30 + n else 0x61 + (n - 10)
  }

  /** High and low nibble of an octet. */
  function Hi(b: byte): (n: byte)
    ensures n < 16
  {
    b >> 4
  }

  function Lo(b: byte): (n: byte)
    ensures n < 16
  {
    b & 0x0F
  }

  /** ASCII lower-casing of one octet ('A'..'Z' to 'a'..'z'); every other
      octet is left alone. */
  function ToLower(c: byte): byte {
    if 0x41 <= c <= 0x5A then c + 0x20 else c
  }

  function Lower(s: seq<byte>): (r: seq<byte>)
    ensures |r| == |s|
    ensures forall i :: 0 <= i < |s| ==> r[i] == ToLower(s[i])
  {
    seq(|s|, i requires 0 <= i < |s| => ToLower(s[i]))
  }

  /** A hexadecimal digit of either case: '0'..'9', 'a'..'f' or 'A'..'F'. */
  predicate IsHexDigit(c: byte) {
    (0x30 <= c <= 0x39) || (0x61 <= c <= 0x66) || (0x41 <= c <= 0x46)
  }

  /** A lower-case hexadecimal digit, '0'..'9' or 'a'..'f': what hex.Encode writes. */
  predicate IsLowerHexDigit(c: byte) {
    (0x30 <= c <= 0x39) || (0x61 <= c <= 0x66)
  }

  /** What hex.Encode writes for one octet: high nibble first. */
  function EncodeByte(b: byte): (r: seq<byte>)
  {
    [Digit(Hi(b)), Digit(Lo(b))]
  }

  /** hex.Encode: two lower-case digits per octet, in order. */
  function Encode(src: seq<byte>): (r: seq<byte>)
    ensures |r| == 2 * |src|
  {
    if src == [] then [] else EncodeByte(src[0]) + Encode(src[1..])
  }

  /** Octet `i` of the source is written at `2 * i`, high digit first. */
  lemma {:induction false} EncodeAt(src: seq<byte>, i: nat)
    requires i < |src|
    ensures Encode(src)[2 * i] == Digit(Hi(src[i]))
    ensures Encode(src)[2 * i + 1] == Digit(Lo(src[i]))
  {
    if i > 0 {
      EncodeAt(src[1..], i - 1);
    }
  }

  /** The digit function is the table "0123456789abcdef". */
  lemma DigitTable()
    ensures seq(16, n requires 0 <= n < 16 => Digit(n as byte)) ==
      [0x30, 0x31, 0x32, 0x33, 0x34, 0x35, 0x36, 0x37, 0x38, 0x39,
       0x61, 0x62, 0x63, 0x64, 0x65, 0x66]
  {
  }

  /** Every digit written is a lower-case hex digit. */
  lemma DigitIsLowerHex(n: byte)
    requires n < 16
    ensures IsLowerHexDigit(Digit(n))
  {
  }

  /** No two nibbles share a digit. */
  lemma DigitsDistinct(m: byte, n: byte)
    requires m < 16 && n < 16 && Digit(m) == Digit(n)
    ensures m == n
  {
  }

  /** Lower-casing neither makes nor unmakes a digit, and makes every digit lower case. */
  lemma LowerKeepsHexDigit(c: byte)
    ensures IsHexDigit(ToLower(c)) <==> IsHexDigit(c)
    ensures IsHexDigit(c) ==> IsLowerHexDigit(ToLower(c))
  {
  }

  /** Shifting one nibble high and or-ing in another gives back both. */
  lemma NibblesJoin(high: byte, low: byte)
    requires high < 16 && low < 16
    ensures Hi((high << 4) | low) == high && Lo((high << 4) | low) == low
  {
  }

  /** An octet is determined by its two nibbles. */
  lemma NibblesDetermine(x: byte, y: byte)
    requires Hi(x) == Hi(y) && Lo(x) == Lo(y)
    ensures x == y
  {
  }
}
