/**
  Concrete cases of the parser's and formatter's behaviour.
*/
module Samples {
  import opened Hex
  import opened Uuid

  /** "550e8400-e29b-41d4-a716-44665544000": one digit short. */
  const Short: seq<byte> := [0x35, 0x35, 0x30, 0x65, 0x38, 0x34, 0x30, 0x30, 0x2D, 0x65, 0x32, 0x39, 0x62, 0x2D, 0x34, 0x31, 0x64, 0x34, 0x2D, 0x61, 0x37, 0x31, 0x36, 0x2D, 0x34, 0x34, 0x36, 0x36, 0x35, 0x35, 0x34, 0x34, 0x30, 0x30, 0x30]

  /** "550e8400_e29b-41d4-a716-446655440000": an underscore where the first dash belongs. */
  const Underscore: seq<byte> := [0x35, 0x35, 0x30, 0x65, 0x38, 0x34, 0x30, 0x30, 0x5F, 0x65, 0x32, 0x39, 0x62, 0x2D, 0x34, 0x31, 0x64, 0x34, 0x2D, 0x61, 0x37, 0x31, 0x36, 0x2D, 0x34, 0x34, 0x36, 0x36, 0x35, 0x35, 0x34, 0x34, 0x30, 0x30, 0x30, 0x30]

  /** "550e8400-e29b-41d4-a716-44665544000g": the last digit is not hex. */
  const BadDigit: seq<byte> := [0x35, 0x35, 0x30, 0x65, 0x38, 0x34, 0x30, 0x30, 0x2D, 0x65, 0x32, 0x39, 0x62, 0x2D, 0x34, 0x31, 0x64, 0x34, 0x2D, 0x61, 0x37, 0x31, 0x36, 0x2D, 0x34, 0x34, 0x36, 0x36, 0x35, 0x35, 0x34, 0x34, 0x30, 0x30, 0x30, 0x67]

  /** The length is checked first. */
  lemma ShortIsInvalidLength()
    ensures Decode(Short) == Outcome(Nil, Some(InvalidLength))
  {
  }

  /** A separator other than a dash is a format error. */
  lemma UnderscoreIsInvalidFormat()
    ensures Decode(Underscore) == Outcome(Nil, Some(InvalidFormat))
  {
  }

  /** A non-hex character in the last pair is a format error. */
  lemma BadDigitIsInvalidFormat()
    ensures Decode(BadDigit) == Outcome(Nil, Some(InvalidFormat))
  {
    assert !PairAt(BadDigit, 15).1;
  }

  /** The Nil value formats as 32 zero digits ('0') between the dashes. */
  lemma NilText()
    ensures Format(Nil) == seq(36, k requires 0 <= k < 36 => if IsDashOffset(k) then Dash else 0x30)
  {
    FormatDashes(Nil);
    assert Digit(Hi(0)) == 0x30 && Digit(Lo(0)) == 0x30;
    forall k | 0 <= k < 36 && !IsDashOffset(k) ensures Format(Nil)[k] == 0x30 {
      var i := OctetOf(k);
      assert Nil[i] == 0;
      FormatAt(Nil, i);
    }
  }
}
