/**
  The 128-bit UUID value type: sixteen octets, version-4 stamping, the
  canonical 8-4-4-4-12 text form (section 3 of RFC 4122), parsing, and the
  text, binary and database codecs.

  A `UUID` is a value (Go's `[16]byte`); a receiver the source updates in
  place (`*UUID`) is an `array<byte>` of length 16.
*/
module Uuid {
  import opened Hex

  type UUID = s: seq<byte> | |s| == 16
    witness [0, 0, 0, 0, 0, 0, 0, 0, 0, 0, 0, 0, 0, 0, 0, 0]

  /** The all-zero value, returned beside every error. */
  const Nil: UUID := [0, 0, 0, 0, 0, 0, 0, 0, 0, 0, 0, 0, 0, 0, 0, 0]

  datatype Option<T> = None | Some(value: T)

  datatype Error =
    | InvalidLength   // text not 36 octets, binary not 16
    | InvalidFormat   // a dash missing or a pair that is not hex
    | TypeMismatch    // Scan given a source of an unsupported kind
    | EntropyFailure  // the random source could not supply 16 octets

  /** Go's `(UUID, error)` pair; `err == None` is a nil error. */
  datatype Outcome = Outcome(id: UUID, err: Option<Error>)

  const Dash: byte := 0x2D  // '-'

  /** Text offset of the first digit of each octet, in octet order. */
  const PairOffsets: seq<nat> := [0, 2, 4, 6, 9, 11, 14, 16, 19, 21, 24, 26, 28, 30, 32, 34]

  predicate IsDashOffset(k: int) {
    k == 8 || k == 13 || k == 18 || k == 23
  }

  /** 36 octets: dashes at 8, 13, 18 and 23, hex digits of either case elsewhere. */
  predicate WellFormed(s: seq<byte>) {
    |s| == 36 &&
    forall k :: 0 <= k < 36 ==> if IsDashOffset(k) then s[k] == Dash else IsHexDigit(s[k])
  }

  /** The canonical form: well formed, with lower-case digits only. */
  predicate Canonical(s: seq<byte>) {
    |s| == 36 &&
    forall k :: 0 <= k < 36 ==> if IsDashOffset(k) then s[k] == Dash else IsLowerHexDigit(s[k])
  }

  /** The octet whose two digits include text offset `k`. */
  function OctetOf(k: nat): (i: nat)
    requires k < 36 && !IsDashOffset(k)
    ensures i < 16 && (k == PairOffsets[i] || k == PairOffsets[i] + 1)
  {
    if k < 8 then k / 2
    else if k < 13 then (k - 1) / 2
    else if k < 18 then (k - 2) / 2
    else if k < 23 then (k - 3) / 2
    else (k - 4) / 2
  }

  // ---------------------------------------------------------------------
  // Version-4 generation

  /** `u` is `random` with the version nibble 0100 written into octet 6
      and the variant bits 10 written into octet 8 (section 4.4 of RFC 4122). */
  predicate StampedV4(u: UUID, random: UUID) {
    && (forall i :: 0 <= i < 16 && i != 6 && i != 8 ==> u[i] == random[i])
    && u[6] & 0x0F == random[6] & 0x0F && u[6] >> 4 == 4
    && u[8] & 0x3F == random[8] & 0x3F && u[8] >> 6 == 2
  }

  /** NewUUIDv4. The random source is the parameter: `None` is a failed read,
      `Some(r)` the sixteen octets it supplied. */
  method NewUUIDv4(entropy: Option<UUID>) returns (u: UUID, err: Option<Error>)
    ensures entropy.None? ==> u == Nil && err == Some(EntropyFailure)
    ensures entropy.Some? ==> err == None && StampedV4(u, entropy.value)
    ensures entropy.Some? ==> Version(u) == 4
    ensures entropy.Some? ==> Variant(u) == ((entropy.value[8] >> 5) & 1) as int
  {
    if entropy.None? {
      return Nil, Some(EntropyFailure);
    }
    var random := entropy.value;
    var a := new byte[16](i requires 0 <= i < 16 => random[i]);
    a[6] := (a[6] & 0x0F) | 0x40;
    a[8] := (a[8] & 0x3F) | 0x80;
    u, err := a[..], None;
  }

  /** MustUUIDv4, for a read that succeeds (the abort path is not modelled). */
  method MustUUIDv4(random: UUID) returns (u: UUID)
    ensures StampedV4(u, random) && Version(u) == 4
  {
    var err;
    u, err := NewUUIDv4(Some(random));
  }

  // ---------------------------------------------------------------------
  // Introspection

  /** The version nibble: the high nibble of octet 6, which is also the
      first digit of the third group of the text form. */
  function Version(u: UUID): (r: int)
    ensures 0 <= r < 16
    ensures Format(u)[14] == Digit(r as byte)
  {
    FormatAt(u, 6);
    (u[6] >> 4) as int
  }

  /** The three top bits of octet 8, exclusive-or 0b100. The RFC 4122
      layout (top bits 10) gives 0 or 1; only top bits 000 give 4. */
  function Variant(u: UUID): (r: int)
    ensures 0 <= r < 8
    ensures u[8] >> 6 == 2 ==> r == ((u[8] >> 5) & 1) as int
    ensures r == 4 <==> u[8] >> 5 == 0
  {
    ((u[8] >> 5) ^ 0x04) as int
  }

  // ---------------------------------------------------------------------
  // Formatting

  /** The canonical text of `u`: encodeHex's five groups joined by dashes. */
  function Format(u: UUID): (r: seq<byte>)
    ensures |r| == 36
  {
    Encode(u[..4]) + ([Dash] + (Encode(u[4..6]) + ([Dash] + (Encode(u[6..8]) + ([Dash]
      + (Encode(u[8..10]) + ([Dash] + Encode(u[10..]))))))))
  }

  /** The pair offsets by formula: one more for each dash before the pair. */
  lemma PairOffsetAt(i: nat)
    requires i < 16
    ensures PairOffsets[i] == 2 * i + (if i < 4 then 0 else if i < 6 then 1 else if i < 8 then 2 else if i < 10 then 3 else 4)
  {
  }

  /** Octet `i` sits at its pair offset, high digit first. */
  lemma FormatAt(u: UUID, i: nat)
    requires i < 16
    ensures Format(u)[PairOffsets[i]] == Digit(Hi(u[i]))
    ensures Format(u)[PairOffsets[i] + 1] == Digit(Lo(u[i]))
  {
    var f := Format(u);
    PairOffsetAt(i);
    if i < 4 {
      EncodeAt(u[..4], i);
    } else if i < 6 {
      EncodeAt(u[4..6], i - 4);
      assert f[9..] == Encode(u[4..6]) + f[13..];
    } else if i < 8 {
      EncodeAt(u[6..8], i - 6);
      assert f[14..] == Encode(u[6..8]) + f[18..];
    } else if i < 10 {
      EncodeAt(u[8..10], i - 8);
      assert f[19..] == Encode(u[8..10]) + f[23..];
    } else {
      EncodeAt(u[10..], i - 10);
      assert f[24..] == Encode(u[10..]);
    }
  }

  /** The four dashes of the text form. */
  lemma FormatDashes(u: UUID)
    ensures Format(u)[8] == Dash && Format(u)[13] == Dash && Format(u)[18] == Dash && Format(u)[23] == Dash
  {
  }

  /** The text form is canonical: dashes at 8, 13, 18, 23, lower-case hex elsewhere. */
  lemma FormatIsCanonical(u: UUID)
    ensures Canonical(Format(u))
  {
    forall k | 0 <= k < 36
      ensures if IsDashOffset(k) then Format(u)[k] == Dash else IsLowerHexDigit(Format(u)[k])
    {
      if !IsDashOffset(k) {
        var i := OctetOf(k);
        FormatAt(u, i);
        DigitIsLowerHex(Hi(u[i]));
        DigitIsLowerHex(Lo(u[i]));
      }
    }
  }

  /** Writes `src` over `dst[off..off + |src|]` and nothing else (hex.Encode
      into a sub-slice). */
  method Put(dst: array<byte>, off: nat, src: seq<byte>)
    requires off + |src| <= dst.Length
    modifies dst
    ensures forall k :: 0 <= k < dst.Length ==>
      dst[k] == if off <= k < off + |src| then src[k - off] else old(dst[k])
  {
    forall k | off <= k < off + |src| {
      dst[k] := src[k - off];
    }
  }

  /** encodeHex: fills the first 36 octets of `dst` with the text form. */
  method EncodeHex(dst: array<byte>, u: UUID)
    requires dst.Length >= 36
    modifies dst
    ensures dst[..36] == Format(u)
    ensures dst[36..] == old(dst[36..])
  {
    Put(dst, 0, Encode(u[0..4]));
    dst[8] := Dash;
    Put(dst, 9, Encode(u[4..6]));
    dst[13] := Dash;
    Put(dst, 14, Encode(u[6..8]));
    dst[18] := Dash;
    Put(dst, 19, Encode(u[8..10]));
    dst[23] := Dash;
    Put(dst, 24, Encode(u[10..]));
    assert dst[..36] == Format(u);
  }

  /** String: the text form in a fresh 36-octet buffer. */
  method String(u: UUID) returns (s: seq<byte>)
    ensures s == Format(u)
    ensures Canonical(s)
  {
    var buf := new byte[36](_ => 0);
    EncodeHex(buf, u);
    s := buf[..];
    FormatIsCanonical(u);
  }

  // ---------------------------------------------------------------------
  // Parsing

  /** One arm of xtob's switches: the value of a digit of either case
      ('0'..'9', 'a'..'f', 'A'..'F'). */
  function HexNibble(c: byte): (r: Option<byte>)
    ensures r.Some? <==> IsHexDigit(c)
    ensures r.Some? ==> r.value < 16 && Digit(r.value) == ToLower(c)
  {
    if 0x30 <= c <= 0x39 then Some(c - 0x30)
    else if 0x61 <= c <= 0x66 then Some(c - 0x61 + 10)
    else if 0x41 <= c <= 0x46 then Some(c - 0x41 + 10)
    else None
  }

  /** xtob: one octet from a pair of hex digits of either case, the first
      digit shifted into the high nibble. */
  function Xtob(a: byte, b: byte): (r: (byte, bool))
    ensures r.1 <==> IsHexDigit(a) && IsHexDigit(b)
    ensures r.1 ==> Digit(Hi(r.0)) == ToLower(a) && Digit(Lo(r.0)) == ToLower(b)
    ensures !r.1 ==> r.0 == 0
  {
    var high, low := HexNibble(a), HexNibble(b);
    if high.None? || low.None? then (0, false)
    else
      NibblesJoin(high.value, low.value);
      ((high.value << 4) | low.value, true)
  }

  /** The pair decoded for octet `i`. */
  function PairAt(s: seq<byte>, i: nat): (byte, bool)
    requires |s| == 36 && i < 16
  {
    Xtob(s[PairOffsets[i]], s[PairOffsets[i] + 1])
  }

  predicate DashesInPlace(s: seq<byte>)
    requires |s| == 36
  {
    s[8] == Dash && s[13] == Dash && s[18] == Dash && s[23] == Dash
  }

  predicate PairsAreHex(s: seq<byte>)
    requires |s| == 36
  {
    forall i :: 0 <= i < 16 ==> PairAt(s, i).1
  }

  /** The sixteen decoded pairs, in text order. */
  function DecodePairs(s: seq<byte>): (u: UUID)
    requires |s| == 36
  {
    seq(16, i requires 0 <= i < 16 => PairAt(s, i).0)
  }

  /** What Parse returns for `s`, checks in the source's order. */
  function Decode(s: seq<byte>): (r: Outcome)
    ensures r.err != None ==> r.id == Nil
  {
    if |s| != 36 then Outcome(Nil, Some(InvalidLength))
    else if !DashesInPlace(s) then Outcome(Nil, Some(InvalidFormat))
    else if !PairsAreHex(s) then Outcome(Nil, Some(InvalidFormat))
    else Outcome(DecodePairs(s), None)
  }

  /** Parse: the length check, then the dashes, then the sixteen pairs left
      to right, each decoded into its octet of a fresh array. */
  method Parse(s: seq<byte>) returns (u: UUID, err: Option<Error>)
    ensures Outcome(u, err) == Decode(s)
  {
    if |s| != 36 {
      return Nil, Some(InvalidLength);
    }
    if s[8] != Dash || s[13] != Dash || s[18] != Dash || s[23] != Dash {
      return Nil, Some(InvalidFormat);
    }
    var a := new byte[16](_ => 0);
    for i := 0 to 16
      invariant forall j :: 0 <= j < i ==> PairAt(s, j).1 && a[j] == PairAt(s, j).0
    {
      var x := PairOffsets[i];
      var (v, ok) := Xtob(s[x], s[x + 1]);
      if !ok {
        assert !PairAt(s, i).1;
        return Nil, Some(InvalidFormat);
      }
      a[i] := v;
    }
    u, err := a[..], None;
  }

  /** MustParse, for text that parses (the abort path is not modelled). */
  method MustParse(s: seq<byte>) returns (u: UUID)
    requires WellFormed(s)
    ensures Format(u) == Lower(s)
  {
    var err;
    u, err := Parse(s);
    DecodeErrors(s);
    FormatOfDecode(s);
  }

  /** Validate: Parse's error alone. */
  function Validate(s: seq<byte>): (err: Option<Error>)
    ensures err == None <==> WellFormed(s)
    ensures err == Some(InvalidLength) <==> |s| != 36
    ensures err == Some(InvalidFormat) <==> |s| == 36 && !WellFormed(s)
  {
    DecodeErrors(s);
    Decode(s).err
  }

  /** Every position that is not a dash lies in one of the sixteen pairs,
      so the dash checks and the pair checks together are WellFormed. */
  lemma DecodeErrors(s: seq<byte>)
    ensures Decode(s).err ==
      if |s| != 36 then Some(InvalidLength)
      else if WellFormed(s) then None
      else Some(InvalidFormat)
  {
    if |s| == 36 {
      if WellFormed(s) {
        forall i | 0 <= i < 16 ensures PairAt(s, i).1 {
          assert !IsDashOffset(PairOffsets[i]) && !IsDashOffset(PairOffsets[i] + 1);
        }
      } else if s[8] == Dash && s[13] == Dash && s[18] == Dash && s[23] == Dash {
        var k :| 0 <= k < 36 && !IsDashOffset(k) && !IsHexDigit(s[k]);
        var i := OctetOf(k);
        assert !PairAt(s, i).1;
      }
    }
  }

  /** Lower-casing keeps a text well formed. */
  lemma LowerWellFormed(s: seq<byte>)
    ensures WellFormed(Lower(s)) <==> WellFormed(s)
  {
  }

  /** Parsing is case-insensitive. */
  lemma DecodeIgnoresCase(s: seq<byte>)
    ensures Decode(Lower(s)) == Decode(s)
  {
    DecodeErrors(s);
    DecodeErrors(Lower(s));
    LowerWellFormed(s);
    if WellFormed(s) {
      forall i | 0 <= i < 16 ensures PairAt(Lower(s), i) == PairAt(s, i) {
        var x := PairOffsets[i];
        XtobIgnoresCase(s[x], s[x + 1]);
      }
      assert Decode(Lower(s)).id == Decode(s).id;
    }
  }

  /** A digit and its lower case have the same value. */
  lemma HexNibbleIgnoresCase(c: byte)
    ensures HexNibble(ToLower(c)) == HexNibble(c)
  {
  }

  /** A decoded pair is sixteen times the first digit's value plus the second's. */
  lemma XtobValue(a: byte, b: byte)
    requires Xtob(a, b).1
    ensures Xtob(a, b).0 as int == 16 * HexNibble(a).value as int + HexNibble(b).value as int
  {
  }

  /** xtob gives the same octet for a pair and for its lower-cased pair. */
  lemma XtobIgnoresCase(a: byte, b: byte)
    ensures Xtob(ToLower(a), ToLower(b)) == Xtob(a, b)
  {
  }

  /** Each digit hex.Encode writes reads back as its nibble. */
  lemma HexNibbleOfDigit(n: byte)
    requires n < 16
    ensures HexNibble(Digit(n)) == Some(n)
  {
  }

  /** xtob inverts hex.Encode on one octet. */
  lemma XtobOfEncoded(b: byte)
    ensures Xtob(Digit(Hi(b)), Digit(Lo(b))) == (b, true)
  {
  }

  /** Round trip: the text form of any value parses back to that value. */
  lemma DecodeFormat(u: UUID)
    ensures Decode(Format(u)) == Outcome(u, None)
  {
    var s := Format(u);
    FormatIsCanonical(u);
    forall i | 0 <= i < 16 ensures PairAt(s, i) == (u[i], true) {
      FormatAt(u, i);
      XtobOfEncoded(u[i]);
    }
    assert Decode(s).id == u;
  }

  /** The two digits octet `i` formats to are its pair of the text, lower-cased. */
  lemma FormatOfPair(u: UUID, s: seq<byte>, i: nat)
    requires |s| == 36 && i < 16 && PairAt(s, i).1 && u[i] == PairAt(s, i).0
    ensures Format(u)[PairOffsets[i]] == ToLower(s[PairOffsets[i]])
    ensures Format(u)[PairOffsets[i] + 1] == ToLower(s[PairOffsets[i] + 1])
  {
    FormatAt(u, i);
  }

  /** At every digit offset, the text form of the decoded octets is the input, lower-cased. */
  lemma FormatOfPairsAt(u: UUID, s: seq<byte>, k: nat)
    requires |s| == 36 && PairsAreHex(s) && k < 36 && !IsDashOffset(k)
    requires forall i :: 0 <= i < 16 ==> u[i] == PairAt(s, i).0
    ensures Format(u)[k] == ToLower(s[k])
  {
    var i := OctetOf(k);
    assert PairAt(s, i).1;
    FormatOfPair(u, s, i);
  }

  /** Round trip the other way: an accepted text, formatted again, is that
      text in lower case. */
  lemma FormatOfDecode(s: seq<byte>)
    requires Decode(s).err == None
    ensures Format(Decode(s).id) == Lower(s)
  {
    assert |s| == 36 && DashesInPlace(s) && PairsAreHex(s);
    var u := DecodePairs(s);
    assert Decode(s).id == u;
    var f, l := Format(u), Lower(s);
    FormatDashes(u);
    assert ToLower(Dash) == Dash;
    forall k | 0 <= k < 36 ensures f[k] == l[k] {
      if !IsDashOffset(k) {
        FormatOfPairsAt(u, s, k);
      }
    }
  }

  // ---------------------------------------------------------------------
  // Codecs

  /** MarshalText: the text form; the error is always nil. */
  method MarshalText(u: UUID) returns (text: seq<byte>, err: Option<Error>)
    ensures text == Format(u) && err == None
  {
    var buf := new byte[36](_ => 0);
    EncodeHex(buf, u);
    text, err := buf[..], None;
  }

  /** MarshalBinary: the sixteen octets themselves, no separators. */
  function MarshalBinary(u: UUID): (r: (seq<byte>, Option<Error>))
    ensures |r.0| == 16 && forall i :: 0 <= i < 16 ==> r.0[i] == u[i]
    ensures r.1 == None
  {
    (u[..], None)
  }

  /** Value: the database representation is the text form. */
  method Value(u: UUID) returns (v: seq<byte>, err: Option<Error>)
    ensures v == Format(u) && err == None
  {
    v := String(u);
    err := None;
  }

  /** The receiver and error after UnmarshalText(data) on a receiver holding `prev`. */
  function AfterUnmarshalText(prev: UUID, data: seq<byte>): (r: Outcome)
    ensures r.err != None ==> r.id == prev
  {
    var p := Decode(data);
    if p.err == None then p else Outcome(prev, p.err)
  }

  /** The receiver and error after UnmarshalBinary(data). */
  function AfterUnmarshalBinary(prev: UUID, data: seq<byte>): (r: Outcome)
    ensures r.err != None ==> r.id == prev
  {
    if |data| != 16 then Outcome(prev, Some(InvalidLength)) else Outcome(data, None)
  }

  /** The dynamic type of a database source value. */
  datatype Source =
    | FromUUID(id: UUID)
    | FromBytes(bytes: seq<byte>)
    | FromString(text: seq<byte>)
    | FromNil
    | FromOther

  /** The receiver and error after Scan(src). */
  function AfterScan(prev: UUID, src: Source): (r: Outcome)
    ensures r.err != None ==> r.id == prev
  {
    match src
    case FromUUID(id) => Outcome(id, None)
    case FromBytes(b) => if |b| == 16 then Outcome(b, None) else AfterUnmarshalText(prev, b)
    case FromString(t) => AfterUnmarshalText(prev, t)
    case FromNil => Outcome(Nil, None)
    case FromOther => Outcome(prev, Some(TypeMismatch))
  }

  /** `*u = v` and `copy(u[:], v)` on a 16-octet receiver. */
  method Store(u: array<byte>, v: UUID)
    requires u.Length == 16
    modifies u
    ensures u[..] == v
  {
    forall i | 0 <= i < 16 {
      u[i] := v[i];
    }
  }

  method UnmarshalText(u: array<byte>, data: seq<byte>) returns (err: Option<Error>)
    requires u.Length == 16
    modifies u
    ensures Outcome(u[..], err) == AfterUnmarshalText(old(u[..]), data)
  {
    var id;
    id, err := Parse(data);
    if err != None {
      return;
    }
    Store(u, id);
  }

  method UnmarshalBinary(u: array<byte>, data: seq<byte>) returns (err: Option<Error>)
    requires u.Length == 16
    modifies u
    ensures Outcome(u[..], err) == AfterUnmarshalBinary(old(u[..]), data)
  {
    if |data| != 16 {
      return Some(InvalidLength);
    }
    Store(u, data);
    err := None;
  }

  method Scan(u: array<byte>, src: Source) returns (err: Option<Error>)
    requires u.Length == 16
    modifies u
    ensures Outcome(u[..], err) == AfterScan(old(u[..]), src)
  {
    match src
    case FromUUID(id) =>
      Store(u, id);
      err := None;
    case FromBytes(b) =>
      if |b| == 16 {
        Store(u, b);
        err := None;
      } else {
        err := UnmarshalText(u, b);
      }
    case FromString(t) =>
      err := UnmarshalText(u, t);
    case FromNil =>
      Store(u, Nil);
      err := None;
    case FromOther =>
      err := Some(TypeMismatch);
  }

  // ---------------------------------------------------------------------
  // Codec round trips and the Scan dispatch

  /** UnmarshalText of a value's text form stores that value. */
  lemma TextRoundTrip(prev: UUID, u: UUID)
    ensures AfterUnmarshalText(prev, Format(u)) == Outcome(u, None)
  {
    DecodeFormat(u);
  }

  /** UnmarshalText fails exactly on text that is not well formed, and then
      leaves the receiver as it was. */
  lemma UnmarshalTextErrors(prev: UUID, data: seq<byte>)
    ensures AfterUnmarshalText(prev, data).err == Validate(data)
    ensures Validate(data) != None ==> AfterUnmarshalText(prev, data).id == prev
    ensures Validate(data) == None ==> Format(AfterUnmarshalText(prev, data).id) == Lower(data)
  {
    DecodeErrors(data);
    if Validate(data) == None {
      FormatOfDecode(data);
    }
  }

  /** UnmarshalBinary then MarshalBinary gives back the sixteen octets, and
      MarshalBinary then UnmarshalBinary gives back the value. */
  lemma BinaryRoundTrip(prev: UUID, u: UUID, data: seq<byte>)
    ensures AfterUnmarshalBinary(prev, MarshalBinary(u).0) == Outcome(u, None)
    ensures |data| == 16 ==> MarshalBinary(AfterUnmarshalBinary(prev, data).id).0 == data
    ensures AfterUnmarshalBinary(prev, data).err != None <==> |data| != 16
  {
  }

  /** Scan accepts everything Value and MarshalBinary produce, and the value
      itself, and restores the value from each; `nil` stores Nil. */
  lemma ScanOfValue(prev: UUID, u: UUID)
    ensures AfterScan(prev, FromUUID(u)) == Outcome(u, None)
    ensures AfterScan(prev, FromNil) == Outcome(Nil, None)
    ensures AfterScan(prev, FromString(Format(u))) == Outcome(u, None)
    ensures AfterScan(prev, FromBytes(Format(u))) == Outcome(u, None)
    ensures AfterScan(prev, FromBytes(MarshalBinary(u).0)) == Outcome(u, None)
  {
    TextRoundTrip(prev, u);
    assert MarshalBinary(u).0 == u;
  }

  /** Scan's errors by input shape: an unsupported kind is a type mismatch;
      text, and octets of any length but 16, fail as Validate does; every
      other input succeeds. A failed Scan leaves the receiver unchanged. */
  lemma ScanErrors(prev: UUID, src: Source)
    ensures AfterScan(prev, src).err ==
      match src
      case FromOther => Some(TypeMismatch)
      case FromString(t) => Validate(t)
      case FromBytes(b) => if |b| == 16 then None else Validate(b)
      case _ => None
    ensures AfterScan(prev, src).err != None ==> AfterScan(prev, src).id == prev
  {
  }
}
