# UUID value type, modelled in Dafny

This project models the Go package `uuid` (`sdk/go/uuid/uuid.go`): a
128-bit UUID held as sixteen octets, with

- version-4 generation: random octets stamped with version nibble `0100` in
  octet 6 and variant bits `10` in octet 8 (section 4.4 of RFC 4122);
- the canonical text form: 36 characters in five lower-case hex groups
  `8-4-4-4-12`, with dashes at offsets 8, 13, 18 and 23 (section 3 of RFC 4122);
- parsing and validation of that form, accepting hex digits of either case;
- the text, binary and database (`Value`/`Scan`) codecs;
- `Version` and `Variant`.

Files:

- `hex.dfy`, module `Hex`: octets (`bv8`, so the source's `&`, `|`, `>>`, `^`
  and `<<` are kept literally), the `encoding/hex` encoder the source calls
  (`Encode`: two lower-case digits per octet, high nibble first), ASCII
  lower-casing, and the hex-digit character classes.
- `uuid.dfy`, module `Uuid`: the value type and every operation of the package.
- `samples.dfy`, module `Samples`: concrete rejected texts and the text of `Nil`.

Modelling choices:

- A `UUID` is a 16-octet sequence (Go's `[16]byte` is a value). A pointer
  receiver (`*UUID`, updated by `UnmarshalText`, `UnmarshalBinary`, `Scan`)
  is an `array<byte>` of length 16, changed in place.
- Go strings and byte slices are octet sequences (`seq<byte>`); `len(s)` and
  `s[i]` are in octets, as in Go.
- `(UUID, error)` results are an `Outcome(id, err)`, with `err == None` for a
  nil error. The errors are `InvalidLength`, `InvalidFormat`, `TypeMismatch`
  (Scan's formatted error) and `EntropyFailure` (a failed random read).
- Each operation that the source writes with loops or in-place updates is a
  method (`Parse` fills a fresh array pair by pair, `EncodeHex` writes into a
  buffer group by group, `NewUUIDv4` overwrites octets 6 and 8, the pointer
  receivers store into the array). `Parse`, `EncodeHex` and the receiver
  methods are proved against functions (`Decode`, `Format`,
  `AfterUnmarshalText`, `AfterUnmarshalBinary`, `AfterScan`) whose properties
  are lemmas. `NewUUIDv4` is proved against the predicate `StampedV4`, and its
  own `ensures` give the consequences for `Version` and `Variant`.
- `Variant`: for a value with the RFC 4122 variant bits `10`,
  `(octet8 >> 5) ^ 4` is 0 or 1, not 4. The model follows the code:
  `NewUUIDv4` ensures that `Variant` is bit 5 of the random octet 8, and
  `Variant` ensures that the result is 4 exactly when the top three bits are `000`.

## Model

| member | source | states |
|---|---|---|
| Uuid.NewUUIDv4 | sdk/go/uuid/uuid.go:22-31 | A failed read gives `Nil` and an error. Otherwise there is no error and the result is the random input with octets other than 6 and 8 unchanged, the low nibble of octet 6 and the low six bits of octet 8 unchanged, `Version` 4, and `Variant` equal to bit 5 of random octet 8 (0 or 1). |
| Uuid.MustUUIDv4 | sdk/go/uuid/uuid.go:33-39 | For a successful read, the result is the stamped random input, with version 4. |
| Uuid.Version | sdk/go/uuid/uuid.go:130-132 | The result is in 0..15, and it is the digit at offset 14 of the text form (the first digit of the third group). |
| Uuid.Variant | sdk/go/uuid/uuid.go:134-136 | The result is in 0..7. With variant bits `10` it is bit 5 of octet 8. It is 4 exactly when the top three bits of octet 8 are zero. |
| Hex.Hi | sdk/go/uuid/uuid.go:139-147 | The high nibble of an octet is below 16. |
| Hex.Lo | sdk/go/uuid/uuid.go:139-147 | The low nibble of an octet is below 16. |
| Hex.Encode | sdk/go/uuid/uuid.go:139-147 | `hex.Encode` writes exactly two characters per octet. |
| Hex.EncodeAt | sdk/go/uuid/uuid.go:139-147 | `hex.Encode` writes octet `i`'s high digit at `2i` and its low digit at `2i+1`. |
| Hex.DigitTable | sdk/go/uuid/uuid.go:139-147 | The digit of nibble `n` is `"0123456789abcdef"[n]`. |
| Hex.DigitIsLowerHex | sdk/go/uuid/uuid.go:139-147 | Every digit `hex.Encode` writes is a lower-case hex digit. |
| Hex.DigitsDistinct | sdk/go/uuid/uuid.go:139-147 | Distinct nibbles get distinct digits. |
| Hex.NibblesDetermine | sdk/go/uuid/uuid.go:139-147 | Two octets with the same two digits are equal, so the text form loses nothing. |
| Hex.NibblesJoin | sdk/go/uuid/uuid.go:155-170 | Shifting one nibble into the high half and or-ing in another gives back both nibbles. |
| Hex.LowerKeepsHexDigit | sdk/go/uuid/uuid.go:150-175 | Lower-casing neither creates nor removes a hex digit, and it turns every hex digit into a lower-case one. |
| Uuid.OctetOf | sdk/go/uuid/uuid.go:56 | Every text offset other than a dash offset belongs to exactly the pair of one octet. |
| Uuid.Format | sdk/go/uuid/uuid.go:138-148 | The text form is 36 characters long. |
| Uuid.PairOffsetAt | sdk/go/uuid/uuid.go:56 | Octet `i`'s pair begins at `2i` plus the number of dashes before it. |
| Uuid.FormatAt | sdk/go/uuid/uuid.go:138-148 | Octet `i`'s lower-case high and low digits sit at its pair offset, in octet order. |
| Uuid.FormatDashes | sdk/go/uuid/uuid.go:140-146 | The text form has dashes at 8, 13, 18 and 23. |
| Uuid.FormatIsCanonical | sdk/go/uuid/uuid.go:138-148 | The text form is canonical: 36 characters, with dashes at the four offsets and lower-case hex everywhere else. |
| Uuid.Put | sdk/go/uuid/uuid.go:139-147 | Writing a group into the buffer sets exactly that slice and leaves every other octet unchanged. |
| Uuid.EncodeHex | sdk/go/uuid/uuid.go:138-148 | The first 36 octets of the buffer become the text form, and the rest of the buffer is unchanged. |
| Uuid.String | sdk/go/uuid/uuid.go:41-45 | The result is the text form, and it is canonical. |
| Uuid.HexNibble | sdk/go/uuid/uuid.go:153-173 | One switch of `xtob` accepts exactly the hex digits of either case, and the value it gives is the nibble whose lower-case digit is that character. |
| Uuid.Xtob | sdk/go/uuid/uuid.go:150-175 | Succeeds exactly when both characters are hex digits. On success, the octet's high and low digits are the two characters lower-cased. On failure, the octet is 0. |
| Uuid.XtobValue | sdk/go/uuid/uuid.go:150-175 | A decoded pair is `16 * nib(a) + nib(b)`. |
| Uuid.HexNibbleIgnoresCase | sdk/go/uuid/uuid.go:153-173 | A character and its lower case have the same nibble value, or are both rejected. |
| Uuid.XtobIgnoresCase | sdk/go/uuid/uuid.go:150-175 | `xtob` of a pair equals `xtob` of the lower-cased pair. |
| Uuid.HexNibbleOfDigit | sdk/go/uuid/uuid.go:153-173 | The digit written for a nibble reads back as that nibble. |
| Uuid.XtobOfEncoded | sdk/go/uuid/uuid.go:150-175 | `xtob` inverts `hex.Encode` on one octet. |
| Uuid.Decode | sdk/go/uuid/uuid.go:47-64 | Parse's result as a function, with the checks in the source's order. On every error the value is `Nil`. |
| Uuid.Parse | sdk/go/uuid/uuid.go:47-64 | The method, which checks the length and dashes and then fills a fresh array pair by pair, returns exactly `Decode`'s value and error. |
| Uuid.DecodeErrors | sdk/go/uuid/uuid.go:49-62 | Parse fails with `InvalidLength` exactly when the length is not 36. Otherwise it fails with `InvalidFormat` exactly when the text is not well formed (a dash missing or a pair not hex). Otherwise it succeeds. |
| Uuid.Validate | sdk/go/uuid/uuid.go:74-77 | The result is nil exactly for well-formed text, `InvalidLength` exactly when the length is not 36, and `InvalidFormat` exactly for a 36-octet text that is not well formed. |
| Uuid.MustParse | sdk/go/uuid/uuid.go:66-72 | For well-formed text, the result's text form is the input lower-cased. |
| Uuid.LowerWellFormed | sdk/go/uuid/uuid.go:150-175 | A text is well formed exactly when its lower-cased text is. |
| Uuid.DecodeIgnoresCase | sdk/go/uuid/uuid.go:47-64 | Parse is case-insensitive: `Parse(lower(s)) == Parse(s)` for every `s`, errors included. |
| Uuid.DecodeFormat | sdk/go/uuid/uuid.go:41-64 | Round trip: the text form of every value parses back to that value, with no error. |
| Uuid.FormatOfPair | sdk/go/uuid/uuid.go:56-62 | A decoded octet formats back to its own pair, lower-cased. |
| Uuid.FormatOfPairsAt | sdk/go/uuid/uuid.go:56-62 | At every digit offset, the text form of the decoded octets is the input character lower-cased. |
| Uuid.FormatOfDecode | sdk/go/uuid/uuid.go:41-64 | Round trip the other way: for every accepted text, formatting the parsed value gives the text lower-cased. |
| Uuid.MarshalText | sdk/go/uuid/uuid.go:79-83 | The result is the text form, with a nil error. |
| Uuid.MarshalBinary | sdk/go/uuid/uuid.go:94-96 | The result is the sixteen octets in order, with a nil error. |
| Uuid.Value | sdk/go/uuid/uuid.go:106-108 | The database value is the text form, with a nil error. |
| Uuid.AfterUnmarshalText | sdk/go/uuid/uuid.go:85-92 | A failed UnmarshalText leaves the receiver unchanged. |
| Uuid.AfterUnmarshalBinary | sdk/go/uuid/uuid.go:98-104 | A failed UnmarshalBinary leaves the receiver unchanged. |
| Uuid.AfterScan | sdk/go/uuid/uuid.go:110-128 | A failed Scan leaves the receiver unchanged. |
| Uuid.Store | sdk/go/uuid/uuid.go:90 | `*u = v` or `copy(u[:], v)`: the receiver's octets become `v`. |
| Uuid.UnmarshalText | sdk/go/uuid/uuid.go:85-92 | The receiver and error after the call are `AfterUnmarshalText` of the old receiver. |
| Uuid.UnmarshalBinary | sdk/go/uuid/uuid.go:98-104 | The receiver and error after the call are `AfterUnmarshalBinary` of the old receiver. |
| Uuid.Scan | sdk/go/uuid/uuid.go:110-128 | The receiver and error after the call are `AfterScan` of the old receiver. |
| Uuid.TextRoundTrip | sdk/go/uuid/uuid.go:79-92 | UnmarshalText of any value's text form stores that value, with no error. |
| Uuid.UnmarshalTextErrors | sdk/go/uuid/uuid.go:85-92 | UnmarshalText's error is Validate's error. On failure the receiver is unchanged. On success the new value formats to the input lower-cased. |
| Uuid.BinaryRoundTrip | sdk/go/uuid/uuid.go:94-104 | UnmarshalBinary of MarshalBinary restores the value. MarshalBinary after a successful UnmarshalBinary gives back the input. UnmarshalBinary fails exactly when the length is not 16. |
| Uuid.ScanOfValue | sdk/go/uuid/uuid.go:106-128 | Scan of `nil` stores `Nil`. Scan restores a value from the value itself, from its text form as a string or as octets, and from its 16 binary octets. |
| Uuid.ScanErrors | sdk/go/uuid/uuid.go:110-128 | By input shape: an unsupported kind gives TypeMismatch; a string, or octets of a length other than 16, fail exactly as Validate does; `nil`, a UUID and any 16 octets always succeed. A failed Scan leaves the receiver unchanged. |
| Samples.ShortIsInvalidLength | sdk/go/uuid/uuid.go:49-51 | A 35-character text fails with `InvalidLength`, and the value is `Nil`. |
| Samples.UnderscoreIsInvalidFormat | sdk/go/uuid/uuid.go:52-54 | An underscore in place of the first dash fails with `InvalidFormat`. |
| Samples.BadDigitIsInvalidFormat | sdk/go/uuid/uuid.go:56-60 | A `g` in the last pair fails with `InvalidFormat`. |
| Samples.NilText | sdk/go/uuid/uuid.go:14 | `Nil` formats as `00000000-0000-0000-0000-000000000000`. |

## Left out

- Reading from `crypto/rand` through `io.ReadFull` is operating-system I/O. `NewUUIDv4` takes the sixteen random octets as a parameter instead, with `None` standing for a failed read.
- Uuid.MustUUIDv4: the `panic` on a failed read is not modelled. The method takes random octets that were read successfully.
- Uuid.MustParse: the `panic` on text that does not parse is not modelled. The method requires well-formed text.
- The message of Scan's `fmt.Errorf("uuid: cannot convert %T ...")` depends on run-time type reflection. It is the single error `TypeMismatch`, and the error messages of `ErrInvalidLength` and `ErrInvalidUUIDFormat` are likewise not modelled.
- The `database/sql/driver` interfaces are left out. Scan's `interface{}` argument is the datatype `Source`: a UUID, a byte slice, a string, `nil`, or any other kind.
- Lower-casing (`Hex.Lower`) is ASCII-only. It appears only in the properties, because the source itself never lower-cases.
- `sdk/go/config.go` is not part of this model. It is a configuration struct with a default producer that calls `MustUUIDv4().String()`, and it holds no logic of its own.
- No concrete accepted text is worked through as a sample. `Uuid.DecodeFormat` and `Uuid.FormatOfDecode` cover every accepted text and every value.
