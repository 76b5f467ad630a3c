# XTID identifiers in Dafny

This project models the core of the Go package `xtid`: a 20-byte identifier that sorts by
its bytes. The model covers the identifier's layout, the operations that build, inspect,
validate and compare identifiers, and the pointer-receiver decoders that overwrite an
identifier in place.

The identifier layout, as the code defines it (xtid.go:17-28):

| bytes | field | encoding |
|---|---|---|
| 0..8 | timestamp, microseconds since the Unix epoch | big-endian `uint64` |
| 8..10 | type tag | big-endian `uint16` |
| 10..20 | random payload | raw bytes |

The doc comment at xtid.go:44-48 describes a `uint32` type at bytes 8..11 and a payload
from byte 12. That comment is stale. The model follows the constants and the accessors.

Modules, one per concern:

- `Wrappers` (`wrappers.dfy`): `Option`, used for Go's `error` results. `None` stands for a nil error.
- `ByteSeq` (`byteseq.dfy`): the `byte` type and `CompareBytes`, the lexicographic
  comparison that Go's `bytes.Compare` performs. Its lemmas prove antisymmetry,
  transitivity and how comparison splits over concatenation.
- `BigEndian` (`bigendian.dfy`): big-endian integers of any width. `Decode` is what
  `binary.BigEndian.Uint16/Uint64` read. `Encode` and the in-place `Put` are what
  `PutUint16/PutUint64` write. Lemmas prove both round trips and that lexicographic
  order equals numeric order.
- `Io` (`io.dfy`): a byte source and `io.ReadFull`. The source is a `Reader(supply, failure)`:
  it yields `supply` and then fails with `failure`. `ReadFull` copies what arrives into
  the buffer. Its error is `ErrUnexpectedEOF` when the source ended part-way.
- `Xtid` (`xtid.dfy`): the identifier itself.
  - `Id` is a 20-byte sequence, with the sentinels `Nil` and `Max`.
  - Accessors: `Timestamp`, `Type` and `Payload`. `Layout` is their inverse.
  - `Bytes`, `IsNil`, `FromBytes`, `FromBytesOrNil`, `Parse`, `ParseOrNil`.
  - `Compare` and its ordering lemmas.
  - `Make`, the minting method.
  - The SQL `Value` and the spec function `ScanResult` for the unexported `scan`.
  - The class `IdCell`, which plays the `*XTID` receiver. It holds a 20-byte array.
    Its methods `UnmarshalBinary`, `UnmarshalText`, `ScanRaw` (the unexported `scan`)
    and `Scan` overwrite that array only on success.

Go strings are byte strings, so textual inputs are `seq<byte>` throughout.

The base-62 codec (`fastAppendEncodeBase62`, `fastDecodeBase62`) is not part of this model.
It enters as a parameter `Base62(encode, decode)`. Its types carry all that is assumed of it:
- `encode` yields exactly 27 bytes;
- `decode` takes 27 bytes and either fails or yields 20 bytes.

The entropy source and the clock are parameters too:
- `Make` takes the `Reader` it reads the payload from;
- `Make` takes the timestamp as the `uint64` microsecond count that
  `uint64(t.UnixMicro())` produces.

## Model

| member | source | states |
|---|---|---|
| `BigEndian.Decode` | xtid.go:74-82 | the integer read from a `w`-byte big-endian field is below 256^w, so the 8-byte timestamp fits a `uint64` and the 2-byte type fits a `uint16` |
| `BigEndian.DecodeEncode` | xtid.go:257-259 | reading back a value written big-endian gives that value whenever it fits the field width |
| `BigEndian.EncodeDecode` | xtid.go:74-82 | writing back a value read big-endian reproduces the same bytes, so no field value is lost |
| `BigEndian.Put` | xtid.go:258-259 | writing a value into `a[off..off+width]` leaves exactly its big-endian image there and every other byte of the array unchanged |
| `BigEndian.CompareIsNumeric` | xtid.go:299-301 | for equal-length byte slices, lexicographic comparison gives the same result as comparing the big-endian integers they denote |
| `ByteSeq.CompareBytes` | xtid.go:299-301 | `bytes.Compare` returns -1, 0 or +1, and returns 0 exactly when the two slices are equal |
| `ByteSeq.CompareAntisymmetric` | xtid.go:299-301 | swapping the operands of `bytes.Compare` negates the result |
| `ByteSeq.CompareTransitive` | xtid.go:299-301 | if a sorts before b and b before c, then a sorts before c |
| `ByteSeq.CompareConcat` | xtid.go:299-301 | with first parts of equal length, the first parts decide the comparison of two concatenations unless they are equal |
| `Io.ReadFull` | xtid.go:250 | the payload buffer receives the bytes the source yields, up to its length, and nothing else changes; the error is none iff the buffer was filled, `ErrUnexpectedEOF` if the source ended part-way, otherwise the source's own error |
| `Xtid.Timestamp` | xtid.go:80-82 | the timestamp read from bytes 0..8 is the `uint64` whose big-endian image is exactly those 8 bytes |
| `Xtid.Type` | xtid.go:74-76 | the type read from bytes 8..10 is the `uint16` whose big-endian image is exactly those 2 bytes |
| `Xtid.String` | xtid.go:85-87 | the 27-byte text form parses back to the identifier with no error whenever the codec decodes what it encodes |
| `Xtid.Layout` | xtid.go:17-28 | the identifier built from a timestamp, a type and 10 payload bytes reads back the same timestamp, type and payload |
| `Xtid.LayoutOfFields` | xtid.go:74-82 | every identifier equals the layout of its own timestamp, type and payload, so the accessors lose nothing |
| `Xtid.Bytes` | xtid.go:90-93 | the raw bytes of an identifier, read back by `FromBytes`, give the same identifier with no error |
| `Xtid.IsNil` | xtid.go:96-98 | an identifier is nil exactly when all 20 of its bytes are zero |
| `Xtid.FromBytes` | xtid.go:265-274 | succeeds iff the input has exactly 20 bytes, and the identifier then equals the input; any other length gives `Nil` with `errSize` |
| `Xtid.FromBytesOrNil` | xtid.go:278-284 | a 20-byte input becomes that identifier and any other input becomes `Nil` |
| `Xtid.Parse` | xtid.go:196-211 | any length other than 27 gives `Nil` with `errStrSize`, whatever the codec does; a codec failure gives `Nil` with `errStrValue`; Parse succeeds exactly when the input has 27 bytes and the codec decodes it, and then gives exactly the 20 bytes the codec decoded |
| `Xtid.ParseOrNil` | xtid.go:215-221 | a wrong length gives `Nil`; a 27-byte input gives the codec's decoding, or `Nil` when the codec fails |
| `Xtid.Compare` | xtid.go:299-301 | the result is -1, 0 or +1, and is 0 exactly when the identifiers are equal |
| `Xtid.CompareIsNumeric` | xtid.go:299-301 | comparing identifiers is comparing the 160-bit big-endian integers they denote |
| `Xtid.CompareAntisymmetric` | xtid.go:299-301 | `Compare(a, b) == -Compare(b, a)` |
| `Xtid.CompareTransitive` | xtid.go:299-301 | the order on identifiers is transitive |
| `Xtid.NilIsLeast` | xtid.go:57-58 | `Nil` sorts at or before every identifier |
| `Xtid.MaxIsGreatest` | xtid.go:59-60 | `Max` sorts at or after every identifier |
| `Xtid.CompareByFields` | xtid.go:299-301 | byte order is field order: timestamps decide first, then types, then the payload bytes |
| `Xtid.LaterTimestampSortsLater` | xtid.go:299-301 | an identifier with a strictly later timestamp sorts strictly after, whatever its type and payload |
| `Xtid.Make` | xtid.go:249-262 | fails iff the source yields fewer than 10 bytes; a failure returns `Nil` with the read error, so no partially read payload escapes; a success returns an identifier whose timestamp, type and payload are exactly the given timestamp, the given type and the first 10 source bytes |
| `Xtid.Value` | xtid.go:172-177 | the SQL value is null exactly for the nil identifier; otherwise it is the 27-byte text form |
| `Xtid.ScanResult` | xtid.go:138-150 | `scan` by input length: 0 bytes clears to `Nil` with no error; 20 bytes always succeeds with those bytes; 27 bytes behaves as `Parse` committed to the receiver; any other length is `errSize`; on every error the receiver keeps its old value |
| `Xtid.ValueScanRoundTrip` | xtid.go:172-192 | scanning back an identifier's SQL value restores the identifier with no error, for a codec that decodes what it encodes (null scans to `Nil`) |
| `Xtid.IdCell.Assign` | xtid.go:121 | the assignment `*i = id` leaves the receiver holding exactly `id` |
| `Xtid.IdCell.UnmarshalBinary` | xtid.go:129-136 | returns `FromBytes`'s error; the receiver holds the new identifier on success and its old value on error |
| `Xtid.IdCell.UnmarshalText` | xtid.go:116-123 | returns `Parse`'s error; the receiver holds the parsed identifier on success and its old value on error |
| `Xtid.IdCell.ScanRaw` | xtid.go:138-150 | the receiver and the error end up as `ScanResult` describes for the input and the receiver's old value |
| `Xtid.IdCell.Scan` | xtid.go:182-193 | null scans as an empty input; byte slices and strings go through `scan`; any other value gives the unsupported-type error and leaves the receiver unchanged |

## Left out

- `entropy.go` (the mutex-guarded buffered reader over `crypto/rand`): the model has no locking or OS I/O. One read from the source is the `Io.Reader` value passed to `Make`.
- `SetSource` and the package-level `source` variable: ambient global state. `Make` takes its source as a parameter instead.
- The base-62 codec bodies (`fastAppendEncodeBase62`, `fastDecodeBase62`) are not part of this model. So the model does not cover the text form's round trip, its order preservation, or the bounds `minStringEncoded`/`maxStringEncoded`. `String` and `Append` are the codec's `encode`.
- Wall-clock time: `Time`, `NewWithType`, `NewOrNil`, `IDGen`, `timeToCorrectedUTCTimestamp` and `correctedUTCTimestampToTime` are foreign time-library calls over a nondeterministic clock. `Make` takes the microsecond timestamp directly.
- Reading the source: every read is assumed to finish; a source that blocks, or returns no bytes and no error forever, would keep `io.ReadFull` and so `Make` from returning, and that is not expressed. The source's state is not threaded through either: each `Make` is given the bytes its own read sees, so consumption across successive calls is not modelled.
- `Must`: it panics with a formatted message.
- Framework adapters: `Set`, `MarshalText`, `MarshalBinary`, `MarshalJSON`, `UnmarshalJSON`, `MarshalGQL` and `UnmarshalGQL`. They are one-line pass-throughs to `String`, `Bytes`, `scan`, `Scan` and `UnmarshalText`.
- `Get` (the `flag.Getter` method): it returns the identifier itself, boxed as Go's `any`, which has no counterpart here.
- `errPayloadSize`: it is declared at xtid.go:55 but never used.
- Error texts are not modelled. Errors are the tags of `Xtid.Error`, and `Scan`'s `%T` message is the tag `ErrScanType`.
- `Scan`'s dynamic type switch is a closed datatype: null, byte slice, string, or any other value.
- Xtid.Value: returns only the driver value; Go's accompanying error result is always nil and is not modelled.
- Go's slice aliasing (`Bytes` returns a slice of a by-value copy) is not modelled: identifiers are immutable sequences. Only the receiver of the decoders is a mutable array.
