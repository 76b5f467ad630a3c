/**
 * XTID: a 20-byte, byte-order-sortable identifier.
 *
 *   bytes  0..8   timestamp, big-endian uint64 (microseconds since the Unix epoch)
 *   bytes  8..10  type tag, big-endian uint16
 *   bytes 10..20  random payload
 *
 * Go strings are byte strings, so textual inputs are byte sequences here too.
 * The base-62 text codec is not part of this model: it is passed in as a
 * `Base62` value, of which only the shapes are known (encoding gives 27
 * bytes; decoding gives 20 bytes or fails).
 */
module Xtid {
  import opened ByteSeq
  import opened Wrappers
  import BigEndian
  import Io

  const TimestampLength: nat := 8
  const PayloadLength: nat := 10
  const TypeLength: nat := 2
  const ByteLength: nat := TimestampLength + TypeLength + PayloadLength
  const PayloadStart: nat := TimestampLength + TypeLength
  const StringEncodedLength: nat := 27

  type uint16 = x: nat | x < 0x1_0000
  type uint64 = x: nat | x < 0x1_0000_0000_0000_0000

  /** An identifier value (Go's `[20]byte`). */
  type Id = s: seq<byte> | |s| == ByteLength witness [0, 0, 0, 0, 0, 0, 0, 0, 0, 0, 0, 0, 0, 0, 0, 0, 0, 0, 0, 0]

  /** The 27-byte text form. */
  type Encoded = s: seq<byte> | |s| == StringEncodedLength witness [48, 48, 48, 48, 48, 48, 48, 48, 48, 48, 48, 48, 48, 48, 48, 48, 48, 48, 48, 48, 48, 48, 48, 48, 48, 48, 48]

  /** The base-62 codec, whose bodies are not part of this model. */
  datatype Base62 = Base62(encode: Id -> Encoded, decode: Encoded -> Option<Id>)

  /** The errors of the package: errSize, errStrSize, errStrValue, a read failure, and Scan's type error. */
  datatype Error = ErrSize | ErrStrSize | ErrStrValue | ErrSource(cause: Io.IoError) | ErrScanType

  /** Go's `(XTID, error)` result pair. */
  datatype Returned = Returned(id: Id, err: Option<Error>)

  /** The completely empty identifier: every byte zero. */
  const Nil: Id := [0, 0, 0, 0, 0, 0, 0, 0, 0, 0, 0, 0, 0, 0, 0, 0, 0, 0, 0, 0]

  /** The highest identifier: every byte 0xFF. */
  const Max: Id :=
    [255, 255, 255, 255, 255, 255, 255, 255, 255, 255, 255, 255, 255, 255, 255, 255, 255, 255, 255, 255]

  /** The timestamp field read back as an unsigned integer. */
  function Timestamp(i: Id): (r: uint64)
    ensures BigEndian.Encode(r, TimestampLength) == i[..TimestampLength]
  {
    BigEndian.Pow256Widths();
    BigEndian.EncodeDecode(i[..TimestampLength]);
    BigEndian.Decode(i[..TimestampLength])
  }

  /** The type field read back as an unsigned integer. */
  function Type(i: Id): (r: uint16)
    ensures BigEndian.Encode(r, TypeLength) == i[TimestampLength..PayloadStart]
  {
    BigEndian.Pow256Widths();
    BigEndian.EncodeDecode(i[TimestampLength..PayloadStart]);
    BigEndian.Decode(i[TimestampLength..PayloadStart])
  }

  /** The random payload bytes. */
  function Payload(i: Id): (r: seq<byte>)
  {
    i[PayloadStart..]
  }

  /** The identifier whose fields are `ts`, `typ` and `payload`. */
  function Layout(ts: uint64, typ: uint16, payload: seq<byte>): (i: Id)
    requires |payload| == PayloadLength
    ensures Timestamp(i) == ts && Type(i) == typ && Payload(i) == payload
  {
    BigEndian.Pow256Widths();
    var t, y := BigEndian.Encode(ts, TimestampLength), BigEndian.Encode(typ, TypeLength);
    var i := t + y + payload;
    assert i[..TimestampLength] == t && i[TimestampLength..PayloadStart] == y && i[PayloadStart..] == payload;
    BigEndian.DecodeEncode(ts, TimestampLength);
    BigEndian.DecodeEncode(typ, TypeLength);
    i
  }

  /** Every identifier is laid out from its own fields: the accessors lose nothing. */
  lemma LayoutOfFields(i: Id)
    ensures Layout(Timestamp(i), Type(i), Payload(i)) == i
  {
    BigEndian.EncodeDecode(i[..TimestampLength]);
    BigEndian.EncodeDecode(i[TimestampLength..PayloadStart]);
    assert i == i[..TimestampLength] + i[TimestampLength..PayloadStart] + i[PayloadStart..];
  }

  /** The raw bytes; reading them back with FromBytes gives the same identifier. */
  function Bytes(i: Id): (r: seq<byte>)
    ensures FromBytes(r) == Returned(i, None)
  {
    i
  }

  /** Whether `i` is the Nil identifier. */
  function IsNil(i: Id): (r: bool)
    ensures r <==> forall k :: 0 <= k < |i| ==> i[k] == 0
  {
    i == Nil
  }

  /**
   * The text form, through the codec; it can be passed through Parse, which
   * gives back `i` whenever the codec decodes what it encodes.
   */
  function String(codec: Base62, i: Id): (r: Encoded)
    ensures codec.decode(codec.encode(i)) == Some(i) ==> Parse(codec, r) == Returned(i, None)
  {
    codec.encode(i)
  }

  /** An identifier from exactly 20 bytes; any other length is errSize with Nil. */
  function FromBytes(b: seq<byte>): (r: Returned)
    ensures r.err.None? <==> |b| == ByteLength
    ensures r.err.None? ==> r.id == b
    ensures r.err.Some? ==> r == Returned(Nil, Some(ErrSize))
  {
    if |b| != ByteLength then Returned(Nil, Some(ErrSize)) else Returned(b, None)
  }

  /** FromBytes, with Nil standing for every failure. */
  function FromBytesOrNil(b: seq<byte>): (r: Id)
    ensures |b| == ByteLength ==> r == b
    ensures |b| != ByteLength ==> r == Nil
  {
    if FromBytes(b).err.Some? then Nil else FromBytes(b).id
  }

  /**
   * An identifier from its 27-byte text form. The length is checked before
   * the codec is consulted; a codec failure is errStrValue.
   */
  function Parse(codec: Base62, s: seq<byte>): (r: Returned)
    ensures r.err == Some(ErrStrSize) <==> |s| != StringEncodedLength
    ensures r.err == Some(ErrStrValue) <==> |s| == StringEncodedLength && codec.decode(s).None?
    ensures r.err.None? <==> |s| == StringEncodedLength && codec.decode(s).Some?
    ensures r.err.None? ==> codec.decode(s) == Some(r.id)
    ensures r.err.Some? ==> r.id == Nil
  {
    if |s| != StringEncodedLength then Returned(Nil, Some(ErrStrSize))
    else match codec.decode(s)
      case None => Returned(Nil, Some(ErrStrValue))
      case Some(dst) => FromBytes(dst)
  }

  /** Parse, with Nil standing for every failure. */
  function ParseOrNil(codec: Base62, s: seq<byte>): (r: Id)
    ensures |s| != StringEncodedLength ==> r == Nil
    ensures |s| == StringEncodedLength ==> Some(r) == codec.decode(s) || (codec.decode(s).None? && r == Nil)
  {
    if Parse(codec, s).err.Some? then Nil else Parse(codec, s).id
  }

  /** Byte-wise comparison of two identifiers: -1, 0 or +1. */
  function Compare(a: Id, b: Id): (r: int)
    ensures -1 <= r <= 1
    ensures r == 0 <==> a == b
  {
    CompareBytes(a, b)
  }

  /** Comparing identifiers is comparing the 160-bit big-endian integers they denote. */
  lemma CompareIsNumeric(a: Id, b: Id)
    ensures Compare(a, b) == CompareInt(BigEndian.Decode(a), BigEndian.Decode(b))
  {
    BigEndian.CompareIsNumeric(a, b);
  }

  /** Swapping the operands negates the comparison. */
  lemma CompareAntisymmetric(a: Id, b: Id)
    ensures Compare(a, b) == -Compare(b, a)
  {
    ByteSeq.CompareAntisymmetric(a, b);
  }

  /** The comparison is transitive. */
  lemma CompareTransitive(a: Id, b: Id, c: Id)
    requires Compare(a, b) < 0 && Compare(b, c) < 0
    ensures Compare(a, c) < 0
  {
    ByteSeq.CompareTransitive(a, b, c);
  }

  /** Nil sorts at or before every identifier. */
  lemma NilIsLeast(i: Id)
    ensures Compare(Nil, i) <= 0
  {
    BigEndian.DecodeZeros(Nil);
    BigEndian.CompareIsNumeric(Nil, i);
  }

  /** Max sorts at or after every identifier. */
  lemma MaxIsGreatest(i: Id)
    ensures Compare(i, Max) <= 0
  {
    BigEndian.DecodeOnes(Max);
    BigEndian.CompareIsNumeric(i, Max);
  }

  /** Byte order is field order: timestamps first, then types, then payloads. */
  lemma CompareByFields(a: Id, b: Id)
    ensures Compare(a, b) ==
      if Timestamp(a) != Timestamp(b) then CompareInt(Timestamp(a), Timestamp(b))
      else if Type(a) != Type(b) then CompareInt(Type(a), Type(b))
      else CompareBytes(Payload(a), Payload(b))
  {
    var ta, tb := a[..TimestampLength], b[..TimestampLength];
    var ya, yb := a[TimestampLength..PayloadStart], b[TimestampLength..PayloadStart];
    assert a == ta + (ya + Payload(a)) && b == tb + (yb + Payload(b));
    ByteSeq.CompareConcat(ta, tb, ya + Payload(a), yb + Payload(b));
    ByteSeq.CompareConcat(ya, yb, Payload(a), Payload(b));
    BigEndian.CompareIsNumeric(ta, tb);
    BigEndian.CompareIsNumeric(ya, yb);
    BigEndian.EncodeDecode(ta);
    BigEndian.EncodeDecode(tb);
    BigEndian.EncodeDecode(ya);
    BigEndian.EncodeDecode(yb);
  }

  /** A strictly later timestamp sorts strictly later, whatever the other fields. */
  lemma LaterTimestampSortsLater(a: Id, b: Id)
    requires Timestamp(a) > Timestamp(b)
    ensures Compare(a, b) > 0
  {
    CompareByFields(a, b);
  }

  /**
   * Mints an identifier: reads 10 payload bytes from `source` into a zeroed
   * buffer, then stamps the timestamp and type fields. On a failed read the
   * result is Nil with the read error, whatever bytes had arrived.
   */
  method Make(ts: uint64, typ: uint16, source: Io.Reader) returns (id: Id, err: Option<Error>)
    ensures err.None? <==> |source.supply| >= PayloadLength
    ensures err.None? ==> Timestamp(id) == ts && Type(id) == typ && Payload(id) == source.supply[..PayloadLength]
    ensures err.Some? ==> id == Nil && err.value.ErrSource?
    ensures err.Some? ==> Io.ReadFullError(source, PayloadLength) == Some(err.value.cause)
  {
    var buf := new byte[ByteLength](_ => 0);
    var n, readErr := Io.ReadFull(source, buf, PayloadStart);
    if readErr.Some? {
      id, err := Nil, Some(ErrSource(readErr.value));  // no partially read payload leaks out
      return;
    }
    ghost var payload := buf[PayloadStart..];
    assert payload == source.supply[..PayloadLength];
    BigEndian.Pow256Widths();
    BigEndian.Put(buf, 0, TimestampLength, ts);
    BigEndian.Put(buf, TimestampLength, TypeLength, typ);
    assert buf[..] == BigEndian.Encode(ts, TimestampLength) + BigEndian.Encode(typ, TypeLength) + payload;
    id, err := buf[..], None;
    assert id == Layout(ts, typ, payload);
  }

  /** The SQL driver value of an identifier: null or its text form. */
  datatype DriverValue = SqlNull | SqlText(text: seq<byte>)

  /** The SQL driver value: Nil becomes null, anything else its text form. */
  function Value(codec: Base62, i: Id): (r: DriverValue)
    ensures r.SqlNull? <==> IsNil(i)
    ensures r.SqlText? ==> r.text == String(codec, i) && |r.text| == StringEncodedLength
  {
    if IsNil(i) then SqlNull else SqlText(String(codec, i))
  }

  /** The values Scan accepts: SQL null, a byte slice, a string, or anything else. */
  datatype ScanSource = ScanNull | ScanBytes(bytes: seq<byte>) | ScanString(chars: seq<byte>) | ScanOther

  /** What an assignment `*i = r.id` guarded by `r.err == nil` leaves in a receiver that held `prior`. */
  function Commit(r: Returned, prior: Id): (c: Returned)
    ensures c.err == r.err
    ensures c.id == if r.err.None? then r.id else prior
  {
    if r.err.None? then r else Returned(prior, r.err)
  }

  /**
   * The effect of the unexported `scan` on a receiver holding `prior`: the
   * input length selects clearing, the binary form or the text form.
   */
  function ScanResult(codec: Base62, b: seq<byte>, prior: Id): (r: Returned)
    ensures r.err.Some? ==> r.id == prior
    ensures |b| == 0 ==> r == Returned(Nil, None)
    ensures |b| == ByteLength ==> r == Returned(b, None)
    ensures |b| == StringEncodedLength ==> r == Commit(Parse(codec, b), prior)
    ensures |b| !in {0, ByteLength, StringEncodedLength} ==> r == Returned(prior, Some(ErrSize))
  {
    if |b| == 0 then Returned(Nil, None)
    else if |b| == ByteLength then Commit(FromBytes(b), prior)
    else if |b| == StringEncodedLength then Commit(Parse(codec, b), prior)
    else Returned(prior, Some(ErrSize))
  }

  /**
   * Handing an identifier's SQL value back to Scan restores the identifier,
   * provided the codec decodes what it encodes.
   */
  lemma ValueScanRoundTrip(codec: Base62, i: Id, prior: Id)
    requires codec.decode(codec.encode(i)) == Some(i)
    ensures Value(codec, i).SqlNull? ==> ScanResult(codec, [], prior) == Returned(i, None)
    ensures Value(codec, i).SqlText? ==> ScanResult(codec, Value(codec, i).text, prior) == Returned(i, None)
  {
  }

  /** A variable of identifier type, updated through a pointer receiver. */
  class IdCell {
    const bytes: array<byte>

    ghost predicate Valid()
    {
      bytes.Length == ByteLength
    }

    /** The identifier the cell currently holds. */
    function Current(): Id
      reads bytes
      requires Valid()
    {
      bytes[..]
    }

    constructor (init: Id)
      ensures Valid() && fresh(bytes) && Current() == init
    {
      bytes := new byte[ByteLength](k => if 0 <= k < |init| then init[k] else 0);
    }

    /** `*i = id`: overwrite all 20 bytes. */
    method Assign(id: Id)
      requires Valid()
      modifies bytes
      ensures Current() == id
    {
      forall k | 0 <= k < ByteLength {
        bytes[k] := id[k];
      }
    }

    /** Store the identifier FromBytes builds from `b`, or keep the old one on error. */
    method UnmarshalBinary(b: seq<byte>) returns (err: Option<Error>)
      requires Valid()
      modifies bytes
      ensures Returned(Current(), err) == Commit(FromBytes(b), old(Current()))
    {
      var r := FromBytes(b);
      if r.err.Some? {
        return r.err;
      }
      Assign(r.id);
      err := None;
    }

    /** Store the identifier Parse builds from `s`, or keep the old one on error. */
    method UnmarshalText(codec: Base62, s: seq<byte>) returns (err: Option<Error>)
      requires Valid()
      modifies bytes
      ensures Returned(Current(), err) == Commit(Parse(codec, s), old(Current()))
    {
      var r := Parse(codec, s);
      if r.err.Some? {
        return r.err;
      }
      Assign(r.id);
      err := None;
    }

    /** The unexported `scan`: dispatch on the input length. */
    method ScanRaw(codec: Base62, b: seq<byte>) returns (err: Option<Error>)
      requires Valid()
      modifies bytes
      ensures Returned(Current(), err) == ScanResult(codec, b, old(Current()))
    {
      if |b| == 0 {
        Assign(Nil);
        err := None;
      } else if |b| == ByteLength {
        err := UnmarshalBinary(b);
      } else if |b| == StringEncodedLength {
        err := UnmarshalText(codec, b);
      } else {
        err := Some(ErrSize);
      }
    }

    /** `Scan`: null clears, bytes and strings go through `scan`, anything else fails. */
    method Scan(codec: Base62, src: ScanSource) returns (err: Option<Error>)
      requires Valid()
      modifies bytes
      ensures src.ScanNull? ==> Returned(Current(), err) == ScanResult(codec, [], old(Current()))
      ensures src.ScanBytes? ==> Returned(Current(), err) == ScanResult(codec, src.bytes, old(Current()))
      ensures src.ScanString? ==> Returned(Current(), err) == ScanResult(codec, src.chars, old(Current()))
      ensures src.ScanOther? ==> err == Some(ErrScanType) && Current() == old(Current())
    {
      match src
      case ScanNull => err := ScanRaw(codec, []);
      case ScanBytes(b) => err := ScanRaw(codec, b);
      case ScanString(s) => err := ScanRaw(codec, s);
      case ScanOther => err := Some(ErrScanType);
    }
  }
}
