/**
 * Big-endian unsigned integers over byte slices, as Go's
 * `binary.BigEndian.Uint16/Uint64` read them and `PutUint16/PutUint64`
 * write them, for any field width.
 */
module BigEndian {
  import opened ByteSeq

  /** 256 to the power `n`: one more than the largest `n`-byte value. */
  function Pow256(n: nat): (r: nat)
    ensures r >= 1
  {
    if n == 0 then 1 else 256 * Pow256(n - 1)
  }

  lemma Pow256Widths()
    ensures Pow256(2) == 0x1_0000
    ensures Pow256(8) == 0x1_0000_0000_0000_0000
  {
  }

  /** The unsigned integer a byte slice denotes, most significant byte first. */
  function Decode(b: seq<byte>): (r: nat)
    ensures r < Pow256(|b|)
  {
    if b == [] then 0
    else
      var hi := Decode(b[..|b| - 1]);
      assert hi * 256 + b[|b| - 1] < Pow256(|b|) by {
        assert hi + 1 <= Pow256(|b| - 1);
        assert (hi + 1) * 256 <= Pow256(|b| - 1) * 256;
      }
      hi * 256 + b[|b| - 1]
  }

  /**
   * The `width`-byte big-endian image of `v`, keeping its low `width` bytes
   * (each byte is the truncating `byte(v >> 8k)` of the Go code).
   */
  function Encode(v: nat, width: nat): (r: seq<byte>)
    ensures |r| == width
  {
    if width == 0 then [] else Encode(v / 256, width - 1) + [v % 256]
  }

  /** Reading back a written value gives the value, when it fits the width. */
  lemma {:induction false} DecodeEncode(v: nat, width: nat)
    requires v < Pow256(width)
    ensures Decode(Encode(v, width)) == v
  {
    if width > 0 {
      var e := Encode(v, width);
      assert e[..width - 1] == Encode(v / 256, width - 1);
      DecodeEncode(v / 256, width - 1);
    }
  }

  /** Writing back a read value gives the same bytes. */
  lemma {:induction false} EncodeDecode(b: seq<byte>)
    ensures Encode(Decode(b), |b|) == b
  {
    if b != [] {
      var n := |b| - 1;
      var hi := Decode(b[..n]);
      assert (hi * 256 + b[n]) / 256 == hi;
      assert (hi * 256 + b[n]) % 256 == b[n];
      EncodeDecode(b[..n]);
      assert b == b[..n] + [b[n]];
    }
  }

  /** Prepending a byte adds it at the weight of the most significant position. */
  lemma {:induction false} DecodeCons(x: byte, t: seq<byte>)
    ensures Decode([x] + t) == x * Pow256(|t|) + Decode(t)
  {
    if t != [] {
      var n := |t| - 1;
      var xt := [x] + t;
      assert xt[..|xt| - 1] == [x] + t[..n];
      assert t[..|t| - 1] == t[..n];
      DecodeCons(x, t[..n]);
      var p, d := Pow256(n), Decode(t[..n]);
      assert Decode(xt) == (x * p + d) * 256 + t[n];
      assert Decode(t) == d * 256 + t[n];
      assert Pow256(|t|) == 256 * p;
      ShiftDistributes(x, p, d, t[n]);
    }
  }

  lemma ShiftDistributes(x: int, p: int, d: int, c: int)
    ensures (x * p + d) * 256 + c == x * (256 * p) + (d * 256 + c)
  {
  }

  /** A leading byte outweighs every byte after it. */
  lemma LeadingByteDominates(x: byte, y: byte, s: nat, t: nat, p: nat)
    requires x < y && s < p
    ensures x * p + s < y * p + t
  {
    assert (x + 1) * p <= y * p;
  }

  /**
   * For slices of equal length, `bytes.Compare` agrees with comparing the
   * integers they denote: lexicographic order is numeric order.
   */
  lemma {:induction false} CompareIsNumeric(a: seq<byte>, b: seq<byte>)
    requires |a| == |b|
    ensures CompareBytes(a, b) == CompareInt(Decode(a), Decode(b))
  {
    if a != [] {
      var n := |a| - 1;
      assert a == [a[0]] + a[1..] && b == [b[0]] + b[1..];
      DecodeCons(a[0], a[1..]);
      DecodeCons(b[0], b[1..]);
      if a[0] == b[0] {
        CompareIsNumeric(a[1..], b[1..]);
      } else if a[0] < b[0] {
        LeadingByteDominates(a[0], b[0], Decode(a[1..]), Decode(b[1..]), Pow256(n));
      } else {
        LeadingByteDominates(b[0], a[0], Decode(b[1..]), Decode(a[1..]), Pow256(n));
      }
    }
  }

  /** A slice of zero bytes denotes 0. */
  lemma {:induction false} DecodeZeros(b: seq<byte>)
    requires forall k :: 0 <= k < |b| ==> b[k] == 0
    ensures Decode(b) == 0
  {
    if b != [] {
      DecodeZeros(b[..|b| - 1]);
    }
  }

  /** A slice of 0xFF bytes denotes the largest value of its width. */
  lemma {:induction false} DecodeOnes(b: seq<byte>)
    requires forall k :: 0 <= k < |b| ==> b[k] == 255
    ensures Decode(b) == Pow256(|b|) - 1
  {
    if b != [] {
      DecodeOnes(b[..|b| - 1]);
    }
  }

  /**
   * Writes the `width`-byte big-endian image of `v` into `a[off..off+width]`,
   * least significant byte last, as `PutUint16`/`PutUint64` do on a sub-slice;
   * the rest of `a` is unchanged.
   */
  method Put(a: array<byte>, off: nat, width: nat, v: nat)
    requires off + width <= a.Length
    modifies a
    ensures a[..] == old(a[..off]) + Encode(v, width) + old(a[off + width..])
  {
    var x, k := v, width;
    while k > 0
      invariant 0 <= k <= width
      invariant Encode(v, width) == Encode(x, k) + a[off + k..off + width]
      invariant a[..off + k] == old(a[..off + k])
      invariant a[off + width..] == old(a[off + width..])
    {
      a[off + k - 1] := x % 256;
      x, k := x / 256, k - 1;
    }
    assert a[..] == a[..off] + a[off..off + width] + a[off + width..];
  }
}
