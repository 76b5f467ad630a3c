/**
 * Bytes and the lexicographic comparison of byte slices that Go's
 * `bytes.Compare` performs (the comparison behind `xtid.Compare`).
 */
module ByteSeq {
  /** A Go `byte`. */
  type byte = x: int | 0 <= x < 256

  /** Three-way comparison of two integers: -1, 0 or +1. */
  function CompareInt(x: int, y: int): (r: int)
    ensures r == 0 <==> x == y
    ensures r < 0 <==> x < y
    ensures r > 0 <==> x > y
  {
    if x < y then -1 else if x > y then 1 else 0
  }

  /**
   * `bytes.Compare(a, b)`: -1 if `a` sorts before `b`, 0 if they are equal,
   * +1 otherwise; a proper prefix sorts first.
   */
  function CompareBytes(a: seq<byte>, b: seq<byte>): (r: int)
    ensures -1 <= r <= 1
    ensures r == 0 <==> a == b
  {
    if a == [] && b == [] then 0
    else if a == [] then -1
    else if b == [] then 1
    else if a[0] < b[0] then -1
    else if a[0] > b[0] then 1
    else
      var r := CompareBytes(a[1..], b[1..]);
      assert a == [a[0]] + a[1..] && b == [b[0]] + b[1..];
      r
  }

  /** Swapping the operands negates the result. */
  lemma {:induction false} CompareAntisymmetric(a: seq<byte>, b: seq<byte>)
    ensures CompareBytes(a, b) == -CompareBytes(b, a)
  {
    if a != [] && b != [] && a[0] == b[0] {
      CompareAntisymmetric(a[1..], b[1..]);
    }
  }

  /** The order is transitive. */
  lemma {:induction false} CompareTransitive(a: seq<byte>, b: seq<byte>, c: seq<byte>)
    requires CompareBytes(a, b) < 0 && CompareBytes(b, c) < 0
    ensures CompareBytes(a, c) < 0
  {
    if a != [] && b != [] && c != [] && a[0] == b[0] == c[0] {
      CompareTransitive(a[1..], b[1..], c[1..]);
    }
  }

  /**
   * Comparing two concatenations whose first parts have equal length: the
   * first parts decide unless they are equal, then the second parts decide.
   */
  lemma {:induction false} CompareConcat(p: seq<byte>, q: seq<byte>, s: seq<byte>, t: seq<byte>)
    requires |p| == |q|
    ensures CompareBytes(p + s, q + t) == if p != q then CompareBytes(p, q) else CompareBytes(s, t)
  {
    if p != [] {
      assert (p + s)[0] == p[0] && (q + t)[0] == q[0];
      if p[0] == q[0] {
        assert (p + s)[1..] == p[1..] + s && (q + t)[1..] == q[1..] + t;
        assert p != q <==> p[1..] != q[1..] by {
          assert p == [p[0]] + p[1..] && q == [q[0]] + q[1..];
        }
        CompareConcat(p[1..], q[1..], s, t);
      }
    } else {
      assert p == q;
      assert p + s == s && q + t == t;
    }
  }
}
