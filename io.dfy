/**
 * The part of Go's `io` package that minting relies on: a byte source and
 * `io.ReadFull`, which fills a buffer completely or reports why it could not.
 */
module Io {
  import opened ByteSeq
  import opened Wrappers

  /** `io.EOF`, `io.ErrUnexpectedEOF`, or any other failure of the source. */
  datatype IoError = EOF | UnexpectedEOF | Failure(code: nat)

  /**
   * A byte source as seen by one read: it yields the bytes of `supply`, in
   * order, and then fails with `failure`. A source that never fails is one
   * whose supply is at least as long as what is asked of it.
   */
  datatype Reader = Reader(supply: seq<byte>, failure: IoError)

  /** How many bytes a full read of `want` bytes obtains from `r`. */
  function Obtained(r: Reader, want: nat): (n: nat)
    ensures n <= want && n <= |r.supply|
    ensures n == want || n == |r.supply|
  {
    if |r.supply| < want then |r.supply| else want
  }

  /**
   * The error `io.ReadFull` returns for a read of `want` bytes: none when the
   * source delivered them all; `ErrUnexpectedEOF` when the source ended after
   * some but not all of them; otherwise the source's own error.
   */
  function ReadFullError(r: Reader, want: nat): (e: Option<IoError>)
    ensures e.None? <==> |r.supply| >= want
    ensures e == Some(UnexpectedEOF) <==>
      (|r.supply| < want && (r.failure == UnexpectedEOF || (r.failure == EOF && r.supply != [])))
  {
    if |r.supply| >= want then None
    else if r.failure == EOF && |r.supply| > 0 then Some(UnexpectedEOF)
    else Some(r.failure)
  }

  /**
   * `io.ReadFull(r, buf[off:])`: copies what the source yields into the
   * buffer from `off` on, stopping when the buffer is full or the source
   * fails; bytes obtained before a failure stay in the buffer.
   */
  method ReadFull(r: Reader, buf: array<byte>, off: nat) returns (n: nat, err: Option<IoError>)
    requires off <= buf.Length
    modifies buf
    ensures n == Obtained(r, buf.Length - off)
    ensures err == ReadFullError(r, buf.Length - off)
    ensures buf[..] == old(buf[..off]) + r.supply[..n] + old(buf[off + n..])
  {
    var want := buf.Length - off;
    n := 0;
    while n < want && n < |r.supply|
      invariant n <= want && n <= |r.supply|
      invariant forall k :: 0 <= k < off ==> buf[k] == old(buf[k])
      invariant forall k :: 0 <= k < n ==> buf[off + k] == r.supply[k]
      invariant forall k :: off + n <= k < buf.Length ==> buf[k] == old(buf[k])
    {
      buf[off + n] := r.supply[n];
      n := n + 1;
    }
    ghost var expected := old(buf[..off]) + r.supply[..n] + old(buf[off + n..]);
    assert |expected| == buf.Length;
    forall k | 0 <= k < buf.Length
      ensures buf[k] == expected[k]
    {
      if k < off {
      } else if k < off + n {
        assert expected[k] == r.supply[k - off];
      } else {
        assert expected[k] == old(buf[k]);
      }
    }
    assert buf[..] == expected;
    if n == want {
      err := None;
    } else if r.failure == EOF && n > 0 {
      err := Some(UnexpectedEOF);
    } else {
      err := Some(r.failure);
    }
  }
}
