/** Length-prefixed stream framing (utility.stream_wrap / stream_unwrap): every
    frame is a four-byte unsigned big-endian length (struct format '>L')
    followed by that many bytes of payload. */
module Framing {
  import opened Wrappers

  newtype byte = x: int | 0 <= x < 256

  const FrameLimit: nat := 0x1_0000_0000

  /** struct.pack('>L', n). */
  function EncodeLength(n: nat): (r: seq<byte>)
    requires n < FrameLimit
    ensures |r| == 4
  {
    [(n / 0x100_0000) as byte, (n / 0x1_0000 % 0x100) as byte, (n / 0x100 % 0x100) as byte, (n % 0x100) as byte]
  }

  /** struct.unpack('>L', b)[0]. */
  function DecodeLength(b: seq<byte>): (n: nat)
    requires |b| == 4
    ensures n < FrameLimit
  {
    b[0] as nat * 0x100_0000 + b[1] as nat * 0x1_0000 + b[2] as nat * 0x100 + b[3] as nat
  }

  /** Decoding an encoded length gives the length back. */
  lemma DecodeEncodeLength(n: nat)
    requires n < FrameLimit
    ensures DecodeLength(EncodeLength(n)) == n
  {
    var b := EncodeLength(n);
    assert b[0] as nat == n / 0x100_0000;
    assert n == (n / 0x100_0000) * 0x100_0000 + (n / 0x1_0000 % 0x100) * 0x1_0000
              + (n / 0x100 % 0x100) * 0x100 + n % 0x100;
  }

  function Frame(data: seq<byte>): seq<byte>
    requires |data| < FrameLimit
  {
    EncodeLength(|data|) + data
  }

  /** utility.stream_wrap: the payload with its length prepended. A payload of
      2^32 bytes or more makes struct.pack raise; the model returns None. */
  function StreamWrap(data: seq<byte>): (r: Option<seq<byte>>)
    ensures r.None? <==> |data| >= FrameLimit
    ensures r.Some? ==> |r.value| == 4 + |data| && r.value[4..] == data
                        && DecodeLength(r.value[..4]) == |data|
  {
    if |data| >= FrameLimit then None
    else
      DecodeEncodeLength(|data|);
      assert Frame(data)[..4] == EncodeLength(|data|);
      Some(Frame(data))
  }

  /** True when `data` does not yet hold a whole frame: fewer than four bytes, or
      fewer payload bytes than its length prefix announces. */
  predicate Incomplete(data: seq<byte>)
  {
    |data| < 4 || |data| < 4 + DecodeLength(data[..4])
  }

  /** The frames that stream_unwrap takes off the front of `data`, and what it leaves. */
  function Unwrap(data: seq<byte>): (seq<seq<byte>>, seq<byte>)
    decreases |data|
  {
    if Incomplete(data) then ([], data)
    else
      var n := DecodeLength(data[..4]);
      var more := Unwrap(data[4 + n..]);
      ([data[4..4 + n]] + more.0, more.1)
  }

  /** utility.stream_unwrap: strip whole frames off the front of the stream,
      returning their payloads and the unconsumed remainder. */
  method StreamUnwrap(data: seq<byte>) returns (unpacked: seq<seq<byte>>, rest: seq<byte>)
    ensures (unpacked, rest) == Unwrap(data)
    ensures Incomplete(rest)
  {
    unpacked := [];
    rest := data;
    var minimumSize := 4;
    var running := true;
    assert unpacked + Unwrap(rest).0 == Unwrap(rest).0;
    while running
      invariant running ==> (unpacked + Unwrap(rest).0, Unwrap(rest).1) == Unwrap(data)
      invariant !running ==> (unpacked, rest) == Unwrap(data) && Incomplete(rest)
      decreases |rest|, running
    {
      if |rest| < minimumSize {
        assert unpacked + Unwrap(rest).0 == unpacked;
        running := false;
      } else {
        var nextChunkSize := DecodeLength(rest[..minimumSize]);
        if |rest| < minimumSize + nextChunkSize {
          assert unpacked + Unwrap(rest).0 == unpacked;
          running := false;
        } else {
          ghost var before, done := rest, unpacked;
          rest := rest[minimumSize..];
          assert rest[..nextChunkSize] == before[4..4 + nextChunkSize];
          unpacked := unpacked + [rest[..nextChunkSize]];
          rest := rest[nextChunkSize..];
          assert rest == before[4 + nextChunkSize..];
          assert Unwrap(before).0 == [before[4..4 + nextChunkSize]] + Unwrap(rest).0;
          assert done + Unwrap(before).0 == unpacked + Unwrap(rest).0;
        }
      }
    }
  }

  /** The concatenation of the frames of all payloads in `ds`. */
  function Frames(ds: seq<seq<byte>>): seq<byte>
    requires forall i :: 0 <= i < |ds| ==> |ds[i]| < FrameLimit
  {
    if ds == [] then [] else Frame(ds[0]) + Frames(ds[1..])
  }

  /** Round trip: unwrapping the wrapped payloads d1..dn followed by a remainder
      that holds no whole frame gives back exactly [d1..dn] and the remainder. */
  lemma {:induction false} UnwrapFrames(ds: seq<seq<byte>>, r: seq<byte>)
    requires forall i :: 0 <= i < |ds| ==> |ds[i]| < FrameLimit
    requires Incomplete(r)
    ensures Unwrap(Frames(ds) + r) == (ds, r)
  {
    if ds != [] {
      var d := ds[0];
      var s := Frames(ds) + r;
      var tail := Frames(ds[1..]) + r;
      assert s == EncodeLength(|d|) + d + tail;
      assert s[..4] == EncodeLength(|d|);
      DecodeEncodeLength(|d|);
      assert !Incomplete(s);
      assert s[4..4 + |d|] == d;
      assert s[4 + |d|..] == tail;
      UnwrapFrames(ds[1..], r);
      assert [d] + ds[1..] == ds;
    } else {
      assert Frames(ds) + r == r;
    }
  }
}
