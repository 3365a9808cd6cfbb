/** The outer format: a big-endian 32-bit length and that many bytes. */
module Framing {
  import opened Bytes

  function Frame(d: bytes): bytes {
    Be32(AsU32(|d|)) + d
  }

  function FramesOf(payloads: seq<bytes>): bytes {
    if payloads == [] then [] else Frame(payloads[0]) + FramesOf(payloads[1..])
  }

  /** One attempt to read a frame: no length left, a length without its body, or a frame. */
  datatype FrameRead = NoLength | ShortBody | Got(payload: bytes, rest: bytes)

  function ReadFrame(b: bytes): (r: FrameRead)
    ensures r.Got? ==> |r.rest| < |b|
  {
    if |b| < 4 then NoLength
    else
      var n := FromBe32(b[..4]);
      if |b| - 4 < n then ShortBody else Got(b[4..4 + n], b[4 + n..])
  }

  /** The payloads of the complete frames at the start of b. */
  function Payloads(b: bytes): seq<bytes>
    decreases |b|
  {
    match ReadFrame(b)
    case Got(d, rest) => [d] + Payloads(rest)
    case _ => []
  }

  /** What is left of b after its complete frames. */
  function Unfinished(b: bytes): bytes
    decreases |b|
  {
    match ReadFrame(b)
    case Got(_, rest) => Unfinished(rest)
    case _ => b
  }

  predicate AllShort(payloads: seq<bytes>) {
    forall i :: 0 <= i < |payloads| ==> |payloads[i]| < U32_LIMIT
  }

  /** Reading after a length takes that many bytes. */
  lemma ReadLength(n: u32, more: bytes)
    ensures ReadFrame(Be32(n) + more) == if |more| < n then ShortBody else Got(more[..n], more[n..])
  {
    hide Be32, FromBe32;
    U32RoundTrip(n);
    var b := Be32(n) + more;
    assert b[..4] == Be32(n) && b[4..] == more;
    if n <= |more| {
      assert b[4..4 + n] == more[..n] && b[4 + n..] == more[n..];
    }
  }

  /** A frame is read back exactly when its payload's length fits in the length field. */
  lemma FrameRoundTripIff(d: bytes, rest: bytes)
    ensures ReadFrame(Frame(d) + rest) == Got(d, rest) <==> |d| < U32_LIMIT
  {
    hide Be32, ReadFrame, AsU32;
    var n := AsU32(|d|);
    assert Frame(d) + rest == Be32(n) + (d + rest);
    ReadLength(n, d + rest);
    if |d| < U32_LIMIT {
      ShortLength(|d|);
      assert (d + rest)[..n] == d && (d + rest)[n..] == rest;
    }
  }

  /** What a frame of any payload at all is read as: the length keeps only its low 32 bits, so a payload that
      is too long loses its end to the bytes after the frame. */
  lemma FrameOfAnyLength(d: bytes, rest: bytes)
    ensures ReadFrame(Frame(d) + rest) == Got(d[..|d| % 0x1_0000_0000], d[|d| % 0x1_0000_0000..] + rest)
  {
    hide Be32, ReadFrame;
    var n := AsU32(|d|);
    assert Frame(d) + rest == Be32(n) + (d + rest);
    ReadLength(n, d + rest);
    assert (d + rest)[..n] == d[..n] && (d + rest)[n..] == d[n..] + rest;
  }

  lemma FrameInverse(b: bytes)
    requires ReadFrame(b).Got?
    ensures |ReadFrame(b).payload| < U32_LIMIT
    ensures b == Frame(ReadFrame(b).payload) + ReadFrame(b).rest
  {
    hide Be32, FromBe32;
    U32BytesRoundTrip(b[..4]);
    var Got(d, rest) := ReadFrame(b);
    assert AsU32(|d|) == FromBe32(b[..4]);
    assert b == b[..4] + d + rest;
  }

  /** A strict prefix of a frame contains no frame. */
  lemma FramePrefixIncomplete(d: bytes, k: nat)
    requires |d| < U32_LIMIT && k < |Frame(d)|
    ensures !ReadFrame(Frame(d)[..k]).Got?
  {
    hide Frame, ReadFrame;
    var whole := Frame(d);
    var p, q := whole[..k], whole[k..];
    if ReadFrame(p).Got? {
      var Got(d', r) := ReadFrame(p);
      FrameInverse(p);
      assert whole == p + q && whole == whole + [];
      Regroup(Frame(d'), r, q);
      FrameRoundTripIff(d', r + q);
      FrameRoundTripIff(d, []);
    }
  }

  /** Splitting undoes framing: whole frames followed by something that holds no frame. */
  lemma {:induction false} SplitRoundTrip(payloads: seq<bytes>, tail: bytes)
    requires AllShort(payloads) && !ReadFrame(tail).Got?
    ensures Payloads(FramesOf(payloads) + tail) == payloads
    ensures Unfinished(FramesOf(payloads) + tail) == tail
  {
    hide Frame, ReadFrame;
    if payloads == [] {
      assert FramesOf(payloads) + tail == tail;
    } else {
      SplitRoundTrip(payloads[1..], tail);
      Regroup(Frame(payloads[0]), FramesOf(payloads[1..]), tail);
      FrameRoundTripIff(payloads[0], FramesOf(payloads[1..]) + tail);
      assert payloads == [payloads[0]] + payloads[1..];
    }
  }

  /** Any bytes at all are their complete frames followed by what is unfinished. */
  lemma {:induction false} SplitInverse(b: bytes)
    ensures AllShort(Payloads(b)) && !ReadFrame(Unfinished(b)).Got?
    ensures b == FramesOf(Payloads(b)) + Unfinished(b)
    decreases |b|
  {
    hide Frame;
    if ReadFrame(b).Got? {
      var Got(d, rest) := ReadFrame(b);
      FrameInverse(b);
      SplitInverse(rest);
      assert Payloads(b)[1..] == Payloads(rest);
      Regroup(Frame(d), FramesOf(Payloads(rest)), Unfinished(rest));
    } else {
      assert FramesOf([]) + b == b;
    }
  }

  lemma {:induction false} FramesOfAppend(p: seq<bytes>, q: seq<bytes>)
    ensures FramesOf(p + q) == FramesOf(p) + FramesOf(q)
  {
    hide Frame;
    if p == [] {
      assert p + q == q;
    } else {
      FramesOfAppend(p[1..], q);
      assert (p + q)[1..] == p[1..] + q;
      Regroup(Frame(p[0]), FramesOf(p[1..]), FramesOf(q));
    }
  }

  lemma FramesOfSnoc(p: seq<bytes>, d: bytes)
    ensures FramesOf(p + [d]) == FramesOf(p) + Frame(d)
  {
    hide Frame;
    FramesOfAppend(p, [d]);
    assert FramesOf([d]) == Frame(d) + FramesOf([]);
  }

  /** More bytes never change the frames already complete. */
  lemma {:induction false} PayloadsMonotone(b: bytes, more: bytes)
    ensures Payloads(b) <= Payloads(b + more)
    ensures Payloads(b + more) == Payloads(b) + Payloads(Unfinished(b) + more)
    decreases |b|
  {
    hide Frame, ReadFrame;
    if ReadFrame(b).Got? {
      var Got(d, rest) := ReadFrame(b);
      FrameInverse(b);
      Regroup(Frame(d), rest, more);
      FrameRoundTripIff(d, rest + more);
      PayloadsMonotone(rest, more);
    }
  }

  /** How many of the payloads end at or before byte k of their frames. */
  function CompleteBy(payloads: seq<bytes>, k: nat): (n: nat)
    ensures n <= |payloads|
  {
    if payloads == [] || k < |Frame(payloads[0])| then 0
    else 1 + CompleteBy(payloads[1..], k - |Frame(payloads[0])|)
  }

  /** What `CompleteBy` counts: the longest run of payloads whose frames fit in k bytes. */
  lemma {:induction false} CompleteByIsLongest(payloads: seq<bytes>, k: nat, n: nat)
    requires n <= |payloads|
    ensures n <= CompleteBy(payloads, k) <==> |FramesOf(payloads[..n])| <= k
  {
    hide Frame;
    if payloads != [] && n > 0 {
      assert payloads[..n] == [payloads[0]] + payloads[1..][..n - 1];
      if |Frame(payloads[0])| <= k {
        CompleteByIsLongest(payloads[1..], k - |Frame(payloads[0])|, n - 1);
      }
    }
  }

  /** Cut a stream of frames at any byte: exactly the frames that end by then are found. */
  lemma {:induction false} CutAnywhere(payloads: seq<bytes>, k: nat)
    requires AllShort(payloads) && k <= |FramesOf(payloads)|
    ensures Payloads(FramesOf(payloads)[..k]) == payloads[..CompleteBy(payloads, k)]
  {
    hide Frame, ReadFrame;
    if payloads == [] {
      PayloadsOfNothing();
    } else {
      var f, rest := Frame(payloads[0]), FramesOf(payloads[1..]);
      var cut := FramesOf(payloads)[..k];
      if k < |f| {
        assert cut == f[..k];
        FramePrefixIncomplete(payloads[0], k);
      } else {
        CutAnywhere(payloads[1..], k - |f|);
        assert cut == f + rest[..k - |f|];
        FrameRoundTripIff(payloads[0], rest[..k - |f|]);
      }
    }
  }

  lemma PayloadsOfNothing()
    ensures Payloads([]) == []
  {
  }
}
