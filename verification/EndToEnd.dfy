/** The sending side, the network and the receive loop together: what is sent, over all the streams of any
    run, is what is delivered. */
module EndToEnd {
  import opened Bytes
  import opened Crypto
  import opened Framing
  import opened Listener
  import opened Delivery
  import opened ConnectionCache
  import opened SenderProtocol
  import opened SenderInvariant
  import opened SenderTheorems

  /** Task t carries message ps[t], and every message may be sent. */
  ghost predicate Carries(env: Env, keys: KeyPair, s: State, ps: seq<Payload>) {
    && |ps| == |s.tasks|
    && AllSendable(env, keys, ps)
    && forall t :: 0 <= t < |ps| ==> s.tasks[t].job.data == Wire(env, keys, ps[t])
  }

  function MessagesAt(ps: seq<Payload>, sent: seq<nat>): (ms: seq<Payload>)
    requires forall i :: 0 <= i < |sent| ==> sent[i] < |ps|
    ensures |ms| == |sent|
  {
    seq(|sent|, i requires 0 <= i < |sent| => ps[sent[i]])
  }

  lemma CarriesShort(env: Env, keys: KeyPair, s: State, ps: seq<Payload>)
    requires Carries(env, keys, s, ps)
    ensures ShortJobs(s)
  {
    hide Wire, GetsThrough;
    forall t | 0 <= t < |s.tasks|
      ensures |s.tasks[t].job.data| < U32_LIMIT
    {
      assert ps[t] in ps;
    }
  }

  lemma SentMessages(env: Env, keys: KeyPair, s: State, ps: seq<Payload>, sent: seq<nat>)
    requires Carries(env, keys, s, ps) && ValidSent(s.tasks, sent)
    ensures AllSendable(env, keys, MessagesAt(ps, sent))
    ensures DataSent(s.tasks, sent) == Wires(env, keys, MessagesAt(ps, sent))
  {
    hide Wire, Sendable, GetsThrough;
    var ms := MessagesAt(ps, sent);
    forall p | p in ms
      ensures p in ps
    {
    }
  }

  /** A prefix of a part is a part. */
  lemma PartOfPart(tasks: seq<Task>, tail: bytes, m: nat)
    requires PartOfOne(tasks, tail) && m <= |tail|
    ensures PartOfOne(tasks, tail[..m])
  {
    hide Frame;
    if tail[..m] != [] {
      var t :| 0 <= t < |tasks| && StrictPrefix(tail, FrameOf(tasks[t]));
      assert StrictPrefix(tail[..m], FrameOf(tasks[t]));
    }
  }

  /** Whatever a receiver has read of a stream of whole frames and one part, it has found exactly the
      payloads whose frames are complete by then. */
  lemma CutOfFramesAndPart(tasks: seq<Task>, data: seq<bytes>, tail: bytes, n: nat)
    requires AllShort(data) && PartOfOne(tasks, tail) && n <= |FramesOf(data) + tail|
    requires forall t :: 0 <= t < |tasks| ==> |tasks[t].job.data| < U32_LIMIT
    ensures Payloads((FramesOf(data) + tail)[..n]) == data[..CompleteBy(data, n)]
    ensures ReadFrame(Unfinished((FramesOf(data) + tail)[..n])) in {NoLength, ShortBody}
  {
    hide PartOfOne, FramesOf, ReadFrame, Payloads, Unfinished;
    var cut, size := (FramesOf(data) + tail)[..n], |FramesOf(data)|;
    if n <= size {
      assert cut == FramesOf(data)[..n];
      CutAnywhere(data, n);
    } else {
      assert cut == FramesOf(data) + tail[..n - size];
      PartOfPart(tasks, tail, n - size);
      PartHoldsNoFrame(tasks, tail[..n - size]);
      SplitRoundTrip(data, tail[..n - size]);
      assert data[..|data|] == data;
      CompleteByIsLongest(data, n, |data|);
    }
    SplitInverse(cut);
  }

  /** End to end, over any stream of any run and cut at any byte: the receiver is handed exactly the
      messages completely received so far, of those that get through, in stream order, each with its
      original text and header; and its loop is still alive. */
  lemma StreamDelivers(
    env: Env, keys: KeyPair, s: State, cache: Cache, events: seq<Event>, ps: seq<Payload>, k: nat, n: nat)
    requires Premises(env, keys) && ReachedBy(s, cache, events) && Carries(env, keys, s, ps)
    requires k < |s.socks| && n <= |s.socks[k].stream|
    ensures ValidSent(s.tasks, s.socks[k].sent)
    ensures var received := s.socks[k].stream[..n];
            var complete := CompleteBy(DataSent(s.tasks, s.socks[k].sent), n);
            && Delivered(env, received) == Expected(env, keys, MessagesAt(ps, s.socks[k].sent)[..complete])
            && !EndingOf(env, received).Failed?
  {
    CarriesShort(env, keys, s, ps);
    ReachedInv(s, cache, events);
    hide ReachedBy, Premises;
    StreamOfInv(s, k);
    hide InvWith;
    SplitInverse(s.socks[k].stream);
    var sent := s.socks[k].sent;
    var data, tail := DataSent(s.tasks, sent), Unfinished(s.socks[k].stream);
    hide Inv, PartOfOne, FramesOf, ReadFrame, Payloads, Unfinished, Wire, Expected, WorkingTail, CompleteBy;
    CutOfFramesAndPart(s.tasks, data, tail, n);
    SentMessages(env, keys, s, ps, sent);
    FoundIsDelivered(env, keys, MessagesAt(ps, sent), s.socks[k].stream[..n], CompleteBy(data, n));
  }

  lemma FoundIsDelivered(env: Env, keys: KeyPair, ms: seq<Payload>, received: bytes, m: nat)
    requires Premises(env, keys) && AllSendable(env, keys, ms) && m <= |ms|
    requires Payloads(received) == Wires(env, keys, ms)[..m]
    ensures Delivered(env, received) == Expected(env, keys, ms[..m])
    ensures !EndingOf(env, received).Failed?
  {
    hide Handle, Wire, FilterMap, LiveCount, Expected, Payloads, Premises, Sendable, GetsThrough;
    assert Wires(env, keys, ms)[..m] == Wires(env, keys, ms[..m]);
    WiresDeliverExpected(env, keys, ms[..m]);
    assert Wires(env, keys, ms[..m])[..m] == Wires(env, keys, ms[..m]);
  }

  // ---- Counting deliveries -------------------------------------------------

  /** How often x is delivered when every stream has been received whole. */
  function DeliveriesOf(env: Env, x: Listener.Delivery, socks: seq<Sock>): nat {
    if socks == [] then 0
    else DeliveriesOf(env, x, socks[..|socks| - 1]) + multiset(Delivered(env, socks[|socks| - 1].stream))[x]
  }

  predicate IsAs(env: Env, keys: KeyPair, ps: seq<Payload>, x: Listener.Delivery, t: nat) {
    t < |ps| && GetsThrough(ps[t]) && AsDelivered(env, keys, ps[t]) == x
  }

  lemma {:induction false} ExpectedAppend(env: Env, keys: KeyPair, p: seq<Payload>, q: seq<Payload>)
    ensures Expected(env, keys, p + q) == Expected(env, keys, p) + Expected(env, keys, q)
  {
    hide GetsThrough, AsDelivered;
    if p == [] {
      assert p + q == q;
    } else {
      assert (p + q)[1..] == p[1..] + q;
      ExpectedAppend(env, keys, p[1..], q);
    }
  }

  lemma {:induction false} ExpectedCount(
    env: Env, keys: KeyPair, ps: seq<Payload>, sent: seq<nat>, x: Listener.Delivery, w: nat -> bool)
    requires forall i :: 0 <= i < |sent| ==> sent[i] < |ps|
    requires forall t: nat :: w(t) == IsAs(env, keys, ps, x, t)
    ensures multiset(Expected(env, keys, MessagesAt(ps, sent)))[x] == CountIn(w, sent)
  {
    hide GetsThrough, AsDelivered;
    if sent != [] {
      var last := |sent| - 1;
      ExpectedCount(env, keys, ps, sent[..last], x, w);
      var m := ps[sent[last]];
      assert MessagesAt(ps, sent) == MessagesAt(ps, sent[..last]) + [m];
      ExpectedAppend(env, keys, MessagesAt(ps, sent[..last]), [m]);
      assert Expected(env, keys, [m]) == (if GetsThrough(m) then [AsDelivered(env, keys, m)] else []);
      assert w(sent[last]) == IsAs(env, keys, ps, x, sent[last]);
      hide Expected, MessagesAt;
    }
  }

  lemma {:induction false} DeliveriesAreCounted(
    env: Env, keys: KeyPair, ps: seq<Payload>, socks: seq<Sock>, x: Listener.Delivery, w: nat -> bool)
    requires forall t: nat :: w(t) == IsAs(env, keys, ps, x, t)
    requires forall k :: 0 <= k < |socks| ==>
               && (forall i :: 0 <= i < |socks[k].sent| ==> socks[k].sent[i] < |ps|)
               && Delivered(env, socks[k].stream) == Expected(env, keys, MessagesAt(ps, socks[k].sent))
    ensures DeliveriesOf(env, x, socks) == CountOnStreams(w, socks)
  {
    hide Delivered, Expected, IsAs;
    if socks != [] {
      var last := |socks| - 1;
      DeliveriesAreCounted(env, keys, ps, socks[..last], x, w);
      ExpectedCount(env, keys, ps, socks[last].sent, x, w);
    }
  }

  /** Exactly once, from one end to the other: over all the streams of a run, something is delivered exactly
      as often as there are sends of it that returned Ok and get through, whatever was retried, evicted
      or interleaved on the way. */
  lemma DeliveredExactlyOnce(
    env: Env, keys: KeyPair, s: State, cache: Cache, events: seq<Event>, ps: seq<Payload>, x: Listener.Delivery)
    requires Premises(env, keys) && ReachedBy(s, cache, events) && Carries(env, keys, s, ps)
    ensures DeliveriesOf(env, x, s.socks) == CountSucceeded((t: nat) => IsAs(env, keys, ps, x, t), s.tasks)
  {
    hide IsAs, Delivered, EndingOf, Expected, Wire, Premises, CompleteBy, DataSent;
    var w := (t: nat) => IsAs(env, keys, ps, x, t);
    forall k | 0 <= k < |s.socks|
      ensures forall i :: 0 <= i < |s.socks[k].sent| ==> s.socks[k].sent[i] < |ps|
      ensures Delivered(env, s.socks[k].stream) == Expected(env, keys, MessagesAt(ps, s.socks[k].sent))
    {
      WholeStreamDelivers(env, keys, s, cache, events, ps, k);
    }
    DeliveriesAreCounted(env, keys, ps, s.socks, x, w);
    ReachedInv(s, cache, events);
    hide InRange, CacheInv, RefsInv, LockInv, SocketInv, StreamsInv, SentInv, ReachedBy;
    FramesAreSuccesses(s, w);
  }

  lemma WholeStreamDelivers(
    env: Env, keys: KeyPair, s: State, cache: Cache, events: seq<Event>, ps: seq<Payload>, k: nat)
    requires Premises(env, keys) && ReachedBy(s, cache, events) && Carries(env, keys, s, ps) && k < |s.socks|
    ensures forall i :: 0 <= i < |s.socks[k].sent| ==> s.socks[k].sent[i] < |ps|
    ensures Delivered(env, s.socks[k].stream) == Expected(env, keys, MessagesAt(ps, s.socks[k].sent))
  {
    CarriesShort(env, keys, s, ps);
    ReachedInv(s, cache, events);
    hide ReachedBy, Premises;
    StreamOfInv(s, k);
    hide Inv, InvWith, PartOfOne, FramesOf, ReadFrame, Payloads, Unfinished, Wire, Expected, WorkingTail;
    var sent := s.socks[k].sent;
    SentMessages(env, keys, s, ps, sent);
    var ms := MessagesAt(ps, sent);
    assert Wires(env, keys, ms)[..|ms|] == Wires(env, keys, ms) && ms[..|ms|] == ms;
    FoundIsDelivered(env, keys, ms, s.socks[k].stream, |ms|);
  }
}
