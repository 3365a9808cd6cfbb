/** What the sending side guarantees in every reachable state, read off the streams themselves. */
module SenderTheorems {
  import opened Bytes
  import opened Framing
  import opened ConnectionCache
  import opened SenderProtocol
  import opened SenderInvariant
  import opened SenderSteps

  /** s is reached from an empty start by some interleaving of events. */
  ghost predicate ReachedBy(s: State, cache: Cache, events: seq<Event>) {
    EmptyCache(cache) && CanRun(Init(cache), events) && s == Run(Init(cache), events)
  }

  lemma ReachedInv(s: State, cache: Cache, events: seq<Event>)
    requires ReachedBy(s, cache, events)
    ensures Inv(s)
  {
    hide Inv, CanRun, Run;
    InitInv(cache);
    SenderSteps.RunKeepsInv(Init(cache), events);
  }

  // ---- Exactly once --------------------------------------------------------

  /** A send that returned Ok has its whole frame on the streams exactly once; any other send, whether it
      failed or is still under way, has it there not at all. */
  lemma OkExactlyOnceErrNever(s: State, cache: Cache, events: seq<Event>, t: nat)
    requires ReachedBy(s, cache, events) && t < |s.tasks|
    ensures Copies(s.socks, t) == if s.tasks[t].phase.Succeeded() then 1 else 0
  {
    ReachedInv(s, cache, events);
    hide InRange, CacheInv, RefsInv, LockInv, SocketInv, StreamsInv, ReachedBy;
  }

  /** What one copy means: exactly one stream has the task among those it accepted, exactly once. */
  lemma {:induction false} OneCopyOneStream(socks: seq<Sock>, t: nat)
    requires Copies(socks, t) == 1
    ensures exists k :: 0 <= k < |socks| && multiset(socks[k].sent)[t] == 1
                        && forall j :: 0 <= j < |socks| && j != k ==> t !in socks[j].sent
  {
    var last := |socks| - 1;
    if multiset(socks[last].sent)[t] == 1 {
      NoCopyNoStream(socks[..last], t);
      assert forall j :: 0 <= j < last ==> socks[j] == socks[..last][j];
    } else {
      OneCopyOneStream(socks[..last], t);
      var k :| 0 <= k < last && multiset(socks[..last][k].sent)[t] == 1
               && forall j :: 0 <= j < last && j != k ==> t !in socks[..last][j].sent;
      assert multiset(socks[k].sent)[t] == 1;
      assert forall j :: 0 <= j < last ==> socks[j] == socks[..last][j];
      assert t !in multiset(socks[last].sent);
    }
  }

  lemma {:induction false} NoCopyNoStream(socks: seq<Sock>, t: nat)
    requires Copies(socks, t) == 0
    ensures forall j :: 0 <= j < |socks| ==> t !in socks[j].sent
  {
    if socks != [] {
      var last := |socks| - 1;
      NoCopyNoStream(socks[..last], t);
      assert t !in multiset(socks[last].sent);
      assert forall j :: 0 <= j < last ==> socks[j] == socks[..last][j];
    }
  }

  // ---- The bytes of a stream ----------------------------------------------

  ghost predicate ShortJobs(s: State) {
    forall t :: 0 <= t < |s.tasks| ==> |s.tasks[t].job.data| < U32_LIMIT
  }

  lemma PartHoldsNoFrame(tasks: seq<Task>, tail: bytes)
    requires PartOfOne(tasks, tail)
    requires forall t :: 0 <= t < |tasks| ==> |tasks[t].job.data| < U32_LIMIT
    ensures !ReadFrame(tail).Got?
  {
    hide ReadFrame, Frame;
    if tail == [] {
      NothingHoldsNoFrame();
    } else {
      var t :| 0 <= t < |tasks| && StrictPrefix(tail, FrameOf(tasks[t]));
      assert tail == FrameOf(tasks[t])[..|tail|];
      FramePrefixIncomplete(tasks[t].job.data, |tail|);
    }
  }

  lemma NothingHoldsNoFrame()
    ensures ReadFrame([]) == NoLength
  {
  }

  /** The raw bytes of any stream split into exactly the payloads of the sends that succeeded on it, in
      order, and then at most one unfinished frame; on a stream that has not failed, the unfinished part
      is what the holder of the mutex has written so far. */
  lemma StreamIsWholeFramesThenOnePart(s: State, cache: Cache, events: seq<Event>, k: nat)
    requires ReachedBy(s, cache, events) && k < |s.socks| && ShortJobs(s)
    ensures ValidSent(s.tasks, s.socks[k].sent)
    ensures Payloads(s.socks[k].stream) == DataSent(s.tasks, s.socks[k].sent)
    ensures PartOfOne(s.tasks, Unfinished(s.socks[k].stream))
    ensures !s.socks[k].broken ==> Unfinished(s.socks[k].stream) == WorkingTail(s, k)
  {
    ReachedInv(s, cache, events);
    hide ReachedBy;
    StreamOfInv(s, k);
  }

  lemma StreamOfInv(s: State, k: nat)
    requires StreamsInv(s) && ShortJobs(s) && k < |s.socks|
    ensures ValidSent(s.tasks, s.socks[k].sent)
    ensures Payloads(s.socks[k].stream) == DataSent(s.tasks, s.socks[k].sent)
    ensures PartOfOne(s.tasks, Unfinished(s.socks[k].stream))
    ensures !s.socks[k].broken ==> Unfinished(s.socks[k].stream) == WorkingTail(s, k)
    ensures AllShort(DataSent(s.tasks, s.socks[k].sent))
  {
    assert StreamInv(s, k);
    hide StreamsInv, PartOfOne, WorkingTail, FramesOf, Payloads, Unfinished, ReadFrame;
    var tail := TailOf(s.tasks, s.socks[k]);
    PartHoldsNoFrame(s.tasks, tail);
    SplitRoundTrip(DataSent(s.tasks, s.socks[k].sent), tail);
  }

  /** At most one task at a time is writing to a stream, and it is the holder of its connection's mutex. */
  lemma OneWriterPerStream(s: State, cache: Cache, events: seq<Event>, t1: nat, t2: nat)
    requires ReachedBy(s, cache, events)
    requires t1 < |s.tasks| && t2 < |s.tasks| && s.tasks[t1].phase.Writing? && s.tasks[t2].phase.Writing?
    ensures HasSocket(s, t1) && HasSocket(s, t2)
    ensures ConnOf(s, t1).holder == Some(t1) && SockOf(s, t1).fate.Open?
    ensures ConnOf(s, t1).socket == ConnOf(s, t2).socket ==> t1 == t2
  {
    ReachedInv(s, cache, events);
    hide ReachedBy, StreamsInv, SentInv, RefsInv, CacheInv, Valid, Holds;
  }

  ghost predicate OnlyAppends(s: State, s': State) {
    && |s.socks| <= |s'.socks|
    && forall k :: 0 <= k < |s.socks| ==>
         && s.socks[k].stream <= s'.socks[k].stream
         && s.socks[k].sent <= s'.socks[k].sent
         && (s.socks[k].broken ==> s'.socks[k].broken && s'.socks[k].stream == s.socks[k].stream)
  }

  lemma ReleaseOnlyAppends(s: State, c: nat)
    requires CanRelease(s, c)
    ensures OnlyAppends(s, Release(s, c))
  {
  }

  /** A step only ever appends to a stream, and never to one that has failed, so what a receiver has read
      stays read. */
  lemma StepOnlyAppends(s: State, e: Event)
    requires InRange(s) && Enabled(s, e)
    ensures OnlyAppends(s, Next(s, e))
  {
    hide FrameOf, GetOrInsert, Remove, Holds, Valid;
    match e
    case Dispatch =>
      SpawnedCanRelease(s);
      var evicted := GetOrInsert(s.cache, s.queue[0].address, |s.conns|).evicted;
      if evicted.Some? {
        ReleaseOnlyAppends(Spawned(s), evicted.value.conn);
      }
    case Evict =>
      var removed := Remove(s.cache, s.evictions[0]).removed;
      if removed.Some? {
        RemoveEffect(s.cache, s.evictions[0]);
        ConnectionCanRelease(s, removed.value);
        ReleaseOnlyAppends(Uncached(s), removed.value);
      }
    case Write(t, n) => WriteStaysInFrame(s.tasks[t], s.tasks[t].phase.pos);
    case Finish(t) =>
      ConnectionCanRelease(s, s.tasks[t].conn);
      ReleaseOnlyAppends(SetPhase(s, t, Finished(s.tasks[t].phase.result)), s.tasks[t].conn);
    case _ =>
  }

  lemma {:induction false} RunOnlyAppends(s: State, events: seq<Event>)
    requires CanRun(s, events)
    ensures OnlyAppends(s, Run(s, events))
    decreases |events|
  {
    hide Enabled, Next, InRange;
    if events != [] {
      StepOnlyAppends(s, events[0]);
      RunOnlyAppends(Next(s, events[0]), events[1..]);
    }
  }

  // ---- Shutting down -------------------------------------------------------

  /** Nobody can reach connection c: it is not in the cache and no unfinished task has it. */
  ghost predicate Unreferenced(s: State, c: nat)
    requires c < |s.conns|
  {
    !Cached(s, c) && forall t :: 0 <= t < |s.tasks| && s.tasks[t].conn == c ==> s.tasks[t].phase.Finished?
  }

  /** A stream is shut down only when nobody references its connection, and a connection that nobody
      references has no open stream left. */
  lemma ShutDownIffUnreferenced(s: State, cache: Cache, events: seq<Event>, k: nat)
    requires ReachedBy(s, cache, events) && k < |s.socks|
    ensures s.socks[k].conn < |s.conns|
    ensures s.socks[k].fate.ShutDown? ==> Unreferenced(s, s.socks[k].conn)
    ensures s.socks[k].fate.Open? ==> !Unreferenced(s, s.socks[k].conn)
  {
    ReachedInv(s, cache, events);
    hide ReachedBy, StreamsInv, SentInv, LockInv, InRange, CacheInv, Cached;
    assert FateInv(s) && DroppedInv(s);
    var c := s.socks[k].conn;
    hide SocketInv, FateInv, DroppedInv;
    if s.conns[c].refs == 0 {
      forall t | 0 <= t < |s.tasks| && s.tasks[t].conn == c
        ensures s.tasks[t].phase.Finished?
      {
        if !s.tasks[t].phase.Finished? {
          UserCounts(s.tasks, t, c);
        }
      }
    } else if Unreferenced(s, c) {
      UnreferencedNoUsers(s.tasks, c);
    }
  }

  lemma {:induction false} UnreferencedNoUsers(tasks: seq<Task>, c: nat)
    requires forall t :: 0 <= t < |tasks| && tasks[t].conn == c ==> tasks[t].phase.Finished?
    ensures Users(tasks, c) == 0
  {
    if tasks != [] {
      UnreferencedNoUsers(tasks[..|tasks| - 1], c);
    }
  }

  // ---- Nothing waits for ever on the program -------------------------------

  ghost predicate WorkLeft(s: State) {
    s.queue != [] || s.evictions != [] || exists t :: 0 <= t < |s.tasks| && !s.tasks[t].phase.Finished?
  }

  predicate IsProgress(e: Event) {
    !e.Enqueue? && !e.RequestEviction? && !e.Break?
  }

  /** The step is a success, unless it is a write to a stream that has failed. */
  predicate IsHealthy(s: State, e: Event) {
    && (e.Connect? ==> e.ok)
    && (e.WriteFail? ==> HasSocket(s, e.t) && SockOf(s, e.t).broken)
  }

  /** A stream that has not failed can take the next byte of the frame. */
  lemma HealthyStreamTakesByte(s: State, t: nat)
    requires InRange(s) && PhaseInv(s) && t < |s.tasks| && s.tasks[t].phase.Writing?
    requires s.tasks[t].phase.pos < |FrameOf(s.tasks[t])|
    ensures HasSocket(s, t)
    ensures !SockOf(s, t).broken ==> Enabled(s, Write(t, 1))
  {
    hide Holds, Valid, FrameOf;
  }

  lemma HolderCanStep(s: State, t: nat) returns (e: Event)
    requires InRange(s) && SocketInv(s) && StreamsInv(s) && t < |s.tasks| && s.tasks[t].phase.Holding()
    ensures IsProgress(e) && Enabled(s, e) && IsHealthy(s, e)
  {
    hide Holds, Valid, OwnSocketInv, FateInv, DroppedInv, StreamInv, FrameOf;
    if s.tasks[t].phase.Connecting? {
      e := Connect(t, true);
    } else {
      HealthyStreamTakesByte(s, t);
      e := if SockOf(s, t).broken then WriteFail(t) else Write(t, 1);
    }
  }

  lemma UnfinishedCanStep(s: State, t: nat) returns (e: Event)
    requires InRange(s) && LockInv(s) && SocketInv(s) && StreamsInv(s)
    requires t < |s.tasks| && !s.tasks[t].phase.Finished?
    ensures IsProgress(e) && Enabled(s, e) && IsHealthy(s, e)
  {
    hide Holds, Valid, SocketInv, StreamsInv;
    if s.tasks[t].phase.Waiting? {
      var holder := ConnOf(s, t).holder;
      if holder.Some? {
        e := HolderCanStep(s, holder.value);
      } else {
        e := Lock(t);
      }
    } else if s.tasks[t].phase.Returned? {
      e := Finish(t);
    } else {
      e := HolderCanStep(s, t);
    }
  }

  /** While any work is left some task, the dispatcher or the evictor can take a step, and one that is no
      failure unless its stream has failed already: the mutexes never deadlock, and nothing waits for the
      network to go wrong. */
  lemma WorkCanGoOn(s: State) returns (e: Event)
    requires Inv(s) && WorkLeft(s)
    ensures IsProgress(e) && Enabled(s, e) && IsHealthy(s, e)
  {
    hide InRange, LockInv, SocketInv, StreamsInv, SentInv, RefsInv, CacheInv;
    if s.queue != [] {
      e := Dispatch;
    } else if s.evictions != [] {
      e := Evict;
    } else {
      var t :| 0 <= t < |s.tasks| && !s.tasks[t].phase.Finished?;
      e := UnfinishedCanStep(s, t);
    }
  }

  // ---- Counting over all streams ------------------------------------------

  /** How many entries of a list satisfy w. */
  function CountIn(w: nat -> bool, sent: seq<nat>): nat {
    if sent == [] then 0 else CountIn(w, sent[..|sent| - 1]) + OneIf(w(sent[|sent| - 1]))
  }

  /** How many completed frames, over all streams, belong to a task that satisfies w. */
  function CountOnStreams(w: nat -> bool, socks: seq<Sock>): nat {
    if socks == [] then 0 else CountOnStreams(w, socks[..|socks| - 1]) + CountIn(w, socks[|socks| - 1].sent)
  }

  /** How many of the tasks succeeded and satisfy w. */
  function CountSucceeded(w: nat -> bool, tasks: seq<Task>): nat {
    if tasks == [] then 0
    else CountSucceeded(w, tasks[..|tasks| - 1]) + OneIf(tasks[|tasks| - 1].phase.Succeeded() && w(|tasks| - 1))
  }

  function Weighted(w: nat -> bool, sent: seq<nat>, n: nat): nat {
    if n == 0 then 0 else Weighted(w, sent, n - 1) + if w(n - 1) then multiset(sent)[n - 1] else 0
  }

  function WeightedCopies(w: nat -> bool, socks: seq<Sock>, n: nat): nat {
    if n == 0 then 0 else WeightedCopies(w, socks, n - 1) + if w(n - 1) then Copies(socks, n - 1) else 0
  }

  lemma {:induction false} WeightedSnoc(w: nat -> bool, sent: seq<nat>, x: nat, n: nat)
    ensures Weighted(w, sent + [x], n) == Weighted(w, sent, n) + OneIf(x < n && w(x))
  {
    if n > 0 {
      WeightedSnoc(w, sent, x, n - 1);
      assert multiset(sent + [x])[n - 1] == multiset(sent)[n - 1] + OneIf(x == n - 1);
    }
  }

  lemma {:induction false} WeightedIsCount(w: nat -> bool, sent: seq<nat>, n: nat)
    requires forall i :: 0 <= i < |sent| ==> sent[i] < n
    ensures Weighted(w, sent, n) == CountIn(w, sent)
  {
    if sent == [] {
      WeightedNothing(w, n);
    } else {
      var last := |sent| - 1;
      WeightedIsCount(w, sent[..last], n);
      WeightedSnoc(w, sent[..last], sent[last], n);
      assert sent == sent[..last] + [sent[last]];
    }
  }

  lemma {:induction false} WeightedNothing(w: nat -> bool, n: nat)
    ensures Weighted(w, [], n) == 0
  {
    if n > 0 {
      WeightedNothing(w, n - 1);
    }
  }

  lemma {:induction false} WeightedCopiesSplit(w: nat -> bool, socks: seq<Sock>, n: nat)
    requires socks != []
    ensures WeightedCopies(w, socks, n)
         == WeightedCopies(w, socks[..|socks| - 1], n) + Weighted(w, socks[|socks| - 1].sent, n)
  {
    if n > 0 {
      WeightedCopiesSplit(w, socks, n - 1);
    }
  }

  lemma {:induction false} NoSocksNoCopies(w: nat -> bool, n: nat)
    ensures WeightedCopies(w, [], n) == 0
  {
    if n > 0 {
      NoSocksNoCopies(w, n - 1);
    }
  }

  lemma {:induction false} CopiesAreCount(w: nat -> bool, socks: seq<Sock>, n: nat)
    requires forall k, i :: 0 <= k < |socks| && 0 <= i < |socks[k].sent| ==> socks[k].sent[i] < n
    ensures WeightedCopies(w, socks, n) == CountOnStreams(w, socks)
  {
    if socks == [] {
      NoSocksNoCopies(w, n);
    } else {
      CopiesAreCount(w, socks[..|socks| - 1], n);
      WeightedCopiesSplit(w, socks, n);
      WeightedIsCount(w, socks[|socks| - 1].sent, n);
    }
  }

  lemma {:induction false} CopiesAreSuccesses(w: nat -> bool, socks: seq<Sock>, tasks: seq<Task>, n: nat)
    requires n <= |tasks|
    requires forall t: nat :: Copies(socks, t) == OneIf(t < |tasks| && tasks[t].phase.Succeeded())
    ensures WeightedCopies(w, socks, n) == CountSucceeded(w, tasks[..n])
  {
    if n > 0 {
      CopiesAreSuccesses(w, socks, tasks, n - 1);
      assert tasks[..n][..n - 1] == tasks[..n - 1];
    }
  }

  /** Conservation, for any property of sends: the completed frames with it, over all streams, are as many
      as the successful sends with it. */
  lemma FramesAreSuccesses(s: State, w: nat -> bool)
    requires StreamsInv(s) && SentInv(s)
    ensures CountOnStreams(w, s.socks) == CountSucceeded(w, s.tasks)
  {
    forall k, i | 0 <= k < |s.socks| && 0 <= i < |s.socks[k].sent|
      ensures s.socks[k].sent[i] < |s.tasks|
    {
      assert StreamInv(s, k);
    }
    hide StreamsInv;
    CopiesAreCount(w, s.socks, |s.tasks|);
    CopiesAreSuccesses(w, s.socks, s.tasks, |s.tasks|);
    assert s.tasks[..|s.tasks|] == s.tasks;
  }

  /** How often a payload is found when the raw bytes of every stream are split into frames. */
  function PayloadsOnStreams(d: bytes, socks: seq<Sock>): nat {
    if socks == [] then 0
    else PayloadsOnStreams(d, socks[..|socks| - 1]) + multiset(Payloads(socks[|socks| - 1].stream))[d]
  }

  lemma {:induction false} DataCount(d: bytes, tasks: seq<Task>, sent: seq<nat>, w: nat -> bool)
    requires ValidSent(tasks, sent)
    requires forall t: nat :: t < |tasks| ==> w(t) == (tasks[t].job.data == d)
    ensures multiset(DataSent(tasks, sent))[d] == CountIn(w, sent)
  {
    if sent != [] {
      var last := |sent| - 1;
      DataCount(d, tasks, sent[..last], w);
      assert DataSent(tasks, sent) == DataSent(tasks, sent[..last]) + [tasks[sent[last]].job.data];
    }
  }

  lemma {:induction false} PayloadsAreCounted(s: State, socks: seq<Sock>, d: bytes, w: nat -> bool)
    requires forall t: nat :: t < |s.tasks| ==> w(t) == (s.tasks[t].job.data == d)
    requires forall k :: 0 <= k < |socks| ==>
               ValidSent(s.tasks, socks[k].sent) && Payloads(socks[k].stream) == DataSent(s.tasks, socks[k].sent)
    ensures PayloadsOnStreams(d, socks) == CountOnStreams(w, socks)
  {
    hide Payloads;
    if socks != [] {
      var last := |socks| - 1;
      PayloadsAreCounted(s, socks[..last], d, w);
      DataCount(d, s.tasks, socks[last].sent, w);
    }
  }

  /** Conservation of payloads: over the raw bytes of all streams together, a payload is found exactly as
      often as there are sends of it that returned Ok. */
  lemma PayloadsConserved(s: State, cache: Cache, events: seq<Event>, d: bytes)
    requires ReachedBy(s, cache, events) && ShortJobs(s)
    ensures PayloadsOnStreams(d, s.socks)
         == CountSucceeded((t: nat) => t < |s.tasks| && s.tasks[t].job.data == d, s.tasks)
  {
    ReachedInv(s, cache, events);
    hide ReachedBy, InRange, CacheInv, RefsInv, LockInv, SocketInv;
    var w := (t: nat) => t < |s.tasks| && s.tasks[t].job.data == d;
    forall k | 0 <= k < |s.socks|
      ensures ValidSent(s.tasks, s.socks[k].sent)
      ensures Payloads(s.socks[k].stream) == DataSent(s.tasks, s.socks[k].sent)
    {
      StreamOfInv(s, k);
    }
    hide Payloads, StreamsInv, SentInv;
    PayloadsAreCounted(s, s.socks, d, w);
    FramesAreSuccesses(s, w);
  }
}
