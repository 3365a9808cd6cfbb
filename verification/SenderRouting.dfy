/** Where sends go and how they are tried: which connection serves which send, and the course that every send
    takes, over every run of the sending side. */
module SenderRouting {
  import opened Bytes
  import opened Framing
  import opened Outbound
  import opened ConnectionCache
  import opened SenderProtocol
  import opened SenderInvariant
  import opened SenderSteps
  import opened SenderTheorems
  import opened SenderProgress
  import ConnectionSend

  // ---- Evicting and dispatching -------------------------------------------

  /** An eviction takes the entry for its address out of the cache, and no other. */
  lemma EvictionRemoves(s: State, cache: Cache, events: seq<Event>)
    requires ReachedBy(s, cache, events) && s.evictions != []
    ensures InRange(s)
    ensures var s' := Next(s, Evict);
            && s'.evictions == s.evictions[1..] && s'.queue == s.queue && |s'.conns| == |s.conns|
            && forall a: nat, c: nat :: Holds(s'.cache, a, c) <==> Holds(s.cache, a, c) && a != s.evictions[0]
  {
    hide ReachedBy, Inv, InRange, StreamsInv, Holds, EvictNext;
    ReachedInv(s, cache, events);
    InvHasParts(s);
    EvictionEffect(s);
  }

  lemma EvictionEffect(s: State)
    requires InRange(s) && s.evictions != []
    ensures var s' := EvictNext(s);
            && s'.evictions == s.evictions[1..] && s'.queue == s.queue && |s'.conns| == |s.conns|
            && forall a: nat, c: nat :: Holds(s'.cache, a, c) <==> Holds(s.cache, a, c) && a != s.evictions[0]
  {
    RemoveEffect(s.cache, s.evictions[0]);
    hide Holds, Remove, Valid;
  }

  /** A dispatched send gets the connection that the cache holds for its address, or else a new one, which has
      that address and no socket; and all tasks before it stay as they are. */
  lemma DispatchUsesCache(s: State, cache: Cache, events: seq<Event>)
    requires ReachedBy(s, cache, events) && s.queue != []
    ensures InRange(s)
    ensures var s', job := Next(s, Dispatch), s.queue[0];
            && |s'.tasks| == |s.tasks| + 1 && s'.tasks[..|s.tasks|] == s.tasks && s'.queue == s.queue[1..]
            && var task := s'.tasks[|s.tasks|];
               && task.job == job && task.phase == Waiting && task.conn < |s'.conns|
               && (Has(s.cache, job.address) ==> Holds(s.cache, job.address, task.conn) && |s'.conns| == |s.conns|)
               && (!Has(s.cache, job.address) ==>
                     && task.conn == |s.conns| && |s'.conns| == |s.conns| + 1
                     && s'.conns[task.conn].address == job.address && s'.conns[task.conn].socket.None?)
               && Holds(s'.cache, job.address, task.conn)
  {
    hide ReachedBy, Inv, InRange, StreamsInv, Holds, Has, DispatchNext;
    ReachedInv(s, cache, events);
    InvHasParts(s);
    DispatchEffect(s);
  }

  lemma DispatchEffect(s: State)
    requires InRange(s) && s.queue != []
    ensures var s', job := DispatchNext(s), s.queue[0];
            && |s'.tasks| == |s.tasks| + 1 && s'.tasks[..|s.tasks|] == s.tasks && s'.queue == s.queue[1..]
            && var task := s'.tasks[|s.tasks|];
               && task.job == job && task.phase == Waiting && task.conn < |s'.conns|
               && (Has(s.cache, job.address) ==> Holds(s.cache, job.address, task.conn) && |s'.conns| == |s.conns|)
               && (!Has(s.cache, job.address) ==>
                     && task.conn == |s.conns| && |s'.conns| == |s.conns| + 1
                     && s'.conns[task.conn].address == job.address && s'.conns[task.conn].socket.None?)
               && Holds(s'.cache, job.address, task.conn)
  {
    GetOrInsertEffect(s.cache, s.queue[0].address, |s.conns|);
    HasIsHolds(s.cache, s.queue[0].address);
    hide GetOrInsert, Has, Valid, Holds;
  }

  /** So a send to an address just evicted, if it is dispatched next, does not get the connection from
      before. */
  lemma EvictedIsReplaced(s: State, cache: Cache, events: seq<Event>)
    requires ReachedBy(s, cache, events) && s.evictions != []
    requires s.queue != [] && s.queue[0].address == s.evictions[0]
    ensures InRange(s) && InRange(Next(s, Evict))
    ensures var s' := Next(Next(s, Evict), Dispatch);
            |s'.tasks| > 0 && s'.tasks[|s'.tasks| - 1].conn == |s.conns| && |s'.conns| == |s.conns| + 1
  {
    EvictionRemoves(s, cache, events);
    ReachedInv(s, cache, events);
    var s1 := Next(s, Evict);
    HasIsHolds(s1.cache, s.evictions[0]);
    StepKeepsInv(s, Evict);
    InvHasParts(s1);
    ConnectionSend.RunSnoc(Init(cache), events, Evict);
    hide Inv, Holds, Has, Next, CanRun, Run;
    DispatchUsesCache(s1, cache, events + [Evict]);
  }

  // ---- Every send is taken up ---------------------------------------------

  /** The jobs that were queued, in order: those that have a task, and those still waiting for one. */
  function Jobs(s: State): seq<Job> {
    seq(|s.tasks|, t requires 0 <= t < |s.tasks| => s.tasks[t].job) + s.queue
  }

  predicate Ended(s: State, i: nat) {
    i < |s.tasks| && s.tasks[i].phase.Finished?
  }

  lemma ReleaseKeepsJobs(s: State, c: nat)
    requires c < |s.conns| && (s.conns[c].socket.Some? ==> s.conns[c].socket.value < |s.socks|)
    ensures Release(s, c).tasks == s.tasks && Release(s, c).queue == s.queue
  {
  }

  lemma DispatchKeepsJobs(s: State)
    requires InRange(s) && s.queue != []
    ensures Jobs(DispatchNext(s)) == Jobs(s)
    ensures forall i: nat :: Ended(DispatchNext(s), i) <==> Ended(s, i)
  {
    GetOrInsertEffect(s.cache, s.queue[0].address, |s.conns|);
    hide Valid, Holds, GetOrInsert;
    var spawned := Spawned(s);
    assert Jobs(spawned) == Jobs(s);
    match GetOrInsert(s.cache, s.queue[0].address, |s.conns|).evicted
    case None =>
    case Some(entry) => ReleaseKeepsJobs(spawned, entry.conn);
  }

  lemma EvictKeepsJobs(s: State)
    requires InRange(s) && s.evictions != []
    ensures Jobs(EvictNext(s)) == Jobs(s)
    ensures forall i: nat :: Ended(EvictNext(s), i) <==> Ended(s, i)
  {
    RemoveEffect(s.cache, s.evictions[0]);
    hide Valid, Holds, Remove;
  }

  lemma MoverKeepsJobs(s: State, e: Event)
    requires InRange(s) && Enabled(s, e) && Mover(e).Some?
    requires e.Write? ==> s.tasks[e.t].phase.pos + e.n <= |FrameOf(s.tasks[e.t])|
    ensures Jobs(Next(s, e)) == Jobs(s)
    ensures forall i: nat :: Ended(Next(s, e), i) <==> Ended(s, i) || e == Finish(i)
  {
    hide Valid, Holds, FrameOf;
    var s' := Next(s, e);
    assert |s'.tasks| == |s.tasks| && s'.queue == s.queue;
    assert forall t :: 0 <= t < |s.tasks| ==> s'.tasks[t].job == s.tasks[t].job;
  }

  /** A step neither loses nor reorders a job, adds one only when one is enqueued, and ends one exactly when it
      reports it. */
  lemma SendingKeepsJobs(s: State, e: Event)
    requires InRange(s) && Enabled(s, e)
    ensures Jobs(Next(s, e)) == Jobs(s) + if e.Enqueue? then [e.job] else []
    ensures forall i: nat :: Ended(Next(s, e), i) <==> Ended(s, i) || e == Finish(i)
  {
    if Mover(e).Some? {
      if e.Write? {
        WriteStaysInFrame(s.tasks[e.t], s.tasks[e.t].phase.pos);
      }
      MoverKeepsJobs(s, e);
    } else {
      hide InRange, DispatchNext, EvictNext;
      match e
      case Dispatch => DispatchKeepsJobs(s);
      case Evict => EvictKeepsJobs(s);
      case _ =>
    }
  }

  /** What was enqueued in a run, in order. */
  function Enqueued(events: seq<Event>): seq<Job> {
    if events == [] then []
    else (if events[0].Enqueue? then [events[0].job] else []) + Enqueued(events[1..])
  }

  lemma {:induction false} RunKeepsJobs(s: State, events: seq<Event>)
    requires Inv(s) && CanRun(s, events)
    ensures Jobs(Run(s, events)) == Jobs(s) + Enqueued(events)
    decreases |events|
  {
    hide Inv, Jobs, Enabled, Next, InRange, StreamsInv;
    if events != [] {
      InvHasParts(s);
      SendingKeepsJobs(s, events[0]);
      StepKeepsInv(s, events[0]);
      RunKeepsJobs(Next(s, events[0]), events[1..]);
    }
  }

  /** In every reachable state the sends enqueued so far are those that have a task and then those still
      queued, each once and in order. */
  lemma EverySendIsTakenUp(s: State, cache: Cache, events: seq<Event>)
    requires ReachedBy(s, cache, events)
    ensures Jobs(s) == Enqueued(events)
  {
    hide Inv, CanRun, Run;
    InitInv(cache);
    RunKeepsJobs(Init(cache), events);
  }

  /** The addresses whose eviction was asked for in a run, in order, and how many evictions were carried out. */
  function AskedOut(events: seq<Event>): seq<nat> {
    if events == [] then []
    else (if events[0].RequestEviction? then [events[0].address] else []) + AskedOut(events[1..])
  }

  function EvictCount(events: seq<Event>): nat {
    if events == [] then 0 else (if events[0].Evict? then 1 else 0) + EvictCount(events[1..])
  }

  lemma EvictionsStep(s: State, e: Event)
    requires InRange(s) && Enabled(s, e)
    ensures Next(s, e).evictions
         == (if e.Evict? then s.evictions[1..] else s.evictions) + (if e.RequestEviction? then [e.address] else [])
  {
    if e.Evict? {
      EvictionEffect(s);
    } else {
      hide Valid, Holds, GetOrInsert;
    }
  }

  lemma {:induction false} RunKeepsEvictions(s: State, events: seq<Event>)
    requires CanRun(s, events)
    ensures EvictCount(events) <= |s.evictions| + |AskedOut(events)|
    ensures Run(s, events).evictions == (s.evictions + AskedOut(events))[EvictCount(events)..]
    decreases |events|
  {
    hide InRange, Next;
    if events != [] {
      var e := events[0];
      EvictionsStep(s, e);
      RunKeepsEvictions(Next(s, e), events[1..]);
      hide Run, CanRun, Enabled;
      var asked := AskedOut(events[1..]);
      if e.Evict? {
        assert s.evictions != [] && (s.evictions + asked)[1..] == s.evictions[1..] + asked;
      } else if e.RequestEviction? {
        assert s.evictions + ([e.address] + asked) == s.evictions + [e.address] + asked;
      }
    }
  }

  /** Evictions are carried out in the order in which they were asked for, each once. */
  lemma EvictionsKeepOrder(s: State, cache: Cache, events: seq<Event>)
    requires ReachedBy(s, cache, events)
    ensures EvictCount(events) <= |AskedOut(events)| && s.evictions == AskedOut(events)[EvictCount(events)..]
  {
    RunKeepsEvictions(Init(cache), events);
    assert [] + AskedOut(events) == AskedOut(events);
  }

  // ---- Every frame goes to its address ------------------------------------

  ghost predicate TaskRouted(s: State) {
    forall t :: 0 <= t < |s.tasks| ==>
      s.tasks[t].conn < |s.conns| && s.conns[s.tasks[t].conn].address == s.tasks[t].job.address
  }

  ghost predicate SentRouted(s: State, k: nat)
    requires k < |s.socks|
  {
    && s.socks[k].conn < |s.conns|
    && forall i :: 0 <= i < |s.socks[k].sent| ==>
         s.socks[k].sent[i] < |s.tasks| && s.tasks[s.socks[k].sent[i]].conn == s.socks[k].conn
  }

  /** Each send has a connection to the address it was for, and each stream has only frames of sends with its
      own connection. */
  ghost predicate Routed(s: State) {
    TaskRouted(s) && forall k :: 0 <= k < |s.socks| ==> SentRouted(s, k)
  }

  /** Tasks and connections stay what they are, and streams only gain frames of such tasks. */
  ghost predicate KeepsRoutes(s: State, s': State) {
    && |s.tasks| <= |s'.tasks| && |s.conns| <= |s'.conns|
    && (forall t :: 0 <= t < |s.tasks| ==> s'.tasks[t].job == s.tasks[t].job && s'.tasks[t].conn == s.tasks[t].conn)
    && (forall c :: 0 <= c < |s.conns| ==> s'.conns[c].address == s.conns[c].address)
    && (forall t :: |s.tasks| <= t < |s'.tasks| ==>
          s'.tasks[t].conn < |s'.conns| && s'.conns[s'.tasks[t].conn].address == s'.tasks[t].job.address)
    && |s.socks| <= |s'.socks|
    && (forall k :: 0 <= k < |s.socks| ==>
          && s'.socks[k].conn == s.socks[k].conn
          && (s'.socks[k].sent == s.socks[k].sent
              || exists t {:trigger s.tasks[t]} ::
                   0 <= t < |s.tasks| && s'.socks[k].sent == s.socks[k].sent + [t] && s.tasks[t].conn == s.socks[k].conn))
    && (forall k :: |s.socks| <= k < |s'.socks| ==> s'.socks[k].conn < |s'.conns| && s'.socks[k].sent == [])
  }

  lemma RoutesKept(s: State, s': State)
    requires Routed(s) && KeepsRoutes(s, s')
    ensures Routed(s')
  {
    forall k | 0 <= k < |s'.socks|
      ensures SentRouted(s', k)
    {
      if k < |s.socks| {
        assert SentRouted(s, k);
      }
    }
  }

  lemma ReleaseKeepsRoutes(s: State, c: nat)
    requires c < |s.conns| && (s.conns[c].socket.Some? ==> s.conns[c].socket.value < |s.socks|)
    ensures KeepsRoutes(s, Release(s, c)) && SameSent(s, Release(s, c))
  {
  }

  predicate SameSent(s: State, s': State) {
    |s'.socks| == |s.socks| && forall k :: 0 <= k < |s.socks| ==> s'.socks[k].sent == s.socks[k].sent
  }

  lemma RoutesTwice(s: State, s1: State, s2: State)
    requires KeepsRoutes(s, s1) && KeepsRoutes(s1, s2) && SameSent(s, s1) && SameSent(s1, s2)
    ensures KeepsRoutes(s, s2)
  {
  }

  lemma DispatchKeepsRoutes(s: State)
    requires InRange(s) && CacheInv(s) && s.queue != []
    ensures KeepsRoutes(s, DispatchNext(s))
  {
    GetOrInsertEffect(s.cache, s.queue[0].address, |s.conns|);
    HasIsHolds(s.cache, s.queue[0].address);
    hide Has, Valid, Holds, GetOrInsert;
    var spawned := Spawned(s);
    assert KeepsRoutes(s, spawned);
    match GetOrInsert(s.cache, s.queue[0].address, |s.conns|).evicted
    case None =>
    case Some(entry) =>
      ReleaseKeepsRoutes(spawned, entry.conn);
      RoutesTwice(s, spawned, Release(spawned, entry.conn));
  }

  lemma EvictKeepsRoutes(s: State)
    requires InRange(s) && s.evictions != []
    ensures KeepsRoutes(s, EvictNext(s))
  {
    RemoveEffect(s.cache, s.evictions[0]);
    hide Valid, Holds, Remove;
    var r := Remove(s.cache, s.evictions[0]);
    var s1 := Uncached(s);
    if r.removed.Some? {
      ReleaseKeepsRoutes(s1, r.removed.value);
    }
  }

  lemma TaskStepKeepsRoutes(s: State, e: Event)
    requires InRange(s) && OwnSocketInv(s) && Enabled(s, e) && Mover(e).Some? && !e.Finish?
    requires e.Write? ==> s.tasks[e.t].phase.pos + e.n <= |FrameOf(s.tasks[e.t])|
    ensures KeepsRoutes(s, Next(s, e))
  {
    hide Valid, Holds, FrameOf;
  }

  lemma StepKeepsRoutes(s: State, e: Event)
    requires Inv(s) && Enabled(s, e)
    ensures KeepsRoutes(s, Next(s, e))
  {
    hide StreamsInv, SentInv, RefsInv, LockInv, FateInv, DroppedInv, PhaseInv, KeepsRoutes, CacheInv, OwnSocketInv;
    match e {
      case Dispatch => DispatchKeepsRoutes(s);
      case Evict => EvictKeepsRoutes(s);
      case Finish(t) =>
        var s1 := SetPhase(s, t, Finished(s.tasks[t].phase.result));
        ReleaseKeepsRoutes(s1, s.tasks[t].conn);
        FinishKeepsRoutes(s, t);
      case Write(t, _) =>
        WriteStaysInFrame(s.tasks[t], s.tasks[t].phase.pos);
        TaskStepKeepsRoutes(s, e);
      case Lock(_) => TaskStepKeepsRoutes(s, e);
      case Connect(_, _) => TaskStepKeepsRoutes(s, e);
      case WriteFail(_) => TaskStepKeepsRoutes(s, e);
      case _ => RequestKeepsRoutes(s, e);
    }
  }

  lemma FinishKeepsRoutes(s: State, t: nat)
    requires InRange(s) && IsTask(s, t) && s.tasks[t].phase.Returned?
    ensures KeepsRoutes(s, FinishNext(s, t))
  {
    hide Valid, Holds;
    var s1 := SetPhase(s, t, Finished(s.tasks[t].phase.result));
    ReleaseKeepsRoutes(s1, s.tasks[t].conn);
  }

  lemma RequestKeepsRoutes(s: State, e: Event)
    requires InRange(s) && Enabled(s, e) && (e.Enqueue? || e.RequestEviction? || e.Break?)
    ensures KeepsRoutes(s, Next(s, e))
  {
    hide Valid, Holds;
  }

  lemma {:induction false} RunKeepsRoutes(s: State, events: seq<Event>)
    requires Inv(s) && Routed(s) && CanRun(s, events)
    ensures Routed(Run(s, events))
    decreases |events|
  {
    hide Inv, Routed, KeepsRoutes, Enabled, Next, InRange;
    if events != [] {
      StepKeepsRoutes(s, events[0]);
      StepKeepsInv(s, events[0]);
      RoutesKept(s, Next(s, events[0]));
      RunKeepsRoutes(Next(s, events[0]), events[1..]);
    }
  }

  lemma ReachedRoutes(s: State, cache: Cache, events: seq<Event>)
    requires ReachedBy(s, cache, events)
    ensures Routed(s)
  {
    InitInv(cache);
    assert Routed(Init(cache));
    hide Inv, Routed, CanRun, Run;
    RunKeepsRoutes(Init(cache), events);
  }

  /** In every reachable state each send has a connection to its own address. */
  lemma EverySendHasItsAddress(s: State, cache: Cache, events: seq<Event>, t: nat)
    requires ReachedBy(s, cache, events) && t < |s.tasks|
    ensures IsTask(s, t) && ConnOf(s, t).address == s.tasks[t].job.address
  {
    ReachedRoutes(s, cache, events);
    hide ReachedBy, SentRouted;
  }

  /** Whatever whole frame is in the bytes of a stream, it was sent, with Ok, by a send to the address of that
      stream's connection. */
  lemma FramesReachTheirAddress(s: State, cache: Cache, events: seq<Event>, k: nat, i: nat) returns (t: nat)
    requires ReachedBy(s, cache, events) && ShortJobs(s)
    requires k < |s.socks| && i < |Payloads(s.socks[k].stream)|
    ensures s.socks[k].conn < |s.conns| && t < |s.tasks|
    ensures s.tasks[t].job.data == Payloads(s.socks[k].stream)[i] && s.tasks[t].phase.Succeeded()
    ensures s.tasks[t].job.address == s.conns[s.socks[k].conn].address
  {
    ReachedRoutes(s, cache, events);
    StreamIsWholeFramesThenOnePart(s, cache, events, k);
    t := s.socks[k].sent[i];
    assert SentRouted(s, k);
    OkExactlyOnceErrNever(s, cache, events, t);
    assert t in s.socks[k].sent;
    if !s.tasks[t].phase.Succeeded() {
      NoCopyNoStream(s.socks, t);
    }
  }

  // ---- The course of a send ------------------------------------------------

  /** What a send does, leaving out how its frame is cut into portions. */
  datatype Mark = Locked | Connected | Refused | Failed | Reported

  function MarkOf(e: Event, t: nat): seq<Mark> {
    match e
    case Lock(u) => if u == t then [Locked] else []
    case Connect(u, ok) => if u == t then [if ok then Connected else Refused] else []
    case WriteFail(u) => if u == t then [Failed] else []
    case Finish(u) => if u == t then [Reported] else []
    case _ => []
  }

  function Marks(events: seq<Event>, t: nat): seq<Mark> {
    if events == [] then [] else MarkOf(events[0], t) + Marks(events[1..], t)
  }

  lemma {:induction false} MarksSnoc(events: seq<Event>, e: Event, t: nat)
    ensures Marks(events + [e], t) == Marks(events, t) + MarkOf(e, t)
  {
    hide MarkOf;
    if events == [] {
      assert events + [e] == [e] && [e][1..] == [];
    } else {
      assert (events + [e])[1..] == events[1..] + [e];
      MarksSnoc(events[1..], e, t);
    }
  }

  /** The mutex, and a new stream unless the connection has one. */
  predicate FirstTry(m: seq<Mark>) {
    m == [Locked] || m == [Locked, Connected]
  }

  /** A failed write, and always a new stream. */
  predicate SecondTry(m: seq<Mark>) {
    m == [Locked, Failed, Connected] || m == [Locked, Connected, Failed, Connected]
  }

  predicate BetweenTries(m: seq<Mark>) {
    m == [Locked, Failed] || m == [Locked, Connected, Failed]
  }

  /** The courses that end with a result. */
  predicate EndsWith(m: seq<Mark>, result: SendResult) {
    match result
    case SendOk => FirstTry(m) || SecondTry(m)
    case ConnectionFailed =>
      m == [Locked, Refused] || m == [Locked, Failed, Refused] || m == [Locked, Connected, Failed, Refused]
    case SendFailed => m == [Locked, Failed, Connected, Failed] || m == [Locked, Connected, Failed, Connected, Failed]
  }

  predicate OnCourse(m: seq<Mark>, phase: Phase) {
    match phase
    case Waiting => m == []
    case Connecting(retry) => if retry then BetweenTries(m) else m == [Locked]
    case Writing(retry, _) => if retry then SecondTry(m) else FirstTry(m)
    case Returned(result) => EndsWith(m, result)
    case Finished(result) => |m| > 0 && m[|m| - 1] == Reported && EndsWith(m[..|m| - 1], result)
  }

  ghost predicate AllOnCourse(s: State, events: seq<Event>) {
    forall t: nat {:trigger Marks(events, t)} ::
      if t < |s.tasks| then OnCourse(Marks(events, t), s.tasks[t].phase) else Marks(events, t) == []
  }

  lemma DispatchOnCourse(s: State)
    requires InRange(s) && s.queue != []
    ensures |DispatchNext(s).tasks| == |s.tasks| + 1 && DispatchNext(s).tasks[..|s.tasks|] == s.tasks
    ensures DispatchNext(s).tasks[|s.tasks|].phase == Waiting
  {
    hide Valid, Holds, GetOrInsert;
  }

  /** Only the task that an event is about changes its phase, and along its course. */
  lemma MoverOnCourse(s: State, e: Event, m: seq<Mark>)
    requires InRange(s) && Enabled(s, e) && Mover(e).Some?
    requires e.Write? ==> s.tasks[e.t].phase.pos + e.n <= |FrameOf(s.tasks[e.t])|
    requires OnCourse(m, s.tasks[Mover(e).value].phase)
    ensures var t, s' := Mover(e).value, Next(s, e);
            && |s'.tasks| == |s.tasks| && s'.tasks == s.tasks[t := s'.tasks[t]]
            && OnCourse(m + MarkOf(e, t), s'.tasks[t].phase)
  {
    hide Valid, Holds, FrameOf;
    if e.Finish? {
      assert (m + [Reported])[..|m|] == m;
    }
  }

  lemma CourseKept(s: State, s': State, past: seq<Event>, e: Event)
    requires AllOnCourse(s, past)
    requires |s.tasks| <= |s'.tasks|
    requires forall t :: |s.tasks| <= t < |s'.tasks| ==> s'.tasks[t].phase == Waiting && MarkOf(e, t) == []
    requires forall t: nat {:trigger MarkOf(e, t)} :: MarkOf(e, t) != [] ==> Mover(e) == Some(t) && t < |s.tasks|
    requires forall t :: 0 <= t < |s.tasks| ==> Mover(e) != Some(t) ==> s'.tasks[t].phase == s.tasks[t].phase
    requires forall t :: 0 <= t < |s.tasks| ==> Mover(e) == Some(t) ==>
               OnCourse(Marks(past, t) + MarkOf(e, t), s'.tasks[t].phase)
    ensures AllOnCourse(s', past + [e])
  {
    FreshOnCourse();
    hide OnCourse, MarkOf, Marks, Mover;
    forall t: nat
      ensures if t < |s'.tasks| then OnCourse(Marks(past + [e], t), s'.tasks[t].phase) else Marks(past + [e], t) == []
    {
      MarksSnoc(past, e, t);
      assert if t < |s.tasks| then OnCourse(Marks(past, t), s.tasks[t].phase) else Marks(past, t) == [];
      assert Mover(e) != Some(t) ==> Marks(past, t) + MarkOf(e, t) == Marks(past, t);
      assert t >= |s.tasks| ==> MarkOf(e, t) == [];
    }
  }

  lemma MoverKeepsCourse(s: State, past: seq<Event>, e: Event)
    requires InRange(s) && Enabled(s, e) && Mover(e).Some? && AllOnCourse(s, past)
    ensures AllOnCourse(Next(s, e), past + [e])
  {
    var mover := Mover(e).value;
    if e.Write? {
      WriteStaysInFrame(s.tasks[mover], s.tasks[mover].phase.pos);
    }
    assert OnCourse(Marks(past, mover), s.tasks[mover].phase);
    MoverOnCourse(s, e, Marks(past, mover));
    hide AllOnCourse, InRange, Enabled, Next, OnCourse, Marks, FrameOf, WriteEnd;
    CourseKept(s, Next(s, e), past, e);
  }

  lemma DispatchKeepsCourse(s: State, past: seq<Event>)
    requires InRange(s) && s.queue != [] && AllOnCourse(s, past)
    ensures AllOnCourse(DispatchNext(s), past + [Dispatch])
  {
    DispatchOnCourse(s);
    hide AllOnCourse, InRange, DispatchNext, OnCourse, Marks;
    CourseKept(s, DispatchNext(s), past, Dispatch);
  }

  lemma StepOnCourse(s: State, past: seq<Event>, e: Event)
    requires Inv(s) && Enabled(s, e) && AllOnCourse(s, past)
    ensures AllOnCourse(Next(s, e), past + [e])
  {
    InvHasParts(s);
    hide Inv, StreamsInv, AllOnCourse, InRange, OnCourse, Marks, DispatchNext, EvictNext;
    if Mover(e).Some? {
      MoverKeepsCourse(s, past, e);
    } else if e.Dispatch? {
      DispatchKeepsCourse(s, past);
    } else {
      OtherKeepsTasks(s, e);
      CourseKept(s, Next(s, e), past, e);
    }
  }

  lemma FreshOnCourse()
    ensures OnCourse([], Waiting)
  {
  }

  lemma OtherKeepsTasks(s: State, e: Event)
    requires InRange(s) && Enabled(s, e) && Mover(e).None? && !e.Dispatch?
    ensures Next(s, e).tasks == s.tasks
  {
    hide Valid, Holds, Remove;
  }

  lemma {:induction false} RunOnCourse(s: State, past: seq<Event>, events: seq<Event>)
    requires Inv(s) && AllOnCourse(s, past) && CanRun(s, events)
    ensures AllOnCourse(Run(s, events), past + events)
    decreases |events|
  {
    hide Inv, AllOnCourse, Enabled, Next, InRange;
    if events == [] {
      assert past + events == past;
    } else {
      StepOnCourse(s, past, events[0]);
      StepKeepsInv(s, events[0]);
      assert past + [events[0]] + events[1..] == past + events;
      RunOnCourse(Next(s, events[0]), past + [events[0]], events[1..]);
    }
  }

  /** The course of every send, over the events of every run. It takes the mutex once. It connects when its
      connection has no stream, and again after a failed write, once. It returns Ok from the first try or the
      second; a connection failure when it was refused; a send failure after two writes failed, with a new
      stream between them; and it reports that result once. */
  lemma EverySendKeepsToItsCourse(s: State, cache: Cache, events: seq<Event>, t: nat)
    requires ReachedBy(s, cache, events) && t < |s.tasks|
    ensures OnCourse(Marks(events, t), s.tasks[t].phase)
  {
    InitInv(cache);
    assert AllOnCourse(Init(cache), []);
    hide Inv, AllOnCourse, CanRun, Run;
    RunOnCourse(Init(cache), [], events);
    assert [] + events == events;
    OneOnCourse(s, events, t);
  }

  lemma OneOnCourse(s: State, events: seq<Event>, t: nat)
    requires AllOnCourse(s, events) && t < |s.tasks|
    ensures OnCourse(Marks(events, t), s.tasks[t].phase)
  {
  }

  lemma NetworkMay(s: State, t: nat)
    requires InRange(s) && PhaseInv(s) && t < |s.tasks|
    ensures s.tasks[t].phase.Connecting? ==> Enabled(s, Connect(t, true)) && Enabled(s, Connect(t, false))
    ensures s.tasks[t].phase.Writing? ==>
              && Enabled(s, WriteFail(t)) && HasSocket(s, t)
              && forall n: nat {:trigger Enabled(s, Write(t, n))} :: Enabled(s, Write(t, n)) <==>
                   && !SockOf(s, t).broken && 0 < n
                   && s.tasks[t].phase.pos + n <= if s.tasks[t].phase.pos < 4 then 4 else 4 + |s.tasks[t].job.data|
  {
    FrameLength(s.tasks[t]);
    hide FrameOf, Valid, Holds;
  }

  lemma FrameLength(task: Task)
    ensures |FrameOf(task)| == 4 + |task.job.data|
  {
  }

  lemma InvHasPhases(s: State)
    requires Inv(s)
    ensures InRange(s) && PhaseInv(s)
  {
    hide InRange, CacheInv, RefsInv, LockInv, OwnSocketInv, FateInv, DroppedInv, PhaseInv, StreamsInv, SentInv;
  }

  /** The network decides every write and every connection: it may refuse or accept one, fail a write at any
      time, break any stream, and take from a healthy stream any portion up to the end of the length or, after
      it, of the body. */
  lemma NetworkDecides(s: State, cache: Cache, events: seq<Event>, t: nat)
    requires ReachedBy(s, cache, events) && t < |s.tasks|
    ensures s.tasks[t].phase.Connecting? ==> Enabled(s, Connect(t, true)) && Enabled(s, Connect(t, false))
    ensures s.tasks[t].phase.Writing? ==>
              && Enabled(s, WriteFail(t)) && HasSocket(s, t)
              && forall n: nat {:trigger Enabled(s, Write(t, n))} :: Enabled(s, Write(t, n)) <==>
                   && !SockOf(s, t).broken && 0 < n
                   && s.tasks[t].phase.pos + n <= if s.tasks[t].phase.pos < 4 then 4 else 4 + |s.tasks[t].job.data|
    ensures forall k: nat :: k < |s.socks| ==> Enabled(s, Break(k))
  {
    hide ReachedBy, Inv, InRange, PhaseInv;
    ReachedInv(s, cache, events);
    InvHasPhases(s);
    NetworkMay(s, t);
    BreakIsFree(s);
    hide Enabled;
  }

  /** When the network breaks a stream, no task can write to it any more, and nothing else is different: each
      task stands where it stood, with the connection and the bytes that it had. */
  lemma BrokenTakesNothing(s: State, cache: Cache, events: seq<Event>, k: nat)
    requires ReachedBy(s, cache, events) && k < |s.socks|
    ensures InRange(s) && Enabled(s, Break(k))
    ensures var s' := Next(s, Break(k));
            && (forall t: nat, n: nat :: HasSocket(s, t) && ConnOf(s, t).socket == Some(k) ==>
                  !Enabled(s', Write(t, n)))
            && (forall t: nat, n: nat :: Enabled(s, Write(t, n)) && ConnOf(s, t).socket != Some(k) ==>
                  Enabled(s', Write(t, n)))
            && s'.tasks == s.tasks && s'.conns == s.conns && |s'.socks| == |s.socks|
            && forall i :: 0 <= i < |s.socks| ==> s'.socks[i].stream == s.socks[i].stream
  {
    hide Inv, FrameOf;
    ReachedInv(s, cache, events);
    InvHasParts(s);
  }

  lemma BreakIsFree(s: State)
    ensures forall k: nat :: k < |s.socks| ==> Enabled(s, Break(k))
  {
  }
}
