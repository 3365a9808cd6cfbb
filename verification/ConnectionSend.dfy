/** `Connection::send` as a program: run under any interference by the other tasks, the evictor and the
    network, it takes exactly the steps of the step system and returns the result its task ends with. */
module ConnectionSend {
  import opened Bytes
  import opened Framing
  import opened ConnectionCache
  import opened SenderProtocol
  import opened SenderInvariant
  import opened SenderSteps
  import opened SenderTheorems

  // ---- Interference freedom ------------------------------------------------

  predicate By(e: Event, t: nat) {
    match e
    case Lock(u) => u == t
    case Connect(u, _) => u == t
    case Write(u, _) => u == t
    case WriteFail(u) => u == t
    case Finish(u) => u == t
    case _ => false
  }

  /** What a task that holds its mutex relies on: itself, its connection's socket, and that socket's bytes.
      The socket may fail at any time. */
  ghost predicate Undisturbed(s: State, s': State, t: nat) {
    && IsTask(s, t) && IsTask(s', t)
    && s'.tasks[t] == s.tasks[t]
    && ConnOf(s', t).holder == ConnOf(s, t).holder
    && ConnOf(s', t).socket == ConnOf(s, t).socket
    && (HasSocket(s, t) ==> HasSocket(s', t) && SockOf(s', t).stream == SockOf(s, t).stream
                            && SockOf(s', t).sent == SockOf(s, t).sent)
  }

  lemma ReleaseUndisturbs(s: State, c: nat, t: nat)
    requires CanRelease(s, c) && IsTask(s, t) && (s.tasks[t].conn == c ==> s.conns[c].refs > 1)
    requires OwnSocketInv(s)
    ensures Undisturbed(s, Release(s, c), t)
  {
  }

  lemma OtherTaskUndisturbs(s: State, e: Event, t: nat, u: nat)
    requires InRange(s) && LockInv(s) && OwnSocketInv(s) && Enabled(s, e)
    requires IsTask(s, t) && s.tasks[t].phase.Holding() && u != t
    requires e == Lock(u) || e == WriteFail(u) || (e.Connect? && e.t == u) || (e.Write? && e.t == u)
    ensures Undisturbed(s, Next(s, e), t)
  {
    hide FrameOf, Valid, Holds;
    if e.Write? {
      WriteStaysInFrame(s.tasks[u], s.tasks[u].phase.pos);
    }
  }

  lemma FinishUndisturbs(s: State, t: nat, u: nat)
    requires InRange(s) && CacheInv(s) && RefsInv(s, None) && OwnSocketInv(s)
    requires IsTask(s, u) && s.tasks[u].phase.Returned? && IsTask(s, t) && s.tasks[t].phase.Holding()
    ensures Undisturbed(s, FinishNext(s, u), t)
  {
    hide Undisturbed, CacheInv, Valid, Holds, RefsInv;
    var s' := SetPhase(s, u, Finished(s.tasks[u].phase.result));
    ReportKeepsCounts(s, u);
    ConnectionCanRelease(s, s.tasks[u].conn);
    hide InRange;
    UnfinishedHasReference(s', t, Some(s.tasks[u].conn));
    ReleaseUndisturbs(s', s.tasks[u].conn, t);
    SameView(s, s', FinishNext(s, u), t);
  }

  lemma SameView(s: State, s1: State, s2: State, t: nat)
    requires Undisturbed(s1, s2, t) && IsTask(s, t)
    requires s1.tasks[t] == s.tasks[t] && s1.conns == s.conns && s1.socks == s.socks
    ensures Undisturbed(s, s2, t)
  {
  }

  lemma EvictUndisturbs(s: State, t: nat)
    requires Inv(s) && s.evictions != [] && IsTask(s, t) && s.tasks[t].phase.Holding()
    ensures Undisturbed(s, EvictNext(s), t)
  {
    hide LockInv, StreamsInv, SentInv, Undisturbed, Remove, FateInv, DroppedInv, PhaseInv;
    var s' := Uncached(s);
    var removed := Remove(s.cache, s.evictions[0]).removed;
    UncachedKeepsCounts(s);
    hide CacheInv, Valid, Holds;
    UnfinishedHasReference(s', t, removed);
    if removed.Some? {
      RemoveEffect(s.cache, s.evictions[0]);
      ConnectionCanRelease(s', removed.value);
      ReleaseUndisturbs(s', removed.value, t);
      SameView(s, s', EvictNext(s), t);
    } else {
      Unmoved(s, s', t);
    }
  }

  lemma Unmoved(s: State, s': State, t: nat)
    requires IsTask(s, t) && t < |s'.tasks| && s'.tasks[t] == s.tasks[t] && s'.conns == s.conns && s'.socks == s.socks
    ensures Undisturbed(s, s', t)
  {
  }

  lemma SpawnUndisturbs(s: State, t: nat)
    requires InRange(s) && s.queue != [] && IsTask(s, t)
    ensures Undisturbed(s, Spawned(s), t)
    ensures Spawned(s).conns[s.tasks[t].conn].refs >= s.conns[s.tasks[t].conn].refs
  {
    SpawnedConns(s);
    hide GetOrInsert, Valid, Holds;
  }

  lemma DispatchUndisturbs(s: State, t: nat)
    requires Inv(s) && s.queue != [] && IsTask(s, t) && s.tasks[t].phase.Holding()
    ensures Undisturbed(s, DispatchNext(s), t)
  {
    hide LockInv, StreamsInv, SentInv, Undisturbed, GetOrInsert, FateInv, DroppedInv, PhaseInv, Spawned;
    var s' := Spawned(s);
    var evicted := GetOrInsert(s.cache, s.queue[0].address, |s.conns|).evicted;
    SpawnUndisturbs(s, t);
    if evicted.Some? {
      SpawnedKeepsCounts(s);
      hide CacheInv, Valid, Holds, RefsInv;
      SpawnedCanRelease(s);
      SpawnedSame(s, t);
      UnfinishedHasReference(s', t, Some(evicted.value.conn));
      SpawnedOwns(s);
      ReleaseUndisturbs(s', evicted.value.conn, t);
      Twice(s, s', DispatchNext(s), t);
    }
  }

  lemma SpawnedSame(s: State, t: nat)
    requires InRange(s) && s.queue != [] && t < |s.tasks|
    ensures IsTask(Spawned(s), t) && Spawned(s).tasks[t] == s.tasks[t]
  {
    SpawnedConns(s);
    hide GetOrInsert, Valid, Holds;
  }

  lemma SpawnedOwns(s: State)
    requires InRange(s) && OwnSocketInv(s) && s.queue != []
    ensures OwnSocketInv(Spawned(s))
  {
    SpawnedConns(s);
    hide GetOrInsert, Valid, Holds;
  }

  lemma Twice(s: State, s1: State, s2: State, t: nat)
    requires Undisturbed(s, s1, t) && Undisturbed(s1, s2, t)
    ensures Undisturbed(s, s2, t)
  {
  }

  /** While a task holds its mutex, no step of anyone else changes its phase, takes its mutex or its
      socket, or adds a byte to its stream. */
  lemma OthersUndisturb(s: State, e: Event, t: nat)
    requires Inv(s) && Enabled(s, e) && !By(e, t) && IsTask(s, t) && s.tasks[t].phase.Holding()
    ensures Undisturbed(s, Next(s, e), t)
  {
    hide InRange, CacheInv, RefsInv, LockInv, StreamsInv, SentInv, OwnSocketInv, FateInv, DroppedInv, PhaseInv;
    match e
    case Enqueue(_) =>
    case RequestEviction(_) =>
    case Break(_) =>
    case Dispatch => DispatchUndisturbs(s, t);
    case Evict => EvictUndisturbs(s, t);
    case Finish(u) => FinishUndisturbs(s, t, u);
    case Lock(u) => OtherTaskUndisturbs(s, e, t, u);
    case Connect(u, _) => OtherTaskUndisturbs(s, e, t, u);
    case Write(u, _) => OtherTaskUndisturbs(s, e, t, u);
    case WriteFail(u) => OtherTaskUndisturbs(s, e, t, u);
  }

  // ---- Runs grow one event at a time --------------------------------------

  lemma {:induction false} RunSnoc(s: State, events: seq<Event>, e: Event)
    requires CanRun(s, events) && InRange(Run(s, events)) && Enabled(Run(s, events), e)
    requires InRange(Next(Run(s, events), e))
    ensures CanRun(s, events + [e]) && Run(s, events + [e]) == Next(Run(s, events), e)
    decreases |events|
  {
    hide InRange, Enabled, Next;
    if events == [] {
      assert events + [e] == [e] && [e][1..] == [];
    } else {
      assert (events + [e])[1..] == events[1..] + [e];
      RunSnoc(Next(s, events[0]), events[1..], e);
    }
  }

  // ---- The running program -------------------------------------------------

  /** The state every task shares, the events so far, and a script of what the world will do: the choices
      of the network, and for each point where a task waits the steps of everyone else. */
  class Runtime {
    const cache: Cache
    var state: State
    ghost var events: seq<Event>
    var network: seq<nat>
    var others: seq<seq<Event>>

    ghost predicate Valid()
      reads this
    {
      ReachedBy(state, cache, events)
    }

    /** Any start, any run up to now, any future of the world. */
    constructor (cache: Cache, network: seq<nat>, others: seq<seq<Event>>)
      requires EmptyCache(cache)
      ensures Valid() && state == Init(cache) && this.network == network && this.others == others
    {
      this.cache := cache;
      state := Init(cache);
      events := [];
      this.network := network;
      this.others := others;
      InitInv(cache);
    }

    method Do(e: Event)
      requires Valid() && Enabled(state, e)
      modifies this`state, this`events
      ensures InRange(old(state)) && Valid() && state == Next(old(state), e) && events == old(events) + [e]
    {
      hide Enabled, Next, CanRun, Run;
      ReachedInv(state, cache, events);
      StepKeepsInv(state, e);
      hide CacheInv, RefsInv, LockInv, SocketInv, StreamsInv, SentInv, InRange;
      RunSnoc(Init(cache), events, e);
      state := Next(state, e);
      events := events + [e];
    }

    /** The network's next choice, at most max; zero stands for an error. */
    method Choose(max: nat) returns (n: nat)
      modifies this`network
      ensures n <= max
    {
      n := 0;
      if network != [] {
        n := if network[0] <= max then network[0] else max;
        network := network[1..];
      }
    }

    /** A point where task t waits: the others and the network take the steps that the script has for this
        point, as far as they are possible then. The steps in a script are arbitrary, so nothing but the
        contract is known of what happens here. */
    method Await(t: nat)
      requires Valid() && IsTask(state, t) && state.tasks[t].phase.Holding()
      modifies this`state, this`events, this`others
      ensures Valid() && Undisturbed(old(state), state, t)
      ensures old(events) <= events
    {
      hide Enabled, Next, ReachedBy, InRange;
      Calm(state, t);
      if others == [] {
        return;
      }
      var steps := others[0];
      others := others[1..];
      for i := 0 to |steps|
        invariant Valid() && Undisturbed(old(state), state, t)
        invariant old(events) <= events
      {
        if !By(steps[i], t) && Enabled(state, steps[i]) {
          ghost var before := state;
          ReachedInv(state, cache, events);
          OthersUndisturb(state, steps[i], t);
          Do(steps[i]);
          Twice(old(state), before, state, t);
        }
      }
    }
  }

  lemma Calm(s: State, t: nat)
    requires IsTask(s, t)
    ensures Undisturbed(s, s, t)
  {
  }

  // ---- The program ---------------------------------------------------------

  /** Where the program of task t is, and what it has written to its own stream in this attempt. */
  ghost predicate At(rt: Runtime, t: nat, phase: Phase)
    reads rt
  {
    rt.Valid() && IsTask(rt.state, t) && rt.state.tasks[t].phase == phase
  }

  lemma WriterHasSocket(s: State, cache: Cache, events: seq<Event>, t: nat)
    requires ReachedBy(s, cache, events) && t < |s.tasks| && s.tasks[t].phase.Writing?
    ensures HasSocket(s, t) && s.tasks[t].phase.pos < |FrameOf(s.tasks[t])|
  {
    ReachedInv(s, cache, events);
    hide ReachedBy, CacheInv, RefsInv, LockInv, SentInv, FateInv, DroppedInv, OwnSocketInv, Holds, Valid, FrameOf;
  }

  /** `connect_and_set_socket_if_none`. */
  method ConnectAndSetSocketIfNone(rt: Runtime, t: nat, retry: bool) returns (ok: bool)
    requires At(rt, t, Connecting(retry)) || At(rt, t, Writing(retry, 0))
    modifies rt
    ensures rt.Valid() && old(rt.events) <= rt.events
    ensures ok ==> At(rt, t, Writing(retry, 0))
    ensures !ok ==> At(rt, t, Returned(ConnectionFailed))
  {
    hide ReachedBy, InRange;
    if rt.state.tasks[t].phase.Writing? {
      return true;
    }
    rt.Await(t);
    var choice := rt.Choose(1);
    ok := choice == 1;
    rt.Do(Connect(t, ok));
  }

  /** `write_all` of the buffer that ends at position end of the frame: it succeeds when the stream has
      taken the whole buffer. */
  method WriteAll(rt: Runtime, t: nat, retry: bool, start: nat, end: nat) returns (ok: bool)
    requires At(rt, t, Writing(retry, start)) && start < end
    requires (start == 0 && end == 4) || (start == 4 && end == |FrameOf(rt.state.tasks[t])|)
    modifies rt
    ensures rt.Valid() && old(rt.events) <= rt.events && IsTask(rt.state, t)
    ensures rt.state.tasks[t].job == old(rt.state.tasks[t].job)
    ensures ok ==> At(rt, t, if end == |FrameOf(rt.state.tasks[t])| then Returned(SendOk) else Writing(retry, end))
    ensures !ok ==> At(rt, t, if retry then Returned(SendFailed) else Connecting(true))
  {
    hide ReachedBy, InRange, Frame;
    var pos := start;
    while true
      invariant start <= pos < end && At(rt, t, Writing(retry, pos))
      invariant old(rt.events) <= rt.events
      invariant rt.state.tasks[t].job == old(rt.state.tasks[t].job)
      decreases end - pos
    {
      rt.Await(t);
      WriterHasSocket(rt.state, rt.cache, rt.events, t);
      FrameNotEmpty(rt.state.tasks[t]);
      var n := rt.Choose(end - pos);
      if n == 0 || SockOf(rt.state, t).broken {
        rt.Do(WriteFail(t));
        return false;
      }
      rt.Do(Write(t, n));
      pos := pos + n;
      if pos == end {
        return true;
      }
    }
  }

  /** `write_data_to_stream`: the length, then the body. */
  method WriteDataToStream(rt: Runtime, t: nat, retry: bool) returns (ok: bool)
    requires At(rt, t, Writing(retry, 0))
    modifies rt
    ensures rt.Valid() && old(rt.events) <= rt.events
    ensures ok ==> At(rt, t, Returned(SendOk))
    ensures !ok ==> At(rt, t, if retry then Returned(SendFailed) else Connecting(true))
  {
    hide ReachedBy, InRange, Frame, Enabled, Next;
    FrameNotEmpty(rt.state.tasks[t]);
    ok := WriteAll(rt, t, retry, 0, 4);
    if ok && rt.state.tasks[t].phase.Writing? {
      FrameNotEmpty(rt.state.tasks[t]);
      ok := WriteAll(rt, t, retry, 4, 4 + |rt.state.tasks[t].job.data|);
    }
  }

  /** `Connection::send`, from the moment the mutex is granted: connect if there is no socket, write, and on
      a failed write reconnect and write once more. Its result is the result its task ends with. */
  method Send(rt: Runtime, t: nat) returns (result: SendResult)
    requires rt.Valid() && Enabled(rt.state, Lock(t))
    modifies rt
    ensures rt.Valid() && old(rt.events) <= rt.events
    ensures At(rt, t, Returned(result))
    ensures Copies(rt.state.socks, t) == if result == SendOk then 1 else 0
  {
    hide ReachedBy, InRange, Frame, Copies;
    result := RunSend(rt, t);
    OkExactlyOnceErrNever(rt.state, rt.cache, rt.events, t);
  }

  method RunSend(rt: Runtime, t: nat) returns (result: SendResult)
    requires rt.Valid() && Enabled(rt.state, Lock(t))
    modifies rt
    ensures rt.Valid() && old(rt.events) <= rt.events
    ensures At(rt, t, Returned(result))
  {
    hide ReachedBy, InRange, Frame;
    rt.Do(Lock(t));
    var ok := ConnectAndSetSocketIfNone(rt, t, false);
    if !ok {
      return ConnectionFailed;
    }
    ok := WriteDataToStream(rt, t, false);
    if ok {
      return SendOk;
    }
    ok := ConnectAndSetSocketIfNone(rt, t, true);
    if !ok {
      return ConnectionFailed;
    }
    ok := WriteDataToStream(rt, t, true);
    result := if ok then SendOk else SendFailed;
  }
}
