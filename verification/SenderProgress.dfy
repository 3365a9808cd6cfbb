/** Every send settles: work that is left can always go on, and can go on only so long. */
module SenderProgress {
  import opened Bytes
  import opened Outbound
  import opened ConnectionCache
  import opened SenderProtocol
  import opened SenderInvariant
  import opened SenderSteps
  import opened SenderTheorems

  /** A bound on the steps a task still has to take: two attempts at its frame and a few steps around
      them. */
  function TaskWork(task: Task): nat {
    var n := |task.job.data| + 4;
    match task.phase
    case Waiting => 2 * n + 6
    case Connecting(false) => 2 * n + 5
    case Writing(false, pos) => 2 * n + 4 - (if pos <= n then pos else n)
    case Connecting(true) => n + 3
    case Writing(true, pos) => n + 2 - (if pos <= n then pos else n)
    case Returned(_) => 1
    case Finished(_) => 0
  }

  function TasksWork(tasks: seq<Task>): nat {
    if tasks == [] then 0 else TasksWork(tasks[..|tasks| - 1]) + TaskWork(tasks[|tasks| - 1])
  }

  function QueueWork(queue: seq<Job>): nat {
    if queue == [] then 0 else 2 * |queue[0].data| + 15 + QueueWork(queue[1..])
  }

  function Work(s: State): nat {
    TasksWork(s.tasks) + QueueWork(s.queue) + |s.evictions|
  }

  lemma {:induction false} TasksWorkUpdate(tasks: seq<Task>, t: nat, task: Task)
    requires t < |tasks|
    ensures TasksWork(tasks[t := task]) + TaskWork(tasks[t]) == TasksWork(tasks) + TaskWork(task)
  {
    hide TaskWork;
    var last := |tasks| - 1;
    if t < last {
      TasksWorkUpdate(tasks[..last], t, task);
      assert tasks[t := task][..last] == tasks[..last][t := task];
    } else {
      assert tasks[t := task][..last] == tasks[..last];
    }
  }

  lemma TasksWorkAppend(tasks: seq<Task>, task: Task)
    ensures TasksWork(tasks + [task]) == TasksWork(tasks) + TaskWork(task)
  {
    assert (tasks + [task])[..|tasks|] == tasks;
  }

  /** The task whose step an event is. */
  function Mover(e: Event): Option<nat> {
    match e
    case Lock(t) => Some(t)
    case Connect(t, _) => Some(t)
    case Write(t, _) => Some(t)
    case WriteFail(t) => Some(t)
    case Finish(t) => Some(t)
    case _ => None
  }

  lemma MoverDoesWork(s: State, e: Event, t: nat)
    requires InRange(s) && Enabled(s, e) && Mover(e) == Some(t)
    requires t < |s.tasks| && (s.tasks[t].phase.Writing? ==> s.tasks[t].phase.pos < |FrameOf(s.tasks[t])|)
    ensures var s' := Next(s, e);
            && s'.queue == s.queue && s'.evictions == s.evictions
            && |s'.tasks| == |s.tasks| && s'.tasks == s.tasks[t := s'.tasks[t]]
            && TaskWork(s'.tasks[t]) < TaskWork(s.tasks[t])
  {
    FrameNotEmpty(s.tasks[t]);
    hide GetOrInsert, Remove, Holds, Valid, FrameOf;
    match e
    case Lock(_) =>
    case Connect(_, _) =>
    case Write(_, n) => WriteStaysInFrame(s.tasks[t], s.tasks[t].phase.pos);
    case WriteFail(_) =>
    case Finish(_) => ConnectionCanRelease(s, s.tasks[t].conn);
  }

  lemma DispatchDoesWork(s: State)
    requires InRange(s) && s.queue != []
    ensures Work(DispatchNext(s)) < Work(s)
  {
    hide GetOrInsert, Holds, Valid, TaskWork;
    SpawnedCanRelease(s);
    var conn := GetOrInsert(s.cache, s.queue[0].address, |s.conns|).conn;
    TasksWorkAppend(s.tasks, Task(s.queue[0], conn, Waiting));
    WaitingWork(s.queue[0], conn);
  }

  lemma EvictDoesWork(s: State)
    requires InRange(s) && s.evictions != []
    ensures Work(EvictNext(s)) < Work(s)
  {
    RemoveEffect(s.cache, s.evictions[0]);
    hide Remove, Holds, Valid, TaskWork;
  }

  lemma ProgressDoesWork(s: State, e: Event)
    requires InRange(s) && StreamsInv(s) && Enabled(s, e) && IsProgress(e)
    ensures Work(Next(s, e)) < Work(s)
  {
    hide InRange, TaskWork, FrameOf, StreamInv, Work, DispatchNext, EvictNext;
    match e
    case Dispatch => DispatchDoesWork(s);
    case Evict => EvictDoesWork(s);
    case _ => MoverLowersWork(s, e);
  }

  lemma MoverLowersWork(s: State, e: Event)
    requires InRange(s) && StreamsInv(s) && Enabled(s, e) && Mover(e).Some?
    ensures Work(Next(s, e)) < Work(s)
  {
    hide InRange, TaskWork, FrameOf, StreamInv, Next;
    var t := Mover(e).value;
    MoverDoesWork(s, e, t);
    TasksWorkUpdate(s.tasks, t, Next(s, e).tasks[t]);
  }

  lemma WaitingWork(job: Job, c: nat)
    ensures TaskWork(Task(job, c, Waiting)) == 2 * |job.data| + 14
  {
  }

  /** Nobody asks for another send or eviction. The network still breaks streams as it likes. */
  ghost predicate NoRequests(events: seq<Event>) {
    forall i :: 0 <= i < |events| ==> !events[i].Enqueue? && !events[i].RequestEviction?
  }

  /** How many of the events are steps of the program. */
  function ProgressCount(events: seq<Event>): nat {
    if events == [] then 0 else (if IsProgress(events[0]) then 1 else 0) + ProgressCount(events[1..])
  }

  lemma InvHasParts(s: State)
    requires Inv(s)
    ensures InRange(s) && StreamsInv(s)
  {
    hide InRange, CacheInv, RefsInv, LockInv, SocketInv, StreamsInv, SentInv;
  }

  lemma BreakIsNoWork(s: State, k: nat)
    requires InRange(s) && Enabled(s, Break(k))
    ensures Work(Next(s, Break(k))) == Work(s)
  {
    hide InRange, TasksWork, QueueWork;
  }

  /** One event of such a run: the program's own steps use work up, and the network's add none. */
  lemma EventBound(s: State, e: Event)
    requires Inv(s) && Enabled(s, e) && !e.Enqueue? && !e.RequestEviction?
    ensures InRange(s) && Work(Next(s, e)) + (if IsProgress(e) then 1 else 0) <= Work(s)
  {
    InvHasParts(s);
    hide Inv, Enabled, Next, Work, InRange, StreamsInv;
    if e.Break? {
      BreakIsNoWork(s, e.k);
    } else {
      ProgressDoesWork(s, e);
    }
  }

  lemma {:induction false} ProgressIsBounded(s: State, events: seq<Event>)
    requires Inv(s) && CanRun(s, events) && NoRequests(events)
    ensures ProgressCount(events) + Work(Run(s, events)) <= Work(s)
    decreases |events|
  {
    hide Inv, Enabled, Next, Work, InRange, IsProgress;
    if events != [] {
      assert NoRequests(events[1..]);
      StepKeepsInv(s, events[0]);
      EventBound(s, events[0]);
      ProgressIsBounded(Next(s, events[0]), events[1..]);
    }
  }

  /** From any reachable state, a run without new requests holds at most `Work` steps of the program,
      however often the network breaks a stream between them; and as long as it has not emptied the queues
      and finished every task, the program can take another, which fails only on a stream that has failed:
      every send settles. */
  lemma EverySendSettles(s: State, cache: Cache, before: seq<Event>, events: seq<Event>)
    requires ReachedBy(s, cache, before) && CanRun(s, events) && NoRequests(events)
    ensures ProgressCount(events) <= Work(s)
    ensures WorkLeft(Run(s, events)) ==>
              exists e :: IsProgress(e) && Enabled(Run(s, events), e) && IsHealthy(Run(s, events), e)
  {
    hide Inv, Enabled, Work, InRange, IsProgress, IsHealthy, ReachedBy, CanRun, Run, WorkLeft;
    ReachedInv(s, cache, before);
    ProgressIsBounded(s, events);
    SenderSteps.RunKeepsInv(s, events);
    if WorkLeft(Run(s, events)) {
      var e := WorkCanGoOn(Run(s, events));
    }
  }
}
