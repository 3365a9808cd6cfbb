/** The sending side as a step system: the dispatcher, the evictor and every send task interleave, and the
    network accepts bytes, refuses connections and breaks streams as it likes. */
module SenderProtocol {
  import opened Bytes
  import opened Framing
  import opened Outbound
  import opened ConnectionCache

  datatype SendResult = SendOk | ConnectionFailed | SendFailed

  /** Where a send task is. From `Connecting` and through `Writing` it holds its connection's mutex;
      `pos` counts the bytes of its frame that this stream has accepted in this attempt. */
  datatype Phase =
    | Waiting
    | Connecting(retry: bool)
    | Writing(retry: bool, pos: nat)
    | Returned(result: SendResult)
    | Finished(result: SendResult)
  {
    predicate Holding() { Connecting? || Writing? }

    predicate Succeeded() { (Returned? || Finished?) && result == SendOk }
  }

  datatype Task = Task(job: Job, conn: nat, phase: Phase)

  /** A shared connection. `refs` is its reference count; at zero it is dropped. */
  datatype Conn = Conn(address: SocketAddr, holder: Option<nat>, socket: Option<nat>, refs: nat)

  /** A socket is open, or was let go after a failed write, or was shut down with its connection. */
  datatype Fate = Open | LetGo | ShutDown

  /** One TCP stream: the bytes it accepted, and whether it has failed, which it then does for good.
      `sent` is history: the tasks whose frames it accepted completely, in order. */
  datatype Sock = Sock(conn: nat, stream: bytes, broken: bool, fate: Fate, sent: seq<nat>)

  datatype State = State(
    queue: seq<Job>, evictions: seq<SocketAddr>, cache: Cache,
    tasks: seq<Task>, conns: seq<Conn>, socks: seq<Sock>)

  function Init(cache: Cache): State {
    State([], [], cache, [], [], [])
  }

  predicate EmptyCache(cache: Cache) {
    cache == HashCache(map[]) || (cache.LruCache? && 0 < cache.capacity && cache.entries == [])
  }

  datatype Event =
    | Enqueue(job: Job)
    | RequestEviction(address: SocketAddr)
    | Dispatch
    | Evict
    | Lock(t: nat)
    | Connect(t: nat, ok: bool)
    | Write(t: nat, n: nat)
    | WriteFail(t: nat)
    | Finish(t: nat)
    | Break(k: nat)

  /** Numbers refer to things that exist. */
  ghost predicate InRange(s: State) {
    && Valid(s.cache)
    && (forall t :: 0 <= t < |s.tasks| ==> s.tasks[t].conn < |s.conns|)
    && (forall c :: 0 <= c < |s.conns| ==> s.conns[c].socket.Some? ==> s.conns[c].socket.value < |s.socks|)
    && (forall a: SocketAddr, c: nat :: Holds(s.cache, a, c) ==> c < |s.conns|)
  }

  predicate IsTask(s: State, t: nat) {
    t < |s.tasks| && s.tasks[t].conn < |s.conns|
  }

  function ConnOf(s: State, t: nat): Conn
    requires IsTask(s, t)
  {
    s.conns[s.tasks[t].conn]
  }

  predicate HasSocket(s: State, t: nat) {
    IsTask(s, t) && ConnOf(s, t).socket.Some? && ConnOf(s, t).socket.value < |s.socks|
  }

  function SockOf(s: State, t: nat): Sock
    requires HasSocket(s, t)
  {
    s.socks[ConnOf(s, t).socket.value]
  }

  function FrameOf(task: Task): bytes {
    Frame(task.job.data)
  }

  /** The length and the body are two writes: a write stops at the end of its own buffer. */
  function WriteEnd(task: Task, pos: nat): nat {
    if pos < 4 then 4 else |FrameOf(task)|
  }

  predicate Enabled(s: State, e: Event) {
    match e
    case Enqueue(_) => true
    case RequestEviction(_) => true
    case Dispatch => s.queue != []
    case Evict => s.evictions != []
    case Lock(t) => IsTask(s, t) && s.tasks[t].phase.Waiting? && ConnOf(s, t).holder.None?
    case Connect(t, _) => IsTask(s, t) && s.tasks[t].phase.Connecting?
    case Write(t, n) =>
      && HasSocket(s, t) && s.tasks[t].phase.Writing? && !SockOf(s, t).broken
      && 0 < n && s.tasks[t].phase.pos + n <= WriteEnd(s.tasks[t], s.tasks[t].phase.pos)
    case WriteFail(t) => HasSocket(s, t) && s.tasks[t].phase.Writing?
    case Finish(t) => IsTask(s, t) && s.tasks[t].phase.Returned?
    case Break(k) => k < |s.socks|
  }

  // ---- Steps ---------------------------------------------------------------

  function SetPhase(s: State, t: nat, phase: Phase): State
    requires t < |s.tasks|
  {
    s.(tasks := s.tasks[t := s.tasks[t].(phase := phase)])
  }

  function SetConn(s: State, c: nat, conn: Conn): State
    requires c < |s.conns|
  {
    s.(conns := s.conns[c := conn])
  }

  function SetSock(s: State, k: nat, sock: Sock): State
    requires k < |s.socks|
  {
    s.(socks := s.socks[k := sock])
  }

  /** Drops one reference; the last one drops the connection, which shuts its socket down. */
  function Release(s: State, c: nat): State
    requires c < |s.conns|
    requires s.conns[c].socket.Some? ==> s.conns[c].socket.value < |s.socks|
  {
    var conn := s.conns[c];
    if conn.refs > 1 then SetConn(s, c, conn.(refs := conn.refs - 1))
    else
      var dropped := SetConn(s, c, conn.(refs := 0, socket := None));
      match conn.socket
      case None => dropped
      case Some(k) => SetSock(dropped, k, s.socks[k].(fate := ShutDown))
  }

  /** Takes the next job, gets its connection from the cache and spawns its task. */
  function Spawned(s: State): State
    requires InRange(s) && s.queue != []
  {
    var job := s.queue[0];
    var r := GetOrInsert(s.cache, job.address, |s.conns|);
    GetOrInsertEffect(s.cache, job.address, |s.conns|);
    HasIsHolds(s.cache, job.address);
    var conns := if r.conn == |s.conns| then s.conns + [Conn(job.address, None, None, 1)] else s.conns;
    State(s.queue[1..], s.evictions, r.cache, s.tasks + [Task(job, r.conn, Waiting)],
          conns[r.conn := conns[r.conn].(refs := conns[r.conn].refs + 1)], s.socks)
  }

  function DispatchNext(s: State): State
    requires InRange(s) && s.queue != []
  {
    GetOrInsertEffect(s.cache, s.queue[0].address, |s.conns|);
    match GetOrInsert(s.cache, s.queue[0].address, |s.conns|).evicted
    case None => Spawned(s)
    case Some(entry) => Release(Spawned(s), entry.conn)
  }

  function EvictNext(s: State): State
    requires InRange(s) && s.evictions != []
  {
    RemoveEffect(s.cache, s.evictions[0]);
    var r := Remove(s.cache, s.evictions[0]);
    var next := s.(evictions := s.evictions[1..], cache := r.cache);
    match r.removed
    case None => next
    case Some(c) => Release(next, c)
  }

  function LockNext(s: State, t: nat): State
    requires IsTask(s, t)
  {
    var conn := ConnOf(s, t);
    SetPhase(SetConn(s, s.tasks[t].conn, conn.(holder := Some(t))), t,
             if conn.socket.Some? then Writing(false, 0) else Connecting(false))
  }

  /** `send` returns: the mutex guard is dropped with it. */
  function Return(s: State, t: nat, result: SendResult): State
    requires IsTask(s, t)
  {
    SetPhase(SetConn(s, s.tasks[t].conn, ConnOf(s, t).(holder := None)), t, Returned(result))
  }

  function ConnectNext(s: State, t: nat, ok: bool): State
    requires IsTask(s, t) && s.tasks[t].phase.Connecting?
  {
    if ok then
      var sock := Sock(s.tasks[t].conn, [], false, Open, []);
      SetPhase(SetConn(s.(socks := s.socks + [sock]), s.tasks[t].conn, ConnOf(s, t).(socket := Some(|s.socks|))), t,
               Writing(s.tasks[t].phase.retry, 0))
    else Return(s, t, ConnectionFailed)
  }

  /** The stream accepts n more bytes; with the last byte of the body, `send` returns. */
  function WriteNext(s: State, t: nat, n: nat): State
    requires HasSocket(s, t) && s.tasks[t].phase.Writing?
    requires s.tasks[t].phase.pos + n <= |FrameOf(s.tasks[t])|
  {
    var pos := s.tasks[t].phase.pos;
    var frame := FrameOf(s.tasks[t]);
    var k := ConnOf(s, t).socket.value;
    var whole := pos + n == |frame|;
    var sock := s.socks[k].(stream := s.socks[k].stream + frame[pos..pos + n],
                            sent := s.socks[k].sent + if whole then [t] else []);
    var next := SetSock(s, k, sock);
    if whole then Return(next, t, SendOk) else SetPhase(next, t, Writing(s.tasks[t].phase.retry, pos + n))
  }

  /** A write fails. The first time, the socket is let go and a new one is tried; the second time, `send`
      returns and leaves the broken socket in the connection. */
  function WriteFailNext(s: State, t: nat): State
    requires HasSocket(s, t) && s.tasks[t].phase.Writing?
  {
    var k := ConnOf(s, t).socket.value;
    if s.tasks[t].phase.retry then
      Return(SetSock(s, k, s.socks[k].(broken := true)), t, SendFailed)
    else
      SetPhase(SetConn(SetSock(s, k, s.socks[k].(broken := true, fate := LetGo)),
                       s.tasks[t].conn, ConnOf(s, t).(socket := None)),
               t, Connecting(true))
  }

  /** The result is reported and the task ends, dropping its reference. */
  function FinishNext(s: State, t: nat): State
    requires InRange(s) && IsTask(s, t) && s.tasks[t].phase.Returned?
  {
    Release(SetPhase(s, t, Finished(s.tasks[t].phase.result)), s.tasks[t].conn)
  }

  function Next(s: State, e: Event): State
    requires InRange(s) && Enabled(s, e)
  {
    match e
    case Enqueue(job) => s.(queue := s.queue + [job])
    case RequestEviction(a) => s.(evictions := s.evictions + [a])
    case Dispatch => DispatchNext(s)
    case Evict => EvictNext(s)
    case Lock(t) => LockNext(s, t)
    case Connect(t, ok) => ConnectNext(s, t, ok)
    case Write(t, n) => WriteNext(s, t, n)
    case WriteFail(t) => WriteFailNext(s, t)
    case Finish(t) => FinishNext(s, t)
    case Break(k) => SetSock(s, k, s.socks[k].(broken := true))
  }

  // ---- Runs ----------------------------------------------------------------

  /** The events can happen one after the other from s. */
  ghost predicate CanRun(s: State, events: seq<Event>)
    decreases |events|
  {
    InRange(s) && (events == [] || (Enabled(s, events[0]) && CanRun(Next(s, events[0]), events[1..])))
  }

  function Run(s: State, events: seq<Event>): State
    requires CanRun(s, events)
    decreases |events|
  {
    if events == [] then s else Run(Next(s, events[0]), events[1..])
  }
}
