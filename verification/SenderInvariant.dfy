/** What every step of the sending side keeps. */
module SenderInvariant {
  import opened Bytes
  import opened Framing
  import opened Outbound
  import opened ConnectionCache
  import opened SenderProtocol

  // ---- The invariant -------------------------------------------------------

  ghost predicate CacheInv(s: State) {
    forall a: SocketAddr, c: nat :: Holds(s.cache, a, c) ==> c < |s.conns| && s.conns[c].address == a
  }

  function OneIf(b: bool): nat {
    if b then 1 else 0
  }

  predicate Uses(task: Task, c: nat) {
    task.conn == c && !task.phase.Finished?
  }

  /** How many unfinished tasks have connection c. */
  function Users(tasks: seq<Task>, c: nat): nat {
    if tasks == [] then 0 else Users(tasks[..|tasks| - 1], c) + OneIf(Uses(tasks[|tasks| - 1], c))
  }

  predicate Cached(s: State, c: nat)
    requires c < |s.conns|
  {
    Holds(s.cache, s.conns[c].address, c)
  }

  /** Each reference count is the number of holders: the cache, the unfinished tasks, and in the middle of
      a step, one reference that is about to be dropped. */
  ghost predicate RefsInv(s: State, extra: Option<nat>) {
    forall c :: 0 <= c < |s.conns| ==>
      s.conns[c].refs == OneIf(Cached(s, c)) + Users(s.tasks, c) + OneIf(extra == Some(c))
  }

  /** The mutex: whoever is between lock and return is the holder, and the holder is there. */
  ghost predicate LockInv(s: State) {
    && (forall t :: 0 <= t < |s.tasks| ==> s.tasks[t].phase.Holding() ==>
          s.tasks[t].conn < |s.conns| && s.conns[s.tasks[t].conn].holder == Some(t))
    && (forall c :: 0 <= c < |s.conns| && s.conns[c].holder.Some? ==> s.conns[c].holder.value < |s.tasks|)
    && (forall c, t {:trigger s.conns[c], s.tasks[t]} ::
          0 <= c < |s.conns| && 0 <= t < |s.tasks| && s.conns[c].holder == Some(t) ==>
          s.tasks[t].conn == c && s.tasks[t].phase.Holding())
  }

  ghost predicate OwnSocketInv(s: State) {
    && (forall c :: 0 <= c < |s.conns| && s.conns[c].socket.Some? ==> s.conns[c].socket.value < |s.socks|)
    && (forall c, k {:trigger s.conns[c], s.socks[k]} ::
          0 <= c < |s.conns| && 0 <= k < |s.socks| && s.conns[c].socket == Some(k) ==>
          s.socks[k].conn == c && s.socks[k].fate.Open?)
  }

  /** A socket is open exactly while its connection has it, and shut down only with its connection. */
  ghost predicate FateInv(s: State) {
    forall k :: 0 <= k < |s.socks| ==>
      && s.socks[k].conn < |s.conns|
      && (s.socks[k].fate.Open? ==> s.conns[s.socks[k].conn].socket == Some(k))
      && (s.socks[k].fate.LetGo? ==> s.socks[k].broken)
      && (s.socks[k].fate.ShutDown? ==> s.conns[s.socks[k].conn].refs == 0)
  }

  ghost predicate DroppedInv(s: State) {
    forall c :: 0 <= c < |s.conns| ==> s.conns[c].refs == 0 ==> s.conns[c].socket.None?
  }

  /** A task that connects finds no socket in its connection, and one that writes finds one. */
  ghost predicate PhaseInv(s: State) {
    forall t :: 0 <= t < |s.tasks| ==>
      && s.tasks[t].conn < |s.conns|
      && (s.tasks[t].phase.Connecting? ==> s.conns[s.tasks[t].conn].socket.None?)
      && (s.tasks[t].phase.Writing? ==> s.conns[s.tasks[t].conn].socket.Some?)
  }

  ghost predicate SocketInv(s: State) {
    OwnSocketInv(s) && FateInv(s) && DroppedInv(s) && PhaseInv(s)
  }

  predicate StrictPrefix(p: bytes, whole: bytes) {
    p < whole
  }

  /** Nothing, or the beginning but not the whole of some task's frame. */
  ghost predicate PartOfOne(tasks: seq<Task>, tail: bytes) {
    tail == [] || exists t :: 0 <= t < |tasks| && StrictPrefix(tail, FrameOf(tasks[t]))
  }

  predicate ValidSent(tasks: seq<Task>, sent: seq<nat>) {
    forall i :: 0 <= i < |sent| ==> sent[i] < |tasks|
  }

  function DataSent(tasks: seq<Task>, sent: seq<nat>): (ds: seq<bytes>)
    requires ValidSent(tasks, sent)
    ensures |ds| == |sent|
  {
    seq(|sent|, i requires 0 <= i < |sent| => tasks[sent[i]].job.data)
  }

  function TailOf(tasks: seq<Task>, sock: Sock): bytes
    requires ValidSent(tasks, sock.sent)
  {
    var n := |FramesOf(DataSent(tasks, sock.sent))|;
    if n <= |sock.stream| then sock.stream[n..] else []
  }

  /** The tail that the holder of the mutex has written so far; nobody else leaves one on a stream that
      has not failed. */
  function WorkingTail(s: State, k: nat): bytes
    requires k < |s.socks|
  {
    var c := s.socks[k].conn;
    if c < |s.conns| && s.conns[c].socket == Some(k) && s.conns[c].holder.Some?
       && s.conns[c].holder.value < |s.tasks| && s.tasks[s.conns[c].holder.value].phase.Writing?
    then
      var task := s.tasks[s.conns[c].holder.value];
      if task.phase.pos <= |FrameOf(task)| then FrameOf(task)[..task.phase.pos] else []
    else []
  }

  /** The stream is the frames sent on it and then a tail that is part of one frame. */
  ghost predicate StreamInv(s: State, k: nat)
    requires k < |s.socks|
  {
    var sock := s.socks[k];
    && ValidSent(s.tasks, sock.sent)
    && sock.stream == FramesOf(DataSent(s.tasks, sock.sent)) + TailOf(s.tasks, sock)
    && PartOfOne(s.tasks, TailOf(s.tasks, sock))
    && (!sock.broken ==> TailOf(s.tasks, sock) == WorkingTail(s, k))
  }

  ghost predicate StreamsInv(s: State) {
    && (forall t :: 0 <= t < |s.tasks| ==> s.tasks[t].phase.Writing? ==>
          s.tasks[t].phase.pos < |FrameOf(s.tasks[t])|)
    && (forall k :: 0 <= k < |s.socks| ==> StreamInv(s, k))
  }

  /** How many times the frame of task t is completely on some stream. */
  function Copies(socks: seq<Sock>, t: nat): nat {
    if socks == [] then 0 else Copies(socks[..|socks| - 1], t) + multiset(socks[|socks| - 1].sent)[t]
  }

  /** A frame is completely on the streams once if its task succeeded, and not at all otherwise. */
  ghost predicate SentInv(s: State) {
    forall t: nat :: Copies(s.socks, t) == OneIf(t < |s.tasks| && s.tasks[t].phase.Succeeded())
  }

  ghost predicate InvWith(s: State, extra: Option<nat>) {
    InRange(s) && CacheInv(s) && RefsInv(s, extra) && LockInv(s) && SocketInv(s) && StreamsInv(s) && SentInv(s)
  }

  ghost predicate Inv(s: State) {
    InvWith(s, None)
  }

  // ---- Counting lemmas -----------------------------------------------------

  lemma {:induction false} UsersUpdate(tasks: seq<Task>, t: nat, task: Task, c: nat)
    requires t < |tasks|
    ensures Users(tasks[t := task], c) + OneIf(Uses(tasks[t], c)) == Users(tasks, c) + OneIf(Uses(task, c))
  {
    var last := |tasks| - 1;
    if t < last {
      UsersUpdate(tasks[..last], t, task, c);
      assert tasks[t := task][..last] == tasks[..last][t := task];
    } else {
      assert tasks[t := task][..last] == tasks[..last];
    }
  }

  lemma UsersAppend(tasks: seq<Task>, task: Task, c: nat)
    ensures Users(tasks + [task], c) == Users(tasks, c) + OneIf(Uses(task, c))
  {
    assert (tasks + [task])[..|tasks|] == tasks;
  }

  lemma {:induction false} UserCounts(tasks: seq<Task>, t: nat, c: nat)
    requires t < |tasks| && Uses(tasks[t], c)
    ensures Users(tasks, c) > 0
  {
    var last := |tasks| - 1;
    if t < last {
      UserCounts(tasks[..last], t, c);
    }
  }

  lemma {:induction false} NoUsers(tasks: seq<Task>, c: nat)
    requires forall t :: 0 <= t < |tasks| ==> tasks[t].conn != c
    ensures Users(tasks, c) == 0
  {
    if tasks != [] {
      NoUsers(tasks[..|tasks| - 1], c);
    }
  }

  lemma {:induction false} CopiesUpdate(socks: seq<Sock>, k: nat, sock: Sock, t: nat)
    requires k < |socks|
    ensures Copies(socks[k := sock], t) + multiset(socks[k].sent)[t] == Copies(socks, t) + multiset(sock.sent)[t]
  {
    var last := |socks| - 1;
    if k < last {
      CopiesUpdate(socks[..last], k, sock, t);
      assert socks[k := sock][..last] == socks[..last][k := sock];
    } else {
      assert socks[k := sock][..last] == socks[..last];
    }
  }

  lemma CopiesAppend(socks: seq<Sock>, sock: Sock, t: nat)
    ensures Copies(socks + [sock], t) == Copies(socks, t) + multiset(sock.sent)[t]
  {
    assert (socks + [sock])[..|socks|] == socks;
  }
}
