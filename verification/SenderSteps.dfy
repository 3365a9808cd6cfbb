/** Each step of the sending side keeps the invariant. */
module SenderSteps {
  import opened Bytes
  import opened Framing
  import opened ConnectionCache
  import opened SenderProtocol
  import opened SenderInvariant

  /** Tasks are only added, and keep their job and their connection. */
  ghost predicate Extends(tasks: seq<Task>, tasks': seq<Task>) {
    && |tasks| <= |tasks'|
    && forall t :: 0 <= t < |tasks| ==> tasks'[t].job == tasks[t].job && tasks'[t].conn == tasks[t].conn
  }

  /** A step that leaves a stream and whoever is working on it alone. */
  lemma StreamKept(s: State, s': State, k: nat)
    requires k < |s.socks| && k < |s'.socks| && StreamInv(s, k)
    requires Extends(s.tasks, s'.tasks)
    requires s'.socks[k].stream == s.socks[k].stream && s'.socks[k].sent == s.socks[k].sent
    requires s.socks[k].broken ==> s'.socks[k].broken
    requires !s'.socks[k].broken ==> WorkingTail(s', k) == WorkingTail(s, k)
    ensures StreamInv(s', k)
  {
    hide WorkingTail, FramesOf, Frame;
    var sock := s.socks[k];
    assert DataSent(s'.tasks, sock.sent) == DataSent(s.tasks, sock.sent);
    var tail := TailOf(s.tasks, sock);
    if tail != [] {
      var t :| 0 <= t < |s.tasks| && StrictPrefix(tail, FrameOf(s.tasks[t]));
      assert StrictPrefix(tail, FrameOf(s'.tasks[t]));
    }
  }

  /** A step of one task that is still unfinished after it: no connection gains or loses a reference. */
  ghost predicate TaskStep(s: State, s': State, t: nat) {
    && s'.cache == s.cache
    && t < |s.tasks| == |s'.tasks|
    && (forall i :: 0 <= i < |s.tasks| ==> i != t ==> s'.tasks[i] == s.tasks[i])
    && s'.tasks[t].job == s.tasks[t].job && s'.tasks[t].conn == s.tasks[t].conn
    && !s.tasks[t].phase.Finished? && !s'.tasks[t].phase.Finished?
    && |s'.conns| == |s.conns| && |s.socks| <= |s'.socks|
    && (forall c :: 0 <= c < |s.conns| ==> c != s.tasks[t].conn ==> s'.conns[c] == s.conns[c])
    && (forall c :: 0 <= c < |s.conns| ==>
          s'.conns[c].refs == s.conns[c].refs && s'.conns[c].address == s.conns[c].address)
  }

  lemma TaskStepKeepsCounts(s: State, s': State, t: nat)
    requires CacheInv(s) && RefsInv(s, None) && TaskStep(s, s', t)
    ensures CacheInv(s') && RefsInv(s', None)
  {
    forall c | 0 <= c < |s.conns|
      ensures Users(s'.tasks, c) == Users(s.tasks, c)
    {
      UsersUpdate(s.tasks, t, s'.tasks[t], c);
      assert s'.tasks == s.tasks[t := s'.tasks[t]];
    }
  }

  lemma TaskStepKeeps(s: State, s': State, t: nat)
    requires InRange(s) && CacheInv(s) && RefsInv(s, None) && TaskStep(s, s', t) && SocketInv(s')
    ensures InRange(s') && CacheInv(s') && RefsInv(s', None)
  {
    hide InRange, CacheInv, RefsInv, SocketInv, TaskStep;
    TaskStepKeepsCounts(s, s', t);
    TaskStepKeepsRange(s, s', t);
  }

  lemma TaskStepKeepsRange(s: State, s': State, t: nat)
    requires InRange(s) && TaskStep(s, s', t) && SocketInv(s')
    ensures InRange(s')
  {
    hide Valid, Holds;
  }

  lemma SentKept(s: State, s': State)
    requires SentInv(s) && |s'.tasks| >= |s.tasks| && s'.socks == s.socks
    requires forall t :: 0 <= t < |s.tasks| ==> s'.tasks[t].phase.Succeeded() == s.tasks[t].phase.Succeeded()
    requires forall t :: |s.tasks| <= t < |s'.tasks| ==> !s'.tasks[t].phase.Succeeded()
    ensures SentInv(s')
  {
  }

  lemma UnfinishedHasReference(s: State, t: nat, extra: Option<nat>)
    requires RefsInv(s, extra) && IsTask(s, t) && !s.tasks[t].phase.Finished?
    ensures ConnOf(s, t).refs > OneIf(extra == Some(s.tasks[t].conn))
  {
    hide Holds;
    UserCounts(s.tasks, t, s.tasks[t].conn);
  }

  // ---- Requests and the network -------------------------------------------

  lemma RequestKeepsRest(s: State, s': State)
    requires InRange(s) && CacheInv(s) && RefsInv(s, None) && LockInv(s)
    requires s'.cache == s.cache && s'.tasks == s.tasks && s'.conns == s.conns && s'.socks == s.socks
    ensures InRange(s') && CacheInv(s') && RefsInv(s', None) && LockInv(s')
  {
    hide Users, Holds, Valid;
  }

  lemma RequestKeeps(s: State, s': State)
    requires Inv(s)
    requires s'.cache == s.cache && s'.tasks == s.tasks && s'.conns == s.conns && s'.socks == s.socks
    ensures Inv(s')
  {
    hide InRange, CacheInv, RefsInv, LockInv, SocketInv, StreamsInv, SentInv;
    RequestKeepsRest(s, s');
    RequestKeepsStreams(s, s');
    SameSockets(s, s');
    SentKept(s, s');
  }

  lemma RequestKeepsStreams(s: State, s': State)
    requires StreamsInv(s)
    requires s'.cache == s.cache && s'.tasks == s.tasks && s'.conns == s.conns && s'.socks == s.socks
    ensures StreamsInv(s')
  {
    hide StreamInv, FrameOf;
    forall k | 0 <= k < |s.socks|
      ensures StreamInv(s', k)
    {
      StreamKept(s, s', k);
    }
  }

  lemma BreakKeepsStreams(s: State, b: nat)
    requires StreamsInv(s) && b < |s.socks|
    ensures StreamsInv(SetSock(s, b, s.socks[b].(broken := true)))
  {
    hide StreamInv, FrameOf;
    var s' := SetSock(s, b, s.socks[b].(broken := true));
    forall k | 0 <= k < |s.socks|
      ensures StreamInv(s', k)
    {
      StreamKept(s, s', k);
    }
  }

  lemma BreakKeepsSent(s: State, b: nat)
    requires SentInv(s) && b < |s.socks|
    ensures SentInv(SetSock(s, b, s.socks[b].(broken := true)))
  {
    forall t: nat
      ensures Copies(SetSock(s, b, s.socks[b].(broken := true)).socks, t) == Copies(s.socks, t)
    {
      CopiesUpdate(s.socks, b, s.socks[b].(broken := true), t);
    }
  }

  lemma BreakKeepsSockets(s: State, b: nat)
    requires SocketInv(s) && b < |s.socks|
    ensures SocketInv(SetSock(s, b, s.socks[b].(broken := true)))
  {
  }

  lemma BreakKeepsRest(s: State, b: nat)
    requires InRange(s) && CacheInv(s) && RefsInv(s, None) && LockInv(s) && b < |s.socks|
    ensures var s' := SetSock(s, b, s.socks[b].(broken := true));
            InRange(s') && CacheInv(s') && RefsInv(s', None) && LockInv(s')
  {
    hide Users, Holds, Valid;
  }

  lemma BreakKeeps(s: State, b: nat)
    requires Inv(s) && b < |s.socks|
    ensures Inv(SetSock(s, b, s.socks[b].(broken := true)))
  {
    hide InRange, CacheInv, RefsInv, LockInv, SocketInv, StreamsInv, SentInv;
    BreakKeepsStreams(s, b);
    BreakKeepsSent(s, b);
    BreakKeepsSockets(s, b);
    BreakKeepsRest(s, b);
  }

  // ---- Taking the mutex ----------------------------------------------------

  lemma LockKeepsStreams(s: State, t: nat)
    requires StreamsInv(s) && LockInv(s) && SocketInv(s) && Enabled(s, Lock(t))
    ensures StreamsInv(LockNext(s, t))
  {
    hide StreamInv, FrameOf;
    var s' := LockNext(s, t);
    assert 0 < |FrameOf(s'.tasks[t])| by { FrameNotEmpty(s'.tasks[t]); }
    forall k | 0 <= k < |s.socks|
      ensures StreamInv(s', k)
    {
      StreamKept(s, s', k);
    }
  }

  lemma FrameNotEmpty(task: Task)
    ensures |FrameOf(task)| == |task.job.data| + 4
  {
    hide Be32;
  }

  lemma LockIsTaskStep(s: State, t: nat)
    requires Enabled(s, Lock(t))
    ensures TaskStep(s, LockNext(s, t), t)
    ensures LockNext(s, t).socks == s.socks && !LockNext(s, t).tasks[t].phase.Succeeded()
  {
  }

  lemma LockKeepsLocks(s: State, t: nat)
    requires LockInv(s) && Enabled(s, Lock(t))
    ensures LockInv(LockNext(s, t))
  {
  }

  lemma LockKeepsSockets(s: State, t: nat)
    requires SocketInv(s) && Enabled(s, Lock(t))
    ensures SocketInv(LockNext(s, t))
  {
  }

  lemma LockKeeps(s: State, t: nat)
    requires Inv(s) && Enabled(s, Lock(t))
    ensures Inv(LockNext(s, t))
  {
    hide InRange, CacheInv, RefsInv, LockInv, SocketInv, StreamsInv, SentInv, LockNext;
    LockIsTaskStep(s, t);
    LockKeepsLocks(s, t);
    LockKeepsSockets(s, t);
    LockKeepsStreams(s, t);
    TaskStepKeeps(s, LockNext(s, t), t);
    SentKept(s, LockNext(s, t));
  }

  // ---- Returning without success ------------------------------------------

  ghost predicate CanFail(s: State, t: nat, result: SendResult) {
    && IsTask(s, t) && result != SendOk
    && (s.tasks[t].phase.Connecting? || (s.tasks[t].phase.Writing? && HasSocket(s, t) && SockOf(s, t).broken))
  }

  lemma ReturnIsTaskStep(s: State, t: nat, result: SendResult)
    requires CanFail(s, t, result)
    ensures TaskStep(s, Return(s, t, result), t)
    ensures Return(s, t, result).socks == s.socks && !Return(s, t, result).tasks[t].phase.Succeeded()
    ensures !s.tasks[t].phase.Succeeded()
  {
  }

  lemma ReturnKeepsLocks(s: State, t: nat, result: SendResult)
    requires LockInv(s) && IsTask(s, t) && s.tasks[t].phase.Holding()
    ensures LockInv(Return(s, t, result))
  {
  }

  lemma ReturnKeepsSockets(s: State, t: nat, result: SendResult)
    requires SocketInv(s) && IsTask(s, t)
    ensures SocketInv(Return(s, t, result))
  {
  }

  lemma ReturnKeepsStreams(s: State, t: nat, result: SendResult)
    requires StreamsInv(s) && LockInv(s) && SocketInv(s) && CanFail(s, t, result)
    ensures StreamsInv(Return(s, t, result))
  {
    hide StreamInv, FrameOf;
    var s' := Return(s, t, result);
    forall k | 0 <= k < |s.socks|
      ensures StreamInv(s', k)
    {
      StreamKept(s, s', k);
    }
  }

  lemma ReturnKeeps(s: State, t: nat, result: SendResult)
    requires Inv(s) && CanFail(s, t, result)
    ensures Inv(Return(s, t, result))
  {
    hide InRange, CacheInv, RefsInv, LockInv, SocketInv, StreamsInv, SentInv;
    assert IsTask(s, t) && s.tasks[t].phase.Holding();
    hide Return, CanFail;
    ReturnIsTaskStep(s, t, result);
    ReturnKeepsLocks(s, t, result);
    ReturnKeepsSockets(s, t, result);
    ReturnKeepsStreams(s, t, result);
    TaskStepKeeps(s, Return(s, t, result), t);
    SentKept(s, Return(s, t, result));
  }

  // ---- Letting a broken socket go -----------------------------------------

  function LetGoNext(s: State, t: nat): State
    requires HasSocket(s, t) && s.tasks[t].phase.Writing?
  {
    var k := ConnOf(s, t).socket.value;
    SetPhase(SetConn(SetSock(s, k, s.socks[k].(fate := LetGo)), s.tasks[t].conn, ConnOf(s, t).(socket := None)),
             t, Connecting(true))
  }

  ghost predicate CanLetGo(s: State, t: nat) {
    HasSocket(s, t) && s.tasks[t].phase.Writing? && SockOf(s, t).broken
  }

  lemma LetGoIsTaskStep(s: State, t: nat)
    requires CanLetGo(s, t)
    ensures TaskStep(s, LetGoNext(s, t), t)
  {
  }

  lemma LetGoKeepsLocks(s: State, t: nat)
    requires LockInv(s) && CanLetGo(s, t)
    ensures LockInv(LetGoNext(s, t))
  {
  }

  lemma LetGoKeepsSockets(s: State, t: nat)
    requires SocketInv(s) && LockInv(s) && CanLetGo(s, t)
    ensures SocketInv(LetGoNext(s, t))
  {
  }

  lemma LetGoKeepsStreams(s: State, t: nat)
    requires StreamsInv(s) && LockInv(s) && SocketInv(s) && CanLetGo(s, t)
    ensures StreamsInv(LetGoNext(s, t))
  {
    hide StreamInv, FrameOf;
    var s' := LetGoNext(s, t);
    forall k | 0 <= k < |s.socks|
      ensures StreamInv(s', k)
    {
      StreamKept(s, s', k);
    }
  }

  lemma LetGoKeepsSent(s: State, t: nat)
    requires SentInv(s) && CanLetGo(s, t)
    ensures SentInv(LetGoNext(s, t))
  {
    var k, s' := ConnOf(s, t).socket.value, LetGoNext(s, t);
    forall i: nat
      ensures Copies(s'.socks, i) == Copies(s.socks, i)
    {
      CopiesUpdate(s.socks, k, s'.socks[k], i);
    }
  }

  lemma LetGoKeeps(s: State, t: nat)
    requires Inv(s) && CanLetGo(s, t)
    ensures Inv(LetGoNext(s, t))
  {
    hide InRange, CacheInv, RefsInv, LockInv, SocketInv, StreamsInv, SentInv;
    assert HasSocket(s, t) && s.tasks[t].phase.Writing?;
    hide CanLetGo, LetGoNext;
    LetGoIsTaskStep(s, t);
    LetGoKeepsLocks(s, t);
    LetGoKeepsSockets(s, t);
    LetGoKeepsStreams(s, t);
    LetGoKeepsSent(s, t);
    TaskStepKeeps(s, LetGoNext(s, t), t);
  }

  lemma WriteFailSplits(s: State, t: nat)
    requires HasSocket(s, t) && s.tasks[t].phase.Writing?
    ensures var k := ConnOf(s, t).socket.value;
            var broken := SetSock(s, k, s.socks[k].(broken := true));
            if s.tasks[t].phase.retry then
              CanFail(broken, t, SendFailed) && WriteFailNext(s, t) == Return(broken, t, SendFailed)
            else
              CanLetGo(broken, t) && WriteFailNext(s, t) == LetGoNext(broken, t)
  {
    var k := ConnOf(s, t).socket.value;
    var sock := s.socks[k].(broken := true);
    assert s.socks[k := sock][k := sock.(fate := LetGo)] == s.socks[k := sock.(fate := LetGo)];
  }

  /** A failed write breaks the stream, and then either `send` returns or the socket is let go. */
  lemma WriteFailKeeps(s: State, t: nat)
    requires HasSocket(s, t) && s.tasks[t].phase.Writing? && Inv(s)
    ensures Inv(WriteFailNext(s, t))
  {
    hide InRange, CacheInv, RefsInv, LockInv, SocketInv, StreamsInv, SentInv;
    var k := ConnOf(s, t).socket.value;
    var broken := SetSock(s, k, s.socks[k].(broken := true));
    BreakKeeps(s, k);
    WriteFailSplits(s, t);
    hide WriteFailNext, Return, LetGoNext, CanFail, CanLetGo;
    if s.tasks[t].phase.retry {
      ReturnKeeps(broken, t, SendFailed);
    } else {
      LetGoKeeps(broken, t);
    }
  }

  // ---- Connecting ----------------------------------------------------------

  ghost predicate CanConnect(s: State, t: nat) {
    IsTask(s, t) && s.tasks[t].phase.Connecting?
  }

  lemma ConnectIsTaskStep(s: State, t: nat)
    requires CanConnect(s, t)
    ensures TaskStep(s, ConnectNext(s, t, true), t)
  {
  }

  lemma ConnectKeepsLocks(s: State, t: nat)
    requires LockInv(s) && CanConnect(s, t)
    ensures LockInv(ConnectNext(s, t, true))
  {
  }

  lemma ConnectKeepsFates(s: State, t: nat)
    requires OwnSocketInv(s) && FateInv(s) && DroppedInv(s) && CanConnect(s, t)
    requires ConnOf(s, t).refs > 0 && ConnOf(s, t).socket.None?
    ensures var s' := ConnectNext(s, t, true);
            OwnSocketInv(s') && FateInv(s') && DroppedInv(s')
  {
  }

  lemma ConnectKeepsPhases(s: State, t: nat)
    requires PhaseInv(s) && LockInv(s) && CanConnect(s, t)
    ensures PhaseInv(ConnectNext(s, t, true))
  {
  }

  lemma ConnectKeepsSockets(s: State, t: nat)
    requires SocketInv(s) && LockInv(s) && CanConnect(s, t) && ConnOf(s, t).refs > 0
    ensures SocketInv(ConnectNext(s, t, true))
  {
    hide OwnSocketInv, FateInv, DroppedInv, LockInv;
    assert ConnOf(s, t).socket.None?;
    ConnectKeepsFates(s, t);
    ConnectKeepsPhases(s, t);
  }

  lemma ConnectKeepsStreams(s: State, t: nat)
    requires StreamsInv(s) && LockInv(s) && SocketInv(s) && CanConnect(s, t)
    ensures StreamsInv(ConnectNext(s, t, true))
  {
    hide StreamInv, FrameOf;
    var s' := ConnectNext(s, t, true);
    assert 0 < |FrameOf(s'.tasks[t])| by { FrameNotEmpty(s'.tasks[t]); }
    forall k | 0 <= k < |s'.socks|
      ensures StreamInv(s', k)
    {
      if k < |s.socks| {
        StreamKept(s, s', k);
      } else {
        NewStream(s', k);
      }
    }
  }

  lemma NewStream(s: State, k: nat)
    requires k < |s.socks| && s.socks[k].stream == [] && s.socks[k].sent == [] && WorkingTail(s, k) == []
    ensures StreamInv(s, k)
  {
    hide WorkingTail;
    assert DataSent(s.tasks, []) == [];
  }

  lemma ConnectKeepsSent(s: State, t: nat)
    requires SentInv(s) && CanConnect(s, t)
    ensures SentInv(ConnectNext(s, t, true))
  {
    hide Copies;
    var s' := ConnectNext(s, t, true);
    forall i: nat
      ensures Copies(s'.socks, i) == OneIf(i < |s'.tasks| && s'.tasks[i].phase.Succeeded())
    {
      CopiesAppend(s.socks, s'.socks[|s.socks|], i);
      assert s'.socks == s.socks + [s'.socks[|s.socks|]];
      assert Copies(s.socks, i) == OneIf(i < |s.tasks| && s.tasks[i].phase.Succeeded());
    }
  }

  lemma ConnectKeeps(s: State, t: nat, ok: bool)
    requires Inv(s) && CanConnect(s, t)
    ensures Inv(ConnectNext(s, t, ok))
  {
    hide InRange, CacheInv, RefsInv, LockInv, SocketInv, StreamsInv, SentInv;
    if ok {
      ConnectIsTaskStep(s, t);
      ConnectKeepsLocks(s, t);
      UnfinishedHasReference(s, t, None);
      ConnectKeepsSockets(s, t);
      ConnectKeepsStreams(s, t);
      ConnectKeepsSent(s, t);
      TaskStepKeeps(s, ConnectNext(s, t, true), t);
    } else {
      ReturnKeeps(s, t, ConnectionFailed);
    }
  }

  // ---- Writing -------------------------------------------------------------

  lemma WriteIsTaskStep(s: State, t: nat, n: nat)
    requires Enabled(s, Write(t, n)) && WriteEnd(s.tasks[t], s.tasks[t].phase.pos) <= |FrameOf(s.tasks[t])|
    ensures TaskStep(s, WriteNext(s, t, n), t)
  {
    hide FrameOf;
  }

  /** A write touches the socket, and then either returns or only moves the position on. */
  lemma WriteSplits(s: State, t: nat, n: nat) returns (next: State)
    requires HasSocket(s, t) && s.tasks[t].phase.Writing?
    requires s.tasks[t].phase.pos + n <= |FrameOf(s.tasks[t])|
    ensures next.cache == s.cache && next.tasks == s.tasks && next.conns == s.conns && |next.socks| == |s.socks|
    ensures forall k :: 0 <= k < |s.socks| ==>
              && next.socks[k].conn == s.socks[k].conn
              && next.socks[k].fate == s.socks[k].fate
              && next.socks[k].broken == s.socks[k].broken
    ensures WriteNext(s, t, n)
         == if s.tasks[t].phase.pos + n == |FrameOf(s.tasks[t])| then Return(next, t, SendOk)
            else SetPhase(next, t, Writing(s.tasks[t].phase.retry, s.tasks[t].phase.pos + n))
  {
    hide FrameOf;
    var pos := s.tasks[t].phase.pos;
    var frame := FrameOf(s.tasks[t]);
    var k := ConnOf(s, t).socket.value;
    next := SetSock(s, k, s.socks[k].(stream := s.socks[k].stream + frame[pos..pos + n],
                                      sent := s.socks[k].sent + if pos + n == |frame| then [t] else []));
  }

  lemma AdvanceKeepsLocks(s: State, t: nat, phase: Phase)
    requires LockInv(s) && t < |s.tasks| && s.tasks[t].phase.Writing? && phase.Writing?
    ensures LockInv(SetPhase(s, t, phase))
  {
  }

  lemma AdvanceKeepsSockets(s: State, t: nat, phase: Phase)
    requires SocketInv(s) && t < |s.tasks| && s.tasks[t].phase.Writing? && phase.Writing?
    ensures SocketInv(SetPhase(s, t, phase))
  {
  }

  lemma SameLocks(s: State, s': State)
    requires LockInv(s) && s'.tasks == s.tasks && s'.conns == s.conns
    ensures LockInv(s')
  {
  }

  lemma SameSockets(s: State, s': State)
    requires SocketInv(s) && s'.tasks == s.tasks && s'.conns == s.conns && |s'.socks| == |s.socks|
    requires forall k :: 0 <= k < |s.socks| ==>
               && s'.socks[k].conn == s.socks[k].conn
               && s'.socks[k].fate == s.socks[k].fate
               && s'.socks[k].broken == s.socks[k].broken
    ensures SocketInv(s')
  {
  }

  lemma WriteKeepsLocksAndSockets(s: State, t: nat, n: nat)
    requires HasSocket(s, t) && s.tasks[t].phase.Writing?
    requires s.tasks[t].phase.pos + n <= |FrameOf(s.tasks[t])|
    requires LockInv(s) && SocketInv(s)
    ensures LockInv(WriteNext(s, t, n)) && SocketInv(WriteNext(s, t, n))
  {
    var next := WriteSplits(s, t, n);
    hide LockInv, SocketInv, WriteNext, FrameOf, HasSocket, Return, SetPhase;
    SameLocks(s, next);
    SameSockets(s, next);
    if s.tasks[t].phase.pos + n == |FrameOf(s.tasks[t])| {
      ReturnKeepsLocks(next, t, SendOk);
      ReturnKeepsSockets(next, t, SendOk);
    } else {
      AdvanceKeepsLocks(next, t, Writing(s.tasks[t].phase.retry, s.tasks[t].phase.pos + n));
      AdvanceKeepsSockets(next, t, Writing(s.tasks[t].phase.retry, s.tasks[t].phase.pos + n));
    }
  }

  lemma WriteKeepsSent(s: State, t: nat, n: nat)
    requires SentInv(s) && Enabled(s, Write(t, n))
    requires WriteEnd(s.tasks[t], s.tasks[t].phase.pos) <= |FrameOf(s.tasks[t])|
    ensures SentInv(WriteNext(s, t, n))
  {
    hide FrameOf, Copies;
    var k, s' := ConnOf(s, t).socket.value, WriteNext(s, t, n);
    forall i: nat
      ensures Copies(s'.socks, i) == OneIf(i < |s'.tasks| && s'.tasks[i].phase.Succeeded())
    {
      CopiesUpdate(s.socks, k, s'.socks[k], i);
    }
  }

  lemma OwnTail(s: State, t: nat, n: nat)
    requires StreamsInv(s) && LockInv(s) && SocketInv(s) && Enabled(s, Write(t, n))
    requires WriteEnd(s.tasks[t], s.tasks[t].phase.pos) <= |FrameOf(s.tasks[t])|
    ensures var k, frame, end := ConnOf(s, t).socket.value, FrameOf(s.tasks[t]), s.tasks[t].phase.pos + n;
            && StreamInv(s, k) && WorkingTail(s, k) == frame[..s.tasks[t].phase.pos]
            && WorkingTail(WriteNext(s, t, n), k) == if end == |frame| then [] else frame[..end]
  {
    hide Frame, StreamInv;
  }

  /** The stream being written: its tail grows along the frame, and the last byte completes the frame. */
  lemma WriteKeepsOwnStream(s: State, t: nat, n: nat)
    requires StreamsInv(s) && LockInv(s) && SocketInv(s) && Enabled(s, Write(t, n))
    requires WriteEnd(s.tasks[t], s.tasks[t].phase.pos) <= |FrameOf(s.tasks[t])|
    ensures StreamInv(WriteNext(s, t, n), ConnOf(s, t).socket.value)
  {
    OwnTail(s, t, n);
    hide LockInv, SocketInv, StreamsInv, WorkingTail, Frame, FramesOf;
    GrownStream(s, t, n);
  }

  lemma GrownStream(s: State, t: nat, n: nat)
    requires Enabled(s, Write(t, n))
    requires s.tasks[t].phase.pos + n <= |FrameOf(s.tasks[t])|
    requires var k, frame, end := ConnOf(s, t).socket.value, FrameOf(s.tasks[t]), s.tasks[t].phase.pos + n;
             && StreamInv(s, k) && WorkingTail(s, k) == frame[..s.tasks[t].phase.pos]
             && WorkingTail(WriteNext(s, t, n), k) == if end == |frame| then [] else frame[..end]
    ensures StreamInv(WriteNext(s, t, n), ConnOf(s, t).socket.value)
  {
    hide WorkingTail, Frame, FramesOf, WriteNext, DataSent;
    var k, s' := ConnOf(s, t).socket.value, WriteNext(s, t, n);
    var frame, pos := FrameOf(s.tasks[t]), s.tasks[t].phase.pos;
    var data := DataSent(s.tasks, s.socks[k].sent);
    assert s.socks[k].stream == FramesOf(data) + frame[..pos];
    hide StreamInv;
    WriteEffect(s, t, n);
    assert frame[..pos] + frame[pos..pos + n] == frame[..pos + n];
    Regroup(FramesOf(data), frame[..pos], frame[pos..pos + n]);
    if pos + n == |frame| {
      assert frame[..pos + n] == frame;
      FramesOfSnoc(data, s.tasks[t].job.data);
      assert FramesOf(data) + frame + [] == FramesOf(data) + frame;
      assert PartOfOne(s'.tasks, []);
      StreamIs(s', k, []);
    } else {
      assert data + [] == data;
      assert StrictPrefix(frame[..pos + n], FrameOf(s'.tasks[t]));
      StreamIs(s', k, frame[..pos + n]);
    }
  }

  lemma WriteEffect(s: State, t: nat, n: nat)
    requires Enabled(s, Write(t, n))
    requires s.tasks[t].phase.pos + n <= |FrameOf(s.tasks[t])|
    requires ValidSent(s.tasks, s.socks[ConnOf(s, t).socket.value].sent)
    ensures var s', k, pos := WriteNext(s, t, n), ConnOf(s, t).socket.value, s.tasks[t].phase.pos;
            && t < |s'.tasks| && s'.tasks[t].job == s.tasks[t].job && k < |s'.socks|
            && s'.socks[k].stream == s.socks[k].stream + FrameOf(s.tasks[t])[pos..pos + n]
            && ValidSent(s'.tasks, s'.socks[k].sent)
            && DataSent(s'.tasks, s'.socks[k].sent)
            == DataSent(s.tasks, s.socks[k].sent)
             + if pos + n == |FrameOf(s.tasks[t])| then [s.tasks[t].job.data] else []
  {
    hide Frame;
  }

  lemma StreamIs(s: State, k: nat, tail: bytes)
    requires k < |s.socks| && ValidSent(s.tasks, s.socks[k].sent)
    requires s.socks[k].stream == FramesOf(DataSent(s.tasks, s.socks[k].sent)) + tail
    requires PartOfOne(s.tasks, tail) && tail == WorkingTail(s, k)
    ensures StreamInv(s, k)
  {
    hide WorkingTail, PartOfOne, FramesOf;
    assert TailOf(s.tasks, s.socks[k]) == tail;
  }

  lemma WriteKeepsStreams(s: State, t: nat, n: nat)
    requires StreamsInv(s) && LockInv(s) && SocketInv(s) && Enabled(s, Write(t, n))
    requires WriteEnd(s.tasks[t], s.tasks[t].phase.pos) <= |FrameOf(s.tasks[t])|
    ensures StreamsInv(WriteNext(s, t, n))
  {
    hide StreamInv, Frame;
    var s' := WriteNext(s, t, n);
    forall k | 0 <= k < |s.socks|
      ensures StreamInv(s', k)
    {
      if k == ConnOf(s, t).socket.value {
        WriteKeepsOwnStream(s, t, n);
      } else {
        StreamKept(s, s', k);
      }
    }
  }

  lemma WriteStaysInFrame(task: Task, pos: nat)
    ensures WriteEnd(task, pos) <= |FrameOf(task)|
  {
    FrameNotEmpty(task);
  }

  lemma WriteKeeps(s: State, t: nat, n: nat)
    requires HasSocket(s, t) && s.tasks[t].phase.Writing? && !SockOf(s, t).broken
    requires 0 < n && s.tasks[t].phase.pos + n <= WriteEnd(s.tasks[t], s.tasks[t].phase.pos)
    requires Inv(s)
    ensures s.tasks[t].phase.pos + n <= |FrameOf(s.tasks[t])|
    ensures Inv(WriteNext(s, t, n))
  {
    hide InRange, CacheInv, RefsInv, LockInv, SocketInv, StreamsInv, SentInv, FrameOf;
    assert Enabled(s, Write(t, n));
    WriteStaysInFrame(s.tasks[t], s.tasks[t].phase.pos);
    hide WriteNext;
    WriteIsTaskStep(s, t, n);
    WriteKeepsLocksAndSockets(s, t, n);
    WriteKeepsStreams(s, t, n);
    WriteKeepsSent(s, t, n);
    TaskStepKeeps(s, WriteNext(s, t, n), t);
  }

  // ---- Dropping a reference ------------------------------------------------

  ghost predicate CanRelease(s: State, c: nat) {
    c < |s.conns| && (s.conns[c].socket.Some? ==> s.conns[c].socket.value < |s.socks|)
  }

  /** The last reference: nobody holds the mutex, and nobody is connecting or writing. */
  lemma LastReference(s: State, c: nat)
    requires RefsInv(s, Some(c)) && LockInv(s) && CanRelease(s, c) && s.conns[c].refs <= 1
    ensures s.conns[c].refs == 1 && !Cached(s, c) && s.conns[c].holder.None?
    ensures forall t :: 0 <= t < |s.tasks| && s.tasks[t].conn == c ==> s.tasks[t].phase.Finished?
  {
    hide Holds;
    forall t | 0 <= t < |s.tasks| && s.tasks[t].conn == c
      ensures s.tasks[t].phase.Finished?
    {
      if !s.tasks[t].phase.Finished? {
        UserCounts(s.tasks, t, c);
      }
    }
  }

  lemma ReleaseKeepsCounts(s: State, c: nat)
    requires InRange(s) && CacheInv(s) && RefsInv(s, Some(c)) && CanRelease(s, c)
    ensures var s' := Release(s, c);
            InRange(s') && CacheInv(s') && RefsInv(s', None)
  {
    hide Users, Holds, Valid;
  }

  lemma ReleaseKeepsLocks(s: State, c: nat)
    requires LockInv(s) && CanRelease(s, c)
    ensures LockInv(Release(s, c))
  {
  }

  lemma ReleaseKeepsSockets(s: State, c: nat)
    requires SocketInv(s) && CanRelease(s, c) && s.conns[c].refs > 0
    requires s.conns[c].refs <= 1 ==>
               forall t :: 0 <= t < |s.tasks| && s.tasks[t].conn == c ==> s.tasks[t].phase.Finished?
    ensures SocketInv(Release(s, c))
  {
  }

  lemma ReleaseKeepsStreams(s: State, c: nat)
    requires StreamsInv(s) && SocketInv(s) && CanRelease(s, c)
    requires s.conns[c].refs <= 1 ==> s.conns[c].holder.None?
    ensures StreamsInv(Release(s, c))
  {
    hide StreamInv, FrameOf;
    var s' := Release(s, c);
    forall k | 0 <= k < |s.socks|
      ensures StreamInv(s', k)
    {
      StreamKept(s, s', k);
    }
  }

  lemma ReleaseKeepsSent(s: State, c: nat)
    requires SentInv(s) && CanRelease(s, c)
    ensures SentInv(Release(s, c))
  {
    var s' := Release(s, c);
    if s.conns[c].refs <= 1 && s.conns[c].socket.Some? {
      forall i: nat
        ensures Copies(s'.socks, i) == Copies(s.socks, i)
      {
        CopiesUpdate(s.socks, s.conns[c].socket.value, s'.socks[s.conns[c].socket.value], i);
      }
    }
  }

  lemma ExtraReference(s: State, c: nat)
    requires RefsInv(s, Some(c)) && c < |s.conns|
    ensures s.conns[c].refs > 0
  {
    hide Users, Holds;
  }

  lemma ReleaseKeeps(s: State, c: nat)
    requires CanRelease(s, c) && InvWith(s, Some(c))
    ensures Inv(Release(s, c))
  {
    hide InRange, CacheInv, RefsInv, LockInv, SocketInv, StreamsInv, SentInv;
    ExtraReference(s, c);
    if s.conns[c].refs <= 1 {
      LastReference(s, c);
    }
    hide Release;
    ReleaseKeepsCounts(s, c);
    ReleaseKeepsLocks(s, c);
    ReleaseKeepsSockets(s, c);
    ReleaseKeepsStreams(s, c);
    ReleaseKeepsSent(s, c);
  }

  lemma ConnectionCanRelease(s: State, c: nat)
    requires InRange(s) && c < |s.conns|
    ensures CanRelease(s, c)
  {
    hide Holds, Valid;
  }

  // ---- Finishing -----------------------------------------------------------

  lemma ReportKeepsCounts(s: State, t: nat)
    requires InRange(s) && CacheInv(s) && RefsInv(s, None) && IsTask(s, t) && s.tasks[t].phase.Returned?
    ensures var s' := SetPhase(s, t, Finished(s.tasks[t].phase.result));
            InRange(s') && CacheInv(s') && RefsInv(s', Some(s.tasks[t].conn))
  {
    var s' := SetPhase(s, t, Finished(s.tasks[t].phase.result));
    forall c | 0 <= c < |s.conns|
      ensures Users(s'.tasks, c) + OneIf(s.tasks[t].conn == c) == Users(s.tasks, c)
    {
      UsersUpdate(s.tasks, t, s'.tasks[t], c);
    }
    hide Users, Holds, Valid;
  }

  lemma ReportKeepsLocks(s: State, t: nat)
    requires LockInv(s) && IsTask(s, t) && s.tasks[t].phase.Returned?
    ensures LockInv(SetPhase(s, t, Finished(s.tasks[t].phase.result)))
  {
  }

  lemma ReportKeepsSockets(s: State, t: nat)
    requires SocketInv(s) && IsTask(s, t) && s.tasks[t].phase.Returned?
    ensures SocketInv(SetPhase(s, t, Finished(s.tasks[t].phase.result)))
  {
  }

  lemma ReportKeepsStreams(s: State, t: nat)
    requires StreamsInv(s) && LockInv(s) && IsTask(s, t) && s.tasks[t].phase.Returned?
    ensures StreamsInv(SetPhase(s, t, Finished(s.tasks[t].phase.result)))
  {
    hide StreamInv, FrameOf;
    var s' := SetPhase(s, t, Finished(s.tasks[t].phase.result));
    forall k | 0 <= k < |s.socks|
      ensures StreamInv(s', k)
    {
      StreamKept(s, s', k);
    }
  }

  lemma FinishKeeps(s: State, t: nat)
    requires IsTask(s, t) && s.tasks[t].phase.Returned? && Inv(s)
    ensures Inv(FinishNext(s, t))
  {
    var s' := SetPhase(s, t, Finished(s.tasks[t].phase.result));
    ConnectionCanRelease(s, s.tasks[t].conn);
    hide InRange, CacheInv, RefsInv, LockInv, SocketInv, StreamsInv, SentInv;
    assert CanRelease(s', s.tasks[t].conn);
    hide CanRelease;
    ReportKeepsCounts(s, t);
    ReportKeepsLocks(s, t);
    ReportKeepsSockets(s, t);
    ReportKeepsStreams(s, t);
    SentKept(s, s');
    ReleaseKeeps(s', s.tasks[t].conn);
  }

  // ---- Evicting ------------------------------------------------------------

  function Uncached(s: State): State
    requires s.evictions != []
  {
    s.(evictions := s.evictions[1..], cache := Remove(s.cache, s.evictions[0]).cache)
  }

  lemma UncachedKeepsCounts(s: State)
    requires InRange(s) && CacheInv(s) && RefsInv(s, None) && s.evictions != []
    ensures var s' := Uncached(s);
            InRange(s') && CacheInv(s') && RefsInv(s', Remove(s.cache, s.evictions[0]).removed)
  {
    var a, s' := s.evictions[0], Uncached(s);
    var removed := Remove(s.cache, a).removed;
    RemoveEffect(s.cache, a);
    HasIsHolds(s.cache, a);
    hide Users, Holds, Valid, Has, Remove;
    forall c | 0 <= c < |s.conns|
      ensures OneIf(Cached(s, c)) == OneIf(Cached(s', c)) + OneIf(removed == Some(c))
    {
      if s.conns[c].address == a && Cached(s, c) {
        HoldsOneConnection(s.cache, a, c, removed.value);
      }
    }
  }

  lemma UncachedKeepsRest(s: State)
    requires LockInv(s) && SocketInv(s) && StreamsInv(s) && SentInv(s) && s.evictions != []
    ensures var s' := Uncached(s);
            LockInv(s') && SocketInv(s') && StreamsInv(s') && SentInv(s')
  {
    hide LockInv, SocketInv, StreamsInv, SentInv, Remove;
    var s' := Uncached(s);
    SameLocks(s, s');
    SameSockets(s, s');
    SentKept(s, s');
    SameStreams(s, s');
  }

  lemma SameStreams(s: State, s': State)
    requires StreamsInv(s) && s'.tasks == s.tasks && s'.conns == s.conns && s'.socks == s.socks
    ensures StreamsInv(s')
  {
    hide StreamInv, FrameOf;
    forall k | 0 <= k < |s.socks|
      ensures StreamInv(s', k)
    {
      StreamKept(s, s', k);
    }
  }

  lemma EvictKeeps(s: State)
    requires s.evictions != [] && Inv(s)
    ensures Inv(EvictNext(s))
  {
    hide CacheInv, RefsInv, LockInv, SocketInv, StreamsInv, SentInv, Remove, Valid, Holds;
    var r := Remove(s.cache, s.evictions[0]);
    var s' := Uncached(s);
    if r.removed.Some? {
      RemoveEffect(s.cache, s.evictions[0]);
      ConnectionCanRelease(s, r.removed.value);
      assert CanRelease(s', r.removed.value);
    }
    hide InRange, CanRelease;
    UncachedKeepsCounts(s);
    UncachedKeepsRest(s);
    if r.removed.Some? {
      ReleaseKeeps(s', r.removed.value);
    }
  }

  // ---- Dispatching ---------------------------------------------------------

  lemma SpawnedConns(s: State)
    requires InRange(s) && s.queue != []
    ensures var s' := Spawned(s);
            var conn := GetOrInsert(s.cache, s.queue[0].address, |s.conns|).conn;
            && conn <= |s.conns|
            && |s'.conns| == |s.conns| + OneIf(conn == |s.conns|)
            && forall c :: 0 <= c < |s'.conns| ==>
                 s'.conns[c].refs == (if c < |s.conns| then s.conns[c].refs else 1) + OneIf(c == conn)
  {
    GetOrInsertEffect(s.cache, s.queue[0].address, |s.conns|);
    HasIsHolds(s.cache, s.queue[0].address);
    hide GetOrInsert, Holds, Valid, Has;
  }

  lemma SpawnedUsers(s: State)
    requires InRange(s) && s.queue != []
    ensures var s' := Spawned(s);
            var conn := GetOrInsert(s.cache, s.queue[0].address, |s.conns|).conn;
            forall c :: 0 <= c < |s'.conns| ==>
              Users(s'.tasks, c) == (if c < |s.conns| then Users(s.tasks, c) else 0) + OneIf(c == conn)
  {
    SpawnedConns(s);
    hide GetOrInsert, Holds, Valid;
    var s' := Spawned(s);
    forall c | 0 <= c < |s'.conns|
      ensures Users(s'.tasks, c) == (if c < |s.conns| then Users(s.tasks, c) else 0)
                                    + OneIf(c == GetOrInsert(s.cache, s.queue[0].address, |s.conns|).conn)
    {
      var task := s'.tasks[|s.tasks|];
      assert s'.tasks == s.tasks + [task] && task.phase.Waiting?;
      UsersAppend(s.tasks, task, c);
      if c == |s.conns| {
        NoUsers(s.tasks, c);
      }
    }
  }

  function Extra(evicted: Option<Entry>): Option<nat> {
    if evicted.Some? then Some(evicted.value.conn) else None
  }

  lemma SpawnedCached(s: State)
    requires InRange(s) && CacheInv(s) && s.queue != []
    ensures var s' := Spawned(s);
            var r := GetOrInsert(s.cache, s.queue[0].address, |s.conns|);
            && CacheInv(s') && InRange(s') && r.conn < |s'.conns|
            && (r.conn == |s.conns| ==> Cached(s', r.conn) && Extra(r.evicted) != Some(r.conn))
            && forall c :: 0 <= c < |s.conns| ==>
                 OneIf(Cached(s', c)) + OneIf(Extra(r.evicted) == Some(c)) == OneIf(Cached(s, c))
  {
    var a, s' := s.queue[0].address, Spawned(s);
    var r := GetOrInsert(s.cache, a, |s.conns|);
    GetOrInsertEffect(s.cache, a, |s.conns|);
    HasIsHolds(s.cache, a);
    hide Holds, Valid, Has, GetOrInsert;
    forall c | 0 <= c < |s.conns|
      ensures OneIf(Cached(s', c)) + OneIf(Extra(r.evicted) == Some(c)) == OneIf(Cached(s, c))
    {
      if Extra(r.evicted) == Some(c) {
        assert s.conns[c].address == r.evicted.value.address;
      }
    }
  }

  lemma SpawnedKeepsCounts(s: State)
    requires InRange(s) && CacheInv(s) && RefsInv(s, None) && s.queue != []
    ensures var s' := Spawned(s);
            && InRange(s') && CacheInv(s')
            && RefsInv(s', Extra(GetOrInsert(s.cache, s.queue[0].address, |s.conns|).evicted))
  {
    SpawnedConns(s);
    SpawnedUsers(s);
    SpawnedCached(s);
    hide Users, Cached, InRange, CacheInv, GetOrInsert, Spawned;
    var s' := Spawned(s);
    var r := GetOrInsert(s.cache, s.queue[0].address, |s.conns|);
    forall c | 0 <= c < |s'.conns|
      ensures s'.conns[c].refs == OneIf(Cached(s', c)) + Users(s'.tasks, c) + OneIf(Extra(r.evicted) == Some(c))
    {
      if c < |s.conns| {
        assert s.conns[c].refs == OneIf(Cached(s, c)) + Users(s.tasks, c);
      }
    }
  }

  lemma SpawnedReference(s: State)
    requires InRange(s) && RefsInv(s, None) && CacheInv(s) && s.queue != []
    ensures var r := GetOrInsert(s.cache, s.queue[0].address, |s.conns|);
            r.conn <= |s.conns| && (r.conn < |s.conns| ==> s.conns[r.conn].refs > 0)
  {
    GetOrInsertEffect(s.cache, s.queue[0].address, |s.conns|);
    HasIsHolds(s.cache, s.queue[0].address);
    hide Users, Valid, Has, GetOrInsert, Holds;
  }

  lemma SpawnedKeepsLocks(s: State)
    requires InRange(s) && LockInv(s) && s.queue != []
    requires GetOrInsert(s.cache, s.queue[0].address, |s.conns|).conn <= |s.conns|
    ensures LockInv(Spawned(s))
  {
    hide GetOrInsert, Holds, Valid;
  }

  lemma SpawnedKeepsSockets(s: State)
    requires InRange(s) && SocketInv(s) && s.queue != []
    requires var r := GetOrInsert(s.cache, s.queue[0].address, |s.conns|);
             r.conn <= |s.conns| && (r.conn < |s.conns| ==> s.conns[r.conn].refs > 0)
    ensures SocketInv(Spawned(s))
  {
    hide GetOrInsert, Holds, Valid;
  }

  lemma SpawnedKeepsStreams(s: State)
    requires InRange(s) && SocketInv(s) && StreamsInv(s) && s.queue != []
    requires LockInv(s) && GetOrInsert(s.cache, s.queue[0].address, |s.conns|).conn <= |s.conns|
    ensures StreamsInv(Spawned(s))
  {
    hide StreamInv, FrameOf, GetOrInsert, Holds, Valid;
    var s' := Spawned(s);
    forall k | 0 <= k < |s.socks|
      ensures StreamInv(s', k)
    {
      StreamKept(s, s', k);
    }
  }

  lemma SpawnedCanRelease(s: State)
    requires InRange(s) && s.queue != []
    ensures var evicted := GetOrInsert(s.cache, s.queue[0].address, |s.conns|).evicted;
            evicted.Some? ==> CanRelease(Spawned(s), evicted.value.conn)
  {
    GetOrInsertEffect(s.cache, s.queue[0].address, |s.conns|);
    HasIsHolds(s.cache, s.queue[0].address);
    hide GetOrInsert, Holds, Valid, Has;
  }

  lemma DispatchKeeps(s: State)
    requires s.queue != [] && Inv(s)
    ensures Inv(DispatchNext(s))
  {
    hide InRange, CacheInv, RefsInv, LockInv, SocketInv, StreamsInv, SentInv, GetOrInsert;
    var r := GetOrInsert(s.cache, s.queue[0].address, |s.conns|);
    SpawnedReference(s);
    var s' := Spawned(s);
    assert s'.socks == s.socks && |s.tasks| <= |s'.tasks|;
    assert forall t :: 0 <= t < |s.tasks| ==> s'.tasks[t] == s.tasks[t];
    assert forall t :: |s.tasks| <= t < |s'.tasks| ==> !s'.tasks[t].phase.Succeeded();
    SpawnedCanRelease(s);
    hide Spawned, CanRelease;
    SpawnedKeepsCounts(s);
    SpawnedKeepsLocks(s);
    SpawnedKeepsSockets(s);
    SpawnedKeepsStreams(s);
    SentKept(s, s');
    if r.evicted.Some? {
      ReleaseKeeps(s', r.evicted.value.conn);
    }
  }

  // ---- Every step, every run -----------------------------------------------

  lemma StepKeepsInv(s: State, e: Event)
    requires Enabled(s, e) && Inv(s)
    ensures Inv(Next(s, e))
  {
    hide InRange, CacheInv, RefsInv, LockInv, SocketInv, StreamsInv, SentInv;
    match e
    case Enqueue(_) => RequestKeeps(s, Next(s, e));
    case RequestEviction(_) => RequestKeeps(s, Next(s, e));
    case Dispatch => DispatchKeeps(s);
    case Evict => EvictKeeps(s);
    case Lock(t) => LockKeeps(s, t);
    case Connect(t, ok) => ConnectKeeps(s, t, ok);
    case Write(t, n) => WriteKeeps(s, t, n);
    case WriteFail(t) => WriteFailKeeps(s, t);
    case Finish(t) => FinishKeeps(s, t);
    case Break(k) => BreakKeeps(s, k);
  }

  lemma InitInv(cache: Cache)
    requires EmptyCache(cache)
    ensures Inv(Init(cache))
  {
  }

  /** Every reachable state satisfies the invariant, and no enabled event is ever stuck for being out of
      range. */
  lemma {:induction false} RunKeepsInv(s: State, events: seq<Event>)
    requires CanRun(s, events) && Inv(s)
    ensures Inv(Run(s, events))
    decreases |events|
  {
    hide Inv, Enabled, Next;
    if events != [] {
      StepKeepsInv(s, events[0]);
      RunKeepsInv(Next(s, events[0]), events[1..]);
    }
  }
}
