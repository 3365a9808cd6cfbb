/** Why the premise that a failed stream stays failed is needed: `send` leaves the stream of a failed retry in
    its connection, and the next send would write after the broken-off frame if the stream let it. */
module SenderPremise {
  import opened Bytes
  import opened Framing
  import opened Outbound
  import opened ConnectionCache
  import opened SenderProtocol
  import opened SenderInvariant
  import opened SenderSteps
  import opened SenderTheorems
  import ConnectionSend

  lemma Extend(s: State, cache: Cache, events: seq<Event>, e: Event)
    requires ReachedBy(s, cache, events) && Enabled(s, e)
    ensures InRange(s) && ReachedBy(Next(s, e), cache, events + [e])
  {
    hide Enabled, Next, CanRun, Run;
    ReachedInv(s, cache, events);
    StepKeepsInv(s, e);
    hide CacheInv, RefsInv, LockInv, SocketInv, StreamsInv, SentInv, InRange;
    ConnectionSend.RunSnoc(Init(cache), events, e);
  }

  const EMPTY := HashCache(map[])
  const FIRST := Job(9, [], 0)
  const SECOND := Job(9, [7], 1)

  lemma BothQueued() returns (s: State, events: seq<Event>)
    ensures ReachedBy(s, EMPTY, events)
    ensures s == Init(EMPTY).(queue := [FIRST, SECOND])
  {
    s, events := Init(EMPTY), [];
    InitInv(EMPTY);
    assert ReachedBy(s, EMPTY, events);
    hide ReachedBy;
    s, events := Step(s, events, Enqueue(FIRST));
    s, events := Step(s, events, Enqueue(SECOND));
    assert s.queue == [FIRST, SECOND];
  }

  /** Two sends to one address, both spawned. */
  lemma BothSpawned() returns (s: State, events: seq<Event>)
    ensures ReachedBy(s, EMPTY, events)
    ensures s.tasks == [Task(FIRST, 0, Waiting), Task(SECOND, 0, Waiting)]
    ensures s.conns == [Conn(9, None, None, 3)] && s.socks == []
  {
    s, events := BothQueued();
    hide ReachedBy, InRange;
    s, events := Step(s, events, Dispatch);
    assert s.queue == [SECOND] && s.cache == HashCache(map[9 := 0]);
    assert s.tasks == [Task(FIRST, 0, Waiting)] && s.conns == [Conn(9, None, None, 2)];
    s, events := Step(s, events, Dispatch);
  }

  /** The first send fails twice, the second time after one byte, and the second send finds the broken
      stream and is about to write to it. */
  lemma BrokenStreamKept() returns (s: State, events: seq<Event>)
    ensures ReachedBy(s, EMPTY, events)
    ensures s.tasks == [Task(FIRST, 0, Returned(SendFailed)), Task(SECOND, 0, Writing(false, 0))]
    ensures s.conns == [Conn(9, Some(1), Some(1), 3)]
    ensures s.socks == [Sock(0, [], true, LetGo, []), Sock(0, [0], true, Open, [])]
  {
    s, events := BothSpawned();
    hide ReachedBy, InRange, Be32, Valid, Holds;
    assert FrameOf(Task(FIRST, 0, Waiting))[0..1] == [0] by { FirstFrame(); }
    s, events := Step(s, events, Lock(0));
    s, events := Step(s, events, Connect(0, true));
    assert s.socks == [Sock(0, [], false, Open, [])] && s.conns == [Conn(9, Some(0), Some(0), 3)];
    s, events := Step(s, events, WriteFail(0));
    assert s.socks == [Sock(0, [], true, LetGo, [])] && s.conns == [Conn(9, Some(0), None, 3)];
    s, events := Step(s, events, Connect(0, true));
    assert s.socks == [Sock(0, [], true, LetGo, []), Sock(0, [], false, Open, [])];
    assert s.tasks == [Task(FIRST, 0, Writing(true, 0)), Task(SECOND, 0, Waiting)];
    s, events := Step(s, events, Write(0, 1));
    assert s.socks[1].stream == [0] && s.socks[1].sent == [];
    assert s.socks[1] == Sock(0, [0], false, Open, []);
    s, events := Step(s, events, WriteFail(0));
    assert s.conns == [Conn(9, None, Some(1), 3)];
    s, events := Step(s, events, Lock(1));
  }

  lemma FirstFrame()
    ensures Frame([]) == [0, 0, 0, 0] && Frame([7]) == [0, 0, 0, 1, 7]
  {
  }

  lemma Step(s: State, events: seq<Event>, e: Event) returns (s': State, events': seq<Event>)
    requires ReachedBy(s, EMPTY, events) && Enabled(s, e)
    ensures InRange(s) && s' == Next(s, e) && ReachedBy(s', EMPTY, events')
  {
    hide ReachedBy, Enabled, Next;
    Extend(s, EMPTY, events, e);
    s', events' := Next(s, e), events + [e];
  }

  /** If that stream recovered, the second send would return Ok and its frame could not be found: the
      receiver would see an empty message and two stray bytes. */
  lemma RecoveringStreamWouldCorrupt() returns (s: State, events: seq<Event>)
    ensures ReachedBy(s, EMPTY, events) && HasSocket(s, 1) && SockOf(s, 1).broken && s.tasks[1].phase == Writing(false, 0)
    ensures |FrameOf(s.tasks[1])| == 5
    ensures var halfway := WriteNext(s, 1, 4);
            && HasSocket(halfway, 1) && halfway.tasks[1].phase == Writing(false, 4) && |FrameOf(halfway.tasks[1])| == 5
            && var after := WriteNext(halfway, 1, 1);
               && after.tasks[1].phase == Returned(SendOk)
               && HasSocket(after, 1)
               && Payloads(SockOf(after, 1).stream) == [[]] && SECOND.data == [7]
  {
    s, events := BrokenStreamKept();
    hide ReachedBy, Be32, Frame, Payloads;
    FirstFrame();
    var frame := FrameOf(s.tasks[1]);
    assert frame == [0, 0, 0, 1, 7];
    var halfway := WriteNext(s, 1, 4);
    assert frame[0..4] == [0, 0, 0, 1] && frame[4..5] == [7];
    assert halfway.socks[1].stream == [0, 0, 0, 0, 1];
    var after := WriteNext(halfway, 1, 1);
    assert after.socks[1].stream == [0, 0, 0, 0, 1, 7];
    Misread();
  }

  lemma Misread()
    ensures Payloads([0, 0, 0, 0, 1, 7]) == [[]]
  {
    hide Frame, ReadFrame;
    var stray: bytes := [1, 7];
    FirstFrame();
    assert Frame([]) + stray == [0, 0, 0, 0, 1, 7];
    FrameRoundTripIff([], stray);
    NoFrameInTwoBytes(stray);
  }

  lemma NoFrameInTwoBytes(b: bytes)
    requires |b| == 2
    ensures Payloads(b) == []
  {
  }
}
