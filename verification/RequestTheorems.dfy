/** What every run of requests, timeouts and messages guarantees. */
module RequestTheorems {
  import T = TtlMap
  import opened Requests

  ghost predicate ReachedBy(s: State, now: int, events: seq<Event>) {
    CanRun(Init(now), events) && s == Run(Init(now), events)
  }

  // ---- Which sends wait for a reply ---------------------------------------

  function SpecsOf(e: Event): seq<SendSpec> {
    match e
    case Request(spec) => [spec]
    case TimerFires(_, sends) => sends
    case MessageArrives(_, sends) => sends
    case _ => []
  }

  /** Every send of a run, those made inside callbacks included, in order. */
  function Specs(events: seq<Event>): seq<SendSpec> {
    if events == [] then [] else SpecsOf(events[0]) + Specs(events[1..])
  }

  /** A timeout of 0 means that no reply is expected, and a native send that throws ends the call. */
  predicate ExpectsReply(spec: SendSpec) {
    spec.timeout != 0 && !spec.throws
  }

  /** The history of sends is what was asked. */
  ghost predicate SentAsAsked(s: State, specs: seq<SendSpec>) {
    && (forall i :: 0 <= i < |specs| ==>
          && specs[i].id in s.sent
          && s.sent[specs[i].id].tracked == ExpectsReply(specs[i])
          && s.sent[specs[i].id].timeout == specs[i].timeout)
    && (forall id :: id in s.sent ==> exists i :: 0 <= i < |specs| && specs[i].id == id)
  }

  lemma SendAsAsked(s: State, specs: seq<SendSpec>, spec: SendSpec)
    requires SentAsAsked(s, specs) && spec.id !in s.sent
    ensures SentAsAsked(DoSend(s, spec), specs + [spec])
  {
    hide T.Delay;
    var s', all := DoSend(s, spec), specs + [spec];
    forall id | id in s'.sent
      ensures exists i :: 0 <= i < |all| && all[i].id == id
    {
      if id == spec.id {
        assert all[|specs|].id == id;
      } else {
        var i :| 0 <= i < |specs| && specs[i].id == id;
        assert all[i].id == id;
      }
    }
  }

  lemma {:induction false} SendsAsAsked(s: State, specs: seq<SendSpec>, sends: seq<SendSpec>)
    requires SentAsAsked(s, specs) && Fresh(s, sends)
    ensures SentAsAsked(DoSends(s, sends), specs + sends)
    decreases |sends|
  {
    hide SentAsAsked, Inherited, DoSend;
    if sends == [] {
      assert specs + sends == specs;
    } else {
      SendAsAsked(s, specs, sends[0]);
      assert specs + [sends[0]] + sends[1..] == specs + sends;
      SendsAsAsked(DoSend(s, sends[0]), specs + [sends[0]], sends[1..]);
    }
  }

  lemma SameSentAsAsked(s: State, s': State, specs: seq<SendSpec>)
    requires SentAsAsked(s, specs) && s'.sent == s.sent
    ensures SentAsAsked(s', specs)
  {
  }

  lemma StepAsAsked(s: State, specs: seq<SendSpec>, e: Event)
    requires SentAsAsked(s, specs) && Enabled(s, e)
    ensures SentAsAsked(Next(s, e), specs + SpecsOf(e))
  {
    hide SentAsAsked, Inherited, Fresh, T.Set, T.Fire, T.AfterGet, T.Delete, T.Lookup, T.Delay;
    assert specs + [] == specs;
    match e
    case Request(spec) =>
      FreshIsNew(s, spec);
      SendAsAsked(s, specs, spec);
    case TimerFires(timer, sends) =>
      SameSentAsAsked(s, AfterTimeout(s, timer), specs);
      FreshSame(s, AfterTimeout(s, timer), sends);
      SendsAsAsked(AfterTimeout(s, timer), specs, sends);
    case MessageArrives(id, sends) =>
      SameSentAsAsked(s, AfterMessage(s, id), specs);
      FreshSame(s, AfterMessage(s, id), sends);
      SendsAsAsked(AfterMessage(s, id), specs, sends);
    case _ => SameSentAsAsked(s, Next(s, e), specs);
  }

  lemma FreshIsNew(s: State, spec: SendSpec)
    requires Fresh(s, [spec])
    ensures spec.id !in s.sent && !Inherited(spec.id)
  {
  }

  lemma {:induction false} RunAsAsked(s: State, specs: seq<SendSpec>, events: seq<Event>)
    requires SentAsAsked(s, specs) && CanRun(s, events)
    ensures SentAsAsked(Run(s, events), specs + Specs(events))
    decreases |events|
  {
    hide SentAsAsked, Enabled, Next, SpecsOf;
    if events == [] {
      assert specs + Specs(events) == specs;
    } else {
      StepAsAsked(s, specs, events[0]);
      assert specs + SpecsOf(events[0]) + Specs(events[1..]) == specs + Specs(events);
      RunAsAsked(Next(s, events[0]), specs + SpecsOf(events[0]), events[1..]);
    }
  }

  lemma ReachedAsAsked(s: State, now: int, events: seq<Event>)
    requires ReachedBy(s, now, events)
    ensures SentAsAsked(s, Specs(events))
  {
    assert SentAsAsked(Init(now), []);
    hide SentAsAsked, CanRun, Run;
    RunAsAsked(Init(now), [], events);
    assert [] + Specs(events) == Specs(events);
  }

  /** What one send does, in any state: if it expects a reply, it is pending with a timer that is due after its
      delay; if not, it leaves no trace in the pending map and the timers. */
  lemma SendTakesEffect(s: State, spec: SendSpec)
    requires Fresh(s, [spec])
    ensures var s' := Next(s, Request(spec));
            if spec.timeout != 0 && !spec.throws then
              && s'.pending == s.pending[spec.id := Pending(s.created, s.now)]
              && s'.timers == s.timers[s.created := ReqTimer(spec.id, s.now + T.Delay(spec.timeout))]
            else s'.pending == s.pending && s'.timers == s.timers
  {
    hide T.Delay, Inherited;
  }

  // ---- Exactly-once settlement --------------------------------------------

  ghost predicate TimerPending(s: State, id: Id) {
    exists t :: t in s.timers && s.timers[t].id == id
  }

  /** A send of the run has this id and expects a reply. */
  ghost predicate ReplyExpected(events: seq<Event>, id: Id) {
    exists i :: 0 <= i < |Specs(events)| && Specs(events)[i].id == id
      && Specs(events)[i].timeout != 0 && !Specs(events)[i].throws
  }

  /** A request that waits for a response is settled, by onResponse or by onTimeout, at most once in total,
      and exactly once as soon as its timer is no longer pending; one that does not wait, or whose native
      send threw, never is. */
  lemma SettledExactlyOnce(s: State, now: int, events: seq<Event>, id: Id)
    requires ReachedBy(s, now, events)
    ensures TimerPending(s, id) <==> id in s.pending
    ensures Settlements(s.calls, id) == if ReplyExpected(events, id) && !TimerPending(s, id) then 1 else 0
  {
    ReachedAsAsked(s, now, events);
    TrackedIffExpected(s, now, events, id);
    InitInv(now);
    Requests.RunKeepsInv(Init(now), events);
    hide TimedOutInv, SentInv, SentAsAsked, ReplyExpected;
    if id in s.pending {
      assert s.pending[id].timer in s.timers;
    }
  }

  lemma {:induction false} SpecsAreDistinct(s: State, now: int, events: seq<Event>, i: nat, j: nat)
    requires ReachedBy(s, now, events) && i < |Specs(events)| && j < |Specs(events)|
    requires Specs(events)[i].id == Specs(events)[j].id
    ensures ExpectsReply(Specs(events)[i]) == ExpectsReply(Specs(events)[j])
  {
    ReachedAsAsked(s, now, events);
  }

  lemma TrackedIffExpected(s: State, now: int, events: seq<Event>, id: Id)
    requires ReachedBy(s, now, events)
    ensures id in s.sent && s.sent[id].tracked <==> ReplyExpected(events, id)
  {
    ReachedAsAsked(s, now, events);
    hide ReachedBy;
    if id in s.sent {
      var i :| 0 <= i < |Specs(events)| && Specs(events)[i].id == id;
      assert s.sent[id].tracked == ExpectsReply(Specs(events)[i]);
    }
  }

  /** A send that expects no reply, or that throws, is never pending and never has a timer, and neither
      onResponse nor onTimeout ever runs for it. */
  lemma NoReplyNoTimer(s: State, now: int, events: seq<Event>, spec: SendSpec)
    requires ReachedBy(s, now, events) && spec in Specs(events)
    requires spec.timeout == 0 || spec.throws
    ensures spec.id !in s.pending && !TimerPending(s, spec.id) && Settlements(s.calls, spec.id) == 0
  {
    SettledExactlyOnce(s, now, events, spec.id);
    var k :| 0 <= k < |Specs(events)| && Specs(events)[k] == spec;
    if ReplyExpected(events, spec.id) {
      var i :| 0 <= i < |Specs(events)| && Specs(events)[i].id == spec.id && ExpectsReply(Specs(events)[i]);
      SpecsAreDistinct(s, now, events, i, k);
    }
    NotExpectedNotPending(s, now, events, spec.id);
  }

  lemma NotExpectedNotPending(s: State, now: int, events: seq<Event>, id: Id)
    requires ReachedBy(s, now, events)
    ensures id in s.pending ==> ReplyExpected(events, id)
  {
    TrackedIffExpected(s, now, events, id);
    InitInv(now);
    Requests.RunKeepsInv(Init(now), events);
    hide ReplyExpected, TimersInv, CallsInv, TimedOutInv;
  }

  /** The request is pending, and its timer is due then. */
  predicate WaitsUntil(s: State, id: Id, due: int) {
    id in s.pending && s.pending[id].timer in s.timers && s.timers[s.pending[id].timer] == ReqTimer(id, due)
  }

  /** Every other send is pending with its timer right after the event in which it was made, a callback's
      sends included. */
  lemma ReplyExpectedIsPending(s: State, now: int, events: seq<Event>, e: Event, spec: SendSpec)
    requires ReachedBy(s, now, events) && Enabled(s, e) && spec in SpecsOf(e) && spec.timeout != 0 && !spec.throws
    ensures WaitsUntil(Next(s, e), spec.id, s.now + T.Delay(spec.timeout))
  {
    hide Inherited, ReachedBy, Inv, HistoryInv, Fresh, DoSends, DoSend, AfterTimeout, AfterMessage, WaitsUntil, T.Delay;
    ReachedHistory(s, now, events);
    match e
    case Request(_) => RequestIsPending(s, spec);
    case TimerFires(timer, sends) =>
      TimeoutKeeps(s, timer);
      TimeoutKeepsClock(s, timer);
      FreshSame(s, AfterTimeout(s, timer), sends);
      SendsArePending(AfterTimeout(s, timer), sends, spec);
    case MessageArrives(id, sends) =>
      MessageKeepsInv(s, id);
      MessageKeepsClock(s, id);
      FreshSame(s, AfterMessage(s, id), sends);
      SendsArePending(AfterMessage(s, id), sends, spec);
  }

  lemma RequestIsPending(s: State, spec: SendSpec)
    requires Fresh(s, [spec]) && spec.timeout != 0 && !spec.throws
    ensures WaitsUntil(DoSend(s, spec), spec.id, s.now + T.Delay(spec.timeout))
  {
    hide T.Delay, Inherited;
  }

  lemma TimeoutKeepsClock(s: State, timer: nat)
    requires timer in s.timers
    ensures AfterTimeout(s, timer).now == s.now && AfterTimeout(s, timer).sent == s.sent
  {
  }

  lemma MessageKeepsClock(s: State, id: Id)
    ensures AfterMessage(s, id).now == s.now && AfterMessage(s, id).sent == s.sent
  {
    hide Inherited;
  }

  lemma {:induction false} SendsArePending(s: State, sends: seq<SendSpec>, spec: SendSpec)
    requires Inv(s) && Fresh(s, sends) && spec in sends && spec.timeout != 0 && !spec.throws
    ensures WaitsUntil(DoSends(s, sends), spec.id, s.now + T.Delay(spec.timeout))
    decreases |sends|
  {
    hide T.Delay, Inherited, Inv, WaitsUntil;
    var next := DoSend(s, sends[0]);
    SendKeeps(s, sends[0]);
    if sends[0] == spec {
      RequestIsPending(s, spec);
      hide DoSend;
      StaysPending(next, sends[1..], spec.id, s.now + T.Delay(spec.timeout));
    } else {
      SendsArePending(next, sends[1..], spec);
    }
  }

  lemma {:induction false} StaysPending(s: State, sends: seq<SendSpec>, id: Id, due: int)
    requires Inv(s) && Fresh(s, sends) && WaitsUntil(s, id, due)
    ensures WaitsUntil(DoSends(s, sends), id, due)
    decreases |sends|
  {
    hide T.Delay, Inherited, CallsInv, TimedOutInv;
    if sends != [] {
      SendKeeps(s, sends[0]);
      assert sends[0].id != id;
      assert WaitsUntil(DoSend(s, sends[0]), id, due);
      hide Inv, DoSend, WaitsUntil;
      StaysPending(DoSend(s, sends[0]), sends[1..], id, due);
    }
  }

  /** An id is never in the pending map and in the map of timed-out ids at once. */
  lemma NeverInBothMaps(s: State, now: int, events: seq<Event>, id: Id)
    requires ReachedBy(s, now, events)
    ensures !(id in s.pending && id in s.timedOut.entries)
  {
    InitInv(now);
    Requests.RunKeepsInv(Init(now), events);
    hide TimersInv, SentInv, T.Inv, T.OneTimerPerKey, T.TimersInTime;
    assert Settlements(s.calls, id) == if id in s.sent && s.sent[id].tracked && id !in s.pending then 1 else 0;
  }

  // ---- Sends inside callbacks ---------------------------------------------

  /** Sends only add: they touch no call, no clock, no timed-out id, and no other id's request. */
  lemma {:induction false} SendsOnlyAdd(s: State, specs: seq<SendSpec>)
    requires Fresh(s, specs)
    ensures var s' := DoSends(s, specs);
            && s'.calls == s.calls && s'.now == s.now && s'.timedOut == s.timedOut && s'.timeoutAt == s.timeoutAt
            && (forall id :: id in s.sent ==>
                  && id in s'.sent && s'.sent[id] == s.sent[id]
                  && (id in s'.pending <==> id in s.pending))
            && (forall id :: id in s'.pending && id !in s.pending ==>
                  id in s'.sent && s'.sent[id].tracked)
    decreases |specs|
  {
    hide T.Delay, Inherited;
    if specs != [] {
      SendsOnlyAdd(DoSend(s, specs[0]), specs[1..]);
    }
  }

  /** Of all the replies to one request, as a multi-send can bring, at most one reaches the callback. */
  lemma AtMostOneReplyReachesCallback(s: State, now: int, events: seq<Event>, id: Id)
    requires ReachedBy(s, now, events)
    ensures Count(s.calls, OnResponse(id)) <= 1
  {
    hide ReachedBy, Count;
    SettledExactlyOnce(s, now, events, id);
  }

  // ---- History -------------------------------------------------------------

  /** What the map of timed-out ids knows is a function of the history and the clock. */
  ghost predicate KnownTimedOut(s: State, id: Id) {
    id in s.timeoutAt && s.now < s.timeoutAt[id] + 60000 && Count(s.calls, HandleData(id, true)) == 0
  }

  ghost predicate TimeoutHistory(s: State) {
    && (forall id {:trigger Count(s.calls, OnTimeout(id))} :: id in s.timeoutAt <==> Count(s.calls, OnTimeout(id)) > 0)
    && (forall id :: id in s.timeoutAt ==>
          && id in s.sent && s.timeoutAt[id] <= s.now
          && s.sent[id].at + T.Delay(s.sent[id].timeout) <= s.timeoutAt[id])
  }

  /** The map knows an id as timed out for a fixed time after its timeout, unless a late message came. */
  ghost predicate LateHistory(s: State) {
    && (forall id :: id in s.timedOut.entries ==>
          id in s.timeoutAt && s.timedOut.entries[id].expiry == s.timeoutAt[id] + RETAIN_TIMED_OUT_MS)
    && (forall id {:trigger T.Live(s.timedOut, id, s.now)} :: T.Live(s.timedOut, id, s.now) <==> KnownTimedOut(s, id))
    && (forall id {:trigger Count(s.calls, HandleData(id, true))} ::
          Count(s.calls, HandleData(id, true)) <= if id in s.timeoutAt then 1 else 0)
  }

  ghost predicate HistoryInv(s: State) {
    TimeoutHistory(s) && LateHistory(s)
  }

  /** What one more call does to the two counts the history speaks of. */
  lemma CallCounts(calls: seq<Call>, c: Call)
    ensures forall x {:trigger Count(calls + [c], OnTimeout(x))} ::
              Count(calls + [c], OnTimeout(x)) == Count(calls, OnTimeout(x)) + if c == OnTimeout(x) then 1 else 0
    ensures forall x {:trigger Count(calls + [c], HandleData(x, true))} ::
              Count(calls + [c], HandleData(x, true))
              == Count(calls, HandleData(x, true)) + if c == HandleData(x, true) then 1 else 0
  {
    forall x
      ensures Count(calls + [c], OnTimeout(x)) == Count(calls, OnTimeout(x)) + if c == OnTimeout(x) then 1 else 0
      ensures Count(calls + [c], HandleData(x, true))
           == Count(calls, HandleData(x, true)) + if c == HandleData(x, true) then 1 else 0
    {
      CountSnoc(calls, c, OnTimeout(x));
      CountSnoc(calls, c, HandleData(x, true));
    }
  }

  lemma SendsKeepHistory(s: State, specs: seq<SendSpec>)
    requires HistoryInv(s) && Fresh(s, specs)
    ensures HistoryInv(DoSends(s, specs))
  {
    SendsOnlyAdd(s, specs);
    hide Count, T.Live, T.Delay, DoSends, Fresh;
  }

  lemma TimeoutKeepsTimeoutHistory(s: State, timer: nat)
    requires TimersInv(s) && SentInv(s) && TimeoutHistory(s) && timer in s.timers && s.timers[timer].due <= s.now
    ensures TimeoutHistory(AfterTimeout(s, timer))
  {
    CallCounts(s.calls, OnTimeout(s.timers[timer].id));
    hide Count, T.Delay, T.Set;
  }

  lemma TimeoutKeepsLateHistory(s: State, timer: nat)
    requires LateHistory(s) && timer in s.timers && s.timers[timer].id !in s.timeoutAt
    ensures LateHistory(AfterTimeout(s, timer))
  {
    var id, s' := s.timers[timer].id, AfterTimeout(s, timer);
    CallCounts(s.calls, OnTimeout(id));
    assert Count(s.calls, HandleData(id, true)) == 0;
    hide Count;
    forall x
      ensures T.Live(s'.timedOut, x, s'.now) <==> if x == id then true else T.Live(s.timedOut, x, s.now)
    {
    }
    hide T.Live, T.Delay;
  }

  lemma TimeoutKeepsHistory(s: State, timer: nat)
    requires Inv(s) && HistoryInv(s) && timer in s.timers && s.timers[timer].due <= s.now
    ensures HistoryInv(AfterTimeout(s, timer))
  {
    var id := s.timers[timer].id;
    assert Settlements(s.calls, id) == 0;
    assert Count(s.calls, OnTimeout(id)) == 0;
    hide TimersInv, SentInv, CallsInv, TimedOutInv, LateHistory, AfterTimeout;
    TimeoutKeepsTimeoutHistory(s, timer);
    hide TimeoutHistory;
    TimeoutKeepsLateHistory(s, timer) by { assert TimeoutHistory(s); NotYetTimedOut(s, id); }
  }

  lemma NotYetTimedOut(s: State, id: Id)
    requires TimeoutHistory(s) && Count(s.calls, OnTimeout(id)) == 0
    ensures id !in s.timeoutAt
  {
    hide Count;
  }

  ghost predicate Late(s: State, id: Id) {
    id !in s.pending && T.Live(s.timedOut, id, s.now)
  }

  /** The call an incoming message leads to, unless it makes the callback throw. */
  function MessageCall(s: State, id: Id): Call {
    if id in s.pending then OnResponse(id) else HandleData(id, T.Live(s.timedOut, id, s.now))
  }

  lemma MessageKeepsTimeoutHistory(s: State, id: Id)
    requires TimeoutHistory(s) && !Throws(s, id)
    ensures TimeoutHistory(AfterMessage(s, id))
  {
    hide Inherited;
    CallCounts(s.calls, MessageCall(s, id));
    assert AfterMessage(s, id).calls == s.calls + [MessageCall(s, id)];
    hide Count, T.Delay, T.Live;
  }

  lemma MessageLives(s: State, id: Id)
    requires !Throws(s, id)
    ensures var s' := AfterMessage(s, id);
            && s'.now == s.now && s'.timeoutAt == s.timeoutAt && s'.calls == s.calls + [MessageCall(s, id)]
            && (forall x {:trigger T.Live(s'.timedOut, x, s.now)} ::
                  T.Live(s'.timedOut, x, s.now) <==> T.Live(s.timedOut, x, s.now) && !(x == id && Late(s, id)))
            && (forall x :: x in s'.timedOut.entries ==>
                  x in s.timedOut.entries && s'.timedOut.entries[x] == s.timedOut.entries[x])
  {
    hide Inherited;
  }

  lemma MessageKeepsLateHistory(s: State, id: Id)
    requires LateHistory(s) && !Throws(s, id)
    ensures LateHistory(AfterMessage(s, id))
  {
    hide Inherited;
    MessageLives(s, id);
    CallCounts(s.calls, MessageCall(s, id));
    hide Count, T.Live, AfterMessage;
    if Late(s, id) {
      assert KnownTimedOut(s, id);
    }
  }

  lemma MessageKeepsHistory(s: State, id: Id)
    requires HistoryInv(s)
    ensures HistoryInv(AfterMessage(s, id))
  {
    hide TimeoutHistory, LateHistory, Inherited;
    if !Throws(s, id) {
      MessageKeepsTimeoutHistory(s, id);
      MessageKeepsLateHistory(s, id);
    }
  }

  lemma ExpiryKeepsHistory(s: State, timer: nat)
    requires T.Inv(s.timedOut) && T.OneTimerPerKey(s.timedOut) && T.TimersInTime(s.timedOut)
    requires HistoryInv(s) && Enabled(s, ExpiryTimerFires(timer))
    ensures HistoryInv(Next(s, ExpiryTimerFires(timer)))
  {
    var s' := Next(s, ExpiryTimerFires(timer));
    T.FiredIsExpired(s.timedOut, timer, s.now);
    hide T.Inv, T.OneTimerPerKey, T.TimersInTime;
    CallCounts(s.calls, OnExpiry(s.timedOut.timers[timer].key));
    hide Count;
    forall x
      ensures T.Live(s'.timedOut, x, s'.now) <==> T.Live(s.timedOut, x, s.now)
    {
    }
    hide T.Live, T.Delay;
  }

  lemma TickKeepsHistory(s: State, ms: nat)
    requires HistoryInv(s)
    ensures HistoryInv(Next(s, Tick(ms)))
  {
    var s' := Next(s, Tick(ms));
    hide T.Delay, Count;
    forall x
      ensures T.Live(s'.timedOut, x, s'.now) <==> KnownTimedOut(s', x)
    {
      assert T.Live(s.timedOut, x, s.now) <==> KnownTimedOut(s, x);
    }
  }

  lemma StepKeepsHistory(s: State, e: Event)
    requires Inv(s) && HistoryInv(s) && Enabled(s, e)
    ensures HistoryInv(Next(s, e))
  {
    hide TimeoutHistory, LateHistory, TimersInv, SentInv, CallsInv, Inherited;
    match e
    case Request(spec) => SendsKeepHistory(s, [spec]);
    case TimerFires(timer, sends) =>
      TimeoutKeepsHistory(s, timer);
      FreshSame(s, AfterTimeout(s, timer), sends);
      SendsKeepHistory(AfterTimeout(s, timer), sends);
    case MessageArrives(id, sends) =>
      MessageKeepsHistory(s, id);
      FreshSame(s, AfterMessage(s, id), sends);
      SendsKeepHistory(AfterMessage(s, id), sends);
    case ExpiryTimerFires(timer) => ExpiryKeepsHistory(s, timer);
    case Tick(ms) => TickKeepsHistory(s, ms);
  }

  lemma {:induction false} RunKeepsHistory(s: State, events: seq<Event>)
    requires Inv(s) && HistoryInv(s) && CanRun(s, events)
    ensures Inv(Run(s, events)) && HistoryInv(Run(s, events))
    decreases |events|
  {
    hide Inv, HistoryInv, Enabled, Next;
    if events != [] {
      StepKeepsInv(s, events[0]);
      StepKeepsHistory(s, events[0]);
      RunKeepsHistory(Next(s, events[0]), events[1..]);
    }
  }

  lemma ReachedHistory(s: State, now: int, events: seq<Event>)
    requires ReachedBy(s, now, events)
    ensures Inv(s) && HistoryInv(s)
  {
    hide Inv;
    InitInv(now);
    RunKeepsHistory(Init(now), events);
  }

  // ---- Settlement is possible ---------------------------------------------

  /** The request with this id was sent, waits for a reply, and has been neither answered nor timed out. */
  predicate AwaitsReply(s: State, id: Id) {
    id in s.sent && s.sent[id].tracked && Settlements(s.calls, id) == 0
  }

  lemma PendingIffAwaited(s: State, id: Id)
    requires Inv(s)
    ensures id in s.pending <==> AwaitsReply(s, id)
    ensures id in s.sent ==> !Inherited(id)
  {
    hide TimersInv, TimedOutInv, Inherited, Count;
    assert Settlements(s.calls, id) == if id in s.sent && s.sent[id].tracked && id !in s.pending then 1 else 0;
  }

  /** No request waits for ever: while it awaits its reply a timer is pending for it, which can fire as soon as the
      delay is over, and the firing settles it. */
  lemma OverdueCanTimeOut(s: State, now: int, events: seq<Event>, id: Id) returns (timer: nat)
    requires ReachedBy(s, now, events) && AwaitsReply(s, id)
    ensures timer in s.timers && s.timers[timer] == ReqTimer(id, s.sent[id].at + T.Delay(s.sent[id].timeout))
    ensures s.timers[timer].due <= s.now ==>
              && Enabled(s, TimerFires(timer, []))
              && Next(s, TimerFires(timer, [])).calls == s.calls + [OnTimeout(id)]
              && !AwaitsReply(Next(s, TimerFires(timer, [])), id)
  {
    ReachedHistory(s, now, events);
    PendingIffAwaited(s, id);
    timer := s.pending[id].timer;
    CountSnoc(s.calls, OnTimeout(id), OnTimeout(id));
    hide ReachedBy, CallsInv, TimedOutInv, HistoryInv, Count, T.Delay, T.Set, Inherited;
  }

  // ---- Incoming messages ---------------------------------------------------

  /** For every state and id, a message leads to exactly one call, unless it makes the callback throw. */
  lemma OneCallIff(s: State, id: Id, sends: seq<SendSpec>)
    requires Enabled(s, MessageArrives(id, sends))
    ensures var s' := Next(s, MessageArrives(id, sends));
            && (|s'.calls| == |s.calls| + 1 <==> id in s.pending || !Inherited(id))
            && (Throws(s, id) ==> s' == s)
  {
    hide Inherited;
    var s1 := AfterMessage(s, id);
    FreshSame(s, s1, sends);
    SendsOnlyAdd(s1, sends);
  }

  /** What a message with such an id does to a node that has just started: nothing. */
  lemma ConstructorReachesNobody(now: int)
    ensures Enabled(Init(now), MessageArrives("constructor", []))
    ensures Next(Init(now), MessageArrives("constructor", [])).calls == []
  {
    assert "constructor" in INHERITED;
    OneCallIff(Init(now), "constructor", []);
  }

  /** In every reachable state, a message goes to exactly one of the waiting callback and handleData, unless
      its id is an inherited name: to the callback exactly when its request still awaits a reply, which
      ends the wait, and to handleData as late exactly when its request timed out less than a minute ago
      and no earlier message was recognised as late. */
  lemma EveryMessageGoesOneWay(s: State, now: int, events: seq<Event>, id: Id, sends: seq<SendSpec>)
    requires ReachedBy(s, now, events) && Enabled(s, MessageArrives(id, sends))
    ensures var s' := Next(s, MessageArrives(id, sends));
            && s'.calls == s.calls + (if Inherited(id) then []
                                      else if AwaitsReply(s, id) then [OnResponse(id)]
                                      else [HandleData(id, KnownTimedOut(s, id))])
            && (id in s.sent ==> id !in s'.pending)
  {
    ReachedHistory(s, now, events);
    var s1 := AfterMessage(s, id);
    FreshSame(s, s1, sends);
    SendsOnlyAdd(s1, sends);
    PendingIffAwaited(s, id);
    hide ReachedBy, Inv, TimeoutHistory, Settlements, Count, Inherited, Fresh, DoSends;
    if !Throws(s, id) {
      MessageLives(s, id);
      assert T.Live(s.timedOut, id, s.now) <==> KnownTimedOut(s, id);
    }
  }

  /** After a message for an id, nothing is kept for that id: it is neither pending nor known as timed out. */
  lemma MessageLeavesNothing(s: State, now: int, events: seq<Event>, id: Id, sends: seq<SendSpec>)
    requires ReachedBy(s, now, events) && Enabled(s, MessageArrives(id, sends))
    ensures id !in Next(s, MessageArrives(id, sends)).timedOut.entries
  {
    ReachedHistory(s, now, events);
    NeverInBothMaps(s, now, events, id);
    var s1 := AfterMessage(s, id);
    FreshSame(s, s1, sends);
    SendsOnlyAdd(s1, sends);
    hide ReachedBy, TimersInv, CallsInv, HistoryInv, Inherited, Fresh, DoSends, T.Inv, T.OneTimerPerKey, T.TimersInTime;
  }

  /** What an event adds to the history, in any state: the sends it makes are recorded as made now, a timeout
      as of now, and each callback that runs is recorded, for the id of its timer. */
  lemma EventIsRecorded(s: State, e: Event)
    requires Enabled(s, e)
    ensures var s' := Next(s, e);
            && s'.now == s.now + (if e.Tick? then e.ms else 0)
            && s'.timeoutAt == (if e.TimerFires? then s.timeoutAt[s.timers[e.timer].id := s.now] else s.timeoutAt)
            && (forall id :: id in s.sent ==> id in s'.sent && s'.sent[id] == s.sent[id])
            && (forall id :: id in s'.sent && id !in s.sent ==> s'.sent[id].at == s.now)
            && (e.TimerFires? ==> s'.calls == s.calls + [OnTimeout(s.timers[e.timer].id)])
            && (e.ExpiryTimerFires? ==> s'.calls == s.calls + [OnExpiry(s.timedOut.timers[e.timer].key)])
            && (e.Request? || e.Tick? ==> s'.calls == s.calls)
  {
    hide Inherited, Fresh, DoSends;
    match e
    case TimerFires(timer, sends) =>
      FreshSame(s, AfterTimeout(s, timer), sends);
      SendsOnlyAdd(AfterTimeout(s, timer), sends);
      SendsAreNow(AfterTimeout(s, timer), sends);
    case MessageArrives(id, sends) =>
      FreshSame(s, AfterMessage(s, id), sends);
      SendsOnlyAdd(AfterMessage(s, id), sends);
      SendsAreNow(AfterMessage(s, id), sends);
    case Request(spec) => FreshIsNew(s, spec);
    case _ =>
  }

  lemma {:induction false} SendsAreNow(s: State, sends: seq<SendSpec>)
    requires Fresh(s, sends)
    ensures forall id :: id in DoSends(s, sends).sent && id !in s.sent ==> DoSends(s, sends).sent[id].at == s.now
    decreases |sends|
  {
    hide Inherited, T.Delay;
    if sends != [] {
      SendsAreNow(DoSend(s, sends[0]), sends[1..]);
      SendsOnlyAdd(DoSend(s, sends[0]), sends[1..]);
    }
  }

  /** A message for an id is recognised as late exactly when that id timed out less than a minute ago and
      no earlier message for it was recognised. */
  lemma LateIffTimedOutRecently(s: State, now: int, events: seq<Event>, id: Id)
    requires ReachedBy(s, now, events)
    ensures AfterMessage(s, id).calls == s.calls + [HandleData(id, true)] <==>
              id !in s.pending && id in s.timeoutAt && s.now < s.timeoutAt[id] + RETAIN_TIMED_OUT_MS
              && Count(s.calls, HandleData(id, true)) == 0
  {
    ReachedHistory(s, now, events);
    PendingIffAwaited(s, id);
    EveryMessageGoesOneWay(s, now, events, id, []);
    assert KnownTimedOut(s, id) ==> id in s.sent;
    hide ReachedBy, Inv, HistoryInv, Count, Inherited, AfterMessage;
    assert forall c: Call :: (s.calls + [c])[|s.calls|] == c;
  }

  // ---- Deadlines -----------------------------------------------------------

  /** The request with this id waits for a reply, or had one. */
  predicate InTime(s: State, id: Id) {
    id in s.pending || Count(s.calls, OnResponse(id)) == 1
  }

  /** No request times out before its delay is over, so what a responder sends strictly before the deadline
      it was given finds the request still waiting or already answered. */
  lemma NoEarlyTimeout(s: State, now: int, events: seq<Event>, id: Id)
    requires ReachedBy(s, now, events) && id in s.sent && s.sent[id].tracked
    requires s.now < s.sent[id].at + T.Delay(s.sent[id].timeout)
    ensures Count(s.calls, OnTimeout(id)) == 0 && InTime(s, id)
  {
    ReachedHistory(s, now, events);
    hide ReachedBy, TimersInv, SentInv, TimedOutInv, LateHistory, T.Delay, Count;
    assert Settlements(s.calls, id) == if id !in s.pending then 1 else 0;
  }

  /** `respond` sends its reply only up to the deadline that came with the request. */
  predicate RespondGate(sendTime: int, timeout: int, replyTime: int) {
    !(replyTime > sendTime + timeout)
  }

  /** Whatever happened meanwhile, at replyTime a request made at sendTime is waiting or answered. */
  ghost predicate AlwaysInTime(id: Id, sendTime: int, timeout: int, replyTime: int) {
    forall s, now, events :: ReachedBy(s, now, events) && SentAt(s, id, sendTime, timeout, replyTime) ==> InTime(s, id)
  }

  predicate SentAt(s: State, id: Id, sendTime: int, timeout: int, time: int) {
    id in s.sent && s.sent[id] == Sent(sendTime, timeout, true) && s.now == time
  }

  /** When a reply is sure to find its request waiting or answered: before the delay that Node applies is
      over. */
  lemma AlwaysInTimeIff(id: Id, sendTime: int, timeout: int, replyTime: int)
    requires !Inherited(id) && timeout != 0 && sendTime <= replyTime
    ensures AlwaysInTime(id, sendTime, timeout, replyTime) <==> replyTime < sendTime + T.Delay(timeout)
  {
    hide Inherited, ReachedBy, InTime, T.Delay;
    if replyTime < sendTime + T.Delay(timeout) {
      forall s, now, events | ReachedBy(s, now, events) && SentAt(s, id, sendTime, timeout, replyTime)
        ensures InTime(s, id)
      {
        NoEarlyTimeout(s, now, events, id);
      }
    } else {
      var s, events := TimedOutBy(id, sendTime, timeout, replyTime);
    }
  }

  /** With one clock, when a reply that the gate lets through is sure to find its request waiting or
      answered: before the delay that Node applies is over. For a delay that Node can keep, that is before
      the deadline; for a longer one, it is at the time of sending only. */
  lemma GateMeetsDeadlineIff(id: Id, sendTime: int, timeout: int, replyTime: int)
    requires !Inherited(id) && timeout != 0 && sendTime <= replyTime
    requires RespondGate(sendTime, timeout, replyTime)
    ensures AlwaysInTime(id, sendTime, timeout, replyTime) <==> replyTime < sendTime + T.Delay(timeout)
    ensures AlwaysInTime(id, sendTime, timeout, replyTime)
            <==> if timeout <= 2147483647 then replyTime < sendTime + timeout else replyTime == sendTime
  {
    AlwaysInTimeIff(id, sendTime, timeout, replyTime);
    DelayOf(timeout);
    hide AlwaysInTime, Inherited;
  }

  /** The gate is right but for one millisecond: for a delay that Node can keep, it is open exactly when the
      reply is sure to be in time, and at the very deadline. */
  lemma GateIsRightButAtTheDeadline(id: Id, sendTime: int, timeout: int, replyTime: int)
    requires !Inherited(id) && 1 <= timeout <= 2147483647 && sendTime <= replyTime
    ensures RespondGate(sendTime, timeout, replyTime) <==>
              AlwaysInTime(id, sendTime, timeout, replyTime) || replyTime == sendTime + timeout
  {
    AlwaysInTimeIff(id, sendTime, timeout, replyTime);
    DelayOf(timeout);
    hide AlwaysInTime, Inherited;
  }

  lemma DelayOf(timeout: int)
    ensures T.Delay(timeout) == if 1 <= timeout <= T.MAX_DELAY then timeout else 1
  {
  }

  /** Once the delay is over the timer may have run. */
  lemma TimedOutBy(id: Id, sendTime: int, timeout: int, replyTime: int) returns (s: State, events: seq<Event>)
    requires !Inherited(id) && timeout != 0 && sendTime + T.Delay(timeout) <= replyTime
    ensures ReachedBy(s, sendTime, events) && SentAt(s, id, sendTime, timeout, replyTime) && !InTime(s, id)
  {
    hide Inherited;
    var spec := SendSpec(id, timeout, false);
    events := [Request(spec), Tick(replyTime - sendTime), TimerFires(0, [])];
    assert events[1..] == [Tick(replyTime - sendTime), TimerFires(0, [])] && events[1..][1..] == [TimerFires(0, [])];
    var sent := DoSend(Init(sendTime), spec);
    var waited := Next(sent, Tick(replyTime - sendTime));
    s := AfterTimeout(waited, 0);
    assert Fresh(Init(sendTime), [spec]);
    assert CanRun(waited, [TimerFires(0, [])]) && Run(waited, [TimerFires(0, [])]) == s;
    assert CanRun(sent, events[1..]) && Run(sent, events[1..]) == s;
    assert s.calls == [OnTimeout(id)];
  }

  /** At the very deadline the gate is open and the request can have timed out. */
  lemma OpenAtTheDeadline(id: Id, sendTime: int, timeout: int) returns (s: State, events: seq<Event>)
    requires !Inherited(id) && 1 <= timeout <= T.MAX_DELAY
    ensures RespondGate(sendTime, timeout, sendTime + timeout)
    ensures ReachedBy(s, sendTime, events) && SentAt(s, id, sendTime, timeout, sendTime + timeout) && !InTime(s, id)
  {
    hide Inherited, ReachedBy, InTime;
    s, events := TimedOutBy(id, sendTime, timeout, sendTime + timeout);
  }

  /** A delay longer than Node can keep is over after a millisecond, with the gate open for weeks. */
  lemma LongDelayIsOverAtOnce(id: Id, sendTime: int, timeout: int) returns (s: State, events: seq<Event>)
    requires !Inherited(id) && T.MAX_DELAY < timeout
    ensures RespondGate(sendTime, timeout, sendTime + T.MAX_DELAY)
    ensures ReachedBy(s, sendTime, events) && SentAt(s, id, sendTime, timeout, sendTime + 1) && !InTime(s, id)
  {
    hide Inherited, ReachedBy, InTime;
    s, events := TimedOutBy(id, sendTime, timeout, sendTime + 1);
  }

  // ---- How a timeout ends --------------------------------------------------

  ghost predicate ExpiryPending(s: State, id: Id) {
    exists t :: t in s.timedOut.timers && s.timedOut.timers[t].key == id
  }

  function Ends(s: State, id: Id): nat {
    Count(s.calls, OnExpiry(id)) + Count(s.calls, HandleData(id, true))
  }

  ghost predicate EndsInv(s: State) {
    forall id {:trigger Ends(s, id)} ::
      Ends(s, id) + (if ExpiryPending(s, id) then 1 else 0) == if Count(s.calls, OnTimeout(id)) > 0 then 1 else 0
  }

  /** One more call. */
  lemma EndsSnoc(s: State, s': State, c: Call, id: Id)
    requires s'.calls == s.calls + [c]
    ensures Ends(s', id) == Ends(s, id) + (if c == OnExpiry(id) || c == HandleData(id, true) then 1 else 0)
    ensures Count(s'.calls, OnTimeout(id)) == Count(s.calls, OnTimeout(id)) + (if c == OnTimeout(id) then 1 else 0)
  {
    CountSnoc(s.calls, c, OnExpiry(id));
    CountSnoc(s.calls, c, HandleData(id, true));
    CountSnoc(s.calls, c, OnTimeout(id));
  }

  lemma SameEnds(s: State, s': State)
    requires EndsInv(s) && s'.calls == s.calls && s'.timedOut == s.timedOut
    ensures EndsInv(s')
  {
    forall id
      ensures Ends(s', id) + (if ExpiryPending(s', id) then 1 else 0)
           == if Count(s'.calls, OnTimeout(id)) > 0 then 1 else 0
    {
      assert Ends(s', id) == Ends(s, id);
      assert ExpiryPending(s', id) <==> ExpiryPending(s, id);
    }
  }

  lemma TimeoutKeepsEnds(s: State, timer: nat)
    requires Inv(s) && EndsInv(s) && timer in s.timers
    ensures EndsInv(AfterTimeout(s, timer))
  {
    var x, s' := s.timers[timer].id, AfterTimeout(s, timer);
    assert Settlements(s.calls, x) == 0;
    assert s'.calls == s.calls + [OnTimeout(x)] && s'.timedOut.timers[s.timedOut.created].key == x;
    hide TimersInv, SentInv, CallsInv, T.OneTimerPerKey, T.TimersInTime, TimedOutTruth, T.Delay;
    var t := s.timedOut.created;
    assert t !in s.timedOut.timers && s'.timedOut.timers == s.timedOut.timers[t := s'.timedOut.timers[t]];
    hide T.Inv, AfterTimeout;
    forall id
      ensures Ends(s', id) + (if ExpiryPending(s', id) then 1 else 0)
           == if Count(s'.calls, OnTimeout(id)) > 0 then 1 else 0
    {
      EndsSnoc(s, s', OnTimeout(x), id);
      assert Ends(s, id) + (if ExpiryPending(s, id) then 1 else 0)
          == if Count(s.calls, OnTimeout(id)) > 0 then 1 else 0;
      TimerAdded(s, s', t, s'.timedOut.timers[t], id);
    }
  }

  lemma MessageKeepsEnds(s: State, x: Id)
    requires Inv(s) && EndsInv(s)
    ensures EndsInv(AfterMessage(s, x))
  {
    hide Inherited;
    var s' := AfterMessage(s, x);
    if Throws(s, x) {
      SameEnds(s, s');
      return;
    }
    MessageLives(s, x);
    hide TimersInv, SentInv, CallsInv, T.TimersInTime, TimedOutTruth;
    var late := Late(s, x);
    assert late ==> s.timedOut.entries[x].timer in s.timedOut.timers
                    && s'.timedOut.timers == s.timedOut.timers - {s.timedOut.entries[x].timer};
    assert !late ==> s'.timedOut.timers == s.timedOut.timers;
    forall id
      ensures Ends(s', id) + (if ExpiryPending(s', id) then 1 else 0)
           == if Count(s'.calls, OnTimeout(id)) > 0 then 1 else 0
    {
      EndsSnoc(s, s', MessageCall(s, x), id);
      assert Ends(s, id) + (if ExpiryPending(s, id) then 1 else 0)
          == if Count(s.calls, OnTimeout(id)) > 0 then 1 else 0;
      if late {
        TimerGone(s, s', s.timedOut.entries[x].timer, id);
      } else {
        assert ExpiryPending(s', id) <==> ExpiryPending(s, id);
      }
    }
  }

  /** Taking away the one timer of a key. */
  lemma TimerGone(s: State, s': State, t: nat, id: Id)
    requires T.OneTimerPerKey(s.timedOut) && t in s.timedOut.timers && s'.timedOut.timers == s.timedOut.timers - {t}
    ensures ExpiryPending(s', id) <==> ExpiryPending(s, id) && s.timedOut.timers[t].key != id
  {
    if u :| u in s.timedOut.timers && s.timedOut.timers[u].key == id && s.timedOut.timers[t].key != id {
      assert u in s'.timedOut.timers && s'.timedOut.timers[u].key == id;
    }
    if u :| u in s'.timedOut.timers && s'.timedOut.timers[u].key == id {
      assert u in s.timedOut.timers && s.timedOut.timers[u].key == id;
    }
  }

  /** Adding one. */
  lemma TimerAdded(s: State, s': State, t: nat, x: T.Timer<TimedOut>, id: Id)
    requires t !in s.timedOut.timers && s'.timedOut.timers == s.timedOut.timers[t := x]
    ensures ExpiryPending(s', id) <==> ExpiryPending(s, id) || x.key == id
  {
    if u :| u in s.timedOut.timers && s.timedOut.timers[u].key == id {
      assert u in s'.timedOut.timers && s'.timedOut.timers[u].key == id;
    }
    assert t in s'.timedOut.timers && s'.timedOut.timers[t] == x;
    if u :| u in s'.timedOut.timers && s'.timedOut.timers[u].key == id && x.key != id {
      assert u in s.timedOut.timers && s.timedOut.timers[u].key == id;
    }
  }

  lemma ExpiryKeepsEnds(s: State, t: nat)
    requires Inv(s) && EndsInv(s) && t in s.timedOut.timers && s.timedOut.timers[t].due <= s.now
    ensures EndsInv(Next(s, ExpiryTimerFires(t)))
  {
    var s' := Next(s, ExpiryTimerFires(t));
    hide TimersInv, SentInv, CallsInv, T.TimersInTime, TimedOutTruth, T.Inv;
    forall id
      ensures Ends(s', id) + (if ExpiryPending(s', id) then 1 else 0)
           == if Count(s'.calls, OnTimeout(id)) > 0 then 1 else 0
    {
      EndsSnoc(s, s', OnExpiry(s.timedOut.timers[t].key), id);
      assert Ends(s, id) + (if ExpiryPending(s, id) then 1 else 0)
          == if Count(s.calls, OnTimeout(id)) > 0 then 1 else 0;
      TimerGone(s, s', t, id);
    }
  }

  lemma StepKeepsEnds(s: State, e: Event)
    requires Inv(s) && EndsInv(s) && Enabled(s, e)
    ensures EndsInv(Next(s, e))
  {
    hide Inv, EndsInv, Inherited, AfterTimeout, AfterMessage;
    match e
    case Request(spec) =>
      SendsOnlyAdd(s, [spec]);
      SameEnds(s, DoSends(s, [spec]));
    case TimerFires(timer, sends) =>
      TimeoutKeepsEnds(s, timer);
      TimeoutKeepsClock(s, timer);
      FreshSame(s, AfterTimeout(s, timer), sends);
      SendsOnlyAdd(AfterTimeout(s, timer), sends);
      SameEnds(AfterTimeout(s, timer), Next(s, e));
    case MessageArrives(id, sends) =>
      MessageKeepsEnds(s, id);
      MessageKeepsClock(s, id);
      FreshSame(s, AfterMessage(s, id), sends);
      SendsOnlyAdd(AfterMessage(s, id), sends);
      SameEnds(AfterMessage(s, id), Next(s, e));
    case ExpiryTimerFires(timer) => ExpiryKeepsEnds(s, timer);
    case Tick(_) => SameEnds(s, Next(s, e));
  }

  lemma {:induction false} RunKeepsEnds(s: State, events: seq<Event>)
    requires Inv(s) && EndsInv(s) && CanRun(s, events)
    ensures EndsInv(Run(s, events))
    decreases |events|
  {
    hide Inv, EndsInv, Enabled, Next;
    if events != [] {
      StepKeepsInv(s, events[0]);
      StepKeepsEnds(s, events[0]);
      RunKeepsEnds(Next(s, events[0]), events[1..]);
    }
  }

  /** Every request that timed out ends in one way only: a message for it is recognised as late, or onExpiry
      runs for it, or its expiry timer is still pending; and nothing of that for any other id. */
  lemma EveryTimeoutEndsOnce(s: State, now: int, events: seq<Event>, id: Id)
    requires ReachedBy(s, now, events)
    ensures Count(s.calls, OnExpiry(id)) + Count(s.calls, HandleData(id, true))
          + (if ExpiryPending(s, id) then 1 else 0)
         == if Count(s.calls, OnTimeout(id)) > 0 then 1 else 0
  {
    InitInv(now);
    assert EndsInv(Init(now));
    hide Inv, CanRun, Run;
    RunKeepsEnds(Init(now), events);
    assert Ends(s, id) + (if ExpiryPending(s, id) then 1 else 0)
          == if Count(s.calls, OnTimeout(id)) > 0 then 1 else 0;
  }

  // ---- Lifecycle -----------------------------------------------------------

  datatype Phase = Unsent | NoReply | Waiting | Answered | JustTimedOut | LateAnswered | Lapsed

  /** Where a request id is, told from the callbacks that ran and the clock. */
  function PhaseOf(s: State, id: Id): Phase {
    if id !in s.sent then Unsent
    else if !s.sent[id].tracked then NoReply
    else if id in s.pending then Waiting
    else if Count(s.calls, OnResponse(id)) > 0 then Answered
    else if Count(s.calls, HandleData(id, true)) > 0 then LateAnswered
    else if id in s.timeoutAt && s.now < s.timeoutAt[id] + RETAIN_TIMED_OUT_MS then JustTimedOut
    else Lapsed
  }

  /** The only ways on. */
  predicate MayFollow(p: Phase, q: Phase) {
    || p == q
    || (p == Unsent && (q == NoReply || q == Waiting))
    || (p == Waiting && (q == Answered || q == JustTimedOut))
    || (p == JustTimedOut && (q == LateAnswered || q == Lapsed))
  }

  lemma SendsFollow(s: State, specs: seq<SendSpec>, id: Id)
    requires Inv(s) && HistoryInv(s) && Fresh(s, specs)
    ensures var p, q := PhaseOf(s, id), PhaseOf(DoSends(s, specs), id);
            p == q || (p == Unsent && (q == NoReply || q == Waiting))
  {
    SendsOnlyAdd(s, specs);
    SendsKeep(s, specs);
    var s' := DoSends(s, specs);
    assert Settlements(s'.calls, id) == if id in s'.sent && s'.sent[id].tracked && id !in s'.pending then 1 else 0;
    assert Settlements(s.calls, id) == if id in s.sent && s.sent[id].tracked && id !in s.pending then 1 else 0;
  }

  lemma TimeoutFollows(s: State, timer: nat, id: Id)
    requires Inv(s) && HistoryInv(s) && timer in s.timers
    ensures var p, q := PhaseOf(s, id), PhaseOf(AfterTimeout(s, timer), id);
            p == q || (p == Waiting && q == JustTimedOut)
  {
    var x := s.timers[timer].id;
    assert Settlements(s.calls, x) == 0;
    assert Count(s.calls, HandleData(x, true)) <= if x in s.timeoutAt then 1 else 0;
    assert x in s.timeoutAt <==> Count(s.calls, OnTimeout(x)) > 0;
    CountSnoc(s.calls, OnTimeout(x), OnResponse(id));
    CountSnoc(s.calls, OnTimeout(x), HandleData(id, true));
    hide CallsInv, TimedOutInv, HistoryInv, T.Delay;
  }

  lemma MessageFollows(s: State, x: Id, id: Id)
    requires Inv(s) && HistoryInv(s)
    ensures var p, q := PhaseOf(s, id), PhaseOf(AfterMessage(s, x), id);
            p == q || (p == Waiting && q == Answered) || (p == JustTimedOut && q == LateAnswered)
  {
    hide Inherited;
    if Throws(s, x) {
      return;
    }
    MessageLives(s, x);
    var s' := AfterMessage(s, x);
    var call := MessageCall(s, x);
    CountSnoc(s.calls, call, OnResponse(id));
    CountSnoc(s.calls, call, HandleData(id, true));
    assert Settlements(s.calls, id) == if id in s.sent && s.sent[id].tracked && id !in s.pending then 1 else 0;
    assert id in s.timeoutAt <==> Count(s.calls, OnTimeout(id)) > 0;
    if Late(s, x) {
      assert KnownTimedOut(s, x);
    }
    assert s'.sent == s.sent && (x != id ==> (id in s'.pending <==> id in s.pending));
    assert x == id ==> id !in s'.pending;
    hide Inv, HistoryInv, T.Live, AfterMessage;
  }

  /** Every event moves every request id only along its life: unsent, waiting, then answered or timed out,
      and after a timeout late-answered or lapsed; or unsent, and no reply expected. */
  lemma EveryStepFollowsLifecycle(s: State, now: int, events: seq<Event>, e: Event, id: Id)
    requires ReachedBy(s, now, events) && Enabled(s, e)
    ensures MayFollow(PhaseOf(s, id), PhaseOf(Next(s, e), id))
  {
    ReachedHistory(s, now, events);
    hide ReachedBy, Inv, HistoryInv, PhaseOf, Inherited;
    match e
    case Request(spec) => SendsFollow(s, [spec], id);
    case TimerFires(timer, sends) => TimerEventFollows(s, timer, sends, id);
    case MessageArrives(x, sends) => MessageEventFollows(s, x, sends, id);
    case ExpiryTimerFires(timer) => ExpiryFollows(s, timer, id);
    case Tick(ms) => TickFollows(s, ms, id);
  }

  lemma TimerEventFollows(s: State, timer: nat, sends: seq<SendSpec>, id: Id)
    requires Inv(s) && HistoryInv(s) && Enabled(s, TimerFires(timer, sends))
    ensures MayFollow(PhaseOf(s, id), PhaseOf(Next(s, TimerFires(timer, sends)), id))
  {
    hide Inv, HistoryInv, PhaseOf, Inherited;
    var s1 := AfterTimeout(s, timer);
    TimeoutFollows(s, timer, id);
    TimeoutKeeps(s, timer);
    TimeoutKeepsHistory(s, timer);
    FreshSame(s, s1, sends);
    SendsFollow(s1, sends, id);
  }

  lemma MessageEventFollows(s: State, x: Id, sends: seq<SendSpec>, id: Id)
    requires Inv(s) && HistoryInv(s) && Enabled(s, MessageArrives(x, sends))
    ensures MayFollow(PhaseOf(s, id), PhaseOf(Next(s, MessageArrives(x, sends)), id))
  {
    hide Inv, HistoryInv, PhaseOf, Inherited;
    var s1 := AfterMessage(s, x);
    MessageFollows(s, x, id);
    MessageKeeps(s, x);
    FreshSame(s, s1, sends);
    SendsFollow(s1, sends, id);
  }

  lemma MessageKeeps(s: State, id: Id)
    requires Inv(s) && HistoryInv(s)
    ensures Inv(AfterMessage(s, id)) && HistoryInv(AfterMessage(s, id))
  {
    hide Inv, HistoryInv, Inherited;
    MessageKeepsInv(s, id);
    MessageKeepsHistory(s, id);
  }

  lemma ExpiryFollows(s: State, timer: nat, id: Id)
    requires Enabled(s, ExpiryTimerFires(timer))
    ensures PhaseOf(Next(s, ExpiryTimerFires(timer)), id) == PhaseOf(s, id)
  {
    var c := OnExpiry(s.timedOut.timers[timer].key);
    CountSnoc(s.calls, c, OnResponse(id));
    CountSnoc(s.calls, c, HandleData(id, true));
  }

  lemma TickFollows(s: State, ms: nat, id: Id)
    ensures MayFollow(PhaseOf(s, id), PhaseOf(Next(s, Tick(ms)), id))
  {
  }
}
