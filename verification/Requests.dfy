/** Requests and their responses: the pending map, its timeout timers and the map of timed-out ids. Each
    JavaScript event runs to completion, so each is one step. */
module Requests {
  import T = TtlMap

  type Id = string

  /** The pending map is a JavaScript object, and these are the names that every such object inherits:
      looking one up finds something though nothing was stored. */
  const INHERITED: set<Id> := {
    "constructor", "hasOwnProperty", "isPrototypeOf", "propertyIsEnumerable", "toLocaleString", "toString",
    "valueOf", "__proto__", "__defineGetter__", "__defineSetter__", "__lookupGetter__", "__lookupSetter__"
  }

  predicate Inherited(id: Id) {
    id in INHERITED
  }

  const RETAIN_TIMED_OUT_MS := 1000 * 60

  /** An entry of the pending map; its callback clears `timer` and calls onResponse. */
  datatype Pending = Pending(timer: nat, timestamp: int)

  /** A pending timeout timer, which knows the id it is for. */
  datatype ReqTimer = ReqTimer(id: Id, due: int)

  datatype TimedOut = TimedOut(timedOutAt: int, requestCreatedAt: int)

  /** What `send` was asked: a fresh id, a timeout, and whether the native send throws. */
  datatype SendSpec = SendSpec(id: Id, timeout: int, throws: bool)

  /** History: when an id was sent, and whether a response was to be waited for. */
  datatype Sent = Sent(at: int, timeout: int, tracked: bool)

  /** History: the callbacks that ran. `late` marks a message for an id that had timed out. */
  datatype Call =
    | OnResponse(id: Id)
    | OnTimeout(id: Id)
    | HandleData(id: Id, late: bool)
    | OnExpiry(id: Id)

  datatype State = State(
    now: int,
    pending: map<Id, Pending>,
    timers: map<nat, ReqTimer>,
    created: nat,
    timedOut: T.Ttl<TimedOut>,
    sent: map<Id, Sent>,
    timeoutAt: map<Id, int>,   // history: when an id timed out
    calls: seq<Call>)

  function Init(now: int): State {
    State(now, map[], map[], 0, T.Empty(), map[], map[], [])
  }

  // ---- Sending -------------------------------------------------------------

  /** `_sendAug`: the native send comes first, and only if it does not throw and a timeout is given are
      the timer and the pending entry set. */
  function DoSend(s: State, spec: SendSpec): State {
    var tracked := !spec.throws && spec.timeout != 0;
    var s1 := s.(sent := s.sent[spec.id := Sent(s.now, spec.timeout, tracked)]);
    if !tracked then s1
    else
      s1.(timers := s.timers[s.created := ReqTimer(spec.id, s.now + T.Delay(spec.timeout))],
          pending := s.pending[spec.id := Pending(s.created, s.now)],
          created := s.created + 1)
  }

  /** The sends a callback makes while it runs. */
  function DoSends(s: State, specs: seq<SendSpec>): State
    decreases |specs|
  {
    if specs == [] then s else DoSends(DoSend(s, specs[0]), specs[1..])
  }

  lemma NoSends(s: State)
    ensures DoSends(s, []) == s
  {
  }

  /** Ids are made by a UUID generator: never used before by this node, and never an inherited name. */
  predicate Fresh(s: State, specs: seq<SendSpec>)
    decreases |specs|
  {
    specs == [] || (specs[0].id !in s.sent && !Inherited(specs[0].id) && Fresh(DoSend(s, specs[0]), specs[1..]))
  }

  // ---- Events --------------------------------------------------------------

  /** A message whose id is an inherited name makes the listen callback throw: what it finds under that
      name is no pending entry and has no callback. The exception is caught and logged. */
  predicate Throws(s: State, id: Id) {
    id !in s.pending && Inherited(id)
  }

  /** `sends` are the sends made by the callback that the event runs, if it runs one. */
  datatype Event =
    | Request(spec: SendSpec)
    | TimerFires(timer: nat, sends: seq<SendSpec>)
    | MessageArrives(id: Id, sends: seq<SendSpec>)
    | ExpiryTimerFires(timer: nat)
    | Tick(ms: nat)

  predicate Enabled(s: State, e: Event) {
    match e
    case Request(spec) => Fresh(s, [spec])
    case TimerFires(timer, sends) => timer in s.timers && s.timers[timer].due <= s.now && Fresh(s, sends)
    case MessageArrives(id, sends) => Fresh(s, sends) && (Throws(s, id) ==> sends == [])
    case ExpiryTimerFires(timer) => timer in s.timedOut.timers && s.timedOut.timers[timer].due <= s.now
    case Tick(_) => true
  }

  /** The timeout timer's callback up to its call of onTimeout. */
  function AfterTimeout(s: State, timer: nat): State
    requires timer in s.timers
  {
    var id := s.timers[timer].id;
    var createdAt := if id in s.pending then s.pending[id].timestamp else 0;
    s.(timers := s.timers - {timer},
       timedOut := T.Set(s.timedOut, id, TimedOut(s.now, createdAt), RETAIN_TIMED_OUT_MS, s.now),
       pending := s.pending - {id},
       timeoutAt := s.timeoutAt[id := s.now],
       calls := s.calls + [OnTimeout(id)])
  }

  /** The listen callback up to its call of onResponse or handleData, or until it throws. */
  function AfterMessage(s: State, id: Id): State {
    if id in s.pending then
      s.(pending := s.pending - {id},
         timers := s.timers - {s.pending[id].timer},
         calls := s.calls + [OnResponse(id)])
    else if Inherited(id) then s
    else
      var late := T.Lookup(s.timedOut, id, s.now).Some?;
      var got := T.AfterGet(s.timedOut, id, s.now);
      s.(timedOut := if late then T.Delete(got, id) else got,
         calls := s.calls + [HandleData(id, late)])
  }

  function Next(s: State, e: Event): State
    requires Enabled(s, e)
  {
    match e
    case Request(spec) => DoSend(s, spec)
    case TimerFires(timer, sends) => DoSends(AfterTimeout(s, timer), sends)
    case MessageArrives(id, sends) => DoSends(AfterMessage(s, id), sends)
    case ExpiryTimerFires(timer) =>
      s.(timedOut := T.Fire(s.timedOut, timer), calls := s.calls + [OnExpiry(s.timedOut.timers[timer].key)])
    case Tick(ms) => s.(now := s.now + ms)
  }

  predicate CanRun(s: State, events: seq<Event>)
    decreases |events|
  {
    events == [] || (Enabled(s, events[0]) && CanRun(Next(s, events[0]), events[1..]))
  }

  function Run(s: State, events: seq<Event>): State
    requires CanRun(s, events)
    decreases |events|
  {
    if events == [] then s else Run(Next(s, events[0]), events[1..])
  }

  // ---- The invariant -------------------------------------------------------

  function Count(calls: seq<Call>, c: Call): nat {
    multiset(calls)[c]
  }

  /** How often the request was settled, one way or the other. */
  function Settlements(calls: seq<Call>, id: Id): nat {
    Count(calls, OnResponse(id)) + Count(calls, OnTimeout(id))
  }

  /** A timer is pending if and only if its id is in the pending map, with that timer. */
  ghost predicate TimersInv(s: State) {
    && (forall id :: id in s.pending ==>
          s.pending[id].timer in s.timers && s.timers[s.pending[id].timer].id == id)
    && (forall t :: t in s.timers ==>
          t < s.created && s.timers[t].id in s.pending && s.pending[s.timers[t].id].timer == t)
  }

  /** What is pending was sent, when it says, and its timer is due when it should be. */
  ghost predicate SentInv(s: State) {
    && (forall id :: id in s.sent ==> s.sent[id].at <= s.now && !Inherited(id))
    && (forall id :: id in s.pending ==>
          && id in s.sent && s.sent[id].tracked
          && s.pending[id].timestamp == s.sent[id].at
          && (s.pending[id].timer in s.timers ==>
                s.timers[s.pending[id].timer].due == s.sent[id].at + T.Delay(s.sent[id].timeout)))
  }

  ghost predicate CallsInv(s: State) {
    forall id {:trigger Settlements(s.calls, id)} ::
      Settlements(s.calls, id)
      == if id in s.sent && s.sent[id].tracked && id !in s.pending then 1 else 0
  }

  /** Only ids that timed out are known as such, each once, with the truth about them. */
  ghost predicate TimedOutTruth(s: State) {
    && (forall id :: id in s.timedOut.entries ==>
          && id in s.sent && Count(s.calls, OnTimeout(id)) == 1
          && s.timedOut.entries[id].expiry == s.timedOut.entries[id].value.timedOutAt + RETAIN_TIMED_OUT_MS
          && s.timedOut.entries[id].value.requestCreatedAt == s.sent[id].at)
    && (forall t :: t in s.timedOut.timers ==> Count(s.calls, OnTimeout(s.timedOut.timers[t].key)) == 1)
  }

  ghost predicate TimedOutInv(s: State) {
    && T.Inv(s.timedOut) && T.OneTimerPerKey(s.timedOut) && T.TimersInTime(s.timedOut)
    && TimedOutTruth(s)
  }

  ghost predicate Inv(s: State) {
    TimersInv(s) && SentInv(s) && CallsInv(s) && TimedOutInv(s)
  }

  lemma CountSnoc(calls: seq<Call>, c: Call, d: Call)
    ensures Count(calls + [c], d) == Count(calls, d) + if c == d then 1 else 0
  {
  }

  // ---- Sends keep it -------------------------------------------------------

  lemma SendKeepsTimers(s: State, spec: SendSpec)
    requires TimersInv(s) && SentInv(s) && spec.id !in s.sent && !Inherited(spec.id)
    ensures TimersInv(DoSend(s, spec)) && SentInv(DoSend(s, spec))
  {
    assert spec.id !in s.pending;
    SendKeepsSent(s, spec);
    hide T.Delay, SentInv;
  }

  lemma SendKeepsSent(s: State, spec: SendSpec)
    requires SentInv(s) && spec.id !in s.sent && !Inherited(spec.id)
    requires forall id :: id in s.pending ==> s.pending[id].timer < s.created
    ensures SentInv(DoSend(s, spec))
  {
    hide T.Delay, Inherited;
  }

  lemma SendKeepsCalls(s: State, spec: SendSpec)
    requires CallsInv(s) && spec.id !in s.sent
    ensures CallsInv(DoSend(s, spec))
  {
    hide Settlements, T.Delay;
    assert Settlements(s.calls, spec.id) == 0;
  }

  lemma SendKeepsTimedOut(s: State, spec: SendSpec)
    requires TimedOutInv(s) && spec.id !in s.sent
    ensures TimedOutInv(DoSend(s, spec))
  {
    hide T.Inv, T.OneTimerPerKey, T.TimersInTime, Count, T.Delay;
  }

  lemma SendKeeps(s: State, spec: SendSpec)
    requires Inv(s) && spec.id !in s.sent && !Inherited(spec.id)
    ensures Inv(DoSend(s, spec))
  {
    hide TimersInv, SentInv, CallsInv, TimedOutInv, DoSend, Inherited;
    SendKeepsTimers(s, spec);
    SendKeepsCalls(s, spec);
    SendKeepsTimedOut(s, spec);
  }

  lemma {:induction false} SendsKeep(s: State, specs: seq<SendSpec>)
    requires Inv(s) && Fresh(s, specs)
    ensures Inv(DoSends(s, specs))
    decreases |specs|
  {
    hide Inv, DoSend, Inherited;
    if specs != [] {
      SendKeeps(s, specs[0]);
      SendsKeep(DoSend(s, specs[0]), specs[1..]);
    }
  }

  /** Freshness only depends on the ids used so far. */
  lemma {:induction false} FreshSame(s: State, s': State, specs: seq<SendSpec>)
    requires Fresh(s, specs) && s'.sent.Keys == s.sent.Keys
    ensures Fresh(s', specs)
    decreases |specs|
  {
    if specs != [] {
      SendUsesId(s, specs[0]);
      SendUsesId(s', specs[0]);
      hide DoSend, Inherited;
      FreshSame(DoSend(s, specs[0]), DoSend(s', specs[0]), specs[1..]);
    }
  }

  lemma SendUsesId(s: State, spec: SendSpec)
    ensures DoSend(s, spec).sent.Keys == s.sent.Keys + {spec.id}
  {
  }

  // ---- Timers and messages keep it ----------------------------------------

  lemma TimeoutKeepsTimers(s: State, timer: nat)
    requires TimersInv(s) && SentInv(s) && timer in s.timers
    ensures TimersInv(AfterTimeout(s, timer)) && SentInv(AfterTimeout(s, timer))
  {
    hide T.Delay, Inherited;
  }

  lemma TimeoutCounts(s: State, timer: nat)
    requires timer in s.timers
    ensures var id, calls := s.timers[timer].id, AfterTimeout(s, timer).calls;
            && (forall x {:trigger Settlements(calls, x)} ::
                  Settlements(calls, x) == Settlements(s.calls, x) + if x == id then 1 else 0)
            && (forall x {:trigger Count(calls, OnTimeout(x))} ::
                  Count(calls, OnTimeout(x)) == Count(s.calls, OnTimeout(x)) + if x == id then 1 else 0)
  {
    var id, calls := s.timers[timer].id, AfterTimeout(s, timer).calls;
    forall x
      ensures Settlements(calls, x) == Settlements(s.calls, x) + if x == id then 1 else 0
      ensures Count(calls, OnTimeout(x)) == Count(s.calls, OnTimeout(x)) + if x == id then 1 else 0
    {
      CountSnoc(s.calls, OnTimeout(id), OnTimeout(x));
      CountSnoc(s.calls, OnTimeout(id), OnResponse(x));
    }
  }

  lemma TimeoutKeepsCalls(s: State, timer: nat)
    requires TimersInv(s) && SentInv(s) && CallsInv(s) && timer in s.timers
    ensures CallsInv(AfterTimeout(s, timer))
  {
    TimeoutCounts(s, timer);
    hide Settlements, T.Delay;
  }

  lemma TimeoutKeepsTruth(s: State, timer: nat)
    requires TimedOutTruth(s) && timer in s.timers && s.timers[timer].id in s.pending
    requires s.timers[timer].id in s.sent && s.pending[s.timers[timer].id].timestamp == s.sent[s.timers[timer].id].at
    requires Count(s.calls, OnTimeout(s.timers[timer].id)) == 0
    ensures TimedOutTruth(AfterTimeout(s, timer))
  {
    TimeoutCounts(s, timer);
    hide T.Delay, Settlements, Count;
  }

  lemma TimeoutKeepsTimedOut(s: State, timer: nat)
    requires TimersInv(s) && SentInv(s) && TimedOutInv(s) && timer in s.timers
    requires Count(s.calls, OnTimeout(s.timers[timer].id)) == 0
    ensures TimedOutInv(AfterTimeout(s, timer))
  {
    var id := s.timers[timer].id;
    assert T.Quiet(s.timedOut, id);
    assert id in s.pending && id in s.sent && s.pending[id].timestamp == s.sent[id].at;
    hide T.Inv, T.OneTimerPerKey, T.TimersInTime, T.Delay, TimedOutTruth, TimersInv, SentInv, T.Set;
    T.SetKeeps(s.timedOut, id, TimedOut(s.now, s.pending[id].timestamp), RETAIN_TIMED_OUT_MS, s.now);
    TimeoutKeepsTruth(s, timer);
  }

  lemma TimeoutKeeps(s: State, timer: nat)
    requires Inv(s) && timer in s.timers
    ensures Inv(AfterTimeout(s, timer))
  {
    assert Settlements(s.calls, s.timers[timer].id) == 0;
    hide TimersInv, SentInv, CallsInv, TimedOutInv;
    TimeoutKeepsTimers(s, timer);
    TimeoutKeepsCalls(s, timer);
    TimeoutKeepsTimedOut(s, timer);
  }

  lemma ResponseKeeps(s: State, id: Id)
    requires Inv(s) && id in s.pending
    ensures Inv(AfterMessage(s, id))
  {
    var s' := AfterMessage(s, id);
    hide T.Inv, T.OneTimerPerKey, T.TimersInTime, T.Delay, Inherited;
    forall x
      ensures Settlements(s'.calls, x) == Settlements(s.calls, x) + if x == id then 1 else 0
      ensures Count(s'.calls, OnTimeout(x)) == Count(s.calls, OnTimeout(x))
    {
      CountSnoc(s.calls, OnResponse(id), OnTimeout(x));
      CountSnoc(s.calls, OnResponse(id), OnResponse(x));
    }
    hide Settlements, Count;
  }

  lemma UnsettlingCall(s: State, s': State, c: Call)
    requires s'.calls == s.calls + [c] && !c.OnResponse? && !c.OnTimeout?
    ensures forall x :: Settlements(s'.calls, x) == Settlements(s.calls, x)
    ensures forall x :: Count(s'.calls, OnTimeout(x)) == Count(s.calls, OnTimeout(x))
  {
    forall x
      ensures Settlements(s'.calls, x) == Settlements(s.calls, x)
      ensures Count(s'.calls, OnTimeout(x)) == Count(s.calls, OnTimeout(x))
    {
      CountSnoc(s.calls, c, OnTimeout(x));
      CountSnoc(s.calls, c, OnResponse(x));
    }
  }

  /** Entries and timers are only taken away. */
  lemma FewerKeepsTruth(s: State, s': State)
    requires TimedOutTruth(s) && s'.sent == s.sent
    requires forall id :: id in s'.timedOut.entries ==>
               id in s.timedOut.entries && s'.timedOut.entries[id] == s.timedOut.entries[id]
    requires forall t :: t in s'.timedOut.timers ==>
               t in s.timedOut.timers && s'.timedOut.timers[t] == s.timedOut.timers[t]
    requires forall x :: Count(s'.calls, OnTimeout(x)) == Count(s.calls, OnTimeout(x))
    ensures TimedOutTruth(s')
  {
    hide Count;
  }

  lemma UnexpectedKeepsTimedOut(s: State, id: Id)
    requires TimedOutInv(s) && id !in s.pending && !Inherited(id)
    ensures TimedOutInv(AfterMessage(s, id))
  {
    hide Inherited, T.Inv, T.OneTimerPerKey, T.TimersInTime, TimedOutTruth, Settlements, Count;
    var s' := AfterMessage(s, id);
    var got := T.AfterGet(s.timedOut, id, s.now);
    T.GetKeeps(s.timedOut, id, s.now);
    T.DeleteKeeps(got, id);
    UnsettlingCall(s, s', HandleData(id, T.Lookup(s.timedOut, id, s.now).Some?));
    FewerKeepsTruth(s, s');
  }

  lemma UnexpectedKeeps(s: State, id: Id)
    requires Inv(s) && id !in s.pending && !Inherited(id)
    ensures Inv(AfterMessage(s, id))
  {
    hide Inherited, TimedOutInv, Settlements;
    UnexpectedKeepsTimedOut(s, id);
    UnsettlingCall(s, AfterMessage(s, id), HandleData(id, T.Lookup(s.timedOut, id, s.now).Some?));
    hide T.Lookup, T.AfterGet, T.Delete, T.Delay;
  }

  lemma MessageKeepsInv(s: State, id: Id)
    requires Inv(s)
    ensures Inv(AfterMessage(s, id))
  {
    hide Inv, Inherited;
    if id in s.pending {
      ResponseKeeps(s, id);
    } else if !Inherited(id) {
      UnexpectedKeeps(s, id);
    }
  }

  lemma ExpiryKeeps(s: State, timer: nat)
    requires Inv(s) && timer in s.timedOut.timers
    ensures Inv(s.(timedOut := T.Fire(s.timedOut, timer),
                   calls := s.calls + [OnExpiry(s.timedOut.timers[timer].key)]))
  {
    var s' := s.(timedOut := T.Fire(s.timedOut, timer),
                 calls := s.calls + [OnExpiry(s.timedOut.timers[timer].key)]);
    hide T.Inv, T.OneTimerPerKey, T.TimersInTime, Settlements, Count, T.Delay, TimedOutTruth, Inherited;
    T.FireKeeps(s.timedOut, timer);
    UnsettlingCall(s, s', OnExpiry(s.timedOut.timers[timer].key));
    FewerKeepsTruth(s, s');
  }

  lemma StepKeepsInv(s: State, e: Event)
    requires Inv(s) && Enabled(s, e)
    ensures Inv(Next(s, e))
  {
    hide Inherited;
    match e
    case Request(spec) => SendKeeps(s, spec);
    case TimerFires(timer, sends) =>
      TimeoutKeeps(s, timer);
      FreshSame(s, AfterTimeout(s, timer), sends);
      hide Inv;
      SendsKeep(AfterTimeout(s, timer), sends);
    case MessageArrives(id, sends) =>
      MessageKeepsInv(s, id);
      FreshSame(s, AfterMessage(s, id), sends);
      hide Inv;
      SendsKeep(AfterMessage(s, id), sends);
    case ExpiryTimerFires(timer) => ExpiryKeeps(s, timer);
    case Tick(_) =>
  }

  lemma InitInv(now: int)
    ensures Inv(Init(now))
  {
  }

  lemma {:induction false} RunKeepsInv(s: State, events: seq<Event>)
    requires Inv(s) && CanRun(s, events)
    ensures Inv(Run(s, events))
    decreases |events|
  {
    hide Inv, Enabled, Next;
    if events != [] {
      StepKeepsInv(s, events[0]);
      RunKeepsInv(Next(s, events[0]), events[1..]);
    }
  }
}
