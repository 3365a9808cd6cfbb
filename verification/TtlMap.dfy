/** The map whose entries expire, on top of timers that fire late rather than early. */
module TtlMap {
  import opened Bytes

  type Key = string

  /** The one key that a JavaScript object does not store like any other: setting it replaces the object's
      prototype, and deleting it does nothing. */
  const PROTO: Key := "__proto__"

  /** Node runs a timer after 1 ms when the delay is not between 1 and 2147483647. */
  const MAX_DELAY := 0x7FFF_FFFF

  function Delay(ms: int): int {
    if 1 <= ms <= MAX_DELAY then ms else 1
  }

  datatype TtlValue<+V> = TtlValue(value: V, expiry: int, timer: nat)

  /** A timer that has been set and has neither fired nor been cleared. */
  datatype Timer<+V> = Timer(key: Key, value: V, due: int)

  /** `timers` holds the pending timers; `created` numbers them. `fired` and `cleared` are history: the
      timers whose callback ran, and those cleared by a delete. */
  datatype Ttl<V> = Ttl(
    entries: map<Key, TtlValue<V>>, timers: map<nat, Timer<V>>, created: nat, fired: seq<nat>, cleared: set<nat>)

  function Empty<V>(): Ttl<V> {
    Ttl(map[], map[], 0, [], {})
  }

  // ---- Operations ----------------------------------------------------------

  function Set<V>(m: Ttl<V>, key: Key, value: V, ttl: int, now: int): Ttl<V> {
    Ttl(m.entries[key := TtlValue(value, now + ttl, m.created)],
        m.timers[m.created := Timer(key, value, now + Delay(ttl))],
        m.created + 1, m.fired, m.cleared)
  }

  predicate Live<V>(m: Ttl<V>, key: Key, now: int) {
    key in m.entries && m.entries[key].expiry > now
  }

  function Lookup<V>(m: Ttl<V>, key: Key, now: int): Option<V> {
    if Live(m, key, now) then Some(m.entries[key].value) else None
  }

  /** What a `get` leaves behind: a missing or expired entry is removed, but not its timer. */
  function AfterGet<V>(m: Ttl<V>, key: Key, now: int): Ttl<V> {
    if Live(m, key, now) then m else m.(entries := m.entries - {key})
  }

  function Delete<V>(m: Ttl<V>, key: Key): Ttl<V> {
    if key in m.entries then
      var timer := m.entries[key].timer;
      m.(entries := m.entries - {key}, timers := m.timers - {timer}, cleared := m.cleared + {timer})
    else m.(entries := m.entries - {key})
  }

  /** The timer's callback: onExpiry, and then the key is removed, whatever is stored under it. */
  function Fire<V>(m: Ttl<V>, timer: nat): Ttl<V>
    requires timer in m.timers
  {
    m.(entries := m.entries - {m.timers[timer].key}, timers := m.timers - {timer}, fired := m.fired + [timer])
  }

  /** What reading leaves: the key only if it is live, and every other key and every timer. */
  lemma GetEffect<V>(m: Ttl<V>, key: Key, now: int)
    ensures var m' := AfterGet(m, key, now);
            && (key in m'.entries <==> Lookup(m, key, now).Some?)
            && (forall k :: k != key ==> (k in m'.entries <==> k in m.entries))
            && (forall k :: k in m'.entries ==> m'.entries[k] == m.entries[k])
            && m'.timers == m.timers && m'.fired == m.fired && m'.cleared == m.cleared
  {
  }

  /** What deleting leaves: every other key, and every timer but that of the entry deleted. */
  lemma DeleteEffect<V>(m: Ttl<V>, key: Key)
    ensures var m' := Delete(m, key);
            && key !in m'.entries && (forall k :: k != key ==> (k in m'.entries <==> k in m.entries))
            && (forall k :: k in m'.entries ==> m'.entries[k] == m.entries[k])
            && (forall t :: t in m'.timers <==> t in m.timers && !(key in m.entries && m.entries[key].timer == t))
            && (forall t :: t in m'.timers ==> m'.timers[t] == m.timers[t])
            && m'.fired == m.fired
  {
  }

  // ---- Invariant -----------------------------------------------------------

  /** Every stored entry has its own timer pending, for its own key and value; a timer fires once or is
      cleared, never both. */
  ghost predicate Inv<V>(m: Ttl<V>) {
    && (forall key :: key in m.entries ==>
          var e := m.entries[key];
          e.timer in m.timers && m.timers[e.timer].key == key && m.timers[e.timer].value == e.value)
    && (forall t :: t in m.timers ==> t < m.created)
    && (forall t :: t in m.cleared ==> t < m.created && t !in m.timers && t !in m.fired)
    && (forall i :: 0 <= i < |m.fired| ==> m.fired[i] < m.created && m.fired[i] !in m.timers)
    && (forall i, j :: 0 <= i < j < |m.fired| ==> m.fired[i] != m.fired[j])
  }

  lemma SetKeepsInv<V>(m: Ttl<V>, key: Key, value: V, ttl: int, now: int)
    requires Inv(m)
    ensures Inv(Set(m, key, value, ttl, now))
  {
    hide Delay;
  }

  lemma GetKeepsInv<V>(m: Ttl<V>, key: Key, now: int)
    requires Inv(m)
    ensures Inv(AfterGet(m, key, now))
  {
  }

  lemma DeleteKeepsInv<V>(m: Ttl<V>, key: Key)
    requires Inv(m)
    ensures Inv(Delete(m, key))
  {
    var m' := Delete(m, key);
    forall k | k in m'.entries
      ensures m'.entries[k].timer in m'.timers
    {
      assert m.timers[m.entries[k].timer].key == k;
    }
  }

  lemma FireKeepsInv<V>(m: Ttl<V>, timer: nat)
    requires Inv(m) && timer in m.timers
    ensures Inv(Fire(m, timer))
  {
    var m' := Fire(m, timer);
    forall k | k in m'.entries
      ensures m'.entries[k].timer in m'.timers
    {
      assert m.timers[m.entries[k].timer].key == k;
    }
  }

  // ---- One timer for each key ---------------------------------------------

  /** One pending timer per key. */
  ghost predicate OneTimerPerKey<V>(m: Ttl<V>) {
    forall t, u :: t in m.timers && u in m.timers && m.timers[t].key == m.timers[u].key ==> t == u
  }

  /** The timer of an entry is due no earlier than the entry expires. */
  ghost predicate TimersInTime<V>(m: Ttl<V>) {
    forall key :: key in m.entries ==>
      m.entries[key].timer in m.timers ==> m.entries[key].expiry <= m.timers[m.entries[key].timer].due
  }

  /** Nothing of key is pending: it is set for the first time, or its earlier timer is gone. */
  ghost predicate Quiet<V>(m: Ttl<V>, key: Key) {
    forall t :: t in m.timers ==> m.timers[t].key != key
  }

  lemma SetKeeps<V>(m: Ttl<V>, key: Key, value: V, ttl: int, now: int)
    requires Inv(m) && OneTimerPerKey(m) && TimersInTime(m) && Quiet(m, key)
    ensures Inv(Set(m, key, value, ttl, now)) && OneTimerPerKey(Set(m, key, value, ttl, now))
    ensures ttl <= MAX_DELAY ==> TimersInTime(Set(m, key, value, ttl, now))
  {
  }

  lemma GetKeeps<V>(m: Ttl<V>, key: Key, now: int)
    requires Inv(m) && OneTimerPerKey(m) && TimersInTime(m)
    ensures Inv(AfterGet(m, key, now)) && OneTimerPerKey(AfterGet(m, key, now)) && TimersInTime(AfterGet(m, key, now))
  {
  }

  lemma DeleteKeeps<V>(m: Ttl<V>, key: Key)
    requires Inv(m) && OneTimerPerKey(m) && TimersInTime(m)
    ensures Inv(Delete(m, key)) && OneTimerPerKey(Delete(m, key)) && TimersInTime(Delete(m, key))
  {
    DeleteKeepsInv(m, key);
    hide Inv;
  }

  lemma FireKeeps<V>(m: Ttl<V>, timer: nat)
    requires Inv(m) && OneTimerPerKey(m) && TimersInTime(m) && timer in m.timers
    ensures Inv(Fire(m, timer)) && OneTimerPerKey(Fire(m, timer)) && TimersInTime(Fire(m, timer))
  {
    FireKeepsInv(m, timer);
    hide Inv;
  }

  /** What a due timer removes has expired. */
  lemma FiredIsExpired<V>(m: Ttl<V>, timer: nat, now: int)
    requires Inv(m) && OneTimerPerKey(m) && TimersInTime(m) && timer in m.timers && m.timers[timer].due <= now
    ensures !Live(m, m.timers[timer].key, now)
  {
    var key := m.timers[timer].key;
    if key in m.entries {
      assert m.entries[key].timer == timer;
    }
  }

  // ---- A plain map with expiry times --------------------------------------

  datatype Dated<+V> = Dated(value: V, expiry: int)

  function PlainLookup<V>(p: map<Key, Dated<V>>, key: Key, now: int): Option<V> {
    if key in p && now < p[key].expiry then Some(p[key].value) else None
  }

  datatype Event<V> =
    | SetEvent(key: Key, value: V, ttl: int)
    | GetEvent(key: Key)
    | DeleteEvent(key: Key)
    | FireEvent(timer: nat)
    | Tick(ms: nat)

  /** The timed map and the plain one side by side, with what each `get` answered. */
  datatype Pair<V> = Pair(
    now: int, timed: Ttl<V>, plain: map<Key, Dated<V>>, answers: seq<Option<V>>, plainAnswers: seq<Option<V>>)

  /** Timers fire when they are due or later. */
  ghost predicate Possible<V>(p: Pair<V>, e: Event<V>) {
    match e
    case SetEvent(key, _, _) => key != PROTO
    case FireEvent(timer) => timer in p.timed.timers && p.timed.timers[timer].due <= p.now
    case _ => true
  }

  /** A set that no timer can undo before its time: the delay is one that Node can keep, and no earlier
      timer for the key is due before the new expiry; or the entry is born expired. */
  ghost predicate Safe<V>(p: Pair<V>, key: Key, ttl: int) {
    || ttl <= 0
    || (ttl <= MAX_DELAY && forall t :: t in p.timed.timers && p.timed.timers[t].key == key ==>
          p.now + ttl <= p.timed.timers[t].due)
  }

  ghost predicate Allowed<V>(p: Pair<V>, e: Event<V>) {
    Possible(p, e) && (e.SetEvent? ==> Safe(p, e.key, e.ttl))
  }

  ghost function Next<V>(p: Pair<V>, e: Event<V>): Pair<V>
    requires Possible(p, e)
  {
    match e
    case SetEvent(key, value, ttl) =>
      p.(timed := Set(p.timed, key, value, ttl, p.now), plain := p.plain[key := Dated(value, p.now + ttl)])
    case GetEvent(key) =>
      p.(timed := AfterGet(p.timed, key, p.now),
         answers := p.answers + [Lookup(p.timed, key, p.now)],
         plainAnswers := p.plainAnswers + [PlainLookup(p.plain, key, p.now)])
    case DeleteEvent(key) => p.(timed := Delete(p.timed, key), plain := p.plain - {key})
    case FireEvent(timer) => p.(timed := Fire(p.timed, timer))
    case Tick(ms) => p.(now := p.now + ms)
  }

  ghost predicate CanHappen<V>(p: Pair<V>, events: seq<Event<V>>)
    decreases |events|
  {
    events == [] || (Possible(p, events[0]) && CanHappen(Next(p, events[0]), events[1..]))
  }

  ghost predicate CanRun<V>(p: Pair<V>, events: seq<Event<V>>): (ok: bool)
    ensures ok ==> CanHappen(p, events)
    decreases |events|
  {
    events == [] || (Allowed(p, events[0]) && CanRun(Next(p, events[0]), events[1..]))
  }

  ghost function Run<V>(p: Pair<V>, events: seq<Event<V>>): Pair<V>
    requires CanHappen(p, events)
    decreases |events|
  {
    if events == [] then p else Run(Next(p, events[0]), events[1..])
  }

  /** While an entry is live, no timer for its key is due before it expires. */
  ghost predicate NoneEarly<V>(p: Pair<V>) {
    forall t :: t in p.timed.timers && p.timed.timers[t].key in p.timed.entries ==>
      var expiry := p.timed.entries[p.timed.timers[t].key].expiry;
      p.now < expiry ==> expiry <= p.timed.timers[t].due
  }

  /** Both maps hold the same live entries. */
  ghost predicate Agree<V>(p: Pair<V>) {
    && Inv(p.timed) && NoneEarly(p)
    && p.answers == p.plainAnswers
    && (forall key :: key in p.timed.entries ==>
          key in p.plain && p.plain[key] == Dated(p.timed.entries[key].value, p.timed.entries[key].expiry))
    && (forall key :: key in p.plain && p.now < p.plain[key].expiry ==> key in p.timed.entries)
  }

  /** Whatever happens, safe or not, every stored entry has its own timer pending, and no timer fires twice
      or after it was cleared. */
  lemma PossibleKeepsInv<V>(p: Pair<V>, e: Event<V>)
    requires Inv(p.timed) && Possible(p, e)
    ensures Inv(Next(p, e).timed)
  {
    hide Inv;
    match e
    case SetEvent(key, value, ttl) => SetKeepsInv(p.timed, key, value, ttl, p.now);
    case GetEvent(key) => GetKeepsInv(p.timed, key, p.now);
    case DeleteEvent(key) => DeleteKeepsInv(p.timed, key);
    case FireEvent(timer) => FireKeepsInv(p.timed, timer);
    case Tick(_) =>
  }

  lemma StepAgrees<V>(p: Pair<V>, e: Event<V>)
    requires Agree(p) && Allowed(p, e)
    ensures Agree(Next(p, e))
  {
    PossibleKeepsInv(p, e);
    match e {
      case SetEvent(key, value, ttl) => SetAgrees(p, key, value, ttl);
      case FireEvent(timer) => FireAgrees(p, timer);
      case _ => hide Inv;
    }
  }

  lemma SetAgrees<V>(p: Pair<V>, key: Key, value: V, ttl: int)
    requires Agree(p) && key != PROTO && Safe(p, key, ttl) && Inv(Next(p, SetEvent(key, value, ttl)).timed)
    ensures Agree(Next(p, SetEvent(key, value, ttl)))
  {
    hide Inv;
  }

  lemma FireAgrees<V>(p: Pair<V>, timer: nat)
    requires Agree(p) && Possible(p, FireEvent(timer)) && Inv(Next(p, FireEvent(timer)).timed)
    ensures Agree(Next(p, FireEvent(timer)))
  {
    hide Inv;
  }

  /** Over any run of safe sets from where they agree, every `get` answers as a plain map with expiry times
      would: the value if the key was set, not deleted since, and is not yet expired. */
  lemma {:induction false} TimedMapIsPlainMap<V>(p: Pair<V>, events: seq<Event<V>>)
    requires CanRun(p, events) && Agree(p)
    ensures Agree(Run(p, events)) && Run(p, events).answers == Run(p, events).plainAnswers
    decreases |events|
  {
    hide Allowed, Next;
    if events == [] {
    } else {
      hide Agree;
      StepAgrees(p, events[0]);
      TimedMapIsPlainMap(Next(p, events[0]), events[1..]);
    }
  }

  lemma EmptyAgrees<V>(now: int)
    ensures Agree<V>(Pair(now, Empty(), map[], [], []))
  {
  }

  /** They agree when both are empty, and so over any run of safe sets from there. */
  lemma FreshTimedMapIsPlainMap<V>(now: int, events: seq<Event<V>>)
    requires CanRun(Pair(now, Empty(), map[], [], []), events)
    ensures var end := Run(Pair(now, Empty(), map[], [], []), events);
            Agree(end) && end.answers == end.plainAnswers
  {
    EmptyAgrees<V>(now);
    TimedMapIsPlainMap(Pair(now, Empty(), map[], [], []), events);
  }

  // ---- Which sets are safe -------------------------------------------------

  /** A due timer takes its key away, whatever is stored under it. */
  lemma FireTakesKey<V>(p: Pair<V>, t: nat, d: nat) returns (events: seq<Event<V>>)
    requires t in p.timed.timers && p.timed.timers[t].due <= p.now + d
    ensures CanRun(p, events) && LeaveAlone(events, p.timed.timers[t].key)
    ensures Run(p, events) == p.(now := p.now + d, timed := Fire(p.timed, t))
  {
    events := [];
    RunSnoc(p, events, Tick(d));
    events := events + [Tick(d)];
    RunSnoc(p, events, FireEvent(t));
    events := events + [FireEvent(t)];
  }

  /** An unsafe set leaves some timer for the key that can run before the entry expires. */
  lemma UnsafeTimer<V>(p: Pair<V>, key: Key, value: V, ttl: int) returns (t: nat, d: nat)
    requires !Safe(p, key, ttl) && p.timed.created !in p.timed.timers
    ensures var timers := Set(p.timed, key, value, ttl, p.now).timers;
            t in timers && timers[t].key == key && timers[t].due <= p.now + d && d < ttl
  {
    if MAX_DELAY < ttl {
      t, d := p.timed.created, 1;
    } else {
      t :| t in p.timed.timers && p.timed.timers[t].key == key && p.timed.timers[t].due < p.now + ttl;
      var due := p.timed.timers[t].due;
      d := if due <= p.now then 0 else due - p.now;
    }
  }

  ghost predicate AlwaysAnswersAlike<V(!new)>(p: Pair<V>) {
    forall events {:trigger CanRun(p, events)} ::
      CanRun(p, events) ==> Run(p, events).answers == Run(p, events).plainAnswers
  }

  /** Safety is exactly what a set needs: the timed map answers as the plain one over every run of safe sets
      after it if and only if the set was safe. */
  lemma AnswersAlikeIffSafe<V(!new)>(p: Pair<V>, key: Key, value: V, ttl: int)
    requires Agree(p) && key != PROTO
    ensures AlwaysAnswersAlike(Next(p, SetEvent(key, value, ttl))) <==> Safe(p, key, ttl)
  {
    var stored := Next(p, SetEvent(key, value, ttl));
    if Safe(p, key, ttl) {
      StepAgrees(p, SetEvent(key, value, ttl));
      forall events | CanRun(stored, events)
        ensures Run(stored, events).answers == Run(stored, events).plainAnswers
      {
        TimedMapIsPlainMap(stored, events);
      }
    } else {
      var t, d := UnsafeTimer(p, key, value, ttl);
      assert stored.answers == stored.plainAnswers;
      hide AlwaysAnswersAlike, Agree, Safe, CanRun, Run;
      var events := FireTakesKey(stored, t, d);
      var gone := Run(stored, events);
      RunSnoc(stored, events, GetEvent(key));
      assert Lookup(gone.timed, key, gone.now) == None && PlainLookup(gone.plain, key, gone.now) == Some(value);
      var end := Next(gone, GetEvent(key));
      assert end.answers[|gone.answers|] != end.plainAnswers[|gone.answers|];
      Disagrees(stored, events + [GetEvent(key)]);
    }
  }

  lemma Disagrees<V(!new)>(p: Pair<V>, events: seq<Event<V>>)
    requires CanRun(p, events) && Run(p, events).answers != Run(p, events).plainAnswers
    ensures !AlwaysAnswersAlike(p)
  {
  }

  lemma {:induction false} RunSnoc<V>(p: Pair<V>, events: seq<Event<V>>, e: Event<V>)
    requires CanRun(p, events) && Allowed(Run(p, events), e)
    ensures CanRun(p, events + [e]) && Run(p, events + [e]) == Next(Run(p, events), e)
    decreases |events|
  {
    hide Allowed, Possible, Next;
    if events == [] {
      assert events + [e] == [e] && [e][1..] == [];
    } else {
      assert (events + [e])[1..] == events[1..] + [e];
      RunSnoc(Next(p, events[0]), events[1..], e);
    }
  }

  // ---- Which values are kept -----------------------------------------------

  ghost predicate LeaveAlone<V>(events: seq<Event<V>>, key: Key) {
    forall i :: 0 <= i < |events| && (events[i].SetEvent? || events[i].DeleteEvent?) ==> events[i].key != key
  }

  /** Until it expires the value is stored, and no timer for its key is due before. */
  ghost predicate Kept<V>(p: Pair<V>, key: Key, value: V, expiry: int) {
    && (p.now < expiry ==>
          key in p.timed.entries && p.timed.entries[key].value == value && p.timed.entries[key].expiry == expiry)
    && (forall t :: t in p.timed.timers && p.timed.timers[t].key == key ==> expiry <= p.timed.timers[t].due)
  }

  lemma {:induction false} StaysKept<V>(p: Pair<V>, events: seq<Event<V>>, key: Key, value: V, expiry: int)
    requires CanHappen(p, events) && LeaveAlone(events, key) && Kept(p, key, value, expiry)
    ensures Kept(Run(p, events), key, value, expiry)
    decreases |events|
  {
    hide Delay;
    if events != [] {
      assert events[0] == events[..][0];
      var next := Next(p, events[0]);
      assert Kept(next, key, value, expiry);
      hide Kept, Next, Possible;
      StaysKept(next, events[1..], key, value, expiry);
    }
  }

  /** Whatever happens to other keys, the value is found at every time before its expiry. */
  ghost predicate FoundUntil<V(!new)>(p: Pair<V>, key: Key, value: V, expiry: int) {
    forall events {:trigger CanHappen(p, events)} ::
      CanHappen(p, events) && LeaveAlone(events, key) && Run(p, events).now < expiry ==>
        Lookup(Run(p, events).timed, key, Run(p, events).now) == Some(value)
  }

  /** A value is found at every time before its expiry if and only if Node can keep its delay and no earlier
      timer for its key is due before. Nothing is asked of the other sets, before or after. */
  lemma FoundIffSafe<V(!new)>(p: Pair<V>, key: Key, value: V, ttl: int)
    requires p.timed.created !in p.timed.timers && key != PROTO && 1 <= ttl
    ensures FoundUntil(Next(p, SetEvent(key, value, ttl)), key, value, p.now + ttl) <==>
              && ttl <= MAX_DELAY
              && forall t :: t in p.timed.timers && p.timed.timers[t].key == key ==> p.now + ttl <= p.timed.timers[t].due
  {
    var stored := Next(p, SetEvent(key, value, ttl));
    if Safe(p, key, ttl) {
      assert Kept(stored, key, value, p.now + ttl);
      forall events | CanHappen(stored, events) && LeaveAlone(events, key)
        ensures Kept(Run(stored, events), key, value, p.now + ttl)
      {
        StaysKept(stored, events, key, value, p.now + ttl);
      }
    } else {
      var t, d := UnsafeTimer(p, key, value, ttl);
      var events := FireTakesKey(stored, t, d);
    }
  }

  // ---- Deleted entries -----------------------------------------------------

  /** Deleting an entry that is stored, live or not, clears its timer for good: whatever happens afterwards,
      its callback never runs. */
  lemma DeletedNeverFires<V>(p: Pair<V>, key: Key, events: seq<Event<V>>)
    requires Inv(p.timed) && key in p.timed.entries && CanHappen(Next(p, DeleteEvent(key)), events)
    ensures FireEvent(p.timed.entries[key].timer) !in events
    ensures p.timed.entries[key].timer !in Run(Next(p, DeleteEvent(key)), events).timed.fired
  {
    var deleted := Next(p, DeleteEvent(key));
    PossibleKeepsInv(p, DeleteEvent(key));
    ClearedGrows(deleted, events);
  }

  lemma {:induction false} ClearedGrows<V>(p: Pair<V>, events: seq<Event<V>>)
    requires CanHappen(p, events) && Inv(p.timed)
    ensures p.timed.cleared <= Run(p, events).timed.cleared && Inv(Run(p, events).timed)
    ensures forall t :: t in p.timed.cleared ==> FireEvent(t) !in events
    decreases |events|
  {
    if events != [] {
      PossibleKeepsInv(p, events[0]);
      assert events[0].FireEvent? ==> events[0].timer !in p.timed.cleared;
      hide Inv;
      ClearedGrows(Next(p, events[0]), events[1..]);
    }
  }

  function FiresOf<V>(events: seq<Event<V>>): seq<nat> {
    if events == [] then [] else (if events[0].FireEvent? then [events[0].timer] else []) + FiresOf(events[1..])
  }

  lemma {:induction false} FiredIsRecorded<V>(p: Pair<V>, events: seq<Event<V>>)
    requires CanHappen(p, events)
    ensures Run(p, events).timed.fired == p.timed.fired + FiresOf(events)
    decreases |events|
  {
    if events != [] {
      FiredIsRecorded(Next(p, events[0]), events[1..]);
    }
  }

  /** Over the events of any run, no timer fires twice. */
  lemma NoTimerFiresTwice<V>(p: Pair<V>, events: seq<Event<V>>)
    requires Inv(p.timed) && CanHappen(p, events)
    ensures forall i, j :: 0 <= i < j < |FiresOf(events)| ==> FiresOf(events)[i] != FiresOf(events)[j]
  {
    ClearedGrows(p, events);
    FiredIsRecorded(p, events);
    var fired, n := Run(p, events).timed.fired, |p.timed.fired|;
    forall i, j | 0 <= i < j < |FiresOf(events)|
      ensures FiresOf(events)[i] != FiresOf(events)[j]
    {
      assert fired[n + i] == FiresOf(events)[i] && fired[n + j] == FiresOf(events)[j];
    }
  }

  // ---- The object ----------------------------------------------------------

  class TTLMap<V> {
    var entries: map<Key, TtlValue<V>>
    var timers: map<nat, Timer<V>>
    var created: nat
    ghost var fired: seq<nat>
    ghost var cleared: set<nat>

    ghost function View(): Ttl<V>
      reads this
    {
      Ttl(entries, timers, created, fired, cleared)
    }

    constructor ()
      ensures View() == Empty()
    {
      entries, timers, created := map[], map[], 0;
      fired, cleared := [], {};
    }

    method SetTimeout(key: Key, value: V, due: int) returns (timer: nat)
      modifies this`timers, this`created
      ensures timer == old(created) && created == old(created) + 1
      ensures timers == old(timers)[timer := Timer(key, value, due)]
    {
      timer := created;
      timers := timers[timer := Timer(key, value, due)];
      created := created + 1;
    }

    method ClearTimeout(timer: nat)
      modifies this`timers, this`cleared
      ensures timers == old(timers) - {timer} && cleared == old(cleared) + {timer}
    {
      timers := timers - {timer};
      cleared := cleared + {timer};
    }

    method Put(key: Key, value: V, ttl: int, now: int)
      modifies this
      ensures View() == Set(old(View()), key, value, ttl, now)
    {
      var expiry := now + ttl;
      var timer := SetTimeout(key, value, now + Delay(ttl));
      entries := entries[key := TtlValue(value, expiry, timer)];
    }

    method Get(key: Key, now: int) returns (r: Option<V>)
      modifies this
      ensures r == Lookup(old(View()), key, now) && View() == AfterGet(old(View()), key, now)
    {
      if key in entries && entries[key].expiry > now {
        return Some(entries[key].value);
      }
      entries := entries - {key};
      r := None;
    }

    method Remove(key: Key)
      modifies this
      ensures View() == Delete(old(View()), key)
    {
      if key in entries {
        ClearTimeout(entries[key].timer);
      }
      entries := entries - {key};
    }

    /** The expiry timer's callback; returns what onExpiry is called with. */
    method Expire(timer: nat) returns (key: Key, value: V)
      requires timer in timers
      modifies this
      ensures key == old(timers[timer].key) && value == old(timers[timer].value)
      ensures View() == Fire(old(View()), timer)
    {
      key, value := timers[timer].key, timers[timer].value;
      timers := timers - {timer};
      fired := fired + [timer];
      entries := entries - {key};
    }
  }
}
