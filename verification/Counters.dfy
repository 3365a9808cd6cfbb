/** The counters of outstanding sends and receives: incremented where a call or a message comes in,
    decremented where its completion reaches JavaScript. */
module Counters {
  import Buf = RingBuffer

  /** Atomics are 64-bit and wrap around. */
  const WORD: nat := 0x1_0000_0000_0000_0000

  const RING_BUFFER_SIZE: nat := 100

  // ---- Calls ---------------------------------------------------------------

  /** One call from JavaScript, as far as it decides what is counted: whether the header parses, and which
      of the host and port pairs resolve to an address. */
  datatype Call =
    | Send(addressOk: bool)
    | SendWithHeader(headerOk: bool, addressOk: bool)
    | MultiSend(ports: nat, hosts: nat, headerOk: bool, addressesOk: seq<bool>, awaitProcessing: bool)

  /** A multi-send pairs hosts with ports, as many as both lists have. */
  predicate WellFormed(c: Call) {
    c.MultiSend? ==> |c.addressesOk| == if c.hosts <= c.ports then c.hosts else c.ports
  }

  predicate AllOk(oks: seq<bool>) {
    forall i :: 0 <= i < |oks| ==> oks[i]
  }

  /** How much the call adds to the counter. */
  function Increments(c: Call): nat {
    if c.MultiSend? then c.ports else 1
  }

  /** How many sends the call hands to the sender task: all of its pairs, or none. */
  function Queued(c: Call): nat {
    match c
    case Send(addressOk) => if addressOk then 1 else 0
    case SendWithHeader(headerOk, addressOk) => if headerOk && addressOk then 1 else 0
    case MultiSend(_, _, headerOk, addressesOk, _) => if headerOk && AllOk(addressesOk) then |addressesOk| else 0
  }

  predicate Awaited(c: Call) {
    c.MultiSend? ==> c.awaitProcessing
  }

  /** What the call adds to the counter and no report will ever take away. */
  function Leak(c: Call): int {
    Increments(c) - if Awaited(c) then Queued(c) else 0
  }

  /** A completion receiver: its send is under way, or its sender was dropped; then it has the result, then
      its report waits for JavaScript, then it is done. */
  datatype Stage = InFlight | Orphaned | Resolved | Scheduled | Done

  datatype Receiver = Receiver(awaited: bool, stage: Stage)

  /** The completion receivers a call sets up; the first `Queued` of them belong to sends. */
  function NewReceivers(c: Call): seq<Receiver> {
    match c
    case Send(addressOk) => [Receiver(true, if addressOk then InFlight else Orphaned)]
    case SendWithHeader(headerOk, addressOk) =>
      if headerOk then [Receiver(true, if addressOk then InFlight else Orphaned)] else []
    case MultiSend(_, hosts, headerOk, _, awaitProcessing) =>
      if headerOk then FreshReceivers(hosts, Queued(c), awaitProcessing) else []
  }

  function FreshReceivers(hosts: nat, queued: nat, awaited: bool): (rs: seq<Receiver>)
    ensures |rs| == hosts
    ensures forall i :: 0 <= i < hosts ==> rs[i] == Receiver(awaited, if i < queued then InFlight else Orphaned)
  {
    seq(hosts, i => Receiver(awaited, if i < queued then InFlight else Orphaned))
  }

  // ---- The step system -----------------------------------------------------

  /** `calls` and `reports` are history: the calls made, and the values put into the statistics. */
  datatype State = State(
    sends: nat, receivers: seq<Receiver>, calls: seq<Call>, reports: seq<nat>,
    receives: nat, taken: nat, handed: nat)

  const INIT := State(0, [], [], [], 0, 0, 0)

  datatype Event =
    | Invoke(call: Call)
    | Complete(r: nat)      // the sender task reports the result
    | Wake(r: nat)          // the receiver has the result
    | Report(r: nat)        // JavaScript runs the completion
    | Take                  // a message is taken from the channel
    | Hand                  // JavaScript runs the listen callback

  predicate AtStage(s: State, r: nat, stage: Stage) {
    r < |s.receivers| && s.receivers[r].stage == stage
  }

  predicate Enabled(s: State, e: Event) {
    match e
    case Invoke(c) => WellFormed(c)
    case Complete(r) => AtStage(s, r, InFlight)
    case Wake(r) => AtStage(s, r, Resolved)
    case Report(r) => AtStage(s, r, Scheduled)
    case Take => true
    case Hand => s.handed < s.taken
  }

  function SetStage(s: State, r: nat, stage: Stage): State
    requires r < |s.receivers|
  {
    s.(receivers := s.receivers[r := s.receivers[r].(stage := stage)])
  }

  /** `fetch_sub(1) - 1`: the counter goes down by one, wrapping, and that is also the value put. */
  function Down(n: nat): nat {
    (n + WORD - 1) % WORD
  }

  function Next(s: State, e: Event): State
    requires Enabled(s, e)
  {
    match e
    case Invoke(c) =>
      s.(sends := (s.sends + Increments(c)) % WORD, receivers := s.receivers + NewReceivers(c), calls := s.calls + [c])
    case Complete(r) => SetStage(s, r, Resolved)
    case Wake(r) => SetStage(s, r, if s.receivers[r].awaited then Scheduled else Done)
    case Report(r) => SetStage(s, r, Done).(sends := Down(s.sends), reports := s.reports + [Down(s.sends)])
    case Take => s.(receives := (s.receives + 1) % WORD, taken := s.taken + 1)
    case Hand => s.(receives := Down(s.receives), handed := s.handed + 1)
  }

  predicate CanRun(s: State, events: seq<Event>)
    decreases |events|
  {
    events == [] || (Enabled(s, events[0]) && CanRun(Next(s, events[0]), events[1..]))
  }

  function Run(s: State, events: seq<Event>): State
    requires CanRun(s, events)
    decreases |events|
  {
    if events == [] then s else Run(Next(s, events[0]), events[1..])
  }

  // ---- Conservation --------------------------------------------------------

  /** Awaited sends that have not been reported yet. */
  predicate Unreported(r: Receiver) {
    r.awaited && (r.stage.InFlight? || r.stage.Resolved? || r.stage.Scheduled?)
  }

  function CountUnreported(rs: seq<Receiver>): nat {
    if rs == [] then 0 else CountUnreported(rs[..|rs| - 1]) + if Unreported(rs[|rs| - 1]) then 1 else 0
  }

  function TotalLeak(calls: seq<Call>): int {
    if calls == [] then 0 else TotalLeak(calls[..|calls| - 1]) + Leak(calls[|calls| - 1])
  }

  function TotalIncrements(calls: seq<Call>): nat {
    if calls == [] then 0 else TotalIncrements(calls[..|calls| - 1]) + Increments(calls[|calls| - 1])
  }

  ghost predicate Inv(s: State) {
    && (forall i :: 0 <= i < |s.calls| ==> WellFormed(s.calls[i]))
    && (forall r :: 0 <= r < |s.receivers| && s.receivers[r].stage.Scheduled? ==> s.receivers[r].awaited)
    && 0 <= TotalLeak(s.calls)
    && CountUnreported(s.receivers) + TotalLeak(s.calls) + |s.reports| == TotalIncrements(s.calls)
    && s.sends == (CountUnreported(s.receivers) + TotalLeak(s.calls)) % WORD
    && s.handed <= s.taken
    && s.receives == (s.taken - s.handed) % WORD
  }

  lemma QueuedWithinIncrements(c: Call)
    requires WellFormed(c)
    ensures Queued(c) <= Increments(c) && 0 <= Leak(c) <= Increments(c)
  {
  }

  /** A call leaves nothing behind exactly when every port got a host, everything parsed, and its
      completion is awaited; or when a multi-send has no ports. */
  lemma NoLeakIff(c: Call)
    requires WellFormed(c)
    ensures Leak(c) == 0 <==>
              match c
              case Send(addressOk) => addressOk
              case SendWithHeader(headerOk, addressOk) => headerOk && addressOk
              case MultiSend(ports, hosts, headerOk, addressesOk, awaitProcessing) =>
                ports == 0 || (awaitProcessing && headerOk && AllOk(addressesOk) && ports <= hosts)
  {
  }

  /** How much a call leaves behind: everything it counted if its completions are not awaited or it threw, and
      otherwise one for each port without a host. */
  lemma LeakIs(c: Call)
    requires WellFormed(c)
    ensures Leak(c) ==
            match c
            case Send(addressOk) => if addressOk then 0 else 1
            case SendWithHeader(headerOk, addressOk) => if headerOk && addressOk then 0 else 1
            case MultiSend(ports, hosts, headerOk, addressesOk, awaitProcessing) =>
              if !awaitProcessing || !headerOk || !AllOk(addressesOk) then ports
              else if hosts < ports then ports - hosts else 0
  {
  }

  lemma {:induction false} CountAppend(a: seq<Receiver>, b: seq<Receiver>)
    ensures CountUnreported(a + b) == CountUnreported(a) + CountUnreported(b)
  {
    if b == [] {
      assert a + b == a;
    } else {
      assert (a + b)[..|a + b| - 1] == a + b[..|b| - 1];
      CountAppend(a, b[..|b| - 1]);
    }
  }

  lemma {:induction false} CountUpdate(rs: seq<Receiver>, r: nat, x: Receiver)
    requires r < |rs|
    ensures CountUnreported(rs[r := x]) + (if Unreported(rs[r]) then 1 else 0)
         == CountUnreported(rs) + if Unreported(x) then 1 else 0
  {
    var last := |rs| - 1;
    if r < last {
      CountUpdate(rs[..last], r, x);
      assert rs[r := x][..last] == rs[..last][r := x];
    } else {
      assert rs[r := x][..last] == rs[..last];
    }
  }

  lemma {:induction false} CountFresh(rs: seq<Receiver>, queued: nat, awaited: bool)
    requires queued <= |rs|
    requires forall i :: 0 <= i < |rs| ==> rs[i] == Receiver(awaited, if i < queued then InFlight else Orphaned)
    ensures CountUnreported(rs) == if awaited then queued else 0
  {
    if rs != [] {
      var last := |rs| - 1;
      CountFresh(rs[..last], if queued <= last then queued else last, awaited);
    }
  }

  lemma CountNew(c: Call)
    requires WellFormed(c)
    ensures CountUnreported(NewReceivers(c)) == if Awaited(c) then Queued(c) else 0
  {
    match c
    case MultiSend(_, hosts, headerOk, _, awaitProcessing) =>
      if headerOk {
        CountFresh(NewReceivers(c), Queued(c), awaitProcessing);
      }
    case _ =>
      if NewReceivers(c) != [] {
        assert NewReceivers(c)[..0] == [];
      }
  }

  lemma WrapUp(n: nat, d: nat)
    ensures (n % WORD + d) % WORD == (n + d) % WORD
  {
  }

  lemma WrapDown(n: nat)
    requires 0 < n
    ensures Down(n % WORD) == (n - 1) % WORD
  {
  }

  lemma InvokeKeeps(s: State, c: Call)
    requires Inv(s) && WellFormed(c)
    ensures Inv(Next(s, Invoke(c)))
  {
    var s' := Next(s, Invoke(c));
    assert s'.calls[..|s.calls|] == s.calls;
    CountAppend(s.receivers, NewReceivers(c));
    CountNew(c);
    QueuedWithinIncrements(c);
    WrapUp(CountUnreported(s.receivers) + TotalLeak(s.calls), Increments(c));
  }

  lemma StageKeeps(s: State, r: nat, stage: Stage)
    requires Inv(s) && r < |s.receivers|
    requires Unreported(s.receivers[r]) == Unreported(s.receivers[r].(stage := stage))
    requires stage.Scheduled? ==> s.receivers[r].awaited
    ensures Inv(SetStage(s, r, stage))
  {
    CountUpdate(s.receivers, r, s.receivers[r].(stage := stage));
  }

  lemma ReportKeeps(s: State, r: nat)
    requires Inv(s) && Enabled(s, Report(r))
    ensures CountUnreported(s.receivers) > 0
    ensures Inv(Next(s, Report(r)))
  {
    CountUpdate(s.receivers, r, s.receivers[r].(stage := Done));
    WrapDown(CountUnreported(s.receivers) + TotalLeak(s.calls));
  }

  lemma StepKeepsInv(s: State, e: Event)
    requires Inv(s) && Enabled(s, e)
    ensures Inv(Next(s, e))
  {
    match e
    case Invoke(c) => InvokeKeeps(s, c);
    case Complete(r) => StageKeeps(s, r, Resolved);
    case Wake(r) => StageKeeps(s, r, if s.receivers[r].awaited then Scheduled else Done);
    case Report(r) => ReportKeeps(s, r);
    case Take => WrapUp(s.taken - s.handed, 1);
    case Hand => WrapDown(s.taken - s.handed);
  }

  lemma {:induction false} RunKeepsInv(s: State, events: seq<Event>)
    requires Inv(s) && CanRun(s, events)
    ensures Inv(Run(s, events))
    decreases |events|
  {
    hide Inv, Enabled, Next;
    if events != [] {
      StepKeepsInv(s, events[0]);
      RunKeepsInv(Next(s, events[0]), events[1..]);
    }
  }

  lemma Reached(events: seq<Event>)
    requires CanRun(INIT, events)
    ensures Inv(Run(INIT, events))
  {
    hide CanRun, Run;
    assert Inv(INIT);
    hide Inv;
    RunKeepsInv(INIT, events);
  }

  lemma NoWrap(n: nat)
    requires n < WORD
    ensures n % WORD == n
  {
  }

  /** Over every run: the counter is the awaited sends not yet reported plus what calls left behind for
      good, and the other counter is the messages taken and not yet handed on. */
  lemma CountersConserve(events: seq<Event>)
    requires CanRun(INIT, events)
    requires TotalIncrements(Run(INIT, events).calls) < WORD && Run(INIT, events).taken < WORD
    ensures var s := Run(INIT, events);
            && s.sends == CountUnreported(s.receivers) + TotalLeak(s.calls)
            && s.receives == s.taken - s.handed
  {
    hide CanRun, Run, CountUnreported, TotalLeak, TotalIncrements, WellFormed;
    Reached(events);
    var s := Run(INIT, events);
    NoWrap(CountUnreported(s.receivers) + TotalLeak(s.calls));
    NoWrap(s.taken - s.handed);
  }

  // ---- The history is the run ----------------------------------------------

  function CallsOf(events: seq<Event>): seq<Call> {
    if events == [] then []
    else (if events[0].Invoke? then [events[0].call] else []) + CallsOf(events[1..])
  }

  function Takes(events: seq<Event>): nat {
    if events == [] then 0 else (if events[0].Take? then 1 else 0) + Takes(events[1..])
  }

  function Hands(events: seq<Event>): nat {
    if events == [] then 0 else (if events[0].Hand? then 1 else 0) + Hands(events[1..])
  }

  function Reports(events: seq<Event>): nat {
    if events == [] then 0 else (if events[0].Report? then 1 else 0) + Reports(events[1..])
  }

  lemma {:induction false} RunIsRecorded(s: State, events: seq<Event>)
    requires CanRun(s, events)
    ensures var s' := Run(s, events);
            && s'.calls == s.calls + CallsOf(events) && |s'.reports| == |s.reports| + Reports(events)
            && s'.taken == s.taken + Takes(events) && s'.handed == s.handed + Hands(events)
    decreases |events|
  {
    hide Increments, NewReceivers, WellFormed, Down;
    if events != [] {
      RunIsRecorded(Next(s, events[0]), events[1..]);
    }
  }

  /** The balance over the events of a run: what its calls added and its reports took away, and the messages
      taken and handed on. */
  lemma BalanceOfEvents(events: seq<Event>)
    requires CanRun(INIT, events)
    requires TotalIncrements(CallsOf(events)) < WORD && Takes(events) < WORD
    ensures var s := Run(INIT, events);
            && s.sends == TotalIncrements(CallsOf(events)) - Reports(events)
            && s.sends == CountUnreported(s.receivers) + TotalLeak(CallsOf(events))
            && s.receives == Takes(events) - Hands(events)
  {
    hide CanRun, Run, CountUnreported, TotalLeak, TotalIncrements, CallsOf;
    RunIsRecorded(INIT, events);
    assert Run(INIT, events).calls == CallsOf(events);
    CountersConserve(events);
    Reached(events);
  }

  /** No decrement underflows, so what a report puts into the statistics is what is still outstanding
      after it. */
  lemma ReportsNeverUnderflow(events: seq<Event>, r: nat)
    requires CanRun(INIT, events) && Enabled(Run(INIT, events), Report(r))
    requires TotalIncrements(Run(INIT, events).calls) < WORD
    ensures var s := Run(INIT, events);
            && s.sends > 0
            && Next(s, Report(r)).sends == s.sends - 1
            && Next(s, Report(r)).reports == s.reports + [s.sends - 1]
  {
    hide CanRun, Run, CountUnreported, TotalLeak, TotalIncrements, WellFormed, Down;
    Reached(events);
    var s := Run(INIT, events);
    ReportKeeps(s, r);
    var n := CountUnreported(s.receivers) + TotalLeak(s.calls);
    NoWrap(n);
    WrapDown(n);
    NoWrap(n - 1);
  }

  lemma HandsNeverUnderflow(events: seq<Event>)
    requires CanRun(INIT, events) && Enabled(Run(INIT, events), Hand) && Run(INIT, events).taken < WORD
    ensures var s := Run(INIT, events);
            s.receives > 0 && Next(s, Hand).receives == s.receives - 1
  {
    hide CanRun, Run, CountUnreported, TotalLeak, TotalIncrements, WellFormed, Down;
    Reached(events);
    var n := Run(INIT, events).taken - Run(INIT, events).handed;
    NoWrap(n);
    WrapDown(n);
    NoWrap(n - 1);
  }

  /** When everything awaited has been reported, what is left in the counter is the sum of the leaks. */
  lemma QuiescentCounterIsLeak(events: seq<Event>)
    requires CanRun(INIT, events) && TotalIncrements(Run(INIT, events).calls) < WORD
    requires forall r :: 0 <= r < |Run(INIT, events).receivers| ==>
               Run(INIT, events).receivers[r].stage in {Orphaned, Done} || !Run(INIT, events).receivers[r].awaited
    ensures Run(INIT, events).sends == TotalLeak(Run(INIT, events).calls)
  {
    hide CanRun, Run, TotalLeak, TotalIncrements, WellFormed;
    var s := Run(INIT, events);
    Reached(events);
    NoneUnreported(s.receivers);
    hide CountUnreported;
    NoWrap(TotalLeak(s.calls));
  }

  lemma {:induction false} NoneUnreported(rs: seq<Receiver>)
    requires forall r :: 0 <= r < |rs| ==> !Unreported(rs[r])
    ensures CountUnreported(rs) == 0
  {
    if rs != [] {
      NoneUnreported(rs[..|rs| - 1]);
    }
  }

  // ---- The objects ---------------------------------------------------------

  /** The statistics object. */
  class Stats {
    var outstandingSends: nat
    var outstandingReceives: nat
    const sendsBuffer: Buf.RingBuffer
    const receivesBuffer: Buf.RingBuffer

    ghost predicate Valid()
      reads this, sendsBuffer, receivesBuffer
    {
      sendsBuffer != receivesBuffer && sendsBuffer.Valid() && receivesBuffer.Valid()
    }

    constructor ()
      ensures Valid() && fresh(sendsBuffer) && fresh(receivesBuffer)
      ensures outstandingSends == 0 && outstandingReceives == 0
      ensures sendsBuffer.history == [] && receivesBuffer.history == []
      ensures sendsBuffer.size == receivesBuffer.size == RING_BUFFER_SIZE
    {
      outstandingSends, outstandingReceives := 0, 0;
      sendsBuffer := new Buf.RingBuffer(RING_BUFFER_SIZE);
      receivesBuffer := new Buf.RingBuffer(RING_BUFFER_SIZE);
    }

    method IncrementOutstandingSends()
      modifies this`outstandingSends
      ensures outstandingSends == (old(outstandingSends) + 1) % WORD
    {
      outstandingSends := (outstandingSends + 1) % WORD;
    }

    method IncrementOutstandingReceives()
      modifies this`outstandingReceives
      ensures outstandingReceives == (old(outstandingReceives) + 1) % WORD
    {
      outstandingReceives := (outstandingReceives + 1) % WORD;
    }

    method DecrementOutstandingSends()
      requires Valid()
      modifies this`outstandingSends, sendsBuffer
      ensures Valid() && outstandingSends == Down(old(outstandingSends))
      ensures sendsBuffer.history == old(sendsBuffer.history) + [outstandingSends]
    {
      outstandingSends := Down(outstandingSends);
      sendsBuffer.Put(outstandingSends);
    }

    method DecrementOutstandingReceives()
      requires Valid()
      modifies this`outstandingReceives, receivesBuffer
      ensures Valid() && outstandingReceives == Down(old(outstandingReceives))
      ensures receivesBuffer.history == old(receivesBuffer.history) + [outstandingReceives]
    {
      outstandingReceives := Down(outstandingReceives);
      receivesBuffer.Put(outstandingReceives);
    }
  }

  /** One oneshot per host; none is handed over yet. */
  method SetUpReceivers(hosts: nat, awaited: bool) returns (rs: seq<Receiver>)
    ensures rs == FreshReceivers(hosts, 0, awaited)
  {
    rs := [];
    var i := 0;
    while i < hosts
      invariant i <= hosts && |rs| == i
      invariant forall j :: 0 <= j < i ==> rs[j] == Receiver(awaited, Orphaned)
    {
      rs := rs + [Receiver(awaited, Orphaned)];
      i := i + 1;
    }
  }

  /** Resolves pairs up to the first that fails. */
  method ResolveAddresses(addressesOk: seq<bool>) returns (n: nat)
    ensures n <= |addressesOk|
    ensures n == |addressesOk| <==> AllOk(addressesOk)
  {
    n := 0;
    while n < |addressesOk| && addressesOk[n]
      invariant n <= |addressesOk|
      invariant forall j :: 0 <= j < n ==> addressesOk[j]
    {
      n := n + 1;
    }
  }

  /** Pairs the addresses with the first senders, which go to the sender task. */
  method HandOver(senders: seq<Receiver>, addresses: nat, awaited: bool) returns (rs: seq<Receiver>)
    requires addresses <= |senders| && senders == FreshReceivers(|senders|, 0, awaited)
    ensures rs == FreshReceivers(|senders|, addresses, awaited)
  {
    rs := senders;
    var i := 0;
    while i < addresses
      invariant i <= addresses && |rs| == |senders|
      invariant forall j :: 0 <= j < |senders| ==> rs[j] == Receiver(awaited, if j < i then InFlight else Orphaned)
    {
      rs := rs[i := Receiver(awaited, InFlight)];
      i := i + 1;
    }
  }

  /** The native calls, in the order in which they touch counters, receivers and the sender. */
  class Native {
    const stats: Stats
    var receivers: seq<Receiver>
    ghost var calls: seq<Call>
    var taken: nat
    var handed: nat

    ghost function View(): State
      reads this, stats, stats.sendsBuffer
    {
      State(stats.outstandingSends, receivers, calls, stats.sendsBuffer.history, stats.outstandingReceives, taken,
            handed)
    }

    ghost predicate Valid()
      reads this, stats, stats.sendsBuffer, stats.receivesBuffer
    {
      stats.Valid() && stats.outstandingSends < WORD && stats.outstandingReceives < WORD
    }

    constructor ()
      ensures Valid() && View() == INIT && fresh(stats) && fresh(stats.sendsBuffer) && fresh(stats.receivesBuffer)
    {
      stats := new Stats();
      receivers, calls, taken, handed := [], [], 0, 0;
    }

    method SendCall(addressOk: bool) returns (threw: bool)
      requires Valid()
      modifies this, stats`outstandingSends
      ensures Valid() && threw == !addressOk
      ensures View() == Next(old(View()), Invoke(Send(addressOk)))
    {
      calls := calls + [Send(addressOk)];
      stats.IncrementOutstandingSends();
      receivers := receivers + [Receiver(true, if addressOk then InFlight else Orphaned)];
      threw := !addressOk;
    }

    method SendWithHeaderCall(headerOk: bool, addressOk: bool) returns (threw: bool)
      requires Valid()
      modifies this, stats`outstandingSends
      ensures Valid() && threw == !(headerOk && addressOk)
      ensures View() == Next(old(View()), Invoke(SendWithHeader(headerOk, addressOk)))
    {
      calls := calls + [SendWithHeader(headerOk, addressOk)];
      stats.IncrementOutstandingSends();
      if !headerOk {
        return true;
      }
      receivers := receivers + [Receiver(true, if addressOk then InFlight else Orphaned)];
      threw := !addressOk;
    }

    /** Counts every port before anything can fail, then parses the header, then sets up a receiver for
        every host, then resolves the pairs and stops at the first that does not resolve. */
    method MultiSendCall(ports: nat, hosts: nat, headerOk: bool, addressesOk: seq<bool>, awaitProcessing: bool)
      returns (threw: bool)
      requires Valid() && WellFormed(MultiSend(ports, hosts, headerOk, addressesOk, awaitProcessing))
      modifies this, stats`outstandingSends
      ensures Valid()
      ensures threw == !(headerOk && AllOk(addressesOk) && addressesOk != [])
      ensures View() == Next(old(View()), Invoke(MultiSend(ports, hosts, headerOk, addressesOk, awaitProcessing)))
    {
      ghost var call := MultiSend(ports, hosts, headerOk, addressesOk, awaitProcessing);
      calls := calls + [call];
      CountPorts(ports);
      if !headerOk {
        assert receivers + [] == receivers;
        return true;
      }
      var senders := SetUpReceivers(hosts, awaitProcessing);
      var addresses := ResolveAddresses(addressesOk);
      threw := addresses < |addressesOk| || addresses == 0;
      if !threw {
        senders := HandOver(senders, addresses, awaitProcessing);
      }
      assert senders == NewReceivers(call);
      receivers := receivers + senders;
    }

    method CountPorts(ports: nat)
      requires stats.outstandingSends < WORD
      modifies stats`outstandingSends
      ensures stats.outstandingSends == (old(stats.outstandingSends) + ports) % WORD
    {
      var i := 0;
      while i < ports
        modifies stats`outstandingSends
        invariant i <= ports
        invariant stats.outstandingSends == (old(stats.outstandingSends) + i) % WORD
      {
        WrapUp(old(stats.outstandingSends) + i, 1);
        stats.IncrementOutstandingSends();
        i := i + 1;
      }
    }

    /** JavaScript runs the completion of a send. */
    method ReportCompletion(r: nat)
      requires Valid() && Enabled(View(), Report(r))
      modifies this, stats`outstandingSends, stats.sendsBuffer
      ensures Valid() && View() == Next(old(View()), Report(r))
    {
      stats.DecrementOutstandingSends();
      receivers := receivers[r := receivers[r].(stage := Done)];
    }

    method TakeMessage()
      requires Valid()
      modifies this, stats`outstandingReceives
      ensures Valid() && View() == Next(old(View()), Take)
    {
      stats.IncrementOutstandingReceives();
      taken := taken + 1;
    }

    method HandMessage()
      requires Valid() && Enabled(View(), Hand)
      modifies this, stats`outstandingReceives, stats.receivesBuffer
      ensures Valid() && View() == Next(old(View()), Hand)
    {
      stats.DecrementOutstandingReceives();
      handed := handed + 1;
    }
  }
}
