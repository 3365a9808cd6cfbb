/** Counters and sender together: each send that a call queues carries the completion of one receiver, and what
    the sender reports is what brings the counter down. */
module Completions {
  import opened Bytes
  import opened Outbound
  import opened ConnectionCache
  import opened SenderProtocol
  import opened SenderInvariant
  import opened SenderSteps
  import opened SenderTheorems
  import opened SenderProgress
  import opened SenderRouting
  import C = Counters

  datatype Joint = Joint(counts: C.State, sender: State)

  /** A call from JavaScript with the jobs it queues, a step of the sending side, or one of the receivers and
      of JavaScript. */
  datatype Step = Call(call: C.Call, jobs: seq<Job>) | Sending(e: Event) | Receiving(event: C.Event)

  function Start(cache: Cache): Joint {
    Joint(C.INIT, Init(cache))
  }

  /** The jobs carry the completions of the call's receivers, in order. Jobs come from calls only, and
      completions from the sender only. */
  ghost predicate Possible(j: Joint, step: Step) {
    match step
    case Call(call, jobs) =>
      && C.WellFormed(call) && |jobs| == C.Queued(call)
      && forall i :: 0 <= i < |jobs| ==> jobs[i].completion == |j.counts.receivers| + i
    case Sending(e) => !e.Enqueue? && InRange(j.sender) && Enabled(j.sender, e)
    case Receiving(event) => !event.Invoke? && !event.Complete? && C.Enabled(j.counts, event)
  }

  /** The result goes through the completion's channel; a channel already used takes nothing. */
  function Completed(counts: C.State, r: nat): C.State {
    if C.Enabled(counts, C.Complete(r)) then C.Next(counts, C.Complete(r)) else counts
  }

  ghost function After(j: Joint, step: Step): Joint
    requires Possible(j, step)
  {
    match step
    case Call(call, jobs) =>
      Joint(C.Next(j.counts, C.Invoke(call)), j.sender.(queue := j.sender.queue + jobs))
    case Sending(e) =>
      Joint(if e.Finish? then Completed(j.counts, j.sender.tasks[e.t].job.completion) else j.counts, Next(j.sender, e))
    case Receiving(event) => Joint(C.Next(j.counts, event), j.sender)
  }

  ghost predicate CanGo(j: Joint, steps: seq<Step>)
    decreases |steps|
  {
    steps == [] || (Possible(j, steps[0]) && CanGo(After(j, steps[0]), steps[1..]))
  }

  ghost function Go(j: Joint, steps: seq<Step>): Joint
    requires CanGo(j, steps)
    decreases |steps|
  {
    if steps == [] then j else Go(After(j, steps[0]), steps[1..])
  }

  // ---- Every job has its receiver -----------------------------------------

  /** No two jobs share a receiver; a receiver is in flight exactly while its job has not ended. */
  ghost predicate Matched(rs: seq<C.Receiver>, s: State) {
    var jobs := Jobs(s);
    && (forall i :: 0 <= i < |jobs| ==>
          jobs[i].completion < |rs| && (rs[jobs[i].completion].stage.InFlight? <==> !Ended(s, i)))
    && (forall i, k :: 0 <= i < k < |jobs| ==> jobs[i].completion != jobs[k].completion)
    && (forall r :: 0 <= r < |rs| && rs[r].stage.InFlight? ==> exists i :: 0 <= i < |jobs| && jobs[i].completion == r)
  }

  ghost predicate JointInv(j: Joint) {
    C.Inv(j.counts) && Inv(j.sender) && Matched(j.counts.receivers, j.sender)
  }

  // ---- Every step keeps it -------------------------------------------------

  /** What a call queues has the receivers in flight that the call set up, and no other. */
  lemma QueuedAreInFlight(call: C.Call)
    requires C.WellFormed(call)
    ensures C.Queued(call) <= |C.NewReceivers(call)|
    ensures forall i :: 0 <= i < |C.NewReceivers(call)| ==>
              (C.NewReceivers(call)[i].stage.InFlight? <==> i < C.Queued(call))
  {
  }

  lemma CallKeepsMatched(rs: seq<C.Receiver>, s: State, call: C.Call, jobs: seq<Job>)
    requires Matched(rs, s) && C.WellFormed(call) && |jobs| == C.Queued(call)
    requires forall i :: 0 <= i < |jobs| ==> jobs[i].completion == |rs| + i
    ensures Matched(rs + C.NewReceivers(call), s.(queue := s.queue + jobs))
  {
    QueuedAreInFlight(call);
    hide C.NewReceivers, C.Queued, C.WellFormed;
    var rs', s' := rs + C.NewReceivers(call), s.(queue := s.queue + jobs);
    var held, all := Jobs(s), Jobs(s');
    assert all == held + jobs;
    hide Jobs;
    forall r | 0 <= r < |rs'| && rs'[r].stage.InFlight?
      ensures exists i :: 0 <= i < |all| && all[i].completion == r
    {
      var i := OldAndNew(held, jobs, rs, C.NewReceivers(call), r);
      assert all[i].completion == r;
    }
    assert forall i: nat :: Ended(s', i) <==> Ended(s, i);
  }

  lemma OldAndNew(held: seq<Job>, jobs: seq<Job>, rs: seq<C.Receiver>, added: seq<C.Receiver>, r: nat) returns (i: nat)
    requires r < |rs + added| && (rs + added)[r].stage.InFlight?
    requires |rs| <= r ==> r - |rs| < |jobs| && jobs[r - |rs|].completion == r
    requires r < |rs| && rs[r].stage.InFlight? ==> exists i :: 0 <= i < |held| && held[i].completion == r
    ensures i < |held + jobs| && (held + jobs)[i].completion == r
  {
    if r < |rs| {
      i :| 0 <= i < |held| && held[i].completion == r;
    } else {
      i := |held| + (r - |rs|);
    }
  }

  /** The receiver of a job that ends is in flight: it was never reported before, and now it is. */
  lemma FinishFindsReceiver(j: Joint, t: nat)
    requires Matched(j.counts.receivers, j.sender) && IsTask(j.sender, t) && j.sender.tasks[t].phase.Returned?
    ensures C.Enabled(j.counts, C.Complete(j.sender.tasks[t].job.completion))
  {
    assert Jobs(j.sender)[t] == j.sender.tasks[t].job;
  }

  /** What a step of the sending side does to both. */
  lemma SendingEffect(j: Joint, e: Event)
    requires Matched(j.counts.receivers, j.sender) && Possible(j, Sending(e))
    ensures After(j, Sending(e)).sender == Next(j.sender, e)
    ensures if e.Finish? then
              && e.t < |j.sender.tasks|
              && var r := j.sender.tasks[e.t].job.completion;
                 && C.AtStage(j.counts, r, C.InFlight)
                 && After(j, Sending(e)).counts == C.SetStage(j.counts, r, C.Resolved)
            else After(j, Sending(e)).counts == j.counts
  {
    hide Matched, InRange, Next;
    if e.Finish? {
      FinishFindsReceiver(j, e.t);
    }
  }

  lemma FinishKeepsMatched(rs: seq<C.Receiver>, s: State, s': State, t: nat)
    requires Matched(rs, s) && t < |s.tasks| && Jobs(s') == Jobs(s)
    requires forall i: nat :: Ended(s', i) <==> Ended(s, i) || i == t
    requires s.tasks[t].job.completion < |rs|
    ensures var r := s.tasks[t].job.completion; Matched(rs[r := rs[r].(stage := C.Resolved)], s')
  {
    assert Jobs(s)[t] == s.tasks[t].job;
    hide Jobs, Ended;
  }

  lemma SendingKeeps(j: Joint, e: Event)
    requires JointInv(j) && Possible(j, Sending(e))
    ensures JointInv(After(j, Sending(e)))
  {
    hide C.Inv, Inv, Matched, InRange, Enabled, Next, After, Jobs, Ended;
    SendingEffect(j, e);
    SendingKeepsJobs(j.sender, e);
    SenderSteps.StepKeepsInv(j.sender, e);
    if e.Finish? {
      hide Possible;
      C.StepKeepsInv(j.counts, C.Complete(j.sender.tasks[e.t].job.completion));
      FinishKeepsMatched(j.counts.receivers, j.sender, Next(j.sender, e), e.t);
    } else {
      SameMatched(j.counts.receivers, j.sender, Next(j.sender, e));
    }
  }

  lemma SameMatched(rs: seq<C.Receiver>, s: State, s': State)
    requires Matched(rs, s) && Jobs(s') == Jobs(s) && forall i: nat :: Ended(s', i) <==> Ended(s, i)
    ensures Matched(rs, s')
  {
    hide Jobs, Ended;
  }

  lemma CallKeeps(j: Joint, call: C.Call, jobs: seq<Job>)
    requires JointInv(j) && Possible(j, Call(call, jobs))
    ensures JointInv(After(j, Call(call, jobs)))
  {
    hide C.Inv, Inv, Matched;
    C.StepKeepsInv(j.counts, C.Invoke(call));
    RequestKeeps(j.sender, j.sender.(queue := j.sender.queue + jobs));
    CallKeepsMatched(j.counts.receivers, j.sender, call, jobs);
  }

  lemma ReceivingKeeps(j: Joint, event: C.Event)
    requires JointInv(j) && Possible(j, Receiving(event))
    ensures JointInv(After(j, Receiving(event)))
  {
    C.StepKeepsInv(j.counts, event);
    hide C.Inv, Inv, Jobs, Ended;
  }

  lemma StepKeepsJointInv(j: Joint, step: Step)
    requires JointInv(j) && Possible(j, step)
    ensures JointInv(After(j, step))
  {
    hide JointInv, Possible, After;
    match step
    case Call(call, jobs) => CallKeeps(j, call, jobs);
    case Sending(e) => SendingKeeps(j, e);
    case Receiving(event) => ReceivingKeeps(j, event);
  }

  lemma {:induction false} RunKeepsJointInv(j: Joint, steps: seq<Step>)
    requires JointInv(j) && CanGo(j, steps)
    ensures JointInv(Go(j, steps))
    decreases |steps|
  {
    hide JointInv, Possible, After;
    if steps != [] {
      StepKeepsJointInv(j, steps[0]);
      RunKeepsJointInv(After(j, steps[0]), steps[1..]);
    }
  }

  lemma StartKeeps(cache: Cache)
    requires EmptyCache(cache)
    ensures JointInv(Start(cache))
  {
    hide C.Inv, Inv, Matched;
    InitInv(cache);
    NothingMatched(cache);
    NothingCounted();
  }

  lemma NothingMatched(cache: Cache)
    ensures Matched([], Init(cache))
  {
    assert Jobs(Init(cache)) == [];
    hide Jobs;
  }

  lemma NothingCounted()
    ensures C.Inv(C.INIT)
  {
  }

  ghost predicate Reached(j: Joint, cache: Cache, steps: seq<Step>) {
    EmptyCache(cache) && CanGo(Start(cache), steps) && j == Go(Start(cache), steps)
  }

  lemma ReachedJointInv(j: Joint, cache: Cache, steps: seq<Step>)
    requires Reached(j, cache, steps)
    ensures JointInv(j)
  {
    hide JointInv, CanGo, Go;
    StartKeeps(cache);
    RunKeepsJointInv(Start(cache), steps);
  }

  /** What a multi-send queues is what its addresses, paired with the completions of its receivers, ask for: its
      part of the joint step is exactly those jobs. */
  lemma MultiSendIsOneCall(j: Joint, ports: nat, hosts: nat, awaited: bool, addresses: seq<SocketAddr>, data: bytes)
    requires |addresses| == if hosts <= ports then hosts else ports
    ensures var oks := seq(|addresses|, i => true);
            var completions := seq(hosts, i requires 0 <= i < hosts => |j.counts.receivers| + i);
            Possible(j, Call(C.MultiSend(ports, hosts, true, oks, awaited), Zip(addresses, data, completions)))
  {
    hide Zip;
  }

  /** A call that throws queues nothing: a header that does not parse, or an address that does not resolve. */
  lemma ThrowsQueueNothing(j: Joint, call: C.Call, jobs: seq<Job>)
    requires Possible(j, Call(call, jobs))
    requires match call
             case Send(addressOk) => !addressOk
             case SendWithHeader(headerOk, addressOk) => !headerOk || !addressOk
             case MultiSend(_, _, headerOk, addressesOk, _) =>
               !headerOk || exists i :: 0 <= i < |addressesOk| && !addressesOk[i]
    ensures jobs == []
  {
  }

  // ---- Each completion once ------------------------------------------------

  /** In every run, a result always goes to a receiver that waits for one and never had one. */
  lemma EveryResultIsAwaited(j: Joint, cache: Cache, steps: seq<Step>, t: nat)
    requires Reached(j, cache, steps) && Possible(j, Sending(Finish(t)))
    ensures var r := j.sender.tasks[t].job.completion;
            && C.AtStage(j.counts, r, C.InFlight)
            && C.AtStage(After(j, Sending(Finish(t))).counts, r, C.Resolved)
  {
    ReachedJointInv(j, cache, steps);
    hide Reached, C.Inv, Inv, Matched, Possible, After;
    SendingEffect(j, Finish(t));
  }

  /** When the sender has no work left, every receiver of a queued send has had its result. */
  lemma NoWorkNoneInFlight(j: Joint)
    requires JointInv(j) && !WorkLeft(j.sender)
    ensures forall r :: 0 <= r < |j.counts.receivers| ==> !j.counts.receivers[r].stage.InFlight?
  {
    hide C.Inv, Inv;
    var jobs := Jobs(j.sender);
    forall i | 0 <= i < |jobs|
      ensures Ended(j.sender, i)
    {
    }
    hide Jobs, Ended;
  }

  // ---- Every call is accounted for ----------------------------------------

  predicate Unfinished(r: C.Receiver) {
    r.stage.Resolved? || r.stage.Scheduled?
  }

  /** Something is left to do: for the sender, or for a receiver that has its result. */
  ghost predicate Left(j: Joint) {
    WorkLeft(j.sender) || exists r :: 0 <= r < |j.counts.receivers| && Unfinished(j.counts.receivers[r])
  }

  predicate IsWork(step: Step) {
    match step
    case Call(_, _) => false
    case Sending(e) => IsProgress(e)
    case Receiving(event) => event.Wake? || event.Report?
  }

  predicate IsRequest(step: Step) {
    step.Call? || (step.Sending? && (step.e.Enqueue? || step.e.RequestEviction?))
  }

  function WorkCount(steps: seq<Step>): nat {
    if steps == [] then 0 else (if IsWork(steps[0]) then 1 else 0) + WorkCount(steps[1..])
  }

  function StageWork(stage: C.Stage): nat {
    match stage
    case InFlight => 2
    case Resolved => 2
    case Scheduled => 1
    case _ => 0
  }

  function ReceiversWork(rs: seq<C.Receiver>): nat {
    if rs == [] then 0 else ReceiversWork(rs[..|rs| - 1]) + StageWork(rs[|rs| - 1].stage)
  }

  function JointWork(j: Joint): nat {
    Work(j.sender) + ReceiversWork(j.counts.receivers)
  }

  lemma {:induction false} ReceiversWorkUpdate(rs: seq<C.Receiver>, r: nat, x: C.Receiver)
    requires r < |rs|
    ensures ReceiversWork(rs[r := x]) + StageWork(rs[r].stage) == ReceiversWork(rs) + StageWork(x.stage)
  {
    var last := |rs| - 1;
    if r < last {
      ReceiversWorkUpdate(rs[..last], r, x);
      assert rs[r := x][..last] == rs[..last][r := x];
    } else {
      assert rs[r := x][..last] == rs[..last];
    }
  }

  lemma SendingBound(j: Joint, e: Event)
    requires JointInv(j) && Possible(j, Sending(e)) && !e.RequestEviction?
    ensures JointWork(After(j, Sending(e))) + (if IsProgress(e) then 1 else 0) <= JointWork(j)
  {
    hide C.Inv, Inv, InRange, Enabled, Matched, After, Work, Next, ReceiversWork, IsProgress;
    EventBound(j.sender, e);
    SendingEffect(j, e);
    if e.Finish? {
      var r := j.sender.tasks[e.t].job.completion;
      ReceiversWorkUpdate(j.counts.receivers, r, j.counts.receivers[r].(stage := C.Resolved));
    }
  }

  lemma ReceivingBound(j: Joint, event: C.Event)
    requires JointInv(j) && Possible(j, Receiving(event))
    ensures JointWork(After(j, Receiving(event))) + (if IsWork(Receiving(event)) then 1 else 0) <= JointWork(j)
  {
    hide Inv, Matched, Work, ReceiversWork;
    if event.Wake? || event.Report? {
      var r := event.r;
      ReceiversWorkUpdate(j.counts.receivers, r, After(j, Receiving(event)).counts.receivers[r]);
    }
  }

  lemma {:induction false} WorkIsBounded(j: Joint, steps: seq<Step>)
    requires JointInv(j) && CanGo(j, steps)
    requires forall i :: 0 <= i < |steps| ==> !IsRequest(steps[i])
    ensures WorkCount(steps) + JointWork(Go(j, steps)) <= JointWork(j)
    decreases |steps|
  {
    if steps != [] {
      var step, rest := steps[0], steps[1..];
      assert !IsRequest(step) && forall i :: 0 <= i < |rest| ==> rest[i] == steps[i + 1];
      hide JointInv, Possible, After, JointWork;
      match step {
        case Sending(e) => SendingBound(j, e);
        case Receiving(event) => ReceivingBound(j, event);
      }
      StepKeepsJointInv(j, step);
      WorkIsBounded(After(j, step), rest);
    }
  }

  lemma LeftCanGoOn(j: Joint) returns (step: Step)
    requires JointInv(j) && Left(j)
    ensures IsWork(step) && Possible(j, step)
  {
    hide Matched, C.Inv;
    if WorkLeft(j.sender) {
      InvHasParts(j.sender);
      hide Inv, InRange, WorkLeft, Enabled;
      var e := WorkCanGoOn(j.sender);
      step := Sending(e);
    } else {
      hide Inv, WorkLeft;
      var r: nat :| r < |j.counts.receivers| && Unfinished(j.counts.receivers[r]);
      step := Receiving(if j.counts.receivers[r].stage.Resolved? then C.Wake(r) else C.Report(r));
    }
  }

  lemma NothingLeftIsLeak(j: Joint)
    requires JointInv(j) && !Left(j) && C.TotalIncrements(j.counts.calls) < C.WORD
    ensures j.counts.sends == C.TotalLeak(j.counts.calls)
  {
    NoWorkNoneInFlight(j);
    hide Inv, Matched, WorkLeft, C.TotalLeak, C.TotalIncrements, C.WellFormed;
    C.NoneUnreported(j.counts.receivers);
    hide C.CountUnreported;
    C.NoWrap(C.TotalLeak(j.counts.calls));
  }

  /** From any reachable state of both together, a run without new calls holds a bounded number of steps of the
      program, and can be continued while any send or report is left; once none is, the counter of
      outstanding sends is what the calls so far left behind for good, and nothing more. */
  lemma EveryCallIsAccountedFor(j: Joint, cache: Cache, before: seq<Step>, steps: seq<Step>)
    requires Reached(j, cache, before) && CanGo(j, steps)
    requires forall i :: 0 <= i < |steps| ==> !IsRequest(steps[i])
    ensures WorkCount(steps) <= JointWork(j)
    ensures var end := Go(j, steps);
            && (Left(end) ==> exists step :: IsWork(step) && Possible(end, step))
            && (!Left(end) && C.TotalIncrements(end.counts.calls) < C.WORD ==>
                  end.counts.sends == C.TotalLeak(end.counts.calls))
  {
    hide JointInv, Reached, CanGo, Go, Left, IsWork, Possible, JointWork, C.TotalLeak, C.TotalIncrements, IsRequest;
    ReachedJointInv(j, cache, before);
    WorkIsBounded(j, steps);
    RunKeepsJointInv(j, steps);
    var end := Go(j, steps);
    if Left(end) {
      var step := LeftCanGoOn(end);
    } else if C.TotalIncrements(end.counts.calls) < C.WORD {
      NothingLeftIsLeak(end);
    }
  }
}
