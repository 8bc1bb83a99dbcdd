/**
  No invoke is stuck: from every state a run can reach, each invoke can still
  return by its own steps and its own timer alone. And what the environment
  may do at any moment, so that the runs leave nothing out.
*/
module InvokeProgress {
  import opened WaiterTable
  import opened InvokeProtocol
  import opened SettlementSafety
  import opened AnswerSafety
  import opened TimingSafety

  // A step of this invoke that is no fault, its timer, or time passing.
  ghost predicate IsOwn(step: Step, r: RequestId) {
    match step
    case Setup(q, _) => q == r
    case Finish(q, action) => q == r && action != DispatchFault
    case OfEnvironment(action) => action.Tick? || (action.FireTimer? && action.requestId == r)
    case _ => false
  }

  ghost predicate Brings(start: nat, steps: seq<Step>, more: seq<Step>, r: RequestId) {
    (forall step <- more :: IsOwn(step, r)) && Run(start, steps + more) &&
    r in After(start, steps + more).invocations && After(start, steps + more).invocations[r].phase.Returned?
  }

  ghost predicate CanReturn(start: nat, steps: seq<Step>, r: RequestId) {
    exists more :: Brings(start, steps, more, r)
  }

  lemma OneStepCloser(start: nat, steps: seq<Step>, step: Step, r: RequestId)
    requires IsOwn(step, r) && CanReturn(start, steps + [step], r)
    ensures CanReturn(start, steps, r)
  {
    var more :| Brings(start, steps + [step], more, r);
    assert steps + [step] + more == steps + ([step] + more);
    assert Brings(start, steps, [step] + more, r);
  }

  // How many phases may lie ahead.
  ghost function Ahead(phase: Phase): nat {
    match phase
    case Resolving => 8
    case Selecting => 7
    case Acquired => 6
    case Registered => 5
    case Marked => 4
    case Awaiting => 3
    case Releasing(_) => 2
    case Fixing(_) => 1
    case Returned(_) => 0
  }

  lemma {:induction false} Taking(start: nat, steps: seq<Step>, step: Step, r: RequestId)
    requires Run(start, steps) && r in After(start, steps).invocations && IsOwn(step, r)
    requires Enabled(After(start, steps), step)
    requires r in Apply(After(start, steps), step).invocations
    requires Ahead(Apply(After(start, steps), step).invocations[r].phase) <
             Ahead(After(start, steps).invocations[r].phase)
    ensures CanReturn(start, steps, r)
    decreases Ahead(After(start, steps).invocations[r].phase), 0
  {
    Extend(start, steps, step);
    CanAlwaysReturn(start, steps + [step], r);
    OneStepCloser(start, steps, step, r);
  }

  // An invoke whose waiter has not settled waits for its timer, which only time keeps from going off.
  lemma {:induction false} TimingOut(start: nat, steps: seq<Step>, r: RequestId)
    requires Run(start, steps) && r in After(start, steps).invocations
    requires After(start, steps).invocations[r].phase == Awaiting
    requires After(start, steps).invocations[r].settlements == []
    ensures CanReturn(start, steps, r)
    decreases Ahead(Awaiting), 1
  {
    RunIsSound(start, steps);
    var s := After(start, steps);
    var inv := s.invocations[r];
    var tick := OfEnvironment(Tick(s.now + 1 + inv.dueAt));
    Extend(start, steps, tick);
    var t := Apply(s, tick);
    var fire := OfEnvironment(FireTimer(r, inv.at));
    assert r in WaitersAt(t.waiters, inv.at) && Enabled(t, fire);
    Extend(start, steps + [tick], fire);
    Taking(start, steps + [tick] + [fire], Finish(r, Complete), r);
    OneStepCloser(start, steps + [tick], fire, r);
    OneStepCloser(start, steps, tick, r);
  }

  // What an invoke that is not waiting does next.
  lemma OwnNext(s: State, r: RequestId) returns (step: Step)
    requires r in s.invocations && !s.invocations[r].phase.Returned?
    requires s.invocations[r].phase.Awaiting? ==> s.invocations[r].settlements != []
    ensures IsOwn(step, r) && Enabled(s, step) && r in Apply(s, step).invocations
    ensures Ahead(Apply(s, step).invocations[r].phase) < Ahead(s.invocations[r].phase)
  {
    match s.invocations[r].phase
    case Resolving => step := Setup(r, ResolveProject);
    case Selecting => step := Setup(r, RejectSelection(Saturated));
    case Acquired => step := Setup(r, Register);
    case Registered => step := Setup(r, Mark);
    case Marked => step := Finish(r, Dispatch(NoSession));
    case Awaiting => step := Finish(r, Complete);
    case Releasing(_) => step := Finish(r, ReleaseSlot);
    case Fixing(_) => step := Finish(r, FixSlot);
  }

  // Whatever has happened, an invoke can return by its own steps and its own timer.
  lemma {:induction false} CanAlwaysReturn(start: nat, steps: seq<Step>, r: RequestId)
    requires Run(start, steps) && r in After(start, steps).invocations
    ensures CanReturn(start, steps, r)
    decreases Ahead(After(start, steps).invocations[r].phase), 2
  {
    var inv := After(start, steps).invocations[r];
    if inv.phase.Returned? {
      assert steps + [] == steps;
      assert Brings(start, steps, [], r);
    } else if inv.phase.Awaiting? && inv.settlements == [] {
      TimingOut(start, steps, r);
    } else {
      var step := OwnNext(After(start, steps), r);
      Taking(start, steps, step, r);
    }
  }

  // Nothing the environment may do is ruled out: a fresh request with any timeout, any later time, a timer
  // from its due time on, a fault before or after the mark, any capacity in range.
  lemma EnvironmentIsFree(s: State, r: RequestId, at: InstanceId, n: nat, clientId: ClientId)
    ensures r !in s.invocations && n >= 1 ==> Enabled(s, Begin(r, at, n))
    ensures n > s.now ==> Enabled(s, OfEnvironment(Tick(n))) && Apply(s, OfEnvironment(Tick(n))).now == n
    ensures r in WaitersAt(s.waiters, at) && WaitersAt(s.waiters, at)[r].dueAt <= s.now ==>
              Enabled(s, OfEnvironment(FireTimer(r, at)))
    ensures r in s.invocations && (s.invocations[r].phase == Registered || s.invocations[r].phase == Marked) ==>
              Enabled(s, Finish(r, DispatchFault))
    ensures r in s.invocations && s.invocations[r].phase == Selecting && clientId != NO_CLIENT && 1 <= n <= 1024 ==>
              Enabled(s, Setup(r, TryAcquire(clientId, n)))
  {
  }

  // Redis may lose any key at any moment: a slot counter then counts from zero, a result finds no waiter, and
  // another result may claim the request again.
  lemma KeysMayBeLost(s: State, r: RequestId, clientId: ClientId)
    ensures Enabled(s, OfEnvironment(ResetSlots(clientId)))
    ensures InFlight(Apply(s, OfEnvironment(ResetSlots(clientId))).keys, clientId) == 0
    ensures r in s.keys.waiter ==>
              Enabled(s, OfEnvironment(ExpireWaiterKey(r))) &&
              r !in Apply(s, OfEnvironment(ExpireWaiterKey(r))).keys.waiter
    ensures r in s.keys.completed ==>
              Enabled(s, OfEnvironment(ExpireCompleted(r))) &&
              r !in Apply(s, OfEnvironment(ExpireCompleted(r))).keys.completed
  {
  }
}
