/**
  The dedup key rpc:completed:r is never left behind: while it is present,
  either the waiter of r was resolved by a result, or the result that took the
  key is still being handled or in transit.
*/
module DedupSafety {
  import opened WaiterTable
  import opened InvokeProtocol
  import opened SettlementSafety
  import opened AnswerSafety

  predicate Resolved(s: State, r: RequestId) {
    r in s.invocations && SettledByResult(s.invocations[r])
  }

  // A handler that has taken the dedup key of r and has not given it back.
  predicate Holds(h: Handler, r: RequestId) {
    h.requestId == r && !h.Looked?
  }

  ghost predicate Underway(traffic: Traffic, r: RequestId) {
    || (exists h :: h in traffic.handlers && Holds(traffic.handlers[h], r))
    || (exists m :: m in traffic.results && traffic.results[m].requestId == r)
  }

  ghost predicate NotPoisoned(s: State) {
    forall r :: r in s.keys.completed ==> Resolved(s, r) || Underway(s.traffic, r)
  }

  lemma StaysUnderway(before: Traffic, after: Traffic, r: RequestId)
    requires Underway(before, r)
    requires forall h :: h in before.handlers && Holds(before.handlers[h], r) ==>
               h in after.handlers && Holds(after.handlers[h], r)
    requires forall m :: m in before.results && before.results[m].requestId == r ==>
               m in after.results && after.results[m].requestId == r
    ensures Underway(after, r)
  {
    if h :| h in before.handlers && Holds(before.handlers[h], r) {
      assert h in after.handlers && Holds(after.handlers[h], r);
    } else {
      var m :| m in before.results && before.results[m].requestId == r;
      assert m in after.results && after.results[m].requestId == r;
    }
  }

  // A step that leaves handlers and results alone, takes no key and unsettles nothing is harmless.
  lemma QuietStep(s: State, t: State)
    requires NotPoisoned(s)
    requires t.keys.completed <= s.keys.completed
    requires t.traffic.handlers == s.traffic.handlers && t.traffic.results == s.traffic.results
    requires forall r :: Resolved(s, r) ==> Resolved(t, r)
    ensures NotPoisoned(t)
  {
    forall r | r in t.keys.completed && !Resolved(t, r)
      ensures Underway(t.traffic, r)
    {
      StaysUnderway(s.traffic, t.traffic, r);
    }
  }

  lemma SettleKeepsResolved(s: State, instance: InstanceId, r: RequestId, settlement: Settlement)
    requires WaitersMatch(s) && r in WaitersAt(s.waiters, instance)
    ensures forall q :: Resolved(s, q) ==> Resolved(Settle(s, instance, r, settlement), q)
    ensures settlement.ByResult? ==> Resolved(Settle(s, instance, r, settlement), r)
  {
  }

  lemma InvokeKeepsResolved(s: State, step: Step)
    requires WaitersMatch(s) && Enabled(s, step) && (step.Begin? || step.Setup? || step.Finish?)
    ensures forall q :: Resolved(s, q) ==> Resolved(Apply(s, step), q)
  {
    match step
    case Begin(r, at, timeout) =>
    case Setup(r, action) =>
      var t := DoSetup(s, r, action);
      assert t.invocations == s.invocations[r := t.invocations[r]];
    case Finish(r, action) =>
      var t := DoFinish(s, r, action);
      assert t.invocations == s.invocations[r := t.invocations[r]];
  }

  lemma ReceiveKeepsUnpoisoned(s: State, action: ResultAction)
    requires NotPoisoned(s) && ResultEnabled(s, action) && action.Receive?
    ensures NotPoisoned(DoResult(s, action))
  {
    var t := DoResult(s, action);
    forall r | r in t.keys.completed && !Resolved(t, r)
      ensures Underway(t.traffic, r)
    {
      StaysUnderway(s.traffic, t.traffic, r);
    }
  }

  lemma ClaimKeepsUnpoisoned(s: State, handler: int)
    requires NotPoisoned(s) && ResultEnabled(s, Claim(handler))
    ensures NotPoisoned(DoClaim(s, handler))
  {
    var t := DoClaim(s, handler);
    forall r | r in t.keys.completed && !Resolved(t, r)
      ensures Underway(t.traffic, r)
    {
      if r in s.keys.completed {
        StaysUnderway(s.traffic, t.traffic, r);
      } else {
        assert Holds(t.traffic.handlers[handler], r);
      }
    }
  }

  lemma ConcludeKeepsUnpoisoned(s: State, handler: int, message: int)
    requires WaitersMatch(s) && NotPoisoned(s) && ResultEnabled(s, Conclude(handler, message))
    ensures NotPoisoned(DoConclude(s, handler, message))
  {
    var t := DoConclude(s, handler, message);
    var h := s.traffic.handlers[handler];
    if h.target == h.at && Resolves(WaitersAt(s.waiters, h.at), h.requestId, h.answer.fromClientId) {
      SettleKeepsResolved(s, h.at, h.requestId, ByResult(h.answer));
    }
    forall r | r in t.keys.completed && !Resolved(t, r)
      ensures Underway(t.traffic, r)
    {
      if r != h.requestId {
        StaysUnderway(s.traffic, t.traffic, r);
      } else if h.target != h.at {
        assert t.traffic.results[message].requestId == r;
      } else {
        assert Holds(t.traffic.handlers[handler], r);
      }
    }
  }

  lemma DeliverKeepsUnpoisoned(s: State, message: int, handler: int)
    requires WaitersMatch(s) && NotPoisoned(s) && ResultEnabled(s, DeliverResult(message, handler))
    ensures NotPoisoned(DoDeliverResult(s, message, handler))
  {
    var t := DoDeliverResult(s, message, handler);
    var m := s.traffic.results[message];
    if Resolves(WaitersAt(s.waiters, m.target), m.requestId, m.answer.fromClientId) {
      SettleKeepsResolved(s, m.target, m.requestId, ByResult(m.answer));
    }
    forall r | r in t.keys.completed && !Resolved(t, r)
      ensures Underway(t.traffic, r)
    {
      if r != m.requestId {
        StaysUnderway(s.traffic, t.traffic, r);
      } else {
        assert Holds(t.traffic.handlers[handler], r);
      }
    }
  }

  lemma DropKeepsUnpoisoned(s: State, handler: int)
    requires NotPoisoned(s) && ResultEnabled(s, Drop(handler))
    ensures NotPoisoned(DoDrop(s, handler))
  {
    var t := DoDrop(s, handler);
    forall r | r in t.keys.completed && !Resolved(t, r)
      ensures Underway(t.traffic, r)
    {
      StaysUnderway(s.traffic, t.traffic, r);
    }
  }

  lemma InvokeKeepsUnpoisoned(s: State, step: Step)
    requires WaitersMatch(s) && NotPoisoned(s) && Enabled(s, step) && (step.Begin? || step.Setup?)
    ensures NotPoisoned(Apply(s, step))
  {
    InvokeKeepsResolved(s, step);
    QuietStep(s, Apply(s, step));
  }

  lemma FinishKeepsUnpoisoned(s: State, r: RequestId, action: FinishAction)
    requires WaitersMatch(s) && NotPoisoned(s) && Enabled(s, Finish(r, action))
    ensures NotPoisoned(DoFinish(s, r, action))
  {
    InvokeKeepsResolved(s, Finish(r, action));
    FinishLeavesResults(s, r, action);
    QuietStep(s, DoFinish(s, r, action));
  }

  lemma EnvironmentKeepsUnpoisoned(s: State, action: EnvironmentAction)
    requires WaitersMatch(s) && NotPoisoned(s) && EnvironmentEnabled(s, action)
    ensures NotPoisoned(DoEnvironment(s, action))
  {
    if action.FireTimer? {
      SettleKeepsResolved(s, action.instance, action.requestId, ByTimeout);
    }
    QuietStep(s, DoEnvironment(s, action));
  }

  lemma StepKeepsUnpoisoned(s: State, step: Step)
    requires WaitersMatch(s) && NotPoisoned(s) && Enabled(s, step)
    ensures NotPoisoned(Apply(s, step))
  {
    match step
    case Begin(r, at, timeout) => InvokeKeepsUnpoisoned(s, step);
    case Setup(r, action) => InvokeKeepsUnpoisoned(s, step);
    case Finish(r, action) => FinishKeepsUnpoisoned(s, r, action);
    case OfResult(action) =>
      match action {
        case Receive(handler, at, r, answer) => ReceiveKeepsUnpoisoned(s, action);
        case Claim(handler) => ClaimKeepsUnpoisoned(s, handler);
        case Conclude(handler, message) => ConcludeKeepsUnpoisoned(s, handler, message);
        case DeliverResult(message, handler) => DeliverKeepsUnpoisoned(s, message, handler);
        case Drop(handler) => DropKeepsUnpoisoned(s, handler);
      }
    case OfEnvironment(action) => EnvironmentKeepsUnpoisoned(s, action);
  }

  lemma {:induction false} RunIsUnpoisoned(start: nat, steps: seq<Step>)
    requires Run(start, steps)
    ensures NotPoisoned(After(start, steps))
  {
    if steps != [] {
      var before := steps[..|steps| - 1];
      RunIsUnpoisoned(start, before);
      RunIsSound(start, before);
      StepKeepsUnpoisoned(After(start, before), steps[|steps| - 1]);
    }
  }

  // In every run, when no result of r is being handled or in transit, a dedup key left for r means
  // that a result resolved r's waiter; an unresolved request can therefore still be answered.
  lemma {:induction false} DedupKeyIsNeverPoisoned(start: nat, steps: seq<Step>, r: RequestId)
    requires Run(start, steps) && r in After(start, steps).keys.completed
    requires !Underway(After(start, steps).traffic, r)
    ensures r in After(start, steps).invocations && SettledByResult(After(start, steps).invocations[r])
  {
    RunIsUnpoisoned(start, steps);
  }
}
