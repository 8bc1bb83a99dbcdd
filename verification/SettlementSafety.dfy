/**
  Every waiter settles at most once, and a result that settles it was sent by
  the device the job was assigned to.
*/
module SettlementSafety {
  import opened WaiterTable
  import opened InvokeProtocol

  // The phases in which the invoke has registered its waiter and has not yet built a response.
  predicate Waiting(phase: Phase) {
    phase.Registered? || phase.Marked? || phase.Awaiting?
  }

  predicate Early(phase: Phase) {
    phase.Resolving? || phase.Selecting? || phase.Acquired?
  }

  // Each waiter in a map belongs to a waiting, unsettled invoke of that instance.
  ghost predicate Owned(invocations: map<RequestId, Invocation>, waiters: map<InstanceId, Waiters>) {
    forall i, r :: r in WaitersAt(waiters, i) ==>
      && r in invocations
      && invocations[r].at == i
      && Waiting(invocations[r].phase)
      && invocations[r].settlements == []
      && WaitersAt(waiters, i)[r] == Waiter(invocations[r].clientId, invocations[r].dueAt)
  }

  // Each waiting, unsettled invoke has its waiter; none settles twice, none before it waits.
  ghost predicate Kept(invocations: map<RequestId, Invocation>, waiters: map<InstanceId, Waiters>) {
    forall r :: r in invocations ==>
      && |invocations[r].settlements| <= 1
      && (Early(invocations[r].phase) ==> invocations[r].settlements == [])
      && (Waiting(invocations[r].phase) && invocations[r].settlements == [] ==>
            r in WaitersAt(waiters, invocations[r].at))
  }

  ghost predicate WaitersMatch(s: State) {
    Owned(s.invocations, s.waiters) && Kept(s.invocations, s.waiters)
  }

  lemma SettleKeepsMatch(s: State, instance: InstanceId, r: RequestId, settlement: Settlement)
    requires WaitersMatch(s) && r in WaitersAt(s.waiters, instance)
    ensures WaitersMatch(Settle(s, instance, r, settlement))
  {
    var t := Settle(s, instance, r, settlement);
    forall i, q | q in WaitersAt(t.waiters, i)
      ensures q != r && q in WaitersAt(s.waiters, i) && WaitersAt(t.waiters, i)[q] == WaitersAt(s.waiters, i)[q]
    {
      if i != instance {
        assert WaitersAt(t.waiters, i) == WaitersAt(s.waiters, i);
      }
    }
  }

  lemma CancelKeepsMatch(s: State, r: RequestId)
    requires WaitersMatch(s) && r in s.invocations
    ensures WaitersMatch(CancelWaiter(s, r))
    ensures r !in WaitersAt(CancelWaiter(s, r).waiters, s.invocations[r].at)
  {
    if r in WaitersAt(s.waiters, s.invocations[r].at) {
      SettleKeepsMatch(s, s.invocations[r].at, r, ByCancel);
    }
  }

  // An invoke may change its phase freely as long as it has no waiter and does not begin to wait unsettled.
  lemma MoveKeepsMatch(s: State, r: RequestId, next: Invocation)
    requires WaitersMatch(s)
    requires |next.settlements| <= 1 && (Early(next.phase) ==> next.settlements == [])
    requires if r in s.invocations && r in WaitersAt(s.waiters, s.invocations[r].at) then
               && Waiting(next.phase) && next.settlements == []
               && next.at == s.invocations[r].at
               && next.clientId == s.invocations[r].clientId && next.dueAt == s.invocations[r].dueAt
             else
               !Waiting(next.phase) || next.settlements != []
    ensures Owned(s.invocations[r := next], s.waiters) && Kept(s.invocations[r := next], s.waiters)
  {
  }

  lemma RegisterKeepsMatch(s: State, r: RequestId)
    requires WaitersMatch(s) && r in s.invocations && s.invocations[r].phase.Acquired?
    ensures WaitersMatch(DoRegister(s, r))
  {
    var t := DoRegister(s, r);
    var home := s.invocations[r].at;
    assert WaitersAt(t.waiters, home) == WaitersAt(s.waiters, home)[r := WaitersAt(t.waiters, home)[r]];
    forall i | i != home
      ensures WaitersAt(t.waiters, i) == WaitersAt(s.waiters, i)
    {
    }
    forall i, q | q in WaitersAt(t.waiters, i) && q != r
      ensures q in WaitersAt(s.waiters, i) && WaitersAt(t.waiters, i)[q] == WaitersAt(s.waiters, i)[q]
    {
    }
    forall i | i != home
      ensures r !in WaitersAt(t.waiters, i)
    {
      assert r !in WaitersAt(s.waiters, i);
    }
    forall q | q in s.invocations && q != r
      ensures q in WaitersAt(s.waiters, s.invocations[q].at) ==> q in WaitersAt(t.waiters, s.invocations[q].at)
    {
    }
  }

  lemma SetupKeepsMatch(s: State, r: RequestId, action: SetupAction)
    requires WaitersMatch(s) && r in s.invocations && SetupEnabled(s.invocations[r], action)
    ensures WaitersMatch(DoSetup(s, r, action))
  {
    if action.Register? {
      RegisterKeepsMatch(s, r);
    } else {
      MoveKeepsMatch(s, r, DoSetup(s, r, action).invocations[r]);
    }
  }

  lemma AbandonKeepsMatch(s: State, r: RequestId, reason: FailureReason)
    requires WaitersMatch(s) && r in s.invocations
    ensures WaitersMatch(Abandon(s, r, reason))
  {
    CancelKeepsMatch(s, r);
    MoveKeepsMatch(CancelWaiter(s, r), r, Abandon(s, r, reason).invocations[r]);
  }

  lemma FinishKeepsMatch(s: State, r: RequestId, action: FinishAction)
    requires WaitersMatch(s) && r in s.invocations && FinishEnabled(s, s.invocations[r], action)
    ensures WaitersMatch(DoFinish(s, r, action))
  {
    if action.DispatchFault? {
      AbandonKeepsMatch(s, r, InfrastructureError);
    } else if action.Dispatch? && !DoFinish(s, r, action).invocations[r].phase.Awaiting? {
      AbandonKeepsMatch(s, r, Unavailable);
    } else {
      MoveKeepsMatch(s, r, DoFinish(s, r, action).invocations[r]);
    }
  }

  lemma ResultKeepsMatch(s: State, action: ResultAction)
    requires WaitersMatch(s) && ResultEnabled(s, action)
    ensures WaitersMatch(DoResult(s, action))
  {
    match action
    case Receive(handler, at, r, answer) =>
    case Claim(handler) =>
    case Drop(handler) =>
    case Conclude(handler, message) =>
      var h := s.traffic.handlers[handler];
      if Resolves(WaitersAt(s.waiters, h.at), h.requestId, h.answer.fromClientId) {
        SettleKeepsMatch(s, h.at, h.requestId, ByResult(h.answer));
      }
    case DeliverResult(message, handler) =>
      var m := s.traffic.results[message];
      if Resolves(WaitersAt(s.waiters, m.target), m.requestId, m.answer.fromClientId) {
        SettleKeepsMatch(s, m.target, m.requestId, ByResult(m.answer));
      }
  }

  lemma {:induction false} StepKeepsMatch(s: State, step: Step)
    requires WaitersMatch(s) && Enabled(s, step)
    ensures WaitersMatch(Apply(s, step))
  {
    match step
    case Begin(r, at, timeout) => MoveKeepsMatch(s, r, Apply(s, step).invocations[r]);
    case Setup(r, action) => SetupKeepsMatch(s, r, action);
    case Finish(r, action) => FinishKeepsMatch(s, r, action);
    case OfResult(action) => ResultKeepsMatch(s, action);
    case OfEnvironment(action) =>
      if action.FireTimer? {
        SettleKeepsMatch(s, action.instance, action.requestId, ByTimeout);
      }
  }

  // ---------- results reach the right instance and the right waiter ----------

  predicate PastMark(phase: Phase) {
    !Early(phase) && !phase.Registered?
  }

  predicate HandlerRouted(s: State, h: Handler) {
    && h.requestId in s.invocations
    && (!h.Dropping? ==> h.target == s.invocations[h.requestId].at && (h.requestId, h.answer) in s.received)
  }

  predicate ResultRouted(s: State, m: RoutedResult) {
    && m.requestId in s.invocations
    && m.target == s.invocations[m.requestId].at
    && (m.requestId, m.answer) in s.received
  }

  // The waiter key, every suspended handler and every bus message name the instance that runs the invoke.
  ghost predicate Routed(s: State) {
    && (forall r :: r in s.keys.waiter ==>
          && r in s.invocations
          && s.keys.waiter[r].instance == s.invocations[r].at
          && PastMark(s.invocations[r].phase))
    && (forall h :: h in s.traffic.handlers ==> HandlerRouted(s, s.traffic.handlers[h]))
    && (forall m :: m in s.traffic.results ==> ResultRouted(s, s.traffic.results[m]))
  }

  // Nothing Routed speaks of is lost, and no request goes back before its mark.
  predicate Advances(inv: Invocation, next: Invocation) {
    && next.at == inv.at && next.startedAt == inv.startedAt && next.timeout == inv.timeout
    && (inv.phase.Selecting? || next.clientId == inv.clientId)
    && (inv.phase.Acquired? || next.dueAt == inv.dueAt)
    && inv.acquired <= next.acquired
    && (PastMark(inv.phase) ==> PastMark(next.phase))
  }

  ghost predicate Onward(s: State, t: State) {
    && s.received <= t.received
    && (forall r :: r in s.invocations ==>
          r in t.invocations && Advances(s.invocations[r], t.invocations[r]))
  }

  lemma SetupOnward(s: State, r: RequestId, action: SetupAction)
    requires r in s.invocations && SetupEnabled(s.invocations[r], action)
    ensures Onward(s, DoSetup(s, r, action))
  {
    var t := DoSetup(s, r, action);
    assert t.invocations == s.invocations[r := t.invocations[r]];
  }

  lemma FinishChangesOne(s: State, r: RequestId, action: FinishAction)
    requires r in s.invocations && FinishEnabled(s, s.invocations[r], action)
    ensures var t := DoFinish(s, r, action);
            t.received == s.received && r in t.invocations && t.invocations == s.invocations[r := t.invocations[r]]
  {
    match action
    case Dispatch(route) => AbandonChangesOne(s, r, Unavailable);
    case DispatchFault => AbandonChangesOne(s, r, InfrastructureError);
    case Complete =>
    case ReleaseSlot =>
    case FixSlot =>
  }

  lemma AbandonChangesOne(s: State, r: RequestId, reason: FailureReason)
    requires r in s.invocations
    ensures var t := Abandon(s, r, reason);
            && t.received == s.received && r in t.invocations && t.invocations == s.invocations[r := t.invocations[r]]
            && Advances(s.invocations[r], t.invocations[r])
  {
  }

  lemma FinishAdvances(s: State, r: RequestId, action: FinishAction)
    requires r in s.invocations && FinishEnabled(s, s.invocations[r], action)
    ensures r in DoFinish(s, r, action).invocations && Advances(s.invocations[r], DoFinish(s, r, action).invocations[r])
  {
    match action
    case Dispatch(route) => AbandonChangesOne(s, r, Unavailable);
    case DispatchFault => AbandonChangesOne(s, r, InfrastructureError);
    case Complete =>
    case ReleaseSlot =>
    case FixSlot =>
  }

  lemma FinishOnward(s: State, r: RequestId, action: FinishAction)
    requires r in s.invocations && FinishEnabled(s, s.invocations[r], action)
    ensures Onward(s, DoFinish(s, r, action))
  {
    FinishChangesOne(s, r, action);
    FinishAdvances(s, r, action);
  }

  // What a result on its way leaves alone: everything of an invoke but its settlements and acknowledgements.
  ghost predicate OnlySettles(before: map<RequestId, Invocation>, after: map<RequestId, Invocation>) {
    && after.Keys == before.Keys
    && (forall r :: r in before ==>
          after[r] == before[r].(settlements := after[r].settlements, acks := after[r].acks))
  }

  ghost predicate ResultFrame(s: State, t: State) {
    && t.now == s.now && s.received <= t.received && t.sends == s.sends && t.capacityUsed == s.capacityUsed
    && t.keys.waiter == s.keys.waiter && t.keys.inFlight == s.keys.inFlight && t.traffic.jobs == s.traffic.jobs
    && OnlySettles(s.invocations, t.invocations)
  }

  lemma SettledOnlySettles(invocations: map<RequestId, Invocation>, r: RequestId, settlement: Settlement,
                           answer: Answer)
    ensures OnlySettles(invocations, Settled(invocations, r, settlement))
    ensures OnlySettles(invocations, Acknowledge(Settled(invocations, r, settlement), r, answer))
  {
  }

  lemma ConcludeStaysInFrame(s: State, handler: int, message: int)
    requires ResultEnabled(s, Conclude(handler, message))
    ensures ResultFrame(s, DoConclude(s, handler, message))
  {
    var h := s.traffic.handlers[handler];
    var t := DoConclude(s, handler, message);
    SettledOnlySettles(s.invocations, h.requestId, ByResult(h.answer), h.answer);
    if h.target == h.at && Resolves(WaitersAt(s.waiters, h.at), h.requestId, h.answer.fromClientId) {
      assert t.invocations ==
             Acknowledge(Settled(s.invocations, h.requestId, ByResult(h.answer)), h.requestId, h.answer);
    } else {
      assert t.invocations == s.invocations;
    }
  }

  lemma DeliverStaysInFrame(s: State, message: int, handler: int)
    requires ResultEnabled(s, DeliverResult(message, handler))
    ensures ResultFrame(s, DoDeliverResult(s, message, handler))
  {
    var m := s.traffic.results[message];
    SettledOnlySettles(s.invocations, m.requestId, ByResult(m.answer), m.answer);
  }

  lemma HandlingStaysInFrame(s: State, action: ResultAction)
    requires ResultEnabled(s, action) && (action.Receive? || action.Claim? || action.Drop?)
    ensures ResultFrame(s, DoResult(s, action))
  {
  }

  lemma ResultStaysInFrame(s: State, action: ResultAction)
    requires ResultEnabled(s, action)
    ensures ResultFrame(s, DoResult(s, action))
  {
    if action.Conclude? {
      ConcludeStaysInFrame(s, action.handler, action.message);
    } else if action.DeliverResult? {
      DeliverStaysInFrame(s, action.message, action.handler);
    } else {
      HandlingStaysInFrame(s, action);
    }
  }

  lemma FrameIsOnward(s: State, t: State)
    requires ResultFrame(s, t)
    ensures Onward(s, t)
  {
  }

  lemma ResultOnward(s: State, action: ResultAction)
    requires ResultEnabled(s, action)
    ensures Onward(s, DoResult(s, action))
  {
    ResultStaysInFrame(s, action);
    FrameIsOnward(s, DoResult(s, action));
  }

  lemma EnvironmentOnward(s: State, action: EnvironmentAction)
    requires EnvironmentEnabled(s, action)
    ensures Onward(s, DoEnvironment(s, action))
  {
  }

  lemma StepOnward(s: State, step: Step)
    requires Enabled(s, step)
    ensures Onward(s, Apply(s, step))
  {
    match step
    case Setup(r, action) => SetupOnward(s, r, action);
    case Finish(r, action) => FinishOnward(s, r, action);
    case Begin(r, at, timeout) =>
    case OfResult(action) => ResultOnward(s, action);
    case OfEnvironment(action) => EnvironmentOnward(s, action);
  }

  predicate MarkRouted(s: State, r: RequestId) {
    r in s.keys.waiter && r in s.invocations
    && s.keys.waiter[r].instance == s.invocations[r].at && PastMark(s.invocations[r].phase)
  }

  // Whatever a step leaves in place stays routed; what it adds must be routed.
  lemma RoutedFrame(s: State, t: State)
    requires Routed(s) && Onward(s, t)
    requires forall r :: r in t.keys.waiter ==>
               (r in s.keys.waiter && s.keys.waiter[r] == t.keys.waiter[r]) || MarkRouted(t, r)
    requires forall h :: h in t.traffic.handlers ==>
               (h in s.traffic.handlers && s.traffic.handlers[h] == t.traffic.handlers[h])
               || HandlerRouted(t, t.traffic.handlers[h])
    requires forall m :: m in t.traffic.results ==>
               (m in s.traffic.results && s.traffic.results[m] == t.traffic.results[m])
               || ResultRouted(t, t.traffic.results[m])
    ensures Routed(t)
  {
    forall h | h in t.traffic.handlers
      ensures HandlerRouted(t, t.traffic.handlers[h])
    {
      assert h in s.traffic.handlers ==> HandlerRouted(s, s.traffic.handlers[h]);
    }
    forall m | m in t.traffic.results
      ensures ResultRouted(t, t.traffic.results[m])
    {
      assert m in s.traffic.results ==> ResultRouted(s, s.traffic.results[m]);
    }
  }

  lemma SetupKeepsRouted(s: State, r: RequestId, action: SetupAction)
    requires Routed(s) && r in s.invocations && SetupEnabled(s.invocations[r], action)
    ensures Routed(DoSetup(s, r, action))
  {
    SetupOnward(s, r, action);
    RoutedFrame(s, DoSetup(s, r, action));
  }

  ghost predicate ResultsUntouched(s: State, t: State) {
    && t.keys.waiter == s.keys.waiter && t.keys.completed == s.keys.completed
    && t.traffic.handlers == s.traffic.handlers && t.traffic.results == s.traffic.results
  }

  lemma AbandonLeavesResults(s: State, r: RequestId, reason: FailureReason)
    requires r in s.invocations
    ensures ResultsUntouched(s, Abandon(s, r, reason))
  {
  }

  lemma FinishLeavesResults(s: State, r: RequestId, action: FinishAction)
    requires r in s.invocations && FinishEnabled(s, s.invocations[r], action)
    ensures ResultsUntouched(s, DoFinish(s, r, action))
  {
    match action
    case Dispatch(route) => AbandonLeavesResults(s, r, Unavailable);
    case DispatchFault => AbandonLeavesResults(s, r, InfrastructureError);
    case Complete =>
    case ReleaseSlot =>
    case FixSlot =>
  }

  lemma FinishKeepsRouted(s: State, r: RequestId, action: FinishAction)
    requires Routed(s) && r in s.invocations && FinishEnabled(s, s.invocations[r], action)
    ensures Routed(DoFinish(s, r, action))
  {
    FinishOnward(s, r, action);
    FinishLeavesResults(s, r, action);
    RoutedFrame(s, DoFinish(s, r, action));
  }

  lemma HandlerStepKeepsRouted(s: State, action: ResultAction)
    requires Routed(s) && ResultEnabled(s, action) && (action.Receive? || action.Claim? || action.Drop?)
    ensures Routed(DoResult(s, action))
  {
    StepOnward(s, OfResult(action));
    if action.Receive? {
      assert action.requestId in s.keys.waiter ==> MarkRouted(s, action.requestId);
    } else if action.Claim? {
      assert HandlerRouted(s, s.traffic.handlers[action.handler]);
    }
    RoutedFrame(s, DoResult(s, action));
  }

  lemma ConcludeKeepsRouted(s: State, handler: int, message: int)
    requires Routed(s) && ResultEnabled(s, Conclude(handler, message))
    ensures Routed(DoConclude(s, handler, message))
  {
    StepOnward(s, OfResult(Conclude(handler, message)));
    assert HandlerRouted(s, s.traffic.handlers[handler]);
    RoutedFrame(s, DoConclude(s, handler, message));
  }

  lemma DeliverResultKeepsRouted(s: State, message: int, handler: int)
    requires Routed(s) && ResultEnabled(s, DeliverResult(message, handler))
    ensures Routed(DoDeliverResult(s, message, handler))
  {
    StepOnward(s, OfResult(DeliverResult(message, handler)));
    assert ResultRouted(s, s.traffic.results[message]);
    RoutedFrame(s, DoDeliverResult(s, message, handler));
  }

  lemma {:induction false} StepKeepsRouted(s: State, step: Step)
    requires Routed(s) && Enabled(s, step)
    ensures Routed(Apply(s, step))
  {
    match step
    case Begin(r, at, timeout) => StepOnward(s, step); RoutedFrame(s, Apply(s, step));
    case Setup(r, action) => SetupKeepsRouted(s, r, action);
    case Finish(r, action) => FinishKeepsRouted(s, r, action);
    case OfResult(action) =>
      if action.Conclude? {
        ConcludeKeepsRouted(s, action.handler, action.message);
      } else if action.DeliverResult? {
        DeliverResultKeepsRouted(s, action.message, action.handler);
      } else {
        HandlerStepKeepsRouted(s, action);
      }
    case OfEnvironment(action) => EnvironmentKeepsRouted(s, action);
  }

  lemma EnvironmentKeepsRouted(s: State, action: EnvironmentAction)
    requires Routed(s) && EnvironmentEnabled(s, action)
    ensures Routed(DoEnvironment(s, action))
  {
    StepOnward(s, OfEnvironment(action));
    RoutedFrame(s, DoEnvironment(s, action));
  }
}
