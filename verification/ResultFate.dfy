/**
  What becomes of a result: of every copy a device sends, each is under way,
  settled its waiter, or was turned away by one of the protocol's guards.
*/
module ResultFate {
  import opened WaiterTable
  import opened InvokeProtocol
  import opened SettlementSafety
  import opened AnswerSafety

  // ---------- the ledger of one result ----------

  predicate Carries(h: Handler, r: RequestId, answer: Answer) {
    !h.Dropping? && h.requestId == r && h.answer == answer
  }

  predicate Holds(m: RoutedResult, r: RequestId, answer: Answer) {
    m.requestId == r && m.answer == answer
  }

  function HandlersOf(handlers: map<int, Handler>, r: RequestId, answer: Answer): set<int> {
    set h | h in handlers && Carries(handlers[h], r, answer)
  }

  function MessagesOf(results: map<int, RoutedResult>, r: RequestId, answer: Answer): set<int> {
    set m | m in results && Holds(results[m], r, answer)
  }

  function Underway(traffic: Traffic, r: RequestId, answer: Answer): nat {
    HandlerCount(traffic.handlers, r, answer) + MessageCount(traffic.results, r, answer)
  }

  function Delivered(invocations: map<RequestId, Invocation>, r: RequestId, answer: Answer): nat {
    if r in invocations && ByResult(answer) in invocations[r].settlements then 1 else 0
  }

  predicate Receives(step: Step, r: RequestId, answer: Answer) {
    step.OfResult? && step.result.Receive? && step.result.requestId == r && step.result.answer == answer
  }

  // The step answers this copy `late` or `mismatch`, or lets a routed copy settle nothing.
  predicate TurnsAway(s: State, step: Step, r: RequestId, answer: Answer)
    requires Enabled(s, step)
  {
    step.OfResult? &&
    match step.result
    case Receive(_, _, q, other) => q == r && other == answer && r !in s.keys.waiter
    case Claim(h) => Carries(s.traffic.handlers[h], r, answer) && r in s.keys.completed
    case Conclude(h, _) =>
      Carries(s.traffic.handlers[h], r, answer) && s.traffic.handlers[h].target == s.traffic.handlers[h].at &&
      !Resolves(WaitersAt(s.waiters, s.traffic.handlers[h].at), r, answer.fromClientId)
    case DeliverResult(m, _) =>
      Holds(s.traffic.results[m], r, answer) &&
      !Resolves(WaitersAt(s.waiters, s.traffic.results[m].target), r, answer.fromClientId)
    case Drop(_) => false
  }

  ghost function Received(steps: seq<Step>, r: RequestId, answer: Answer): nat {
    if steps == [] then 0 else
      Received(steps[..|steps| - 1], r, answer) + if Receives(steps[|steps| - 1], r, answer) then 1 else 0
  }

  ghost function TurnedAway(start: nat, steps: seq<Step>, r: RequestId, answer: Answer): nat
    requires Run(start, steps)
  {
    if steps == [] then 0 else
      var before := steps[..|steps| - 1];
      TurnedAway(start, before, r, answer) +
      if TurnsAway(After(start, before), steps[|steps| - 1], r, answer) then 1 else 0
  }

  function Open(s: State, r: RequestId, answer: Answer): nat {
    Underway(s.traffic, r, answer) + Delivered(s.invocations, r, answer)
  }

  // One step balances: what it receives is then open, unless it turns it away.
  ghost predicate Balances(s: State, step: Step, r: RequestId, answer: Answer)
    requires Enabled(s, step)
  {
    Open(Apply(s, step), r, answer) + (if TurnsAway(s, step, r, answer) then 1 else 0) ==
    Open(s, r, answer) + (if Receives(step, r, answer) then 1 else 0)
  }

  // ---------- each step ----------

  function Bit(b: bool): nat { if b then 1 else 0 }

  function HandlerCount(handlers: map<int, Handler>, r: RequestId, answer: Answer): nat {
    |HandlersOf(handlers, r, answer)|
  }

  function MessageCount(results: map<int, RoutedResult>, r: RequestId, answer: Answer): nat {
    |MessagesOf(results, r, answer)|
  }

  lemma HandlerAdded(handlers: map<int, Handler>, h: int, next: Handler, r: RequestId, answer: Answer)
    requires h !in handlers
    ensures HandlerCount(handlers[h := next], r, answer) ==
            HandlerCount(handlers, r, answer) + Bit(Carries(next, r, answer))
  {
    assert HandlersOf(handlers[h := next], r, answer) ==
           HandlersOf(handlers, r, answer) + if Carries(next, r, answer) then {h} else {};
  }

  lemma HandlerRemoved(handlers: map<int, Handler>, h: int, r: RequestId, answer: Answer)
    requires h in handlers
    ensures HandlerCount(handlers, r, answer) ==
            HandlerCount(handlers - {h}, r, answer) + Bit(Carries(handlers[h], r, answer))
  {
    assert HandlersOf(handlers, r, answer) ==
           HandlersOf(handlers - {h}, r, answer) + if Carries(handlers[h], r, answer) then {h} else {};
  }

  lemma HandlerReplaced(handlers: map<int, Handler>, h: int, next: Handler, r: RequestId, answer: Answer)
    requires h in handlers
    ensures HandlerCount(handlers[h := next], r, answer) + Bit(Carries(handlers[h], r, answer)) ==
            HandlerCount(handlers, r, answer) + Bit(Carries(next, r, answer))
  {
    HandlerRemoved(handlers, h, r, answer);
    HandlerAdded(handlers - {h}, h, next, r, answer);
    assert (handlers - {h})[h := next] == handlers[h := next];
  }

  lemma MessageAdded(results: map<int, RoutedResult>, m: int, next: RoutedResult, r: RequestId, answer: Answer)
    requires m !in results
    ensures MessageCount(results[m := next], r, answer) ==
            MessageCount(results, r, answer) + Bit(Holds(next, r, answer))
  {
    assert MessagesOf(results[m := next], r, answer) ==
           MessagesOf(results, r, answer) + if Holds(next, r, answer) then {m} else {};
  }

  lemma MessageRemoved(results: map<int, RoutedResult>, m: int, r: RequestId, answer: Answer)
    requires m in results
    ensures MessageCount(results, r, answer) ==
            MessageCount(results - {m}, r, answer) + Bit(Holds(results[m], r, answer))
  {
    assert MessagesOf(results, r, answer) ==
           MessagesOf(results - {m}, r, answer) + if Holds(results[m], r, answer) then {m} else {};
  }

  // Settling a live waiter delivers exactly the settling answer.
  lemma SettlingDelivers(s: State, instance: InstanceId, q: RequestId, settlement: Settlement, r: RequestId,
                         answer: Answer)
    requires WaitersMatch(s) && q in WaitersAt(s.waiters, instance)
    ensures Delivered(Settled(s.invocations, q, settlement), r, answer) ==
            Delivered(s.invocations, r, answer) + if q == r && settlement == ByResult(answer) then 1 else 0
  {
    assert q in s.invocations && s.invocations[q].settlements == [];
  }

  lemma AcknowledgingDeliversNothing(invocations: map<RequestId, Invocation>, q: RequestId, ack: Answer, r: RequestId,
                                     answer: Answer)
    ensures Delivered(Acknowledge(invocations, q, ack), r, answer) == Delivered(invocations, r, answer)
  {
  }

  lemma ReceiveBalances(s: State, h: int, at: InstanceId, q: RequestId, other: Answer, r: RequestId, answer: Answer)
    requires Enabled(s, OfResult(Receive(h, at, q, other)))
    ensures Balances(s, OfResult(Receive(h, at, q, other)), r, answer)
  {
    if q in s.keys.waiter {
      HandlerAdded(s.traffic.handlers, h, Looked(q, other, at, s.keys.waiter[q].instance), r, answer);
    }
  }

  lemma LateClaimBalances(s: State, h: int, r: RequestId, answer: Answer)
    requires Enabled(s, OfResult(Claim(h))) && s.traffic.handlers[h].requestId in s.keys.completed
    ensures Balances(s, OfResult(Claim(h)), r, answer)
  {
    var t := DoClaim(s, h);
    assert t == WithHandlers(s, s.traffic.handlers - {h});
    HandlerRemoved(s.traffic.handlers, h, r, answer);
  }

  lemma FirstClaimBalances(s: State, h: int, r: RequestId, answer: Answer)
    requires Enabled(s, OfResult(Claim(h))) && s.traffic.handlers[h].requestId !in s.keys.completed
    ensures Balances(s, OfResult(Claim(h)), r, answer)
  {
    var handler := s.traffic.handlers[h];
    var next := Claimed(handler.requestId, handler.answer, handler.at, handler.target);
    var t := DoClaim(s, h);
    assert t.traffic.handlers == s.traffic.handlers[h := next];
    assert t.traffic.results == s.traffic.results && t.invocations == s.invocations;
    HandlerReplaced(s.traffic.handlers, h, next, r, answer);
  }

  lemma ClaimBalances(s: State, h: int, r: RequestId, answer: Answer)
    requires Enabled(s, OfResult(Claim(h)))
    ensures Balances(s, OfResult(Claim(h)), r, answer)
  {
    if s.traffic.handlers[h].requestId in s.keys.completed {
      LateClaimBalances(s, h, r, answer);
    } else {
      FirstClaimBalances(s, h, r, answer);
    }
  }

  // Where a concluded handler goes: onto the bus, into the waiter, or to drop the dedup key.
  lemma ConcludeBalances(s: State, h: int, message: int, r: RequestId, answer: Answer)
    requires WaitersMatch(s) && Enabled(s, OfResult(Conclude(h, message)))
    ensures Balances(s, OfResult(Conclude(h, message)), r, answer)
  {
    var handler := s.traffic.handlers[h];
    if handler.target != handler.at {
      ForwardBalances(s, h, message, r, answer);
    } else if Resolves(WaitersAt(s.waiters, handler.at), handler.requestId, handler.answer.fromClientId) {
      ResolveBalances(s, h, message, r, answer);
    } else {
      var t := DoConclude(s, h, message);
      assert t.traffic.results == s.traffic.results && t.invocations == s.invocations;
      HandlerReplaced(s.traffic.handlers, h, Dropping(handler.requestId), r, answer);
    }
  }

  lemma ForwardBalances(s: State, h: int, message: int, r: RequestId, answer: Answer)
    requires Enabled(s, OfResult(Conclude(h, message)))
    requires s.traffic.handlers[h].target != s.traffic.handlers[h].at
    ensures Balances(s, OfResult(Conclude(h, message)), r, answer)
  {
    var handler := s.traffic.handlers[h];
    var t := DoConclude(s, h, message);
    HandlerRemoved(s.traffic.handlers, h, r, answer);
    MessageAdded(s.traffic.results, message, RoutedResult(handler.target, handler.requestId, handler.answer), r,
                 answer);
    assert t.invocations == s.invocations && t.traffic.handlers == s.traffic.handlers - {h};
  }

  lemma ResolveBalances(s: State, h: int, message: int, r: RequestId, answer: Answer)
    requires WaitersMatch(s) && Enabled(s, OfResult(Conclude(h, message)))
    requires var handler := s.traffic.handlers[h];
             handler.target == handler.at &&
             Resolves(WaitersAt(s.waiters, handler.at), handler.requestId, handler.answer.fromClientId)
    ensures Balances(s, OfResult(Conclude(h, message)), r, answer)
  {
    var handler := s.traffic.handlers[h];
    var settled := Settled(s.invocations, handler.requestId, ByResult(handler.answer));
    var t := DoConclude(s, h, message);
    HandlerRemoved(s.traffic.handlers, h, r, answer);
    SettlingDelivers(s, handler.at, handler.requestId, ByResult(handler.answer), r, answer);
    AcknowledgingDeliversNothing(settled, handler.requestId, handler.answer, r, answer);
    assert t.traffic.results == s.traffic.results && t.traffic.handlers == s.traffic.handlers - {h};
    assert t.invocations == Acknowledge(settled, handler.requestId, handler.answer);
  }

  lemma DeliverBalances(s: State, message: int, h: int, r: RequestId, answer: Answer)
    requires WaitersMatch(s) && Enabled(s, OfResult(DeliverResult(message, h)))
    ensures Balances(s, OfResult(DeliverResult(message, h)), r, answer)
  {
    var m := s.traffic.results[message];
    var t := DoDeliverResult(s, message, h);
    MessageRemoved(s.traffic.results, message, r, answer);
    assert t.traffic.results == s.traffic.results - {message};
    if Resolves(WaitersAt(s.waiters, m.target), m.requestId, m.answer.fromClientId) {
      SettlingDelivers(s, m.target, m.requestId, ByResult(m.answer), r, answer);
      assert t.traffic.handlers == s.traffic.handlers;
      assert t.invocations == Settled(s.invocations, m.requestId, ByResult(m.answer));
    } else {
      HandlerAdded(s.traffic.handlers, h, Dropping(m.requestId), r, answer);
      assert t.invocations == s.invocations;
    }
  }

  lemma DropBalances(s: State, h: int, r: RequestId, answer: Answer)
    requires Enabled(s, OfResult(Drop(h)))
    ensures Balances(s, OfResult(Drop(h)), r, answer)
  {
    HandlerRemoved(s.traffic.handlers, h, r, answer);
  }

  lemma SetupBalances(s: State, q: RequestId, action: SetupAction, r: RequestId, answer: Answer)
    requires Enabled(s, Setup(q, action))
    ensures Balances(s, Setup(q, action), r, answer)
  {
    var t := DoSetup(s, q, action);
    assert t.invocations == s.invocations[q := t.invocations[q]];
    assert t.traffic == s.traffic && t.invocations[q].settlements == s.invocations[q].settlements;
  }

  lemma CancelDeliversNothing(s: State, q: RequestId, r: RequestId, answer: Answer)
    requires WaitersMatch(s) && q in s.invocations
    ensures Delivered(CancelWaiter(s, q).invocations, r, answer) == Delivered(s.invocations, r, answer)
    ensures q in CancelWaiter(s, q).invocations
  {
    if q in WaitersAt(s.waiters, s.invocations[q].at) {
      SettlingDelivers(s, s.invocations[q].at, q, ByCancel, r, answer);
    }
  }

  lemma RespondDeliversNothing(s: State, q: RequestId, phase: Phase, r: RequestId, answer: Answer)
    requires q in s.invocations
    ensures Delivered(Respond(s, q, phase).invocations, r, answer) == Delivered(s.invocations, r, answer)
  {
  }

  lemma AbandonDeliversNothing(s: State, q: RequestId, reason: FailureReason, r: RequestId, answer: Answer)
    requires WaitersMatch(s) && q in s.invocations
    ensures Delivered(Abandon(s, q, reason).invocations, r, answer) == Delivered(s.invocations, r, answer)
  {
    CancelDeliversNothing(s, q, r, answer);
    RespondDeliversNothing(CancelWaiter(s, q), q, Releasing(Failure(reason)), r, answer);
  }

  lemma FinishBalances(s: State, q: RequestId, action: FinishAction, r: RequestId, answer: Answer)
    requires WaitersMatch(s) && Enabled(s, Finish(q, action))
    ensures Balances(s, Finish(q, action), r, answer)
  {
    FinishLeavesResults(s, q, action);
    match action
    case Dispatch(route) => AbandonDeliversNothing(s, q, Unavailable, r, answer);
    case DispatchFault => AbandonDeliversNothing(s, q, InfrastructureError, r, answer);
    case Complete =>
    case ReleaseSlot =>
    case FixSlot =>
  }

  lemma EnvironmentBalances(s: State, action: EnvironmentAction, r: RequestId, answer: Answer)
    requires WaitersMatch(s) && Enabled(s, OfEnvironment(action))
    ensures Balances(s, OfEnvironment(action), r, answer)
  {
    if action.FireTimer? {
      SettlingDelivers(s, action.instance, action.requestId, ByTimeout, r, answer);
    }
  }

  lemma StepBalances(s: State, step: Step, r: RequestId, answer: Answer)
    requires WaitersMatch(s) && Enabled(s, step)
    ensures Balances(s, step, r, answer)
  {
    match step
    case Begin(q, at, timeout) =>
    case Setup(q, action) => SetupBalances(s, q, action, r, answer);
    case Finish(q, action) => FinishBalances(s, q, action, r, answer);
    case OfResult(action) =>
      match action {
        case Receive(h, at, q, other) => ReceiveBalances(s, h, at, q, other, r, answer);
        case Claim(h) => ClaimBalances(s, h, r, answer);
        case Conclude(h, message) => ConcludeBalances(s, h, message, r, answer);
        case DeliverResult(message, h) => DeliverBalances(s, message, h, r, answer);
        case Drop(h) => DropBalances(s, h, r, answer);
      }
    case OfEnvironment(action) => EnvironmentBalances(s, action, r, answer);
  }

  // ---------- every run ----------

  // In every run, every copy of a result a device sent is under way, settled its waiter, or was turned away.
  lemma {:induction false} ResultsAreAccounted(start: nat, steps: seq<Step>, r: RequestId, answer: Answer)
    requires Run(start, steps)
    ensures var s := After(start, steps);
            Received(steps, r, answer) ==
            Underway(s.traffic, r, answer) + Delivered(s.invocations, r, answer) + TurnedAway(start, steps, r, answer)
  {
    if steps != [] {
      var before := steps[..|steps| - 1];
      ResultsAreAccounted(start, before, r, answer);
      RunIsSound(start, before);
      StepBalances(After(start, before), steps[|steps| - 1], r, answer);
    }
  }

  // A step's guard fails for the copy: no waiter key at its arrival, the dedup key taken at its claim, or no
  // waiter left anywhere when it reaches the instance of its invoke.
  predicate GuardFails(s: State, step: Step, r: RequestId, answer: Answer)
    requires Enabled(s, step)
  {
    step.OfResult? &&
    match step.result
    case Receive(_, _, q, other) => q == r && other == answer && r !in s.keys.waiter
    case Claim(h) => Carries(s.traffic.handlers[h], r, answer) && r in s.keys.completed
    case Conclude(h, _) =>
      Carries(s.traffic.handlers[h], r, answer) && s.traffic.handlers[h].target == s.traffic.handlers[h].at &&
      WaiterGone(s, r)
    case DeliverResult(m, _) => Holds(s.traffic.results[m], r, answer) && WaiterGone(s, r)
    case Drop(_) => false
  }

  predicate WaiterGone(s: State, r: RequestId) {
    r in s.invocations && r !in WaitersAt(s.waiters, s.invocations[r].at)
  }

  // A result of the assigned device is turned away exactly when one of those three guards fails; who else
  // sent a result and which instance took it make no difference.
  lemma {:induction false} RightResultsAreTurnedAwayIff(start: nat, steps: seq<Step>, step: Step, r: RequestId,
                                                        answer: Answer)
    requires Run(start, steps) && Enabled(After(start, steps), step)
    requires r in After(start, steps).invocations
    requires After(start, steps).invocations[r].clientId == answer.fromClientId
    ensures TurnsAway(After(start, steps), step, r, answer) <==> GuardFails(After(start, steps), step, r, answer)
  {
    RunIsSound(start, steps);
    RightGuards(After(start, steps), step, r, answer);
  }

  lemma RightGuards(s: State, step: Step, r: RequestId, answer: Answer)
    requires WaitersMatch(s) && Routed(s) && Enabled(s, step) && r in s.invocations
    requires s.invocations[r].clientId == answer.fromClientId
    ensures TurnsAway(s, step, r, answer) <==> GuardFails(s, step, r, answer)
  {
    if step.OfResult? && step.result.Conclude? {
      assert HandlerRouted(s, s.traffic.handlers[step.result.handler]);
    } else if step.OfResult? && step.result.DeliverResult? {
      assert ResultRouted(s, s.traffic.results[step.result.message]);
    }
  }

  // Once nothing of it is under way, a result settled its waiter exactly when not all its copies were turned away.
  lemma {:induction false} DeliveredUnlessTurnedAway(start: nat, steps: seq<Step>, r: RequestId, answer: Answer)
    requires Run(start, steps) && Underway(After(start, steps).traffic, r, answer) == 0
    ensures var s := After(start, steps);
            (r in s.invocations && s.invocations[r].settlements == [ByResult(answer)]) <==>
            TurnedAway(start, steps, r, answer) < Received(steps, r, answer)
  {
    ResultsAreAccounted(start, steps, r, answer);
    RunIsSound(start, steps);
    var s := After(start, steps);
    assert r in s.invocations ==> |s.invocations[r].settlements| <= 1;
  }
}
