/**
  What an invoke answers: the device the job was assigned to, one settlement,
  one `ok`, one response, one log entry and one release per acquired slot.
*/
module AnswerSafety {
  import opened WaiterTable
  import opened InvokeProtocol
  import opened SettlementSafety

  predicate Finished(phase: Phase) {
    phase.Releasing? || phase.Fixing? || phase.Returned?
  }

  predicate SettledByResult(inv: Invocation) {
    inv.settlements != [] && inv.settlements[0].ByResult?
  }

  // A result settles the waiter only if the assigned device sent it; at most one `ok` is answered;
  // a success response carries the payload that settled the waiter.
  predicate AnswerOk(r: RequestId, inv: Invocation, received: set<(RequestId, Answer)>) {
    && (inv.acquired > 0 ==> inv.clientId != NO_CLIENT)
    && (SettledByResult(inv) ==>
          && inv.settlements[0].answer.fromClientId == inv.clientId
          && (r, inv.settlements[0].answer) in received)
    && (inv.acks == [] || (SettledByResult(inv) && inv.acks == [inv.settlements[0].answer]))
    && (Waiting(inv.phase) && inv.settlements != [] ==> !inv.settlements[0].ByCancel?)
    && (Finished(inv.phase) ==> ResponseOk(inv, inv.phase.response))
  }

  // The response tells how the waiter settled; by then it has settled exactly once, if it was ever registered.
  predicate ResponseOk(inv: Invocation, response: Response) {
    match response
    case Success(answer) => inv.acquired == 1 && inv.settlements == [ByResult(answer)]
    case Failure(reason) =>
      if inv.acquired == 0 then inv.settlements == [] && (ProjectReason(reason) || SelectionReason(reason))
      else if reason.TimedOut? then inv.settlements == [ByTimeout]
      else |inv.settlements| == 1 && (reason.Unavailable? || reason.InfrastructureError?)
  }

  ghost predicate AnswersOk(s: State) {
    forall r :: r in s.invocations ==> AnswerOk(r, s.invocations[r], s.received)
  }

  // How often a slot was taken and given back, and how often a log entry was handed over, by phase.
  predicate AccountOk(inv: Invocation) {
    match inv.phase
    case Resolving => inv.acquired == 0 && inv.released == 0 && inv.logged == 0
    case Selecting => inv.acquired == 0 && inv.released == 0 && inv.logged == 0
    case Acquired => inv.acquired == 1 && inv.released == 0 && inv.logged == 0
    case Registered => inv.acquired == 1 && inv.released == 0 && inv.logged == 0
    case Marked => inv.acquired == 1 && inv.released == 0 && inv.logged == 0
    case Awaiting => inv.acquired == 1 && inv.released == 0 && inv.logged == 0
    case Releasing(response) => inv.acquired == 1 && inv.released == 0 && inv.logged == 1
    case Fixing(response) => inv.acquired == 1 && inv.released == 1 && inv.logged == 1
    case Returned(response) => inv.acquired == inv.released <= 1 && inv.logged == 1
  }

  ghost predicate AccountsOk(s: State) {
    forall r :: r in s.invocations ==> AccountOk(s.invocations[r])
  }

  ghost predicate Sound(s: State) {
    WaitersMatch(s) && Routed(s) && AnswersOk(s) && AccountsOk(s)
  }

  lemma SetupKeepsAnswers(s: State, r: RequestId, action: SetupAction)
    requires WaitersMatch(s) && AnswersOk(s) && AccountsOk(s)
    requires r in s.invocations && SetupEnabled(s.invocations[r], action)
    ensures AnswersOk(DoSetup(s, r, action)) && AccountsOk(DoSetup(s, r, action))
  {
    var t := DoSetup(s, r, action);
    assert t.invocations == s.invocations[r := t.invocations[r]];
    assert AnswerOk(r, t.invocations[r], t.received) && AccountOk(t.invocations[r]);
  }

  lemma AbandonKeepsAnswers(s: State, r: RequestId, reason: FailureReason)
    requires WaitersMatch(s) && AnswersOk(s) && AccountsOk(s)
    requires r in s.invocations && Waiting(s.invocations[r].phase)
    requires reason == Unavailable || reason == InfrastructureError
    ensures AnswersOk(Abandon(s, r, reason)) && AccountsOk(Abandon(s, r, reason))
  {
    var t := Abandon(s, r, reason);
    assert t.invocations == s.invocations[r := t.invocations[r]];
    assert AnswerOk(r, t.invocations[r], t.received) && AccountOk(t.invocations[r]);
  }

  lemma DispatchKeepsAnswers(s: State, r: RequestId, route: Route)
    requires WaitersMatch(s) && AnswersOk(s) && AccountsOk(s)
    requires r in s.invocations && FinishEnabled(s, s.invocations[r], Dispatch(route))
    ensures AnswersOk(DoDispatch(s, r, route)) && AccountsOk(DoDispatch(s, r, route))
  {
    var t := DoDispatch(s, r, route);
    if t.invocations[r].phase.Awaiting? {
      assert t.invocations == s.invocations[r := s.invocations[r].(phase := Awaiting)];
      assert AnswerOk(r, t.invocations[r], t.received) && AccountOk(t.invocations[r]);
    } else {
      AbandonKeepsAnswers(s, r, Unavailable);
    }
  }

  lemma {:induction false} FinishKeepsAnswers(s: State, r: RequestId, action: FinishAction)
    requires WaitersMatch(s) && AnswersOk(s) && AccountsOk(s)
    requires r in s.invocations && FinishEnabled(s, s.invocations[r], action)
    ensures AnswersOk(DoFinish(s, r, action)) && AccountsOk(DoFinish(s, r, action))
  {
    match action
    case Dispatch(route) => DispatchKeepsAnswers(s, r, route);
    case DispatchFault => AbandonKeepsAnswers(s, r, InfrastructureError);
    case Complete => assert AccountOk(s.invocations[r]) && AnswerOk(r, s.invocations[r], s.received);
    case ReleaseSlot => assert AccountOk(s.invocations[r]) && AnswerOk(r, s.invocations[r], s.received);
    case FixSlot => assert AccountOk(s.invocations[r]) && AnswerOk(r, s.invocations[r], s.received);
  }

  lemma SettleKeepsAnswers(s: State, instance: InstanceId, r: RequestId, settlement: Settlement)
    requires WaitersMatch(s) && AnswersOk(s) && AccountsOk(s)
    requires r in WaitersAt(s.waiters, instance)
    requires !settlement.ByCancel?
    requires settlement.ByResult? ==>
               && (r, settlement.answer) in s.received
               && Resolves(WaitersAt(s.waiters, instance), r, settlement.answer.fromClientId)
    ensures AnswersOk(Settle(s, instance, r, settlement)) && AccountsOk(Settle(s, instance, r, settlement))
    ensures Settle(s, instance, r, settlement).invocations[r].acks == []
  {
  }

  lemma ResultKeepsAnswers(s: State, action: ResultAction)
    requires Sound(s) && ResultEnabled(s, action)
    ensures AnswersOk(DoResult(s, action)) && AccountsOk(DoResult(s, action))
  {
    match action
    case Receive(handler, at, r, answer) =>
    case Claim(handler) =>
    case Drop(handler) =>
    case Conclude(handler, message) =>
      var h := s.traffic.handlers[handler];
      assert HandlerRouted(s, h);
      if Resolves(WaitersAt(s.waiters, h.at), h.requestId, h.answer.fromClientId) {
        SettleKeepsAnswers(s, h.at, h.requestId, ByResult(h.answer));
      }
    case DeliverResult(message, handler) =>
      var m := s.traffic.results[message];
      assert ResultRouted(s, m);
      if Resolves(WaitersAt(s.waiters, m.target), m.requestId, m.answer.fromClientId) {
        SettleKeepsAnswers(s, m.target, m.requestId, ByResult(m.answer));
      }
  }

  lemma {:induction false} StepKeepsSound(s: State, step: Step)
    requires Sound(s) && Enabled(s, step)
    ensures Sound(Apply(s, step))
  {
    StepKeepsMatch(s, step);
    StepKeepsRouted(s, step);
    match step
    case Begin(r, at, timeout) =>
    case Setup(r, action) => SetupKeepsAnswers(s, r, action);
    case Finish(r, action) => FinishKeepsAnswers(s, r, action);
    case OfResult(action) => ResultKeepsAnswers(s, action);
    case OfEnvironment(action) =>
      if action.FireTimer? {
        SettleKeepsAnswers(s, action.instance, action.requestId, ByTimeout);
      }
  }

  lemma {:induction false} RunIsSound(start: nat, steps: seq<Step>)
    requires Run(start, steps)
    ensures Sound(After(start, steps))
  {
    if steps != [] {
      var before := steps[..|steps| - 1];
      RunIsSound(start, before);
      StepKeepsSound(After(start, before), steps[|steps| - 1]);
    }
  }

  // ---------- what every run keeps ----------

  // In every run each request settles at most once and never keeps a waiter after that; a result that
  // settles it was sent for this request by the device the job was assigned to.
  lemma {:induction false} SettlesOnceByAssignedDevice(start: nat, steps: seq<Step>, r: RequestId)
    requires Run(start, steps) && r in After(start, steps).invocations
    ensures SettledOnce(After(start, steps), r)
  {
    RunIsSound(start, steps);
    SoundSettlesOnce(After(start, steps), r);
  }

  ghost predicate SettledOnce(s: State, r: RequestId)
    requires r in s.invocations
  {
    var inv := s.invocations[r];
    && |inv.settlements| <= 1
    && (inv.settlements != [] ==> forall i :: r !in WaitersAt(s.waiters, i))
    && (forall answer :: ByResult(answer) in inv.settlements ==>
          answer.fromClientId == inv.clientId != NO_CLIENT && (r, answer) in s.received)
  }

  lemma SoundSettlesOnce(s: State, r: RequestId)
    requires Sound(s) && r in s.invocations
    ensures SettledOnce(s, r)
  {
    assert AnswerOk(r, s.invocations[r], s.received) && AccountOk(s.invocations[r]);
  }

  // At most one result of a request is ever acknowledged 'ok', and it is the one that settled the waiter.
  lemma {:induction false} AtMostOneOk(start: nat, steps: seq<Step>, r: RequestId)
    requires Run(start, steps) && r in After(start, steps).invocations
    ensures var inv := After(start, steps).invocations[r];
            |inv.acks| <= 1 && (inv.acks != [] ==> inv.settlements == [ByResult(inv.acks[0])])
  {
    RunIsSound(start, steps);
    var s := After(start, steps);
    assert AnswerOk(r, s.invocations[r], s.received);
  }

  // A result routed over the bus goes to the instance that runs the invoke; no other instance holds its waiter.
  lemma {:induction false} RoutedToTheHolder(start: nat, steps: seq<Step>, message: int, instance: InstanceId)
    requires Run(start, steps) && message in After(start, steps).traffic.results
    ensures var s := After(start, steps);
            var m := s.traffic.results[message];
            && m.requestId in s.invocations && m.target == s.invocations[m.requestId].at
            && (m.requestId in WaitersAt(s.waiters, instance) ==> instance == m.target)
  {
    RunIsSound(start, steps);
    var s := After(start, steps);
    assert ResultRouted(s, s.traffic.results[message]);
  }

  // Once an invoke has returned: one log entry, each acquired slot released once, no waiter left,
  // a response that tells how the waiter settled, and no later step changes any of it.
  lemma {:induction false} ReturnsOnce(start: nat, steps: seq<Step>, r: RequestId)
    requires Run(start, steps) && r in After(start, steps).invocations
    requires After(start, steps).invocations[r].phase.Returned?
    ensures var s := After(start, steps);
            var inv := s.invocations[r];
            && inv.logged == 1 && inv.acquired == inv.released <= 1
            && (forall i :: r !in WaitersAt(s.waiters, i))
            && ResponseOk(inv, inv.phase.response)
            && (forall step :: Enabled(s, step) ==>
                  r in Apply(s, step).invocations && Apply(s, step).invocations[r] == inv)
  {
    RunIsSound(start, steps);
    var s := After(start, steps);
    assert AnswerOk(r, s.invocations[r], s.received) && AccountOk(s.invocations[r]);
    forall step | Enabled(s, step)
      ensures r in Apply(s, step).invocations && Apply(s, step).invocations[r] == s.invocations[r]
    {
      ReturnedStays(s, step, r);
    }
  }

  lemma {:induction false} ReturnedStays(s: State, step: Step, r: RequestId)
    requires WaitersMatch(s) && Enabled(s, step)
    requires r in s.invocations && s.invocations[r].phase.Returned?
    ensures r in Apply(s, step).invocations && Apply(s, step).invocations[r] == s.invocations[r]
  {
    match step
    case Begin(q, at, timeout) =>
    case Setup(q, action) =>
      assert q != r;
      OtherSetupSpares(s, q, action, r);
    case Finish(q, action) =>
      assert q != r;
      OtherFinishSpares(s, q, action, r);
    case OfResult(action) => ResultSparesReturned(s, action, r);
    case OfEnvironment(action) =>
  }

  lemma OtherSetupSpares(s: State, q: RequestId, action: SetupAction, r: RequestId)
    requires q in s.invocations && SetupEnabled(s.invocations[q], action) && r in s.invocations && q != r
    ensures r in DoSetup(s, q, action).invocations && DoSetup(s, q, action).invocations[r] == s.invocations[r]
  {
  }

  lemma OtherFinishSpares(s: State, q: RequestId, action: FinishAction, r: RequestId)
    requires q in s.invocations && FinishEnabled(s, s.invocations[q], action) && r in s.invocations && q != r
    ensures r in DoFinish(s, q, action).invocations && DoFinish(s, q, action).invocations[r] == s.invocations[r]
  {
  }

  lemma ResultSparesReturned(s: State, action: ResultAction, r: RequestId)
    requires WaitersMatch(s) && ResultEnabled(s, action)
    requires r in s.invocations && s.invocations[r].phase.Returned?
    ensures r in DoResult(s, action).invocations && DoResult(s, action).invocations[r] == s.invocations[r]
  {
  }

  // A result that reaches its waiter on the instance it arrived at settles it and is acknowledged ok, and the
  // invoke then answers with it.
  lemma {:induction false} LocalResultSucceeds(start: nat, steps: seq<Step>, handler: int, message: int)
    requires Run(start, steps) && Enabled(After(start, steps), OfResult(Conclude(handler, message)))
    requires var s := After(start, steps);
             var h := s.traffic.handlers[handler];
             h.target == h.at && h.requestId in WaitersAt(s.waiters, h.at) &&
             WaitersAt(s.waiters, h.at)[h.requestId].clientId == h.answer.fromClientId
    ensures var s := After(start, steps);
            var h := s.traffic.handlers[handler];
            var t := Apply(s, OfResult(Conclude(handler, message)));
            && h.requestId in t.invocations && t.invocations[h.requestId].acks == [h.answer]
            && t.invocations[h.requestId].settlements == [ByResult(h.answer)]
            && (t.invocations[h.requestId].phase.Awaiting? ==>
                  && Enabled(t, Finish(h.requestId, Complete))
                  && Apply(t, Finish(h.requestId, Complete)).invocations[h.requestId].phase ==
                     Releasing(Success(h.answer)))
  {
    RunIsSound(start, steps);
    var s := After(start, steps);
    assert HandlerRouted(s, s.traffic.handlers[handler]);
  }

  // An invoke that has waited answers with how its waiter settled: the result, or the timeout.
  lemma {:induction false} SettlementIsTheAnswer(start: nat, steps: seq<Step>, r: RequestId)
    requires Run(start, steps) && Enabled(After(start, steps), Finish(r, Complete))
    ensures var settlement := After(start, steps).invocations[r].settlements[0];
            var phase := Apply(After(start, steps), Finish(r, Complete)).invocations[r].phase;
            match settlement {
              case ByResult(answer) => phase == Releasing(Success(answer))
              case ByTimeout => phase == Releasing(Failure(TimedOut))
              case ByCancel => false
            }
  {
    RunIsSound(start, steps);
    var s := After(start, steps);
    assert AnswerOk(r, s.invocations[r], s.received);
  }

  // The invoke answers with this reason; its waiter is gone, cancelled unless it had settled before.
  ghost predicate GivenUp(s: State, t: State, r: RequestId, reason: FailureReason)
    requires r in s.invocations
  {
    r in t.invocations && t.invocations[r].phase == Releasing(Failure(reason)) &&
    (forall i :: r !in WaitersAt(t.waiters, i)) &&
    t.invocations[r].settlements == if s.invocations[r].settlements == [] then [ByCancel]
                                    else s.invocations[r].settlements
  }

  lemma AbandonGivesUp(s: State, r: RequestId, reason: FailureReason)
    requires WaitersMatch(s) && r in s.invocations && Waiting(s.invocations[r].phase)
    ensures GivenUp(s, Abandon(s, r, reason), r, reason)
  {
    var t := Abandon(s, r, reason);
    forall i
      ensures r !in WaitersAt(t.waiters, i)
    {
      assert r in WaitersAt(s.waiters, i) ==> s.invocations[r].at == i;
    }
  }

  // An invoke whose job finds no way, or whose mark or dispatch fails, gives its waiter up and says so.
  lemma {:induction false} FailedDispatchIsAnswered(start: nat, steps: seq<Step>, r: RequestId)
    requires Run(start, steps) && r in After(start, steps).invocations
    ensures var s := After(start, steps);
            && (s.invocations[r].phase == Marked ==>
                  && GivenUp(s, Apply(s, Finish(r, Dispatch(NoSession))), r, Unavailable)
                  && GivenUp(s, Apply(s, Finish(r, Dispatch(LocalSocket(false)))), r, Unavailable))
            && (s.invocations[r].phase == Registered || s.invocations[r].phase == Marked ==>
                  GivenUp(s, Apply(s, Finish(r, DispatchFault)), r, InfrastructureError))
  {
    RunIsSound(start, steps);
    var s := After(start, steps);
    if Waiting(s.invocations[r].phase) {
      AbandonGivesUp(s, r, Unavailable);
      AbandonGivesUp(s, r, InfrastructureError);
    }
  }
}
