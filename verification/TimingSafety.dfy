/**
  Timers and key lifetimes: a marked, live waiter can always be found through
  its Redis key, and a job is written to a socket only after its waiter was
  registered and marked, and not after that waiter's timer was due.
*/
module TimingSafety {
  import opened WaiterTable
  import opened InvokeProtocol
  import opened SettlementSafety
  import opened AnswerSafety
  import opened MarkSafety

  // ---------- jobs and deadlines, in every run ----------

  // The invoke has registered its waiter, so its due time is set.
  predicate Placed(inv: Invocation) {
    inv.acquired == 1 && !inv.phase.Acquired?
  }

  predicate TimesOk(inv: Invocation, now: nat) {
    && 1 <= inv.startedAt <= now && 1 <= inv.timeout
    && (Placed(inv) ==> inv.startedAt + TimerDelay(inv.timeout) <= inv.dueAt <= now + TimerDelay(inv.timeout))
  }

  // The job belongs to a registered and marked invoke and carries its device and deadline.
  predicate JobOk(s: State, job: Job) {
    && job.requestId in s.invocations
    && PastMark(s.invocations[job.requestId].phase) && s.invocations[job.requestId].acquired == 1
    && job == JobOf(s, job.requestId)
  }

  ghost predicate Timely(s: State) {
    && 1 <= s.now
    && (forall r :: r in s.invocations ==> TimesOk(s.invocations[r], s.now))
    && (forall m :: m in s.traffic.jobs ==> JobOk(s, s.traffic.jobs[m]))
    && (forall e :: e in s.sends ==> JobOk(s, e.job) && e.time <= e.job.deadlineAt)
  }

  lemma JobStaysOk(s: State, t: State, job: Job)
    requires AccountsOk(t) && Onward(s, t) && JobOk(s, job)
    ensures JobOk(t, job)
  {
    assert Advances(s.invocations[job.requestId], t.invocations[job.requestId]);
    assert AccountOk(t.invocations[job.requestId]);
  }

  // What a step adds must be in order; everything else stays in order by itself.
  lemma TimelyFrame(s: State, t: State)
    requires Timely(s) && AccountsOk(t) && Onward(s, t) && s.now <= t.now
    requires forall r :: r in t.invocations ==>
               (r in s.invocations && (Placed(t.invocations[r]) ==> Placed(s.invocations[r])))
               || TimesOk(t.invocations[r], t.now)
    requires forall m :: m in t.traffic.jobs ==>
               (m in s.traffic.jobs && t.traffic.jobs[m] == s.traffic.jobs[m]) || JobOk(t, t.traffic.jobs[m])
    requires forall e :: e in t.sends ==> e in s.sends || (JobOk(t, e.job) && e.time <= e.job.deadlineAt)
    ensures Timely(t)
  {
    forall r | r in t.invocations
      ensures TimesOk(t.invocations[r], t.now)
    {
      if r in s.invocations {
        assert Advances(s.invocations[r], t.invocations[r]) && TimesOk(s.invocations[r], s.now);
      }
    }
    forall m | m in t.traffic.jobs
      ensures JobOk(t, t.traffic.jobs[m])
    {
      if m in s.traffic.jobs && t.traffic.jobs[m] == s.traffic.jobs[m] {
        JobStaysOk(s, t, s.traffic.jobs[m]);
      }
    }
    forall e | e in t.sends
      ensures JobOk(t, e.job) && e.time <= e.job.deadlineAt
    {
      if e in s.sends {
        JobStaysOk(s, t, e.job);
      }
    }
  }

  lemma SetupKeepsTimely(s: State, r: RequestId, action: SetupAction)
    requires r in s.invocations && SetupEnabled(s.invocations[r], action)
    requires Timely(s) && AccountsOk(DoSetup(s, r, action))
    ensures Timely(DoSetup(s, r, action))
  {
    var t := DoSetup(s, r, action);
    SetupOnward(s, r, action);
    assert t.invocations == s.invocations[r := t.invocations[r]];
    assert TimesOk(s.invocations[r], s.now);
    TimelyFrame(s, t);
  }

  lemma DispatchKeepsTimely(s: State, r: RequestId, route: Route)
    requires r in s.invocations && FinishEnabled(s, s.invocations[r], Dispatch(route))
    requires Timely(s) && AccountsOk(s) && AccountsOk(DoDispatch(s, r, route))
    ensures Timely(DoDispatch(s, r, route))
  {
    var t := DoDispatch(s, r, route);
    FinishOnward(s, r, Dispatch(route));
    assert t.invocations == s.invocations[r := t.invocations[r]];
    assert TimesOk(s.invocations[r], s.now) && AccountOk(s.invocations[r]);
    TimelyFrame(s, t);
  }

  lemma FinishKeepsTimely(s: State, r: RequestId, action: FinishAction)
    requires r in s.invocations && FinishEnabled(s, s.invocations[r], action)
    requires Timely(s) && AccountsOk(s) && AccountsOk(DoFinish(s, r, action))
    ensures Timely(DoFinish(s, r, action))
  {
    if action.Dispatch? {
      DispatchKeepsTimely(s, r, action.route);
    } else {
      var t := DoFinish(s, r, action);
      FinishOnward(s, r, action);
      assert t.invocations == s.invocations[r := t.invocations[r]];
      assert AccountOk(s.invocations[r]);
      TimelyFrame(s, t);
    }
  }

  lemma FrameKeepsTimely(s: State, t: State)
    requires ResultFrame(s, t) && Timely(s) && AccountsOk(t)
    ensures Timely(t)
  {
    FrameIsOnward(s, t);
    TimelyFrame(s, t);
  }

  lemma ResultKeepsTimely(s: State, action: ResultAction)
    requires ResultEnabled(s, action) && Timely(s) && AccountsOk(DoResult(s, action))
    ensures Timely(DoResult(s, action))
  {
    ResultStaysInFrame(s, action);
    FrameKeepsTimely(s, DoResult(s, action));
  }

  lemma EnvironmentKeepsTimely(s: State, action: EnvironmentAction)
    requires EnvironmentEnabled(s, action) && Timely(s) && AccountsOk(DoEnvironment(s, action))
    ensures Timely(DoEnvironment(s, action))
  {
    StepOnward(s, OfEnvironment(action));
    if action.DeliverJob? {
      JobStaysOk(s, DoEnvironment(s, action), s.traffic.jobs[action.message]);
    }
    TimelyFrame(s, DoEnvironment(s, action));
  }

  lemma {:induction false} StepKeepsTimely(s: State, step: Step)
    requires Enabled(s, step) && Timely(s) && AccountsOk(s) && AccountsOk(Apply(s, step))
    ensures Timely(Apply(s, step))
  {
    match step
    case Begin(r, at, timeout) => StepOnward(s, step); TimelyFrame(s, Apply(s, step));
    case Setup(r, action) => SetupKeepsTimely(s, r, action);
    case Finish(r, action) => FinishKeepsTimely(s, r, action);
    case OfResult(action) => ResultKeepsTimely(s, action);
    case OfEnvironment(action) => EnvironmentKeepsTimely(s, action);
  }

  lemma {:induction false} RunIsTimely(start: nat, steps: seq<Step>)
    requires Run(start, steps)
    ensures Timely(After(start, steps))
  {
    if steps != [] {
      var before := steps[..|steps| - 1];
      RunIsTimely(start, before);
      RunIsSound(start, before);
      RunIsSound(start, steps);
      StepKeepsTimely(After(start, before), steps[|steps| - 1]);
    }
  }

  // In every run a job is written to a socket only after a step of the run marked its invoke's waiter in
  // Redis, which had then been registered, for the device it chose, and not after the job's deadline.
  lemma {:induction false} JobSentOnlyAfterMark(start: nat, steps: seq<Step>, e: Send)
    requires Run(start, steps) && e in After(start, steps).sends
    ensures MarkedBefore(start, steps, e.job.requestId, e.time)
    ensures var s := After(start, steps);
            var r := e.job.requestId;
            && r in s.invocations && s.invocations[r].acquired == 1
            && e.job.clientId == s.invocations[r].clientId
            && e.time <= s.invocations[r].startedAt + s.invocations[r].timeout
            && s.invocations[r].startedAt + TimerDelay(s.invocations[r].timeout) <= s.invocations[r].dueAt
  {
    RunIsTimely(start, steps);
    RunIsSound(start, steps);
    RunIsMarked(start, steps);
    var s := After(start, steps);
    assert JobOk(s, e.job);
    assert TimesOk(s.invocations[e.job.requestId], s.now) && AccountOk(s.invocations[e.job.requestId]);
  }

  // A step that marks a waiter is taken only by an invoke that has registered it: the waiter is in the map
  // of its instance unless it has settled already.
  lemma {:induction false} MarkFollowsRegister(start: nat, steps: seq<Step>, k: nat, r: RequestId, time: nat)
    requires Run(start, steps) && k < |steps| && MarkAt(start, steps, k, r, time)
    ensures var s := After(start, steps[..k]);
            && r in s.invocations && s.invocations[r].phase.Registered?
            && (r in WaitersAt(s.waiters, s.invocations[r].at) <==> s.invocations[r].settlements == [])
  {
    PrefixRuns(start, steps, k + 1);
    assert steps[..k + 1][..k] == steps[..k];
    RunIsSound(start, steps[..k]);
  }

  lemma {:induction false} PrefixRuns(start: nat, steps: seq<Step>, k: nat)
    requires Run(start, steps) && k <= |steps|
    ensures Run(start, steps[..k])
    decreases |steps|
  {
    if k < |steps| {
      assert steps[..|steps| - 1][..k] == steps[..k];
      PrefixRuns(start, steps[..|steps| - 1], k);
    } else {
      assert steps[..k] == steps;
    }
  }

  // No job of an invoke with this timeout is ever sent after its waiter's timer was due.
  ghost predicate SendsInTime(timeout: nat) {
    forall start, steps, e :: Run(start, steps) && e in After(start, steps).sends ==>
      SentBeforeDue(After(start, steps), e, timeout)
  }

  predicate SentBeforeDue(s: State, e: Send, timeout: nat) {
    e.job.requestId in s.invocations && s.invocations[e.job.requestId].timeout == timeout ==>
      e.time <= s.invocations[e.job.requestId].dueAt
  }

  // That is so exactly for timeouts setTimeout can represent: a longer delay fires after one millisecond,
  // while the job's deadline still lies in the future.
  lemma {:induction false} SendsInTimeIffRepresentable(timeout: nat)
    requires 1 <= timeout
    ensures SendsInTime(timeout) <==> timeout <= MAXIMUM_TIMER_MILLISECONDS
  {
    if timeout <= MAXIMUM_TIMER_MILLISECONDS {
      forall start, steps, e | Run(start, steps) && e in After(start, steps).sends
        ensures SentBeforeDue(After(start, steps), e, timeout)
      {
        JobSentOnlyAfterMark(start, steps, e);
      }
    } else {
      var steps := LateSend(timeout);
      assert Send(Job(1, 7, 1 + timeout), 5) in After(1, steps).sends;
      assert !SentBeforeDue(After(1, steps), Send(Job(1, 7, 1 + timeout), 5), timeout);
    }
  }

  lemma Extend(start: nat, steps: seq<Step>, step: Step)
    requires Run(start, steps) && Enabled(After(start, steps), step)
    ensures Run(start, steps + [step]) && After(start, steps + [step]) == Apply(After(start, steps), step)
  {
    assert (steps + [step])[..|steps|] == steps;
  }

  // An invoke whose timeout overflows the timer, up to the point where it may dispatch.
  lemma LateMark(timeout: nat) returns (steps: seq<Step>)
    requires MAXIMUM_TIMER_MILLISECONDS < timeout
    ensures Run(1, steps) && 1 in After(1, steps).invocations
    ensures After(1, steps).invocations[1] == Invocation(0, 1, timeout, 7, 2, Marked, [], 1, 0, 0, [])
    ensures After(1, steps).now == 1
  {
    steps := [];
    var s := Initial(1);
    var a := Begin(1, 0, timeout);
    Extend(1, steps, a);
    steps, s, a := steps + [a], Apply(s, a), Setup(1, ResolveProject);
    Extend(1, steps, a);
    steps, s, a := steps + [a], Apply(s, a), Setup(1, TryAcquire(7, 16));
    Extend(1, steps, a);
    steps, s, a := steps + [a], Apply(s, a), Setup(1, Register);
    Extend(1, steps, a);
    steps, s, a := steps + [a], Apply(s, a), Setup(1, Mark);
    Extend(1, steps, a);
    steps := steps + [a];
  }

  // Its job is sent four milliseconds later, when its timer has long been due.
  lemma LateSend(timeout: nat) returns (steps: seq<Step>)
    requires MAXIMUM_TIMER_MILLISECONDS < timeout
    ensures Run(1, steps)
    ensures var s := After(1, steps);
            && Send(Job(1, 7, 1 + timeout), 5) in s.sends
            && 1 in s.invocations && s.invocations[1].timeout == timeout && s.invocations[1].dueAt == 2
  {
    steps := LateMark(timeout);
    var tick, dispatch := OfEnvironment(Tick(5)), Finish(1, Dispatch(LocalSocket(true)));
    Extend(1, steps, tick);
    steps := steps + [tick];
    Extend(1, steps, dispatch);
    steps := steps + [dispatch];
  }

  // ---------- key lifetimes, when timers are not too late ----------

  const TIMER_LATENESS_MILLISECONDS: nat := 5000

  // Time only passes while no timer is more than five seconds overdue, and Redis drops a waiter key only
  // after its time to live.
  predicate Punctual(s: State, step: Step) {
    match step
    case OfEnvironment(action) =>
      (match action
       case Tick(time) =>
         forall i, r :: i in s.waiters && r in s.waiters[i] ==>
           time <= s.waiters[i][r].dueAt + TIMER_LATENESS_MILLISECONDS
       case ExpireWaiterKey(r) => r in s.keys.waiter ==> s.keys.waiter[r].expiresAt < s.now
       case _ => true)
    case _ => true
  }

  predicate PunctualRun(start: nat, steps: seq<Step>)
    requires Run(start, steps)
  {
    steps == [] ||
    var before := steps[..|steps| - 1];
    PunctualRun(start, before) && Punctual(After(start, before), steps[|steps| - 1])
  }

  predicate WaiterKeyOk(s: State, r: RequestId, dueAt: nat) {
    && s.now <= dueAt + TIMER_LATENESS_MILLISECONDS
    && (r in s.invocations && PastMark(s.invocations[r].phase) ==>
          r in s.keys.waiter && dueAt + MARK_GRACE_MILLISECONDS <= s.keys.waiter[r].expiresAt)
  }

  ghost predicate KeyKept(s: State) {
    forall i, r :: r in WaitersAt(s.waiters, i) ==> WaiterKeyOk(s, r, WaitersAt(s.waiters, i)[r].dueAt)
  }

  // A step that places no waiter, marks none, and drops no key keeps the keys.
  lemma KeyKeptFrame(s: State, t: State)
    requires KeyKept(s) && t.now == s.now && t.keys.waiter == s.keys.waiter
    requires forall i, r :: r in WaitersAt(t.waiters, i) ==>
               && r in WaitersAt(s.waiters, i) && WaitersAt(t.waiters, i)[r] == WaitersAt(s.waiters, i)[r]
               && (r in t.invocations && PastMark(t.invocations[r].phase) ==>
                     r in s.invocations && PastMark(s.invocations[r].phase))
    ensures KeyKept(t)
  {
    forall i, r | r in WaitersAt(t.waiters, i)
      ensures WaiterKeyOk(t, r, WaitersAt(t.waiters, i)[r].dueAt)
    {
      assert WaiterKeyOk(s, r, WaitersAt(s.waiters, i)[r].dueAt);
    }
  }

  lemma SettleKeepsKeys(s: State, t: State, instance: InstanceId, r: RequestId)
    requires WaitersMatch(s) && KeyKept(s) && t.now == s.now && t.keys.waiter == s.keys.waiter
    requires t.waiters == s.waiters[instance := WaitersAt(s.waiters, instance) - {r}]
    requires r in WaitersAt(s.waiters, instance)
    requires forall q :: q in t.invocations && q != r ==> q in s.invocations && t.invocations[q] == s.invocations[q]
    ensures KeyKept(t)
  {
    forall i, q | q in WaitersAt(t.waiters, i)
      ensures WaiterKeyOk(t, q, WaitersAt(t.waiters, i)[q].dueAt)
    {
      if i != instance {
        assert WaitersAt(t.waiters, i) == WaitersAt(s.waiters, i);
      }
      assert q in WaitersAt(s.waiters, i) && q != r;
      assert WaiterKeyOk(s, q, WaitersAt(s.waiters, i)[q].dueAt);
    }
  }

  lemma RegisterKeepsKeys(s: State, r: RequestId)
    requires KeyKept(s) && r in s.invocations && s.invocations[r].phase.Acquired?
    ensures KeyKept(DoRegister(s, r))
  {
    var t := DoRegister(s, r);
    forall i, q | q in WaitersAt(t.waiters, i)
      ensures WaiterKeyOk(t, q, WaitersAt(t.waiters, i)[q].dueAt)
    {
      if i != s.invocations[r].at {
        assert WaitersAt(t.waiters, i) == WaitersAt(s.waiters, i);
      }
      if q != r {
        assert WaiterKeyOk(s, q, WaitersAt(s.waiters, i)[q].dueAt);
      }
    }
  }

  lemma MarkKeepsKeys(s: State, r: RequestId)
    requires WaitersMatch(s) && KeyKept(s) && Timely(s) && AccountsOk(s)
    requires r in s.invocations && s.invocations[r].phase.Registered?
    ensures KeyKept(DoMark(s, r))
  {
    var t := DoMark(s, r);
    assert AccountOk(s.invocations[r]) && TimesOk(s.invocations[r], s.now);
    forall i, q | q in WaitersAt(t.waiters, i)
      ensures WaiterKeyOk(t, q, WaitersAt(t.waiters, i)[q].dueAt)
    {
      assert WaiterKeyOk(s, q, WaitersAt(s.waiters, i)[q].dueAt);
    }
  }

  lemma SetupKeepsKeys(s: State, r: RequestId, action: SetupAction)
    requires WaitersMatch(s) && KeyKept(s) && Timely(s) && AccountsOk(s)
    requires r in s.invocations && SetupEnabled(s.invocations[r], action)
    ensures KeyKept(DoSetup(s, r, action))
  {
    if action.Register? {
      RegisterKeepsKeys(s, r);
    } else if action.Mark? {
      MarkKeepsKeys(s, r);
    } else {
      KeyKeptFrame(s, DoSetup(s, r, action));
    }
  }

  lemma AbandonKeepsKeys(s: State, r: RequestId, reason: FailureReason)
    requires WaitersMatch(s) && KeyKept(s) && r in s.invocations
    ensures KeyKept(Abandon(s, r, reason))
  {
    var t := Abandon(s, r, reason);
    if r in WaitersAt(s.waiters, s.invocations[r].at) {
      SettleKeepsKeys(s, t, s.invocations[r].at, r);
    } else {
      KeyKeptFrame(s, t);
    }
  }

  lemma FinishKeepsKeys(s: State, r: RequestId, action: FinishAction)
    requires WaitersMatch(s) && KeyKept(s)
    requires r in s.invocations && FinishEnabled(s, s.invocations[r], action)
    ensures KeyKept(DoFinish(s, r, action))
  {
    var t := DoFinish(s, r, action);
    if action.DispatchFault? {
      AbandonKeepsKeys(s, r, InfrastructureError);
    } else if action.Dispatch? && !t.invocations[r].phase.Awaiting? {
      AbandonKeepsKeys(s, r, Unavailable);
    } else {
      KeyKeptFrame(s, t);
    }
  }

  lemma ResultKeepsKeys(s: State, action: ResultAction)
    requires WaitersMatch(s) && KeyKept(s) && ResultEnabled(s, action)
    ensures KeyKept(DoResult(s, action))
  {
    var t := DoResult(s, action);
    match action
    case Receive(handler, at, r, answer) => KeyKeptFrame(s, t);
    case Claim(handler) => KeyKeptFrame(s, t);
    case Drop(handler) => KeyKeptFrame(s, t);
    case Conclude(handler, message) =>
      var h := s.traffic.handlers[handler];
      if h.target == h.at && Resolves(WaitersAt(s.waiters, h.at), h.requestId, h.answer.fromClientId) {
        SettleKeepsKeys(s, t, h.at, h.requestId);
      } else {
        KeyKeptFrame(s, t);
      }
    case DeliverResult(message, handler) =>
      var m := s.traffic.results[message];
      if Resolves(WaitersAt(s.waiters, m.target), m.requestId, m.answer.fromClientId) {
        SettleKeepsKeys(s, t, m.target, m.requestId);
      } else {
        KeyKeptFrame(s, t);
      }
  }

  lemma ClockKeepsKeys(s: State, action: EnvironmentAction)
    requires KeyKept(s) && EnvironmentEnabled(s, action) && Punctual(s, OfEnvironment(action))
    requires action.Tick? || action.ExpireWaiterKey?
    ensures KeyKept(DoEnvironment(s, action))
  {
    var t := DoEnvironment(s, action);
    forall i, q | q in WaitersAt(t.waiters, i)
      ensures WaiterKeyOk(t, q, WaitersAt(t.waiters, i)[q].dueAt)
    {
      assert WaiterKeyOk(s, q, WaitersAt(s.waiters, i)[q].dueAt);
      assert i in s.waiters && q in s.waiters[i];
    }
  }

  lemma EnvironmentKeepsKeys(s: State, action: EnvironmentAction)
    requires WaitersMatch(s) && KeyKept(s) && EnvironmentEnabled(s, action) && Punctual(s, OfEnvironment(action))
    ensures KeyKept(DoEnvironment(s, action))
  {
    if action.Tick? || action.ExpireWaiterKey? {
      ClockKeepsKeys(s, action);
    } else if action.FireTimer? {
      SettleKeepsKeys(s, DoEnvironment(s, action), action.instance, action.requestId);
    } else {
      KeyKeptFrame(s, DoEnvironment(s, action));
    }
  }

  lemma StepKeepsKeys(s: State, step: Step)
    requires WaitersMatch(s) && KeyKept(s) && Timely(s) && AccountsOk(s)
    requires Enabled(s, step) && Punctual(s, step)
    ensures KeyKept(Apply(s, step))
  {
    match step
    case Begin(r, at, timeout) => KeyKeptFrame(s, Apply(s, step));
    case Setup(r, action) => SetupKeepsKeys(s, r, action);
    case Finish(r, action) => FinishKeepsKeys(s, r, action);
    case OfResult(action) => ResultKeepsKeys(s, action);
    case OfEnvironment(action) => EnvironmentKeepsKeys(s, action);
  }

  lemma {:induction false} PunctualRunKeepsKeys(start: nat, steps: seq<Step>)
    requires Run(start, steps) && PunctualRun(start, steps)
    ensures KeyKept(After(start, steps))
  {
    if steps != [] {
      var before := steps[..|steps| - 1];
      PunctualRunKeepsKeys(start, before);
      RunIsSound(start, before);
      RunIsTimely(start, before);
      StepKeepsKeys(After(start, before), steps[|steps| - 1]);
    }
  }

  // When timers are at most five seconds late, a live waiter whose request was marked can always be
  // found: its Redis key is present and names its instance.
  lemma {:induction false} MarkedWaiterHasItsKey(start: nat, steps: seq<Step>, i: InstanceId, r: RequestId)
    requires Run(start, steps) && PunctualRun(start, steps)
    requires r in WaitersAt(After(start, steps).waiters, i)
    ensures var s := After(start, steps);
            && r in s.invocations
            && (!s.invocations[r].phase.Registered? ==> r in s.keys.waiter && s.keys.waiter[r].instance == i)
  {
    PunctualRunKeepsKeys(start, steps);
    RunIsSound(start, steps);
    var s := After(start, steps);
    assert WaiterKeyOk(s, r, WaitersAt(s.waiters, i)[r].dueAt);
  }
}
