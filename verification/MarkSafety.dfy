/**
  A job leaves for its device only after the waiter was marked in Redis: every
  job sent or in transit goes back to a `Mark` step earlier in the run.
*/
module MarkSafety {
  import opened WaiterTable
  import opened InvokeProtocol
  import opened SettlementSafety

  // At some earlier step, no later than `time`, request r was marked.
  ghost predicate MarkedBefore(start: nat, steps: seq<Step>, r: RequestId, time: nat) {
    exists k: nat :: k < |steps| && MarkAt(start, steps, k, r, time)
  }

  ghost predicate MarkAt(start: nat, steps: seq<Step>, k: nat, r: RequestId, time: nat)
    requires k < |steps|
  {
    steps[k] == Setup(r, Mark) && Run(start, steps[..k]) && After(start, steps[..k]).now <= time
  }

  // The mark is written and the job may be on its way.
  predicate Dispatching(invocations: map<RequestId, Invocation>, r: RequestId) {
    r in invocations && (invocations[r].phase.Marked? || invocations[r].phase.Awaiting?)
  }

  ghost predicate MarksOk(start: nat, steps: seq<Step>, s: State) {
    && (forall r :: Dispatching(s.invocations, r) ==> MarkedBefore(start, steps, r, s.now))
    && (forall m :: m in s.traffic.jobs ==> MarkedBefore(start, steps, s.traffic.jobs[m].requestId, s.now))
    && (forall e :: e in s.sends ==> MarkedBefore(start, steps, e.job.requestId, e.time))
  }

  // The job comes from a marked invoke or was in transit before.
  predicate JobFrom(s: State, job: Job) {
    Dispatching(s.invocations, job.requestId) || exists m :: m in s.traffic.jobs && s.traffic.jobs[m] == job
  }

  // Where the dispatching invokes, the jobs in transit and the jobs sent after a step come from.
  ghost predicate StepSources(s: State, t: State, marking: set<RequestId>) {
    && s.now <= t.now
    && (forall r :: Dispatching(t.invocations, r) ==> Dispatching(s.invocations, r) || r in marking)
    && (forall m :: m in t.traffic.jobs ==> JobFrom(s, t.traffic.jobs[m]))
    && (forall e :: e in t.sends ==> e in s.sends || (e.time == s.now && JobFrom(s, e.job)))
  }

  lemma SetupSources(s: State, r: RequestId, action: SetupAction)
    requires r in s.invocations && SetupEnabled(s.invocations[r], action)
    ensures StepSources(s, DoSetup(s, r, action), if action == Mark then {r} else {})
  {
    var t := DoSetup(s, r, action);
    assert t.invocations == s.invocations[r := t.invocations[r]];
    assert t.traffic == s.traffic && t.sends == s.sends;
  }

  lemma FinishSources(s: State, r: RequestId, action: FinishAction)
    requires r in s.invocations && FinishEnabled(s, s.invocations[r], action)
    ensures StepSources(s, DoFinish(s, r, action), {})
  {
    var t := DoFinish(s, r, action);
    assert t.invocations == s.invocations[r := t.invocations[r]];
    assert action.Dispatch? ==> Dispatching(s.invocations, r);
  }

  lemma FrameSources(s: State, t: State)
    requires ResultFrame(s, t)
    ensures StepSources(s, t, {})
  {
  }

  lemma ResultSources(s: State, action: ResultAction)
    requires ResultEnabled(s, action)
    ensures StepSources(s, DoResult(s, action), {})
  {
    ResultStaysInFrame(s, action);
    FrameSources(s, DoResult(s, action));
  }

  lemma EnvironmentSources(s: State, action: EnvironmentAction)
    requires EnvironmentEnabled(s, action)
    ensures StepSources(s, DoEnvironment(s, action), {})
  {
  }

  lemma MarkedLater(start: nat, steps: seq<Step>, step: Step, r: RequestId, time: nat, later: nat)
    requires MarkedBefore(start, steps, r, time) && time <= later
    ensures MarkedBefore(start, steps + [step], r, later)
  {
    var k: nat :| k < |steps| && MarkAt(start, steps, k, r, time);
    assert (steps + [step])[..k] == steps[..k];
    assert MarkAt(start, steps + [step], k, r, later);
  }

  lemma MarkedNow(start: nat, steps: seq<Step>, r: RequestId)
    requires Run(start, steps)
    ensures MarkedBefore(start, steps + [Setup(r, Mark)], r, After(start, steps).now)
  {
    var longer := steps + [Setup(r, Mark)];
    assert longer[..|steps|] == steps;
    assert MarkAt(start, longer, |steps|, r, After(start, steps).now);
  }

  lemma SourcesKeepMarks(start: nat, steps: seq<Step>, step: Step, t: State, marking: set<RequestId>)
    requires Run(start, steps) && MarksOk(start, steps, After(start, steps))
    requires StepSources(After(start, steps), t, marking)
    requires forall r :: r in marking ==> step == Setup(r, Mark)
    ensures MarksOk(start, steps + [step], t)
  {
    var s := After(start, steps);
    forall r | Dispatching(t.invocations, r)
      ensures MarkedBefore(start, steps + [step], r, t.now)
    {
      if Dispatching(s.invocations, r) {
        MarkedLater(start, steps, step, r, s.now, t.now);
      } else {
        MarkedNow(start, steps, r);
        WidenMark(start, steps + [step], r, s.now, t.now);
      }
    }
    forall m | m in t.traffic.jobs
      ensures MarkedBefore(start, steps + [step], t.traffic.jobs[m].requestId, t.now)
    {
      assert JobFrom(s, t.traffic.jobs[m]);
      MarkedLater(start, steps, step, t.traffic.jobs[m].requestId, s.now, t.now);
    }
    forall e | e in t.sends
      ensures MarkedBefore(start, steps + [step], e.job.requestId, e.time)
    {
      assert e !in s.sends ==> JobFrom(s, e.job);
      MarkedLater(start, steps, step, e.job.requestId, e.time, e.time);
    }
  }

  lemma WidenMark(start: nat, steps: seq<Step>, r: RequestId, time: nat, later: nat)
    requires MarkedBefore(start, steps, r, time) && time <= later
    ensures MarkedBefore(start, steps, r, later)
  {
    var k: nat :| k < |steps| && MarkAt(start, steps, k, r, time);
    assert MarkAt(start, steps, k, r, later);
  }

  lemma {:induction false} RunIsMarked(start: nat, steps: seq<Step>)
    requires Run(start, steps)
    ensures MarksOk(start, steps, After(start, steps))
  {
    if steps != [] {
      var before, step := steps[..|steps| - 1], steps[|steps| - 1];
      var s := After(start, before);
      RunIsMarked(start, before);
      assert steps == before + [step];
      var marking: set<RequestId> := {};
      match step {
        case Begin(r, at, timeout) =>
        case Setup(r, action) =>
          SetupSources(s, r, action);
          marking := if action == Mark then {r} else {};
        case Finish(r, action) => FinishSources(s, r, action);
        case OfResult(action) => ResultSources(s, action);
        case OfEnvironment(action) => EnvironmentSources(s, action);
      }
      SourcesKeepMarks(start, before, step, Apply(s, step), marking);
    }
  }
}
