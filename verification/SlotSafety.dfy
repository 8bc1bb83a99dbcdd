/**
  The in-flight counter of a device never exceeds the number of invokes that
  have taken one of its slots and not yet given it back.
*/
module SlotSafety {
  import opened WaiterTable
  import opened InvokeProtocol
  import opened SettlementSafety
  import opened AnswerSafety

  predicate HoldsSlot(inv: Invocation, c: ClientId) {
    inv.released < inv.acquired && inv.clientId == c
  }

  function Holders(invocations: map<RequestId, Invocation>, c: ClientId): set<RequestId> {
    set r | r in invocations && HoldsSlot(invocations[r], c)
  }

  ghost predicate Counted(s: State) {
    forall c :: InFlight(s.keys, c) <= |Holders(s.invocations, c)|
  }

  // The counter is exact, and bounded by the largest capacity ever used for the device.
  ghost predicate Exact(s: State) {
    && (forall c :: InFlight(s.keys, c) == |Holders(s.invocations, c)| <= CapacityUsed(s, c) <= MAXIMUM_CAPACITY)
    && (forall r :: r in s.invocations ==> !s.invocations[r].phase.Fixing?)
  }

  // The part of an invoke the slot accounting looks at.
  predicate SameSlot(inv: Invocation, next: Invocation) {
    next.acquired == inv.acquired && next.released == inv.released && next.clientId == inv.clientId
  }

  // No invoke takes or gives back a slot between s and t.
  ghost predicate SlotsUntouched(s: State, t: State) {
    && t.keys.inFlight == s.keys.inFlight && t.capacityUsed == s.capacityUsed
    && (forall r :: r in s.invocations ==> r in t.invocations && SameSlot(s.invocations[r], t.invocations[r]))
    && (forall r :: r in t.invocations && r !in s.invocations ==> t.invocations[r].acquired == 0)
    && (forall r :: r in t.invocations && t.invocations[r].phase.Fixing? ==>
          r in s.invocations && s.invocations[r].phase.Fixing?)
  }

  lemma UntouchedKeepsCount(s: State, t: State)
    requires SlotsUntouched(s, t)
    ensures Counted(s) ==> Counted(t)
    ensures Exact(s) ==> Exact(t)
  {
    forall c
      ensures Holders(t.invocations, c) == Holders(s.invocations, c)
    {
      forall r
        ensures r in Holders(t.invocations, c) <==> r in Holders(s.invocations, c)
      {
        assert r in t.invocations && r !in s.invocations ==> t.invocations[r].acquired == 0;
        assert r in s.invocations ==> SameSlot(s.invocations[r], t.invocations[r]);
      }
    }
  }

  // r takes a slot of c: one holder more, and nothing changes for other devices.
  lemma TakingAddsAHolder(before: map<RequestId, Invocation>, r: RequestId, next: Invocation, c: ClientId)
    requires r in before && before[r].acquired == before[r].released && HoldsSlot(next, c)
    ensures |Holders(before[r := next], c)| == |Holders(before, c)| + 1
    ensures forall d :: d != c ==> Holders(before[r := next], d) == Holders(before, d)
  {
    assert Holders(before[r := next], c) == Holders(before, c) + {r};
  }

  lemma GivingBackRemovesAHolder(before: map<RequestId, Invocation>, r: RequestId, next: Invocation)
    requires r in before && before[r].acquired == next.acquired == next.released == before[r].released + 1
    ensures |Holders(before[r := next], before[r].clientId)| == |Holders(before, before[r].clientId)| - 1
    ensures forall d :: d != before[r].clientId ==> Holders(before[r := next], d) == Holders(before, d)
  {
    assert Holders(before, before[r].clientId) == Holders(before[r := next], before[r].clientId) + {r};
  }

  lemma AcquireKeepsCount(s: State, r: RequestId, c: ClientId, capacity: nat)
    requires AccountsOk(s) && r in s.invocations && SetupEnabled(s.invocations[r], TryAcquire(c, capacity))
    ensures Counted(s) ==> Counted(DoTryAcquire(s, r, c, capacity))
    ensures Exact(s) ==> Exact(DoTryAcquire(s, r, c, capacity))
  {
    var t := DoTryAcquire(s, r, c, capacity);
    if InFlight(s.keys, c) + 1 <= capacity {
      assert AccountOk(s.invocations[r]);
      assert t.invocations == s.invocations[r := t.invocations[r]];
      TakingAddsAHolder(s.invocations, r, t.invocations[r], c);
      forall d
        ensures InFlight(t.keys, d) - InFlight(s.keys, d) == |Holders(t.invocations, d)| - |Holders(s.invocations, d)|
      {
        assert d != c ==> Holders(t.invocations, d) == Holders(s.invocations, d);
      }
    }
  }

  lemma ReleaseKeepsCount(s: State, r: RequestId)
    requires AccountsOk(s) && r in s.invocations && s.invocations[r].phase.Releasing?
    ensures Counted(s) ==> Counted(DoReleaseSlot(s, r))
    ensures Exact(s) ==> Exact(DoReleaseSlot(s, r))
  {
    var t := DoReleaseSlot(s, r);
    assert AccountOk(s.invocations[r]);
    assert t.invocations == s.invocations[r := t.invocations[r]];
    GivingBackRemovesAHolder(s.invocations, r, t.invocations[r]);
    forall d
      ensures InFlight(t.keys, d) - InFlight(s.keys, d) == |Holders(t.invocations, d)| - |Holders(s.invocations, d)|
    {
      assert d != s.invocations[r].clientId ==> Holders(t.invocations, d) == Holders(s.invocations, d);
    }
  }

  // SET 0 after a decrement below zero; it never happens while the counter is exact.
  lemma FixKeepsCount(s: State, r: RequestId)
    requires r in s.invocations && s.invocations[r].phase.Fixing?
    ensures Counted(s) ==> Counted(DoFixSlot(s, r))
    ensures !Exact(s)
  {
    var t := DoFixSlot(s, r);
    forall c
      ensures Holders(t.invocations, c) == Holders(s.invocations, c)
    {
    }
  }

  lemma SetupLeavesSlots(s: State, r: RequestId, action: SetupAction)
    requires r in s.invocations && SetupEnabled(s.invocations[r], action) && !action.TryAcquire?
    ensures SlotsUntouched(s, DoSetup(s, r, action))
  {
    var t := DoSetup(s, r, action);
    assert t.invocations == s.invocations[r := t.invocations[r]];
  }

  lemma FinishLeavesSlots(s: State, r: RequestId, action: FinishAction)
    requires r in s.invocations && FinishEnabled(s, s.invocations[r], action)
    requires !action.ReleaseSlot? && !action.FixSlot?
    ensures SlotsUntouched(s, DoFinish(s, r, action))
  {
    var t := DoFinish(s, r, action);
    assert t.invocations == s.invocations[r := t.invocations[r]];
  }

  lemma ResultLeavesSlots(s: State, action: ResultAction)
    requires ResultEnabled(s, action)
    ensures SlotsUntouched(s, DoResult(s, action))
  {
    ResultStaysInFrame(s, action);
    FrameLeavesSlots(s, DoResult(s, action));
  }

  lemma FrameLeavesSlots(s: State, t: State)
    requires ResultFrame(s, t)
    ensures SlotsUntouched(s, t)
  {
  }

  lemma EnvironmentKeepsCount(s: State, action: EnvironmentAction)
    requires EnvironmentEnabled(s, action)
    ensures Counted(s) ==> Counted(DoEnvironment(s, action))
    ensures Exact(s) && !action.ResetSlots? ==> Exact(DoEnvironment(s, action))
  {
    if !action.ResetSlots? {
      UntouchedKeepsCount(s, DoEnvironment(s, action));
    }
  }

  predicate IsReset(step: Step) {
    step.OfEnvironment? && step.environment.ResetSlots?
  }

  lemma StepKeepsCount(s: State, step: Step)
    requires AccountsOk(s) && Enabled(s, step)
    ensures Counted(s) ==> Counted(Apply(s, step))
    ensures Exact(s) && !IsReset(step) ==> Exact(Apply(s, step))
  {
    match step
    case Begin(r, at, timeout) => UntouchedKeepsCount(s, Apply(s, step));
    case Setup(r, action) =>
      if action.TryAcquire? {
        AcquireKeepsCount(s, r, action.clientId, action.capacity);
      } else {
        SetupLeavesSlots(s, r, action);
        UntouchedKeepsCount(s, Apply(s, step));
      }
    case Finish(r, action) =>
      if action.ReleaseSlot? {
        ReleaseKeepsCount(s, r);
      } else if action.FixSlot? {
        FixKeepsCount(s, r);
      } else {
        FinishLeavesSlots(s, r, action);
        UntouchedKeepsCount(s, Apply(s, step));
      }
    case OfResult(action) =>
      ResultLeavesSlots(s, action);
      UntouchedKeepsCount(s, Apply(s, step));
    case OfEnvironment(action) => EnvironmentKeepsCount(s, action);
  }

  lemma {:induction false} RunCounts(start: nat, steps: seq<Step>)
    requires Run(start, steps)
    ensures Counted(After(start, steps))
    ensures (forall i :: 0 <= i < |steps| ==> !IsReset(steps[i])) ==> Exact(After(start, steps))
  {
    if steps == [] {
      assert forall c :: Holders(After(start, steps).invocations, c) == {};
    } else {
      var before := steps[..|steps| - 1];
      RunCounts(start, before);
      RunIsSound(start, before);
      StepKeepsCount(After(start, before), steps[|steps| - 1]);
    }
  }

  // In every run, with resets and deletes at any point, the counter is at most the number of invokes
  // that hold a slot of the device, so a device nobody holds a slot of accepts at any capacity.
  lemma {:induction false} CounterNeverExceedsHolders(start: nat, steps: seq<Step>, r: RequestId, c: ClientId,
                                                      capacity: nat)
    requires Run(start, steps)
    ensures var s := After(start, steps);
            && InFlight(s.keys, c) <= |Holders(s.invocations, c)|
            && (Enabled(s, Setup(r, TryAcquire(c, capacity))) && Holders(s.invocations, c) == {} ==>
                  Apply(s, Setup(r, TryAcquire(c, capacity))).invocations[r].phase == Acquired)
  {
    RunCounts(start, steps);
  }

  // In a run without a reset or delete the counter is exactly the number of slots held, it stays within
  // the largest capacity used for the device, and so within 1024.
  lemma {:induction false} CounterIsExactWithoutResets(start: nat, steps: seq<Step>, c: ClientId)
    requires Run(start, steps) && forall i :: 0 <= i < |steps| ==> !IsReset(steps[i])
    ensures var s := After(start, steps);
            InFlight(s.keys, c) == |Holders(s.invocations, c)| <= CapacityUsed(s, c) <= 1024
  {
    RunCounts(start, steps);
  }

  // ---------- below zero ----------

  // The releases that took the counter of c below zero and have not yet set it to zero.
  function Fixers(invocations: map<RequestId, Invocation>, c: ClientId): set<RequestId> {
    set r | r in invocations && invocations[r].phase.Fixing? && invocations[r].clientId == c
  }

  ghost predicate Repaired(s: State) {
    forall c :: InFlight(s.keys, c) >= -|Fixers(s.invocations, c)|
  }

  predicate SamePhase(inv: Invocation, next: Invocation) {
    next.clientId == inv.clientId && next.phase == inv.phase
  }

  // The one invoke r moves on, from and to phases in which it fixes nothing; the counters do not go down.
  ghost predicate OnlyMoves(s: State, t: State, r: RequestId) {
    r in t.invocations && !t.invocations[r].phase.Fixing? &&
    (r in s.invocations ==> !s.invocations[r].phase.Fixing?) &&
    t.invocations == s.invocations[r := t.invocations[r]] &&
    forall c :: InFlight(t.keys, c) >= InFlight(s.keys, c)
  }

  lemma MoveKeepsRepaired(s: State, t: State, r: RequestId)
    requires Repaired(s) && OnlyMoves(s, t, r)
    ensures Repaired(t)
  {
    forall c
      ensures InFlight(t.keys, c) >= -|Fixers(t.invocations, c)|
    {
      assert Fixers(t.invocations, c) == Fixers(s.invocations, c);
    }
  }

  lemma PhasesKeepRepaired(s: State, t: State)
    requires Repaired(s) && t.invocations.Keys == s.invocations.Keys
    requires forall r :: r in s.invocations ==> SamePhase(s.invocations[r], t.invocations[r])
    requires forall c :: InFlight(t.keys, c) >= InFlight(s.keys, c) || InFlight(t.keys, c) >= 0
    ensures Repaired(t)
  {
    forall c
      ensures InFlight(t.keys, c) >= -|Fixers(t.invocations, c)|
    {
      forall r
        ensures r in Fixers(t.invocations, c) <==> r in Fixers(s.invocations, c)
      {
        assert r in s.invocations ==> SamePhase(s.invocations[r], t.invocations[r]);
      }
      assert Fixers(t.invocations, c) == Fixers(s.invocations, c);
    }
  }

  lemma ReleaseKeepsRepaired(s: State, r: RequestId)
    requires Repaired(s) && r in s.invocations && s.invocations[r].phase.Releasing?
    ensures Repaired(DoReleaseSlot(s, r))
  {
    var t := DoReleaseSlot(s, r);
    var d := s.invocations[r].clientId;
    forall c
      ensures InFlight(t.keys, c) >= -|Fixers(t.invocations, c)|
    {
      if c == d && t.invocations[r].phase.Fixing? {
        assert Fixers(t.invocations, c) == Fixers(s.invocations, c) + {r};
      } else {
        assert Fixers(t.invocations, c) == Fixers(s.invocations, c);
      }
    }
  }

  lemma FixKeepsRepaired(s: State, r: RequestId)
    requires Repaired(s) && r in s.invocations && s.invocations[r].phase.Fixing?
    ensures Repaired(DoFixSlot(s, r))
  {
    var t := DoFixSlot(s, r);
    forall c
      ensures InFlight(t.keys, c) >= -|Fixers(t.invocations, c)|
    {
      if c != s.invocations[r].clientId {
        assert Fixers(t.invocations, c) == Fixers(s.invocations, c);
      }
    }
  }

  lemma FinishKeepsRepaired(s: State, r: RequestId, action: FinishAction)
    requires Repaired(s) && r in s.invocations && FinishEnabled(s, s.invocations[r], action)
    ensures Repaired(DoFinish(s, r, action))
  {
    if action.ReleaseSlot? {
      ReleaseKeepsRepaired(s, r);
    } else if action.FixSlot? {
      FixKeepsRepaired(s, r);
    } else {
      FinishLeavesSlots(s, r, action);
      MoveKeepsRepaired(s, DoFinish(s, r, action), r);
    }
  }

  lemma ResultKeepsRepaired(s: State, action: ResultAction)
    requires Repaired(s) && ResultEnabled(s, action)
    ensures Repaired(DoResult(s, action))
  {
    ResultLeavesSlots(s, action);
    PhasesKeepRepaired(s, DoResult(s, action));
  }

  lemma EnvironmentKeepsRepaired(s: State, action: EnvironmentAction)
    requires Repaired(s) && EnvironmentEnabled(s, action)
    ensures Repaired(DoEnvironment(s, action))
  {
    PhasesKeepRepaired(s, DoEnvironment(s, action));
  }

  lemma StepKeepsRepaired(s: State, step: Step)
    requires Repaired(s) && Enabled(s, step)
    ensures Repaired(Apply(s, step))
  {
    match step
    case Begin(r, _, _) => MoveKeepsRepaired(s, Apply(s, step), r);
    case Setup(r, _) => MoveKeepsRepaired(s, Apply(s, step), r);
    case Finish(r, action) => FinishKeepsRepaired(s, r, action);
    case OfResult(action) => ResultKeepsRepaired(s, action);
    case OfEnvironment(action) => EnvironmentKeepsRepaired(s, action);
  }

  // In every run, resets included, the counter is below zero by at most the number of releases that are
  // still to set it to zero; while there is none it is not below zero at all.
  lemma {:induction false} CounterIsMended(start: nat, steps: seq<Step>, c: ClientId)
    requires Run(start, steps)
    ensures Repaired(After(start, steps))
    ensures var s := After(start, steps);
            && InFlight(s.keys, c) >= -|Fixers(s.invocations, c)|
            && (Fixers(s.invocations, c) == {} ==> InFlight(s.keys, c) >= 0)
  {
    if steps != [] {
      CounterIsMended(start, steps[..|steps| - 1], c);
      StepKeepsRepaired(After(start, steps[..|steps| - 1]), steps[|steps| - 1]);
    }
  }
}
