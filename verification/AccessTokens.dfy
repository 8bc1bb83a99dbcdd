/**
  Access tokens: a quota consumed by a conditional update with a re-read on a
  miss, and a monthly counter that is reset lazily. The machine lets any number
  of calls interleave with each other and with the administration of the token.
*/
module AccessTokens {
  import opened Options

  type TokenId = int
  type CallId = int

  datatype TokenStatus = Active | Revoked

  datatype Token = Token(
    status: TokenStatus, deleted: bool, maximum: Option<int>, usage: int, expiresAt: Option<int>,
    monthly: int, period: Option<int>)

  datatype Refusal = Invalid | Stopped | Expired | Exhausted

  type Tokens = map<TokenId, Token>

  // ---------- the commands ----------

  predicate Alive(tokens: Tokens, id: TokenId) {
    id in tokens && !tokens[id].deleted
  }

  predicate HasRoom(token: Token) {
    token.maximum.None? || token.usage < token.maximum.value
  }

  // The WHERE clause of the consuming update.
  predicate Consumable(tokens: Tokens, id: TokenId, now: int) {
    Alive(tokens, id) && tokens[id].status == Active && HasRoom(tokens[id]) &&
    (tokens[id].expiresAt.None? || tokens[id].expiresAt.value > now)
  }

  function Consumed(tokens: Tokens, id: TokenId): Tokens
    requires id in tokens
  {
    tokens[id := if tokens[id].maximum.Some? then tokens[id].(usage := tokens[id].usage + 1) else tokens[id]]
  }

  // The re-read after a miss: why the token was not consumed, in this order, or the token itself.
  function Resolve(tokens: Tokens, id: TokenId, now: int): Result<Token, Refusal> {
    if !Alive(tokens, id) then Thrown(Invalid)
    else if tokens[id].status != Active then Thrown(Stopped)
    else if tokens[id].expiresAt.Some? && tokens[id].expiresAt.value < now then Thrown(Expired)
    else if !HasRoom(tokens[id]) then Thrown(Exhausted)
    else Done(tokens[id])
  }

  // Revoking finds deleted rows too.
  function Revoke(tokens: Tokens, id: TokenId): Tokens {
    if id in tokens then tokens[id := tokens[id].(status := Revoked)] else tokens
  }

  function Delete(tokens: Tokens, id: TokenId): Tokens {
    if Alive(tokens, id) then tokens[id := tokens[id].(deleted := true)] else tokens
  }

  function ResetUsage(tokens: Tokens, id: TokenId, month: int): Tokens {
    if Alive(tokens, id) then tokens[id := tokens[id].(usage := 0, monthly := 0, period := Some(month))] else tokens
  }

  // A field that is left out keeps its value.
  function EditPolicy(tokens: Tokens, id: TokenId, maximum: Option<Option<int>>,
                      expiresAt: Option<Option<int>>): Tokens {
    if Alive(tokens, id) then
      tokens[id := tokens[id].(maximum := if maximum.Some? then maximum.value else tokens[id].maximum,
                               expiresAt := if expiresAt.Some? then expiresAt.value else tokens[id].expiresAt)]
    else tokens
  }

  function RecordMonthlyUsage(tokens: Tokens, id: TokenId, month: int): Tokens {
    if Alive(tokens, id) then
      tokens[id := tokens[id].(monthly := if tokens[id].period == Some(month) then tokens[id].monthly + 1 else 1,
                               period := Some(month))]
    else tokens
  }

  function CurrentMonthlyUsage(token: Token, month: int): int {
    if token.period == Some(month) then token.monthly else 0
  }

  // ---------- the machine ----------

  // Where a consuming call stands. A call is admitted when it is counted or uncounted.
  datatype Phase = Arrived | Missed | Counted | Uncounted | Refused(refusal: Refusal)

  datatype Call = Call(id: TokenId, phase: Phase)

  datatype Event = Used(id: TokenId, month: int) | Cleared(id: TokenId)

  datatype State = State(tokens: Tokens, now: int, month: int, calls: map<CallId, Call>, history: seq<Event>)

  datatype Step =
    | Arrive(c: CallId, id: TokenId)
    | Update(c: CallId)
    | Reread(c: CallId)
    | RevokeToken(id: TokenId)
    | DeleteToken(id: TokenId)
    | ResetToken(id: TokenId)
    | EditToken(id: TokenId, maximum: Option<Option<int>>, expiresAt: Option<Option<int>>)
    | RecordUsage(id: TokenId)
    | Tick(elapsed: nat, months: nat)

  predicate Enabled(s: State, step: Step) {
    match step
    case Arrive(c, _) => c !in s.calls
    case Update(c) => c in s.calls && s.calls[c].phase == Arrived
    case Reread(c) => c in s.calls && s.calls[c].phase == Missed
    case RevokeToken(_) => true
    case DeleteToken(_) => true
    case ResetToken(_) => true
    case EditToken(_, _, _) => true
    case RecordUsage(_) => true
    case Tick(_, _) => true
  }

  function Enter(s: State, c: CallId, phase: Phase): map<CallId, Call>
    requires c in s.calls
  {
    s.calls[c := Call(s.calls[c].id, phase)]
  }

  function AfterUpdate(s: State, c: CallId): State
    requires c in s.calls
  {
    var id := s.calls[c].id;
    if Consumable(s.tokens, id, s.now) then s.(tokens := Consumed(s.tokens, id), calls := Enter(s, c, Counted))
    else s.(calls := Enter(s, c, Missed))
  }

  function AfterReread(s: State, c: CallId): State
    requires c in s.calls
  {
    var found := Resolve(s.tokens, s.calls[c].id, s.now);
    s.(calls := Enter(s, c, if found.Done? then Uncounted else Refused(found.error)))
  }

  function Apply(s: State, step: Step): State
    requires Enabled(s, step)
  {
    match step
    case Arrive(c, id) => s.(calls := s.calls[c := Call(id, Arrived)])
    case Update(c) => AfterUpdate(s, c)
    case Reread(c) => AfterReread(s, c)
    case RevokeToken(id) => s.(tokens := Revoke(s.tokens, id))
    case DeleteToken(id) => s.(tokens := Delete(s.tokens, id))
    case ResetToken(id) => s.(tokens := ResetUsage(s.tokens, id, s.month),
                              history := if Alive(s.tokens, id) then s.history + [Cleared(id)] else s.history)
    case EditToken(id, maximum, expiresAt) => s.(tokens := EditPolicy(s.tokens, id, maximum, expiresAt))
    case RecordUsage(id) => s.(tokens := RecordMonthlyUsage(s.tokens, id, s.month),
                               history := if Alive(s.tokens, id) then s.history + [Used(id, s.month)] else s.history)
    case Tick(elapsed, months) => s.(now := s.now + elapsed, month := s.month + months)
  }

  ghost predicate Run(start: State, steps: seq<Step>)
    decreases |steps|, 0
  {
    steps == [] ||
    (Run(start, steps[..|steps| - 1]) && Enabled(After(start, steps[..|steps| - 1]), steps[|steps| - 1]))
  }

  ghost function After(start: State, steps: seq<Step>): State
    requires Run(start, steps)
    decreases |steps|, 1
  {
    if steps == [] then start else Apply(After(start, steps[..|steps| - 1]), steps[|steps| - 1])
  }

  function Start(tokens: Tokens, now: int, month: int): State {
    State(tokens, now, month, map[], [])
  }

  lemma RunSnoc(start: State, steps: seq<Step>, step: Step)
    requires Run(start, steps) && Enabled(After(start, steps), step)
    ensures Run(start, steps + [step]) && After(start, steps + [step]) == Apply(After(start, steps), step)
  {
    assert (steps + [step])[..|steps|] == steps;
  }

  // ---------- the quota ----------

  // Nobody resets the token's counter or edits its policy.
  predicate LeavesPolicy(steps: seq<Step>, id: TokenId) {
    forall step <- steps :: !(step.ResetToken? && step.id == id) && !(step.EditToken? && step.id == id)
  }

  function CallsIn(calls: map<CallId, Call>, id: TokenId, phase: Phase): set<CallId> {
    set c | c in calls && calls[c] == Call(id, phase)
  }

  // All that keeps the token from being consumed, now and for good, unless its policy changes.
  predicate Blocked(tokens: Tokens, id: TokenId, now: int) {
    !Consumable(tokens, id, now)
  }

  // The token was let through the re-read though the update at this very instant would not take it.
  predicate AtExpiry(tokens: Tokens, id: TokenId, now: int) {
    Alive(tokens, id) && tokens[id].status == Active && HasRoom(tokens[id]) && tokens[id].expiresAt == Some(now)
  }

  ghost predicate Metered(start: Tokens, s: State, id: TokenId) {
    id in start && id in s.tokens &&
    s.tokens[id].maximum == start[id].maximum && s.tokens[id].expiresAt == start[id].expiresAt &&
    (start[id].maximum.None? ==> s.tokens[id].usage == start[id].usage) &&
    (start[id].maximum.Some? ==>
       s.tokens[id].usage == start[id].usage + |CallsIn(s.calls, id, Counted)| &&
       (CallsIn(s.calls, id, Counted) == {} || s.tokens[id].usage <= start[id].maximum.value))
  }

  // As long as some call has missed, the token is blocked.
  ghost predicate MissesAreBlocked(s: State, id: TokenId) {
    CallsIn(s.calls, id, Missed) != {} ==> Blocked(s.tokens, id, s.now)
  }

  lemma Entered(s: State, c: CallId, to: Phase, id: TokenId, phase: Phase)
    requires c in s.calls
    ensures CallsIn(Enter(s, c, to), id, phase) ==
            if s.calls[c].id == id && to == phase then CallsIn(s.calls, id, phase) + {c}
            else CallsIn(s.calls, id, phase) - {c}
  {
  }

  lemma UpdateKeepsMeter(start: Tokens, s: State, c: CallId, id: TokenId)
    requires c in s.calls && s.calls[c].phase == Arrived && Metered(start, s, id) && MissesAreBlocked(s, id)
    ensures Metered(start, AfterUpdate(s, c), id) && MissesAreBlocked(AfterUpdate(s, c), id)
  {
    Entered(s, c, if Consumable(s.tokens, s.calls[c].id, s.now) then Counted else Missed, id, Counted);
    Entered(s, c, if Consumable(s.tokens, s.calls[c].id, s.now) then Counted else Missed, id, Missed);
    assert c !in CallsIn(s.calls, id, Counted) && c !in CallsIn(s.calls, id, Missed);
  }

  lemma RereadKeepsMeter(start: Tokens, s: State, c: CallId, id: TokenId)
    requires c in s.calls && s.calls[c].phase == Missed && Metered(start, s, id) && MissesAreBlocked(s, id)
    ensures Metered(start, AfterReread(s, c), id) && MissesAreBlocked(AfterReread(s, c), id)
  {
    var phase := AfterReread(s, c).calls[c].phase;
    Entered(s, c, phase, id, Counted);
    Entered(s, c, phase, id, Missed);
    assert c !in CallsIn(s.calls, id, Counted);
  }

  lemma StepKeepsMeter(start: Tokens, s: State, step: Step, id: TokenId)
    requires Enabled(s, step) && LeavesPolicy([step], id) && Metered(start, s, id) && MissesAreBlocked(s, id)
    ensures Metered(start, Apply(s, step), id) && MissesAreBlocked(Apply(s, step), id)
  {
    match step {
      case Arrive(c, _) =>
        assert CallsIn(Apply(s, step).calls, id, Counted) == CallsIn(s.calls, id, Counted);
        assert CallsIn(Apply(s, step).calls, id, Missed) == CallsIn(s.calls, id, Missed);
      case Update(c) => UpdateKeepsMeter(start, s, c, id);
      case Reread(c) => RereadKeepsMeter(start, s, c, id);
      case RevokeToken(_) =>
      case DeleteToken(_) =>
      case ResetToken(other) => assert step in [step] && other != id;
      case EditToken(other, _, _) => assert step in [step] && other != id;
      case RecordUsage(_) =>
      case Tick(_, _) =>
    }
  }

  lemma {:induction false} RunIsMetered(tokens: Tokens, now: int, month: int, steps: seq<Step>, id: TokenId)
    requires id in tokens && Run(Start(tokens, now, month), steps) && LeavesPolicy(steps, id)
    ensures Metered(tokens, After(Start(tokens, now, month), steps), id)
    ensures MissesAreBlocked(After(Start(tokens, now, month), steps), id)
  {
    if steps == [] {
      assert CallsIn(map[], id, Counted) == {};
    } else {
      var step := steps[|steps| - 1];
      assert step in steps;
      RunIsMetered(tokens, now, month, steps[..|steps| - 1], id);
      StepKeepsMeter(tokens, After(Start(tokens, now, month), steps[..|steps| - 1]), step, id);
    }
  }

  // Without resets and policy edits, the calls the counter counts are its growth, they fit into what the
  // maximum left at the start, and an unlimited token's counter never moves.
  lemma {:induction false} CountedCallsFitTheQuota(tokens: Tokens, now: int, month: int, steps: seq<Step>, id: TokenId)
    requires id in tokens && Run(Start(tokens, now, month), steps) && LeavesPolicy(steps, id)
    ensures var s := After(Start(tokens, now, month), steps);
            id in s.tokens &&
            (tokens[id].maximum.None? ==> s.tokens[id].usage == tokens[id].usage) &&
            (tokens[id].maximum.Some? ==>
               s.tokens[id].usage - tokens[id].usage == |CallsIn(s.calls, id, Counted)| &&
               (CallsIn(s.calls, id, Counted) != {} ==>
                  |CallsIn(s.calls, id, Counted)| <= tokens[id].maximum.value - tokens[id].usage))
  {
    RunIsMetered(tokens, now, month, steps, id);
  }

  // A re-read after a miss lets the call through exactly at the instant the token expires.
  lemma {:induction false} RereadAdmitsOnlyAtExpiry(tokens: Tokens, now: int, month: int, steps: seq<Step>, c: CallId)
    requires Run(Start(tokens, now, month), steps)
    requires var s := After(Start(tokens, now, month), steps);
             c in s.calls && s.calls[c].phase == Missed && s.calls[c].id in tokens && LeavesPolicy(steps, s.calls[c].id)
    ensures var s := After(Start(tokens, now, month), steps);
            Apply(s, Reread(c)).calls[c].phase == Uncounted <==> AtExpiry(s.tokens, s.calls[c].id, s.now)
  {
    var s := After(Start(tokens, now, month), steps);
    RunIsMetered(tokens, now, month, steps, s.calls[c].id);
    assert c in CallsIn(s.calls, s.calls[c].id, Missed);
  }

  // The re-read finds the token usable: the update would take it now, or it expires at this instant.
  predicate Slips(tokens: Tokens, id: TokenId, now: int) {
    Consumable(tokens, id, now) || AtExpiry(tokens, id, now)
  }

  lemma RereadAdmitsIff(s: State, c: CallId)
    requires Enabled(s, Reread(c))
    ensures Apply(s, Reread(c)).calls[c].phase == Uncounted <==> Slips(s.tokens, s.calls[c].id, s.now)
  {
  }

  // No re-read for the token met it consumable again or at the instant of its expiry.
  ghost predicate NoRereadSlips(start: State, steps: seq<Step>, id: TokenId)
    requires Run(start, steps)
    decreases |steps|
  {
    steps == [] ||
    (NoRereadSlips(start, steps[..|steps| - 1], id) &&
     var s := After(start, steps[..|steps| - 1]);
     var step := steps[|steps| - 1];
     step.Reread? && s.calls[step.c].id == id ==> !Slips(s.tokens, id, s.now))
  }

  // Over all runs, resets and policy edits included: every admitted call was counted exactly when no re-read
  // met the token consumable again or at the instant of its expiry.
  lemma {:induction false} AdmittedAreCountedIff(tokens: Tokens, now: int, month: int, steps: seq<Step>, id: TokenId)
    requires Run(Start(tokens, now, month), steps)
    ensures CallsIn(After(Start(tokens, now, month), steps).calls, id, Uncounted) == {} <==>
            NoRereadSlips(Start(tokens, now, month), steps, id)
  {
    var start := Start(tokens, now, month);
    if steps == [] {
      assert CallsIn(map[], id, Uncounted) == {};
    } else {
      var before, step := steps[..|steps| - 1], steps[|steps| - 1];
      var s := After(start, before);
      AdmittedAreCountedIff(tokens, now, month, before, id);
      if step.Reread? {
        RereadAdmitsIff(s, step.c);
        Entered(s, step.c, Apply(s, step).calls[step.c].phase, id, Uncounted);
        assert step.c !in CallsIn(s.calls, id, Uncounted);
      } else if step.Update? {
        Entered(s, step.c, Apply(s, step).calls[step.c].phase, id, Uncounted);
        assert step.c !in CallsIn(s.calls, id, Uncounted);
      } else {
        assert CallsIn(Apply(s, step).calls, id, Uncounted) == CallsIn(s.calls, id, Uncounted);
      }
    }
  }

  // Without a reset and a policy edit no re-read meets the token consumable again: once a call has missed,
  // the token stays blocked.
  lemma {:induction false} MissedStaysBlocked(tokens: Tokens, now: int, month: int, steps: seq<Step>, c: CallId)
    requires Run(Start(tokens, now, month), steps)
    requires var s := After(Start(tokens, now, month), steps);
             c in s.calls && s.calls[c].phase == Missed && s.calls[c].id in tokens && LeavesPolicy(steps, s.calls[c].id)
    ensures var s := After(Start(tokens, now, month), steps); !Consumable(s.tokens, s.calls[c].id, s.now)
  {
    var s := After(Start(tokens, now, month), steps);
    RunIsMetered(tokens, now, month, steps, s.calls[c].id);
    assert c in CallsIn(s.calls, s.calls[c].id, Missed);
  }

  lemma {:induction false} WithoutExpiryNoneSlips(tokens: Tokens, now: int, month: int, steps: seq<Step>, id: TokenId)
    requires id in tokens && Run(Start(tokens, now, month), steps) && LeavesPolicy(steps, id)
    requires tokens[id].expiresAt.None?
    ensures NoRereadSlips(Start(tokens, now, month), steps, id)
  {
    if steps != [] {
      var before := steps[..|steps| - 1];
      var s, step := After(Start(tokens, now, month), before), steps[|steps| - 1];
      WithoutExpiryNoneSlips(tokens, now, month, before, id);
      RunIsMetered(tokens, now, month, before, id);
      assert step.Reread? && s.calls[step.c].id == id ==> step.c in CallsIn(s.calls, id, Missed);
    }
  }

  // A token without expiry admits exactly the calls it counts.
  lemma {:induction false} QuotaIsExact(tokens: Tokens, now: int, month: int, steps: seq<Step>, id: TokenId)
    requires id in tokens && Run(Start(tokens, now, month), steps) && LeavesPolicy(steps, id)
    requires tokens[id].expiresAt.None? && tokens[id].maximum.Some?
    ensures var s := After(Start(tokens, now, month), steps);
            var admitted := CallsIn(s.calls, id, Counted) + CallsIn(s.calls, id, Uncounted);
            id in s.tokens && |admitted| == s.tokens[id].usage - tokens[id].usage &&
            (admitted != {} ==> |admitted| <= tokens[id].maximum.value - tokens[id].usage)
  {
    var s := After(Start(tokens, now, month), steps);
    CountedCallsFitTheQuota(tokens, now, month, steps, id);
    WithoutExpiryNoneSlips(tokens, now, month, steps, id);
    AdmittedAreCountedIff(tokens, now, month, steps, id);
    assert CallsIn(s.calls, id, Counted) + CallsIn(s.calls, id, Uncounted) == CallsIn(s.calls, id, Counted);
  }

  // At the instant of expiry a call slips through uncounted.
  lemma UncountedAtExpiry()
    ensures var token := Token(Active, false, Some(10), 0, Some(5), 0, None);
            var start, steps := Start(map[1 := token], 5, 0), [Arrive(1, 1), Update(1), Reread(1)];
            Run(start, steps) && After(start, steps).calls[1].phase == Uncounted &&
            After(start, steps).tokens == start.tokens
  {
    var start := Start(map[1 := Token(Active, false, Some(10), 0, Some(5), 0, None)], 5, 0);
    RunSnoc(start, [], Arrive(1, 1));
    RunSnoc(start, [Arrive(1, 1)], Update(1));
    RunSnoc(start, [Arrive(1, 1), Update(1)], Reread(1));
    assert [] + [Arrive(1, 1)] == [Arrive(1, 1)];
    assert [Arrive(1, 1)] + [Update(1)] == [Arrive(1, 1), Update(1)];
    assert [Arrive(1, 1), Update(1)] + [Reread(1)] == [Arrive(1, 1), Update(1), Reread(1)];
  }

  // A reset between the miss and the re-read lets a call through uncounted, which is why the theorems exclude it.
  lemma UncountedAfterReset()
    ensures var token := Token(Active, false, Some(1), 1, None, 0, None);
            var start, steps := Start(map[1 := token], 0, 0), [Arrive(1, 1), Update(1), ResetToken(1), Reread(1)];
            Run(start, steps) && After(start, steps).calls[1].phase == Uncounted &&
            1 in After(start, steps).tokens && After(start, steps).tokens[1].usage == 0
  {
    var start := Start(map[1 := Token(Active, false, Some(1), 1, None, 0, None)], 0, 0);
    RunSnoc(start, [], Arrive(1, 1));
    assert [] + [Arrive(1, 1)] == [Arrive(1, 1)];
    RunSnoc(start, [Arrive(1, 1)], Update(1));
    assert [Arrive(1, 1)] + [Update(1)] == [Arrive(1, 1), Update(1)];
    RunSnoc(start, [Arrive(1, 1), Update(1)], ResetToken(1));
    assert [Arrive(1, 1), Update(1)] + [ResetToken(1)] == [Arrive(1, 1), Update(1), ResetToken(1)];
    RunSnoc(start, [Arrive(1, 1), Update(1), ResetToken(1)], Reread(1));
    assert [Arrive(1, 1), Update(1), ResetToken(1)] + [Reread(1)] ==
           [Arrive(1, 1), Update(1), ResetToken(1), Reread(1)];
  }

  // ---------- the monthly counter ----------

  // The uses of a month since the counter was last cleared, on top of those there before.
  function UsesIn(history: seq<Event>, id: TokenId, month: int, before: int): int {
    if history == [] then before else
      var sofar := UsesIn(history[..|history| - 1], id, month, before);
      match history[|history| - 1]
      case Used(who, when) => if who == id && when == month then sofar + 1 else sofar
      case Cleared(who) => if who == id then 0 else sofar
  }

  // What the start contributes to a month.
  function Carried(tokens: Tokens, id: TokenId, month: int): int {
    if id in tokens then CurrentMonthlyUsage(tokens[id], month) else 0
  }

  ghost predicate MonthIsTrue(start: Tokens, s: State, id: TokenId) {
    id in s.tokens ==>
      (s.tokens[id].period.Some? ==> s.tokens[id].period.value <= s.month) &&
      forall month | month >= s.month ::
        CurrentMonthlyUsage(s.tokens[id], month) == UsesIn(s.history, id, month, Carried(start, id, month))
  }

  lemma {:induction false} StepKeepsMonth(start: Tokens, s: State, step: Step, id: TokenId)
    requires Enabled(s, step) && MonthIsTrue(start, s, id)
    ensures MonthIsTrue(start, Apply(s, step), id)
  {
    var t := Apply(s, step);
    if t.history != s.history {
      assert t.history[..|t.history| - 1] == s.history;
    }
    forall month | id in t.tokens && month >= t.month
      ensures CurrentMonthlyUsage(t.tokens[id], month) == UsesIn(t.history, id, month, Carried(start, id, month))
    {
      assert CurrentMonthlyUsage(s.tokens[id], month) == UsesIn(s.history, id, month, Carried(start, id, month));
    }
  }

  // The current month's count shown for a token is the number of uses recorded in this month since the
  // last reset, whatever happened before and however months passed.
  lemma {:induction false} MonthlyCountIsTrue(tokens: Tokens, now: int, month: int, steps: seq<Step>, id: TokenId)
    requires Run(Start(tokens, now, month), steps) && id in tokens
    requires tokens[id].period.Some? ==> tokens[id].period.value <= month
    ensures MonthIsTrue(tokens, After(Start(tokens, now, month), steps), id)
    ensures var s := After(Start(tokens, now, month), steps);
            id in s.tokens &&
            CurrentMonthlyUsage(s.tokens[id], s.month) == UsesIn(s.history, id, s.month, Carried(tokens, id, s.month))
  {
    if steps != [] {
      MonthlyCountIsTrue(tokens, now, month, steps[..|steps| - 1], id);
      StepKeepsMonth(tokens, After(Start(tokens, now, month), steps[..|steps| - 1]), steps[|steps| - 1], id);
    }
  }

  // ---------- what puts a token out of use, and back ----------

  // The calls let through so far, counted or not.
  function Admissions(s: State, id: TokenId): set<CallId> {
    set c | c in s.calls && s.calls[c].id == id && (s.calls[c].phase == Counted || s.calls[c].phase == Uncounted)
  }

  // The call waits for its update, and its token is neither deleted nor stopped.
  ghost predicate Waiting(s: State, c: CallId) {
    c in s.calls && s.calls[c].phase == Arrived && s.calls[c].id in s.tokens &&
    !s.tokens[s.calls[c].id].deleted && s.tokens[s.calls[c].id].status == Active
  }

  // What a call that arrived is told when it goes on now.
  ghost function Asked(s: State, c: CallId): Phase
    requires c in s.calls && s.calls[c].phase == Arrived
  {
    var t := Apply(s, Update(c));
    if t.calls[c].phase == Missed then Apply(t, Reread(c)).calls[c].phase else t.calls[c].phase
  }

  predicate OutOfUse(tokens: Tokens, id: TokenId) {
    id in tokens ==> tokens[id].deleted || tokens[id].status != Active
  }

  lemma {:induction false} OutOfUseAdmitsNobody(s: State, steps: seq<Step>, id: TokenId)
    requires Run(s, steps) && OutOfUse(s.tokens, id)
    ensures OutOfUse(After(s, steps).tokens, id) && Admissions(After(s, steps), id) == Admissions(s, id)
  {
    if steps != [] {
      OutOfUseAdmitsNobody(s, steps[..|steps| - 1], id);
    }
  }

  // A token can be revoked at any time, and from then on no call of it is let through: calls that had arrived
  // or missed before included, whatever else happens. One that was waiting is told so.
  lemma {:induction false} RevokedIsFinal(s: State, id: TokenId, more: seq<Step>)
    ensures Enabled(s, RevokeToken(id))
    ensures var t := Apply(s, RevokeToken(id));
            Run(t, more) ==> Admissions(After(t, more), id) == Admissions(s, id)
    ensures forall c :: Waiting(s, c) && s.calls[c].id == id ==>
              Asked(Apply(s, RevokeToken(id)), c) == Refused(Stopped)
  {
    var t := Apply(s, RevokeToken(id));
    if Run(t, more) {
      OutOfUseAdmitsNobody(t, more, id);
    }
  }

  // The same for deleting.
  lemma {:induction false} DeletedIsFinal(s: State, id: TokenId, more: seq<Step>)
    ensures Enabled(s, DeleteToken(id))
    ensures var t := Apply(s, DeleteToken(id));
            Run(t, more) ==> Admissions(After(t, more), id) == Admissions(s, id)
    ensures forall c :: Waiting(s, c) && s.calls[c].id == id ==>
              Asked(Apply(s, DeleteToken(id)), c) == Refused(Invalid)
  {
    var t := Apply(s, DeleteToken(id));
    if Run(t, more) {
      OutOfUseAdmitsNobody(t, more, id);
    }
  }

  // Lifting both limits admits a waiting call, however often the token was used; a limit left out stays.
  lemma LiftedLimitsAdmit(s: State, c: CallId)
    requires Waiting(s, c)
    ensures var id := s.calls[c].id;
            && Enabled(s, EditToken(id, Some(None), Some(None))) && Enabled(s, EditToken(id, None, None))
            && Apply(s, EditToken(id, None, None)).tokens == s.tokens
            && Asked(Apply(s, EditToken(id, Some(None), Some(None))), c) == Counted
    ensures var id := s.calls[c].id;
            && Apply(s, EditToken(id, Some(None), None)).tokens[id] == s.tokens[id].(maximum := None)
            && Apply(s, EditToken(id, None, Some(None))).tokens[id] == s.tokens[id].(expiresAt := None)
  {
  }

  // When time passes an expiry, a waiting call misses and is refused as expired.
  lemma TimeExpiresTokens(s: State, c: CallId, elapsed: nat, months: nat)
    requires Waiting(s, c)
    requires var token := s.tokens[s.calls[c].id]; token.expiresAt.Some? && token.expiresAt.value < s.now + elapsed
    ensures Enabled(s, Tick(elapsed, months))
    ensures Waiting(Apply(s, Tick(elapsed, months)), c)
    ensures Asked(Apply(s, Tick(elapsed, months)), c) == Refused(Expired)
  {
  }

  // A use shows at once, a reset clears both counters, and a new month starts at zero.
  lemma UsesShow(s: State, id: TokenId, elapsed: nat, months: nat)
    requires Alive(s.tokens, id)
    ensures Enabled(s, RecordUsage(id)) && Enabled(s, ResetToken(id)) && Enabled(s, Tick(elapsed, months))
    ensures var used := Apply(s, RecordUsage(id));
            CurrentMonthlyUsage(used.tokens[id], used.month) == CurrentMonthlyUsage(s.tokens[id], s.month) + 1
    ensures var cleared := Apply(s, ResetToken(id));
            CurrentMonthlyUsage(cleared.tokens[id], cleared.month) == 0 == cleared.tokens[id].usage
    ensures var later := Apply(s, Tick(elapsed, months));
            s.tokens[id].period == Some(s.month) && months > 0 ==>
              CurrentMonthlyUsage(later.tokens[id], later.month) == 0
  {
  }
}
