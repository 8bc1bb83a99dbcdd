/**
  The cache-aside protocol for one key: readers that get, load and set in
  separate steps, writers that write and delete in separate steps, any number
  of both at once, a cache that expires, fails or holds garbage, and one clock.
*/
module CacheAside {
  import opened Options

  type Value = int
  type CallId = int

  // A cached text is a value of the expected shape, JSON the schema rejects, or no JSON at all.
  datatype Entry = Good(value: Value, expiresAt: int) | Malformed(expiresAt: int) | Unreadable(expiresAt: int)

  datatype Phase =
    | Getting
    | Purging
    | Loading
    | Loaded(value: Value, loadedAt: int)
    | Returned(value: Value, returnedAt: int)
    | Threw

  // The bounds on a cached value's life and on the delay from a load to the SET that follows it.
  datatype Limits = Limits(timeToLive: nat, delay: nat)

  datatype State = State(
    stored: Value, cache: Option<Entry>, now: int, readers: map<CallId, Phase>, writers: set<CallId>)

  datatype Step =
    | Read(c: CallId)
    | Get(c: CallId, fails: bool)
    | Purge(c: CallId, fails: bool)
    | Load(c: CallId, throws: bool)
    | Set(c: CallId, timeToLive: nat, fails: bool)
    | Write(w: CallId, value: Value)
    | Delete(w: CallId, fails: bool)
    | Corrupt(garbage: Entry)
    | Tick(elapsed: nat)

  function Initial(stored: Value, now: int): State {
    State(stored, None, now, map[], {})
  }

  predicate ReaderIn(s: State, c: CallId, phase: Phase) {
    c in s.readers && s.readers[c] == phase
  }

  // No reader may sit on a loaded value longer than the delay allows.
  predicate MayTick(limits: Limits, s: State, elapsed: nat) {
    forall c <- s.readers :: s.readers[c].Loaded? ==> s.now + elapsed <= s.readers[c].loadedAt + limits.delay
  }

  predicate Enabled(limits: Limits, s: State, step: Step) {
    match step
    case Read(c) => c !in s.readers
    case Get(c, _) => ReaderIn(s, c, Getting)
    case Purge(c, _) => ReaderIn(s, c, Purging)
    case Load(c, _) => ReaderIn(s, c, Loading)
    case Set(c, timeToLive, _) => c in s.readers && s.readers[c].Loaded? && timeToLive <= limits.timeToLive
    case Write(w, _) => w !in s.writers
    case Delete(w, _) => w in s.writers
    case Corrupt(garbage) => !garbage.Good?
    case Tick(elapsed) => MayTick(limits, s, elapsed)
  }

  predicate Live(s: State) {
    s.cache.Some? && s.cache.value.expiresAt > s.now
  }

  function Enter(s: State, c: CallId, phase: Phase): State {
    s.(readers := s.readers[c := phase])
  }

  // A failed read and an unreadable text count as a miss, and so does a malformed one, which is deleted first.
  function AfterGet(s: State, c: CallId, fails: bool): State {
    if fails || !Live(s) || s.cache.value.Unreadable? then Enter(s, c, Loading)
    else if s.cache.value.Malformed? then Enter(s, c, Purging)
    else Enter(s, c, Returned(s.cache.value.value, s.now))
  }

  function AfterSet(s: State, c: CallId, timeToLive: nat, fails: bool): State
    requires c in s.readers && s.readers[c].Loaded?
  {
    var value := s.readers[c].value;
    var done := Enter(s, c, Returned(value, s.now));
    if fails then done else done.(cache := Some(Good(value, s.now + timeToLive)))
  }

  function Apply(limits: Limits, s: State, step: Step): State
    requires Enabled(limits, s, step)
  {
    match step
    case Read(c) => Enter(s, c, Getting)
    case Get(c, fails) => AfterGet(s, c, fails)
    case Purge(c, fails) => Enter(if fails then s else s.(cache := None), c, Loading)
    case Load(c, throws) => Enter(s, c, if throws then Threw else Loaded(s.stored, s.now))
    case Set(c, timeToLive, fails) => AfterSet(s, c, timeToLive, fails)
    case Write(w, value) => s.(stored := value, writers := s.writers + {w})
    case Delete(w, fails) => s.(cache := if fails then s.cache else None, writers := s.writers - {w})
    case Corrupt(garbage) => s.(cache := Some(garbage))
    case Tick(elapsed) => s.(now := s.now + elapsed)
  }

  ghost predicate Run(limits: Limits, start: State, steps: seq<Step>)
    decreases |steps|, 0
  {
    steps == [] ||
    (Run(limits, start, steps[..|steps| - 1]) &&
     Enabled(limits, After(limits, start, steps[..|steps| - 1]), steps[|steps| - 1]))
  }

  ghost function After(limits: Limits, start: State, steps: seq<Step>): State
    requires Run(limits, start, steps)
    decreases |steps|, 1
  {
    if steps == [] then start else
      Apply(limits, After(limits, start, steps[..|steps| - 1]), steps[|steps| - 1])
  }

  lemma RunSnoc(limits: Limits, start: State, steps: seq<Step>, step: Step)
    requires Run(limits, start, steps) && Enabled(limits, After(limits, start, steps), step)
    ensures Run(limits, start, steps + [step])
    ensures After(limits, start, steps + [step]) == Apply(limits, After(limits, start, steps), step)
  {
    assert (steps + [step])[..|steps|] == steps;
  }

  // ---------- how old a value may be ----------

  // After some prefix of the run the stored value was this one, at a time no earlier than `from`.
  ghost predicate StoredSince(limits: Limits, start: State, steps: seq<Step>, value: Value, from: int) {
    exists k | 0 <= k <= |steps| :: MomentOf(limits, start, steps[..k], value, from)
  }

  ghost predicate MomentOf(limits: Limits, start: State, prefix: seq<Step>, value: Value, from: int) {
    Run(limits, start, prefix) && After(limits, start, prefix).stored == value &&
    After(limits, start, prefix).now >= from
  }

  lemma StoredSinceLonger(limits: Limits, start: State, steps: seq<Step>, step: Step, value: Value, from: int,
                          later: int)
    requires StoredSince(limits, start, steps, value, from) && later <= from
    ensures StoredSince(limits, start, steps + [step], value, later)
  {
    var k :| 0 <= k <= |steps| && MomentOf(limits, start, steps[..k], value, from);
    assert (steps + [step])[..k] == steps[..k];
    assert MomentOf(limits, start, (steps + [step])[..k], value, later);
  }

  lemma StoredNow(limits: Limits, start: State, steps: seq<Step>)
    requires Run(limits, start, steps)
    ensures StoredSince(limits, start, steps, After(limits, start, steps).stored, After(limits, start, steps).now)
  {
    assert steps[..|steps|] == steps;
    assert MomentOf(limits, start, steps[..|steps|], After(limits, start, steps).stored,
                    After(limits, start, steps).now);
  }

  ghost predicate CacheIsRecent(limits: Limits, start: State, steps: seq<Step>, cache: Option<Entry>) {
    cache.Some? && cache.value.Good? ==>
      StoredSince(limits, start, steps, cache.value.value, cache.value.expiresAt - limits.timeToLive - limits.delay)
  }

  ghost predicate PhaseIsRecent(limits: Limits, start: State, steps: seq<Step>, phase: Phase, now: int) {
    match phase
    case Loaded(value, loadedAt) =>
      now <= loadedAt + limits.delay && StoredSince(limits, start, steps, value, loadedAt)
    case Returned(value, returnedAt) =>
      StoredSince(limits, start, steps, value, returnedAt - limits.timeToLive - limits.delay)
    case Getting => true
    case Purging => true
    case Loading => true
    case Threw => true
  }

  ghost predicate ReaderIsRecent(limits: Limits, start: State, steps: seq<Step>, s: State, c: CallId) {
    c in s.readers ==> PhaseIsRecent(limits, start, steps, s.readers[c], s.now)
  }

  ghost predicate Recent(limits: Limits, start: State, steps: seq<Step>, s: State) {
    CacheIsRecent(limits, start, steps, s.cache) && forall c :: ReaderIsRecent(limits, start, steps, s, c)
  }

  lemma CacheStaysRecent(limits: Limits, start: State, steps: seq<Step>, step: Step)
    requires Run(limits, start, steps + [step]) && Run(limits, start, steps)
    requires Enabled(limits, After(limits, start, steps), step) &&
             Recent(limits, start, steps, After(limits, start, steps))
    ensures CacheIsRecent(limits, start, steps + [step], Apply(limits, After(limits, start, steps), step).cache)
  {
    var s := After(limits, start, steps);
    var t := Apply(limits, s, step);
    if t.cache.Some? && t.cache.value.Good? {
      var e := t.cache.value;
      if step.Set? && !step.fails {
        var phase := s.readers[step.c];
        assert ReaderIsRecent(limits, start, steps, s, step.c);
        StoredSinceLonger(limits, start, steps, step, phase.value, phase.loadedAt,
                          e.expiresAt - limits.timeToLive - limits.delay);
      } else {
        assert t.cache == s.cache;
        var from := e.expiresAt - limits.timeToLive - limits.delay;
        StoredSinceLonger(limits, start, steps, step, e.value, from, from);
      }
    }
  }

  // The reader that takes the step.
  lemma ActorStaysRecent(limits: Limits, start: State, steps: seq<Step>, step: Step)
    requires Run(limits, start, steps) && Enabled(limits, After(limits, start, steps), step)
    requires Recent(limits, start, steps, After(limits, start, steps))
    requires step.Read? || step.Get? || step.Purge? || step.Load? || step.Set?
    ensures ReaderIsRecent(limits, start, steps + [step], Apply(limits, After(limits, start, steps), step), step.c)
  {
    var s := After(limits, start, steps);
    var t := Apply(limits, s, step);
    if step.Get? {
      if t.readers[step.c].Returned? {
        var e := s.cache.value;
        StoredSinceLonger(limits, start, steps, step, e.value, e.expiresAt - limits.timeToLive - limits.delay,
                          s.now - limits.timeToLive - limits.delay);
      }
    } else if step.Load? {
      StoredNow(limits, start, steps);
      StoredSinceLonger(limits, start, steps, step, s.stored, s.now, s.now);
    } else if step.Set? {
      var phase := s.readers[step.c];
      assert ReaderIsRecent(limits, start, steps, s, step.c);
      StoredSinceLonger(limits, start, steps, step, phase.value, phase.loadedAt,
                        s.now - limits.timeToLive - limits.delay);
    }
  }

  lemma OthersStayRecent(limits: Limits, start: State, steps: seq<Step>, step: Step, c: CallId)
    requires Run(limits, start, steps) && Enabled(limits, After(limits, start, steps), step)
    requires ReaderIsRecent(limits, start, steps, After(limits, start, steps), c)
    requires var s, t := After(limits, start, steps), Apply(limits, After(limits, start, steps), step);
             c in t.readers ==> c in s.readers && t.readers[c] == s.readers[c]
    ensures ReaderIsRecent(limits, start, steps + [step], Apply(limits, After(limits, start, steps), step), c)
  {
    var s := After(limits, start, steps);
    if c in s.readers {
      var phase := s.readers[c];
      if phase.Loaded? {
        StoredSinceLonger(limits, start, steps, step, phase.value, phase.loadedAt, phase.loadedAt);
      } else if phase.Returned? {
        var from := phase.returnedAt - limits.timeToLive - limits.delay;
        StoredSinceLonger(limits, start, steps, step, phase.value, from, from);
      }
    }
  }

  predicate Acts(step: Step, c: CallId) {
    (step.Read? || step.Get? || step.Purge? || step.Load? || step.Set?) && step.c == c
  }

  lemma {:induction false} RunIsRecent(limits: Limits, start: State, steps: seq<Step>)
    requires start == Initial(start.stored, start.now) && Run(limits, start, steps)
    ensures Recent(limits, start, steps, After(limits, start, steps))
  {
    if steps != [] {
      var before, step := steps[..|steps| - 1], steps[|steps| - 1];
      RunIsRecent(limits, start, before);
      assert steps == before + [step];
      CacheStaysRecent(limits, start, before, step);
      forall c
        ensures ReaderIsRecent(limits, start, steps, After(limits, start, steps), c)
      {
        assert ReaderIsRecent(limits, start, before, After(limits, start, before), c);
        if Acts(step, c) {
          ActorStaysRecent(limits, start, before, step);
        } else {
          OthersStayRecent(limits, start, before, step, c);
        }
      }
    }
  }

  // Whatever overlaps, a value returned at a time was the stored value at some moment of the run no
  // earlier than the time to live and the load delay before.
  lemma {:induction false} ReturnedValueIsRecent(limits: Limits, stored: Value, now: int, steps: seq<Step>, c: CallId)
    requires Run(limits, Initial(stored, now), steps)
    requires c in After(limits, Initial(stored, now), steps).readers
    requires After(limits, Initial(stored, now), steps).readers[c].Returned?
    ensures var phase := After(limits, Initial(stored, now), steps).readers[c];
            StoredSince(limits, Initial(stored, now), steps, phase.value,
                        phase.returnedAt - limits.timeToLive - limits.delay)
  {
    RunIsRecent(limits, Initial(stored, now), steps);
    assert ReaderIsRecent(limits, Initial(stored, now), steps, After(limits, Initial(stored, now), steps), c);
  }

  // ---------- operations one after the other ----------

  predicate Busy(phase: Phase) {
    !phase.Returned? && !phase.Threw?
  }

  predicate Idle(s: State) {
    s.writers == {} && forall c <- s.readers :: !Busy(s.readers[c])
  }

  // Operations begin only when none is under way, and deletions succeed.
  predicate Orderly(s: State, step: Step) {
    ((step.Read? || step.Write?) ==> Idle(s)) && (step.Delete? ==> !step.fails)
  }

  ghost predicate OrderlyRun(limits: Limits, start: State, steps: seq<Step>)
    requires Run(limits, start, steps)
    decreases |steps|
  {
    steps == [] ||
    (OrderlyRun(limits, start, steps[..|steps| - 1]) &&
     Orderly(After(limits, start, steps[..|steps| - 1]), steps[|steps| - 1]))
  }

  ghost predicate CacheIsCurrent(s: State) {
    s.writers == {} && s.cache.Some? && s.cache.value.Good? ==> s.cache.value.value == s.stored
  }

  ghost predicate OneAtATime(s: State) {
    (forall c <- s.readers :: Busy(s.readers[c]) ==> s.writers == {}) &&
    (forall c, d | c in s.readers && d in s.readers :: Busy(s.readers[c]) && Busy(s.readers[d]) ==> c == d) &&
    (forall v, w | v in s.writers && w in s.writers :: v == w)
  }

  ghost predicate LoadsAreCurrent(s: State) {
    forall c <- s.readers :: s.readers[c].Loaded? ==> s.readers[c].value == s.stored
  }

  lemma OrderlyStep(limits: Limits, s: State, step: Step)
    requires Enabled(limits, s, step) && Orderly(s, step)
    requires CacheIsCurrent(s) && OneAtATime(s) && LoadsAreCurrent(s)
    ensures CacheIsCurrent(Apply(limits, s, step)) && OneAtATime(Apply(limits, s, step))
    ensures LoadsAreCurrent(Apply(limits, s, step))
  {
  }

  lemma {:induction false} OrderlyRunIsCurrent(limits: Limits, start: State, steps: seq<Step>)
    requires start == Initial(start.stored, start.now) && Run(limits, start, steps) && OrderlyRun(limits, start, steps)
    ensures var s := After(limits, start, steps); CacheIsCurrent(s) && OneAtATime(s) && LoadsAreCurrent(s)
  {
    if steps != [] {
      OrderlyRunIsCurrent(limits, start, steps[..|steps| - 1]);
      OrderlyStep(limits, After(limits, start, steps[..|steps| - 1]), steps[|steps| - 1]);
    }
  }

  // When operations do not overlap and deletions succeed, a returned value is the stored one.
  lemma {:induction false} OrderlyReadsAreExact(limits: Limits, stored: Value, now: int, steps: seq<Step>, step: Step,
                                                c: CallId)
    requires Run(limits, Initial(stored, now), steps) && OrderlyRun(limits, Initial(stored, now), steps)
    requires var s := After(limits, Initial(stored, now), steps);
             Enabled(limits, s, step) && Acts(step, c) && Orderly(s, step) &&
             Apply(limits, s, step).readers[c].Returned?
    ensures var t := Apply(limits, After(limits, Initial(stored, now), steps), step);
            t.readers[c].value == t.stored && t.readers[c].returnedAt == t.now
  {
    OrderlyRunIsCurrent(limits, Initial(stored, now), steps);
    var s := After(limits, Initial(stored, now), steps);
    assert step.Get? ==> Busy(s.readers[c]);
  }

  // The bound is reached: a reader that loaded before a write and sets after its deletion brings the old
  // value back, and it is served until the time to live has passed.
  lemma OldValueComesBack(limits: Limits)
    requires limits.timeToLive > 0
    ensures var steps := [Read(1), Get(1, false), Load(1, false), Tick(limits.delay), Write(1, 2), Delete(1, false),
                          Set(1, limits.timeToLive, false), Tick(limits.timeToLive - 1), Read(2), Get(2, false)];
            Run(limits, Initial(1, 0), steps) &&
            2 in After(limits, Initial(1, 0), steps).readers &&
            After(limits, Initial(1, 0), steps).readers[2] == Returned(1, limits.delay + limits.timeToLive - 1) &&
            After(limits, Initial(1, 0), steps).stored == 2
  {
    var start := Initial(1, 0);
    var steps := [];
    RunSnoc(limits, start, steps, Read(1));
    steps := steps + [Read(1)];
    RunSnoc(limits, start, steps, Get(1, false));
    steps := steps + [Get(1, false)];
    RunSnoc(limits, start, steps, Load(1, false));
    steps := steps + [Load(1, false)];
    assert After(limits, start, steps) == State(1, None, 0, map[1 := Loaded(1, 0)], {});
    RunSnoc(limits, start, steps, Tick(limits.delay));
    steps := steps + [Tick(limits.delay)];
    RunSnoc(limits, start, steps, Write(1, 2));
    steps := steps + [Write(1, 2)];
    RunSnoc(limits, start, steps, Delete(1, false));
    steps := steps + [Delete(1, false)];
    assert After(limits, start, steps) == State(2, None, limits.delay, map[1 := Loaded(1, 0)], {});
    OldValueIsServed(limits, start, steps);
    assert steps + [Set(1, limits.timeToLive, false), Tick(limits.timeToLive - 1), Read(2), Get(2, false)] ==
           [Read(1), Get(1, false), Load(1, false), Tick(limits.delay), Write(1, 2), Delete(1, false),
            Set(1, limits.timeToLive, false), Tick(limits.timeToLive - 1), Read(2), Get(2, false)];
  }

  lemma OldValueIsServed(limits: Limits, start: State, sofar: seq<Step>)
    requires limits.timeToLive > 0 && Run(limits, start, sofar)
    requires After(limits, start, sofar) == State(2, None, limits.delay, map[1 := Loaded(1, 0)], {})
    ensures var steps := sofar +
                         [Set(1, limits.timeToLive, false), Tick(limits.timeToLive - 1), Read(2), Get(2, false)];
            Run(limits, start, steps) && 2 in After(limits, start, steps).readers &&
            After(limits, start, steps).readers[2] == Returned(1, limits.delay + limits.timeToLive - 1) &&
            After(limits, start, steps).stored == 2
  {
    var steps := sofar;
    RunSnoc(limits, start, steps, Set(1, limits.timeToLive, false));
    steps := steps + [Set(1, limits.timeToLive, false)];
    RunSnoc(limits, start, steps, Tick(limits.timeToLive - 1));
    steps := steps + [Tick(limits.timeToLive - 1)];
    RunSnoc(limits, start, steps, Read(2));
    steps := steps + [Read(2)];
    RunSnoc(limits, start, steps, Get(2, false));
    steps := steps + [Get(2, false)];
    assert steps == sofar + [Set(1, limits.timeToLive, false), Tick(limits.timeToLive - 1), Read(2), Get(2, false)];
  }
}
