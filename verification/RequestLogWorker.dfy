/**
  The workers that consume the request log queue, as a machine whose steps are
  single database commands. Attempts at one job may run side by side, stop
  between any two commands, be retried, go to the dead-letter queue, or meet a
  row the API wrote itself when it could not enqueue. At any moment a worker
  may start and rebuild the recent metrics from the rows that are there.
*/
module RequestLogWorker {
  import opened Options
  import opened Metrics

  type RequestId = int
  type AttemptId = int

  datatype PayloadState = Pending | Indexed | FailedPayload | Unavailable

  // Who runs: the log worker, the dead-letter worker, or the API falling back to a direct write.
  datatype Runner = Worker | DeadLetter | Fallback

  // The command an attempt issues next.
  datatype Stage = Writing | Recording | Counting | Indexing | Marking

  datatype Attempt = Attempt(requestId: RequestId, runner: Runner, stage: Stage)

  // How a request stood when a rebuild last covered its day.
  datatype Rebuilt = Rebuilt(
    present: nat, pending: nat, recorded: nat, inserted: nat, deleted: nat, lost: nat, silent: nat)

  // What has happened to each request, counted.
  datatype Ledger = Ledger(
    recorded: multiset<RequestId>,    // completions recorded
    counted: multiset<RequestId>,     // monthly counts made
    inserted: multiset<RequestId>,    // rows inserted
    silent: multiset<RequestId>,      // rows inserted by the fallback or the dead-letter worker
    deleted: multiset<RequestId>,     // rows removed by retention
    lost: multiset<RequestId>,        // attempts stopped between insert and recording
    uncounted: multiset<RequestId>)   // attempts stopped between recording and monthly count

  // What the metrics tables stand for.
  datatype Books = Books(
    tally: seq<RequestId>,            // the requests they count, as often as they count them
    base: Tables,                     // what is left of the tables the run began with
    rebuilt: map<RequestId, Rebuilt>,
    reconciled: bool)                 // some rebuild has happened

  datatype State = State(
    rows: map<RequestId, PayloadState>,
    metrics: Tables,
    attempts: map<AttemptId, Attempt>,
    ledger: Ledger,
    books: Books)

  datatype Step =
    | Start(a: AttemptId, requestId: RequestId, runner: Runner)
    | Advance(a: AttemptId)
    | Stop(a: AttemptId)
    | MarkState(requestId: RequestId, payloadState: PayloadState)
    | DeleteRow(requestId: RequestId)
    | Reconcile(listing: seq<RequestId>, cutoffDay: int)

  // What every job carries is fixed when its request completes.
  type Jobs = map<RequestId, LogRow>

  function Initial(metrics: Tables): State {
    State(map[], metrics, map[],
          Ledger(multiset{}, multiset{}, multiset{}, multiset{}, multiset{}, multiset{}, multiset{}),
          Books([], metrics, map[], false))
  }

  function SpineState(runner: Runner): PayloadState {
    match runner
    case Worker => Pending
    case DeadLetter => FailedPayload
    case Fallback => Unavailable
  }

  function Marked(rows: map<RequestId, PayloadState>, r: RequestId, payloadState: PayloadState)
    : map<RequestId, PayloadState>
  {
    if r in rows then rows[r := payloadState] else rows
  }

  predicate Enabled(jobs: Jobs, s: State, step: Step) {
    match step
    case Start(a, r, _) => a !in s.attempts && r in jobs
    case Advance(a) => a in s.attempts && s.attempts[a].requestId in jobs
    case Stop(a) => a in s.attempts
    case MarkState(_, _) => true
    case DeleteRow(r) => r in s.rows
    // The rebuild reads the rows in some order.
    case Reconcile(listing, _) => multiset(listing) == multiset(s.rows.Keys) && forall r <- listing :: r in jobs
  }

  function MoveTo(s: State, a: AttemptId, stage: Stage): map<AttemptId, Attempt>
    requires a in s.attempts
  {
    s.attempts[a := s.attempts[a].(stage := stage)]
  }

  // INSERT ... ON CONFLICT DO NOTHING. Only the log worker looks at whether the row was new.
  function Write(s: State, a: AttemptId): State
    requires a in s.attempts
  {
    var r, runner := s.attempts[a].requestId, s.attempts[a].runner;
    var isNew := r !in s.rows;
    s.(rows := if isNew then s.rows[r := SpineState(runner)] else s.rows,
       ledger := s.ledger.(
         inserted := if isNew then s.ledger.inserted + multiset{r} else s.ledger.inserted,
         silent := if isNew && runner != Worker then s.ledger.silent + multiset{r} else s.ledger.silent),
       attempts := if runner == Fallback then s.attempts - {a}
                   else MoveTo(s, a, if isNew && runner == Worker then Recording else Indexing))
  }

  function Record(jobs: Jobs, s: State, a: AttemptId): State
    requires a in s.attempts && s.attempts[a].requestId in jobs
  {
    var r := s.attempts[a].requestId;
    s.(metrics := Complete(s.metrics, jobs[r]),
       ledger := s.ledger.(recorded := s.ledger.recorded + multiset{r}),
       books := s.books.(tally := s.books.tally + [r]),
       attempts := MoveTo(s, a, if jobs[r].accessTokenId.Some? then Counting else Indexing))
  }

  function Issue(jobs: Jobs, s: State, a: AttemptId): State
    requires a in s.attempts && s.attempts[a].requestId in jobs
  {
    match s.attempts[a].stage
    case Writing => Write(s, a)
    case Recording => Record(jobs, s, a)
    case Counting =>
      s.(ledger := s.ledger.(counted := s.ledger.counted + multiset{s.attempts[a].requestId}),
         attempts := MoveTo(s, a, Indexing))
    case Indexing => s.(attempts := MoveTo(s, a, Marking))
    case Marking => s.(rows := Marked(s.rows, s.attempts[a].requestId, Indexed), attempts := s.attempts - {a})
  }

  // A stopped attempt, crashed or thrown out of, never resumes: the retry is a new attempt.
  function Halt(s: State, a: AttemptId): State
    requires a in s.attempts
  {
    var r := s.attempts[a].requestId;
    s.(attempts := s.attempts - {a},
       ledger := s.ledger.(
         lost := if s.attempts[a].stage == Recording then s.ledger.lost + multiset{r} else s.ledger.lost,
         uncounted := if s.attempts[a].stage == Counting then s.ledger.uncounted + multiset{r} else s.ledger.uncounted))
  }

  function At(attempts: map<AttemptId, Attempt>, stage: Stage, r: RequestId): set<AttemptId> {
    set a | a in attempts && attempts[a].stage == stage && attempts[a].requestId == r
  }

  function Present(rows: map<RequestId, PayloadState>, r: RequestId): nat {
    if r in rows then 1 else 0
  }

  predicate Recent(jobs: Jobs, r: RequestId, cutoffDay: int) {
    r in jobs && InWindow(jobs[r], cutoffDay)
  }

  function RecentIds(jobs: Jobs, ids: seq<RequestId>, cutoffDay: int): seq<RequestId> {
    if ids == [] then [] else
      var before, last := RecentIds(jobs, ids[..|ids| - 1], cutoffDay), ids[|ids| - 1];
      if Recent(jobs, last, cutoffDay) then before + [last] else before
  }

  function OlderIds(jobs: Jobs, ids: seq<RequestId>, cutoffDay: int): seq<RequestId> {
    if ids == [] then [] else
      var before, last := OlderIds(jobs, ids[..|ids| - 1], cutoffDay), ids[|ids| - 1];
      if Recent(jobs, last, cutoffDay) then before else before + [last]
  }

  function JobRows(jobs: Jobs, ids: seq<RequestId>): seq<LogRow>
    requires forall r <- ids :: r in jobs
  {
    if ids == [] then [] else
      var last := ids[|ids| - 1];
      assert last in ids;
      JobRows(jobs, ids[..|ids| - 1]) + [jobs[last]]
  }

  function StandingOf(s: State, r: RequestId): Rebuilt {
    Rebuilt(Present(s.rows, r), |At(s.attempts, Recording, r)|, s.ledger.recorded[r], s.ledger.inserted[r],
            s.ledger.deleted[r], s.ledger.lost[r], s.ledger.silent[r])
  }

  // A worker starts: the recent days are rebuilt from the rows present.
  function Rebuilding(jobs: Jobs, s: State, listing: seq<RequestId>, cutoffDay: int): State
    requires forall r <- listing :: r in jobs
  {
    s.(metrics := Rebuild(s.metrics, JobRows(jobs, listing), cutoffDay),
       books := Books(
         OlderIds(jobs, s.books.tally, cutoffDay) + RecentIds(jobs, listing, cutoffDay),
         Tables(RpcBefore(s.books.base.rpc, cutoffDay), DeviceBefore(s.books.base.device, cutoffDay)),
         map r | r in s.books.rebuilt.Keys + jobs.Keys && (r in s.books.rebuilt || Recent(jobs, r, cutoffDay)) ::
           if Recent(jobs, r, cutoffDay) then StandingOf(s, r) else s.books.rebuilt[r],
         true))
  }

  function Apply(jobs: Jobs, s: State, step: Step): State
    requires Enabled(jobs, s, step)
  {
    match step
    case Start(a, r, runner) => s.(attempts := s.attempts[a := Attempt(r, runner, Writing)])
    case Advance(a) => Issue(jobs, s, a)
    case Stop(a) => Halt(s, a)
    case MarkState(r, payloadState) => s.(rows := Marked(s.rows, r, payloadState))
    case DeleteRow(r) =>
      s.(rows := s.rows - {r}, ledger := s.ledger.(deleted := s.ledger.deleted + multiset{r}))
    case Reconcile(listing, cutoffDay) => Rebuilding(jobs, s, listing, cutoffDay)
  }

  ghost predicate Run(jobs: Jobs, start: State, steps: seq<Step>)
    decreases |steps|, 0
  {
    steps == [] ||
    (Run(jobs, start, steps[..|steps| - 1]) &&
     Enabled(jobs, After(jobs, start, steps[..|steps| - 1]), steps[|steps| - 1]))
  }

  ghost function After(jobs: Jobs, start: State, steps: seq<Step>): State
    requires Run(jobs, start, steps)
    decreases |steps|, 1
  {
    if steps == [] then start else Apply(jobs, After(jobs, start, steps[..|steps| - 1]), steps[|steps| - 1])
  }

  // ---------- the accounts ----------

  function Times(ids: seq<RequestId>, r: RequestId): nat {
    multiset(ids)[r]
  }

  // Every row inserted is still there or was deleted.
  ghost predicate RowsAccounted(s: State, r: RequestId) {
    s.ledger.inserted[r] == Present(s.rows, r) + s.ledger.deleted[r]
  }

  // Every row inserted was recorded, is about to be, was lost with its attempt, or came from elsewhere.
  ghost predicate InsertsAccounted(s: State, r: RequestId) {
    s.ledger.inserted[r] ==
    s.ledger.recorded[r] + |At(s.attempts, Recording, r)| + s.ledger.lost[r] + s.ledger.silent[r]
  }

  // Every completion recorded for a request with a token was counted, is about to be, or was lost with its attempt.
  ghost predicate CountsAccounted(jobs: Jobs, s: State, r: RequestId) {
    s.ledger.counted[r] + |At(s.attempts, Counting, r)| + s.ledger.uncounted[r] ==
    if r in jobs && jobs[r].accessTokenId.Some? then s.ledger.recorded[r] else 0
  }

  // A rebuild counts a request once if its row was present; every completion recorded since counts once more.
  ghost predicate TallyAccounted(s: State, r: RequestId) {
    Times(s.books.tally, r) ==
    if r in s.books.rebuilt then s.books.rebuilt[r].present + s.ledger.recorded[r] - s.books.rebuilt[r].recorded
    else s.ledger.recorded[r]
  }

  // What a rebuild found was accounted for, and has only grown since.
  ghost predicate RebuiltAccounted(s: State, r: RequestId) {
    r in s.books.rebuilt ==>
      var found := s.books.rebuilt[r];
      found.inserted == found.present + found.deleted &&
      found.inserted == found.recorded + found.pending + found.lost + found.silent && found.present <= 1 &&
      found.recorded <= s.ledger.recorded[r] && found.inserted <= s.ledger.inserted[r] &&
      found.deleted <= s.ledger.deleted[r] &&
      found.lost <= s.ledger.lost[r] && found.silent <= s.ledger.silent[r] &&
      s.ledger.silent[r] - found.silent <= s.ledger.inserted[r] - found.inserted
  }

  ghost predicate RequestAccounted(jobs: Jobs, s: State, r: RequestId) {
    RowsAccounted(s, r) && InsertsAccounted(s, r) && CountsAccounted(jobs, s, r) && TallyAccounted(s, r) &&
    RebuiltAccounted(s, r)
  }

  predicate ClientsNamed(jobs: Jobs) {
    forall r <- jobs :: jobs[r].clientId != Some(EMPTY_NAME)
  }

  // The metrics tables are what the counted jobs make of what is left of the tables the run began with; the
  // device table only while no rebuild has met a client without a name.
  ghost predicate MetricsAccounted(jobs: Jobs, s: State) {
    (forall r <- s.books.tally :: r in jobs) &&
    s.metrics.rpc == UpsertAll(s.books.base.rpc, JobRows(jobs, s.books.tally), RpcKeyFor) &&
    (ClientsNamed(jobs) || !s.books.reconciled ==>
       s.metrics.device == UpsertAll(s.books.base.device, JobRows(jobs, s.books.tally), RecordedDevice))
  }

  // Nothing has been added to what the run began with.
  ghost predicate BaseShrinks(before: Tables, s: State) {
    (forall k <- s.books.base.rpc :: k in before.rpc && s.books.base.rpc[k] == before.rpc[k]) &&
    (forall k <- s.books.base.device :: k in before.device && s.books.base.device[k] == before.device[k])
  }

  ghost predicate Accounted(jobs: Jobs, before: Tables, s: State) {
    (forall r :: RequestAccounted(jobs, s, r)) && MetricsAccounted(jobs, s) && BaseShrinks(before, s)
  }

  // ---------- one step ----------

  lemma Moved(s: State, a: AttemptId, to: Stage, stage: Stage, r: RequestId)
    requires a in s.attempts
    ensures At(MoveTo(s, a, to), stage, r) ==
            if to == stage && s.attempts[a].requestId == r then At(s.attempts, stage, r) + {a}
            else At(s.attempts, stage, r) - {a}
  {
  }

  lemma Removed(s: State, a: AttemptId, stage: Stage, r: RequestId)
    ensures At(s.attempts - {a}, stage, r) == At(s.attempts, stage, r) - {a}
  {
  }

  // A first insert by the worker puts its attempt before the recording, and nothing else moves there.
  lemma WriteMoves(s: State, a: AttemptId, r: RequestId)
    requires a in s.attempts && s.attempts[a].stage == Writing
    ensures var records := s.attempts[a].requestId == r && r !in s.rows && s.attempts[a].runner == Worker;
            |At(Write(s, a).attempts, Recording, r)| == |At(s.attempts, Recording, r)| + (if records then 1 else 0)
    ensures At(Write(s, a).attempts, Counting, r) == At(s.attempts, Counting, r)
  {
    var stage := if s.attempts[a].requestId !in s.rows && s.attempts[a].runner == Worker then Recording else Indexing;
    Moved(s, a, stage, Recording, r);
    Moved(s, a, stage, Counting, r);
    Removed(s, a, Recording, r);
    Removed(s, a, Counting, r);
    assert a !in At(s.attempts, Recording, r) && a !in At(s.attempts, Counting, r);
  }

  lemma WriteKeepsAccounts(jobs: Jobs, s: State, a: AttemptId, r: RequestId)
    requires a in s.attempts && s.attempts[a].stage == Writing && RequestAccounted(jobs, s, r)
    ensures RequestAccounted(jobs, Write(s, a), r)
  {
    WriteMoves(s, a, r);
    var t := Write(s, a);
    assert t.books == s.books && t.ledger.recorded == s.ledger.recorded;
  }

  // The recording moves its attempt on, to the count when there is a token.
  lemma RecordMoves(jobs: Jobs, s: State, a: AttemptId, r: RequestId)
    requires a in s.attempts && s.attempts[a].requestId in jobs && s.attempts[a].stage == Recording
    ensures var mine := s.attempts[a].requestId == r;
            var t := Record(jobs, s, a);
            && |At(s.attempts, Recording, r)| == |At(t.attempts, Recording, r)| + (if mine then 1 else 0)
            && |At(t.attempts, Counting, r)| ==
               |At(s.attempts, Counting, r)| + (if mine && jobs[r].accessTokenId.Some? then 1 else 0)
            && Times(t.books.tally, r) == Times(s.books.tally, r) + (if mine then 1 else 0)
  {
    var mine := s.attempts[a].requestId;
    var stage := if jobs[mine].accessTokenId.Some? then Counting else Indexing;
    Moved(s, a, stage, Recording, r);
    Moved(s, a, stage, Counting, r);
    assert a !in At(s.attempts, Counting, r);
    assert a in At(s.attempts, Recording, r) <==> mine == r;
    assert Times(s.books.tally + [mine], r) == Times(s.books.tally, r) + if mine == r then 1 else 0;
  }

  lemma RecordKeepsAccounts(jobs: Jobs, s: State, a: AttemptId, r: RequestId)
    requires a in s.attempts && s.attempts[a].requestId in jobs && s.attempts[a].stage == Recording
    requires RequestAccounted(jobs, s, r)
    ensures RequestAccounted(jobs, Record(jobs, s, a), r)
  {
    RecordMoves(jobs, s, a, r);
    var t := Record(jobs, s, a);
    assert t.rows == s.rows && t.books.rebuilt == s.books.rebuilt;
  }

  lemma CountKeepsAccounts(jobs: Jobs, s: State, a: AttemptId, r: RequestId)
    requires a in s.attempts && s.attempts[a].requestId in jobs && s.attempts[a].stage == Counting
    requires RequestAccounted(jobs, s, r)
    ensures RequestAccounted(jobs, Issue(jobs, s, a), r)
  {
    Moved(s, a, Indexing, Recording, r);
    Moved(s, a, Indexing, Counting, r);
    assert a !in At(s.attempts, Recording, r);
    assert a in At(s.attempts, Counting, r) <==> s.attempts[a].requestId == r;
  }

  lemma LateStagesKeepAccounts(jobs: Jobs, s: State, a: AttemptId, r: RequestId)
    requires a in s.attempts && s.attempts[a].requestId in jobs
    requires s.attempts[a].stage == Indexing || s.attempts[a].stage == Marking
    requires RequestAccounted(jobs, s, r)
    ensures RequestAccounted(jobs, Issue(jobs, s, a), r)
  {
    Moved(s, a, Marking, Recording, r);
    Moved(s, a, Marking, Counting, r);
    Removed(s, a, Recording, r);
    Removed(s, a, Counting, r);
    assert a !in At(s.attempts, Recording, r) && a !in At(s.attempts, Counting, r);
  }

  lemma HaltKeepsAccounts(jobs: Jobs, s: State, a: AttemptId, r: RequestId)
    requires a in s.attempts && RequestAccounted(jobs, s, r)
    ensures RequestAccounted(jobs, Halt(s, a), r)
  {
    Removed(s, a, Recording, r);
    Removed(s, a, Counting, r);
    assert a in At(s.attempts, Recording, r) <==> s.attempts[a].stage == Recording && s.attempts[a].requestId == r;
    assert a in At(s.attempts, Counting, r) <==> s.attempts[a].stage == Counting && s.attempts[a].requestId == r;
  }

  lemma {:induction false} TimesRecent(jobs: Jobs, ids: seq<RequestId>, cutoffDay: int, r: RequestId)
    ensures Times(RecentIds(jobs, ids, cutoffDay), r) == if Recent(jobs, r, cutoffDay) then Times(ids, r) else 0
  {
    if ids != [] {
      var before, last := ids[..|ids| - 1], ids[|ids| - 1];
      TimesRecent(jobs, before, cutoffDay, r);
      assert ids == before + [last];
      assert Times(ids, r) == Times(before, r) + if last == r then 1 else 0;
      var recent := RecentIds(jobs, before, cutoffDay);
      assert Times(recent + [last], r) == Times(recent, r) + if last == r then 1 else 0;
    }
  }

  lemma {:induction false} TimesOlder(jobs: Jobs, ids: seq<RequestId>, cutoffDay: int, r: RequestId)
    ensures Times(OlderIds(jobs, ids, cutoffDay), r) == if Recent(jobs, r, cutoffDay) then 0 else Times(ids, r)
  {
    if ids != [] {
      var before, last := ids[..|ids| - 1], ids[|ids| - 1];
      TimesOlder(jobs, before, cutoffDay, r);
      assert ids == before + [last];
      assert Times(ids, r) == Times(before, r) + if last == r then 1 else 0;
      var older := OlderIds(jobs, before, cutoffDay);
      assert Times(older + [last], r) == Times(older, r) + if last == r then 1 else 0;
    }
  }

  // A rebuild counts a recent request as often as its row is there, and leaves the others as they were.
  lemma RebuildingTally(jobs: Jobs, s: State, listing: seq<RequestId>, cutoffDay: int, r: RequestId)
    requires Enabled(jobs, s, Reconcile(listing, cutoffDay))
    ensures Times(Rebuilding(jobs, s, listing, cutoffDay).books.tally, r) ==
            if Recent(jobs, r, cutoffDay) then Present(s.rows, r) else Times(s.books.tally, r)
  {
    TimesRecent(jobs, listing, cutoffDay, r);
    TimesOlder(jobs, s.books.tally, cutoffDay, r);
    assert Times(listing, r) == Present(s.rows, r);
    var older, recent := OlderIds(jobs, s.books.tally, cutoffDay), RecentIds(jobs, listing, cutoffDay);
    assert Times(older + recent, r) == Times(older, r) + Times(recent, r);
  }

  lemma RebuildingStandings(jobs: Jobs, s: State, listing: seq<RequestId>, cutoffDay: int, r: RequestId)
    requires Enabled(jobs, s, Reconcile(listing, cutoffDay))
    ensures var t := Rebuilding(jobs, s, listing, cutoffDay);
            && t.rows == s.rows && t.attempts == s.attempts && t.ledger == s.ledger
            && (r in t.books.rebuilt <==> r in s.books.rebuilt || Recent(jobs, r, cutoffDay))
            && (r in t.books.rebuilt ==>
                  t.books.rebuilt[r] == if Recent(jobs, r, cutoffDay) then StandingOf(s, r) else s.books.rebuilt[r])
  {
  }

  lemma RebuildingKeepsAccounts(jobs: Jobs, s: State, listing: seq<RequestId>, cutoffDay: int, r: RequestId)
    requires Enabled(jobs, s, Reconcile(listing, cutoffDay)) && RequestAccounted(jobs, s, r)
    ensures RequestAccounted(jobs, Rebuilding(jobs, s, listing, cutoffDay), r)
  {
    RebuildingTally(jobs, s, listing, cutoffDay, r);
    RebuildingStandings(jobs, s, listing, cutoffDay, r);
  }

  lemma StepKeepsAccounts(jobs: Jobs, s: State, step: Step, r: RequestId)
    requires Enabled(jobs, s, step) && RequestAccounted(jobs, s, r)
    ensures RequestAccounted(jobs, Apply(jobs, s, step), r)
  {
    match step {
      case Start(a, _, _) =>
        assert At(Apply(jobs, s, step).attempts, Recording, r) == At(s.attempts, Recording, r);
        assert At(Apply(jobs, s, step).attempts, Counting, r) == At(s.attempts, Counting, r);
      case Advance(a) =>
        match s.attempts[a].stage {
          case Writing => WriteKeepsAccounts(jobs, s, a, r);
          case Recording => RecordKeepsAccounts(jobs, s, a, r);
          case Counting => CountKeepsAccounts(jobs, s, a, r);
          case Indexing => LateStagesKeepAccounts(jobs, s, a, r);
          case Marking => LateStagesKeepAccounts(jobs, s, a, r);
        }
      case Stop(a) => HaltKeepsAccounts(jobs, s, a, r);
      case MarkState(_, _) =>
      case DeleteRow(_) =>
      case Reconcile(listing, cutoffDay) => RebuildingKeepsAccounts(jobs, s, listing, cutoffDay, r);
    }
  }

  // ---------- the tables ----------

  lemma {:induction false} JobRowsAppend(jobs: Jobs, a: seq<RequestId>, b: seq<RequestId>)
    requires forall r <- a + b :: r in jobs
    requires forall r <- a :: r in jobs
    requires forall r <- b :: r in jobs
    ensures JobRows(jobs, a + b) == JobRows(jobs, a) + JobRows(jobs, b)
  {
    if b == [] {
      assert a + b == a;
    } else {
      var n := |b| - 1;
      assert (a + b)[..|a + b| - 1] == a + b[..n];
      JobRowsAppend(jobs, a, b[..n]);
    }
  }

  lemma JobRowsSnoc(jobs: Jobs, ids: seq<RequestId>, r: RequestId)
    requires forall id <- ids :: id in jobs
    requires r in jobs
    ensures forall id <- ids + [r] :: id in jobs
    ensures JobRows(jobs, ids + [r]) == JobRows(jobs, ids) + [jobs[r]]
  {
    assert (ids + [r])[..|ids|] == ids;
  }

  lemma {:induction false} RowsOfRecent(jobs: Jobs, ids: seq<RequestId>, cutoffDay: int)
    requires forall r <- ids :: r in jobs
    ensures forall r <- RecentIds(jobs, ids, cutoffDay) :: r in jobs
    ensures JobRows(jobs, RecentIds(jobs, ids, cutoffDay)) == Window(JobRows(jobs, ids), cutoffDay)
  {
    if ids != [] {
      var before, last := ids[..|ids| - 1], ids[|ids| - 1];
      assert last in ids;
      assert forall r <- before :: r in ids;
      RowsOfRecent(jobs, before, cutoffDay);
      WindowSnoc(JobRows(jobs, before), jobs[last], cutoffDay);
      if Recent(jobs, last, cutoffDay) {
        JobRowsSnoc(jobs, RecentIds(jobs, before, cutoffDay), last);
      }
    }
  }

  lemma {:induction false} RowsOfOlder(jobs: Jobs, ids: seq<RequestId>, cutoffDay: int)
    requires forall r <- ids :: r in jobs
    ensures forall r <- OlderIds(jobs, ids, cutoffDay) :: r in jobs
    ensures JobRows(jobs, OlderIds(jobs, ids, cutoffDay)) == Outside(JobRows(jobs, ids), cutoffDay)
  {
    if ids != [] {
      var before, last := ids[..|ids| - 1], ids[|ids| - 1];
      assert last in ids;
      assert forall r <- before :: r in ids;
      RowsOfOlder(jobs, before, cutoffDay);
      WindowSnoc(JobRows(jobs, before), jobs[last], cutoffDay);
      if !Recent(jobs, last, cutoffDay) {
        JobRowsSnoc(jobs, OlderIds(jobs, before, cutoffDay), last);
      }
    }
  }

  lemma {:induction false} RowsAreJobs(jobs: Jobs, ids: seq<RequestId>)
    requires forall r <- ids :: r in jobs
    ensures forall row <- JobRows(jobs, ids) :: exists r <- ids :: row == jobs[r]
  {
    if ids != [] {
      RowsAreJobs(jobs, ids[..|ids| - 1]);
      assert ids[|ids| - 1] in ids;
    }
  }

  lemma RowsOfTally(jobs: Jobs, tally: seq<RequestId>, listing: seq<RequestId>, cutoffDay: int)
    requires forall r <- tally :: r in jobs
    requires forall r <- listing :: r in jobs
    ensures forall r <- OlderIds(jobs, tally, cutoffDay) + RecentIds(jobs, listing, cutoffDay) :: r in jobs
    ensures JobRows(jobs, OlderIds(jobs, tally, cutoffDay) + RecentIds(jobs, listing, cutoffDay)) ==
            Outside(JobRows(jobs, tally), cutoffDay) + Window(JobRows(jobs, listing), cutoffDay)
  {
    RowsOfOlder(jobs, tally, cutoffDay);
    RowsOfRecent(jobs, listing, cutoffDay);
    JobRowsAppend(jobs, OlderIds(jobs, tally, cutoffDay), RecentIds(jobs, listing, cutoffDay));
  }

  lemma RebuildingKeepsMetrics(jobs: Jobs, s: State, listing: seq<RequestId>, cutoffDay: int)
    requires Enabled(jobs, s, Reconcile(listing, cutoffDay)) && MetricsAccounted(jobs, s)
    ensures MetricsAccounted(jobs, Rebuilding(jobs, s, listing, cutoffDay))
  {
    RowsOfTally(jobs, s.books.tally, listing, cutoffDay);
    RebuildOfRpcFold(s.books.base.rpc, JobRows(jobs, s.books.tally), JobRows(jobs, listing), cutoffDay);
    if ClientsNamed(jobs) {
      RowsAreJobs(jobs, listing);
      RebuildOfDeviceFold(s.books.base.device, JobRows(jobs, s.books.tally), JobRows(jobs, listing), cutoffDay);
    }
  }

  lemma RecordKeepsMetrics(jobs: Jobs, s: State, a: AttemptId)
    requires a in s.attempts && s.attempts[a].requestId in jobs && MetricsAccounted(jobs, s)
    ensures MetricsAccounted(jobs, Record(jobs, s, a))
  {
    var r := s.attempts[a].requestId;
    assert (s.books.tally + [r])[..|s.books.tally|] == s.books.tally;
    var rows := JobRows(jobs, s.books.tally);
    assert JobRows(jobs, s.books.tally + [r]) == rows + [jobs[r]];
    assert (rows + [jobs[r]])[..|rows|] == rows;
  }

  lemma {:induction false} StepKeepsMetrics(jobs: Jobs, before: Tables, s: State, step: Step)
    requires Enabled(jobs, s, step) && MetricsAccounted(jobs, s) && BaseShrinks(before, s)
    ensures MetricsAccounted(jobs, Apply(jobs, s, step)) && BaseShrinks(before, Apply(jobs, s, step))
  {
    if step.Advance? && s.attempts[step.a].stage == Recording {
      RecordKeepsMetrics(jobs, s, step.a);
    } else if step.Reconcile? {
      RebuildingKeepsMetrics(jobs, s, step.listing, step.cutoffDay);
    } else {
      var t := Apply(jobs, s, step);
      assert t.books == s.books && t.metrics == s.metrics;
    }
  }

  lemma {:induction false} RunIsAccounted(jobs: Jobs, before: Tables, steps: seq<Step>)
    requires Run(jobs, Initial(before), steps)
    ensures Accounted(jobs, before, After(jobs, Initial(before), steps))
  {
    if steps == [] {
      assert forall stage, r :: At(map[], stage, r) == {};
    } else {
      var s := After(jobs, Initial(before), steps[..|steps| - 1]);
      var step := steps[|steps| - 1];
      RunIsAccounted(jobs, before, steps[..|steps| - 1]);
      StepKeepsMetrics(jobs, before, s, step);
      forall r
        ensures RequestAccounted(jobs, Apply(jobs, s, step), r)
      {
        assert RequestAccounted(jobs, s, r);
        StepKeepsAccounts(jobs, s, step, r);
      }
    }
  }

  // ---------- the theorems ----------

  // How many attempts the last rebuild over a request's day met between insert and recording.
  function CaughtPending(s: State, r: RequestId): nat {
    if r in s.books.rebuilt then s.books.rebuilt[r].pending else 0
  }

  // The last rebuild over the request's day found its row.
  predicate Covered(s: State, r: RequestId) {
    r in s.books.rebuilt && s.books.rebuilt[r].present == 1
  }

  // In every run a request adds to its token's monthly count at most once while its log row has never been
  // removed, and once more per removal. It counts in its day's totals at most that often too, and once more
  // for each attempt the last rebuild caught between insert and recording; the tables are the fold of what
  // counts.
  lemma {:induction false} CountedAtMostOncePerRetention(jobs: Jobs, before: Tables, steps: seq<Step>, r: RequestId)
    requires Run(jobs, Initial(before), steps)
    ensures var s := After(jobs, Initial(before), steps);
            s.ledger.counted[r] <= s.ledger.recorded[r] <= 1 + s.ledger.deleted[r] &&
            Times(s.books.tally, r) <= 1 + s.ledger.deleted[r] + CaughtPending(s, r)
    ensures var s := After(jobs, Initial(before), steps);
            (forall id <- s.books.tally :: id in jobs) &&
            s.metrics.rpc == UpsertAll(s.books.base.rpc, JobRows(jobs, s.books.tally), RpcKeyFor)
  {
    RunIsAccounted(jobs, before, steps);
    assert RequestAccounted(jobs, After(jobs, Initial(before), steps), r);
  }

  // How often exactly a request whose row was never removed counts, once no attempt is about to record it:
  // not at all when its row came from elsewhere or its attempt stopped before recording and no rebuild has
  // covered the row; twice when the last rebuild over its day found the row and the attempt that inserted it
  // recorded it afterwards; once otherwise.
  lemma {:induction false} CountsExactly(jobs: Jobs, before: Tables, steps: seq<Step>, r: RequestId)
    requires Run(jobs, Initial(before), steps)
    requires var s := After(jobs, Initial(before), steps);
             r in s.rows && s.ledger.deleted[r] == 0 && At(s.attempts, Recording, r) == {}
    ensures var s := After(jobs, Initial(before), steps);
            Times(s.books.tally, r) <= 2 &&
            (Times(s.books.tally, r) == 0 <==> s.ledger.silent[r] + s.ledger.lost[r] == 1 && !Covered(s, r)) &&
            (Times(s.books.tally, r) == 2 <==> Covered(s, r) && CaughtPending(s, r) == 1 && s.ledger.lost[r] == 0)
  {
    RunIsAccounted(jobs, before, steps);
    assert RequestAccounted(jobs, After(jobs, Initial(before), steps), r);
  }

  // Without a rebuild over its day a request is missing exactly when its row came from elsewhere or the
  // attempt that inserted it stopped before recording.
  lemma {:induction false} MissingIffSilentOrLost(jobs: Jobs, before: Tables, steps: seq<Step>, r: RequestId)
    requires Run(jobs, Initial(before), steps)
    requires var s := After(jobs, Initial(before), steps);
             s.ledger.inserted[r] == 1 && At(s.attempts, Recording, r) == {} && r !in s.books.rebuilt
    ensures var s := After(jobs, Initial(before), steps);
            r !in s.books.tally <==> s.ledger.silent[r] + s.ledger.lost[r] == 1
  {
    RunIsAccounted(jobs, before, steps);
    assert RequestAccounted(jobs, After(jobs, Initial(before), steps), r);
  }

  // Right after a rebuild every recent request counts exactly as often as its row is there: lost and double
  // counts are repaired.
  lemma {:induction false} RebuildRepairs(jobs: Jobs, before: Tables, steps: seq<Step>, listing: seq<RequestId>,
                                          cutoffDay: int, r: RequestId)
    requires Run(jobs, Initial(before), steps)
    requires Enabled(jobs, After(jobs, Initial(before), steps), Reconcile(listing, cutoffDay))
    requires Recent(jobs, r, cutoffDay)
    ensures var s := After(jobs, Initial(before), steps);
            Times(Rebuilding(jobs, s, listing, cutoffDay).books.tally, r) == Present(s.rows, r)
  {
    var s := After(jobs, Initial(before), steps);
    TimesRecent(jobs, listing, cutoffDay, r);
    TimesOlder(jobs, s.books.tally, cutoffDay, r);
    assert Times(listing, r) == Present(s.rows, r);
  }

  // Every request counts as often as its row is there.
  ghost predicate Settled(s: State) {
    forall r :: Times(s.books.tally, r) == Present(s.rows, r)
  }

  lemma {:induction false} JobRowsPermute(jobs: Jobs, a: seq<RequestId>, b: seq<RequestId>)
    requires forall r <- a :: r in jobs
    requires forall r <- b :: r in jobs
    requires multiset(a) == multiset(b)
    ensures multiset(JobRows(jobs, a)) == multiset(JobRows(jobs, b))
    decreases |b|
  {
    if b == [] {
      assert |multiset(a)| == 0;
    } else {
      var n := |b| - 1;
      assert b[n] in multiset(a);
      var i :| 0 <= i < |a| && a[i] == b[n];
      WithoutOne(a, i);
      WithoutOne(b, n);
      JobRowsPermute(jobs, a[..i] + a[i + 1..], b[..n] + b[n + 1..]);
      JobRowsWithoutOne(jobs, a, i);
      JobRowsWithoutOne(jobs, b, n);
    }
  }

  lemma JobRowsWithoutOne(jobs: Jobs, a: seq<RequestId>, i: nat)
    requires forall r <- a :: r in jobs
    requires i < |a|
    ensures multiset(JobRows(jobs, a)) == multiset(JobRows(jobs, a[..i] + a[i + 1..])) + multiset{jobs[a[i]]}
  {
    var front, one, back := a[..i], [a[i]], a[i + 1..];
    assert a == front + one + back;
    assert forall r <- front + one :: r in jobs;
    JobRowsAppend(jobs, front + one, back);
    JobRowsAppend(jobs, front, one);
    JobRowsAppend(jobs, front, back);
    assert one[..0] == [];
    assert JobRows(jobs, one) == [jobs[a[i]]];
  }

  // A settled tally is the listing of the rows, in some order.
  lemma {:induction false} SettledTallyIsListing(jobs: Jobs, s: State, listing: seq<RequestId>)
    requires Settled(s) && MetricsAccounted(jobs, s) && multiset(listing) == multiset(s.rows.Keys)
    ensures multiset(s.books.tally) == multiset(listing)
    ensures forall r <- listing :: r in jobs
  {
    forall r
      ensures multiset(s.books.tally)[r] == multiset(listing)[r]
    {
      assert Times(s.books.tally, r) == Present(s.rows, r);
    }
    assert multiset(s.books.tally) == multiset(listing);
    forall r <- listing
      ensures r in jobs
    {
      assert r in multiset(s.books.tally);
    }
  }

  // In a settled state, however it was reached, the tables are those a rebuild computes from the log rows
  // listed in any order; the device table exactly when no recent client is the empty string, as long as no
  // rebuild has met such a client before.
  lemma {:induction false} SettledMetricsAreTheRebuiltOnes(jobs: Jobs, before: Tables, steps: seq<Step>,
                                                           listing: seq<RequestId>, cutoffDay: int)
    requires Run(jobs, Initial(before), steps) && Settled(After(jobs, Initial(before), steps))
    requires multiset(listing) == multiset(After(jobs, Initial(before), steps).rows.Keys)
    requires DatedBefore(before, cutoffDay)
    ensures forall r <- listing :: r in jobs
    ensures var s := After(jobs, Initial(before), steps);
            Rebuild(s.metrics, JobRows(jobs, listing), cutoffDay).rpc == s.metrics.rpc &&
            (ClientsNamed(jobs) || !s.books.reconciled ==>
               (Rebuild(s.metrics, JobRows(jobs, listing), cutoffDay) == s.metrics <==>
                ClientsAreNamed(JobRows(jobs, listing), cutoffDay)))
  {
    RunIsAccounted(jobs, before, steps);
    var s := After(jobs, Initial(before), steps);
    SettledTallyIsListing(jobs, s, listing);
    JobRowsPermute(jobs, s.books.tally, listing);
    SettledTablesRebuild(jobs, s, listing, cutoffDay);
  }

  lemma {:induction false} SettledTablesRebuild(jobs: Jobs, s: State, listing: seq<RequestId>, cutoffDay: int)
    requires MetricsAccounted(jobs, s) && DatedBefore(s.books.base, cutoffDay)
    requires forall r <- listing :: r in jobs
    requires multiset(JobRows(jobs, s.books.tally)) == multiset(JobRows(jobs, listing))
    ensures Rebuild(s.metrics, JobRows(jobs, listing), cutoffDay).rpc == s.metrics.rpc
    ensures ClientsNamed(jobs) || !s.books.reconciled ==>
              (Rebuild(s.metrics, JobRows(jobs, listing), cutoffDay) == s.metrics <==>
               ClientsAreNamed(JobRows(jobs, listing), cutoffDay))
  {
    var rows := JobRows(jobs, listing);
    CompletionOrderIsIrrelevant(s.books.base, JobRows(jobs, s.books.tally), rows);
    CompleteAllByTable(s.books.base, JobRows(jobs, s.books.tally));
    CompleteAllByTable(s.books.base, rows);
    RecentRpcIsGroupBy(s.books.base, rows, cutoffDay);
    RebuildIsNoOpIff(s.books.base, rows, cutoffDay);
  }

  // ---------- three runs ----------

  lemma RunSnoc(jobs: Jobs, start: State, steps: seq<Step>, step: Step)
    requires Run(jobs, start, steps) && Enabled(jobs, After(jobs, start, steps), step)
    ensures Run(jobs, start, steps + [step])
    ensures After(jobs, start, steps + [step]) == Apply(jobs, After(jobs, start, steps), step)
  {
    assert (steps + [step])[..|steps|] == steps;
  }

  lemma InsertedBy1(jobs: Jobs, before: Tables, r: RequestId)
    requires r in jobs
    ensures var steps := [Start(1, r, Worker), Advance(1)];
            Run(jobs, Initial(before), steps) &&
            After(jobs, Initial(before), steps) ==
              Initial(before).(rows := map[r := Pending], attempts := map[1 := Attempt(r, Worker, Recording)],
                               ledger := Initial(before).ledger.(inserted := multiset{r}))
  {
    var start := Initial(before);
    RunSnoc(jobs, start, [], Start(1, r, Worker));
    assert [] + [Start(1, r, Worker)] == [Start(1, r, Worker)];
    assert After(jobs, start, [Start(1, r, Worker)]) == start.(attempts := map[1 := Attempt(r, Worker, Writing)]);
    RunSnoc(jobs, start, [Start(1, r, Worker)], Advance(1));
    assert [Start(1, r, Worker)] + [Advance(1)] == [Start(1, r, Worker), Advance(1)];
  }

  // A worker that stops right after its insert leaves the request uncounted, and no retry helps: it finds
  // the row. Only a rebuild counts it again.
  lemma LostCompletion(jobs: Jobs, before: Tables, r: RequestId)
    requires r in jobs
    ensures var steps := [Start(1, r, Worker), Advance(1), Stop(1),
                          Start(2, r, Worker), Advance(2), Advance(2), Advance(2)];
            Run(jobs, Initial(before), steps) &&
            After(jobs, Initial(before), steps).rows == map[r := Indexed] &&
            After(jobs, Initial(before), steps).books.tally == [] &&
            After(jobs, Initial(before), steps).metrics == before
  {
    var start := Initial(before);
    InsertedBy1(jobs, before, r);
    RunSnoc(jobs, start, [Start(1, r, Worker), Advance(1)], Stop(1));
    assert [Start(1, r, Worker), Advance(1)] + [Stop(1)] == [Start(1, r, Worker), Advance(1), Stop(1)];
    RetryRecordsNothing(jobs, start, [Start(1, r, Worker), Advance(1), Stop(1)], r);
    assert [Start(1, r, Worker), Advance(1), Stop(1)] + [Start(2, r, Worker), Advance(2), Advance(2), Advance(2)] ==
           [Start(1, r, Worker), Advance(1), Stop(1), Start(2, r, Worker), Advance(2), Advance(2), Advance(2)];
  }

  lemma RetryRecordsNothing(jobs: Jobs, start: State, sofar: seq<Step>, r: RequestId)
    requires r in jobs && Run(jobs, start, sofar)
    requires After(jobs, start, sofar).rows == map[r := Pending] && After(jobs, start, sofar).attempts == map[]
    ensures var steps := sofar + [Start(2, r, Worker), Advance(2), Advance(2), Advance(2)];
            Run(jobs, start, steps) &&
            After(jobs, start, steps) == After(jobs, start, sofar).(rows := map[r := Indexed])
  {
    var steps := sofar + [Start(2, r, Worker)] + [Advance(2)];
    RetryFindsTheRow(jobs, start, sofar, r);
    RunSnoc(jobs, start, steps, Advance(2));
    RunSnoc(jobs, start, steps + [Advance(2)], Advance(2));
    assert steps + [Advance(2)] + [Advance(2)] == sofar + [Start(2, r, Worker), Advance(2), Advance(2), Advance(2)];
  }

  lemma RetryFindsTheRow(jobs: Jobs, start: State, sofar: seq<Step>, r: RequestId)
    requires r in jobs && Run(jobs, start, sofar)
    requires After(jobs, start, sofar).rows == map[r := Pending] && After(jobs, start, sofar).attempts == map[]
    ensures var steps := sofar + [Start(2, r, Worker)] + [Advance(2)];
            Run(jobs, start, steps) &&
            After(jobs, start, steps) == After(jobs, start, sofar).(attempts := map[2 := Attempt(r, Worker, Indexing)])
  {
    var s := After(jobs, start, sofar);
    RunSnoc(jobs, start, sofar, Start(2, r, Worker));
    assert After(jobs, start, sofar + [Start(2, r, Worker)]) == s.(attempts := map[2 := Attempt(r, Worker, Writing)]);
    RunSnoc(jobs, start, sofar + [Start(2, r, Worker)], Advance(2));
  }

  // A rebuild after the loss counts the request once.
  lemma RebuildBringsItBack(jobs: Jobs, before: Tables, r: RequestId, cutoffDay: int)
    requires Recent(jobs, r, cutoffDay)
    ensures var steps := [Start(1, r, Worker), Advance(1), Stop(1), Reconcile([r], cutoffDay)];
            Run(jobs, Initial(before), steps) && After(jobs, Initial(before), steps).books.tally == [r]
  {
    var start := Initial(before);
    InsertedBy1(jobs, before, r);
    RunSnoc(jobs, start, [Start(1, r, Worker), Advance(1)], Stop(1));
    assert [Start(1, r, Worker), Advance(1)] + [Stop(1)] == [Start(1, r, Worker), Advance(1), Stop(1)];
    var stopped := After(jobs, start, [Start(1, r, Worker), Advance(1), Stop(1)]);
    OneRow(stopped.rows, r);
    RunSnoc(jobs, start, [Start(1, r, Worker), Advance(1), Stop(1)], Reconcile([r], cutoffDay));
    assert [Start(1, r, Worker), Advance(1), Stop(1)] + [Reconcile([r], cutoffDay)] ==
           [Start(1, r, Worker), Advance(1), Stop(1), Reconcile([r], cutoffDay)];
    OnlyRecent(jobs, r, cutoffDay);
  }

  lemma RebuildInBetween(jobs: Jobs, before: Tables, r: RequestId, cutoffDay: int)
    requires Recent(jobs, r, cutoffDay)
    ensures var steps := [Start(1, r, Worker), Advance(1), Reconcile([r], cutoffDay)];
            Run(jobs, Initial(before), steps) && After(jobs, Initial(before), steps).books.tally == [r] &&
            After(jobs, Initial(before), steps).attempts == map[1 := Attempt(r, Worker, Recording)]
  {
    var start := Initial(before);
    InsertedBy1(jobs, before, r);
    OneRow(After(jobs, start, [Start(1, r, Worker), Advance(1)]).rows, r);
    RunSnoc(jobs, start, [Start(1, r, Worker), Advance(1)], Reconcile([r], cutoffDay));
    assert [Start(1, r, Worker), Advance(1)] + [Reconcile([r], cutoffDay)] ==
           [Start(1, r, Worker), Advance(1), Reconcile([r], cutoffDay)];
    OnlyRecent(jobs, r, cutoffDay);
  }

  // A rebuild between the insert and the recording makes the request count twice, until the next rebuild.
  lemma RebuildInBetweenCountsTwice(jobs: Jobs, before: Tables, r: RequestId, cutoffDay: int)
    requires Recent(jobs, r, cutoffDay)
    ensures var steps := [Start(1, r, Worker), Advance(1), Reconcile([r], cutoffDay), Advance(1)];
            Run(jobs, Initial(before), steps) && After(jobs, Initial(before), steps).books.tally == [r, r]
  {
    var sofar := [Start(1, r, Worker), Advance(1), Reconcile([r], cutoffDay)];
    RebuildInBetween(jobs, before, r, cutoffDay);
    RunSnoc(jobs, Initial(before), sofar, Advance(1));
    assert sofar + [Advance(1)] == [Start(1, r, Worker), Advance(1), Reconcile([r], cutoffDay), Advance(1)];
    assert [r] + [r] == [r, r];
  }

  lemma OneRow(rows: map<RequestId, PayloadState>, r: RequestId)
    requires rows == map[r := Pending]
    ensures multiset([r]) == multiset(rows.Keys)
  {
    assert rows.Keys == {r};
  }

  lemma OnlyRecent(jobs: Jobs, r: RequestId, cutoffDay: int)
    requires Recent(jobs, r, cutoffDay)
    ensures OlderIds(jobs, [], cutoffDay) + RecentIds(jobs, [r], cutoffDay) == [r]
  {
    assert [r][..0] == [];
  }

  // ---------- payload states ----------

  // A new row begins pending when the worker wrote it, failed when the dead-letter worker did and unavailable
  // when the API did itself; a row that is there keeps its state.
  lemma RowsBeginByTheirWriter(jobs: Jobs, s: State, a: AttemptId)
    requires Enabled(jobs, s, Advance(a)) && s.attempts[a].stage == Writing
    ensures var r := s.attempts[a].requestId;
            var t := Apply(jobs, s, Advance(a));
            && (r in s.rows ==> t.rows == s.rows)
            && (r !in s.rows ==>
                  t.rows == s.rows[r := if s.attempts[a].runner == Worker then Pending
                                        else if s.attempts[a].runner == DeadLetter then FailedPayload
                                        else Unavailable])
            && t.attempts == if s.attempts[a].runner == Fallback then s.attempts - {a}
                             else s.attempts[a := Attempt(r, s.attempts[a].runner,
                                    if r !in s.rows && s.attempts[a].runner == Worker then Recording else Indexing)]
  {
  }

  // States change at any time, of existing rows only, and leave the metrics and accounts alone; an attempt that
  // has indexed its payload ends with its row indexed.
  lemma StatesAreMarked(jobs: Jobs, s: State, r: RequestId, payloadState: PayloadState, a: AttemptId)
    ensures Enabled(jobs, s, MarkState(r, payloadState))
    ensures Apply(jobs, s, MarkState(r, payloadState)) ==
            if r in s.rows then s.(rows := s.rows[r := payloadState]) else s
    ensures Enabled(jobs, s, Advance(a)) && s.attempts[a].stage == Marking ==>
              var t := Apply(jobs, s, Advance(a));
              t.rows.Keys == s.rows.Keys && a !in t.attempts &&
              (s.attempts[a].requestId in s.rows ==> t.rows[s.attempts[a].requestId] == Indexed)
  {
  }
}
