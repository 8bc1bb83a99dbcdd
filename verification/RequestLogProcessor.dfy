/**
  The log worker and the spine table it writes, run without interruption. The
  machine in RequestLogWorker cuts the same commands apart.
*/
module RequestLogProcessor {
  import opened Metrics
  import opened RequestLogWorker
  import M = MetricsService
  import T = AccessTokenService
  import AccessTokens

  class RequestLogs {
    var rows: map<RequestId, PayloadState>

    constructor ()
      ensures rows == map[]
    {
      rows := map[];
    }

    method WriteSpine(requestId: RequestId, payloadState: PayloadState) returns (isNew: bool)
      modifies this
      ensures isNew == (requestId !in old(rows))
      ensures rows == if isNew then old(rows)[requestId := payloadState] else old(rows)
    {
      isNew := requestId !in rows;
      if isNew {
        rows := rows[requestId := payloadState];
      }
    }

    method MarkState(requestId: RequestId, payloadState: PayloadState)
      modifies this
      ensures rows == Marked(old(rows), requestId, payloadState)
    {
      if requestId in rows {
        rows := rows[requestId := payloadState];
      }
    }
  }

  function CountUse(tokens: AccessTokens.Tokens, job: LogRow, month: int): AccessTokens.Tokens {
    if job.accessTokenId.Some? then AccessTokens.RecordMonthlyUsage(tokens, job.accessTokenId.value, month) else tokens
  }

  class RequestLogProcessor {
    const logs: RequestLogs
    const metrics: M.MetricsService
    const tokens: T.AccessTokenService
    // Jobs handed over to the dead-letter queue.
    var deadLetters: seq<LogRow>

    constructor (logs: RequestLogs, metrics: M.MetricsService, tokens: T.AccessTokenService)
      ensures this.logs == logs && this.metrics == metrics && this.tokens == tokens && deadLetters == []
    {
      this.logs, this.metrics, this.tokens, deadLetters := logs, metrics, tokens, [];
    }

    // Indexing the payload may throw; the row then stays pending.
    method Process(job: LogRow, month: int, indexFails: bool) returns (completed: bool)
      modifies logs, metrics, tokens
      ensures completed == !indexFails
      ensures logs.rows ==
              if completed then old(logs.rows)[job.requestId := Indexed]
              else if job.requestId in old(logs.rows) then old(logs.rows)
              else old(logs.rows)[job.requestId := Pending]
      ensures metrics.Contents() ==
              if job.requestId in old(logs.rows) then old(metrics.Contents())
              else Complete(old(metrics.Contents()), job)
      ensures tokens.tokens ==
              if job.requestId in old(logs.rows) then old(tokens.tokens) else CountUse(old(tokens.tokens), job, month)
    {
      var isNew := logs.WriteSpine(job.requestId, Pending);
      if isNew {
        metrics.RecordCompletion(job);
        if job.accessTokenId.Some? {
          tokens.RecordMonthlyUsage(job.accessTokenId.value, month);
        }
      }
      if indexFails {
        return false;
      }
      logs.MarkState(job.requestId, Indexed);
      return true;
    }

    // The queue reports a failed attempt: only the last one marks the row and hands the job over.
    method OnFailed(job: LogRow, attemptsMade: nat, maximumAttempts: nat)
      modifies this`deadLetters, logs
      ensures attemptsMade < maximumAttempts ==> deadLetters == old(deadLetters) && logs.rows == old(logs.rows)
      ensures attemptsMade >= maximumAttempts ==>
                deadLetters == old(deadLetters) + [job] &&
                logs.rows == Marked(old(logs.rows), job.requestId, FailedPayload)
    {
      if attemptsMade < maximumAttempts {
        return;
      }
      logs.MarkState(job.requestId, FailedPayload);
      deadLetters := deadLetters + [job];
    }
  }

  // ---------- the machine's attempt, run to its end ----------

  function StagesLeft(s: State, a: AttemptId): nat {
    if a !in s.attempts then 0 else
      match s.attempts[a].stage
      case Writing => 5
      case Recording => 4
      case Counting => 3
      case Indexing => 2
      case Marking => 1
  }

  // One attempt issues all its commands with nothing in between.
  function Finish(jobs: Jobs, s: State, a: AttemptId): State
    requires a in s.attempts ==> s.attempts[a].requestId in jobs
    decreases StagesLeft(s, a)
  {
    if a !in s.attempts then s else Finish(jobs, Issue(jobs, s, a), a)
  }

  lemma RowAlreadyThere(jobs: Jobs, s: State, a: AttemptId)
    requires a in s.attempts && s.attempts[a].requestId in jobs &&
             s.attempts[a] == Attempt(s.attempts[a].requestId, Worker, Writing)
    requires s.attempts[a].requestId in s.rows
    ensures Finish(jobs, s, a) ==
            s.(rows := s.rows[s.attempts[a].requestId := Indexed], attempts := s.attempts - {a})
  {
    var written := Write(s, a);
    FinishSteps(jobs, s, a);
    LastStages(jobs, written, a);
    assert written.attempts - {a} == s.attempts - {a};
  }

  lemma RecordedThenFinished(jobs: Jobs, s: State, a: AttemptId)
    requires a in s.attempts && s.attempts[a].requestId in jobs && s.attempts[a].stage == Recording
    requires s.attempts[a].requestId in s.rows
    ensures var r := s.attempts[a].requestId;
            Finish(jobs, s, a) ==
            s.(rows := s.rows[r := Indexed], attempts := s.attempts - {a}, metrics := Complete(s.metrics, jobs[r]),
               ledger := s.ledger.(
                 recorded := s.ledger.recorded + multiset{r},
                 counted := if jobs[r].accessTokenId.Some? then s.ledger.counted + multiset{r} else s.ledger.counted),
               books := s.books.(tally := s.books.tally + [r]))
  {
    var recorded := Record(jobs, s, a);
    FinishSteps(jobs, s, a);
    if jobs[s.attempts[a].requestId].accessTokenId.Some? {
      var counted := Issue(jobs, recorded, a);
      FinishSteps(jobs, recorded, a);
      LastStages(jobs, counted, a);
      assert counted.attempts - {a} == s.attempts - {a};
    } else {
      LastStages(jobs, recorded, a);
      assert recorded.attempts - {a} == s.attempts - {a};
    }
  }

  lemma RowIsNew(jobs: Jobs, s: State, a: AttemptId)
    requires a in s.attempts && s.attempts[a].requestId in jobs &&
             s.attempts[a] == Attempt(s.attempts[a].requestId, Worker, Writing)
    requires s.attempts[a].requestId !in s.rows
    ensures var r := s.attempts[a].requestId;
            var t := Finish(jobs, s, a);
            t.rows == s.rows[r := Indexed] && t.attempts == s.attempts - {a} &&
            t.metrics == Complete(s.metrics, jobs[r]) &&
            t.ledger.counted == if jobs[r].accessTokenId.Some? then s.ledger.counted + multiset{r} else s.ledger.counted
  {
    var r := s.attempts[a].requestId;
    var written := Write(s, a);
    FinishSteps(jobs, s, a);
    RecordedThenFinished(jobs, written, a);
    assert written.attempts - {a} == s.attempts - {a};
    assert written.rows[r := Indexed] == s.rows[r := Indexed];
  }

  // An uninterrupted worker attempt of the machine does to the rows and the metrics what Process does.
  lemma UninterruptedAttempt(jobs: Jobs, s: State, a: AttemptId, r: RequestId)
    requires r in jobs && a !in s.attempts
    ensures var t := Finish(jobs, Apply(jobs, s, Start(a, r, Worker)), a);
            t.rows == s.rows[r := Indexed] && t.attempts == s.attempts &&
            t.metrics == (if r in s.rows then s.metrics else Complete(s.metrics, jobs[r])) &&
            t.ledger.counted ==
            s.ledger.counted + (if r !in s.rows && jobs[r].accessTokenId.Some? then multiset{r} else multiset{})
  {
    var begun := s.(attempts := s.attempts[a := Attempt(r, Worker, Writing)]);
    assert begun.attempts - {a} == s.attempts;
    if r in s.rows {
      RowAlreadyThere(jobs, begun, a);
    } else {
      RowIsNew(jobs, begun, a);
    }
  }

  lemma FinishSteps(jobs: Jobs, s: State, a: AttemptId)
    requires a in s.attempts && s.attempts[a].requestId in jobs
    ensures Finish(jobs, s, a) == Finish(jobs, Issue(jobs, s, a), a)
  {
  }

  lemma LastStages(jobs: Jobs, s: State, a: AttemptId)
    requires a in s.attempts && s.attempts[a].requestId in jobs && s.attempts[a].stage == Indexing
    requires s.attempts[a].requestId in s.rows
    ensures Finish(jobs, s, a) ==
            s.(rows := s.rows[s.attempts[a].requestId := Indexed], attempts := s.attempts - {a})
  {
    var marking := Issue(jobs, s, a);
    FinishSteps(jobs, s, a);
    FinishSteps(jobs, marking, a);
    assert marking.attempts - {a} == s.attempts - {a};
  }

  // ---------- a whole queue, duplicates included ----------

  // The rows and tables after consuming a list of jobs one after the other.
  function ProcessAll(rows: set<RequestId>, metrics: Tables, jobs: seq<LogRow>): (set<RequestId>, Tables) {
    if jobs == [] then (rows, metrics) else
      var (before, tables) := ProcessAll(rows, metrics, jobs[..|jobs| - 1]);
      var job := jobs[|jobs| - 1];
      (before + {job.requestId}, if job.requestId in before then tables else Complete(tables, job))
  }

  // The first job of each request.
  function FirstOfEach(jobs: seq<LogRow>): seq<LogRow> {
    if jobs == [] then [] else
      var before := FirstOfEach(jobs[..|jobs| - 1]);
      var job := jobs[|jobs| - 1];
      if exists other <- before :: other.requestId == job.requestId then before else before + [job]
  }

  lemma {:induction false} ProcessedOnce(metrics: Tables, jobs: seq<LogRow>)
    ensures ProcessAll({}, metrics, jobs).0 == (set job | job in FirstOfEach(jobs) :: job.requestId)
    ensures ProcessAll({}, metrics, jobs).1 == CompleteAll(metrics, FirstOfEach(jobs))
  {
    if jobs != [] {
      var before := FirstOfEach(jobs[..|jobs| - 1]);
      var job := jobs[|jobs| - 1];
      ProcessedOnce(metrics, jobs[..|jobs| - 1]);
      assert (before + [job])[..|before|] == before;
      assert forall other :: other in before + [job] <==> other in before || other == job;
    }
  }

  // Consuming a queue with repeated jobs leaves the tables that a rebuild computes from the rows written,
  // one per request, exactly when no recent client is the empty string.
  lemma QueueEqualsRebuild(before: Tables, jobs: seq<LogRow>, cutoffDay: int)
    requires DatedBefore(before, cutoffDay)
    ensures Rebuild(ProcessAll({}, before, jobs).1, FirstOfEach(jobs), cutoffDay) == ProcessAll({}, before, jobs).1 <==>
            ClientsAreNamed(FirstOfEach(jobs), cutoffDay)
  {
    ProcessedOnce(before, jobs);
    RebuildIsNoOpIff(before, FirstOfEach(jobs), cutoffDay);
  }
}
