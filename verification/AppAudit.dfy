/**
  The device's audit recorder and the server's validation of what it records,
  written separately as the two programs are, and the theorem that joins them.
  A character stands for one UTF-16 code unit, the unit in which both count.
*/
module AppAudit {
  import opened Options
  import opened IsoDate

  // A JSON value the two programs pass on without looking inside.
  type Json = int

  // A JavaScript number.
  datatype Number = Finite(value: real) | NotFinite

  datatype Status = NumberStatus(number: Number) | TextStatus(text: string)

  datatype Request = Request(verb: Option<string>, url: Option<string>, headers: Option<Json>, body: Option<Json>)
  datatype Response = Response(statusCode: Option<Number>, headers: Option<Json>, bodyFormat: Option<string>,
                               body: Option<Json>)
  datatype StepError = StepError(kind: Option<string>, code: Option<string>, message: Option<string>)

  datatype Step = Step(
    sequence: int, code: Option<string>, name: string, startedAt: string, duration: int, status: Option<Status>,
    request: Option<Request>, response: Option<Response>, error: Option<StepError>)

  datatype Metadata = Metadata(key: string, value: Json)

  datatype Audit = Audit(schemaVersion: int, title: string, metadata: seq<Metadata>, steps: seq<Step>)

  predicate AtMost(text: Option<string>, limit: nat) {
    text.Some? ==> |text.value| <= limit
  }

  predicate Between(text: string, low: nat, high: nat) {
    low <= |text| <= high
  }

  // ---------- the server ----------

  const APP_AUDIT_MAX_BYTES := 512 * 1024
  const APP_AUDIT_MAX_METADATA := 64
  const APP_AUDIT_MAX_STEPS := 128

  predicate RequestPasses(request: Request) {
    (request.verb.Some? ==> Between(request.verb.value, 1, 32)) && AtMost(request.url, 4096)
  }

  predicate ResponsePasses(response: Response) {
    (response.statusCode.Some? ==>
       response.statusCode.value.Finite? &&
       response.statusCode.value.value == response.statusCode.value.value.Floor as real &&
       0.0 <= response.statusCode.value.value <= 999.0) &&
    (response.bodyFormat.Some? ==> response.bodyFormat.value in {"json", "text", "empty"})
  }

  predicate ErrorPasses(error: StepError) {
    AtMost(error.kind, 100) && AtMost(error.code, 100) && AtMost(error.message, 4096)
  }

  predicate StatusPasses(status: Status) {
    if status.NumberStatus? then status.number.Finite? else |status.text| <= 100
  }

  predicate StepPasses(step: Step) {
    0 < step.sequence <= APP_AUDIT_MAX_STEPS && AtMost(step.code, 100) && Between(step.name, 1, 200) &&
    IsDateTime(step.startedAt) && step.duration >= 0 &&
    (step.status.Some? ==> StatusPasses(step.status.value)) &&
    (step.request.Some? ==> RequestPasses(step.request.value)) &&
    (step.response.Some? ==> ResponsePasses(step.response.value)) &&
    (step.error.Some? ==> ErrorPasses(step.error.value))
  }

  predicate SchemaPasses(audit: Audit) {
    audit.schemaVersion == 1 && Between(audit.title, 1, 200) &&
    |audit.metadata| <= APP_AUDIT_MAX_METADATA && (forall entry <- audit.metadata :: Between(entry.key, 1, 100)) &&
    |audit.steps| <= APP_AUDIT_MAX_STEPS && (forall step <- audit.steps :: StepPasses(step))
  }

  // Both ends measure the serialized audit alike.
  predicate ServerAccepts(audit: Audit, bytes: Audit -> nat) {
    bytes(audit) <= APP_AUDIT_MAX_BYTES && SchemaPasses(audit) &&
    forall i | 0 <= i < |audit.steps| :: audit.steps[i].sequence == i + 1
  }

  // ---------- the recorder ----------

  const MAXIMUM_METADATA_COUNT := 64
  const MAXIMUM_STEP_COUNT := 128
  const MAXIMUM_AUDIT_BYTES := 512 * 1024

  datatype Refusal = Blank | TooLong | TooMany | OutOfRange | AlreadyCompleted

  // What a handle remembers besides the step it completes.
  datatype Handle = Handle(startedAt: Instant, startedAtMilliseconds: int, completed: bool)

  datatype Recorder = Recorder(title: string, metadata: seq<Metadata>, steps: seq<Step>, handles: seq<Handle>)

  // A date object: an instant with its time value, or an invalid date.
  datatype Date = Date(instant: Instant, time: int) | InvalidDate

  predicate IsSpace(c: char) {
    var n := c as int;
    9 <= n <= 13 || n == 32 || n == 160 || n == 0x1680 || 0x2000 <= n <= 0x200A || n == 0x2028 || n == 0x2029 ||
    n == 0x202F || n == 0x205F || n == 0x3000 || n == 0xFEFF
  }

  predicate IsBlank(text: string) {
    forall c <- text :: IsSpace(c)
  }

  function CheckText(text: string, limit: nat): Option<Refusal> {
    if IsBlank(text) then Some(Blank) else if |text| > limit then Some(TooLong) else None
  }

  function CheckLength(text: Option<string>, limit: nat): Option<Refusal> {
    if text.Some? && |text.value| > limit then Some(TooLong) else None
  }

  // The first refusal of two checks made in order.
  function Then(first: Option<Refusal>, second: Option<Refusal>): Option<Refusal> {
    if first.Some? then first else second
  }

  function CheckRequest(request: Option<Request>): Option<Refusal> {
    if request.None? then None
    else Then(if request.value.verb.Some? then CheckText(request.value.verb.value, 32) else None,
              CheckLength(request.value.url, 4096))
  }

  function CheckStatusCode(code: Number): Option<Refusal> {
    if code.NotFinite? then Some(OutOfRange)
    else if code.value != code.value.Floor as real || code.value < 0.0 || code.value > 999.0 then Some(OutOfRange)
    else None
  }

  function CheckResponse(response: Option<Response>): Option<Refusal> {
    if response.None? then None
    else Then(if response.value.statusCode.Some? then CheckStatusCode(response.value.statusCode.value) else None,
              if response.value.bodyFormat.Some? && response.value.bodyFormat.value !in ["json", "text", "empty"]
              then Some(OutOfRange) else None)
  }

  function CheckError(error: Option<StepError>): Option<Refusal> {
    if error.None? then None
    else Then(CheckLength(error.value.kind, 100),
              Then(CheckLength(error.value.code, 100), CheckLength(error.value.message, 4096)))
  }

  function CheckStatus(status: Option<Status>): Option<Refusal> {
    if status.None? then None
    else match status.value
      case NumberStatus(number) => if number.NotFinite? then Some(OutOfRange) else None
      case TextStatus(text) => if |text| > 100 then Some(OutOfRange) else None
  }

  function NewRecorder(title: string): Result<Recorder, Refusal> {
    var check := CheckText(title, 200);
    if check.Some? then Thrown(check.value) else Done(Recorder(title, [], [], []))
  }

  function AddMetadata(recorder: Recorder, key: string, value: Json): Result<Recorder, Refusal> {
    var check := CheckText(key, 100);
    if check.Some? then Thrown(check.value)
    else if |recorder.metadata| >= MAXIMUM_METADATA_COUNT then Thrown(TooMany)
    else Done(recorder.(metadata := recorder.metadata + [Metadata(key, value)]))
  }

  function NewStep(sequence: int, code: Option<string>, name: string, request: Option<Request>,
                   startedAt: Instant): Step
    requires IsInstant(startedAt)
  {
    Step(sequence, code, name, ToISOString(startedAt), 0, None, request, None, None)
  }

  // A date that is no instant has no text, which is an error after all the checks.
  function StartStep(recorder: Recorder, code: Option<string>, name: string, request: Option<Request>, startedAt: Date)
    : Result<Recorder, Refusal>
  {
    var check := Then(CheckText(name, 200), Then(CheckLength(code, 100), CheckRequest(request)));
    if check.Some? then Thrown(check.value)
    else if |recorder.steps| >= MAXIMUM_STEP_COUNT then Thrown(TooMany)
    else if startedAt.InvalidDate? || !IsInstant(startedAt.instant) then Thrown(OutOfRange)
    else
      Done(recorder.(
           steps := recorder.steps + [NewStep(|recorder.steps| + 1, code, name, request, startedAt.instant)],
           handles := recorder.handles + [Handle(startedAt.instant, startedAt.time, false)]))
  }

  // What was not given keeps what the step has.
  function CompletedStep(step: Step, duration: int, status: Option<Status>, response: Option<Response>,
                         error: Option<StepError>): Step {
    step.(duration := duration,
          status := if status.Some? then status else step.status,
          response := if response.Some? then response else step.response,
          error := if error.Some? then error else step.error)
  }

  function Elapsed(startedAtMilliseconds: int, now: int): int {
    if now < startedAtMilliseconds then 0 else now - startedAtMilliseconds
  }

  function CheckCompletion(status: Option<Status>, response: Option<Response>,
                           error: Option<StepError>): Option<Refusal> {
    Then(CheckStatus(status), Then(CheckResponse(response), CheckError(error)))
  }

  function Complete(recorder: Recorder, i: nat, status: Option<Status>, response: Option<Response>,
                    error: Option<StepError>, now: int): Result<Recorder, Refusal>
    requires i < |recorder.steps| && i < |recorder.handles|
  {
    var handle := recorder.handles[i];
    var check := CheckCompletion(status, response, error);
    if handle.completed then Thrown(AlreadyCompleted)
    else if check.Some? then Thrown(check.value)
    else
      var duration := Elapsed(handle.startedAtMilliseconds, now);
      Done(recorder.(
           steps := recorder.steps[i := CompletedStep(recorder.steps[i], duration, status, response, error)],
           handles := recorder.handles[i := handle.(completed := true)]))
  }

  // The recorder keeps the caller's request, response and error objects themselves: the caller may change
  // what is in them at any time. Only objects that are there can be changed.
  function AlteredStep(step: Step, request: Option<Request>, response: Option<Response>,
                       error: Option<StepError>): Step {
    step.(request := if step.request.Some? && request.Some? then request else step.request,
          response := if step.response.Some? && response.Some? then response else step.response,
          error := if step.error.Some? && error.Some? then error else step.error)
  }

  function Alter(recorder: Recorder, i: nat, request: Option<Request>, response: Option<Response>,
                 error: Option<StepError>)
    : Recorder
    requires i < |recorder.steps|
  {
    recorder.(steps := recorder.steps[i := AlteredStep(recorder.steps[i], request, response, error)])
  }

  function ToAudit(recorder: Recorder): Audit {
    Audit(1, recorder.title, recorder.metadata, recorder.steps)
  }

  function Snapshot(recorder: Recorder, bytes: Audit -> nat): Result<Audit, Refusal> {
    if bytes(ToAudit(recorder)) > MAXIMUM_AUDIT_BYTES then Thrown(TooLong) else Done(ToAudit(recorder))
  }

  // ---------- what every recorder keeps ----------

  // What the recorder itself decides of a step.
  ghost predicate StepIsGood(step: Step, i: nat, handle: Handle) {
    step.sequence == i + 1 && AtMost(step.code, 100) && Between(step.name, 1, 200) && step.duration >= 0 &&
    IsInstant(handle.startedAt) && step.startedAt == ToISOString(handle.startedAt) &&
    (step.status.Some? ==> StatusPasses(step.status.value))
  }

  // The objects the caller handed over would pass now.
  predicate ObjectsPass(step: Step) {
    (step.request.Some? ==> RequestPasses(step.request.value)) &&
    (step.response.Some? ==> ResponsePasses(step.response.value)) &&
    (step.error.Some? ==> ErrorPasses(step.error.value))
  }

  ghost predicate StepsAreGood(recorder: Recorder) {
    |recorder.steps| == |recorder.handles| <= APP_AUDIT_MAX_STEPS &&
    forall i | 0 <= i < |recorder.steps| :: StepIsGood(recorder.steps[i], i, recorder.handles[i])
  }

  predicate AllObjectsPass(recorder: Recorder) {
    forall i | 0 <= i < |recorder.steps| :: ObjectsPass(recorder.steps[i])
  }

  ghost predicate Good(recorder: Recorder) {
    Between(recorder.title, 1, 200) &&
    |recorder.metadata| <= APP_AUDIT_MAX_METADATA &&
    (forall entry <- recorder.metadata :: Between(entry.key, 1, 100)) &&
    StepsAreGood(recorder)
  }

  // White space and line terminators of ECMA-262, edition 5.1, sections 7.2 and 7.3, by their code points.
  ghost const SPACES: set<int> := {
    0x0009, 0x000A, 0x000B, 0x000C, 0x000D, 0x0020, 0x00A0, 0x1680, 0x2000, 0x2001, 0x2002, 0x2003, 0x2004, 0x2005,
    0x2006, 0x2007, 0x2008, 0x2009, 0x200A, 0x2028, 0x2029, 0x202F, 0x205F, 0x3000, 0xFEFF}

  // Something is left of the text when it is trimmed.
  ghost predicate HasInk(text: string) {
    exists c <- text :: c as int !in SPACES
  }

  lemma BlankIff(text: string)
    ensures IsBlank(text) <==> !HasInk(text)
  {
    if IsBlank(text) {
      assert forall c <- text :: IsSpace(c) && c as int in SPACES;
    } else {
      var c :| c in text && !IsSpace(c);
      assert c as int !in SPACES;
    }
  }

  ghost predicate VerbHasInk(request: Option<Request>) {
    request.Some? && request.value.verb.Some? ==> HasInk(request.value.verb.value)
  }

  // The recorder admits exactly what the schema admits, but for a blank method.
  lemma {:induction false} CheckedRequestPasses(request: Option<Request>)
    ensures CheckRequest(request).None? <==>
            (request.Some? ==> RequestPasses(request.value)) && VerbHasInk(request)
  {
    if request.Some? && request.value.verb.Some? {
      BlankIff(request.value.verb.value);
    }
  }

  // The recorder admits exactly the completions the schema admits.
  lemma {:induction false} CheckedCompletionPasses(status: Option<Status>, response: Option<Response>,
                                                   error: Option<StepError>)
    ensures CheckCompletion(status, response, error).None? <==>
            (status.Some? ==> StatusPasses(status.value)) &&
            (response.Some? ==> ResponsePasses(response.value)) &&
            (error.Some? ==> ErrorPasses(error.value))
  {
  }

  // A title is refused exactly when it is blank or the server would reject it.
  lemma {:induction false} TitleIsRefusedIff(title: string)
    ensures NewRecorder(title).Done? <==> HasInk(title) && |title| <= 200
    ensures NewRecorder(title).Done? <==> HasInk(title) && SchemaPasses(Audit(1, title, [], []))
    ensures NewRecorder(title).Done? ==> NewRecorder(title).value == Recorder(title, [], [], [])
  {
    BlankIff(title);
  }

  lemma StartStepKeepsGood(recorder: Recorder, code: Option<string>, name: string, request: Option<Request>,
                           startedAt: Date)
    requires Good(recorder) && StartStep(recorder, code, name, request, startedAt).Done?
    ensures Good(StartStep(recorder, code, name, request, startedAt).value)
    ensures AllObjectsPass(recorder) ==> AllObjectsPass(StartStep(recorder, code, name, request, startedAt).value)
  {
    CheckedRequestPasses(request);
    var after := StartStep(recorder, code, name, request, startedAt).value;
    forall i | 0 <= i < |after.steps|
      ensures StepIsGood(after.steps[i], i, after.handles[i])
    {
      if i < |recorder.steps| {
        assert StepIsGood(recorder.steps[i], i, recorder.handles[i]);
      }
    }
  }

  lemma CompleteKeepsGood(recorder: Recorder, i: nat, status: Option<Status>, response: Option<Response>,
                          error: Option<StepError>, now: int)
    requires Good(recorder) && i < |recorder.steps| && Complete(recorder, i, status, response, error, now).Done?
    ensures Good(Complete(recorder, i, status, response, error, now).value)
  {
    CheckedCompletionPasses(status, response, error);
    var after := Complete(recorder, i, status, response, error, now).value;
    forall j | 0 <= j < |after.steps|
      ensures StepIsGood(after.steps[j], j, after.handles[j])
    {
      assert StepIsGood(recorder.steps[j], j, recorder.handles[j]);
    }
  }

  lemma CompleteKeepsObjects(recorder: Recorder, i: nat, status: Option<Status>, response: Option<Response>,
                             error: Option<StepError>, now: int)
    requires i < |recorder.steps| && i < |recorder.handles| && AllObjectsPass(recorder)
    requires Complete(recorder, i, status, response, error, now).Done?
    ensures AllObjectsPass(Complete(recorder, i, status, response, error, now).value)
  {
    CheckedCompletionPasses(status, response, error);
    var after := Complete(recorder, i, status, response, error, now).value;
    forall j | 0 <= j < |after.steps|
      ensures ObjectsPass(after.steps[j])
    {
      assert ObjectsPass(recorder.steps[j]);
    }
  }

  lemma AlterKeepsGood(recorder: Recorder, i: nat, request: Option<Request>, response: Option<Response>,
                       error: Option<StepError>)
    requires Good(recorder) && i < |recorder.steps|
    ensures Good(Alter(recorder, i, request, response, error))
  {
    var after := Alter(recorder, i, request, response, error);
    forall j | 0 <= j < |after.steps|
      ensures StepIsGood(after.steps[j], j, after.handles[j])
    {
      assert StepIsGood(recorder.steps[j], j, recorder.handles[j]);
    }
  }

  // ---------- every sequence of calls ----------

  datatype Call =
    | OnMetadata(key: string, value: Json)
    | OnStart(code: Option<string>, name: string, request: Option<Request>, startedAt: Date)
    | OnComplete(step: nat, status: Option<Status>, response: Option<Response>, error: Option<StepError>, now: int)
    | OnAlter(step: nat, newRequest: Option<Request>, newResponse: Option<Response>, newError: Option<StepError>)

  // A call that throws leaves the recorder as it was; only steps that exist have handles and objects.
  function Perform(recorder: Recorder, call: Call): Recorder {
    var result :=
      match call
      case OnMetadata(key, value) => AddMetadata(recorder, key, value)
      case OnStart(code, name, request, startedAt) => StartStep(recorder, code, name, request, startedAt)
      case OnComplete(i, status, response, error, now) =>
        if i < |recorder.steps| && i < |recorder.handles| then Complete(recorder, i, status, response, error, now)
        else Done(recorder)
      case OnAlter(i, request, response, error) =>
        Done(if i < |recorder.steps| then Alter(recorder, i, request, response, error) else recorder);
    if result.Done? then result.value else recorder
  }

  function PerformAll(recorder: Recorder, calls: seq<Call>): Recorder {
    if calls == [] then recorder else Perform(PerformAll(recorder, calls[..|calls| - 1]), calls[|calls| - 1])
  }

  lemma {:induction false} PerformKeepsGood(recorder: Recorder, call: Call)
    requires Good(recorder)
    ensures Good(Perform(recorder, call))
    ensures AllObjectsPass(recorder) && !call.OnAlter? ==> AllObjectsPass(Perform(recorder, call))
  {
    match call {
      case OnMetadata(_, _) =>
      case OnStart(code, name, request, startedAt) =>
        if StartStep(recorder, code, name, request, startedAt).Done? {
          StartStepKeepsGood(recorder, code, name, request, startedAt);
        }
      case OnComplete(i, status, response, error, now) =>
        if i < |recorder.steps| && Complete(recorder, i, status, response, error, now).Done? {
          CompleteKeepsGood(recorder, i, status, response, error, now);
          if AllObjectsPass(recorder) {
            CompleteKeepsObjects(recorder, i, status, response, error, now);
          }
        }
      case OnAlter(i, request, response, error) =>
        if i < |recorder.steps| {
          AlterKeepsGood(recorder, i, request, response, error);
        }
    }
  }

  predicate LeavesObjects(calls: seq<Call>) {
    forall call <- calls :: !call.OnAlter?
  }

  lemma {:induction false} PerformAllKeepsGood(recorder: Recorder, calls: seq<Call>)
    requires Good(recorder)
    ensures Good(PerformAll(recorder, calls))
    ensures AllObjectsPass(recorder) && LeavesObjects(calls) ==> AllObjectsPass(PerformAll(recorder, calls))
  {
    if calls != [] {
      var before := calls[..|calls| - 1];
      assert LeavesObjects(calls) ==> LeavesObjects(before) && calls[|calls| - 1] in calls;
      PerformAllKeepsGood(recorder, before);
      PerformKeepsGood(PerformAll(recorder, before), calls[|calls| - 1]);
    }
  }

  ghost predicate YearsHaveFourDigits(recorder: Recorder) {
    forall handle <- recorder.handles :: HasFourDigitYear(handle.startedAt)
  }

  ghost predicate AllStepsPass(recorder: Recorder) {
    forall step <- recorder.steps :: StepPasses(step)
  }

  lemma StepPassesIff(recorder: Recorder, i: nat)
    requires StepsAreGood(recorder) && i < |recorder.steps|
    ensures StepPasses(recorder.steps[i]) <==>
            HasFourDigitYear(recorder.handles[i].startedAt) && ObjectsPass(recorder.steps[i])
  {
    assert StepIsGood(recorder.steps[i], i, recorder.handles[i]);
    TextPassesIff(recorder.handles[i].startedAt);
  }

  lemma {:induction false} GoodStepsPass(recorder: Recorder)
    requires StepsAreGood(recorder) && YearsHaveFourDigits(recorder) && AllObjectsPass(recorder)
    ensures AllStepsPass(recorder)
  {
    forall step <- recorder.steps
      ensures StepPasses(step)
    {
      var i :| 0 <= i < |recorder.steps| && recorder.steps[i] == step;
      assert recorder.handles[i] in recorder.handles;
      StepPassesIff(recorder, i);
    }
  }

  lemma {:induction false} PassingStepsAreGood(recorder: Recorder)
    requires StepsAreGood(recorder) && AllStepsPass(recorder)
    ensures YearsHaveFourDigits(recorder) && AllObjectsPass(recorder)
  {
    forall i | 0 <= i < |recorder.steps|
      ensures HasFourDigitYear(recorder.handles[i].startedAt) && ObjectsPass(recorder.steps[i])
    {
      assert recorder.steps[i] in recorder.steps;
      StepPassesIff(recorder, i);
    }
  }

  // After any calls, thrown or not, and whatever the caller did to the objects it handed over, a snapshot the
  // recorder hands out is accepted by the server exactly when every step began in a year of four digits and
  // the objects it holds at that moment would pass. Objects left alone do.
  lemma {:induction false} SnapshotsAreAcceptedIff(title: string, calls: seq<Call>, bytes: Audit -> nat)
    requires NewRecorder(title).Done?
    requires Snapshot(PerformAll(NewRecorder(title).value, calls), bytes).Done?
    ensures var recorder := PerformAll(NewRecorder(title).value, calls);
            && (ServerAccepts(Snapshot(recorder, bytes).value, bytes) <==>
                YearsHaveFourDigits(recorder) && AllObjectsPass(recorder))
            && (LeavesObjects(calls) ==> AllObjectsPass(recorder))
  {
    var recorder := PerformAll(NewRecorder(title).value, calls);
    PerformAllKeepsGood(NewRecorder(title).value, calls);
    forall i | 0 <= i < |recorder.steps|
      ensures recorder.steps[i].sequence == i + 1
    {
      assert StepIsGood(recorder.steps[i], i, recorder.handles[i]);
    }
    if YearsHaveFourDigits(recorder) && AllObjectsPass(recorder) {
      GoodStepsPass(recorder);
    }
    if AllStepsPass(recorder) {
      PassingStepsAreGood(recorder);
    }
  }

  // A request emptied after it was handed over makes a snapshot the server rejects.
  lemma EmptiedRequestIsRejected(recorder: Recorder, startedAt: Instant, bytes: Audit -> nat)
    requires Good(recorder) && |recorder.steps| < APP_AUDIT_MAX_STEPS && IsInstant(startedAt)
    ensures var request := Request(Some("GET"), None, None, None);
            var emptied := Request(Some(""), None, None, None);
            var started := StartStep(recorder, None, "x", Some(request), Date(startedAt, 0));
            && started.Done? && |started.value.steps| == |recorder.steps| + 1
            && !ServerAccepts(ToAudit(Alter(started.value, |recorder.steps|, Some(emptied), None, None)), bytes)
  {
    assert 'x' in "x" && 'G' in "GET" && !IsSpace('x') && !IsSpace('G');
    var request := Request(Some("GET"), None, None, None);
    assert CheckRequest(Some(request)) == None && CheckText("x", 200) == None;
    var n := |recorder.steps|;
    var started := StartStep(recorder, None, "x", Some(request), Date(startedAt, 0)).value;
    var after := Alter(started, n, Some(Request(Some(""), None, None, None)), None, None);
    assert after.steps[n] in after.steps && !RequestPasses(after.steps[n].request.value);
  }

  // The checks are no stricter on lengths than the server; they do refuse more, the blank texts.
  lemma BlankTitleIsRefusedThoughAccepted(bytes: Audit -> nat)
    requires bytes(Audit(1, " ", [], [])) <= APP_AUDIT_MAX_BYTES
    ensures NewRecorder(" ") == Thrown(Blank) && ServerAccepts(Audit(1, " ", [], []), bytes)
  {
    assert IsSpace(' ');
  }

  // ---------- what the recorder refuses ----------

  // The recorder refuses a snapshot for its size exactly when the server would.
  lemma SnapshotIsRefusedIff(recorder: Recorder, bytes: Audit -> nat)
    ensures Snapshot(recorder, bytes).Thrown? <==> bytes(ToAudit(recorder)) > APP_AUDIT_MAX_BYTES
    ensures Snapshot(recorder, bytes).Thrown? ==> !ServerAccepts(ToAudit(recorder), bytes)
  {
  }

  // With an audit that passes, the recorder refuses a metadata entry exactly when its key is blank or the
  // server would reject the audit with it.
  lemma {:induction false} MetadataIsRefusedIff(recorder: Recorder, key: string, value: Json)
    requires SchemaPasses(ToAudit(recorder))
    ensures AddMetadata(recorder, key, value).Done? <==>
            HasInk(key) &&
            SchemaPasses(ToAudit(recorder).(metadata := recorder.metadata + [Metadata(key, value)]))
  {
    BlankIff(key);
    var more := recorder.metadata + [Metadata(key, value)];
    assert more[|recorder.metadata|] in more;
    assert forall entry <- more :: entry in recorder.metadata || entry == Metadata(key, value);
  }

  // A step, likewise: its name or method is blank, its date is none, or the server would reject the audit.
  lemma {:induction false} StepIsRefusedIff(recorder: Recorder, code: Option<string>, name: string,
                                            request: Option<Request>, startedAt: Instant, time: int)
    requires SchemaPasses(ToAudit(recorder)) && IsInstant(startedAt) && HasFourDigitYear(startedAt)
    ensures var step := Step(|recorder.steps| + 1, code, name, ToISOString(startedAt), 0, None, request, None, None);
            StartStep(recorder, code, name, request, Date(startedAt, time)).Done? <==>
            HasInk(name) && VerbHasInk(request) && SchemaPasses(ToAudit(recorder).(steps := recorder.steps + [step]))
  {
    BlankIff(name);
    CheckedRequestPasses(request);
    TextPassesIff(startedAt);
    var step := Step(|recorder.steps| + 1, code, name, ToISOString(startedAt), 0, None, request, None, None);
    var more := recorder.steps + [step];
    assert more[|recorder.steps|] in more;
    assert forall other <- more :: other in recorder.steps || other == step;
    assert StepPasses(step) <==>
           |more| <= APP_AUDIT_MAX_STEPS && AtMost(code, 100) && Between(name, 1, 200) &&
           (request.Some? ==> RequestPasses(request.value));
  }

  // A completion, likewise: the step is complete already, or the server would reject it.
  lemma {:induction false} CompletionIsRefusedIff(recorder: Recorder, i: nat, status: Option<Status>,
                                                  response: Option<Response>, error: Option<StepError>, now: int)
    requires i < |recorder.steps| && i < |recorder.handles| && StepPasses(recorder.steps[i])
    ensures var step := recorder.steps[i];
            var completed := step.(status := if status.Some? then status else step.status,
                                   response := if response.Some? then response else step.response,
                                   error := if error.Some? then error else step.error);
            Complete(recorder, i, status, response, error, now).Done? <==>
            !recorder.handles[i].completed && StepPasses(completed)
  {
    CheckedCompletionPasses(status, response, error);
  }
}
