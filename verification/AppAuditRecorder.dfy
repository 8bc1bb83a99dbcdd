/**
  The recorder as objects: steps that their handles go on changing after the
  recorder has stored them, and snapshots that copy them.
*/
module AppAuditRecorder {
  import opened Options
  import opened IsoDate
  import opened AppAudit

  class AppAuditStep {
    const sequence: int
    const code: Option<string>
    const name: string
    const startedAt: string
    var request: Option<Request>
    var duration: int
    var status: Option<Status>
    var response: Option<Response>
    var error: Option<StepError>

    constructor (value: Step)
      ensures Value() == value
    {
      sequence, code, name, startedAt := value.sequence, value.code, value.name, value.startedAt;
      request := value.request;
      duration, status, response, error := value.duration, value.status, value.response, value.error;
    }

    function Value(): Step
      reads this
    {
      Step(sequence, code, name, startedAt, duration, status, request, response, error)
    }

    // The caller changes what is in the objects it handed over, which are the ones stored here.
    method Alter(newRequest: Option<Request>, newResponse: Option<Response>, newError: Option<StepError>)
      modifies this
      ensures Value() == AlteredStep(old(Value()), newRequest, newResponse, newError)
      ensures request == if old(request).Some? && newRequest.Some? then newRequest else old(request)
      ensures response == if old(response).Some? && newResponse.Some? then newResponse else old(response)
      ensures error == if old(error).Some? && newError.Some? then newError else old(error)
      ensures duration == old(duration) && status == old(status)
    {
      if request.Some? && newRequest.Some? {
        request := newRequest;
      }
      if response.Some? && newResponse.Some? {
        response := newResponse;
      }
      if error.Some? && newError.Some? {
        error := newError;
      }
    }
  }

  // The audit a snapshot hands out, with step objects of its own.
  datatype AuditSnapshot =
    AuditSnapshot(schemaVersion: int, title: string, metadata: seq<Metadata>, steps: seq<AppAuditStep>)
  {
    function StepValues(): seq<Step>
      reads steps
    {
      seq(|steps|, i requires 0 <= i < |steps| reads steps => steps[i].Value())
    }

    function Value(): Audit
      reads steps
    {
      Audit(schemaVersion, title, metadata, StepValues())
    }
  }

  class AppAuditStepHandle {
    const step: AppAuditStep
    const startedAt: Instant
    const startedAtMilliseconds: int
    var completed: bool

    constructor (step: AppAuditStep, startedAt: Instant, startedAtMilliseconds: int)
      ensures this.step == step && Value() == Handle(startedAt, startedAtMilliseconds, false)
    {
      this.step, this.startedAt, this.startedAtMilliseconds, completed := step, startedAt, startedAtMilliseconds, false;
    }

    function Value(): Handle
      reads this
    {
      Handle(startedAt, startedAtMilliseconds, completed)
    }

    method Succeed(status: Option<Status>, response: Option<Response>, now: int) returns (refusal: Option<Refusal>)
      modifies this, step
      ensures refusal.None? <==>
                !old(completed) && (status.Some? ==> StatusPasses(status.value)) &&
                (response.Some? ==> ResponsePasses(response.value))
      ensures step.error == old(step.error)
      ensures refusal.None? ==>
                completed &&
                step.Value() ==
                CompletedStep(old(step.Value()), Elapsed(startedAtMilliseconds, now), status, response, None)
      ensures refusal.Some? ==> completed == old(completed) && step.Value() == old(step.Value())
    {
      refusal := Complete(status, response, None, now);
    }

    method Fail(status: Option<Status>, response: Option<Response>, error: StepError, now: int)
      returns (refusal: Option<Refusal>)
      modifies this, step
      ensures refusal.None? <==>
                !old(completed) && (status.Some? ==> StatusPasses(status.value)) &&
                (response.Some? ==> ResponsePasses(response.value)) && ErrorPasses(error)
      ensures refusal.None? ==>
                completed && step.error == Some(error) &&
                step.Value() ==
                CompletedStep(old(step.Value()), Elapsed(startedAtMilliseconds, now), status, response, Some(error))
      ensures refusal.Some? ==> completed == old(completed) && step.Value() == old(step.Value())
    {
      refusal := Complete(status, response, Some(error), now);
    }

    // Once only, and only with checked values.
    method Complete(status: Option<Status>, response: Option<Response>, error: Option<StepError>, now: int)
      returns (refusal: Option<Refusal>)
      modifies this, step
      ensures refusal == if old(completed) then Some(AlreadyCompleted) else CheckCompletion(status, response, error)
      ensures refusal.None? <==>
                !old(completed) && (status.Some? ==> StatusPasses(status.value)) &&
                (response.Some? ==> ResponsePasses(response.value)) && (error.Some? ==> ErrorPasses(error.value))
      ensures refusal == if old(completed) then Some(AlreadyCompleted)
                         else if (status.Some? && !StatusPasses(status.value)) ||
                                 (response.Some? && !ResponsePasses(response.value)) then Some(OutOfRange)
                         else if error.Some? && !ErrorPasses(error.value) then Some(TooLong) else None
      ensures refusal.None? ==>
                completed &&
                step.Value() ==
                CompletedStep(old(step.Value()), Elapsed(startedAtMilliseconds, now), status, response, error)
      ensures refusal.None? ==>
                step.duration == (if startedAtMilliseconds <= now then now - startedAtMilliseconds else 0) &&
                step.status == (if status.Some? then status else old(step.status)) &&
                step.response == (if response.Some? then response else old(step.response)) &&
                step.error == (if error.Some? then error else old(step.error)) &&
                step.request == old(step.request)
      ensures refusal.Some? ==> completed == old(completed) && step.Value() == old(step.Value())
    {
      if completed {
        return Some(AlreadyCompleted);
      }
      refusal := CheckCompletion(status, response, error);
      if refusal.Some? {
        return;
      }
      completed := true;
      step.duration := Elapsed(startedAtMilliseconds, now);
      if status.Some? {
        step.status := status;
      }
      if response.Some? {
        step.response := response;
      }
      if error.Some? {
        step.error := error;
      }
    }
  }

  lemma PerformsStart(recorder: Recorder, code: Option<string>, name: string, request: Option<Request>, startedAt: Date)
    ensures var outcome := StartStep(recorder, code, name, request, startedAt);
            Perform(recorder, OnStart(code, name, request, startedAt)) ==
            if outcome.Done? then outcome.value else recorder
  {
  }

  class AppAuditRecorder {
    const title: string
    var metadata: seq<Metadata>
    var steps: seq<AppAuditStep>
    // The handles given out, one per step.
    ghost var handles: seq<AppAuditStepHandle>

    constructor (title: string)
      requires NewRecorder(title).Done?
      ensures Valid() && Contents() == NewRecorder(title).value && fresh(steps) && fresh(handles)
    {
      this.title, metadata, steps, handles := title, [], [], [];
    }

    ghost predicate Valid()
      reads this, handles
    {
      |steps| == |handles| &&
      (forall i | 0 <= i < |steps| :: handles[i].step == steps[i]) &&
      (forall i, j | 0 <= i < |steps| && 0 <= j < |steps| :: steps[i] == steps[j] ==> i == j) &&
      (forall i, j | 0 <= i < |handles| && 0 <= j < |handles| :: handles[i] == handles[j] ==> i == j)
    }

    ghost function StepValues(): seq<Step>
      reads this, steps
    {
      seq(|steps|, i requires 0 <= i < |steps| reads this, steps => steps[i].Value())
    }

    ghost function HandleValues(): seq<Handle>
      reads this, handles
    {
      seq(|handles|, i requires 0 <= i < |handles| reads this, handles => handles[i].Value())
    }

    ghost function Contents(): Recorder
      reads this, steps, handles
    {
      Recorder(title, metadata, StepValues(), HandleValues())
    }

    method AddMetadata(key: string, value: Json) returns (refusal: Option<Refusal>)
      requires Valid()
      modifies this`metadata
      ensures Valid() && Contents() == Perform(old(Contents()), OnMetadata(key, value))
      ensures refusal.None? <==> AppAudit.AddMetadata(old(Contents()), key, value).Done?
      ensures refusal.Some? ==> AppAudit.AddMetadata(old(Contents()), key, value) == Thrown(refusal.value)
      ensures refusal == if !HasInk(key) then Some(Blank) else if |key| > 100 then Some(TooLong)
                         else if |old(metadata)| >= 64 then Some(TooMany) else None
      ensures metadata == if refusal.None? then old(metadata) + [Metadata(key, value)] else old(metadata)
    {
      refusal := CheckText(key, 100);
      if refusal.Some? {
        return;
      }
      if |metadata| >= MAXIMUM_METADATA_COUNT {
        return Some(TooMany);
      }
      metadata := metadata + [Metadata(key, value)];
    }

    method StartStep(code: Option<string>, name: string, request: Option<Request>, startedAt: Date)
      returns (handle: AppAuditStepHandle?, refusal: Option<Refusal>)
      requires Valid()
      modifies this`steps, this`handles
      ensures Valid() && Contents() == Perform(old(Contents()), OnStart(code, name, request, startedAt))
      ensures refusal.None? <==> AppAudit.StartStep(old(Contents()), code, name, request, startedAt).Done?
      ensures refusal.None? <==> handle != null
      ensures refusal.None? ==> handles == old(handles) + [handle] && fresh(handle) && fresh(handle.step)
      ensures refusal.None? <==>
                HasInk(name) && |name| <= 200 && AtMost(code, 100) && VerbHasInk(request) &&
                (request.Some? ==> RequestPasses(request.value)) && |old(steps)| < 128 &&
                startedAt.Date? && IsOnCalendar(startedAt.instant)
      ensures refusal.None? ==>
                steps == old(steps) + [handle.step] && !handle.completed &&
                handle.startedAtMilliseconds == startedAt.time && IsOnCalendar(startedAt.instant) &&
                IsInstant(startedAt.instant) &&
                handle.step.Value() == Step(|old(steps)| + 1, code, name, ToISOString(startedAt.instant), 0, None,
                                            request, None, None)
      ensures refusal.Some? ==> steps == old(steps) && handles == old(handles)
      ensures refusal.Some? ==> Reason(refusal.value, code, name, request, |old(steps)|)
    {
      handle := null;
      ghost var before := Contents();
      ghost var outcome := AppAudit.StartStep(before, code, name, request, startedAt);
      PerformsStart(before, code, name, request, startedAt);
      refusal := Refuses(code, name, request, startedAt);
      assert refusal.Some? <==> outcome.Thrown?;
      if refusal.Some? {
        return;
      }
      handle := Push(NewStep(|steps| + 1, code, name, request, startedAt.instant), startedAt.instant, startedAt.time);
      assert Contents() == outcome.value;
    }

    // Why a step is refused, by the first check that fails.
    ghost predicate Reason(refusal: Refusal, code: Option<string>, name: string, request: Option<Request>, n: nat) {
      refusal == if !HasInk(name) then Blank
                 else if |name| > 200 || !AtMost(code, 100) then TooLong
                 else if !VerbHasInk(request) then Blank
                 else if request.Some? && !RequestPasses(request.value) then TooLong
                 else if n >= 128 then TooMany else OutOfRange
    }

    // The checks of startStep, in order.
    method Refuses(code: Option<string>, name: string, request: Option<Request>, startedAt: Date)
      returns (refusal: Option<Refusal>)
      ensures AppAudit.StartStep(Contents(), code, name, request, startedAt).Thrown? <==> refusal.Some?
      ensures refusal.None? <==>
                HasInk(name) && |name| <= 200 && AtMost(code, 100) && VerbHasInk(request) &&
                (request.Some? ==> RequestPasses(request.value)) && |steps| < 128 &&
                startedAt.Date? && IsOnCalendar(startedAt.instant)
      ensures refusal.Some? ==> AppAudit.StartStep(Contents(), code, name, request, startedAt) == Thrown(refusal.value)
      ensures refusal.Some? ==> Reason(refusal.value, code, name, request, |steps|)
    {
      BlankIff(name);
      CheckedRequestPasses(request);
      if startedAt.Date? {
        InstantsAreOnTheCalendar(startedAt.instant);
      }
      refusal := Then(CheckText(name, 200), Then(CheckLength(code, 100), CheckRequest(request)));
      if refusal.Some? {
        return;
      }
      if |steps| >= MAXIMUM_STEP_COUNT {
        return Some(TooMany);
      }
      if startedAt.InvalidDate? || !IsInstant(startedAt.instant) {
        return Some(OutOfRange);
      }
    }

    method Push(value: Step, startedAt: Instant, time: int) returns (handle: AppAuditStepHandle)
      requires Valid()
      modifies this`steps, this`handles
      ensures Valid() && handles == old(handles) + [handle] && fresh(handle) && fresh(handle.step)
      ensures StepValues() == old(StepValues()) + [value]
      ensures HandleValues() == old(HandleValues()) + [Handle(startedAt, time, false)]
      ensures steps == old(steps) + [handle.step] && handle.step.Value() == value
      ensures handle.startedAtMilliseconds == time && !handle.completed
    {
      var step := new AppAuditStep(value);
      handle := new AppAuditStepHandle(step, startedAt, time);
      steps := steps + [step];
      handles := handles + [handle];
    }

    // A deep copy: new step objects with the values of now.
    method CloneSteps() returns (copies: seq<AppAuditStep>)
      ensures fresh(copies) && |copies| == |steps|
      ensures forall i | 0 <= i < |steps| :: copies[i].Value() == steps[i].Value()
    {
      copies := [];
      for i := 0 to |steps|
        invariant |copies| == i && fresh(copies)
        invariant forall k | 0 <= k < i :: copies[k].Value() == steps[k].Value()
      {
        var copy := new AppAuditStep(steps[i].Value());
        copies := copies + [copy];
      }
    }

    // The copy is handed out unless its text takes more than 512 KiB.
    method Snapshot(bytes: Audit -> nat) returns (result: Result<AuditSnapshot, Refusal>)
      ensures result.Done? <==> bytes(Audit(1, title, metadata, StepValues())) <= 512 * 1024
      ensures result.Thrown? ==> result.error == TooLong
      ensures result.Done? <==> AppAudit.Snapshot(Contents(), bytes).Done?
      ensures result.Thrown? ==> AppAudit.Snapshot(Contents(), bytes) == Thrown(TooLong)
      ensures result.Done? ==>
                result.value.schemaVersion == 1 && result.value.title == title && result.value.metadata == metadata &&
                fresh(result.value.steps) && result.value.Value() == AppAudit.Snapshot(Contents(), bytes).value &&
                |result.value.steps| == |steps|
      ensures result.Done? ==> forall i | 0 <= i < |steps| :: result.value.steps[i].Value() == steps[i].Value()
    {
      var copies := CloneSteps();
      var audit := AuditSnapshot(1, title, metadata, copies);
      assert audit.StepValues() == StepValues();
      result := if bytes(audit.Value()) > MAXIMUM_AUDIT_BYTES then Thrown(TooLong) else Done(audit);
    }
  }

  // Completing through a handle does to the recorder what the value model says, and to nothing else.
  method CompleteStep(recorder: AppAuditRecorder, i: nat, status: Option<Status>, response: Option<Response>,
                      error: Option<StepError>, now: int, handle: AppAuditStepHandle) returns (refusal: Option<Refusal>)
    requires recorder.Valid() && i < |recorder.handles| && recorder.handles[i] == handle
    modifies handle, handle.step
    ensures recorder.Valid()
    ensures recorder.Contents() == Perform(old(recorder.Contents()), OnComplete(i, status, response, error, now))
    ensures refusal.None? <==> Complete(old(recorder.Contents()), i, status, response, error, now).Done?
    ensures refusal.Some? ==>
              Complete(old(recorder.Contents()), i, status, response, error, now) == Thrown(refusal.value)
  {
    ghost var before := recorder.Contents();
    refusal := handle.Complete(status, response, error, now);
    assert forall j | 0 <= j < |recorder.steps| && j != i ::
             recorder.steps[j] != handle.step && recorder.handles[j] != handle;
    if refusal.None? {
      var duration := Elapsed(handle.startedAtMilliseconds, now);
      assert recorder.StepValues() ==
             before.steps[i := CompletedStep(before.steps[i], duration, status, response, error)];
      assert recorder.HandleValues() == before.handles[i := before.handles[i].(completed := true)];
    } else {
      assert recorder.StepValues() == before.steps && recorder.HandleValues() == before.handles;
    }
  }

  // Changing the objects in a step does to the recorder what the value model says, and to nothing else.
  method AlterStep(recorder: AppAuditRecorder, i: nat, request: Option<Request>, response: Option<Response>,
                   error: Option<StepError>, handle: AppAuditStepHandle)
    requires recorder.Valid() && i < |recorder.handles| && recorder.handles[i] == handle
    modifies handle.step
    ensures recorder.Valid()
    ensures recorder.Contents() == Perform(old(recorder.Contents()), OnAlter(i, request, response, error))
  {
    ghost var before := recorder.Contents();
    handle.step.Alter(request, response, error);
    assert forall j | 0 <= j < |recorder.steps| && j != i :: recorder.steps[j] != handle.step;
    assert recorder.StepValues() == before.steps[i := AlteredStep(before.steps[i], request, response, error)];
    assert recorder.HandleValues() == before.handles;
  }

  // A snapshot keeps the title, metadata and steps it was taken with, whatever steps complete afterwards,
  // with or without an error, and whatever happens to the objects in them.
  method SnapshotOutlivesCalls(recorder: AppAuditRecorder, calls: seq<Call>, handles: seq<AppAuditStepHandle>,
                               bytes: Audit -> nat)
    returns (result: Result<AuditSnapshot, Refusal>)
    requires recorder.Valid() && recorder.handles == handles
    requires forall call <- calls :: call.OnComplete? || call.OnAlter?
    modifies set h <- handles :: h
    modifies set h <- handles :: h.step
    ensures result.Done? <==> bytes(Audit(1, recorder.title, old(recorder.metadata), old(recorder.StepValues()))) <=
                              512 * 1024
    ensures result.Done? ==>
              fresh(result.value.steps) &&
              result.value.Value() == Audit(1, recorder.title, old(recorder.metadata), old(recorder.StepValues()))
    ensures recorder.Contents() == PerformAll(old(recorder.Contents()), calls)
  {
    result := recorder.Snapshot(bytes);
    for n := 0 to |calls|
      invariant recorder.Valid() && recorder.handles == handles
      invariant result.Done? ==>
                  fresh(result.value.steps) &&
                  result.value.Value() == Audit(1, recorder.title, old(recorder.metadata), old(recorder.StepValues()))
      invariant recorder.Contents() == PerformAll(old(recorder.Contents()), calls[..n])
    {
      assert calls[..n + 1][..n] == calls[..n];
      assert calls[n] in calls;
      PerformOne(recorder, calls[n], handles);
    }
    assert calls[..|calls|] == calls;
  }

  // One completion or alteration, through the handle of its step; a step that does not exist has neither.
  method PerformOne(recorder: AppAuditRecorder, call: Call, handles: seq<AppAuditStepHandle>)
    requires recorder.Valid() && recorder.handles == handles && (call.OnComplete? || call.OnAlter?)
    modifies set h <- handles :: h
    modifies set h <- handles :: h.step
    ensures recorder.Valid() && recorder.handles == handles
    ensures recorder.Contents() == Perform(old(recorder.Contents()), call)
  {
    if call.step >= |handles| {
      return;
    }
    var handle := handles[call.step];
    assert handle in handles;
    if call.OnComplete? {
      var _ := CompleteStep(recorder, call.step, call.status, call.response, call.error, call.now, handle);
    } else {
      AlterStep(recorder, call.step, call.newRequest, call.newResponse, call.newError, handle);
    }
  }
}
