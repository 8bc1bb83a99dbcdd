/**
  The invoke/result protocol of the relay, as a step machine over several API
  instances that share one Redis.

  Each step is one atomic action: a Redis command or script, a synchronous
  stretch of code between two awaits, or an action of the environment (a clock
  tick, a key expiring, a device sending a result). Every interleaving of the
  steps is a run.
*/
module InvokeProtocol {
  import opened WaiterTable

  // ---------- state ----------

  datatype Settlement = ByResult(answer: Answer) | ByTimeout | ByCancel

  // Why an invoke fails, one constructor for each status the service answers.
  datatype FailureReason =
    | InfrastructureError | NoProject | ProjectDisabled
    | DeviceOffline | NoDevice | Saturated
    | Unavailable | TimedOut

  datatype Response = Success(answer: Answer) | Failure(reason: FailureReason)

  // Reasons given while the project is resolved.
  predicate ProjectReason(reason: FailureReason) {
    reason.InfrastructureError? || reason.NoProject? || reason.ProjectDisabled?
  }

  // Reasons given while a device is selected.
  predicate SelectionReason(reason: FailureReason) {
    reason.InfrastructureError? || reason.DeviceOffline? || reason.NoDevice? || reason.Saturated?
  }

  // Where one call of invoke stands. `Acquired` to `Releasing` hold a slot of the chosen device.
  datatype Phase =
    | Resolving                      // looking the project up
    | Selecting                      // choosing a device
    | Acquired                       // a slot is taken
    | Registered                     // the local waiter is in the map, its Redis mark is being written
    | Marked                         // rpc:waiter is written, the job is being dispatched
    | Awaiting                       // dispatched, waiting for the promise
    | Releasing(response: Response)  // response built and logged, the slot is to be given back
    | Fixing(response: Response)     // the decrement went below zero, SET 0 is to follow
    | Returned(response: Response)

  // `settlements`, `acquired`, `released`, `logged` and `acks` record what has happened to the request;
  // `acks` are the answers acknowledged `ok`.
  datatype Invocation = Invocation(
    at: InstanceId,
    startedAt: nat,
    timeout: nat,
    clientId: ClientId,
    dueAt: nat,
    phase: Phase,
    settlements: seq<Settlement>,
    acquired: nat,
    released: nat,
    logged: nat,
    acks: seq<Answer>)

  datatype WaiterKey = WaiterKey(instance: InstanceId, expiresAt: nat)

  // The Redis keys rpc:waiter:*, rpc:completed:* and device:inflight:*.
  datatype Keys = Keys(
    waiter: map<RequestId, WaiterKey>,
    completed: set<RequestId>,
    inFlight: map<ClientId, int>)

  // One execution of handleResult (or of the rpc:result bus handler) that is suspended at an await.
  datatype Handler =
    | Looked(requestId: RequestId, answer: Answer, at: InstanceId, target: InstanceId)
    | Claimed(requestId: RequestId, answer: Answer, at: InstanceId, target: InstanceId)
    | Dropping(requestId: RequestId)

  datatype RoutedResult = RoutedResult(target: InstanceId, requestId: RequestId, answer: Answer)

  datatype Job = Job(requestId: RequestId, clientId: ClientId, deadlineAt: nat)

  // What is under way: suspended handlers and bus messages published but not yet delivered.
  datatype Traffic = Traffic(
    handlers: map<int, Handler>,
    results: map<int, RoutedResult>,
    jobs: map<int, Job>)

  datatype Send = Send(job: Job, time: nat)

  datatype State = State(
    now: nat,
    invocations: map<RequestId, Invocation>,
    waiters: map<InstanceId, Waiters>,
    keys: Keys,
    traffic: Traffic,
    received: set<(RequestId, Answer)>,  // every result any device ever sent
    sends: set<Send>,                    // every job ever written to a socket
    capacityUsed: map<ClientId, nat>)    // the largest capacity an acquire ever used

  function Initial(now: nat): State {
    State(now, map[], map[], Keys(map[], {}, map[]), Traffic(map[], map[], map[]), {}, {}, map[])
  }

  function WaitersAt(waiters: map<InstanceId, Waiters>, instance: InstanceId): Waiters {
    if instance in waiters then waiters[instance] else map[]
  }

  function InFlight(keys: Keys, clientId: ClientId): int {
    if clientId in keys.inFlight then keys.inFlight[clientId] else 0
  }

  // ---------- steps ----------

  // How GET client:session answered, and whether the local socket could take the job.
  datatype Route = NoSession | LocalSocket(open: bool) | Remote(message: int)

  // One invoke chooses its device and prepares to wait.
  datatype SetupAction =
    | ResolveProject
    | RejectProject(reason: FailureReason)
    | TryAcquire(clientId: ClientId, capacity: nat)
    | RejectSelection(reason: FailureReason)
    | Register
    | Mark

  // One invoke dispatches its job and answers its caller.
  datatype FinishAction =
    | Dispatch(route: Route)
    | DispatchFault
    | Complete
    | ReleaseSlot
    | FixSlot

  // A result makes its way from the device to the waiter.
  datatype ResultAction =
    | Receive(handler: int, at: InstanceId, requestId: RequestId, answer: Answer)
    | Claim(handler: int)
    | Conclude(handler: int, message: int)
    | DeliverResult(message: int, handler: int)
    | Drop(handler: int)

  // Everything nobody in the protocol decides.
  datatype EnvironmentAction =
    | Tick(time: nat)
    | DeliverJob(message: int, open: bool)
    | FireTimer(requestId: RequestId, instance: InstanceId)
    | ResetSlots(clientId: ClientId)
    | ExpireWaiterKey(requestId: RequestId)
    | ExpireCompleted(requestId: RequestId)

  datatype Step =
    | Begin(requestId: RequestId, at: InstanceId, timeout: nat)
    | Setup(requestId: RequestId, setup: SetupAction)
    | Finish(requestId: RequestId, finish: FinishAction)
    | OfResult(result: ResultAction)
    | OfEnvironment(environment: EnvironmentAction)

  predicate SetupEnabled(inv: Invocation, action: SetupAction) {
    match action
    case ResolveProject => inv.phase.Resolving?
    case RejectProject(reason) => inv.phase.Resolving? && ProjectReason(reason)
    case TryAcquire(clientId, capacity) =>
      inv.phase.Selecting? && clientId != NO_CLIENT && MINIMUM_CAPACITY <= capacity <= MAXIMUM_CAPACITY
    case RejectSelection(reason) => inv.phase.Selecting? && SelectionReason(reason)
    case Register => inv.phase.Acquired?
    case Mark => inv.phase.Registered?
  }

  predicate FinishEnabled(s: State, inv: Invocation, action: FinishAction) {
    match action
    case Dispatch(route) => inv.phase.Marked? && (route.Remote? ==> route.message !in s.traffic.jobs)
    case DispatchFault => inv.phase.Registered? || inv.phase.Marked?
    case Complete => inv.phase.Awaiting? && inv.settlements != []
    case ReleaseSlot => inv.phase.Releasing?
    case FixSlot => inv.phase.Fixing?
  }

  predicate ResultEnabled(s: State, action: ResultAction) {
    match action
    case Receive(handler, at, r, answer) => handler !in s.traffic.handlers
    case Claim(handler) => handler in s.traffic.handlers && s.traffic.handlers[handler].Looked?
    case Conclude(handler, message) =>
      handler in s.traffic.handlers && s.traffic.handlers[handler].Claimed? && message !in s.traffic.results
    case DeliverResult(message, handler) => message in s.traffic.results && handler !in s.traffic.handlers
    case Drop(handler) => handler in s.traffic.handlers && s.traffic.handlers[handler].Dropping?
  }

  predicate EnvironmentEnabled(s: State, action: EnvironmentAction) {
    match action
    case Tick(time) => s.now < time
    case DeliverJob(message, open) => message in s.traffic.jobs
    case FireTimer(r, instance) =>
      r in WaitersAt(s.waiters, instance) && WaitersAt(s.waiters, instance)[r].dueAt <= s.now
    case ResetSlots(clientId) => true
    case ExpireWaiterKey(r) => r in s.keys.waiter
    case ExpireCompleted(r) => r in s.keys.completed
  }

  predicate Enabled(s: State, step: Step) {
    match step
    case Begin(r, at, timeout) => r !in s.invocations && 1 <= timeout
    case Setup(r, action) => r in s.invocations && SetupEnabled(s.invocations[r], action)
    case Finish(r, action) => r in s.invocations && FinishEnabled(s, s.invocations[r], action)
    case OfResult(action) => ResultEnabled(s, action)
    case OfEnvironment(action) => EnvironmentEnabled(s, action)
  }

  // ---------- what the steps do ----------

  function WithPhase(s: State, r: RequestId, phase: Phase): State
    requires r in s.invocations
  {
    s.(invocations := s.invocations[r := s.invocations[r].(phase := phase)])
  }

  // fail() and success(): build the response and hand one entry to the log queue.
  function Respond(s: State, r: RequestId, phase: Phase): State
    requires r in s.invocations
  {
    var inv := s.invocations[r];
    s.(invocations := s.invocations[r := inv.(phase := phase, logged := inv.logged + 1)])
  }

  function Settled(invocations: map<RequestId, Invocation>, r: RequestId, settlement: Settlement)
    : map<RequestId, Invocation>
  {
    if r !in invocations then invocations else
      invocations[r := invocations[r].(settlements := invocations[r].settlements + [settlement])]
  }

  // Take the waiter of `r` out of the map of `instance` and settle its promise.
  function Settle(s: State, instance: InstanceId, r: RequestId, settlement: Settlement): State {
    s.(waiters := s.waiters[instance := WaitersAt(s.waiters, instance) - {r}],
       invocations := Settled(s.invocations, r, settlement))
  }

  // cancelWaiter: nothing happens when the waiter is already gone.
  function CancelWaiter(s: State, r: RequestId): State
    requires r in s.invocations
  {
    var instance := s.invocations[r].at;
    if r in WaitersAt(s.waiters, instance) then Settle(s, instance, r, ByCancel) else s
  }

  function Abandon(s: State, r: RequestId, reason: FailureReason): State
    requires r in s.invocations
  {
    Respond(CancelWaiter(s, r), r, Releasing(Failure(reason)))
  }

  function JobOf(s: State, r: RequestId): Job
    requires r in s.invocations
  {
    var inv := s.invocations[r];
    Job(r, inv.clientId, inv.startedAt + inv.timeout)
  }

  // deliverLocalJob on an instance whose socket for the device is open or not.
  predicate Deliverable(s: State, job: Job, open: bool) {
    open && !PastDeadline(job.deadlineAt, s.now)
  }

  function Sent(s: State, job: Job): State {
    s.(sends := s.sends + {Send(job, s.now)})
  }

  function DoTryAcquire(s: State, r: RequestId, clientId: ClientId, capacity: nat): State
    requires r in s.invocations
  {
    var n := InFlight(s.keys, clientId) + 1;
    var inv := s.invocations[r];
    if n > capacity then
      s.(keys := s.keys.(inFlight := s.keys.inFlight[clientId := n - 1]))
    else
      s.(keys := s.keys.(inFlight := s.keys.inFlight[clientId := n]),
         invocations := s.invocations[r := inv.(phase := Acquired, clientId := clientId, acquired := inv.acquired + 1)],
         capacityUsed := s.capacityUsed[clientId := Max(CapacityUsed(s, clientId), capacity)])
  }

  function CapacityUsed(s: State, clientId: ClientId): nat {
    if clientId in s.capacityUsed then s.capacityUsed[clientId] else 0
  }

  function Max(a: nat, b: nat): nat { if a < b then b else a }

  function DoRegister(s: State, r: RequestId): State
    requires r in s.invocations
  {
    var inv := s.invocations[r];
    var dueAt := s.now + TimerDelay(inv.timeout);
    s.(waiters := s.waiters[inv.at := Registering(WaitersAt(s.waiters, inv.at), r, inv.clientId, dueAt)],
       invocations := s.invocations[r := inv.(phase := Registered, dueAt := dueAt)])
  }

  function DoMark(s: State, r: RequestId): State
    requires r in s.invocations
  {
    var inv := s.invocations[r];
    var key := WaiterKey(inv.at, s.now + MarkTimeToLive(inv.timeout));
    WithPhase(s.(keys := s.keys.(waiter := s.keys.waiter[r := key])), r, Marked)
  }

  function DoDispatch(s: State, r: RequestId, route: Route): State
    requires r in s.invocations
  {
    var job := JobOf(s, r);
    match route
    case NoSession => Abandon(s, r, Unavailable)
    case LocalSocket(open) =>
      if Deliverable(s, job, open) then WithPhase(Sent(s, job), r, Awaiting)
      else Abandon(s, r, Unavailable)
    case Remote(message) =>
      WithPhase(s.(traffic := s.traffic.(jobs := s.traffic.jobs[message := job])), r, Awaiting)
  }

  function DoDeliverJob(s: State, message: int, open: bool): State
    requires message in s.traffic.jobs
  {
    var job := s.traffic.jobs[message];
    var t := s.(traffic := s.traffic.(jobs := s.traffic.jobs - {message}));
    if Deliverable(s, job, open) then Sent(t, job) else t
  }

  function DoComplete(s: State, r: RequestId): State
    requires r in s.invocations && s.invocations[r].settlements != []
  {
    match s.invocations[r].settlements[0]
    case ByResult(answer) => Respond(s, r, Releasing(Success(answer)))
    case _ => Respond(s, r, Releasing(Failure(TimedOut)))
  }

  function DoReleaseSlot(s: State, r: RequestId): State
    requires r in s.invocations && s.invocations[r].phase.Releasing?
  {
    var inv := s.invocations[r];
    var remaining := InFlight(s.keys, inv.clientId) - 1;
    var phase := if remaining < 0 then Fixing(inv.phase.response) else Returned(inv.phase.response);
    s.(keys := s.keys.(inFlight := s.keys.inFlight[inv.clientId := remaining]),
       invocations := s.invocations[r := inv.(phase := phase, released := inv.released + 1)])
  }

  function DoFixSlot(s: State, r: RequestId): State
    requires r in s.invocations && s.invocations[r].phase.Fixing?
  {
    var inv := s.invocations[r];
    WithPhase(s.(keys := s.keys.(inFlight := s.keys.inFlight[inv.clientId := 0])), r, Returned(inv.phase.response))
  }

  function WithHandlers(s: State, handlers: map<int, Handler>): State {
    s.(traffic := s.traffic.(handlers := handlers))
  }

  function DoReceive(s: State, handler: int, at: InstanceId, r: RequestId, answer: Answer): State {
    var t := s.(received := s.received + {(r, answer)});
    if r in s.keys.waiter then
      WithHandlers(t, s.traffic.handlers[handler := Looked(r, answer, at, s.keys.waiter[r].instance)])
    else
      t  // answered 'late'
  }

  function DoClaim(s: State, handler: int): State
    requires handler in s.traffic.handlers && s.traffic.handlers[handler].Looked?
  {
    var h := s.traffic.handlers[handler];
    if h.requestId in s.keys.completed then
      WithHandlers(s, s.traffic.handlers - {handler})  // answered 'late'
    else
      WithHandlers(s.(keys := s.keys.(completed := s.keys.completed + {h.requestId})),
                   s.traffic.handlers[handler := Claimed(h.requestId, h.answer, h.at, h.target)])
  }

  function Acknowledge(invocations: map<RequestId, Invocation>, r: RequestId, answer: Answer)
    : map<RequestId, Invocation>
  {
    if r !in invocations then invocations else
      invocations[r := invocations[r].(acks := invocations[r].acks + [answer])]
  }

  function DoConclude(s: State, handler: int, message: int): State
    requires handler in s.traffic.handlers && s.traffic.handlers[handler].Claimed?
  {
    var h := s.traffic.handlers[handler];
    var t := WithHandlers(s, s.traffic.handlers - {handler});
    if h.target != h.at then  // answered 'routed'
      t.(traffic := t.traffic.(results := s.traffic.results[message := RoutedResult(h.target, h.requestId, h.answer)]))
    else if Resolves(WaitersAt(s.waiters, h.at), h.requestId, h.answer.fromClientId) then  // answered 'ok'
      var u := Settle(t, h.at, h.requestId, ByResult(h.answer));
      u.(invocations := Acknowledge(u.invocations, h.requestId, h.answer))
    else  // 'mismatch' once the key is deleted
      WithHandlers(s, s.traffic.handlers[handler := Dropping(h.requestId)])
  }

  function DoDeliverResult(s: State, message: int, handler: int): State
    requires message in s.traffic.results
  {
    var m := s.traffic.results[message];
    var t := s.(traffic := s.traffic.(results := s.traffic.results - {message}));
    if Resolves(WaitersAt(s.waiters, m.target), m.requestId, m.answer.fromClientId) then
      Settle(t, m.target, m.requestId, ByResult(m.answer))
    else
      WithHandlers(t, s.traffic.handlers[handler := Dropping(m.requestId)])
  }

  function DoDrop(s: State, handler: int): State
    requires handler in s.traffic.handlers && s.traffic.handlers[handler].Dropping?
  {
    WithHandlers(s.(keys := s.keys.(completed := s.keys.completed - {s.traffic.handlers[handler].requestId})),
                 s.traffic.handlers - {handler})
  }

  function DoSetup(s: State, r: RequestId, action: SetupAction): State
    requires r in s.invocations && SetupEnabled(s.invocations[r], action)
  {
    match action
    case ResolveProject => WithPhase(s, r, Selecting)
    case RejectProject(reason) => Respond(s, r, Returned(Failure(reason)))
    case TryAcquire(clientId, capacity) => DoTryAcquire(s, r, clientId, capacity)
    case RejectSelection(reason) => Respond(s, r, Returned(Failure(reason)))
    case Register => DoRegister(s, r)
    case Mark => DoMark(s, r)
  }

  function DoFinish(s: State, r: RequestId, action: FinishAction): State
    requires r in s.invocations && FinishEnabled(s, s.invocations[r], action)
  {
    match action
    case Dispatch(route) => DoDispatch(s, r, route)
    case DispatchFault => Abandon(s, r, InfrastructureError)
    case Complete => DoComplete(s, r)
    case ReleaseSlot => DoReleaseSlot(s, r)
    case FixSlot => DoFixSlot(s, r)
  }

  function DoResult(s: State, action: ResultAction): State
    requires ResultEnabled(s, action)
  {
    match action
    case Receive(handler, at, r, answer) => DoReceive(s, handler, at, r, answer)
    case Claim(handler) => DoClaim(s, handler)
    case Conclude(handler, message) => DoConclude(s, handler, message)
    case DeliverResult(message, handler) => DoDeliverResult(s, message, handler)
    case Drop(handler) => DoDrop(s, handler)
  }

  function DoEnvironment(s: State, action: EnvironmentAction): State
    requires EnvironmentEnabled(s, action)
  {
    match action
    case Tick(time) => s.(now := time)
    case DeliverJob(message, open) => DoDeliverJob(s, message, open)
    case FireTimer(r, instance) => Settle(s, instance, r, ByTimeout)
    case ResetSlots(clientId) => s.(keys := s.keys.(inFlight := s.keys.inFlight - {clientId}))
    case ExpireWaiterKey(r) => s.(keys := s.keys.(waiter := s.keys.waiter - {r}))
    case ExpireCompleted(r) => s.(keys := s.keys.(completed := s.keys.completed - {r}))
  }

  function DoBegin(s: State, r: RequestId, at: InstanceId, timeout: nat): State {
    s.(invocations := s.invocations[r := Invocation(at, s.now, timeout, NO_CLIENT, 0, Resolving, [], 0, 0, 0, [])])
  }

  function Apply(s: State, step: Step): State
    requires Enabled(s, step)
  {
    match step
    case Begin(r, at, timeout) => DoBegin(s, r, at, timeout)
    case Setup(r, action) => DoSetup(s, r, action)
    case Finish(r, action) => DoFinish(s, r, action)
    case OfResult(action) => DoResult(s, action)
    case OfEnvironment(action) => DoEnvironment(s, action)
  }

  // ---------- runs ----------

  // `steps`, oldest first, is a run from the empty cluster at clock value `start`.
  predicate Run(start: nat, steps: seq<Step>)
    decreases |steps|, 0
  {
    1 <= start &&
    (steps == [] ||
     var before := steps[..|steps| - 1];
     Run(start, before) && Enabled(After(start, before), steps[|steps| - 1]))
  }

  function After(start: nat, steps: seq<Step>): State
    requires Run(start, steps)
    decreases |steps|, 1
  {
    if steps == [] then Initial(start) else
      var before := steps[..|steps| - 1];
      Apply(After(start, before), steps[|steps| - 1])
  }
}
