/**
  One call of invoke, from the request to the response, over the presence
  service and the connection registry of its instance. What the project table,
  Redis faults and the device do is given by an environment.
*/
module RpcService {
  import opened Options
  import opened WaiterTable
  import opened Presence
  import Protocol = InvokeProtocol
  import opened Registry

  const DEFAULT_TIMEOUT_SECONDS: nat := 20
  const MILLISECONDS_PER_SECOND: nat := 1000

  datatype Status = StatusOk | StatusError | StatusTimeout | StatusReported(text: int)
    | NoProject | Disabled | Offline | NoDeviceOnline | Rejected | Unavailable

  // A result as the device reports it. An empty status text counts as absent.
  datatype DeviceResult = DeviceResult(
    isOk: Option<bool>, status: Option<Status>, httpCode: Option<nat>, payload: Payload)

  datatype InvokeInput = InvokeInput(clientId: Option<ClientId>, timeoutSeconds: Option<nat>)

  datatype InvokeResponse = InvokeResponse(
    requestId: RequestId, clientId: Option<ClientId>, isOk: bool, status: Status, httpCode: nat,
    payload: Option<Payload>)

  datatype ProjectLookup = LookupFails | NotFound | Found(project: ProjectId, enabled: bool)

  // What the rest of the world does during one invoke.
  datatype Environment = Environment(
    now: nat,
    lookup: ProjectLookup,
    listed: seq<ClientId>,            // how SMEMBERS lists the project's devices
    selectionFails: bool,             // a Redis fault before a device is chosen
    markFails: bool,
    dispatchFails: bool,
    result: Option<DeviceResult>)     // what the device answers before the timer goes off, if anything

  ghost predicate Admitted(env: Environment) {
    env.lookup.Found? && env.lookup.enabled
  }

  function IsSuccessful(result: DeviceResult): bool {
    match result.isOk
    case Some(isOk) => isOk
    case None => result.status == Some(StatusOk)
  }

  function ResultStatus(result: DeviceResult): Status {
    match result.status
    case Some(status) => status
    case None => if IsSuccessful(result) then StatusOk else StatusError
  }

  datatype Selected = Device(clientId: ClientId) | Answered(response: InvokeResponse)

  ghost predicate Refuses(selected: Selected, status: Status, httpCode: nat) {
    selected.Answered? && selected.response.status == status && selected.response.httpCode == httpCode
  }

  // The timeout asked for, twenty seconds unless given.
  ghost function Seconds(input: InvokeInput): nat {
    if input.timeoutSeconds == None then 20 else input.timeoutSeconds.value
  }

  // The device's payload, status and code, and its verdict: its own flag when it gives one, whether its
  // status is ok otherwise. A missing status follows the verdict, a missing code is 200.
  ghost predicate Delivers(response: InvokeResponse, env: Environment) {
    env.result.Some? && response.payload == Some(env.result.value.payload) &&
    (env.result.value.isOk.Some? ==> response.isOk == env.result.value.isOk.value) &&
    (env.result.value.isOk.None? ==> (response.isOk <==> env.result.value.status == Some(StatusOk))) &&
    (env.result.value.status.Some? ==> response.status == env.result.value.status.value) &&
    (env.result.value.status.None? ==> response.status == if response.isOk then StatusOk else StatusError) &&
    response.httpCode == if env.result.value.httpCode.Some? then env.result.value.httpCode.value else 200
  }

  ghost predicate Answers(response: InvokeResponse, status: Status, httpCode: nat) {
    response.status == status && response.httpCode == httpCode
  }

  // The caller names a device; an empty name counts as none.
  ghost predicate Names(input: InvokeInput) {
    input.clientId.Some? && input.clientId.value != NO_CLIENT
  }

  class RpcService {
    const presence: PresenceService
    const registry: ConnectionRegistry
    var logs: seq<InvokeResponse>   // the responses handed to the request log, one entry each

    constructor (presence: PresenceService, registry: ConnectionRegistry)
      ensures this.presence == presence && this.registry == registry && logs == []
    {
      this.presence, this.registry, logs := presence, registry, [];
    }

    method Fail(r: RequestId, clientId: Option<ClientId>, status: Status, httpCode: nat)
      returns (response: InvokeResponse)
      modifies this`logs
      ensures response == InvokeResponse(r, clientId, false, status, httpCode, None)
      ensures logs == old(logs) + [response]
    {
      response := InvokeResponse(r, clientId, false, status, httpCode, None);
      logs := logs + [response];
    }

    method Succeed(r: RequestId, clientId: ClientId, result: DeviceResult) returns (response: InvokeResponse)
      modifies this`logs
      ensures response.requestId == r && response.clientId == Some(clientId)
      ensures result.isOk.Some? ==> response.isOk == result.isOk.value
      ensures result.isOk.None? ==> (response.isOk <==> result.status == Some(StatusOk))
      ensures response.payload == Some(result.payload)
      ensures result.status.None? ==> response.status == if response.isOk then StatusOk else StatusError
      ensures result.status.Some? ==> response.status == result.status.value
      ensures response.httpCode == if result.httpCode.Some? then result.httpCode.value else 200
      ensures logs == old(logs) + [response]
    {
      var httpCode := if result.httpCode.Some? then result.httpCode.value else 200;
      response := InvokeResponse(
        r, Some(clientId), IsSuccessful(result), ResultStatus(result), httpCode, Some(result.payload));
      logs := logs + [response];
    }

    // Chooses the device and takes one of its slots, or answers why not.
    method SelectDevice(r: RequestId, input: InvokeInput, project: ProjectId, env: Environment)
      returns (selected: Selected)
      requires NoDuplicates(env.listed) && Lists(env.listed, presence.MembersOf(project))
      modifies this`logs, presence`members, presence`inFlight, presence`cursors
      ensures logs == old(logs) + (if selected.Answered? then [selected.response] else [])
      ensures selected.Answered? ==>
                selected.response.requestId == r && !selected.response.isOk && selected.response.payload == None
      ensures env.selectionFails ==> Refuses(selected, StatusError, 503)
      ensures !env.selectionFails && Names(input) ==>
                if input.clientId.value !in presence.online then Refuses(selected, Offline, 503)
                else if !SlotFree(presence.capacities, old(presence.inFlight), input.clientId.value)
                then Refuses(selected, Rejected, 429)
                else selected == Device(input.clientId.value)
      ensures !env.selectionFails && Names(input) && input.clientId.value !in presence.capacities ==>
                (selected == Device(input.clientId.value) <==>
                 input.clientId.value in presence.online && Count(old(presence.inFlight), input.clientId.value) < 16)
      ensures !env.selectionFails && Names(input) && input.clientId.value in presence.capacities ==>
                var reported := presence.capacities[input.clientId.value];
                reported.Numeric? && IsInteger(reported.value) && 1.0 <= reported.value <= 1024.0 ==>
                  (selected == Device(input.clientId.value) <==>
                   input.clientId.value in presence.online &&
                   Count(old(presence.inFlight), input.clientId.value) as real < reported.value)
      ensures !env.selectionFails && !Names(input) ==>
                if old(presence.MembersOf(project)) * presence.online == {} then Refuses(selected, NoDeviceOnline, 503)
                else if forall c :: c in old(presence.MembersOf(project)) * presence.online ==>
                          !SlotFree(presence.capacities, old(presence.inFlight), c)
                then Refuses(selected, Rejected, 429)
                else selected.Device?
      ensures forall d :: Count(presence.inFlight, d) ==
                Count(old(presence.inFlight), d) + (if selected == Device(d) then 1 else 0)
      ensures selected.Device? ==>
                selected.clientId in presence.online
                && SlotFree(presence.capacities, old(presence.inFlight), selected.clientId)
    {
      if env.selectionFails {
        var response := Fail(r, input.clientId, StatusError, 503);
        return Answered(response);
      }
      if input.clientId.Some? && input.clientId.value != NO_CLIENT {
        var clientId := input.clientId.value;
        if clientId !in presence.online {
          var response := Fail(r, Some(clientId), Offline, 503);
          return Answered(response);
        }
        var capacity := presence.GetMaxInFlight(clientId);
        var acquired := presence.TryAcquireSlot(clientId, capacity);
        if !acquired {
          var response := Fail(r, Some(clientId), Rejected, 429);
          return Answered(response);
        }
        return Device(clientId);
      }
      var selection, names := presence.PickOnlineAcquire(project, env.listed);
      match selection
      case NoDevice =>
        var response := Fail(r, None, NoDeviceOnline, 503);
        return Answered(response);
      case NoneFree =>
        var response := Fail(r, None, Rejected, 429);
        return Answered(response);
      case Chosen(clientId) =>
        return Device(clientId);
    }

    // The job finds its way: another instance holds the session, or this one can write to an open socket in time.
    ghost predicate Reaches(r: RequestId, clientId: ClientId, timeout: nat, env: Environment)
      reads registry`sockets, registry.redis`session, registry.sockets.Values
    {
      clientId in registry.redis.session &&
      (registry.redis.session[clientId].instance == registry.instance ==>
         registry.CanDeliver(clientId, Protocol.Job(r, clientId, env.now + timeout), env.now))
    }

    // The instance at the other end of the bus that holds the device's session, if any.
    ghost predicate HeldElsewhere(clientId: ClientId)
      reads registry.redis`session
    {
      clientId in registry.redis.session && registry.redis.session[clientId].instance != registry.instance
    }

    // Marks the waiter and dispatches the job. When that fails or finds no way the waiter is cancelled and
    // the failure answered.
    method DispatchJob(r: RequestId, clientId: ClientId, timeout: nat, env: Environment)
      returns (failure: Option<InvokeResponse>)
      requires r in registry.waiters
      modifies this`logs, registry`waiters, registry`settlements, registry.redis`waiter, registry.redis`published,
               registry.sockets.Values
      ensures failure.None? <==> !env.markFails && !env.dispatchFails && old(Reaches(r, clientId, timeout, env))
      ensures failure.None? ==>
                logs == old(logs) && registry.waiters == old(registry.waiters)
                && registry.settlements == old(registry.settlements)
      ensures failure.Some? ==>
                logs == old(logs) + [failure.value] && registry.waiters == old(registry.waiters) - {r}
                && registry.settlements == old(registry.settlements)[r := Protocol.ByCancel]
      ensures failure.Some? ==>
                failure.value == InvokeResponse(r, Some(clientId), false,
                  if env.markFails || env.dispatchFails then StatusError else Unavailable, 503, None)
      ensures registry.redis.waiter ==
              if env.markFails then old(registry.redis.waiter)
              else old(registry.redis.waiter)[r := Protocol.WaiterKey(registry.instance, env.now + timeout + 5000)]
      ensures registry.redis.published ==
              if env.markFails || env.dispatchFails || !HeldElsewhere(clientId) then old(registry.redis.published)
              else old(registry.redis.published) +
                   [SendJob(registry.redis.session[clientId].instance, clientId,
                            Protocol.Job(r, clientId, env.now + timeout))]
      ensures failure.None? && !HeldElsewhere(clientId) ==> clientId in registry.sockets
      ensures forall socket <- registry.sockets.Values :: socket.sent ==
                if failure.None? && !HeldElsewhere(clientId) && socket == registry.sockets[clientId]
                then old(socket.sent) + [Protocol.Job(r, clientId, env.now + timeout)] else old(socket.sent)
    {
      var job := Protocol.Job(r, clientId, env.now + timeout);
      if env.markFails {
        registry.CancelWaiter(r);
        var response := Fail(r, Some(clientId), StatusError, 503);
        return Some(response);
      }
      registry.MarkWaiting(r, timeout, env.now);
      if env.dispatchFails {
        registry.CancelWaiter(r);
        var response := Fail(r, Some(clientId), StatusError, 503);
        return Some(response);
      }
      var dispatched := registry.DispatchJob(clientId, job, env.now);
      if dispatched {
        return None;
      }
      registry.CancelWaiter(r);
      var response := Fail(r, Some(clientId), Unavailable, 503);
      return Some(response);
    }

    // Registers the waiter, dispatches the job, and answers with the device's result or with why there is none.
    method DispatchAndAwaitResult(r: RequestId, clientId: ClientId, timeout: nat, env: Environment)
      returns (response: InvokeResponse)
      requires r !in registry.waiters
      modifies this`logs, registry`waiters, registry`settlements, registry.redis`waiter, registry.redis`published,
               registry.sockets.Values
      ensures logs == old(logs) + [response] && response.requestId == r && response.clientId == Some(clientId)
      ensures registry.waiters == old(registry.waiters)
      ensures r in registry.settlements
      ensures registry.settlements == old(registry.settlements)[r := registry.settlements[r]]
      ensures env.markFails || env.dispatchFails ==>
                registry.settlements[r] == Protocol.ByCancel
                && !response.isOk && response.status == StatusError && response.httpCode == 503
      ensures !env.markFails && !env.dispatchFails && !old(Reaches(r, clientId, timeout, env)) ==>
                registry.settlements[r] == Protocol.ByCancel
                && !response.isOk && response.status == Unavailable && response.httpCode == 503
      ensures !env.markFails && !env.dispatchFails && old(Reaches(r, clientId, timeout, env)) && env.result.None? ==>
                registry.settlements[r] == Protocol.ByTimeout
                && !response.isOk && response.status == StatusTimeout && response.httpCode == 504
      ensures !env.markFails && !env.dispatchFails && old(Reaches(r, clientId, timeout, env)) && env.result.Some? ==>
                registry.settlements[r] == Protocol.ByResult(Answer(clientId, env.result.value.payload))
                && response.payload == Some(env.result.value.payload)
      ensures response.payload.Some? ==> Delivers(response, env)
      ensures response.payload.None? ==> !response.isOk
      ensures registry.redis.waiter ==
              if env.markFails then old(registry.redis.waiter)
              else old(registry.redis.waiter)[r := Protocol.WaiterKey(registry.instance, env.now + timeout + 5000)]
      ensures registry.redis.published ==
              if env.markFails || env.dispatchFails || !HeldElsewhere(clientId) then old(registry.redis.published)
              else old(registry.redis.published) +
                   [SendJob(registry.redis.session[clientId].instance, clientId,
                            Protocol.Job(r, clientId, env.now + timeout))]
      ensures forall socket <- registry.sockets.Values ::
                socket.sent == old(socket.sent) ||
                (clientId in registry.sockets && socket == registry.sockets[clientId] &&
                 socket.sent == old(socket.sent) + [Protocol.Job(r, clientId, env.now + timeout)])
      ensures !HeldElsewhere(clientId) && registry.settlements[r] != Protocol.ByCancel ==>
                clientId in registry.sockets &&
                registry.sockets[clientId].sent ==
                old(registry.sockets[clientId].sent) + [Protocol.Job(r, clientId, env.now + timeout)]
    {
      registry.RegisterWaiter(r, clientId, timeout, env.now);
      var failure := DispatchJob(r, clientId, timeout, env);
      if failure.Some? {
        return failure.value;
      }
      match env.result
      case None =>
        registry.FireTimer(r, env.now + (if 1 <= timeout <= 2147483647 then timeout else 1));
        response := Fail(r, Some(clientId), StatusTimeout, 504);
      case Some(result) =>
        var resolved := registry.ResolveLocalWaiter(r, Answer(clientId, result.payload));
        response := Succeed(r, clientId, result);
    }

    // The waiter is marked in Redis for the whole timeout and five seconds more, unless that failed.
    ghost predicate Waits(waiter: map<RequestId, Protocol.WaiterKey>, r: RequestId, input: InvokeInput,
                          env: Environment)
      reads registry.redis`waiter
    {
      registry.redis.waiter ==
      if env.markFails then waiter
      else waiter[r := Protocol.WaiterKey(registry.instance, env.now + 1000 * Seconds(input) + 5000)]
    }

    // Waits for the chosen device's result and gives its slot back in any case.
    method ServeWith(r: RequestId, clientId: ClientId, input: InvokeInput, env: Environment)
      returns (response: InvokeResponse)
      requires r !in registry.waiters
      modifies this`logs, presence`inFlight, registry`waiters, registry`settlements, registry.redis`waiter,
               registry.redis`published, registry.sockets.Values
      ensures logs == old(logs) + [response] && response.requestId == r && response.clientId == Some(clientId)
      ensures registry.waiters == old(registry.waiters)
      ensures forall d :: Count(presence.inFlight, d) ==
                if d != clientId then Count(old(presence.inFlight), d)
                else if Count(old(presence.inFlight), d) > 0 then Count(old(presence.inFlight), d) - 1 else 0
      ensures Waits(old(registry.redis.waiter), r, input, env)
      ensures response.payload.Some? ==> Delivers(response, env)
      ensures response.payload.None? ==> !response.isOk
      ensures registry.redis.published == old(registry.redis.published) ||
              (HeldElsewhere(clientId) &&
               registry.redis.published == old(registry.redis.published) +
                 [SendJob(registry.redis.session[clientId].instance, clientId,
                          Protocol.Job(r, clientId, env.now + 1000 * Seconds(input)))])
      ensures forall socket <- registry.sockets.Values ::
                socket.sent == old(socket.sent) ||
                (clientId in registry.sockets && socket == registry.sockets[clientId] &&
                 socket.sent == old(socket.sent) + [Protocol.Job(r, clientId, env.now + 1000 * Seconds(input))])
    {
      var timeoutSeconds := if input.timeoutSeconds.Some? then input.timeoutSeconds.value else DEFAULT_TIMEOUT_SECONDS;
      assert timeoutSeconds * MILLISECONDS_PER_SECOND == 1000 * Seconds(input);
      response := DispatchAndAwaitResult(r, clientId, timeoutSeconds * MILLISECONDS_PER_SECOND, env);
      presence.ReleaseSlot(clientId);
    }

    // From the project on: chooses the device, waits for its result and gives the slot back.
    method Serve(r: RequestId, input: InvokeInput, project: ProjectId, env: Environment)
      returns (response: InvokeResponse)
      requires r !in registry.waiters
      requires NoDuplicates(env.listed) && Lists(env.listed, presence.MembersOf(project))
      modifies this`logs, presence`members, presence`inFlight, presence`cursors,
               registry`waiters, registry`settlements, registry.redis`waiter, registry.redis`published,
               registry.sockets.Values
      ensures logs == old(logs) + [response] && response.requestId == r
      ensures registry.waiters == old(registry.waiters)
      ensures forall d :: 0 <= Count(old(presence.inFlight), d) ==>
                Count(presence.inFlight, d) == Count(old(presence.inFlight), d)
      ensures env.selectionFails ==> response.status == StatusError && response.httpCode == 503
      ensures !env.selectionFails && Names(input) ==>
                if input.clientId.value !in presence.online then Answers(response, Offline, 503)
                else if !SlotFree(presence.capacities, old(presence.inFlight), input.clientId.value)
                then Answers(response, Rejected, 429)
                else response.clientId == input.clientId && Waits(old(registry.redis.waiter), r, input, env)
      ensures !env.selectionFails && !Names(input) ==>
                if old(presence.MembersOf(project)) * presence.online == {}
                then Answers(response, NoDeviceOnline, 503)
                else if forall c :: c in old(presence.MembersOf(project)) * presence.online ==>
                          !SlotFree(presence.capacities, old(presence.inFlight), c)
                then Answers(response, Rejected, 429)
                else response.clientId.Some? && Waits(old(registry.redis.waiter), r, input, env)
      ensures response.payload.Some? ==>
                Delivers(response, env) && response.clientId.Some? && response.clientId.value in presence.online
      ensures response.payload.None? ==> !response.isOk
      ensures registry.redis.published == old(registry.redis.published) ||
              (response.clientId.Some? && HeldElsewhere(response.clientId.value) &&
               registry.redis.published == old(registry.redis.published) +
                 [SendJob(registry.redis.session[response.clientId.value].instance, response.clientId.value,
                          Protocol.Job(r, response.clientId.value, env.now + 1000 * Seconds(input)))])
      ensures forall socket <- registry.sockets.Values ::
                socket.sent == old(socket.sent) ||
                (response.clientId.Some? && response.clientId.value in registry.sockets &&
                 socket == registry.sockets[response.clientId.value] &&
                 socket.sent == old(socket.sent) +
                   [Protocol.Job(r, response.clientId.value, env.now + 1000 * Seconds(input))])
    {
      var selected := SelectDevice(r, input, project, env);
      match selected
      case Answered(refusal) =>
        response := refusal;
      case Device(clientId) =>
        response := ServeWith(r, clientId, input, env);
    }

    // One invoke hands exactly one entry to the log, gives back the slot it took, and leaves no waiter behind,
    // on every path.
    method Invoke(r: RequestId, input: InvokeInput, env: Environment) returns (response: InvokeResponse)
      requires r !in registry.waiters
      requires env.lookup.Found? ==>
                 NoDuplicates(env.listed) && Lists(env.listed, presence.MembersOf(env.lookup.project))
      modifies this`logs, presence`members, presence`inFlight, presence`cursors,
               registry`waiters, registry`settlements, registry.redis`waiter, registry.redis`published,
               registry.sockets.Values
      ensures logs == old(logs) + [response] && response.requestId == r
      ensures registry.waiters == old(registry.waiters)
      ensures forall d :: 0 <= Count(old(presence.inFlight), d) ==>
                Count(presence.inFlight, d) == Count(old(presence.inFlight), d)
      ensures env.lookup == LookupFails ==> response.status == StatusError && response.httpCode == 503
      ensures env.lookup == NotFound ==> response.status == NoProject && response.httpCode == 404
      ensures env.lookup.Found? && !env.lookup.enabled ==> response.status == Disabled && response.httpCode == 403
      ensures Admitted(env) && env.selectionFails ==> response.status == StatusError && response.httpCode == 503
      ensures Admitted(env) && !env.selectionFails && Names(input) ==>
                if input.clientId.value !in presence.online then Answers(response, Offline, 503)
                else if !SlotFree(presence.capacities, old(presence.inFlight), input.clientId.value)
                then Answers(response, Rejected, 429)
                else response.clientId == input.clientId && Waits(old(registry.redis.waiter), r, input, env)
      ensures Admitted(env) && !env.selectionFails && !Names(input) ==>
                if old(presence.MembersOf(env.lookup.project)) * presence.online == {}
                then Answers(response, NoDeviceOnline, 503)
                else if forall c :: c in old(presence.MembersOf(env.lookup.project)) * presence.online ==>
                          !SlotFree(presence.capacities, old(presence.inFlight), c)
                then Answers(response, Rejected, 429)
                else response.clientId.Some? && Waits(old(registry.redis.waiter), r, input, env)
      ensures response.payload.Some? ==>
                && Admitted(env) && Delivers(response, env)
                && response.clientId.Some? && response.clientId.value in presence.online
                && (env.result.value.isOk.Some? ==> response.isOk == env.result.value.isOk.value)
                && (env.result.value.isOk.None? ==> (response.isOk <==> env.result.value.status == Some(StatusOk)))
      ensures response.payload.None? ==> !response.isOk
      ensures registry.redis.published == old(registry.redis.published) ||
              (response.clientId.Some? && HeldElsewhere(response.clientId.value) &&
               registry.redis.published == old(registry.redis.published) +
                 [SendJob(registry.redis.session[response.clientId.value].instance, response.clientId.value,
                          Protocol.Job(r, response.clientId.value, env.now + 1000 * Seconds(input)))])
      ensures forall socket <- registry.sockets.Values ::
                socket.sent == old(socket.sent) ||
                (response.clientId.Some? && response.clientId.value in registry.sockets &&
                 socket == registry.sockets[response.clientId.value] &&
                 socket.sent == old(socket.sent) +
                   [Protocol.Job(r, response.clientId.value, env.now + 1000 * Seconds(input))])
    {
      match env.lookup
      case LookupFails =>
        response := Fail(r, None, StatusError, 503);
      case NotFound =>
        response := Fail(r, None, NoProject, 404);
      case Found(project, enabled) =>
        if !enabled {
          response := Fail(r, None, Disabled, 403);
          return;
        }
        response := Serve(r, input, project, env);
    }
  }
}
