/** The device client: its fields, its event handlers, and the runtime's live timers. */
module R2RpcDevice {
  import opened Options
  import opened DeviceProtocol

  class R2RpcDevice {
    const clientId: int
    const backoff: Backoff
    var connectionState: Connection
    var webSocket: Option<SocketId>
    var heartbeatTimer: Option<TimerId>
    var reconnectTimer: Option<TimerId>
    var reconnectAttempt: nat
    var shouldRun: bool
    // The runtime: what has been created and which timers are live.
    var sockets: nat
    var timers: nat
    var intervals: set<TimerId>
    var timeouts: map<TimerId, real>

    constructor (clientId: int, backoff: Backoff)
      ensures this.clientId == clientId && this.backoff == backoff
      ensures Contents() == INITIAL && Orderly(Contents())
    {
      this.clientId, this.backoff := clientId, backoff;
      connectionState, webSocket, heartbeatTimer, reconnectTimer := Idle, None, None, None;
      reconnectAttempt, shouldRun, sockets, timers, intervals, timeouts := 0, false, 0, 0, {}, map[];
    }

    ghost function Contents(): State
      reads this
    {
      State(connectionState, webSocket, heartbeatTimer, reconnectTimer, reconnectAttempt, shouldRun,
            sockets, timers, intervals, timeouts)
    }

    method Start()
      requires Orderly(Contents())
      modifies this
      ensures Contents() == AfterStart(old(Contents())) && Orderly(Contents())
      ensures shouldRun
      ensures old(shouldRun) ==> Contents() == old(Contents())
      ensures !old(shouldRun) ==>
                connectionState == Connecting && webSocket == Some(old(sockets)) && sockets == old(sockets) + 1 &&
                reconnectAttempt == 0 && intervals == old(intervals) && timeouts == old(timeouts)
    {
      EventKeepsOrder(backoff, Contents(), Event.Start);
      if shouldRun {
        return;
      }
      shouldRun := true;
      reconnectAttempt := 0;
      OpenConnection(Connecting);
    }

    method Stop()
      requires Orderly(Contents())
      modifies this
      ensures Contents() == AfterStop(old(Contents())) && Orderly(Contents())
      ensures !shouldRun && connectionState == Stopped && timeouts == map[] && intervals == {}
      ensures webSocket == None && sockets == old(sockets) && timers == old(timers)
    {
      EventKeepsOrder(backoff, Contents(), Event.Stop);
      shouldRun := false;
      ClearTimers();
      webSocket := None;
      connectionState := Stopped;
    }

    method OpenConnection(state: Connection)
      modifies this
      ensures Contents() == DeviceProtocol.OpenConnection(old(Contents()), state)
    {
      connectionState := state;
      webSocket := Some(sockets);
      sockets := sockets + 1;
    }

    // A welcome carries the client id the server knows this connection by; anything else is no welcome.
    method HandleMessage(socket: SocketId, welcomed: Option<int>) returns (closesSocket: bool)
      requires Orderly(Contents()) && socket < sockets
      modifies this
      ensures Contents() == AfterMessage(old(Contents()), socket,
                if welcomed.None? then OtherMessage
                else if welcomed.value == clientId then Welcome else WelcomeOfAnother)
      ensures Orderly(Contents())
      ensures closesSocket <==> old(webSocket) == Some(socket) && welcomed.Some? && welcomed.value != clientId
      ensures old(webSocket) != Some(socket) || welcomed != Some(clientId) ==> Contents() == old(Contents())
      ensures old(webSocket) == Some(socket) && welcomed == Some(clientId) ==>
                connectionState == Online && reconnectAttempt == 0 && webSocket == Some(socket) &&
                intervals == {old(timers)} && timers == old(timers) + 1 && timeouts == old(timeouts)
    {
      ghost var message :=
        if welcomed.None? then OtherMessage else if welcomed.value == clientId then Welcome else WelcomeOfAnother;
      EventKeepsOrder(backoff, Contents(), Received(socket, message));
      if webSocket != Some(socket) {
        return false;
      }
      if welcomed.None? {
        return false;
      }
      closesSocket := HandleWelcome(welcomed.value);
    }

    method HandleWelcome(welcomed: int) returns (mismatch: bool)
      modifies this
      ensures mismatch == (welcomed != clientId)
      ensures Contents() == if mismatch then old(Contents())
                            else DeviceProtocol.StartHeartbeat(old(Contents()).(attempt := 0, connection := Online))
    {
      if welcomed != clientId {
        return true;
      }
      reconnectAttempt := 0;
      connectionState := Online;
      StartHeartbeat();
      return false;
    }

    method StartHeartbeat()
      modifies this
      ensures Contents() == DeviceProtocol.StartHeartbeat(old(Contents()))
    {
      if heartbeatTimer.Some? {
        intervals := intervals - {heartbeatTimer.value};
      }
      heartbeatTimer := Some(timers);
      intervals := intervals + {timers};
      timers := timers + 1;
    }

    // A close of the current socket while the device does not run cannot happen in an orderly state.
    method HandleClose(socket: SocketId, code: int)
      requires socket < sockets
      modifies this
      ensures Contents() == AfterClose(backoff, old(Contents()), socket, code)
      ensures old(Orderly(Contents())) ==> Orderly(Contents())
      ensures old(webSocket) != Some(socket) ==> Contents() == old(Contents())
      ensures old(webSocket) == Some(socket) ==>
                webSocket == None && (shouldRun <==> old(shouldRun) && code != 4001) &&
                connectionState == if shouldRun then Reconnecting else Stopped
      ensures old(webSocket) == Some(socket) && shouldRun ==>
                reconnectAttempt == old(reconnectAttempt) + 1 && reconnectTimer == Some(old(timers)) &&
                timeouts.Keys == old(timeouts).Keys + {old(timers)}
      ensures old(webSocket) == Some(socket) && !shouldRun ==>
                timeouts == old(timeouts) && reconnectAttempt == old(reconnectAttempt)
    {
      if Orderly(Contents()) {
        EventKeepsOrder(backoff, Contents(), Closed(socket, code));
      }
      if webSocket != Some(socket) {
        return;
      }
      webSocket := None;
      if heartbeatTimer.Some? {
        intervals := intervals - {heartbeatTimer.value};
        heartbeatTimer := None;
      }
      if !shouldRun {
        connectionState := Stopped;
        return;
      }
      if code == AUTHENTICATION_FAILED {
        shouldRun := false;
        connectionState := Stopped;
        return;
      }
      ScheduleReconnect();
    }

    method ScheduleReconnect()
      modifies this
      ensures Contents() == DeviceProtocol.ScheduleReconnect(backoff, old(Contents()))
      ensures reconnectAttempt == old(reconnectAttempt) + 1 && connectionState == Reconnecting
      ensures reconnectTimer == Some(old(timers)) && timers == old(timers) + 1 && timers - 1 in timeouts
      ensures reconnectAttempt == 1 && backoff.initialDelay <= backoff.maximumDelay ==>
                timeouts[old(timers)] == backoff.initialDelay
    {
      reconnectAttempt := reconnectAttempt + 1;
      connectionState := Reconnecting;
      var delay := Least(backoff.maximumDelay, backoff.initialDelay * Power2(reconnectAttempt - 1));
      reconnectTimer := Some(timers);
      timeouts := timeouts[timers := delay];
      timers := timers + 1;
    }

    // The runtime fires a live timeout, and it is live no more.
    method FireReconnect(timer: TimerId)
      requires Orderly(Contents()) && timer in timeouts
      modifies this
      ensures Contents() == AfterTimeout(old(Contents()), timer) && Orderly(Contents())
      ensures timeouts == map[] && webSocket == Some(old(sockets)) && sockets == old(sockets) + 1
      ensures connectionState == Reconnecting && shouldRun && reconnectAttempt == old(reconnectAttempt)
    {
      EventKeepsOrder(backoff, Contents(), TimeoutFires(timer));
      timeouts := timeouts - {timer};
      OpenConnection(Reconnecting);
    }

    method ClearTimers()
      modifies this`intervals, this`timeouts, this`heartbeatTimer, this`reconnectTimer
      ensures Contents() == ClearReconnect(ClearHeartbeat(old(Contents())))
    {
      if heartbeatTimer.Some? {
        intervals := intervals - {heartbeatTimer.value};
        heartbeatTimer := None;
      }
      if reconnectTimer.Some? {
        timeouts := timeouts - {reconnectTimer.value};
        reconnectTimer := None;
      }
    }
  }
}
