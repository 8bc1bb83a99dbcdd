/**
  The connection life of a device client: one socket or one pending reconnect
  while it runs, a heartbeat while it is online, growing retry delays, and the
  close code that ends retrying. Timers and sockets are named by the order in
  which they are created; the runtime keeps the set of those that are live.
*/
module DeviceProtocol {
  import opened Options

  type SocketId = nat
  type TimerId = nat

  // In the private range of section 7.4.2 of RFC 6455.
  const AUTHENTICATION_FAILED: int := 4001

  datatype Connection = Idle | Stopped | Connecting | Online | Reconnecting

  datatype Backoff = Backoff(initialDelay: real, maximumDelay: real)

  datatype State = State(
    connection: Connection,
    webSocket: Option<SocketId>,
    heartbeatTimer: Option<TimerId>,
    reconnectTimer: Option<TimerId>,
    attempt: nat,
    shouldRun: bool,
    sockets: nat,                   // sockets created so far
    timers: nat,                    // timers created so far
    intervals: set<TimerId>,        // live intervals
    timeouts: map<TimerId, real>)   // live timeouts with their delays

  datatype Message = Welcome | WelcomeOfAnother | OtherMessage

  datatype Event =
    | Start
    | Stop
    | Received(socket: SocketId, message: Message)
    | Closed(socket: SocketId, code: int)
    | TimeoutFires(timer: TimerId)

  const INITIAL := State(Idle, None, None, None, 0, false, 0, 0, {}, map[])

  function Power2(n: nat): real {
    if n == 0 then 1.0 else 2.0 * Power2(n - 1)
  }

  function Least(a: real, b: real): real { if a < b then a else b }

  function RetryDelay(backoff: Backoff, attempt: nat): real
    requires attempt >= 1
  {
    Least(backoff.maximumDelay, backoff.initialDelay * Power2(attempt - 1))
  }

  predicate Enabled(s: State, event: Event) {
    match event
    case Start => true
    case Stop => true
    case Received(socket, _) => socket < s.sockets
    case Closed(socket, _) => socket < s.sockets
    case TimeoutFires(timer) => timer in s.timeouts
  }

  // ---------- the handlers ----------

  function OpenConnection(s: State, connection: Connection): State {
    s.(connection := connection, webSocket := Some(s.sockets), sockets := s.sockets + 1)
  }

  function ClearHeartbeat(s: State): State {
    if s.heartbeatTimer.Some? then s.(intervals := s.intervals - {s.heartbeatTimer.value}, heartbeatTimer := None)
    else s
  }

  // A timeout that has fired leaves its handle behind; clearing it is harmless.
  function ClearReconnect(s: State): State {
    if s.reconnectTimer.Some? then s.(timeouts := s.timeouts - {s.reconnectTimer.value}, reconnectTimer := None) else s
  }

  function StartHeartbeat(s: State): State {
    var cleared := if s.heartbeatTimer.Some? then s.(intervals := s.intervals - {s.heartbeatTimer.value}) else s;
    cleared.(heartbeatTimer := Some(s.timers), intervals := cleared.intervals + {s.timers}, timers := s.timers + 1)
  }

  function AfterStart(s: State): State {
    if s.shouldRun then s else OpenConnection(s.(shouldRun := true, attempt := 0), Connecting)
  }

  function AfterStop(s: State): State {
    ClearReconnect(ClearHeartbeat(s.(shouldRun := false))).(webSocket := None, connection := Stopped)
  }

  // A welcome for another client closes the socket, whose close event comes later.
  function AfterMessage(s: State, socket: SocketId, message: Message): State {
    if s.webSocket != Some(socket) || message != Welcome then s
    else StartHeartbeat(s.(attempt := 0, connection := Online))
  }

  function ScheduleReconnect(backoff: Backoff, s: State): State {
    s.(attempt := s.attempt + 1, connection := Reconnecting,
       reconnectTimer := Some(s.timers), timeouts := s.timeouts[s.timers := RetryDelay(backoff, s.attempt + 1)],
       timers := s.timers + 1)
  }

  function AfterClose(backoff: Backoff, s: State, socket: SocketId, code: int): State {
    if s.webSocket != Some(socket) then s
    else
      var closed := ClearHeartbeat(s.(webSocket := None));
      if !s.shouldRun then closed.(connection := Stopped)
      else if code == AUTHENTICATION_FAILED then closed.(shouldRun := false, connection := Stopped)
      else ScheduleReconnect(backoff, closed)
  }

  function AfterTimeout(s: State, timer: TimerId): State {
    OpenConnection(s.(timeouts := s.timeouts - {timer}), Reconnecting)
  }

  function Apply(backoff: Backoff, s: State, event: Event): State
    requires Enabled(s, event)
  {
    match event
    case Start => AfterStart(s)
    case Stop => AfterStop(s)
    case Received(socket, message) => AfterMessage(s, socket, message)
    case Closed(socket, code) => AfterClose(backoff, s, socket, code)
    case TimeoutFires(timer) => AfterTimeout(s, timer)
  }

  ghost predicate Run(backoff: Backoff, start: State, events: seq<Event>)
    decreases |events|, 0
  {
    events == [] ||
    (Run(backoff, start, events[..|events| - 1]) &&
     Enabled(After(backoff, start, events[..|events| - 1]), events[|events| - 1]))
  }

  ghost function After(backoff: Backoff, start: State, events: seq<Event>): State
    requires Run(backoff, start, events)
    decreases |events|, 1
  {
    if events == [] then start else
      Apply(backoff, After(backoff, start, events[..|events| - 1]), events[|events| - 1])
  }

  // ---------- what every run keeps ----------

  predicate HasSocket(s: State) {
    s.webSocket.Some? && s.timeouts == map[]
  }

  predicate AwaitsReconnect(s: State) {
    s.webSocket.None? && s.reconnectTimer.Some? && s.timeouts.Keys == {s.reconnectTimer.value}
  }

  predicate AtRest(s: State) {
    s.webSocket.None? && s.timeouts == map[]
  }

  predicate Connected(s: State) {
    (if s.shouldRun then HasSocket(s) || AwaitsReconnect(s) else AtRest(s)) &&
    (s.connection == Stopped || s.connection == Idle <==> !s.shouldRun) &&
    (s.webSocket.Some? ==> s.webSocket.value + 1 == s.sockets)
  }

  predicate Beating(s: State) {
    s.intervals == (if s.heartbeatTimer.Some? then {s.heartbeatTimer.value} else {}) &&
    (s.connection == Online <==> s.heartbeatTimer.Some?) &&
    (s.connection == Online ==> s.webSocket.Some?)
  }

  predicate TimersAreOld(s: State) {
    (forall t <- s.intervals :: t < s.timers) && (forall t <- s.timeouts :: t < s.timers) &&
    (s.heartbeatTimer.Some? ==> s.heartbeatTimer.value < s.timers) &&
    (s.reconnectTimer.Some? ==> s.reconnectTimer.value < s.timers)
  }

  predicate Orderly(s: State) {
    Connected(s) && Beating(s) && TimersAreOld(s)
  }

  lemma {:induction false} EventKeepsOrder(backoff: Backoff, s: State, event: Event)
    requires Enabled(s, event) && Orderly(s)
    ensures Orderly(Apply(backoff, s, event))
  {
    match event {
      case Start =>
      case Stop =>
      case Received(_, _) =>
      case Closed(_, _) =>
        assert (s.timeouts[s.timers := RetryDelay(backoff, s.attempt + 1)]).Keys == s.timeouts.Keys + {s.timers};
      case TimeoutFires(timer) =>
        assert s.timeouts - {timer} == map[];
    }
  }

  lemma {:induction false} RunIsOrderly(backoff: Backoff, events: seq<Event>)
    requires Run(backoff, INITIAL, events)
    ensures Orderly(After(backoff, INITIAL, events))
  {
    if events != [] {
      RunIsOrderly(backoff, events[..|events| - 1]);
      EventKeepsOrder(backoff, After(backoff, INITIAL, events[..|events| - 1]), events[|events| - 1]);
    }
  }

  // In every run the device runs exactly when it has one current socket or one pending reconnect, never
  // both; it is online exactly while one heartbeat interval is live, and then it has a socket.
  lemma {:induction false} RunningMeansConnectedOrRetrying(backoff: Backoff, events: seq<Event>)
    requires Run(backoff, INITIAL, events)
    ensures var s := After(backoff, INITIAL, events);
            s.shouldRun == (s.webSocket.Some? != (|s.timeouts| == 1)) &&
            (s.webSocket.Some? ==> |s.timeouts| == 0) && |s.timeouts| <= 1 &&
            (s.connection == Online <==> |s.intervals| == 1) && |s.intervals| <= 1 &&
            (s.connection == Online ==> s.webSocket.Some?) &&
            (s.connection == Stopped || s.connection == Idle <==> !s.shouldRun)
  {
    RunIsOrderly(backoff, events);
    var s := After(backoff, INITIAL, events);
    if AwaitsReconnect(s) {
      assert |s.timeouts| == |s.timeouts.Keys|;
    }
  }

  // The only socket whose events matter is the last one opened, while the device runs and awaits no
  // reconnect: not after a stop, and not after it was closed.
  predicate IsCurrent(s: State, socket: SocketId) {
    s.shouldRun && s.timeouts == map[] && socket + 1 == s.sockets
  }

  lemma {:induction false} OldSocketsChangeNothing(backoff: Backoff, events: seq<Event>, event: Event)
    requires Run(backoff, INITIAL, events) && Enabled(After(backoff, INITIAL, events), event)
    requires event.Received? || event.Closed?
    requires !IsCurrent(After(backoff, INITIAL, events), event.socket)
    ensures Apply(backoff, After(backoff, INITIAL, events), event) == After(backoff, INITIAL, events)
  {
    RunIsOrderly(backoff, events);
  }

  // A close of the current socket always does something.
  lemma {:induction false} CurrentSocketsMatter(backoff: Backoff, events: seq<Event>, socket: SocketId, code: int)
    requires Run(backoff, INITIAL, events) && IsCurrent(After(backoff, INITIAL, events), socket)
    ensures var s := After(backoff, INITIAL, events);
            s.webSocket == Some(socket) && AfterClose(backoff, s, socket, code).webSocket == None
  {
    RunIsOrderly(backoff, events);
  }

  // ---------- stopping ----------

  predicate Starts(events: seq<Event>) {
    exists event <- events :: event == Start
  }

  // Once stopped, by the caller or by the authentication close code, nothing opens a socket or arms a
  // timer until the next start.
  lemma {:induction false} StoppedStaysStopped(backoff: Backoff, s: State, events: seq<Event>)
    requires Orderly(s) && !s.shouldRun && Run(backoff, s, events) && !Starts(events)
    ensures After(backoff, s, events).sockets == s.sockets && After(backoff, s, events).timers == s.timers
    ensures !After(backoff, s, events).shouldRun && Orderly(After(backoff, s, events))
    ensures s.connection == Stopped ==> After(backoff, s, events).connection == Stopped
  {
    if events != [] {
      var before, event := events[..|events| - 1], events[|events| - 1];
      assert event in events;
      assert forall e <- before :: e in events;
      StoppedStaysStopped(backoff, s, before);
      EventKeepsOrder(backoff, After(backoff, s, before), event);
    }
  }

  lemma {:induction false} AuthenticationFailureEndsRetrying(backoff: Backoff, events: seq<Event>, socket: SocketId,
                                                             more: seq<Event>)
    requires Run(backoff, INITIAL, events) && After(backoff, INITIAL, events).webSocket == Some(socket)
    requires var failed := AfterClose(backoff, After(backoff, INITIAL, events), socket, AUTHENTICATION_FAILED);
             Run(backoff, failed, more) && !Starts(more)
    ensures var failed := AfterClose(backoff, After(backoff, INITIAL, events), socket, AUTHENTICATION_FAILED);
            var s := After(backoff, failed, more);
            s.connection == Stopped && s.webSocket == None && s.timeouts == map[] && s.intervals == {} &&
            s.sockets == After(backoff, INITIAL, events).sockets
  {
    RunIsOrderly(backoff, events);
    var s := After(backoff, INITIAL, events);
    EventKeepsOrder(backoff, s, Closed(socket, AUTHENTICATION_FAILED));
    StoppedStaysStopped(backoff, AfterClose(backoff, s, socket, AUTHENTICATION_FAILED), more);
  }

  // Any other close of the current socket schedules exactly one reconnect.
  lemma {:induction false} OtherClosesRetry(backoff: Backoff, events: seq<Event>, socket: SocketId, code: int)
    requires Run(backoff, INITIAL, events) && After(backoff, INITIAL, events).webSocket == Some(socket)
    requires code != AUTHENTICATION_FAILED
    ensures var s := AfterClose(backoff, After(backoff, INITIAL, events), socket, code);
            s.shouldRun && AwaitsReconnect(s) &&
            s.timeouts[s.reconnectTimer.value] == RetryDelay(backoff, After(backoff, INITIAL, events).attempt + 1)
  {
    RunIsOrderly(backoff, events);
    EventKeepsOrder(backoff, After(backoff, INITIAL, events), Closed(socket, code));
  }

  // ---------- retry delays ----------

  // The delays of the reconnects scheduled since the last welcome or start, in order.
  ghost function Delays(backoff: Backoff, start: State, events: seq<Event>): seq<real>
    requires Run(backoff, start, events)
    decreases |events|
  {
    if events == [] then [] else
      var before, event := events[..|events| - 1], events[|events| - 1];
      var s := After(backoff, start, before);
      var t := Apply(backoff, s, event);
      if t == s then Delays(backoff, start, before)
      else if event.Start? || event.Received? then []
      else if event.Closed? && AwaitsReconnect(t) then
        Delays(backoff, start, before) + [t.timeouts[t.reconnectTimer.value]]
      else Delays(backoff, start, before)
  }

  lemma {:induction false} Power2Grows(i: nat, j: nat)
    requires i <= j
    ensures 1.0 <= Power2(i) <= Power2(j)
  {
    if j > 0 {
      if i == j {
        Power2Grows(i - 1, j - 1);
      } else {
        Power2Grows(i, j - 1);
      }
    }
  }

  lemma {:induction false} RetryDelayGrows(backoff: Backoff, i: nat, j: nat)
    requires backoff.initialDelay > 0.0 && backoff.maximumDelay > 0.0 && 1 <= i <= j
    ensures 0.0 < RetryDelay(backoff, i) <= RetryDelay(backoff, j) <= backoff.maximumDelay
    ensures i < j && RetryDelay(backoff, j) < backoff.maximumDelay ==> RetryDelay(backoff, i) < RetryDelay(backoff, j)
  {
    Power2Grows(i - 1, j - 1);
    var a, b := Power2(i - 1), Power2(j - 1);
    assert backoff.initialDelay * a <= backoff.initialDelay * b;
    assert backoff.initialDelay * a > 0.0;
    if i < j {
      Power2Grows(i - 1, j - 2);
      assert b == 2.0 * Power2(j - 2);
      assert backoff.initialDelay * a < backoff.initialDelay * b by {
        assert a < b;
      }
    }
  }

  ghost predicate DelaysAre(backoff: Backoff, delays: seq<real>, attempt: nat) {
    |delays| == attempt && forall i | 0 <= i < |delays| :: delays[i] == RetryDelay(backoff, i + 1)
  }

  lemma {:induction false} DelaysFollowAttempts(backoff: Backoff, events: seq<Event>)
    requires Run(backoff, INITIAL, events)
    ensures DelaysAre(backoff, Delays(backoff, INITIAL, events), After(backoff, INITIAL, events).attempt)
  {
    if events != [] {
      var before, event := events[..|events| - 1], events[|events| - 1];
      var s := After(backoff, INITIAL, before);
      DelaysFollowAttempts(backoff, before);
      RunIsOrderly(backoff, before);
      EventKeepsOrder(backoff, s, event);
    }
  }

  // Between welcomes the delays grow, strictly until they reach the maximum, and never exceed it.
  lemma {:induction false} RetryDelaysGrow(backoff: Backoff, events: seq<Event>, i: nat, j: nat)
    requires backoff.initialDelay > 0.0 && backoff.maximumDelay > 0.0
    requires Run(backoff, INITIAL, events) && i <= j < |Delays(backoff, INITIAL, events)|
    ensures var delays := Delays(backoff, INITIAL, events);
            0.0 < delays[i] <= delays[j] <= backoff.maximumDelay &&
            (i < j && delays[j] < backoff.maximumDelay ==> delays[i] < delays[j])
  {
    DelaysFollowAttempts(backoff, events);
    RetryDelayGrows(backoff, i + 1, j + 1);
  }

  lemma {:induction false} RetryDelayDoubles(backoff: Backoff, attempt: nat)
    requires backoff.initialDelay > 0.0 && backoff.maximumDelay > 0.0 && attempt >= 1
    ensures var twice := 2.0 * RetryDelay(backoff, attempt);
            RetryDelay(backoff, attempt + 1) == if twice < backoff.maximumDelay then twice else backoff.maximumDelay
  {
    RetryDelayGrows(backoff, attempt, attempt + 1);
    assert backoff.initialDelay * Power2(attempt) == 2.0 * (backoff.initialDelay * Power2(attempt - 1));
  }

  // The first delay after a welcome is the initial one and each later one is twice the one before, up to the
  // maximum; there are as many as closes since the welcome.
  lemma {:induction false} RetryDelaysDouble(backoff: Backoff, events: seq<Event>, i: nat)
    requires backoff.initialDelay > 0.0 && backoff.maximumDelay > 0.0
    requires Run(backoff, INITIAL, events) && i < |Delays(backoff, INITIAL, events)|
    ensures var delays := Delays(backoff, INITIAL, events);
            var uncapped := if i == 0 then backoff.initialDelay else 2.0 * delays[i - 1];
            delays[i] == if uncapped < backoff.maximumDelay then uncapped else backoff.maximumDelay
  {
    DelaysFollowAttempts(backoff, events);
    if i > 0 {
      RetryDelayDoubles(backoff, i);
    }
  }

  // ---------- a run ----------

  lemma Extend(backoff: Backoff, start: State, events: seq<Event>, event: Event)
    requires Run(backoff, start, events) && Enabled(After(backoff, start, events), event)
    ensures Run(backoff, start, events + [event])
    ensures After(backoff, start, events + [event]) == Apply(backoff, After(backoff, start, events), event)
  {
    assert (events + [event])[..|events|] == events;
  }

  // A device that starts, loses its first socket, opens a second one and is welcomed there.
  lemma LosesItsFirstSocket(backoff: Backoff) returns (events: seq<Event>)
    ensures Run(backoff, INITIAL, events)
    ensures After(backoff, INITIAL, events) ==
            State(Online, Some(1), Some(1), Some(0), 0, true, 2, 2, {1}, map[])
  {
    events := [];
    Extend(backoff, INITIAL, events, Start);
    events := [] + [Start];
    Extend(backoff, INITIAL, events, Closed(0, 1006));
    events := events + [Closed(0, 1006)];
    assert After(backoff, INITIAL, events).timeouts.Keys == {0};
    Extend(backoff, INITIAL, events, TimeoutFires(0));
    events := events + [TimeoutFires(0)];
    assert After(backoff, INITIAL, events).timeouts == map[];
    Extend(backoff, INITIAL, events, Received(1, Welcome));
    events := events + [Received(1, Welcome)];
  }
}
