/**
  The device gateway of one instance: what it asks of the registry and of
  presence when a device connects, beats and disconnects.
*/
module Gateway {
  import opened Options
  import opened WaiterTable
  import opened Presence
  import opened Registry
  import opened SessionProtocol

  // What the handshake attaches to a socket.
  datatype DeviceConnection = DeviceConnection(clientId: ClientId, projects: seq<ProjectId>, capacity: nat)

  const TIME_TO_LIVE_MILLISECONDS: int := 30_000

  class WsGateway {
    const registry: ConnectionRegistry
    const presence: PresenceService
    var devicesOnline: set<ClientId>          // devices the database shows as online
    // When Redis drops the keys of a device.
    var presenceUntil: map<ClientId, int>
    var capacityUntil: map<ClientId, int>
    var sessionUntil: map<ClientId, int>

    constructor (registry: ConnectionRegistry, presence: PresenceService)
      ensures this.registry == registry && this.presence == presence && devicesOnline == {}
      ensures presenceUntil == map[] && capacityUntil == map[] && sessionUntil == map[]
    {
      this.registry, this.presence, devicesOnline := registry, presence, {};
      presenceUntil, capacityUntil, sessionUntil := map[], map[], map[];
    }

    // The device is online in its projects with its capacity, and this socket owns its session.
    ghost predicate Serves(socket: Socket, connection: DeviceConnection)
      reads this, registry, registry.redis, presence, socket
    {
      var c := connection.clientId;
      && socket.token.Some? && c in registry.redis.session && registry.redis.session[c] == socket.token.value
      && c in registry.sockets && registry.sockets[c] == socket
      && c in presence.online && (forall p :: p in connection.projects ==> c in presence.MembersOf(p))
      && c in presence.capacities && presence.capacities[c] == Numeric(connection.capacity as real)
    }

    // The device's keys live at least until then.
    ghost predicate LivesUntil(c: ClientId, time: int)
      reads this
    {
      c in presenceUntil && time <= presenceUntil[c] && c in capacityUntil && time <= capacityUntil[c] &&
      c in sessionUntil && time <= sessionUntil[c]
    }

    // Redis drops the keys whose time is over.
    method Sweep(now: int)
      modifies presence`online, presence`capacities, registry.redis`session
      ensures forall c :: c in presence.online <==>
                c in old(presence.online) && (c in presenceUntil ==> now < presenceUntil[c])
      ensures forall c :: c in presence.capacities <==>
                c in old(presence.capacities) && (c in capacityUntil ==> now < capacityUntil[c])
      ensures forall c :: c in registry.redis.session <==>
                c in old(registry.redis.session) && (c in sessionUntil ==> now < sessionUntil[c])
      ensures forall c :: c in presence.capacities ==> presence.capacities[c] == old(presence.capacities)[c]
      ensures forall c :: c in registry.redis.session ==> registry.redis.session[c] == old(registry.redis.session)[c]
    {
      presence.online := set c | c in presence.online && (c in presenceUntil ==> now < presenceUntil[c]);
      presence.capacities :=
        map c | c in presence.capacities && (c in capacityUntil ==> now < capacityUntil[c]) :: presence.capacities[c];
      registry.redis.session :=
        map c | c in registry.redis.session && (c in sessionUntil ==> now < sessionUntil[c]) ::
          registry.redis.session[c];
    }

    // Five calls in a row; when one throws, as `failsAt` tells, the socket is closed and the rest is skipped.
    method RegisterConnection(socket: Socket, connection: DeviceConnection, nonce: int, now: int, failsAt: Option<nat>)
      returns (registered: bool)
      modifies this, registry`sockets, socket`token, socket`open, registry.redis`session
      modifies presence`online, presence`members, presence`capacities, presence`inFlight
      ensures registered <==> failsAt.None? || failsAt.value > 4
      ensures socket.open == (old(socket.open) && registered)
      ensures registry.sockets == old(registry.sockets)[connection.clientId := socket]
      ensures socket.token == Some(Token(registry.instance, nonce))
      ensures registered ==>
                && Serves(socket, connection) && Count(presence.inFlight, connection.clientId) == 0
                && connection.clientId in devicesOnline
                && LivesUntil(connection.clientId, now + 30_000)
      ensures devicesOnline ==
              if failsAt.None? || failsAt.value > 1 then old(devicesOnline) + {connection.clientId}
              else old(devicesOnline)
      ensures presence.online ==
              if failsAt.None? || failsAt.value > 2 then old(presence.online) + {connection.clientId}
              else old(presence.online)
      ensures failsAt != Some(0) ==>
                registry.redis.session ==
                old(registry.redis.session)[connection.clientId := Token(registry.instance, nonce)]
      ensures registered ==>
                && presence.online == old(presence.online) + {connection.clientId}
                && (forall p :: presence.MembersOf(p) ==
                      if p in connection.projects then old(presence.MembersOf(p)) + {connection.clientId}
                      else old(presence.MembersOf(p)))
      ensures !registered ==> presence.inFlight == old(presence.inFlight)
      ensures failsAt == Some(0) ==>
                && registry.redis.session == old(registry.redis.session) && presence.online == old(presence.online)
                && devicesOnline == old(devicesOnline)
      ensures forall d :: d != connection.clientId ==> Count(presence.inFlight, d) == Count(old(presence.inFlight), d)
    {
      var c := connection.clientId;
      if failsAt == Some(0) {
        // The socket and its token are set before the session key is written.
        socket.token := Some(Token(registry.instance, nonce));
        registry.sockets := registry.sockets[c := socket];
        socket.open := false;
        return false;
      }
      registry.Register(c, socket, nonce);
      sessionUntil := sessionUntil[c := now + TIME_TO_LIVE_MILLISECONDS];
      if failsAt == Some(1) {
        socket.open := false;
        return false;
      }
      devicesOnline := devicesOnline + {c};
      if failsAt == Some(2) {
        socket.open := false;
        return false;
      }
      presence.Online(c, connection.projects);
      presenceUntil := presenceUntil[c := now + TIME_TO_LIVE_MILLISECONDS];
      if failsAt == Some(3) {
        socket.open := false;
        return false;
      }
      presence.SetMaxInFlight(c, connection.capacity);
      capacityUntil := capacityUntil[c := now + TIME_TO_LIVE_MILLISECONDS];
      if failsAt == Some(4) {
        socket.open := false;
        return false;
      }
      presence.ResetInFlight(c);
      return true;
    }

    // Only the owner of the session takes the device's presence down.
    method HandleDisconnect(socket: Socket, connection: DeviceConnection)
      modifies this`devicesOnline, registry`sockets, registry.redis`session
      modifies presence`online, presence`members, presence`capacities, presence`inFlight
      ensures var c := connection.clientId;
              var owner := socket.token.Some? &&
                           (c !in old(registry.redis.session) || old(registry.redis.session)[c] == socket.token.value);
              && registry.redis.session ==
                 (if owner then old(registry.redis.session) - {c} else old(registry.redis.session))
              && presence.online == (if owner then old(presence.online) - {c} else old(presence.online))
              && presence.inFlight == (if owner then old(presence.inFlight) - {c} else old(presence.inFlight))
              && presence.capacities == (if owner then old(presence.capacities) - {c} else old(presence.capacities))
              && devicesOnline == (if owner then old(devicesOnline) - {c} else old(devicesOnline))
              && (forall p :: presence.MembersOf(p) ==
                    if owner && p in connection.projects then old(presence.MembersOf(p)) - {c}
                    else old(presence.MembersOf(p)))
      ensures registry.sockets ==
              if connection.clientId in old(registry.sockets) && old(registry.sockets)[connection.clientId] == socket
              then old(registry.sockets) - {connection.clientId} else old(registry.sockets)
    {
      var wasOwner := registry.Unregister(connection.clientId, socket);
      if wasOwner {
        presence.Offline(connection.clientId, connection.projects);
        devicesOnline := devicesOnline - {connection.clientId};
      }
    }

    // A beat extends the keys that have not lapsed, writes the capacity again, and brings no other key back.
    method HandleHeartbeat(connection: DeviceConnection, now: int)
      modifies this`presenceUntil, this`capacityUntil, this`sessionUntil, presence`capacities
      ensures var c := connection.clientId;
              && presenceUntil == (if c in presence.online then old(presenceUntil)[c := now + 30_000]
                                   else old(presenceUntil))
              && sessionUntil == (if c in registry.redis.session then old(sessionUntil)[c := now + 30_000]
                                  else old(sessionUntil))
              && (connection.capacity != 0 ==>
                    && c in presence.capacities && presence.capacities[c] == Numeric(connection.capacity as real)
                    && capacityUntil == old(capacityUntil)[c := now + 30_000])
              && (connection.capacity == 0 ==>
                    presence.capacities == old(presence.capacities) && capacityUntil == old(capacityUntil))
      ensures forall d :: d != connection.clientId ==>
                && (d in presence.capacities <==> d in old(presence.capacities))
                && (d in presence.capacities ==> presence.capacities[d] == old(presence.capacities)[d])
    {
      var c := connection.clientId;
      if c in presence.online {
        presenceUntil := presenceUntil[c := now + TIME_TO_LIVE_MILLISECONDS];
      }
      if connection.capacity != 0 {
        presence.SetMaxInFlight(c, connection.capacity);
        capacityUntil := capacityUntil[c := now + TIME_TO_LIVE_MILLISECONDS];
      }
      if c in registry.redis.session {
        sessionUntil := sessionUntil[c := now + TIME_TO_LIVE_MILLISECONDS];
      }
    }
  }

  // The time of the beat before, or of the registration.
  function Before(start: int, beats: seq<int>, i: nat): int
    requires i <= |beats|
  {
    if i == 0 then start else beats[i - 1]
  }

  // A device that beats before every lapse of its keys stays served, however often Redis expires keys.
  method BeatsKeepServing(gateway: WsGateway, socket: Socket, connection: DeviceConnection, start: int, beats: seq<int>)
    requires gateway.Serves(socket, connection) && connection.capacity != 0
    requires gateway.LivesUntil(connection.clientId, start + 30_000)
    requires forall i: nat :: i < |beats| ==> beats[i] < Before(start, beats, i) + 30_000
    modifies gateway`presenceUntil, gateway`capacityUntil, gateway`sessionUntil
    modifies gateway.presence`online, gateway.presence`capacities, gateway.registry.redis`session
    ensures gateway.Serves(socket, connection)
    ensures gateway.LivesUntil(connection.clientId, Before(start, beats, |beats|) + 30_000)
  {
    for i := 0 to |beats|
      invariant gateway.Serves(socket, connection)
      invariant gateway.LivesUntil(connection.clientId, Before(start, beats, i) + 30_000)
    {
      assert beats[i] < Before(start, beats, i) + 30_000;
      gateway.Sweep(beats[i]);
      assert gateway.Serves(socket, connection);
      gateway.HandleHeartbeat(connection, beats[i]);
    }
  }

  // A device that reconnects before its old connection is cleaned up stays served by the new one.
  method ReconnectThenOldCloses(gateway: WsGateway, former: Socket, latest: Socket, connection: DeviceConnection,
                                first: int, second: int, now: int, later: int)
    requires former != latest && first != second
    modifies gateway, gateway.registry`sockets, gateway.registry.redis`session
    modifies former`token, former`open, latest`token, latest`open
    modifies gateway.presence`online, gateway.presence`members, gateway.presence`capacities, gateway.presence`inFlight
    ensures gateway.Serves(latest, connection) && Count(gateway.presence.inFlight, connection.clientId) == 0
    ensures connection.clientId in gateway.devicesOnline
  {
    var _ := gateway.RegisterConnection(former, connection, first, now, None);
    var _ := gateway.RegisterConnection(latest, connection, second, later, None);
    gateway.HandleDisconnect(former, connection);
  }

  // A connection that comes and goes leaves no trace of the device behind, wherever its registration failed,
  // unless the session still belongs to an earlier connection.
  method ConnectThenDisconnect(gateway: WsGateway, socket: Socket, connection: DeviceConnection, nonce: int, now: int,
                               failsAt: Option<nat>)
    requires connection.clientId !in gateway.registry.redis.session
    modifies gateway, gateway.registry`sockets, gateway.registry.redis`session, socket`token, socket`open
    modifies gateway.presence`online, gateway.presence`members, gateway.presence`capacities, gateway.presence`inFlight
    ensures var c := connection.clientId;
            && c !in gateway.registry.redis.session && c !in gateway.registry.sockets
            && c !in gateway.presence.online && c !in gateway.devicesOnline
            && Count(gateway.presence.inFlight, c) == 0
            && (forall p :: p in connection.projects ==> c !in gateway.presence.MembersOf(p))
  {
    var _ := gateway.RegisterConnection(socket, connection, nonce, now, failsAt);
    gateway.HandleDisconnect(socket, connection);
  }
}
