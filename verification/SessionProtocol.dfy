/**
  Who owns a device's session, as a step machine over all API instances.

  Registering and unregistering a connection change the local socket map and
  send one Redis command in the same synchronous stretch of code. Every
  instance talks to Redis over one connection, so its commands are executed in
  the order they were sent; commands of different instances interleave freely.
*/
module SessionProtocol {
  import opened WaiterTable

  // Connections are numbered in the order they are registered, over all instances. `setAt` and `deleteAt`
  // are the places of their two commands among those their instance has sent; `deleteAt` counts once closing.
  datatype Connection = Connection(clientId: ClientId, instance: InstanceId, setAt: nat, closing: bool, deleteAt: nat)

  // The session value: the instance as prefix, and a part no other connection has.
  datatype Token = Token(instance: InstanceId, connection: int)

  datatype Command =
    | SetSession(connection: int)
    | CompareAndDelete(connection: int)

  datatype State = State(
    connections: seq<Connection>,
    sockets: map<InstanceId, map<ClientId, int>>,
    sent: map<InstanceId, seq<Command>>,  // the commands each instance has sent, oldest first
    executed: map<InstanceId, nat>,       // how many of them Redis has executed
    session: map<ClientId, Token>,
    latest: map<ClientId, int>,           // the connection of the last SET executed for the device
    claimed: map<int, bool>)              // what unregister answered for a connection

  const INITIAL := State([], map[], map[], map[], map[], map[], map[])

  function SocketsAt(s: State, i: InstanceId): map<ClientId, int> {
    if i in s.sockets then s.sockets[i] else map[]
  }

  function SentBy(s: State, i: InstanceId): seq<Command> {
    if i in s.sent then s.sent[i] else []
  }

  function ExecutedFor(s: State, i: InstanceId): nat {
    if i in s.executed then s.executed[i] else 0
  }

  predicate HasPending(s: State, i: InstanceId) {
    ExecutedFor(s, i) < |SentBy(s, i)|
  }

  function NextCommand(s: State, i: InstanceId): Command
    requires HasPending(s, i)
  {
    SentBy(s, i)[ExecutedFor(s, i)]
  }

  datatype Step =
    | Register(clientId: ClientId, instance: InstanceId)
    | Disconnect(connection: int)
    | Execute(instance: InstanceId)
    | Expire(clientId: ClientId)

  predicate Known(s: State, k: int) {
    0 <= k < |s.connections|
  }

  predicate Enabled(s: State, step: Step) {
    match step
    case Register(clientId, instance) => true
    case Disconnect(k) => Known(s, k) && !s.connections[k].closing
    case Execute(instance) => HasPending(s, instance) && Known(s, NextCommand(s, instance).connection)
    case Expire(clientId) => true
  }

  function DoRegister(s: State, c: ClientId, i: InstanceId): State {
    var k := |s.connections|;
    s.(connections := s.connections + [Connection(c, i, |SentBy(s, i)|, false, 0)],
       sockets := s.sockets[i := SocketsAt(s, i)[c := k]],
       sent := s.sent[i := SentBy(s, i) + [SetSession(k)]])
  }

  function DoDisconnect(s: State, k: int): State
    requires Known(s, k)
  {
    var x := s.connections[k];
    var sockets := SocketsAt(s, x.instance);
    s.(connections := s.connections[k := x.(closing := true, deleteAt := |SentBy(s, x.instance)|)],
       sockets := if x.clientId in sockets && sockets[x.clientId] == k
                  then s.sockets[x.instance := sockets - {x.clientId}] else s.sockets,
       sent := s.sent[x.instance := SentBy(s, x.instance) + [CompareAndDelete(k)]])
  }

  function TokenOf(s: State, k: int): Token
    requires Known(s, k)
  {
    Token(s.connections[k].instance, k)
  }

  // What the compare-and-delete script answers: the session is absent, or this connection's own.
  predicate Owns(s: State, k: int)
    requires Known(s, k)
  {
    var c := s.connections[k].clientId;
    c !in s.session || s.session[c] == TokenOf(s, k)
  }

  function DoExecute(s: State, i: InstanceId): State
    requires HasPending(s, i) && Known(s, NextCommand(s, i).connection)
  {
    var k := NextCommand(s, i).connection;
    var c := s.connections[k].clientId;
    var t := s.(executed := s.executed[i := ExecutedFor(s, i) + 1]);
    match NextCommand(s, i)
    case SetSession(_) => t.(session := s.session[c := TokenOf(s, k)], latest := s.latest[c := k])
    case CompareAndDelete(_) =>
      t.(session := if Owns(s, k) then s.session - {c} else s.session,
         claimed := s.claimed[k := Owns(s, k)])
  }

  function Apply(s: State, step: Step): State
    requires Enabled(s, step)
  {
    match step
    case Register(c, i) => DoRegister(s, c, i)
    case Disconnect(k) => DoDisconnect(s, k)
    case Execute(i) => DoExecute(s, i)
    case Expire(c) => s.(session := s.session - {c})
  }

  predicate Run(steps: seq<Step>)
    decreases |steps|, 0
  {
    steps == [] ||
    var before := steps[..|steps| - 1];
    Run(before) && Enabled(After(before), steps[|steps| - 1])
  }

  function After(steps: seq<Step>): State
    requires Run(steps)
    decreases |steps|, 1
  {
    if steps == [] then INITIAL else
      var before := steps[..|steps| - 1];
      Apply(After(before), steps[|steps| - 1])
  }

  // ---------- invariants ----------

  // Each connection's commands are where it says, its delete after its SET.
  predicate ConnectionSent(s: State, k: int)
    requires Known(s, k)
  {
    var x := s.connections[k];
    var sent := SentBy(s, x.instance);
    && x.setAt < |sent| && sent[x.setAt] == SetSession(k)
    && (x.closing ==> x.setAt < x.deleteAt < |sent| && sent[x.deleteAt] == CompareAndDelete(k))
  }

  predicate CommandOwned(s: State, i: InstanceId, n: nat)
    requires n < |SentBy(s, i)|
  {
    var command := SentBy(s, i)[n];
    && Known(s, command.connection)
    && s.connections[command.connection].instance == i
    && (command.SetSession? ==> s.connections[command.connection].setAt == n)
    && (command.CompareAndDelete? ==>
          s.connections[command.connection].closing && s.connections[command.connection].deleteAt == n)
  }

  predicate NotAhead(s: State, i: InstanceId) {
    ExecutedFor(s, i) <= |SentBy(s, i)|
  }

  ghost predicate CommandsOk(s: State) {
    && (forall i :: NotAhead(s, i))
    && (forall k :: Known(s, k) ==> ConnectionSent(s, k))
    && (forall i, n: nat :: n < |SentBy(s, i)| ==> CommandOwned(s, i, n))
    && (forall j, k :: Known(s, j) && Known(s, k) && j < k && s.connections[j].instance == s.connections[k].instance ==>
          s.connections[j].setAt < s.connections[k].setAt)
  }

  // Connection k belongs to this device on this instance.
  predicate IsOn(s: State, k: int, i: InstanceId, c: ClientId) {
    Known(s, k) && s.connections[k].instance == i && s.connections[k].clientId == c
  }

  predicate SetPending(s: State, k: int)
    requires Known(s, k)
  {
    ExecutedFor(s, s.connections[k].instance) <= s.connections[k].setAt
  }

  predicate DeletePending(s: State, k: int)
    requires Known(s, k)
  {
    s.connections[k].closing && ExecutedFor(s, s.connections[k].instance) <= s.connections[k].deleteAt
  }

  // m is the last connection the device registered on the instance.
  ghost predicate Newest(s: State, m: int, i: InstanceId, c: ClientId) {
    IsOn(s, m, i, c) && forall k :: IsOn(s, k, i, c) ==> k <= m
  }

  // A socket map entry is the newest connection of the device on that instance.
  ghost predicate SocketsNewest(s: State) {
    forall i, c :: c in SocketsAt(s, i) ==> Newest(s, SocketsAt(s, i)[c], i, c)
  }

  // The session names the connection whose SET was executed last for the device; if the instance it names
  // has registered a newer one, that one's SET is still pending.
  ghost predicate SessionTrue(s: State, c: ClientId, token: Token) {
    && c in s.latest && s.latest[c] == token.connection
    && IsOn(s, token.connection, token.instance, c)
    && (forall k :: IsOn(s, k, token.instance, c) && token.connection < k ==> SetPending(s, k))
  }

  ghost predicate SessionsTrue(s: State) {
    forall c :: c in s.session ==> SessionTrue(s, c, s.session[c])
  }

  predicate NamedBySession(s: State, i: InstanceId, c: ClientId) {
    c in s.session && s.session[c].instance == i
  }

  // When a device has connections on an instance but no socket there, the newest one has been closed, and
  // its delete is pending unless the session no longer names the instance.
  predicate Leaving(s: State, i: InstanceId, c: ClientId, m: int) {
    Known(s, m) && s.connections[m].closing && (DeletePending(s, m) || !NamedBySession(s, i, c))
  }

  ghost predicate Departed(s: State) {
    forall i, c, m :: c !in SocketsAt(s, i) && Newest(s, m, i, c) ==> Leaving(s, i, c, m)
  }

  ghost predicate Consistent(s: State) {
    CommandsOk(s) && SocketsNewest(s) && SessionsTrue(s) && Departed(s)
  }

  lemma RegisterKeepsCommands(s: State, c: ClientId, i: InstanceId)
    requires CommandsOk(s)
    ensures CommandsOk(DoRegister(s, c, i))
  {
    var t := DoRegister(s, c, i);
    forall j
      ensures NotAhead(t, j)
    {
      assert NotAhead(s, j);
    }
    forall k | Known(t, k)
      ensures ConnectionSent(t, k)
    {
      assert Known(s, k) ==> ConnectionSent(s, k);
    }
    forall j, n: nat | n < |SentBy(t, j)|
      ensures CommandOwned(t, j, n)
    {
      assert n < |SentBy(s, j)| ==> CommandOwned(s, j, n);
    }
    forall j, k | Known(t, j) && Known(t, k) && j < k && t.connections[j].instance == t.connections[k].instance
      ensures t.connections[j].setAt < t.connections[k].setAt
    {
      assert ConnectionSent(s, j);
    }
  }

  lemma RegisterKeepsOwners(s: State, c0: ClientId, i0: InstanceId)
    requires CommandsOk(s) && SocketsNewest(s) && SessionsTrue(s)
    ensures SocketsNewest(DoRegister(s, c0, i0)) && SessionsTrue(DoRegister(s, c0, i0))
  {
    var t := DoRegister(s, c0, i0);
    var n := |s.connections|;
    assert forall k, i, c :: IsOn(t, k, i, c) <==> IsOn(s, k, i, c) || (k == n && i == i0 && c == c0);
    forall i, c | c in SocketsAt(t, i)
      ensures Newest(t, SocketsAt(t, i)[c], i, c)
    {
      assert i != i0 || c != c0 ==> c in SocketsAt(s, i) && Newest(s, SocketsAt(s, i)[c], i, c);
    }
    forall c | c in t.session
      ensures SessionTrue(t, c, t.session[c])
    {
      assert SessionTrue(s, c, s.session[c]) && NotAhead(s, i0);
    }
  }

  lemma RegisterKeepsDeparted(s: State, c0: ClientId, i0: InstanceId)
    requires Departed(s)
    ensures Departed(DoRegister(s, c0, i0))
  {
    var t := DoRegister(s, c0, i0);
    forall i, c, m | c !in SocketsAt(t, i) && Newest(t, m, i, c)
      ensures Leaving(t, i, c, m)
    {
      assert c !in SocketsAt(s, i) && IsOn(s, m, i, c);
      assert Newest(s, m, i, c) by {
        forall k | IsOn(s, k, i, c) ensures k <= m { assert IsOn(t, k, i, c); }
      }
      assert Leaving(s, i, c, m);
    }
  }

  lemma DisconnectKeepsCommands(s: State, k: int)
    requires CommandsOk(s) && Enabled(s, Disconnect(k))
    ensures CommandsOk(DoDisconnect(s, k))
  {
    var t := DoDisconnect(s, k);
    forall j
      ensures NotAhead(t, j)
    {
      assert NotAhead(s, j);
    }
    forall j | Known(t, j)
      ensures ConnectionSent(t, j)
    {
      assert ConnectionSent(s, j);
    }
    forall j, n: nat | n < |SentBy(t, j)|
      ensures CommandOwned(t, j, n)
    {
      assert n < |SentBy(s, j)| ==> CommandOwned(s, j, n);
    }
  }

  lemma SameNewest(s: State, t: State, m: int, i: InstanceId, c: ClientId)
    requires Newest(s, m, i, c)
    requires forall k :: IsOn(t, k, i, c) <==> IsOn(s, k, i, c)
    ensures Newest(t, m, i, c)
  {
  }

  lemma DisconnectKeepsOwners(s: State, k: int)
    requires SocketsNewest(s) && SessionsTrue(s) && Enabled(s, Disconnect(k))
    ensures SocketsNewest(DoDisconnect(s, k)) && SessionsTrue(DoDisconnect(s, k))
  {
    var t := DoDisconnect(s, k);
    forall i, c | c in SocketsAt(t, i)
      ensures Newest(t, SocketsAt(t, i)[c], i, c)
    {
      assert c in SocketsAt(s, i);
      SameNewest(s, t, SocketsAt(s, i)[c], i, c);
    }
    forall c | c in t.session
      ensures SessionTrue(t, c, t.session[c])
    {
      assert SessionTrue(s, c, s.session[c]);
      forall j | IsOn(t, j, t.session[c].instance, c) && t.session[c].connection < j
        ensures SetPending(t, j)
      {
        assert IsOn(s, j, s.session[c].instance, c);
      }
    }
  }

  lemma DisconnectKeepsDeparted(s: State, k: int)
    requires CommandsOk(s) && SocketsNewest(s) && Departed(s) && Enabled(s, Disconnect(k))
    ensures Departed(DoDisconnect(s, k))
  {
    var t := DoDisconnect(s, k);
    forall i, c, m | c !in SocketsAt(t, i) && Newest(t, m, i, c)
      ensures Leaving(t, i, c, m)
    {
      SameNewest(t, s, m, i, c);
      if c in SocketsAt(s, i) {
        assert Newest(s, k, i, c) && m == k;
        assert NotAhead(s, i);
      } else {
        assert Leaving(s, i, c, m);
      }
    }
  }

  // What no step but Register and Disconnect changes.
  predicate SameConnections(s: State, t: State) {
    t.connections == s.connections && t.sockets == s.sockets && t.sent == s.sent
  }

  lemma SameConnectionsKeep(s: State, t: State)
    requires CommandsOk(s) && SocketsNewest(s) && SameConnections(s, t)
    requires forall i :: NotAhead(t, i)
    ensures CommandsOk(t) && SocketsNewest(t)
  {
    forall k | Known(t, k)
      ensures ConnectionSent(t, k)
    {
      assert ConnectionSent(s, k);
    }
    forall j, n: nat | n < |SentBy(t, j)|
      ensures CommandOwned(t, j, n)
    {
      assert CommandOwned(s, j, n);
    }
    forall i, c | c in SocketsAt(t, i)
      ensures Newest(t, SocketsAt(t, i)[c], i, c)
    {
      SameNewest(s, t, SocketsAt(s, i)[c], i, c);
    }
  }

  lemma ExecuteKeepsCommands(s: State, i0: InstanceId)
    requires CommandsOk(s) && SocketsNewest(s) && Enabled(s, Execute(i0))
    ensures CommandsOk(DoExecute(s, i0)) && SocketsNewest(DoExecute(s, i0))
  {
    var t := DoExecute(s, i0);
    forall i
      ensures NotAhead(t, i)
    {
      assert NotAhead(s, i);
    }
    SameConnectionsKeep(s, t);
  }

  // Executing a command leaves every later command of every instance pending.
  lemma StillPending(s: State, i0: InstanceId, k: int)
    requires CommandsOk(s) && Enabled(s, Execute(i0)) && Known(s, k)
    ensures SetPending(s, k) && NextCommand(s, i0) != SetSession(k) ==> SetPending(DoExecute(s, i0), k)
    ensures DeletePending(s, k) && NextCommand(s, i0) != CompareAndDelete(k) ==> DeletePending(DoExecute(s, i0), k)
  {
    assert ConnectionSent(s, k);
  }

  lemma ExecuteKeepsSessions(s: State, i0: InstanceId)
    requires CommandsOk(s) && SessionsTrue(s) && Enabled(s, Execute(i0))
    ensures SessionsTrue(DoExecute(s, i0))
  {
    var t := DoExecute(s, i0);
    var j := NextCommand(s, i0).connection;
    assert CommandOwned(s, i0, ExecutedFor(s, i0));
    forall c | c in t.session
      ensures SessionTrue(t, c, t.session[c])
    {
      if c in s.session && t.session[c] == s.session[c] && t.latest[c] == s.latest[c] {
        assert SessionTrue(s, c, s.session[c]);
      }
      forall k | IsOn(t, k, t.session[c].instance, c) && t.session[c].connection < k
        ensures SetPending(t, k)
      {
        assert IsOn(s, k, t.session[c].instance, c);
        StillPending(s, i0, k);
      }
    }
  }

  lemma ExecuteKeepsDeparted(s: State, i0: InstanceId)
    requires Consistent(s) && Enabled(s, Execute(i0))
    ensures Departed(DoExecute(s, i0))
  {
    var t := DoExecute(s, i0);
    var j := NextCommand(s, i0).connection;
    assert CommandOwned(s, i0, ExecutedFor(s, i0)) && ConnectionSent(s, j);
    forall i, c, m | c !in SocketsAt(t, i) && Newest(t, m, i, c)
      ensures Leaving(t, i, c, m)
    {
      SameNewest(t, s, m, i, c);
      assert Leaving(s, i, c, m) && ConnectionSent(s, m);
      StillPending(s, i0, m);
      if NamedBySession(t, i, c) {
        if c in s.session && t.session[c] == s.session[c] {
          assert SessionTrue(s, c, s.session[c]);
        } else {
          assert IsOn(s, j, i, c) && j <= m;
        }
      }
    }
  }

  lemma ExpireKeepsConsistent(s: State, c0: ClientId)
    requires Consistent(s)
    ensures Consistent(s.(session := s.session - {c0}))
  {
    var t := s.(session := s.session - {c0});
    forall i
      ensures NotAhead(t, i)
    {
      assert NotAhead(s, i);
    }
    SameConnectionsKeep(s, t);
    forall c | c in t.session
      ensures SessionTrue(t, c, t.session[c])
    {
      assert SessionTrue(s, c, s.session[c]);
      forall k | IsOn(t, k, t.session[c].instance, c) && t.session[c].connection < k
        ensures SetPending(t, k)
      {
        assert IsOn(s, k, s.session[c].instance, c);
      }
    }
    forall i, c, m | c !in SocketsAt(t, i) && Newest(t, m, i, c)
      ensures Leaving(t, i, c, m)
    {
      SameNewest(t, s, m, i, c);
      assert Leaving(s, i, c, m);
    }
  }

  lemma StepKeepsConsistent(s: State, step: Step)
    requires Consistent(s) && Enabled(s, step)
    ensures Consistent(Apply(s, step))
  {
    match step
    case Register(c, i) =>
      RegisterKeepsCommands(s, c, i);
      RegisterKeepsOwners(s, c, i);
      RegisterKeepsDeparted(s, c, i);
    case Disconnect(k) =>
      DisconnectKeepsCommands(s, k);
      DisconnectKeepsOwners(s, k);
      DisconnectKeepsDeparted(s, k);
    case Execute(i) =>
      ExecuteKeepsCommands(s, i);
      ExecuteKeepsSessions(s, i);
      ExecuteKeepsDeparted(s, i);
    case Expire(c) => ExpireKeepsConsistent(s, c);
  }

  lemma {:induction false} RunIsConsistent(steps: seq<Step>)
    requires Run(steps)
    ensures Consistent(After(steps))
  {
    if steps != [] {
      RunIsConsistent(steps[..|steps| - 1]);
      StepKeepsConsistent(After(steps[..|steps| - 1]), steps[|steps| - 1]);
    }
  }

  // ---------- what every run keeps ----------

  // In every run the session, when present, is the token of the connection set last for the device, and its
  // prefix names the instance of that connection.
  lemma {:induction false} SessionNamesLatest(steps: seq<Step>, c: ClientId)
    requires Run(steps) && c in After(steps).session
    ensures var s := After(steps);
            var k := s.session[c].connection;
            && c in s.latest && k == s.latest[c]
            && Known(s, k) && s.session[c] == TokenOf(s, k) && s.connections[k].clientId == c
  {
    RunIsConsistent(steps);
    assert SessionTrue(After(steps), c, After(steps).session[c]);
  }

  // Executing the SET of a connection leaves its token, whatever was there, and no other device's changes.
  lemma {:induction false} SetLeavesItsToken(steps: seq<Step>, i: InstanceId)
    requires Run(steps) && Enabled(After(steps), Execute(i)) && NextCommand(After(steps), i).SetSession?
    ensures var s := After(steps);
            var k := NextCommand(s, i).connection;
            var t := Apply(s, Execute(i));
            && s.connections[k].instance == i
            && t.session == s.session[s.connections[k].clientId := Token(i, k)]
            && SameConnections(s, t) && ExecutedFor(t, i) == ExecutedFor(s, i) + 1
  {
    RunIsConsistent(steps);
    var s := After(steps);
    assert CommandOwned(s, i, ExecutedFor(s, i));
  }

  // Any instance may register a device at any time: its socket there becomes the new connection's, whatever
  // was there, and its SET is the next command the instance sends.
  lemma RegistrationTakesTheSocket(s: State, c: ClientId, i: InstanceId)
    ensures Enabled(s, Register(c, i))
    ensures var t := Apply(s, Register(c, i));
            && c in SocketsAt(t, i) && SocketsAt(t, i)[c] == |s.connections|
            && SentBy(t, i) == SentBy(s, i) + [SetSession(|s.connections|)] && t.session == s.session
            && (forall d :: d != c ==>
                  (d in SocketsAt(t, i) <==> d in SocketsAt(s, i)) &&
                  (d in SocketsAt(t, i) ==> SocketsAt(t, i)[d] == SocketsAt(s, i)[d]))
            && (forall j :: j != i ==> SocketsAt(t, j) == SocketsAt(s, j) && SentBy(t, j) == SentBy(s, j))
  {
  }

  // A connection that goes takes its own socket with it, not a newer one, and its delete is the next command
  // its instance sends.
  lemma DisconnectingSparesNewerSockets(s: State, k: int)
    requires Known(s, k) && !s.connections[k].closing
    ensures Enabled(s, Disconnect(k))
    ensures var c, i := s.connections[k].clientId, s.connections[k].instance;
            var t := Apply(s, Disconnect(k));
            && SentBy(t, i) == SentBy(s, i) + [CompareAndDelete(k)] && t.session == s.session
            && SocketsAt(t, i) == (if c in SocketsAt(s, i) && SocketsAt(s, i)[c] == k then SocketsAt(s, i) - {c}
                                   else SocketsAt(s, i))
            && (forall j :: j != i ==> SocketsAt(t, j) == SocketsAt(s, j) && SentBy(t, j) == SentBy(s, j))
  {
  }

  // A session may lapse at any time, and only that one.
  lemma SessionsMayExpire(s: State, c: ClientId)
    ensures Enabled(s, Expire(c)) && Apply(s, Expire(c)) == s.(session := s.session - {c})
    ensures c !in Apply(s, Expire(c)).session
  {
  }

  ghost predicate Expires(steps: seq<Step>) {
    exists step <- steps :: step.Expire?
  }

  // The connection set last has not had its delete executed.
  ghost predicate LatestIsUndeleted(s: State, c: ClientId) {
    c in s.latest && Known(s, s.latest[c]) &&
    var x := s.connections[s.latest[c]];
    x.closing ==> ExecutedFor(s, x.instance) <= x.deleteAt
  }

  lemma ExecuteKeepsPresence(s: State, i: InstanceId, c: ClientId)
    requires Consistent(s) && Enabled(s, Execute(i)) && (c in s.latest ==> Known(s, s.latest[c]))
    requires c in s.session <==> LatestIsUndeleted(s, c)
    ensures var t := DoExecute(s, i);
            (c in t.session <==> LatestIsUndeleted(t, c)) && (c in t.latest ==> Known(t, t.latest[c]))
  {
    var j := NextCommand(s, i).connection;
    assert CommandOwned(s, i, ExecutedFor(s, i)) && ConnectionSent(s, j);
    if c in s.session {
      assert SessionTrue(s, c, s.session[c]);
    }
    if c in s.latest {
      assert ConnectionSent(s, s.latest[c]);
      StillPending(s, i, s.latest[c]);
    }
  }

  // While nothing expires, a device has a session exactly while the connection set last has not had its
  // delete executed.
  lemma {:induction false} SessionIsPresentIff(steps: seq<Step>, c: ClientId)
    requires Run(steps) && !Expires(steps)
    ensures c in After(steps).session <==> LatestIsUndeleted(After(steps), c)
    ensures c in After(steps).latest ==> Known(After(steps), After(steps).latest[c])
  {
    if steps != [] {
      var before, step := steps[..|steps| - 1], steps[|steps| - 1];
      var s := After(before);
      assert step in steps && forall e <- before :: e in steps;
      SessionIsPresentIff(before, c);
      RunIsConsistent(before);
      match step
      case Register(_, _) =>
      case Disconnect(k) =>
        assert NotAhead(s, s.connections[k].instance);
      case Execute(i) => ExecuteKeepsPresence(s, i, c);
      case Expire(_) =>
    }
  }

  // Unregistering answers true exactly when the device's session is absent or the connection's own, and
  // never removes another session.
  lemma {:induction false} UnregisterSparesOthers(steps: seq<Step>, i: InstanceId)
    requires Run(steps) && Enabled(After(steps), Execute(i))
    requires NextCommand(After(steps), i).CompareAndDelete?
    ensures var s := After(steps);
            var k := NextCommand(s, i).connection;
            var c := s.connections[k].clientId;
            var t := Apply(s, Execute(i));
            && s.connections[k].closing && s.connections[k].instance == i && k in t.claimed
            && (t.claimed[k] <==> c !in s.session || s.session[c] == Token(i, k))
            && t.session == (if t.claimed[k] then s.session - {c} else s.session)
            && ExecutedFor(t, i) == ExecutedFor(s, i) + 1
  {
    RunIsConsistent(steps);
    var s := After(steps);
    assert CommandOwned(s, i, ExecutedFor(s, i));
  }

  // The instance the session names holds that connection's socket or a newer one of the device, unless a
  // disconnect of the device's newest connection there has been begun and not yet been executed.
  lemma {:induction false} HolderHasTheSocket(steps: seq<Step>, c: ClientId)
    requires Run(steps) && c in After(steps).session
    ensures var s := After(steps);
            var token := s.session[c];
            || (c in SocketsAt(s, token.instance) && token.connection <= SocketsAt(s, token.instance)[c])
            || (exists m :: token.connection <= m && Newest(s, m, token.instance, c) && DeletePending(s, m))
  {
    RunIsConsistent(steps);
    var s := After(steps);
    var token := s.session[c];
    assert SessionTrue(s, c, token);
    if c in SocketsAt(s, token.instance) {
      assert Newest(s, SocketsAt(s, token.instance)[c], token.instance, c);
    } else {
      var m := FindNewest(s, token.connection, token.instance, c, |s.connections|);
      assert Leaving(s, token.instance, c, m);
    }
  }

  // Among the first n connections, the newest one of a device on an instance.
  lemma {:induction false} FindNewest(s: State, k: int, i: InstanceId, c: ClientId, n: nat) returns (m: int)
    requires IsOn(s, k, i, c) && k < n <= |s.connections|
    requires forall j :: IsOn(s, j, i, c) ==> j < n
    ensures k <= m && Newest(s, m, i, c)
  {
    if IsOn(s, n - 1, i, c) {
      m := n - 1;
    } else {
      m := FindNewest(s, k, i, c, n - 1);
    }
  }

  // ---------- a run ----------

  lemma Extend(steps: seq<Step>, step: Step)
    requires Run(steps) && Enabled(After(steps), step)
    ensures Run(steps + [step]) && After(steps + [step]) == Apply(After(steps), step)
  {
    assert (steps + [step])[..|steps|] == steps;
  }

  // Device 7 registers at instance 1 and later disconnects: its session comes and goes.
  lemma RegistersAndLeaves() returns (steps: seq<Step>, more: seq<Step>)
    ensures Run(steps) && After(steps).session == map[7 := Token(1, 0)] && SocketsAt(After(steps), 1) == map[7 := 0]
    ensures Run(steps + more) && After(steps + more).session == map[] && SocketsAt(After(steps + more), 1) == map[]
    ensures After(steps + more).claimed == map[0 := true]
  {
    steps := [];
    Extend(steps, Register(7, 1));
    steps := [Register(7, 1)];
    assert [] + [Register(7, 1)] == steps;
    Extend(steps, Execute(1));
    more := [Disconnect(0), Execute(1)];
    var connected := steps + [Execute(1)];
    Extend(connected, Disconnect(0));
    Extend(connected + [Disconnect(0)], Execute(1));
    assert connected + [Disconnect(0)] + [Execute(1)] == connected + more;
    steps := connected;
  }
}
