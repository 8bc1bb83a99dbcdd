/**
  The connection registry of one API instance: the sockets it holds, the
  waiters it keeps, and the Redis keys it shares with the other instances.
  Each method is one uninterrupted execution of the source method; what happens
  when executions interleave is the subject of the step machines.
*/
module Registry {
  import opened Options
  import opened WaiterTable
  import Protocol = InvokeProtocol
  import opened SessionProtocol

  class Socket {
    var token: Option<Token>
    var open: bool
    var sent: seq<Protocol.Job>

    constructor (open: bool)
      ensures token == None && this.open == open && sent == []
    {
      this.token, this.open, this.sent := None, open, [];
    }
  }

  datatype Message =
    | SendJob(target: InstanceId, clientId: ClientId, job: Protocol.Job)
    | SendResult(target: InstanceId, requestId: RequestId, answer: Answer)

  // The keys client:session:*, rpc:waiter:* and rpc:completed:*, and what was published on the bus.
  class RedisStore {
    var session: map<ClientId, Token>
    var waiter: map<RequestId, Protocol.WaiterKey>
    var completed: set<RequestId>
    var published: seq<Message>

    constructor ()
      ensures session == map[] && waiter == map[] && completed == {} && published == []
    {
      session, waiter, completed, published := map[], map[], {}, [];
    }
  }

  // What handleResult acknowledges to the device.
  datatype Outcome = Late | Ok | Mismatch | Routed

  // How an uninterrupted handleResult ends, from the keys and waiters it finds.
  function OutcomeOf(waiter: map<RequestId, Protocol.WaiterKey>, completed: set<RequestId>, waiters: Waiters,
                     at: InstanceId, r: RequestId, answer: Answer): Outcome
  {
    if r !in waiter || r in completed then Late
    else if waiter[r].instance != at then Routed
    else if Resolves(waiters, r, answer.fromClientId) then Ok
    else Mismatch
  }

  class ConnectionRegistry {
    const instance: InstanceId
    const redis: RedisStore
    var sockets: map<ClientId, Socket>
    var waiters: Waiters
    var settlements: map<RequestId, Protocol.Settlement>  // how the promises handed out were settled

    constructor (instance: InstanceId, redis: RedisStore)
      ensures this.instance == instance && this.redis == redis
      ensures sockets == map[] && waiters == map[] && settlements == map[]
    {
      this.instance, this.redis := instance, redis;
      sockets, waiters, settlements := map[], map[], map[];
    }

    method Register(clientId: ClientId, socket: Socket, nonce: int)
      modifies this`sockets, socket`token, redis`session
      ensures sockets == old(sockets)[clientId := socket]
      ensures socket.token == Some(Token(instance, nonce))
      ensures redis.session == old(redis.session)[clientId := Token(instance, nonce)]
    {
      var token := Token(instance, nonce);
      socket.token := Some(token);
      sockets := sockets[clientId := socket];
      redis.session := redis.session[clientId := token];
    }

    // Answers whether this connection was still the owner of the device's session.
    method Unregister(clientId: ClientId, socket: Socket) returns (owner: bool)
      modifies this`sockets, redis`session
      ensures sockets == if clientId in old(sockets) && old(sockets)[clientId] == socket
                         then old(sockets) - {clientId} else old(sockets)
      ensures owner <==>
              socket.token.Some? &&
              (clientId !in old(redis.session) || old(redis.session)[clientId] == socket.token.value)
      ensures redis.session == if owner then old(redis.session) - {clientId} else old(redis.session)
    {
      if clientId in sockets && sockets[clientId] == socket {
        sockets := sockets - {clientId};
      }
      match socket.token
      case None => owner := false;
      case Some(token) =>
        if clientId !in redis.session {
          owner := true;
        } else if redis.session[clientId] == token {
          redis.session := redis.session - {clientId};
          owner := true;
        } else {
          owner := false;
        }
    }

    // The socket a job for the device would be written to at this time.
    ghost predicate CanDeliver(clientId: ClientId, job: Protocol.Job, now: nat)
      reads this`sockets, sockets.Values
    {
      clientId in sockets && sockets[clientId].open && (job.deadlineAt == 0 || now <= job.deadlineAt)
    }

    method DeliverLocalJob(clientId: ClientId, job: Protocol.Job, now: nat) returns (delivered: bool)
      modifies sockets.Values
      ensures delivered == old(CanDeliver(clientId, job, now))
      ensures delivered ==> sockets[clientId].sent == old(sockets[clientId].sent) + [job]
      ensures forall socket :: socket in sockets.Values ==>
                socket.open == old(socket.open) && socket.token == old(socket.token)
                && (!delivered || socket != sockets[clientId] ==> socket.sent == old(socket.sent))
    {
      if clientId !in sockets || !sockets[clientId].open {
        return false;
      }
      if PastDeadline(job.deadlineAt, now) {
        return false;
      }
      sockets[clientId].sent := sockets[clientId].sent + [job];
      return true;
    }

    // Routes the job to the instance the session names. True when it was handed to an open local socket
    // or published to the other instance.
    method DispatchJob(clientId: ClientId, job: Protocol.Job, now: nat) returns (dispatched: bool)
      modifies sockets.Values, redis`published
      ensures dispatched <==>
              clientId in redis.session &&
              (redis.session[clientId].instance == instance ==> old(CanDeliver(clientId, job, now)))
      ensures redis.published ==
              if clientId in redis.session && redis.session[clientId].instance != instance
              then old(redis.published) + [SendJob(redis.session[clientId].instance, clientId, job)]
              else old(redis.published)
      ensures forall socket :: socket in sockets.Values ==>
                socket.sent == if dispatched && redis.session[clientId].instance == instance &&
                                  socket == sockets[clientId]
                               then old(socket.sent) + [job] else old(socket.sent)
    {
      if clientId !in redis.session {
        return false;
      }
      var holder := redis.session[clientId].instance;
      if holder == instance {
        dispatched := DeliverLocalJob(clientId, job, now);
        return dispatched;
      }
      redis.published := redis.published + [SendJob(holder, clientId, job)];
      return true;
    }

    // From now on a result for r resolves here exactly when it comes from the chosen device. The waiter is
    // due after its timeout, or after one millisecond when the timer cannot represent that.
    method RegisterWaiter(r: RequestId, clientId: ClientId, timeout: nat, now: nat)
      modifies this`waiters
      ensures waiters == Registering(old(waiters), r, clientId, now + TimerDelay(timeout))
      ensures forall from :: Resolves(waiters, r, from) <==> clientId == NO_CLIENT || from == clientId
      ensures forall q, from :: q != r ==> (Resolves(waiters, q, from) <==> Resolves(old(waiters), q, from))
      ensures now < waiters[r].dueAt
      ensures 1 <= timeout ==>
                (waiters[r].dueAt == now + timeout <==> timeout <= 2147483647) && waiters[r].dueAt <= now + timeout
    {
      var dueAt := now + TimerDelay(timeout);
      waiters := waiters[r := Waiter(clientId, dueAt)];
    }

    // The mark outlives the waiter by five seconds, and until it does a result that arrives at any other
    // instance is routed here, unless one holds the dedup key.
    method MarkWaiting(r: RequestId, timeout: nat, now: nat)
      modifies redis`waiter
      ensures redis.waiter == old(redis.waiter)[r := Protocol.WaiterKey(instance, now + timeout + 5000)]
      ensures r in waiters && waiters[r].dueAt <= now + timeout ==>
                redis.waiter[r].expiresAt >= waiters[r].dueAt + 5000
      ensures forall at, found, answer :: at != instance && r !in redis.completed ==>
                OutcomeOf(redis.waiter, redis.completed, found, at, r, answer) == Routed
      ensures forall answer :: r !in redis.completed ==>
                OutcomeOf(redis.waiter, redis.completed, waiters, instance, r, answer) ==
                if Resolves(waiters, r, answer.fromClientId) then Ok else Mismatch
    {
      var key := Protocol.WaiterKey(instance, now + MarkTimeToLive(timeout));
      redis.waiter := redis.waiter[r := key];
    }

    method CancelWaiter(r: RequestId)
      modifies this`waiters, this`settlements
      ensures waiters == old(waiters) - {r}
      ensures settlements == if r in old(waiters) then old(settlements)[r := Protocol.ByCancel] else old(settlements)
    {
      if r !in waiters {
        return;
      }
      waiters := waiters - {r};
      settlements := settlements[r := Protocol.ByCancel];
    }

    // The waiter's timer goes off, not before it is due. A waiter that is gone has had its timer cleared.
    method FireTimer(r: RequestId, now: nat)
      requires r in waiters && waiters[r].dueAt <= now
      modifies this`waiters, this`settlements
      ensures waiters == old(waiters) - {r}
      ensures settlements == old(settlements)[r := Protocol.ByTimeout]
    {
      waiters := waiters - {r};
      settlements := settlements[r := Protocol.ByTimeout];
    }

    method ResolveLocalWaiter(r: RequestId, answer: Answer) returns (resolved: bool)
      modifies this`waiters, this`settlements
      ensures resolved == Resolves(old(waiters), r, answer.fromClientId)
      ensures waiters == if resolved then old(waiters) - {r} else old(waiters)
      ensures settlements == if resolved then old(settlements)[r := Protocol.ByResult(answer)] else old(settlements)
    {
      if r !in waiters {
        return false;
      }
      if waiters[r].clientId != NO_CLIENT && answer.fromClientId != waiters[r].clientId {
        return false;
      }
      waiters := waiters - {r};
      settlements := settlements[r := Protocol.ByResult(answer)];
      return true;
    }

    method HandleResult(r: RequestId, answer: Answer) returns (outcome: Outcome)
      modifies this`waiters, this`settlements, redis`completed, redis`published
      ensures outcome == OutcomeOf(redis.waiter, old(redis.completed), old(waiters), instance, r, answer)
      ensures waiters == if outcome == Ok then old(waiters) - {r} else old(waiters)
      ensures settlements ==
              if outcome == Ok then old(settlements)[r := Protocol.ByResult(answer)] else old(settlements)
      ensures redis.completed ==
              if outcome == Ok || outcome == Routed then old(redis.completed) + {r} else old(redis.completed)
      ensures redis.published ==
              if outcome == Routed then old(redis.published) + [SendResult(redis.waiter[r].instance, r, answer)]
              else old(redis.published)
    {
      if r !in redis.waiter {
        return Late;
      }
      var waiterInstance := redis.waiter[r].instance;
      if r in redis.completed {
        return Late;
      }
      redis.completed := redis.completed + {r};
      if waiterInstance == instance {
        var resolved := ResolveLocalWaiter(r, answer);
        if resolved {
          return Ok;
        }
        redis.completed := redis.completed - {r};
        return Mismatch;
      }
      redis.published := redis.published + [SendResult(waiterInstance, r, answer)];
      return Routed;
    }

    // The rpc:result bus handler: a routed result that settles nothing gives the dedup key back.
    method OnRoutedResult(r: RequestId, answer: Answer)
      modifies this`waiters, this`settlements, redis`completed
      ensures var resolved := Resolves(old(waiters), r, answer.fromClientId);
              && waiters == (if resolved then old(waiters) - {r} else old(waiters))
              && settlements ==
                 (if resolved then old(settlements)[r := Protocol.ByResult(answer)] else old(settlements))
              && redis.completed == (if resolved then old(redis.completed) else old(redis.completed) - {r})
    {
      var resolved := ResolveLocalWaiter(r, answer);
      if !resolved {
        redis.completed := redis.completed - {r};
      }
    }
  }

  // Receive, Claim, Conclude and Drop of one result with nothing in between.
  function HandleAlone(s: Protocol.State, h: int, message: int, at: InstanceId, r: RequestId, answer: Answer)
    : Protocol.State
    requires h !in s.traffic.handlers && message !in s.traffic.results
  {
    var received := Protocol.DoReceive(s, h, at, r, answer);
    if h !in received.traffic.handlers then received else
      var claimed := Protocol.DoClaim(received, h);
      if h !in claimed.traffic.handlers then claimed else
        var concluded := Protocol.DoConclude(claimed, h, message);
        if h !in concluded.traffic.handlers then concluded else Protocol.DoDrop(concluded, h)
  }

  // What handleResult leaves behind when nothing runs in between, by outcome.
  function Concluded(s: Protocol.State, message: int, at: InstanceId, r: RequestId, answer: Answer): Protocol.State {
    var t := s.(received := s.received + {(r, answer)});
    var taken := t.(keys := s.keys.(completed := s.keys.completed + {r}));
    match OutcomeOf(s.keys.waiter, s.keys.completed, Protocol.WaitersAt(s.waiters, at), at, r, answer)
    case Late => t
    case Mismatch => t
    case Routed =>
      taken.(traffic := s.traffic.(results :=
        s.traffic.results[message := Protocol.RoutedResult(s.keys.waiter[r].instance, r, answer)]))
    case Ok =>
      var settled := Protocol.Settle(taken, at, r, Protocol.ByResult(answer));
      settled.(invocations := Protocol.Acknowledge(settled.invocations, r, answer))
  }

  // Conclude and Drop, from the state in which one more handler has taken the dedup key.
  lemma {:induction false} ConcludeAlone(s: Protocol.State, h: int, message: int, at: InstanceId, r: RequestId,
                                         answer: Answer)
    requires h !in s.traffic.handlers && message !in s.traffic.results
    requires r in s.keys.waiter && r !in s.keys.completed
    ensures var taken := s.(received := s.received + {(r, answer)},
                            keys := s.keys.(completed := s.keys.completed + {r}));
            var claimed := Protocol.WithHandlers(taken,
              s.traffic.handlers[h := Protocol.Claimed(r, answer, at, s.keys.waiter[r].instance)]);
            var concluded := Protocol.DoConclude(claimed, h, message);
            (if h !in concluded.traffic.handlers then concluded else Protocol.DoDrop(concluded, h))
            == Concluded(s, message, at, r, answer)
  {
    var handlers := s.traffic.handlers;
    var claimed := Protocol.Claimed(r, answer, at, s.keys.waiter[r].instance);
    assert handlers[h := claimed] - {h} == handlers;
    assert handlers[h := claimed][h := Protocol.Dropping(r)] - {h} == handlers;
    assert s.keys.completed + {r} - {r} == s.keys.completed;
  }

  // The steps of one result, run without interruption, end as HandleResult says: 'late' and 'mismatch' leave
  // keys, waiters and requests alone, 'ok' settles the waiter, 'routed' publishes the result.
  lemma {:induction false} UninterruptedResult(s: Protocol.State, h: int, message: int, at: InstanceId, r: RequestId,
                                               answer: Answer)
    requires h !in s.traffic.handlers && message !in s.traffic.results
    ensures HandleAlone(s, h, message, at, r, answer) == Concluded(s, message, at, r, answer)
  {
    if r in s.keys.waiter {
      var handlers := s.traffic.handlers;
      var looked := Protocol.Looked(r, answer, at, s.keys.waiter[r].instance);
      var received := Protocol.DoReceive(s, h, at, r, answer);
      assert received.traffic.handlers == handlers[h := looked];
      assert handlers[h := looked] - {h} == handlers;
      if r !in s.keys.completed {
        ConcludeAlone(s, h, message, at, r, answer);
        var claimed := Protocol.Claimed(r, answer, at, s.keys.waiter[r].instance);
        assert handlers[h := looked][h := claimed] == handlers[h := claimed];
      }
    }
  }
}
