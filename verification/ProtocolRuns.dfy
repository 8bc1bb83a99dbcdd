/**
  Two runs of the cluster, step by step: an invoke answered through another
  instance, and a right result answered `late` because a wrong device held the
  dedup key at that moment.
*/
module ProtocolRuns {
  import opened WaiterTable
  import opened InvokeProtocol
  import opened TimingSafety

  // Request 1 at instance 0, for device 7, marked and ready to dispatch.
  const MARKED := State(
    1,
    map[1 := Invocation(0, 1, 1000, 7, 1001, Marked, [], 1, 0, 0, [])],
    map[0 := map[1 := Waiter(7, 1001)]],
    Keys(map[1 := WaiterKey(0, 6001)], {}, map[7 := 1]),
    Traffic(map[], map[], map[]), {}, {}, map[7 := 1])

  lemma MarkedInvoke() returns (steps: seq<Step>)
    ensures Run(1, steps) && After(1, steps) == MARKED
  {
    steps := [];
    var a := Begin(1, 0, 1000);
    Extend(1, steps, a);
    steps, a := steps + [a], Setup(1, ResolveProject);
    Extend(1, steps, a);
    steps, a := steps + [a], Setup(1, TryAcquire(7, 1));
    Extend(1, steps, a);
    steps, a := steps + [a], Setup(1, Register);
    Extend(1, steps, a);
    steps, a := steps + [a], Setup(1, Mark);
    Extend(1, steps, a);
    steps := steps + [a];
  }

  const RIGHT := Answer(7, 42)
  const WRONG := Answer(9, 0)

  // The job crosses the bus to the instance that holds the socket.
  lemma SentElsewhere() returns (steps: seq<Step>)
    ensures Run(1, steps)
    ensures After(1, steps) == MARKED.(
              invocations := map[1 := MARKED.invocations[1].(phase := Awaiting)], sends := {Send(Job(1, 7, 1001), 1)})
  {
    steps := MarkedInvoke();
    var a := Finish(1, Dispatch(Remote(1)));
    Extend(1, steps, a);
    steps, a := steps + [a], OfEnvironment(DeliverJob(1, true));
    Extend(1, steps, a);
    steps := steps + [a];
  }

  // That instance receives the result and takes the dedup key.
  lemma AnsweredElsewhere() returns (steps: seq<Step>)
    ensures Run(1, steps)
    ensures After(1, steps) == MARKED.(
              invocations := map[1 := MARKED.invocations[1].(phase := Awaiting)],
              keys := MARKED.keys.(completed := {1}),
              traffic := Traffic(map[1 := Claimed(1, RIGHT, 1, 0)], map[], map[]),
              received := {(1, RIGHT)}, sends := {Send(Job(1, 7, 1001), 1)})
  {
    steps := SentElsewhere();
    var a := OfResult(Receive(1, 1, 1, RIGHT));
    Extend(1, steps, a);
    steps, a := steps + [a], OfResult(Claim(1));
    Extend(1, steps, a);
    steps := steps + [a];
  }

  // A routed result completes the invoke: success, one settlement, the slot given back.
  lemma RoutedResultSucceeds() returns (steps: seq<Step>)
    ensures Run(1, steps) && 1 in After(1, steps).invocations
    ensures After(1, steps).invocations[1] ==
            Invocation(0, 1, 1000, 7, 1001, Returned(Success(RIGHT)), [ByResult(RIGHT)], 1, 1, 1, [])
    ensures InFlight(After(1, steps).keys, 7) == 0
  {
    steps := AnsweredElsewhere();
    var a := OfResult(Conclude(1, 2));
    Extend(1, steps, a);
    steps, a := steps + [a], OfResult(DeliverResult(2, 3));
    Extend(1, steps, a);
    steps, a := steps + [a], Finish(1, Complete);
    Extend(1, steps, a);
    steps, a := steps + [a], Finish(1, ReleaseSlot);
    Extend(1, steps, a);
    steps := steps + [a];
  }

  // The wrong device's result takes the dedup key.
  lemma WrongResultClaims() returns (steps: seq<Step>)
    ensures Run(1, steps)
    ensures After(1, steps) == MARKED.(
              invocations := map[1 := MARKED.invocations[1].(phase := Awaiting)],
              keys := MARKED.keys.(completed := {1}),
              traffic := Traffic(map[1 := Claimed(1, WRONG, 0, 0)], map[], map[]),
              received := {(1, WRONG)}, sends := {Send(Job(1, 7, 1001), 1)})
  {
    steps := MarkedInvoke();
    var a := Finish(1, Dispatch(LocalSocket(true)));
    Extend(1, steps, a);
    steps, a := steps + [a], OfResult(Receive(1, 0, 1, WRONG));
    Extend(1, steps, a);
    steps, a := steps + [a], OfResult(Claim(1));
    Extend(1, steps, a);
    steps := steps + [a];
  }

  // The right one asks for the key while it is taken.
  lemma RightResultTurnedAway() returns (steps: seq<Step>)
    ensures Run(1, steps)
    ensures After(1, steps) == MARKED.(
              invocations := map[1 := MARKED.invocations[1].(phase := Awaiting)],
              keys := MARKED.keys.(completed := {1}),
              traffic := Traffic(map[1 := Claimed(1, WRONG, 0, 0)], map[], map[]),
              received := {(1, WRONG), (1, RIGHT)}, sends := {Send(Job(1, 7, 1001), 1)})
  {
    steps := WrongResultClaims();
    var a := OfResult(Receive(2, 0, 1, RIGHT));
    Extend(1, steps, a);
    steps, a := steps + [a], OfResult(Claim(2));
    Extend(1, steps, a);
    steps := steps + [a];
  }

  // The protocol does not promise delivery: the right result was received and is gone, nothing is in
  // transit, the dedup key is free again, and the request still waits.
  lemma RightResultMayBeLate() returns (steps: seq<Step>)
    ensures Run(1, steps)
    ensures var s := After(1, steps);
            && (1, RIGHT) in s.received && s.traffic == Traffic(map[], map[], map[]) && s.keys.completed == {}
            && 1 in s.invocations && s.invocations[1].phase == Awaiting && s.invocations[1].settlements == []
  {
    steps := RightResultTurnedAway();
    var a := OfResult(Conclude(1, 2));
    Extend(1, steps, a);
    steps, a := steps + [a], OfResult(Drop(1));
    Extend(1, steps, a);
    steps := steps + [a];
  }
}
