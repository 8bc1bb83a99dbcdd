/**
  What one API instance keeps about the requests it waits for, and the
  constants that time them. The registry class and the cluster step machine
  are both written in terms of these functions.
*/
module WaiterTable {
  // Names and payloads are opaque here: all the protocol does is compare them.
  type InstanceId = int
  type RequestId = int
  type ClientId = int
  type Payload = int

  // Stands for the empty string, which no connected device has as its name.
  const NO_CLIENT: ClientId := 0

  datatype Answer = Answer(fromClientId: ClientId, payload: Payload)

  datatype Waiter = Waiter(clientId: ClientId, dueAt: nat)

  type Waiters = map<RequestId, Waiter>

  const MINIMUM_CAPACITY: nat := 1
  const MAXIMUM_CAPACITY: nat := 1024
  const MARK_GRACE_MILLISECONDS: nat := 5000
  const MAXIMUM_TIMER_MILLISECONDS: nat := 2147483647

  // setTimeout treats delays below one millisecond or above 31 bits as one millisecond.
  function TimerDelay(timeout: nat): nat {
    if 1 <= timeout <= MAXIMUM_TIMER_MILLISECONDS then timeout else 1
  }

  function MarkTimeToLive(timeout: nat): nat {
    timeout + MARK_GRACE_MILLISECONDS
  }

  // A deadline of zero counts as no deadline.
  predicate PastDeadline(deadlineAt: nat, now: nat) {
    deadlineAt != 0 && deadlineAt < now
  }

  function Registering(waiters: Waiters, r: RequestId, clientId: ClientId, dueAt: nat): Waiters {
    waiters[r := Waiter(clientId, dueAt)]
  }

  // resolveLocalWaiter succeeds: the waiter is here and the result comes from the device it expects.
  predicate Resolves(waiters: Waiters, r: RequestId, fromClientId: ClientId) {
    r in waiters && (waiters[r].clientId == NO_CLIENT || waiters[r].clientId == fromClientId)
  }
}
