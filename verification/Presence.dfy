/**
  Device presence as one instance sees it through Redis: online marks, project
  membership, capacities, in-flight counters, and the round-robin picker.
  Device names are numbers in the order JavaScript sorts the names.
*/
module Presence {
  import opened WaiterTable

  type ProjectId = int

  const DEFAULT_CAPACITY: nat := 16

  // A reported capacity: missing or empty, a number, or text that is no finite number.
  datatype Reported = Missing | Numeric(value: real) | NotANumber

  predicate IsInteger(x: real) {
    x == x.Floor as real
  }

  // Honours a positive whole number up to 1024; anything else falls back to the default.
  function ClampMaxInFlight(reported: Reported): (capacity: nat)
    ensures MINIMUM_CAPACITY <= capacity <= MAXIMUM_CAPACITY
    ensures (reported.Numeric? && IsInteger(reported.value) && 1.0 <= reported.value) || capacity == DEFAULT_CAPACITY
  {
    match reported
    case Missing => DEFAULT_CAPACITY
    case NotANumber => DEFAULT_CAPACITY
    case Numeric(value) =>
      if !IsInteger(value) || value < MINIMUM_CAPACITY as real then DEFAULT_CAPACITY
      else if value.Floor < MAXIMUM_CAPACITY then value.Floor else MAXIMUM_CAPACITY
  }

  // A whole number of slots is honoured from 1 to 1024; zero falls back, more is cut off.
  lemma ClampHonours(n: nat)
    ensures ClampMaxInFlight(Numeric(n as real)) == if n == 0 then 16 else if n <= 1024 then n else 1024
  {
    assert (n as real).Floor == n;
  }

  // Writing a clamped capacity to Redis and reading it back changes nothing.
  lemma ClampRoundTrip(reported: Reported)
    ensures ClampMaxInFlight(Numeric(ClampMaxInFlight(reported) as real)) == ClampMaxInFlight(reported)
  {
    var capacity := ClampMaxInFlight(reported);
    assert (capacity as real).Floor == capacity;
  }

  datatype Selection = Chosen(clientId: ClientId) | NoDevice | NoneFree

  // ---------- sorted names ----------

  predicate Ascending(names: seq<ClientId>) {
    forall i, j :: 0 <= i < j < |names| ==> names[i] < names[j]
  }

  ghost predicate Lists(names: seq<ClientId>, members: set<ClientId>) {
    forall c :: c in names <==> c in members
  }

  predicate NoDuplicates(names: seq<ClientId>) {
    forall i, j :: 0 <= i < j < |names| ==> names[i] != names[j]
  }

  // There is only one ascending listing of a set, whatever order it was enumerated in.
  lemma {:induction false} AscendingIsUnique(a: seq<ClientId>, b: seq<ClientId>, members: set<ClientId>)
    requires Ascending(a) && Ascending(b) && Lists(a, members) && Lists(b, members)
    ensures a == b
  {
    if a != [] {
      assert a[0] in a;
    }
    if b != [] {
      assert b[0] in b;
    }
    if a != [] && b != [] {
      assert a[0] in b && b[0] in a;
      var i :| 0 <= i < |b| && b[i] == a[0];
      var j :| 0 <= j < |a| && a[j] == b[0];
      assert a[0] == b[0];
      ListsTail(a, members);
      ListsTail(b, members);
      AscendingIsUnique(a[1..], b[1..], members - {a[0]});
      assert a == [a[0]] + a[1..] && b == [b[0]] + b[1..];
    }
  }

  lemma ListsTail(names: seq<ClientId>, members: set<ClientId>)
    requires Ascending(names) && Lists(names, members) && names != []
    ensures Ascending(names[1..]) && Lists(names[1..], members - {names[0]})
  {
    forall c | c in members - {names[0]}
      ensures c in names[1..]
    {
      var i :| 0 <= i < |names| && names[i] == c;
      assert names[1..][i - 1] == c;
    }
  }

  method InsertName(names: seq<ClientId>, c: ClientId) returns (longer: seq<ClientId>)
    requires Ascending(names) && c !in names
    ensures Ascending(longer) && |longer| == |names| + 1
    ensures forall d :: d in longer <==> d in names || d == c
  {
    var i := 0;
    while i < |names| && names[i] < c
      invariant 0 <= i <= |names|
      invariant forall j :: 0 <= j < i ==> names[j] < c
    {
      i := i + 1;
    }
    longer := names[..i] + [c] + names[i..];
    assert names == names[..i] + names[i..];
  }

  // Array.prototype.sort on distinct names.
  method SortNames(names: seq<ClientId>) returns (sorted: seq<ClientId>)
    requires NoDuplicates(names)
    ensures Ascending(sorted) && |sorted| == |names|
    ensures forall c :: c in sorted <==> c in names
  {
    sorted := [];
    for i := 0 to |names|
      invariant Ascending(sorted) && |sorted| == i
      invariant forall c :: c in sorted <==> c in names[..i]
    {
      assert names[i] !in names[..i];
      assert names[..i + 1] == names[..i] + [names[i]];
      sorted := InsertName(sorted, names[i]);
    }
    assert names[..|names|] == names;
  }

  // ---------- the service ----------

  function Count(inFlight: map<ClientId, int>, c: ClientId): int {
    if c in inFlight then inFlight[c] else 0
  }

  // How many calls a device takes at once, from what it reported.
  ghost function SlotLimit(capacities: map<ClientId, Reported>, c: ClientId): (limit: nat)
    ensures c !in capacities ==> limit == 16
    ensures c in capacities && capacities[c].Numeric? && 1.0 <= capacities[c].value <= 1024.0 ==>
              IsInteger(capacities[c].value) ==> limit as real == capacities[c].value
  {
    if c in capacities && capacities[c].Numeric? && capacities[c].value.Floor as real == capacities[c].value &&
       capacities[c].value.Floor >= 1
    then (if capacities[c].value.Floor > 1024 then 1024 else capacities[c].value.Floor)
    else 16
  }

  ghost predicate SlotFree(capacities: map<ClientId, Reported>, inFlight: map<ClientId, int>, c: ClientId) {
    Count(inFlight, c) < SlotLimit(capacities, c)
  }

  class PresenceService {
    var online: set<ClientId>                        // presence:* keys that have not expired
    var members: map<ProjectId, set<ClientId>>       // project:clients:* sets
    var capacities: map<ClientId, Reported>          // device:maxinflight:* keys that have not expired
    var inFlight: map<ClientId, int>                 // device:inflight:* counters
    var cursors: map<ProjectId, nat>                 // rpc:rr:* counters

    constructor ()
      ensures online == {} && members == map[] && capacities == map[] && inFlight == map[] && cursors == map[]
    {
      online, members, capacities, inFlight, cursors := {}, map[], map[], map[], map[];
    }

    function MembersOf(project: ProjectId): set<ClientId>
      reads this
    {
      if project in members then members[project] else {}
    }

    function GetMaxInFlight(c: ClientId): (capacity: nat)
      reads this
      ensures capacity == SlotLimit(capacities, c)
    {
      ClampMaxInFlight(if c in capacities then capacities[c] else Missing)
    }

    method Online(c: ClientId, projects: seq<ProjectId>)
      modifies this`online, this`members
      ensures online == old(online) + {c}
      ensures forall p :: MembersOf(p) == if p in projects then old(MembersOf(p)) + {c} else old(MembersOf(p))
    {
      online := online + {c};
      for i := 0 to |projects|
        invariant online == old(online) + {c}
        invariant forall p :: MembersOf(p) == if p in projects[..i] then old(MembersOf(p)) + {c} else old(MembersOf(p))
      {
        members := members[projects[i] := MembersOf(projects[i]) + {c}];
        assert projects[..i + 1] == projects[..i] + [projects[i]];
      }
      assert projects[..|projects|] == projects;
    }

    method Offline(c: ClientId, projects: seq<ProjectId>)
      modifies this`online, this`members, this`capacities, this`inFlight
      ensures online == old(online) - {c}
      ensures capacities == old(capacities) - {c} && inFlight == old(inFlight) - {c}
      ensures forall p :: MembersOf(p) == if p in projects then old(MembersOf(p)) - {c} else old(MembersOf(p))
    {
      online, capacities, inFlight := online - {c}, capacities - {c}, inFlight - {c};
      for i := 0 to |projects|
        invariant online == old(online) - {c}
        invariant capacities == old(capacities) - {c} && inFlight == old(inFlight) - {c}
        invariant forall p :: MembersOf(p) == if p in projects[..i] then old(MembersOf(p)) - {c} else old(MembersOf(p))
      {
        members := members[projects[i] := MembersOf(projects[i]) - {c}];
        assert projects[..i + 1] == projects[..i] + [projects[i]];
      }
      assert projects[..|projects|] == projects;
    }

    method ResetInFlight(c: ClientId)
      modifies this`inFlight
      ensures inFlight == old(inFlight) - {c}
    {
      inFlight := inFlight - {c};
    }

    method SetMaxInFlight(c: ClientId, capacity: nat)
      modifies this`capacities
      ensures capacities == old(capacities)[c := Numeric(capacity as real)]
    {
      capacities := capacities[c := Numeric(capacity as real)];
    }

    // INCR, and DECR again when that exceeds the capacity, in one script.
    method TryAcquireSlot(c: ClientId, capacity: nat) returns (acquired: bool)
      modifies this`inFlight
      ensures acquired <==> Count(old(inFlight), c) < capacity
      ensures forall d :: Count(inFlight, d) == Count(old(inFlight), d) + (if acquired && d == c then 1 else 0)
    {
      var n := Count(inFlight, c) + 1;
      inFlight := inFlight[c := n];
      if n > capacity {
        inFlight := inFlight[c := n - 1];
        return false;
      }
      return true;
    }

    // DECR, and SET 0 when that went below zero.
    method ReleaseSlot(c: ClientId)
      modifies this`inFlight
      ensures forall d :: Count(inFlight, d) ==
                if d != c then Count(old(inFlight), d)
                else if Count(old(inFlight), c) > 0 then Count(old(inFlight), c) - 1 else 0
    {
      var remaining := Count(inFlight, c) - 1;
      inFlight := inFlight[c := remaining];
      if remaining < 0 {
        inFlight := inFlight[c := 0];
      }
    }

    // The members that are online, in the order SMEMBERS lists them; the others leave the set.
    method ListOnline(project: ProjectId, listed: seq<ClientId>) returns (present: seq<ClientId>)
      requires NoDuplicates(listed) && Lists(listed, MembersOf(project))
      modifies this`members
      ensures Lists(present, old(MembersOf(project)) * online) && NoDuplicates(present)
      ensures forall p :: MembersOf(p) ==
                if p == project then old(MembersOf(project)) * online else old(MembersOf(p))
    {
      present := [];
      for i := 0 to |listed|
        invariant NoDuplicates(present)
        invariant forall c :: c in present <==> c in listed[..i] && c in online
        invariant forall p :: p != project ==> MembersOf(p) == old(MembersOf(p))
        invariant forall c :: c in MembersOf(project) <==>
                    c in old(MembersOf(project)) && (c in listed[..i] ==> c in online)
      {
        var c := listed[i];
        assert c !in listed[..i];
        assert listed[..i + 1] == listed[..i] + [c];
        if c in online {
          present := present + [c];
        } else {
          members := members[project := MembersOf(project) - {c}];
        }
      }
      assert listed[..|listed|] == listed;
      assert forall i :: 0 <= i < |present| ==> present[i] in present;
      forall c
        ensures c in MembersOf(project) <==> c in old(MembersOf(project)) * online
      {
        assert c in listed <==> c in old(MembersOf(project));
      }
    }

    // Picks a device of the project and takes one of its slots, scanning each online device once from the
    // round-robin cursor. The outcome depends on the set of online members, not on how SMEMBERS lists it.
    method PickOnlineAcquire(project: ProjectId, listed: seq<ClientId>)
      returns (selection: Selection, ghost names: seq<ClientId>)
      requires NoDuplicates(listed) && Lists(listed, MembersOf(project))
      modifies this`members, this`inFlight, this`cursors
      ensures Ascending(names) && Lists(names, old(MembersOf(project)) * online)
      ensures MembersOf(project) == old(MembersOf(project)) * online
      ensures names == [] ==> selection == NoDevice && cursors == old(cursors)
      ensures names != [] ==>
                && cursors == old(cursors)[project := if project in old(cursors) then old(cursors)[project] + 1 else 1]
                && FirstFree(names, cursors[project] % |names|, FreeAmong(old(capacities), old(inFlight), names),
                             selection)
      ensures selection.NoneFree? ==>
                forall c :: c in old(MembersOf(project)) * online ==>
                  !SlotFree(capacities, old(inFlight), c)
      ensures selection.NoDevice? <==> old(MembersOf(project)) * online == {}
      ensures selection.Chosen? ==>
                selection.clientId in old(MembersOf(project)) * online &&
                SlotFree(capacities, old(inFlight), selection.clientId)
      ensures forall d :: Count(inFlight, d) ==
                Count(old(inFlight), d) + (if selection == Chosen(d) then 1 else 0)
    {
      var present := ListOnline(project, listed);
      names := [];
      assert forall c :: c in present <==> c in old(MembersOf(project)) * online;
      if present == [] {
        return NoDevice, [];
      }
      assert present[0] in present;
      var sorted := SortNames(present);
      names := sorted;
      var next := Cursor(cursors, project) + 1;
      cursors := cursors[project := next];
      ghost var free := FreeAmong(capacities, inFlight, sorted);
      selection := AcquireFirstFree(sorted, next % |sorted|);
      if selection.Chosen? {
        ChosenIsFree(sorted, next % |sorted|, free, selection.clientId);
        assert selection.clientId in names;
      } else {
        NoneFreeMeansFull(sorted, next % |sorted|, free);
      }
    }

    // The scan of pickOnlineAcquire: each name once, in cyclic order.
    method AcquireFirstFree(names: seq<ClientId>, start: nat) returns (selection: Selection)
      requires names != [] && start < |names|
      modifies this`inFlight
      ensures FirstFree(names, start, FreeAmong(old(capacities), old(inFlight), names), selection)
      ensures forall d :: Count(inFlight, d) == Count(old(inFlight), d) + (if selection == Chosen(d) then 1 else 0)
    {
      ghost var free := FreeAmong(capacities, inFlight, names);
      var n := |names|;
      var offset := 0;
      while offset < n
        invariant 0 <= offset <= n
        invariant forall d :: Count(inFlight, d) == Count(old(inFlight), d)
        invariant forall k: nat :: k < offset ==> Around(names, start, k) !in free
      {
        var c := Around(names, start, offset);
        assert c in names;
        var capacity := GetMaxInFlight(c);
        var acquired := TryAcquireSlot(c, capacity);
        if acquired {
          assert IsFirstFree(names, start, free, offset);
          return Chosen(c);
        }
        offset := offset + 1;
      }
      forall k | 0 <= k < n
        ensures names[k] !in free
      {
        var offset := CyclicScanCovers(n, start, k);
        assert Around(names, start, offset) == names[k];
      }
      return NoneFree;
    }
  }

  // The names of devices whose count is below what they reported.
  ghost function FreeAmong(capacities: map<ClientId, Reported>, inFlight: map<ClientId, int>, names: seq<ClientId>)
    : set<ClientId>
  {
    set c | c in names && SlotFree(capacities, inFlight, c)
  }

  // `selection` is the first free device in the cyclic order of `names` from `start`.
  ghost predicate FirstFree(names: seq<ClientId>, start: nat, free: set<ClientId>, selection: Selection)
    requires names != []
  {
    match selection
    case NoDevice => false
    case NoneFree => forall k :: 0 <= k < |names| ==> names[k] !in free
    case Chosen(c) =>
      exists offset: nat ::
        offset < |names| && IsFirstFree(names, start, free, offset) && c == Around(names, start, offset)
  }

  predicate IsFirstFree(names: seq<ClientId>, start: nat, free: set<ClientId>, offset: nat)
    requires names != []
  {
    && Around(names, start, offset) in free
    && (forall k: nat :: k < offset ==> Around(names, start, k) !in free)
  }

  function Cursor(cursors: map<ProjectId, nat>, project: ProjectId): nat {
    if project in cursors then cursors[project] else 0
  }

  // The name `offset` places after `start`, going round.
  function Around(names: seq<ClientId>, start: nat, offset: nat): ClientId
    requires names != []
  {
    names[(start + offset) % |names|]
  }

  // Every index is reached by some offset of a full cyclic scan.
  lemma CyclicScanCovers(n: nat, start: nat, k: nat) returns (offset: nat)
    requires start < n && k < n
    ensures offset < n && (start + offset) % n == k
  {
    offset := if start <= k then k - start else k + n - start;
    if k < start {
      assert start + offset == n + k;
      RemainderOfWrap(n, k);
    }
  }

  lemma RemainderOfWrap(n: nat, k: nat)
    requires k < n
    ensures (n + k) % n == k
  {
  }

  // A chosen device is one of the names, and it has a free slot.
  lemma {:induction false} ChosenIsFree(names: seq<ClientId>, start: nat, free: set<ClientId>, c: ClientId)
    requires names != [] && FirstFree(names, start, free, Chosen(c))
    ensures c in names && c in free
  {
    var i: nat :| i < |names| && IsFirstFree(names, start, free, i) && c == Around(names, start, i);
    assert names[(start + i) % |names|] in names;
  }

  lemma NoneFreeMeansFull(names: seq<ClientId>, start: nat, free: set<ClientId>)
    requires names != [] && FirstFree(names, start, free, NoneFree)
    ensures forall c <- names :: c !in free
  {
  }

  // The scan has one outcome only: whoever asks with the same names, cursor and free devices gets the same answer.
  lemma {:induction false} FirstFreeIsUnique(names: seq<ClientId>, start: nat, free: set<ClientId>, a: Selection,
                                             b: Selection)
    requires names != [] && FirstFree(names, start, free, a) && FirstFree(names, start, free, b)
    ensures a == b
  {
    if a.Chosen? {
      ChosenIsFree(names, start, free, a.clientId);
    }
    if b.Chosen? {
      ChosenIsFree(names, start, free, b.clientId);
    }
    if a.Chosen? && b.Chosen? {
      var i: nat :| i < |names| && IsFirstFree(names, start, free, i) && a.clientId == Around(names, start, i);
      var j: nat :| j < |names| && IsFirstFree(names, start, free, j) && b.clientId == Around(names, start, j);
      assert i == j;
    }
  }

  // When the device at the cursor has a free slot, it is the pick.
  lemma {:induction false} FreeDevicesAreTakenInTurn(names: seq<ClientId>, start: nat, free: set<ClientId>,
                                                     selection: Selection)
    requires names != [] && FirstFree(names, start, free, selection)
    requires names[start % |names|] in free
    ensures selection == Chosen(names[start % |names|])
  {
    assert Around(names, start, 0) == names[start % |names|];
    assert IsFirstFree(names, start, free, 0);
    FirstFreeIsUnique(names, start, free, selection, Chosen(names[start % |names|]));
  }

  // ---------- fairness ----------

  // How many of the k picks after cursor value `cursor` start at index j of n names.
  function PicksOf(n: nat, cursor: nat, k: nat, j: nat): nat
    requires 0 < n
  {
    if k == 0 then 0 else
      PicksOf(n, cursor, k - 1, j) + (if (cursor + k) % n == j then 1 else 0)
  }

  // One full round reaches every index exactly once more than the rounds before it did.
  lemma {:induction false} PicksUpTo(n: nat, m: nat, j: nat)
    requires j < n
    ensures PicksOf(n, 0, m, j) == if j == 0 then m / n else (m + n - j) / n
  {
    if m > 0 {
      PicksUpTo(n, m - 1, j);
      if j == 0 {
        DivStep(m, n);
      } else {
        DivStep(m + n - j, n);
        RemainderShift(n, m, j);
      }
    }
  }

  // Quotient and remainder are the only numbers with q * n + r == x and 0 <= r < n.
  lemma {:induction false} DivMod(x: nat, n: nat, q: nat, r: nat)
    requires r < n && x == q * n + r
    ensures x / n == q && x % n == r
  {
    var d := x / n - q;
    assert d * n == r - x % n;
    MultipleIsFar(d, n);
  }

  lemma MultipleIsFar(d: int, n: int)
    requires 0 < n
    ensures 1 <= d ==> n <= d * n
    ensures d <= -1 ==> d * n <= -n
  {
  }

  lemma {:induction false} DivStep(m: nat, n: nat)
    requires 0 < m && 0 < n
    ensures m / n == (m - 1) / n + (if m % n == 0 then 1 else 0)
  {
    var q, r := (m - 1) / n, (m - 1) % n;
    if r + 1 < n {
      DivMod(m, n, q, r + 1);
    } else {
      assert (q + 1) * n == q * n + n;
      DivMod(m, n, q + 1, 0);
    }
  }

  lemma {:induction false} RemainderShift(n: nat, m: nat, j: nat)
    requires 0 < j < n
    ensures m % n == j <==> (m + n - j) % n == 0
  {
    var q, r := m / n, m % n;
    if j <= r {
      assert (q + 1) * n == q * n + n;
      DivMod(m + n - j, n, q + 1, r - j);
    } else {
      DivMod(m + n - j, n, q, n + r - j);
    }
  }

  lemma {:induction false} PicksFrom(n: nat, cursor: nat, k: nat, j: nat)
    requires j < n
    ensures PicksOf(n, cursor, k, j) == PicksOf(n, 0, cursor + k, j) - PicksOf(n, 0, cursor, j)
  {
    if k > 0 {
      PicksFrom(n, cursor, k - 1, j);
    }
  }

  // With n devices that all have a free slot at every pick, k picks give each of them k/n, rounded down or up.
  lemma {:induction false} PicksAreFair(n: nat, cursor: nat, k: nat, j: nat)
    requires j < n
    ensures k / n <= PicksOf(n, cursor, k, j) <= (k + n - 1) / n
  {
    PicksFrom(n, cursor, k, j);
    PicksUpTo(n, cursor + k, j);
    PicksUpTo(n, cursor, j);
    QuotientGap(if j == 0 then cursor else cursor + n - j, k, n);
  }

  lemma {:induction false} QuotientGap(x: nat, k: nat, n: nat)
    requires 0 < n
    ensures k / n <= (x + k) / n - x / n <= (k + n - 1) / n
  {
    var b, t := k / n, k % n;
    QuotientOfSum(x, k, n);
    if t == 0 {
      DivMod(k + n - 1, n, b, n - 1);
    } else {
      assert (b + 1) * n == b * n + n;
      DivMod(k + n - 1, n, b + 1, t - 1);
    }
  }

  lemma {:induction false} QuotientOfSum(x: nat, k: nat, n: nat)
    requires 0 < n
    ensures (x + k) / n == x / n + k / n + (if x % n + k % n < n then 0 else 1)
  {
    var carry := if x % n + k % n < n then 0 else 1;
    Distribute(x / n, k / n, n);
    Distribute(x / n + k / n, carry, n);
    DivMod(x + k, n, x / n + k / n + carry, x % n + k % n - carry * n);
  }

  lemma Distribute(a: int, b: int, n: int)
    ensures (a + b) * n == a * n + b * n
  {
  }

  // One pick while the device whose turn it is has a free slot.
  method PickNext(service: PresenceService, project: ProjectId, listed: seq<ClientId>, ghost names: seq<ClientId>)
    returns (chosen: ClientId)
    requires NoDuplicates(listed) && Lists(listed, service.MembersOf(project)) &&
             service.MembersOf(project) <= service.online
    requires names != [] && Ascending(names) && Lists(names, service.MembersOf(project))
    requires SlotFree(service.capacities, service.inFlight, names[(Cursor(service.cursors, project) + 1) % |names|])
    modifies service`members, service`inFlight, service`cursors
    ensures service.MembersOf(project) == old(service.MembersOf(project))
    ensures Cursor(service.cursors, project) == old(Cursor(service.cursors, project)) + 1
    ensures chosen == names[Cursor(service.cursors, project) % |names|]
    ensures forall d :: Count(service.inFlight, d) == Count(old(service.inFlight), d) + (if d == chosen then 1 else 0)
  {
    ghost var cursor := Cursor(service.cursors, project) + 1;
    ghost var free := FreeAmong(service.capacities, service.inFlight, names);
    assert names[cursor % |names|] in free;
    var selection, found := service.PickOnlineAcquire(project, listed);
    assert old(service.MembersOf(project)) * service.online == old(service.MembersOf(project));
    AscendingIsUnique(names, found, old(service.MembersOf(project)));
    RemainderTwice(cursor, |names|);
    FreeDevicesAreTakenInTurn(names, cursor % |names|, free, selection);
    chosen := selection.clientId;
  }

  lemma RemainderTwice(x: nat, n: nat)
    requires 0 < n
    ensures x % n % n == x % n
  {
  }

  predicate SpreadEvenly(before: map<ClientId, int>, after: map<ClientId, int>, names: seq<ClientId>, k: nat) {
    forall j :: 0 <= j < |names| ==>
      k / |names| <= Count(after, names[j]) - Count(before, names[j]) <= (k + |names| - 1) / |names|
  }

  predicate PickedInTurn(before: map<ClientId, int>, after: map<ClientId, int>, names: seq<ClientId>, cursor: nat,
                         k: nat) {
    forall j: nat :: j < |names| ==> Count(after, names[j]) == Count(before, names[j]) + PicksOf(|names|, cursor, k, j)
  }

  lemma NextInTurn(before: map<ClientId, int>, now: map<ClientId, int>, after: map<ClientId, int>, names: seq<ClientId>,
                   cursor: nat, k: nat)
    requires names != [] && Ascending(names) && PickedInTurn(before, now, names, cursor, k)
    requires var chosen := names[(cursor + k + 1) % |names|];
             forall d :: Count(after, d) == Count(now, d) + (if d == chosen then 1 else 0)
    ensures PickedInTurn(before, after, names, cursor, k + 1)
  {
  }

  lemma InTurnIsEven(before: map<ClientId, int>, after: map<ClientId, int>, names: seq<ClientId>, cursor: nat, k: nat)
    requires PickedInTurn(before, after, names, cursor, k)
    ensures SpreadEvenly(before, after, names, k)
  {
    forall j: nat | j < |names|
      ensures k / |names| <= Count(after, names[j]) - Count(before, names[j]) <= (k + |names| - 1) / |names|
    {
      PicksAreFair(|names|, cursor, k, j);
    }
  }

  // The share of each of n devices in k picks, rounded up.
  function Share(k: nat, n: nat): nat
    requires 0 < n
  {
    (k + n - 1) / n
  }

  lemma ShareGrows(i: nat, k: nat, n: nat)
    requires 0 < n && i <= k
    ensures Share(i, n) <= Share(k, n)
  {
    QuotientOfSum(i + n - 1, k - i, n);
    assert i + n - 1 + (k - i) == k + n - 1;
    assert 0 <= (k - i) / n;
  }

  // The device whose turn comes after i picks still has its slot free.
  lemma TurnHasRoom(before: map<ClientId, int>, now: map<ClientId, int>, names: seq<ClientId>, cursor: nat, i: nat,
                    k: nat)
    requires names != [] && PickedInTurn(before, now, names, cursor, i) && i < k
    ensures var j := (cursor + i + 1) % |names|;
            Count(now, names[j]) < Count(before, names[j]) + Share(k, |names|)
  {
    var n := |names|;
    var j := (cursor + i + 1) % n;
    assert PicksOf(n, cursor, i + 1, j) == PicksOf(n, cursor, i, j) + 1;
    PicksAreFair(n, cursor, i + 1, j);
    ShareGrows(i + 1, k, n);
  }

  // With fixed membership and room on each device for its share of the picks, k picks spread evenly: no
  // device is found full, and each one gets k/n of them, rounded down or up.
  method PickMany(service: PresenceService, project: ProjectId, listed: seq<ClientId>, k: nat)
    returns (names: seq<ClientId>)
    requires NoDuplicates(listed) && Lists(listed, service.MembersOf(project)) &&
             service.MembersOf(project) <= service.online
    requires forall c :: c in listed ==>
               Count(service.inFlight, c) + Share(k, |listed|) <= SlotLimit(service.capacities, c)
    modifies service`members, service`inFlight, service`cursors
    ensures Ascending(names) && Lists(names, old(service.MembersOf(project)))
    ensures SpreadEvenly(old(service.inFlight), service.inFlight, names, k)
  {
    names := SortNames(listed);
    if names == [] {
      return;
    }
    ghost var cursor := Cursor(service.cursors, project);
    for i := 0 to k
      invariant service.MembersOf(project) == old(service.MembersOf(project))
      invariant Cursor(service.cursors, project) == cursor + i
      invariant PickedInTurn(old(service.inFlight), service.inFlight, names, cursor, i)
    {
      TurnHasRoom(old(service.inFlight), service.inFlight, names, cursor, i, k);
      assert names[(cursor + i + 1) % |names|] in names;
      ghost var now := service.inFlight;
      var chosen := PickNext(service, project, listed, names);
      NextInTurn(old(service.inFlight), now, service.inFlight, names, cursor, i);
    }
    InTurnIsEven(old(service.inFlight), service.inFlight, names, cursor, k);
  }
}
