/**
  Daily metrics: two aggregate tables kept up to date by one upsert per
  completed request, and rebuilt from the request log with a GROUP BY.
*/
module Metrics {
  import opened Options

  type Name = int

  const EMPTY_NAME: Name := 0
  const MILLISECONDS_PER_DAY: int := 86_400_000

  datatype Status = Succeeded | TimedOut | Failed

  // The columns of a request log row, and of the job that writes it, which the metrics read.
  datatype LogRow = LogRow(
    requestId: int, project: Name, action: Name, clientId: Option<Name>, status: Status, latency: int,
    createdAt: int, accessTokenId: Option<int>)

  datatype Aggregate = Aggregate(total: int, success: int, failed: int, timeout: int, totalLatency: int,
                                 maxLatency: int)

  datatype RpcKey = RpcKey(date: int, project: Name, action: Name, clientId: Name)
  datatype DeviceKey = DeviceKey(date: int, clientId: Name, project: Name)

  datatype Tables = Tables(rpc: map<RpcKey, Aggregate>, device: map<DeviceKey, Aggregate>)

  const NO_METRICS := Tables(map[], map[])

  // The UTC day of an instant.
  function DayOf(time: int): int {
    time / MILLISECONDS_PER_DAY
  }

  // A row lies in the window by its instant exactly when its day does.
  lemma {:induction false} WindowIsWholeDays(time: int, cutoffDay: int)
    ensures time >= cutoffDay * MILLISECONDS_PER_DAY <==> DayOf(time) >= cutoffDay
  {
  }

  function RpcKeyOf(row: LogRow): RpcKey {
    RpcKey(DayOf(row.createdAt), row.project, row.action, if row.clientId.Some? then row.clientId.value else EMPTY_NAME)
  }

  // ---------- one table ----------

  function Max(a: int, b: int): int { if a < b then b else a }

  function Classify(status: Status): (int, int, int) {
    match status
    case Succeeded => (1, 0, 0)
    case TimedOut => (0, 0, 1)
    case Failed => (0, 1, 0)
  }

  function First(row: LogRow): Aggregate {
    var (success, failed, timeout) := Classify(row.status);
    Aggregate(1, success, failed, timeout, row.latency, row.latency)
  }

  function Plus(a: Aggregate, row: LogRow): Aggregate {
    var (success, failed, timeout) := Classify(row.status);
    Aggregate(a.total + 1, a.success + success, a.failed + failed, a.timeout + timeout,
              a.totalLatency + row.latency, Max(a.maxLatency, row.latency))
  }

  // INSERT ... ON CONFLICT DO UPDATE under the row's key; a row without a key is skipped.
  function Upsert<K(==)>(table: map<K, Aggregate>, row: LogRow, key: LogRow -> Option<K>): map<K, Aggregate> {
    match key(row)
    case None => table
    case Some(k) => table[k := if k in table then Plus(table[k], row) else First(row)]
  }

  function UpsertAll<K(==)>(table: map<K, Aggregate>, rows: seq<LogRow>, key: LogRow -> Option<K>): map<K, Aggregate> {
    if rows == [] then table else
      Upsert(UpsertAll(table, rows[..|rows| - 1], key), rows[|rows| - 1], key)
  }

  // ---------- GROUP BY ----------

  function CountStatus(rows: seq<LogRow>, status: Status): nat {
    if rows == [] then 0 else
      CountStatus(rows[..|rows| - 1], status) + if rows[|rows| - 1].status == status then 1 else 0
  }

  function SumLatency(rows: seq<LogRow>): int {
    if rows == [] then 0 else SumLatency(rows[..|rows| - 1]) + rows[|rows| - 1].latency
  }

  function MaxLatency(rows: seq<LogRow>): int {
    if rows == [] then 0
    else if |rows| == 1 then rows[0].latency
    else Max(MaxLatency(rows[..|rows| - 1]), rows[|rows| - 1].latency)
  }

  // The aggregate columns of one group.
  function Summary(rows: seq<LogRow>): Aggregate {
    Aggregate(|rows|, CountStatus(rows, Succeeded), CountStatus(rows, Failed), CountStatus(rows, TimedOut),
              SumLatency(rows), MaxLatency(rows))
  }

  function Group<K(==)>(rows: seq<LogRow>, key: LogRow -> Option<K>, k: K): seq<LogRow> {
    if rows == [] then [] else
      var before := Group(rows[..|rows| - 1], key, k);
      if key(rows[|rows| - 1]) == Some(k) then before + [rows[|rows| - 1]] else before
  }

  function GroupKeys<K(==)>(rows: seq<LogRow>, key: LogRow -> Option<K>): set<K> {
    set i | 0 <= i < |rows| && key(rows[i]).Some? :: key(rows[i]).value
  }

  function GroupBy<K(==)>(rows: seq<LogRow>, key: LogRow -> Option<K>): map<K, Aggregate> {
    map k | k in GroupKeys(rows, key) :: Summary(Group(rows, key, k))
  }

  lemma SummarySnoc(rows: seq<LogRow>, row: LogRow)
    ensures Summary(rows + [row]) == if rows == [] then First(row) else Plus(Summary(rows), row)
  {
    assert (rows + [row])[..|rows|] == rows;
    assert forall status ::
             CountStatus(rows + [row], status) == CountStatus(rows, status) + if row.status == status then 1 else 0;
    if rows == [] {
      assert rows + [row] == [row];
      assert Summary(rows) == Aggregate(0, 0, 0, 0, 0, 0);
      assert Summary([row]) == First(row);
    } else {
      assert MaxLatency(rows + [row]) == Max(MaxLatency(rows), row.latency);
    }
  }

  // The columns of one group, row by row: how many rows of each kind, and a largest latency among them.
  lemma {:induction false} SummaryMeans(rows: seq<LogRow>)
    requires rows != []
    ensures Summary(rows).total == |rows|
    ensures forall row <- rows :: row.latency <= Summary(rows).maxLatency
    ensures exists row <- rows :: row.latency == Summary(rows).maxLatency
  {
    var before, last := rows[..|rows| - 1], rows[|rows| - 1];
    assert rows == before + [last];
    if before != [] {
      SummaryMeans(before);
      var largest :| largest in before && largest.latency == Summary(before).maxLatency;
      assert largest in rows;
    }
    assert last in rows;
  }

  // Two rows of one day, project, action and client count together, and no others do.
  lemma {:induction false} RowsCountTogetherIff(a: LogRow, b: LogRow)
    ensures RpcKeyFor(a) == RpcKeyFor(b) <==>
            a.createdAt / 86_400_000 == b.createdAt / 86_400_000 && a.project == b.project && a.action == b.action &&
            NameOf(a.clientId) == NameOf(b.clientId)
    ensures RecordedDevice(a).Some? <==> NameOf(a.clientId) != EMPTY_NAME
    ensures GroupedDevice(a).Some? <==> a.clientId != None
    ensures GroupedDevice(a).Some? && GroupedDevice(b).Some? ==>
              (GroupedDevice(a) == GroupedDevice(b) <==>
               a.createdAt / 86_400_000 == b.createdAt / 86_400_000 && a.project == b.project &&
               a.clientId == b.clientId)
  {
  }

  // A missing client goes under the empty name.
  ghost function NameOf(clientId: Option<Name>): Name {
    match clientId
    case None => 0
    case Some(name) => name
  }

  lemma GroupSnoc<K>(rows: seq<LogRow>, row: LogRow, key: LogRow -> Option<K>, k: K)
    ensures Group(rows + [row], key, k) ==
            if key(row) == Some(k) then Group(rows, key, k) + [row] else Group(rows, key, k)
  {
    assert (rows + [row])[..|rows|] == rows;
  }

  // A group has exactly the rows with its key.
  lemma {:induction false} GroupMembers<K>(rows: seq<LogRow>, key: LogRow -> Option<K>, k: K)
    ensures forall row :: row in Group(rows, key, k) <==> row in rows && key(row) == Some(k)
  {
    if rows != [] {
      var before, last := rows[..|rows| - 1], rows[|rows| - 1];
      GroupMembers(before, key, k);
      assert rows == before + [last];
    }
  }

  lemma {:induction false} GroupIsEmpty<K>(rows: seq<LogRow>, key: LogRow -> Option<K>, k: K)
    ensures Group(rows, key, k) == [] <==> k !in GroupKeys(rows, key)
  {
    if rows != [] {
      var before, last := rows[..|rows| - 1], rows[|rows| - 1];
      GroupIsEmpty(before, key, k);
      GroupKeysSnoc(before, last, key);
      assert rows == before + [last];
    }
  }

  lemma GroupKeysSnoc<K>(rows: seq<LogRow>, row: LogRow, key: LogRow -> Option<K>)
    ensures GroupKeys(rows + [row], key) ==
            GroupKeys(rows, key) + (if key(row).Some? then {key(row).value} else {})
  {
    var more := rows + [row];
    forall k | k in GroupKeys(rows, key)
      ensures k in GroupKeys(more, key)
    {
      var i :| 0 <= i < |rows| && key(rows[i]).Some? && key(rows[i]).value == k;
      assert more[i] == rows[i];
    }
    assert more[|rows|] == row;
  }

  lemma GroupBySnoc<K>(rows: seq<LogRow>, row: LogRow, key: LogRow -> Option<K>)
    ensures GroupBy(rows + [row], key) == Upsert(GroupBy(rows, key), row, key)
  {
    GroupKeysSnoc(rows, row, key);
    forall k | k in GroupKeys(rows + [row], key)
      ensures GroupBy(rows + [row], key)[k] == Upsert(GroupBy(rows, key), row, key)[k]
    {
      GroupSnoc(rows, row, key, k);
      GroupIsEmpty(rows, key, k);
      SummarySnoc(Group(rows, key, k), row);
    }
  }

  lemma UpsertBeside<K>(table: map<K, Aggregate>, other: map<K, Aggregate>, row: LogRow, key: LogRow -> Option<K>)
    requires key(row).Some? ==> key(row).value !in table
    ensures Upsert(table + other, row, key) == table + Upsert(other, row, key)
  {
  }

  // Upserting rows one by one into a table that holds none of their keys adds exactly their groups.
  lemma {:induction false} UpsertAllIsGroupBy<K>(table: map<K, Aggregate>, rows: seq<LogRow>, key: LogRow -> Option<K>)
    requires table.Keys !! GroupKeys(rows, key)
    ensures UpsertAll(table, rows, key) == table + GroupBy(rows, key)
  {
    if rows != [] {
      var before, last := rows[..|rows| - 1], rows[|rows| - 1];
      assert rows == before + [last];
      GroupKeysSnoc(before, last, key);
      UpsertAllIsGroupBy(table, before, key);
      UpsertBeside(table, GroupBy(before, key), last, key);
      GroupBySnoc(before, last, key);
    }
  }

  // Two upserts may be swapped.
  lemma UpsertsCommute<K>(table: map<K, Aggregate>, a: LogRow, b: LogRow, key: LogRow -> Option<K>)
    ensures Upsert(Upsert(table, a, key), b, key) == Upsert(Upsert(table, b, key), a, key)
  {
  }

  // A row may be taken out of the middle and upserted last.
  lemma {:induction false} UpsertMovesToEnd<K>(table: map<K, Aggregate>, rows: seq<LogRow>, i: nat,
                                               key: LogRow -> Option<K>)
    requires i < |rows|
    ensures UpsertAll(table, rows, key) == Upsert(UpsertAll(table, rows[..i] + rows[i + 1..], key), rows[i], key)
  {
    var n := |rows| - 1;
    if i == n {
      assert rows[..i] + rows[i + 1..] == rows[..n];
    } else {
      UpsertMovesToEnd(table, rows[..n], i, key);
      var rest := rows[..n][..i] + rows[..n][i + 1..];
      assert rows[..i] + rows[i + 1..] == rest + [rows[n]];
      assert (rest + [rows[n]])[..|rest|] == rest;
      UpsertsCommute(UpsertAll(table, rest, key), rows[i], rows[n], key);
    }
  }

  lemma WithoutOne<T>(s: seq<T>, i: nat)
    requires i < |s|
    ensures multiset(s[..i] + s[i + 1..]) == multiset(s) - multiset{s[i]}
  {
    assert s == s[..i] + [s[i]] + s[i + 1..];
  }

  // The order in which rows are upserted does not matter.
  lemma {:induction false} UpsertOrderIsIrrelevant<K>(table: map<K, Aggregate>, a: seq<LogRow>, b: seq<LogRow>,
                                                      key: LogRow -> Option<K>)
    requires multiset(a) == multiset(b)
    ensures UpsertAll(table, a, key) == UpsertAll(table, b, key)
    decreases |b|
  {
    if b == [] {
      assert |multiset(a)| == 0;
    } else {
      var n := |b| - 1;
      assert b[n] in multiset(a);
      var i :| 0 <= i < |a| && a[i] == b[n];
      WithoutOne(a, i);
      WithoutOne(b, n);
      assert b[..n] + b[n + 1..] == b[..n];
      UpsertOrderIsIrrelevant(table, a[..i] + a[i + 1..], b[..n], key);
      UpsertMovesToEnd(table, a, i, key);
    }
  }

  // What upserting leaves under one key of its own is the summary of that key's rows.
  lemma {:induction false} UpsertAllAt<K>(table: map<K, Aggregate>, rows: seq<LogRow>, key: LogRow -> Option<K>, k: K)
    requires k !in table
    ensures k in UpsertAll(table, rows, key) <==> Group(rows, key, k) != []
    ensures k in UpsertAll(table, rows, key) ==> UpsertAll(table, rows, key)[k] == Summary(Group(rows, key, k))
  {
    if rows != [] {
      var before, last := rows[..|rows| - 1], rows[|rows| - 1];
      UpsertAllAt(table, before, key, k);
      SummarySnoc(Group(before, key, k), last);
    }
  }

  // ---------- the two tables ----------

  function RpcKeyFor(row: LogRow): Option<RpcKey> {
    Some(RpcKeyOf(row))
  }

  function DeviceKeyOf(row: LogRow, clientId: Name): DeviceKey {
    DeviceKey(DayOf(row.createdAt), clientId, row.project)
  }

  // The incremental path asks for a truthy client name, so it skips the empty string as well as a missing one.
  function RecordedDevice(row: LogRow): Option<DeviceKey> {
    if row.clientId.Some? && row.clientId.value != EMPTY_NAME then Some(DeviceKeyOf(row, row.clientId.value)) else None
  }

  // The rebuild asks for a client that is not NULL, so it keeps the empty string.
  function GroupedDevice(row: LogRow): Option<DeviceKey> {
    if row.clientId.Some? then Some(DeviceKeyOf(row, row.clientId.value)) else None
  }

  function Complete(tables: Tables, row: LogRow): Tables {
    Tables(Upsert(tables.rpc, row, RpcKeyFor), Upsert(tables.device, row, RecordedDevice))
  }

  function CompleteAll(tables: Tables, rows: seq<LogRow>): Tables {
    if rows == [] then tables else Complete(CompleteAll(tables, rows[..|rows| - 1]), rows[|rows| - 1])
  }

  function CutoffDay(now: int, days: int): int {
    DayOf(now) - (days - 1)
  }

  predicate InWindow(row: LogRow, cutoffDay: int) {
    row.createdAt >= cutoffDay * MILLISECONDS_PER_DAY
  }

  function Window(log: seq<LogRow>, cutoffDay: int): seq<LogRow> {
    if log == [] then [] else
      var before := Window(log[..|log| - 1], cutoffDay);
      if InWindow(log[|log| - 1], cutoffDay) then before + [log[|log| - 1]] else before
  }

  function RpcBefore(rpc: map<RpcKey, Aggregate>, cutoffDay: int): map<RpcKey, Aggregate> {
    map k | k in rpc && k.date < cutoffDay :: rpc[k]
  }

  function DeviceBefore(device: map<DeviceKey, Aggregate>, cutoffDay: int): map<DeviceKey, Aggregate> {
    map k | k in device && k.date < cutoffDay :: device[k]
  }

  function Rebuild(tables: Tables, log: seq<LogRow>, cutoffDay: int): Tables {
    Tables(RpcBefore(tables.rpc, cutoffDay) + GroupBy(Window(log, cutoffDay), RpcKeyFor),
           DeviceBefore(tables.device, cutoffDay) + GroupBy(Window(log, cutoffDay), GroupedDevice))
  }

  function Cleanup(tables: Tables, cutoffDay: int): Tables {
    Tables(map k | k in tables.rpc && k.date >= cutoffDay :: tables.rpc[k],
           map k | k in tables.device && k.date >= cutoffDay :: tables.device[k])
  }

  lemma {:induction false} CompleteAllByTable(tables: Tables, rows: seq<LogRow>)
    ensures CompleteAll(tables, rows) ==
            Tables(UpsertAll(tables.rpc, rows, RpcKeyFor), UpsertAll(tables.device, rows, RecordedDevice))
  {
    if rows != [] {
      CompleteAllByTable(tables, rows[..|rows| - 1]);
    }
  }

  // Completions may be recorded in any order.
  lemma {:induction false} CompletionOrderIsIrrelevant(tables: Tables, a: seq<LogRow>, b: seq<LogRow>)
    requires multiset(a) == multiset(b)
    ensures CompleteAll(tables, a) == CompleteAll(tables, b)
  {
    CompleteAllByTable(tables, a);
    CompleteAllByTable(tables, b);
    UpsertOrderIsIrrelevant(tables.rpc, a, b, RpcKeyFor);
    UpsertOrderIsIrrelevant(tables.device, a, b, RecordedDevice);
  }

  // ---------- the rebuild undoes nothing the increments did right ----------

  // The window loses no row of a key whose rows all lie in it.
  lemma {:induction false} GroupInWindow<K>(log: seq<LogRow>, key: LogRow -> Option<K>, k: K, cutoffDay: int)
    requires forall row :: key(row) == Some(k) ==> InWindow(row, cutoffDay)
    ensures Group(Window(log, cutoffDay), key, k) == Group(log, key, k)
  {
    if log != [] {
      var before, last := log[..|log| - 1], log[|log| - 1];
      GroupInWindow(before, key, k, cutoffDay);
      GroupSnoc(Window(before, cutoffDay), last, key, k);
    }
  }

  lemma {:induction false} WindowRowsAreRecent(log: seq<LogRow>, cutoffDay: int)
    ensures forall row <- Window(log, cutoffDay) :: row in log && DayOf(row.createdAt) >= cutoffDay
    ensures forall row <- log :: InWindow(row, cutoffDay) ==> row in Window(log, cutoffDay)
  {
    if log != [] {
      WindowRowsAreRecent(log[..|log| - 1], cutoffDay);
      WindowIsWholeDays(log[|log| - 1].createdAt, cutoffDay);
    }
  }

  // The groups of one key are the same for two key functions that agree on it.
  lemma {:induction false} GroupsAgree<K>(rows: seq<LogRow>, f: LogRow -> Option<K>, g: LogRow -> Option<K>, k: K)
    requires forall row <- rows :: f(row) == Some(k) <==> g(row) == Some(k)
    ensures Group(rows, f, k) == Group(rows, g, k)
  {
    if rows != [] {
      GroupsAgree(rows[..|rows| - 1], f, g, k);
    }
  }

  // No row of the window carries the empty string for a client.
  ghost predicate ClientsAreNamed(log: seq<LogRow>, cutoffDay: int) {
    forall row <- log :: InWindow(row, cutoffDay) ==> row.clientId != Some(EMPTY_NAME)
  }

  ghost predicate DatedBefore(tables: Tables, cutoffDay: int) {
    (forall k <- tables.rpc :: k.date < cutoffDay) && (forall k <- tables.device :: k.date < cutoffDay)
  }

  lemma GroupedKeysAreRecent(log: seq<LogRow>, cutoffDay: int)
    ensures forall k <- GroupBy(Window(log, cutoffDay), RpcKeyFor) :: k.date >= cutoffDay
    ensures forall k <- GroupBy(Window(log, cutoffDay), GroupedDevice) :: k.date >= cutoffDay
  {
    WindowRowsAreRecent(log, cutoffDay);
  }

  ghost predicate SameAt<K(!new)>(a: map<K, Aggregate>, b: map<K, Aggregate>, k: K) {
    (k in a <==> k in b) && (k in a ==> a[k] == b[k])
  }

  // Deleting the recent rows and inserting their groups changes nothing when the groups are those rows.
  lemma RecentRpcReplaced(done: map<RpcKey, Aggregate>, groups: map<RpcKey, Aggregate>, cutoffDay: int)
    requires forall k <- groups :: k.date >= cutoffDay
    requires forall k: RpcKey :: k.date >= cutoffDay ==> SameAt(done, groups, k)
    ensures RpcBefore(done, cutoffDay) + groups == done
  {
    forall k: RpcKey
      ensures SameAt(RpcBefore(done, cutoffDay) + groups, done, k)
    {
      assert k.date >= cutoffDay ==> SameAt(done, groups, k);
    }
    assert forall k: RpcKey :: SameAt(RpcBefore(done, cutoffDay) + groups, done, k);
  }

  lemma RecentDeviceReplaced(done: map<DeviceKey, Aggregate>, groups: map<DeviceKey, Aggregate>, cutoffDay: int)
    requires forall k <- groups :: k.date >= cutoffDay
    requires forall k: DeviceKey :: k.date >= cutoffDay ==> SameAt(done, groups, k)
    ensures DeviceBefore(done, cutoffDay) + groups == done
  {
    forall k: DeviceKey
      ensures SameAt(DeviceBefore(done, cutoffDay) + groups, done, k)
    {
      assert k.date >= cutoffDay ==> SameAt(done, groups, k);
    }
    assert forall k: DeviceKey :: SameAt(DeviceBefore(done, cutoffDay) + groups, done, k);
  }

  lemma RecentRpcRow(start: Tables, log: seq<LogRow>, cutoffDay: int, k: RpcKey)
    requires DatedBefore(start, cutoffDay) && k.date >= cutoffDay
    ensures SameAt(UpsertAll(start.rpc, log, RpcKeyFor), GroupBy(Window(log, cutoffDay), RpcKeyFor), k)
  {
    forall row | RpcKeyFor(row) == Some(k)
      ensures InWindow(row, cutoffDay)
    {
      WindowIsWholeDays(row.createdAt, cutoffDay);
    }
    GroupInWindow(log, RpcKeyFor, k, cutoffDay);
    UpsertAllAt(start.rpc, log, RpcKeyFor, k);
    GroupIsEmpty(Window(log, cutoffDay), RpcKeyFor, k);
  }

  lemma {:induction false} RecentRpcIsGroupBy(start: Tables, log: seq<LogRow>, cutoffDay: int)
    requires DatedBefore(start, cutoffDay)
    ensures Rebuild(CompleteAll(start, log), log, cutoffDay).rpc == CompleteAll(start, log).rpc
  {
    CompleteAllByTable(start, log);
    GroupedKeysAreRecent(log, cutoffDay);
    forall k: RpcKey | k.date >= cutoffDay
      ensures SameAt(UpsertAll(start.rpc, log, RpcKeyFor), GroupBy(Window(log, cutoffDay), RpcKeyFor), k)
    {
      RecentRpcRow(start, log, cutoffDay, k);
    }
    RecentRpcReplaced(UpsertAll(start.rpc, log, RpcKeyFor), GroupBy(Window(log, cutoffDay), RpcKeyFor), cutoffDay);
  }

  // What the two paths make of one recent device row.
  lemma RecentDeviceRow(start: Tables, log: seq<LogRow>, cutoffDay: int, k: DeviceKey)
    requires DatedBefore(start, cutoffDay) && k.date >= cutoffDay && k.clientId != EMPTY_NAME
    ensures SameAt(UpsertAll(start.device, log, RecordedDevice), GroupBy(Window(log, cutoffDay), GroupedDevice), k)
  {
    forall row | GroupedDevice(row) == Some(k)
      ensures InWindow(row, cutoffDay)
    {
      WindowIsWholeDays(row.createdAt, cutoffDay);
    }
    GroupInWindow(log, GroupedDevice, k, cutoffDay);
    GroupsAgree(log, RecordedDevice, GroupedDevice, k);
    UpsertAllAt(start.device, log, RecordedDevice, k);
    GroupIsEmpty(Window(log, cutoffDay), GroupedDevice, k);
  }

  // The incremental path never makes a device row for the empty name; the rebuild does so exactly for unnamed clients.
  lemma UnnamedDeviceRow(start: Tables, log: seq<LogRow>, cutoffDay: int, k: DeviceKey)
    requires DatedBefore(start, cutoffDay) && k.date >= cutoffDay && k.clientId == EMPTY_NAME
    ensures k !in UpsertAll(start.device, log, RecordedDevice)
    ensures k in GroupKeys(Window(log, cutoffDay), GroupedDevice) ==> !ClientsAreNamed(log, cutoffDay)
  {
    UpsertAllAt(start.device, log, RecordedDevice, k);
    GroupIsEmpty(log, RecordedDevice, k);
    WindowRowsAreRecent(log, cutoffDay);
    WindowIsWholeDaysForAll(log, cutoffDay);
  }

  lemma WindowIsWholeDaysForAll(log: seq<LogRow>, cutoffDay: int)
    ensures forall row <- log :: InWindow(row, cutoffDay) <==> DayOf(row.createdAt) >= cutoffDay
  {
    forall row <- log
      ensures InWindow(row, cutoffDay) <==> DayOf(row.createdAt) >= cutoffDay
    {
      WindowIsWholeDays(row.createdAt, cutoffDay);
    }
  }

  lemma {:induction false} NamedClientsMakeNoOp(start: Tables, log: seq<LogRow>, cutoffDay: int)
    requires DatedBefore(start, cutoffDay) && ClientsAreNamed(log, cutoffDay)
    ensures Rebuild(CompleteAll(start, log), log, cutoffDay).device == CompleteAll(start, log).device
  {
    CompleteAllByTable(start, log);
    GroupedKeysAreRecent(log, cutoffDay);
    forall k: DeviceKey | k.date >= cutoffDay
      ensures SameAt(UpsertAll(start.device, log, RecordedDevice), GroupBy(Window(log, cutoffDay), GroupedDevice), k)
    {
      if k.clientId == EMPTY_NAME {
        UnnamedDeviceRow(start, log, cutoffDay, k);
      } else {
        RecentDeviceRow(start, log, cutoffDay, k);
      }
    }
    RecentDeviceReplaced(UpsertAll(start.device, log, RecordedDevice), GroupBy(Window(log, cutoffDay), GroupedDevice),
                         cutoffDay);
  }

  lemma UnnamedClientMakesDifference(start: Tables, log: seq<LogRow>, cutoffDay: int)
    requires DatedBefore(start, cutoffDay) && !ClientsAreNamed(log, cutoffDay)
    ensures Rebuild(CompleteAll(start, log), log, cutoffDay).device != CompleteAll(start, log).device
  {
    CompleteAllByTable(start, log);
    var window := Window(log, cutoffDay);
    WindowRowsAreRecent(log, cutoffDay);
    var row :| row in log && InWindow(row, cutoffDay) && row.clientId == Some(EMPTY_NAME);
    var k := DeviceKeyOf(row, EMPTY_NAME);
    var i :| 0 <= i < |window| && window[i] == row;
    assert k in GroupKeys(window, GroupedDevice);
    UnnamedDeviceRow(start, log, cutoffDay, k);
  }

  // The tables kept by increments are what the rebuild computes from the same rows exactly when no
  // recent client is the empty string.
  lemma {:induction false} RebuildIsNoOpIff(start: Tables, log: seq<LogRow>, cutoffDay: int)
    requires DatedBefore(start, cutoffDay)
    ensures Rebuild(CompleteAll(start, log), log, cutoffDay) == CompleteAll(start, log) <==>
            ClientsAreNamed(log, cutoffDay)
  {
    RecentRpcIsGroupBy(start, log, cutoffDay);
    if ClientsAreNamed(log, cutoffDay) {
      NamedClientsMakeNoOp(start, log, cutoffDay);
    } else {
      UnnamedClientMakesDifference(start, log, cutoffDay);
    }
  }

  lemma RpcBeforeAgain(rpc: map<RpcKey, Aggregate>, groups: map<RpcKey, Aggregate>, cutoffDay: int)
    requires forall k <- groups :: k.date >= cutoffDay
    ensures RpcBefore(RpcBefore(rpc, cutoffDay) + groups, cutoffDay) == RpcBefore(rpc, cutoffDay)
  {
  }

  lemma DeviceBeforeAgain(device: map<DeviceKey, Aggregate>, groups: map<DeviceKey, Aggregate>, cutoffDay: int)
    requires forall k <- groups :: k.date >= cutoffDay
    ensures DeviceBefore(DeviceBefore(device, cutoffDay) + groups, cutoffDay) == DeviceBefore(device, cutoffDay)
  {
  }

  // After a rebuild a recent row is there exactly when the log has rows with its key, and is their summary.
  lemma {:induction false} RebuiltRpcRow(tables: Tables, log: seq<LogRow>, cutoffDay: int, k: RpcKey)
    requires k.date >= cutoffDay
    ensures k in Rebuild(tables, log, cutoffDay).rpc <==> Group(log, RpcKeyFor, k) != []
    ensures k in Rebuild(tables, log, cutoffDay).rpc ==>
              Rebuild(tables, log, cutoffDay).rpc[k] == Summary(Group(log, RpcKeyFor, k))
  {
    forall row | RpcKeyFor(row) == Some(k)
      ensures InWindow(row, cutoffDay)
    {
      WindowIsWholeDays(row.createdAt, cutoffDay);
    }
    GroupInWindow(log, RpcKeyFor, k, cutoffDay);
    GroupIsEmpty(Window(log, cutoffDay), RpcKeyFor, k);
  }

  lemma {:induction false} RebuiltDeviceRow(tables: Tables, log: seq<LogRow>, cutoffDay: int, k: DeviceKey)
    requires k.date >= cutoffDay
    ensures k in Rebuild(tables, log, cutoffDay).device <==> Group(log, GroupedDevice, k) != []
    ensures k in Rebuild(tables, log, cutoffDay).device ==>
              Rebuild(tables, log, cutoffDay).device[k] == Summary(Group(log, GroupedDevice, k))
  {
    forall row | GroupedDevice(row) == Some(k)
      ensures InWindow(row, cutoffDay)
    {
      WindowIsWholeDays(row.createdAt, cutoffDay);
    }
    GroupInWindow(log, GroupedDevice, k, cutoffDay);
    GroupIsEmpty(Window(log, cutoffDay), GroupedDevice, k);
  }

  // Older rows stay as they are.
  lemma {:induction false} RebuildSparesOldRows(tables: Tables, log: seq<LogRow>, cutoffDay: int)
    ensures forall k: RpcKey :: k.date < cutoffDay ==> SameAt(Rebuild(tables, log, cutoffDay).rpc, tables.rpc, k)
    ensures forall k: DeviceKey :: k.date < cutoffDay ==>
              SameAt(Rebuild(tables, log, cutoffDay).device, tables.device, k)
  {
    GroupedKeysAreRecent(log, cutoffDay);
  }

  // Rebuilding twice from one log is rebuilding once.
  lemma {:induction false} RebuildIsIdempotent(tables: Tables, log: seq<LogRow>, cutoffDay: int)
    ensures Rebuild(Rebuild(tables, log, cutoffDay), log, cutoffDay) == Rebuild(tables, log, cutoffDay)
  {
    GroupedKeysAreRecent(log, cutoffDay);
    RpcBeforeAgain(tables.rpc, GroupBy(Window(log, cutoffDay), RpcKeyFor), cutoffDay);
    DeviceBeforeAgain(tables.device, GroupBy(Window(log, cutoffDay), GroupedDevice), cutoffDay);
  }

  // Recording one more completion after a rebuild is rebuilding with that row in the log.
  lemma {:induction false} CompleteAfterRebuild(tables: Tables, log: seq<LogRow>, row: LogRow, cutoffDay: int)
    requires InWindow(row, cutoffDay) && row.clientId != Some(EMPTY_NAME)
    ensures Complete(Rebuild(tables, log, cutoffDay), row) == Rebuild(tables, log + [row], cutoffDay)
  {
    assert (log + [row])[..|log|] == log;
    var window := Window(log, cutoffDay);
    assert Window(log + [row], cutoffDay) == window + [row];
    WindowIsWholeDays(row.createdAt, cutoffDay);
    GroupBySnoc(window, row, RpcKeyFor);
    GroupBySnoc(window, row, GroupedDevice);
    UpsertBeside(RpcBefore(tables.rpc, cutoffDay), GroupBy(window, RpcKeyFor), row, RpcKeyFor);
    UpsertBeside(DeviceBefore(tables.device, cutoffDay), GroupBy(window, GroupedDevice), row, GroupedDevice);
    assert RecordedDevice(row) == GroupedDevice(row);
  }

  // ---------- a rebuild in the middle of a run ----------

  lemma {:induction false} UpsertAllAppend<K>(table: map<K, Aggregate>, a: seq<LogRow>, b: seq<LogRow>,
                                              key: LogRow -> Option<K>)
    ensures UpsertAll(table, a + b, key) == UpsertAll(UpsertAll(table, a, key), b, key)
  {
    if b == [] {
      assert a + b == a;
    } else {
      assert (a + b)[..|a + b| - 1] == a + b[..|b| - 1];
      UpsertAllAppend(table, a, b[..|b| - 1], key);
    }
  }

  function Keep<K(==)>(table: map<K, Aggregate>, keep: K -> bool): map<K, Aggregate> {
    map k | k in table && keep(k) :: table[k]
  }

  function Outside(log: seq<LogRow>, cutoffDay: int): seq<LogRow> {
    if log == [] then [] else
      var before := Outside(log[..|log| - 1], cutoffDay);
      if InWindow(log[|log| - 1], cutoffDay) then before else before + [log[|log| - 1]]
  }

  lemma WindowSnoc(log: seq<LogRow>, row: LogRow, cutoffDay: int)
    ensures Window(log + [row], cutoffDay) ==
            if InWindow(row, cutoffDay) then Window(log, cutoffDay) + [row] else Window(log, cutoffDay)
    ensures Outside(log + [row], cutoffDay) ==
            if InWindow(row, cutoffDay) then Outside(log, cutoffDay) else Outside(log, cutoffDay) + [row]
  {
    assert (log + [row])[..|log|] == log;
  }

  // Deleting the recent rows of a fold leaves the fold of the older jobs.
  lemma {:induction false} KeepOutside<K(!new)>(table: map<K, Aggregate>, rows: seq<LogRow>, key: LogRow -> Option<K>,
                                                keep: K -> bool, cutoffDay: int)
    requires forall row <- rows :: key(row).Some? ==> (keep(key(row).value) <==> !InWindow(row, cutoffDay))
    ensures Keep(UpsertAll(table, rows, key), keep) == UpsertAll(Keep(table, keep), Outside(rows, cutoffDay), key)
  {
    if rows != [] {
      var before, last := rows[..|rows| - 1], rows[|rows| - 1];
      assert last in rows;
      assert forall row <- before :: row in rows;
      KeepOutside(table, before, key, keep, cutoffDay);
      KeepUpsert(UpsertAll(table, before, key), last, key, keep, cutoffDay);
      var older := Outside(before, cutoffDay);
      assert (older + [last])[..|older|] == older;
    }
  }

  lemma KeepUpsert<K(!new)>(table: map<K, Aggregate>, row: LogRow, key: LogRow -> Option<K>, keep: K -> bool,
                            cutoffDay: int)
    requires key(row).Some? ==> (keep(key(row).value) <==> !InWindow(row, cutoffDay))
    ensures Keep(Upsert(table, row, key), keep) ==
            if InWindow(row, cutoffDay) then Keep(table, keep) else Upsert(Keep(table, keep), row, key)
  {
  }

  lemma {:induction false} GroupBysAgree<K>(rows: seq<LogRow>, f: LogRow -> Option<K>, g: LogRow -> Option<K>)
    requires forall row <- rows :: f(row) == g(row)
    ensures GroupBy(rows, f) == GroupBy(rows, g)
  {
    assert GroupKeys(rows, f) == GroupKeys(rows, g) by {
      assert forall i :: 0 <= i < |rows| ==> rows[i] in rows;
    }
    forall k | k in GroupKeys(rows, f)
      ensures Group(rows, f, k) == Group(rows, g, k)
    {
      GroupsAgree(rows, f, g, k);
    }
  }

  // A rebuild after any fold is the fold of the older jobs and of the recent log rows.
  lemma {:induction false} RebuildOfRpcFold(base: map<RpcKey, Aggregate>, rows: seq<LogRow>, log: seq<LogRow>,
                                            cutoffDay: int)
    ensures RpcBefore(UpsertAll(base, rows, RpcKeyFor), cutoffDay) + GroupBy(Window(log, cutoffDay), RpcKeyFor) ==
            UpsertAll(RpcBefore(base, cutoffDay), Outside(rows, cutoffDay) + Window(log, cutoffDay), RpcKeyFor)
  {
    var keep := (k: RpcKey) => k.date < cutoffDay;
    WindowIsWholeDaysForAll(rows, cutoffDay);
    KeepOutside(base, rows, RpcKeyFor, keep, cutoffDay);
    assert Keep(base, keep) == RpcBefore(base, cutoffDay);
    assert Keep(UpsertAll(base, rows, RpcKeyFor), keep) == RpcBefore(UpsertAll(base, rows, RpcKeyFor), cutoffDay);
    GroupedKeysAreRecent(log, cutoffDay);
    var older := UpsertAll(RpcBefore(base, cutoffDay), Outside(rows, cutoffDay), RpcKeyFor);
    assert forall k <- older :: k.date < cutoffDay;
    UpsertAllIsGroupBy(older, Window(log, cutoffDay), RpcKeyFor);
    UpsertAllAppend(RpcBefore(base, cutoffDay), Outside(rows, cutoffDay), Window(log, cutoffDay), RpcKeyFor);
  }

  // The same for devices, when every client of the log is named.
  lemma {:induction false} RebuildOfDeviceFold(base: map<DeviceKey, Aggregate>, rows: seq<LogRow>, log: seq<LogRow>,
                                               cutoffDay: int)
    requires ClientsAreNamed(log, cutoffDay)
    ensures DeviceBefore(UpsertAll(base, rows, RecordedDevice), cutoffDay) +
            GroupBy(Window(log, cutoffDay), GroupedDevice) ==
            UpsertAll(DeviceBefore(base, cutoffDay), Outside(rows, cutoffDay) + Window(log, cutoffDay), RecordedDevice)
  {
    var keep := (k: DeviceKey) => k.date < cutoffDay;
    WindowIsWholeDaysForAll(rows, cutoffDay);
    KeepOutside(base, rows, RecordedDevice, keep, cutoffDay);
    assert Keep(base, keep) == DeviceBefore(base, cutoffDay);
    assert Keep(UpsertAll(base, rows, RecordedDevice), keep) ==
           DeviceBefore(UpsertAll(base, rows, RecordedDevice), cutoffDay);
    WindowRowsAreRecent(log, cutoffDay);
    WindowIsWholeDaysForAll(log, cutoffDay);
    GroupBysAgree(Window(log, cutoffDay), RecordedDevice, GroupedDevice);
    GroupedKeysAreRecent(log, cutoffDay);
    var older := UpsertAll(DeviceBefore(base, cutoffDay), Outside(rows, cutoffDay), RecordedDevice);
    assert forall k <- older :: k.date < cutoffDay;
    UpsertAllIsGroupBy(older, Window(log, cutoffDay), RecordedDevice);
    UpsertAllAppend(DeviceBefore(base, cutoffDay), Outside(rows, cutoffDay), Window(log, cutoffDay), RecordedDevice);
  }
}
