/**
  Two balances that hold in the metrics tables after every completion,
  rebuild and cleanup, in any order and from any log.
*/
module MetricsBalance {
  import opened Options
  import opened Metrics

  ghost predicate RowBalances(a: Aggregate) {
    a.total == a.success + a.failed + a.timeout
  }

  ghost predicate RowsBalance(tables: Tables) {
    (forall k <- tables.rpc :: RowBalances(tables.rpc[k])) &&
    (forall k <- tables.device :: RowBalances(tables.device[k]))
  }

  // The sum of the totals of some RPC rows.
  ghost function SumTotals(rpc: map<RpcKey, Aggregate>, keys: set<RpcKey>): int
    requires keys <= rpc.Keys
  {
    if keys == {} then 0 else
      var k :| k in keys;
      rpc[k].total + SumTotals(rpc, keys - {k})
  }

  // The RPC rows of every action that one device row gathers.
  ghost function ActionsOf(rpc: map<RpcKey, Aggregate>, device: DeviceKey): set<RpcKey> {
    set k | k in rpc && k.date == device.date && k.project == device.project && k.clientId == device.clientId
  }

  ghost function ActionsTotal(rpc: map<RpcKey, Aggregate>, device: DeviceKey): int {
    SumTotals(rpc, ActionsOf(rpc, device))
  }

  ghost function DeviceTotal(table: map<DeviceKey, Aggregate>, device: DeviceKey): int {
    if device in table then table[device].total else 0
  }

  ghost predicate DeviceBalances(tables: Tables, device: DeviceKey) {
    DeviceTotal(tables.device, device) == ActionsTotal(tables.rpc, device)
  }

  // For every date, project and named client the device total is the sum of the RPC totals over the actions.
  ghost predicate DevicesBalance(tables: Tables) {
    forall device: DeviceKey :: device.clientId != EMPTY_NAME ==> DeviceBalances(tables, device)
  }

  // ---------- sums ----------

  lemma {:induction false} SumWithout(rpc: map<RpcKey, Aggregate>, keys: set<RpcKey>, k: RpcKey)
    requires keys <= rpc.Keys && k in keys
    ensures SumTotals(rpc, keys) == rpc[k].total + SumTotals(rpc, keys - {k})
  {
    var chosen :| chosen in keys && SumTotals(rpc, keys) == rpc[chosen].total + SumTotals(rpc, keys - {chosen});
    if chosen != k {
      SumWithout(rpc, keys - {chosen}, k);
      SumWithout(rpc, keys - {k}, chosen);
      assert keys - {chosen} - {k} == keys - {k} - {chosen};
    }
  }

  lemma {:induction false} SumFrame(a: map<RpcKey, Aggregate>, b: map<RpcKey, Aggregate>, keys: set<RpcKey>)
    requires keys <= a.Keys && keys <= b.Keys
    requires forall k <- keys :: a[k].total == b[k].total
    ensures SumTotals(a, keys) == SumTotals(b, keys)
  {
    if keys != {} {
      var k :| k in keys;
      SumWithout(a, keys, k);
      SumWithout(b, keys, k);
      SumFrame(a, b, keys - {k});
    }
  }

  // An upsert under a gathered key adds one to the sum; any other upsert leaves it alone.
  lemma UpsertCounts(rpc: map<RpcKey, Aggregate>, row: LogRow, device: DeviceKey)
    ensures ActionsTotal(Upsert(rpc, row, RpcKeyFor), device) ==
            ActionsTotal(rpc, device) + if RpcKeyOf(row) in ActionsOf(Upsert(rpc, row, RpcKeyFor), device) then 1 else 0
  {
    var k := RpcKeyOf(row);
    var after := Upsert(rpc, row, RpcKeyFor);
    var keys := ActionsOf(after, device);
    if k in keys {
      SumWithout(after, keys, k);
      SumFrame(rpc, after, keys - {k});
      if k in rpc {
        assert ActionsOf(rpc, device) == keys;
        SumWithout(rpc, keys, k);
      } else {
        assert ActionsOf(rpc, device) == keys - {k};
      }
    } else {
      assert ActionsOf(rpc, device) == keys;
      SumFrame(rpc, after, keys);
    }
  }

  // ---------- each operation ----------

  // Both paths agree with the RPC table on named clients, whichever device key they use.
  ghost predicate CountsNamedClients(key: LogRow -> Option<DeviceKey>) {
    forall row, device: DeviceKey | device.clientId != EMPTY_NAME ::
      key(row) == Some(device) <==> GroupedDevice(row) == Some(device)
  }

  lemma UpsertKeepsRowsBalanced<K>(table: map<K, Aggregate>, row: LogRow, key: LogRow -> Option<K>)
    requires forall k <- table :: RowBalances(table[k])
    ensures forall k <- Upsert(table, row, key) :: RowBalances(Upsert(table, row, key)[k])
  {
  }

  lemma UpsertsKeepDeviceBalanced(rpc: map<RpcKey, Aggregate>, table: map<DeviceKey, Aggregate>, row: LogRow,
                                  key: LogRow -> Option<DeviceKey>)
    requires CountsNamedClients(key)
    requires DevicesBalance(Tables(rpc, table))
    ensures DevicesBalance(Tables(Upsert(rpc, row, RpcKeyFor), Upsert(table, row, key)))
  {
    var after := Tables(Upsert(rpc, row, RpcKeyFor), Upsert(table, row, key));
    forall device: DeviceKey | device.clientId != EMPTY_NAME
      ensures DeviceBalances(after, device)
    {
      assert DeviceBalances(Tables(rpc, table), device);
      UpsertCounts(rpc, row, device);
      assert key(row) == Some(device) <==> GroupedDevice(row) == Some(device);
      assert RpcKeyOf(row) in ActionsOf(after.rpc, device) <==> GroupedDevice(row) == Some(device);
    }
  }

  lemma CompleteKeepsBalance(tables: Tables, row: LogRow)
    requires RowsBalance(tables) && DevicesBalance(tables)
    ensures RowsBalance(Complete(tables, row)) && DevicesBalance(Complete(tables, row))
  {
    UpsertKeepsRowsBalanced(tables.rpc, row, RpcKeyFor);
    UpsertKeepsRowsBalanced(tables.device, row, RecordedDevice);
    assert CountsNamedClients(RecordedDevice);
    UpsertsKeepDeviceBalanced(tables.rpc, tables.device, row, RecordedDevice);
  }

  // The groups of any rows are balanced.
  lemma {:induction false} GroupsBalance(rows: seq<LogRow>)
    ensures RowsBalance(Tables(GroupBy(rows, RpcKeyFor), GroupBy(rows, GroupedDevice)))
    ensures DevicesBalance(Tables(GroupBy(rows, RpcKeyFor), GroupBy(rows, GroupedDevice)))
  {
    if rows == [] {
      assert GroupBy(rows, RpcKeyFor) == map[] && GroupBy(rows, GroupedDevice) == map[];
      assert forall device :: ActionsOf(map[], device) == {};
    } else {
      var before, last := rows[..|rows| - 1], rows[|rows| - 1];
      GroupsBalance(before);
      assert rows == before + [last];
      GroupBySnoc(before, last, RpcKeyFor);
      GroupBySnoc(before, last, GroupedDevice);
      UpsertKeepsRowsBalanced(GroupBy(before, RpcKeyFor), last, RpcKeyFor);
      UpsertKeepsRowsBalanced(GroupBy(before, GroupedDevice), last, GroupedDevice);
      assert CountsNamedClients(GroupedDevice);
      UpsertsKeepDeviceBalanced(GroupBy(before, RpcKeyFor), GroupBy(before, GroupedDevice), last, GroupedDevice);
    }
  }

  // Two pairs of tables that have the same rows on a date balance alike on it.
  lemma BalanceIsPerDay(a: Tables, b: Tables, device: DeviceKey)
    requires forall k: RpcKey | k.date == device.date :: SameAt(a.rpc, b.rpc, k)
    requires SameAt(a.device, b.device, device)
    ensures DeviceBalances(a, device) <==> DeviceBalances(b, device)
  {
    forall k: RpcKey
      ensures k in ActionsOf(a.rpc, device) <==> k in ActionsOf(b.rpc, device)
      ensures k in ActionsOf(a.rpc, device) ==> a.rpc[k].total == b.rpc[k].total
    {
      assert k.date == device.date ==> SameAt(a.rpc, b.rpc, k);
    }
    assert ActionsOf(a.rpc, device) == ActionsOf(b.rpc, device);
    SumFrame(a.rpc, b.rpc, ActionsOf(a.rpc, device));
  }

  // Recent rows replaced by others.
  ghost function Replace(tables: Tables, recent: Tables, cutoffDay: int): Tables {
    Tables(RpcBefore(tables.rpc, cutoffDay) + recent.rpc, DeviceBefore(tables.device, cutoffDay) + recent.device)
  }

  ghost predicate IsRecent(tables: Tables, cutoffDay: int) {
    (forall k <- tables.rpc :: k.date >= cutoffDay) && (forall k <- tables.device :: k.date >= cutoffDay)
  }

  lemma ReplacedRowsBalance(tables: Tables, recent: Tables, cutoffDay: int)
    requires RowsBalance(tables) && RowsBalance(recent)
    ensures RowsBalance(Replace(tables, recent, cutoffDay))
  {
  }

  lemma OldDayIsKept(tables: Tables, recent: Tables, cutoffDay: int, device: DeviceKey)
    requires IsRecent(recent, cutoffDay) && device.date < cutoffDay && DeviceBalances(tables, device)
    ensures DeviceBalances(Replace(tables, recent, cutoffDay), device)
  {
    BalanceIsPerDay(Replace(tables, recent, cutoffDay), tables, device);
  }

  lemma RecentDayIsReplaced(tables: Tables, recent: Tables, cutoffDay: int, device: DeviceKey)
    requires device.date >= cutoffDay && DeviceBalances(recent, device)
    ensures DeviceBalances(Replace(tables, recent, cutoffDay), device)
  {
    BalanceIsPerDay(Replace(tables, recent, cutoffDay), recent, device);
  }

  lemma RebuildKeepsBalance(tables: Tables, log: seq<LogRow>, cutoffDay: int)
    requires RowsBalance(tables) && DevicesBalance(tables)
    ensures RowsBalance(Rebuild(tables, log, cutoffDay)) && DevicesBalance(Rebuild(tables, log, cutoffDay))
  {
    var groups := Tables(GroupBy(Window(log, cutoffDay), RpcKeyFor), GroupBy(Window(log, cutoffDay), GroupedDevice));
    GroupsBalance(Window(log, cutoffDay));
    GroupedKeysAreRecent(log, cutoffDay);
    ReplacedRowsBalance(tables, groups, cutoffDay);
    forall device: DeviceKey | device.clientId != EMPTY_NAME
      ensures DeviceBalances(Replace(tables, groups, cutoffDay), device)
    {
      assert DeviceBalances(tables, device) && DeviceBalances(groups, device);
      if device.date < cutoffDay {
        OldDayIsKept(tables, groups, cutoffDay, device);
      } else {
        RecentDayIsReplaced(tables, groups, cutoffDay, device);
      }
    }
    assert Rebuild(tables, log, cutoffDay) == Replace(tables, groups, cutoffDay);
  }

  lemma CleanupKeepsBalance(tables: Tables, cutoffDay: int)
    requires RowsBalance(tables) && DevicesBalance(tables)
    ensures RowsBalance(Cleanup(tables, cutoffDay)) && DevicesBalance(Cleanup(tables, cutoffDay))
  {
    forall device: DeviceKey | device.clientId != EMPTY_NAME
      ensures DeviceBalances(Cleanup(tables, cutoffDay), device)
    {
      assert DeviceBalances(tables, device);
      if device.date < cutoffDay {
        assert ActionsOf(Cleanup(tables, cutoffDay).rpc, device) == {};
      } else {
        BalanceIsPerDay(Cleanup(tables, cutoffDay), tables, device);
      }
    }
  }

  // ---------- every run ----------

  datatype Operation = Record(row: LogRow) | RebuildRecent(log: seq<LogRow>, cutoffDay: int) | CleanupOld(keepFrom: int)

  ghost function Perform(tables: Tables, operation: Operation): Tables {
    match operation
    case Record(row) => Complete(tables, row)
    case RebuildRecent(log, cutoffDay) => Rebuild(tables, log, cutoffDay)
    case CleanupOld(keepFrom) => Cleanup(tables, keepFrom)
  }

  ghost function PerformAll(tables: Tables, operations: seq<Operation>): Tables {
    if operations == [] then tables else
      Perform(PerformAll(tables, operations[..|operations| - 1]), operations[|operations| - 1])
  }

  // From empty tables, every run of the three operations leaves both tables balanced.
  lemma {:induction false} MetricsAlwaysBalance(operations: seq<Operation>)
    ensures RowsBalance(PerformAll(NO_METRICS, operations))
    ensures DevicesBalance(PerformAll(NO_METRICS, operations))
  {
    if operations == [] {
      assert forall device :: ActionsOf(map[], device) == {};
    } else {
      var before := PerformAll(NO_METRICS, operations[..|operations| - 1]);
      MetricsAlwaysBalance(operations[..|operations| - 1]);
      match operations[|operations| - 1] {
        case Record(row) => CompleteKeepsBalance(before, row);
        case RebuildRecent(log, cutoffDay) => RebuildKeepsBalance(before, log, cutoffDay);
        case CleanupOld(keepFrom) => CleanupKeepsBalance(before, keepFrom);
      }
    }
  }

  lemma PerformSnoc(tables: Tables, operations: seq<Operation>, operation: Operation)
    ensures PerformAll(tables, operations + [operation]) == Perform(PerformAll(tables, operations), operation)
  {
    assert (operations + [operation])[..|operations|] == operations;
  }

  // A job recorded is counted once; a cleanup of its day and a rebuild from a log without it take it out again.
  lemma {:induction false} RecordedThenGone(row: LogRow)
    ensures RpcKeyFor(row).Some?
    ensures var k := RpcKeyFor(row).value;
            var recorded := PerformAll(NO_METRICS, [Record(row)]);
            && recorded.rpc.Keys == {k} && recorded.rpc[k].total == 1
            && PerformAll(NO_METRICS, [Record(row), CleanupOld(k.date + 1)]).rpc == map[]
            && PerformAll(NO_METRICS, [Record(row), CleanupOld(k.date)]).rpc == recorded.rpc
            && PerformAll(NO_METRICS, [Record(row), RebuildRecent([], k.date)]).rpc == map[]
  {
    var k := RpcKeyFor(row).value;
    PerformSnoc(NO_METRICS, [], Record(row));
    assert [] + [Record(row)] == [Record(row)];
    PerformSnoc(NO_METRICS, [Record(row)], CleanupOld(k.date + 1));
    PerformSnoc(NO_METRICS, [Record(row)], CleanupOld(k.date));
    PerformSnoc(NO_METRICS, [Record(row)], RebuildRecent([], k.date));
    assert PerformAll(NO_METRICS, [Record(row)]).rpc == map[k := First(row)];
    assert PerformAll(NO_METRICS, [Record(row), CleanupOld(k.date + 1)]).rpc == map[];
  }
}
