/** The service that keeps the two metrics tables in place. */
module MetricsService {
  import opened Metrics
  import opened Options

  // A whole number of days before an instant is that many calendar days before its date.
  lemma DaysAgoIsACalendarDay(now: int, days: int)
    ensures DayOf(now - (days - 1) * MILLISECONDS_PER_DAY) == CutoffDay(now, days)
  {
  }

  lemma DeleteCounts<K>(table: map<K, Aggregate>, gone: set<K>)
    requires gone <= table.Keys
    ensures |gone| == |table| - |table - gone|
  {
    assert (table - gone).Keys == table.Keys - gone;
  }

  lemma DeletingOldIsCleanup(rpc: map<RpcKey, Aggregate>, device: map<DeviceKey, Aggregate>, cutoffDay: int)
    ensures rpc - (set k | k in rpc && k.date < cutoffDay) == Cleanup(Tables(rpc, device), cutoffDay).rpc
    ensures device - (set k | k in device && k.date < cutoffDay) == Cleanup(Tables(rpc, device), cutoffDay).device
  {
  }

  // One more request in an aggregate, column by column; the first one makes it.
  ghost predicate Counts(before: Option<Aggregate>, row: LogRow, after: Aggregate) {
    match before
    case None =>
      && after.total == 1 && after.totalLatency == row.latency && after.maxLatency == row.latency
      && after.success == (if row.status == Succeeded then 1 else 0)
      && after.timeout == (if row.status == TimedOut then 1 else 0)
      && after.failed == (if row.status == Failed then 1 else 0)
    case Some(have) =>
      && after.total == have.total + 1 && after.totalLatency == have.totalLatency + row.latency
      && after.success == have.success + (if row.status == Succeeded then 1 else 0)
      && after.timeout == have.timeout + (if row.status == TimedOut then 1 else 0)
      && after.failed == have.failed + (if row.status == Failed then 1 else 0)
      && after.maxLatency >= row.latency && after.maxLatency >= have.maxLatency
      && (after.maxLatency == row.latency || after.maxLatency == have.maxLatency)
  }

  class MetricsService {
    var rpc: map<RpcKey, Aggregate>
    var device: map<DeviceKey, Aggregate>

    constructor ()
      ensures Contents() == NO_METRICS
    {
      rpc := map[];
      device := map[];
    }

    ghost function Contents(): Tables
      reads this
    {
      Tables(rpc, device)
    }

    method RecordCompletion(row: LogRow)
      modifies this
      ensures Contents() == Complete(old(Contents()), row)
      // The row of the job's day, project, action and client.
      ensures var k := RpcKey(row.createdAt / 86_400_000, row.project, row.action, NameOf(row.clientId));
              && rpc.Keys == old(rpc).Keys + {k}
              && (forall other <- old(rpc) :: other != k ==> rpc[other] == old(rpc)[other])
              && Counts(if k in old(rpc) then Some(old(rpc)[k]) else None, row, rpc[k])
      // The row of its device, unless it has no name.
      ensures NameOf(row.clientId) == 0 ==> device == old(device)
      ensures NameOf(row.clientId) != 0 ==>
                var k := DeviceKey(row.createdAt / 86_400_000, row.clientId.value, row.project);
                && device.Keys == old(device).Keys + {k}
                && (forall other <- old(device) :: other != k ==> device[other] == old(device)[other])
                && Counts(if k in old(device) then Some(old(device)[k]) else None, row, device[k])
    {
      var (success, failed, timeout) := Classify(row.status);
      var first := Aggregate(1, success, failed, timeout, row.latency, row.latency);
      var k := RpcKeyOf(row);
      if k in rpc {
        var have := rpc[k];
        rpc := rpc[k := Aggregate(have.total + 1, have.success + success, have.failed + failed, have.timeout + timeout,
                                  have.totalLatency + row.latency, Max(have.maxLatency, row.latency))];
      } else {
        rpc := rpc[k := first];
      }
      if row.clientId.Some? && row.clientId.value != EMPTY_NAME {
        var d := DeviceKeyOf(row, row.clientId.value);
        if d in device {
          var have := device[d];
          device := device[d := Aggregate(have.total + 1, have.success + success, have.failed + failed,
                                          have.timeout + timeout, have.totalLatency + row.latency,
                                          Max(have.maxLatency, row.latency))];
        } else {
          device := device[d := first];
        }
      }
    }

    // Every recent row becomes the summary of the log rows with its key, or goes when there are none; older
    // rows stay.
    method RebuildRecent(log: seq<LogRow>, now: int, days: int)
      modifies this
      ensures Contents() == Rebuild(old(Contents()), log, CutoffDay(now, days))
      ensures forall k: RpcKey :: k.date >= CutoffDay(now, days) ==>
                (k in rpc <==> Group(log, RpcKeyFor, k) != []) &&
                (k in rpc ==> rpc[k] == Summary(Group(log, RpcKeyFor, k)))
      ensures forall k: DeviceKey :: k.date >= CutoffDay(now, days) ==>
                (k in device <==> Group(log, GroupedDevice, k) != []) &&
                (k in device ==> device[k] == Summary(Group(log, GroupedDevice, k)))
      ensures forall k <- rpc :: k.date >= CutoffDay(now, days) ==>
                && (forall row <- log :: RpcKeyFor(row) == Some(k) ==> row.latency <= rpc[k].maxLatency)
                && (exists row <- log :: RpcKeyFor(row) == Some(k) && row.latency == rpc[k].maxLatency)
      ensures forall k: RpcKey :: k.date < CutoffDay(now, days) ==> SameAt(rpc, old(rpc), k)
      ensures forall k: DeviceKey :: k.date < CutoffDay(now, days) ==> SameAt(device, old(device), k)
    {
      var cutoffDay := CutoffDay(now, days);
      ghost var before := Contents();
      rpc := RpcBefore(rpc, cutoffDay);
      device := DeviceBefore(device, cutoffDay);
      rpc := rpc + GroupBy(Window(log, cutoffDay), RpcKeyFor);
      device := device + GroupBy(Window(log, cutoffDay), GroupedDevice);
      assert Contents() == Rebuild(before, log, cutoffDay);
      forall k: RpcKey | k.date >= cutoffDay
        ensures k in rpc <==> Group(log, RpcKeyFor, k) != []
        ensures k in rpc ==> rpc[k] == Summary(Group(log, RpcKeyFor, k))
      {
        RebuiltRpcRow(before, log, cutoffDay, k);
      }
      forall k <- rpc | k.date >= cutoffDay
        ensures forall row <- log :: RpcKeyFor(row) == Some(k) ==> row.latency <= rpc[k].maxLatency
        ensures exists row <- log :: RpcKeyFor(row) == Some(k) && row.latency == rpc[k].maxLatency
      {
        RebuiltRpcRow(before, log, cutoffDay, k);
        GroupMembers(log, RpcKeyFor, k);
        SummaryMeans(Group(log, RpcKeyFor, k));
      }
      forall k: DeviceKey | k.date >= cutoffDay
        ensures k in device <==> Group(log, GroupedDevice, k) != []
        ensures k in device ==> device[k] == Summary(Group(log, GroupedDevice, k))
      {
        RebuiltDeviceRow(before, log, cutoffDay, k);
      }
      RebuildSparesOldRows(before, log, cutoffDay);
    }

    method CleanupOldMetrics(now: int, retentionDays: int) returns (rpcDeleted: nat, deviceDeleted: nat)
      modifies this
      ensures Contents() == Cleanup(old(Contents()), CutoffDay(now, retentionDays))
      ensures rpcDeleted == |old(rpc)| - |rpc| && deviceDeleted == |old(device)| - |device|
    {
      var cutoffDay := DayOf(now - (retentionDays - 1) * MILLISECONDS_PER_DAY);
      DaysAgoIsACalendarDay(now, retentionDays);
      var oldRpc := set k | k in rpc && k.date < cutoffDay;
      var oldDevice := set k | k in device && k.date < cutoffDay;
      DeletingOldIsCleanup(rpc, device, cutoffDay);
      DeleteCounts(rpc, oldRpc);
      DeleteCounts(device, oldDevice);
      rpc := rpc - oldRpc;
      device := device - oldDevice;
      rpcDeleted, deviceDeleted := |oldRpc|, |oldDevice|;
    }
  }
}
