# R2RPC verification

R2RPC relays HTTP calls to devices that hold WebSocket connections, across several API instances that
coordinate only through Redis. This project models the logic of the relay and of what surrounds it, and
proves what every run keeps. Run `dafny verify dfyconfig.toml` (Dafny 4.11) to check all of it.

Where the program is a protocol between processes, the model is a machine: a `State`, a `Step` datatype with
one constructor per Redis command, script, database statement, stretch of code between two awaits or event of
the environment, a predicate `Enabled`, a function `Apply`, and `Run`/`After` for finite runs. Every
interleaving is a run, so a lemma about all runs is a lemma about all interleavings. Where the program is an
object whose methods update its fields, the model is also a class with those fields, whose methods are proved
against the functions the machines are built from.

| part | modules |
|---|---|
| invoke and result protocol | `WaiterTable`, `InvokeProtocol`, `SettlementSafety`, `AnswerSafety`, `DedupSafety`, `SlotSafety`, `MarkSafety`, `TimingSafety`, `ResultFate`, `InvokeProgress`, `ProtocolRuns` |
| session ownership | `SessionProtocol` |
| the services of one instance | `Registry`, `Presence`, `Gateway`, `RpcService` |
| daily metrics | `Metrics`, `MetricsBalance`, `MetricsService` |
| request log workers | `RequestLogWorker`, `RequestLogProcessor` |
| access tokens | `AccessTokens`, `AccessTokenService` |
| roles, permissions and their cache | `Rbac`, `RbacService` |
| cache-aside | `CacheAside`, `RedisCacheAsideService` |
| filter patterns | `LikePattern` |
| JavaScript SDK | `DeviceProtocol`, `R2RpcDevice`, `IsoDate`, `AppAudit`, `AppAuditRecorder` |

What the model takes as given:

- Client ids of connected devices are not empty, request ids and session tokens are fresh, database serial ids
  are new. Names, ids and payloads are integers, because the protocols only compare them; device names are
  numbered in the order JavaScript sorts them.
- A Redis command, a Lua script and a database statement or transaction are atomic. All commands of one
  instance travel over one connection and are executed in the order they were sent.
- One clock in milliseconds serves all processes; the database's `NOW()` is truncated to it.
- The device and the server measure a serialized audit by the same function.

Results that are not what a reader might expect, each with a run or an input that shows it:

- A timeout above 2147483647 ms makes `setTimeout` fire after 1 ms, so the job can be sent after its waiter has
  timed out. Sends are in time exactly for representable timeouts (`TimingSafety.SendsInTimeIffRepresentable`).
- The incremental metrics skip a client that is the empty string, the rebuild does not; both agree exactly when
  no recent client is the empty string (`Metrics.RebuildIsNoOpIff`).
- A worker that stops between inserting the log row and recording the completion leaves the request uncounted,
  because the retry finds the row (`RequestLogWorker.LostCompletion`); the rebuild a worker makes when it starts
  counts it again. A rebuild that falls between insert and recording makes a request count twice until the next
  one (`RequestLogWorker.RebuildInBetweenCountsTwice`). The comments call the counting exactly-once;
  `RequestLogWorker.CountsExactly` says when a request counts zero times, once or twice.
- A re-read after a missed consuming update admits a call uncounted at the very instant the token expires, and
  only then (`AccessTokens.RereadAdmitsOnlyAtExpiry`, `AccessTokens.UncountedAtExpiry`).
- A right device's result can be answered `late` while a wrong device's result holds the dedup key
  (`ProtocolRuns.RightResultMayBeLate`). The protocol is safe, but it does not promise delivery; the three guards
  that turn a right result away are in `ResultFate.RightResultsAreTurnedAwayIff`.
- A step that began in a year of more or fewer than four digits makes a snapshot the server rejects, and so does
  a request, response or error object that the caller changed after handing it over
  (`AppAudit.SnapshotsAreAcceptedIff`, `AppAudit.EmptiedRequestIsRejected`).
- A member who joins a role and is authorized while a permission is being attached to it can be left with a stale
  snapshot (`Rbac.StaleAfterOverlap`); `Rbac.LateWriteKeepsAgreement` says when not.

## Model

| member | source | states |
|---|---|---|
| `AnswerSafety.SettlesOnceByAssignedDevice` | backend/src/infrastructure/ws/connection.registry.ts:172-267 | in every run each request settles at most once, keeps no waiter on any instance after that, and a result that settles it came from the device the job was assigned to |
| `AnswerSafety.AtMostOneOk` | backend/src/infrastructure/ws/connection.registry.ts:213-248 | at most one result per request is ever acknowledged `ok`, and the acknowledged answer is the one that settled the waiter |
| `AnswerSafety.LocalResultSucceeds` | backend/src/infrastructure/ws/connection.registry.ts:234-267 | a result of the expected device that reaches its waiter on the instance it arrived at settles it, is acknowledged `ok`, and is what the invoke then answers |
| `AnswerSafety.SettlementIsTheAnswer` | backend/src/application/rpc/rpc.service.ts:258-312 | an invoke that has waited answers with how its waiter settled: the result, or the timeout |
| `AnswerSafety.FailedDispatchIsAnswered` | backend/src/application/rpc/rpc.service.ts:314-354 | an invoke whose job finds no way answers unavailable, one whose mark or dispatch fails an infrastructure error, and its waiter is gone, cancelled unless it had settled before |
| `AnswerSafety.RoutedToTheHolder` | backend/src/infrastructure/ws/connection.registry.ts:59-75 | a result on the bus is addressed to the instance that runs the invoke; no other instance holds its waiter |
| `AnswerSafety.ReturnsOnce` | backend/src/application/rpc/rpc.service.ts:59-99 | once returned, an invoke has one log entry, each acquired slot released once, no waiter left, a response that tells how the waiter settled, and no later step changes any of it |
| `AnswerSafety.ReturnedStays` | backend/src/application/rpc/rpc.service.ts:59-99 | no step of any kind changes a returned invoke |
| `AnswerSafety.StepKeepsSound` | backend/src/infrastructure/ws/connection.registry.ts:137-267 | every step keeps waiters matched to invokes, results routed to holders, answers from the assigned device, and slot and log accounts |
| `AnswerSafety.RunIsSound` | backend/src/infrastructure/ws/connection.registry.ts:137-267 | all of that holds after every run |
| `InvokeProgress.CanAlwaysReturn` | backend/src/application/rpc/rpc.service.ts:59-99 | from every state a run can reach, each invoke can still return by its own steps and its own timer alone, no fault needed |
| `SettlementSafety.StepKeepsMatch` | backend/src/infrastructure/ws/connection.registry.ts:172-211 | every step keeps a waiter exactly where an unsettled registered invoke runs |
| `SettlementSafety.StepKeepsRouted` | backend/src/infrastructure/ws/connection.registry.ts:191-248 | every step keeps waiter keys, suspended handlers and bus messages pointing at the instance of their invoke |
| `DedupSafety.DedupKeyIsNeverPoisoned` | backend/src/infrastructure/ws/connection.registry.ts:213-248 | in every run, a dedup key with none of its results handled or in transit means a result resolved the waiter |
| `DedupSafety.StepKeepsUnpoisoned` | backend/src/infrastructure/ws/connection.registry.ts:59-75 | mismatches, late results, routed results and expiry all keep the dedup key unpoisoned |
| `SlotSafety.CounterNeverExceedsHolders` | backend/src/infrastructure/ws/presence.service.ts:87-111 | over every interleaving, with resets and deletes anywhere, the in-flight counter is at most the slots held, so a device with none held accepts at any capacity |
| `SlotSafety.CounterIsExactWithoutResets` | backend/src/infrastructure/ws/presence.service.ts:91-111 | without resets the counter is exactly the slots held and stays within the largest capacity used, hence 1024 |
| `SlotSafety.CounterIsMended` | backend/src/infrastructure/ws/presence.service.ts:104-111 | over every interleaving, resets included, the counter is below zero by at most the number of releases that are still to set it to zero, and not at all while there are none |
| `SlotSafety.StepKeepsCount` | backend/src/infrastructure/ws/presence.service.ts:10 | every step keeps both bounds |
| `TimingSafety.JobSentOnlyAfterMark` | backend/src/application/rpc/rpc.service.ts:266-325 | a job is written to a socket only after an earlier step of the run marked its waiter in Redis, for the device the invoke chose, within the job's deadline |
| `TimingSafety.MarkFollowsRegister` | backend/src/application/rpc/rpc.service.ts:278-325 | such a mark is written only by an invoke that had registered its waiter, which is still in its map unless it has settled |
| `MarkSafety.RunIsMarked` | backend/src/infrastructure/ws/connection.registry.ts:191-198 | every dispatching invoke, every job in transit and every job sent goes back to a mark earlier in the run |
| `TimingSafety.SendsInTimeIffRepresentable` | backend/src/infrastructure/ws/connection.registry.ts:137-189 | jobs are never sent after their waiter's timer was due if and only if the timeout is at most 2147483647 ms |
| `TimingSafety.LateSend` | backend/src/infrastructure/ws/connection.registry.ts:172-189 | a run in which a longer timeout sends its job after the timer |
| `TimingSafety.MarkedWaiterHasItsKey` | backend/src/infrastructure/ws/connection.registry.ts:191-198 | with timers at most five seconds late, every live marked waiter has its Redis key, naming its instance |
| `TimingSafety.StepKeepsKeys` | backend/src/infrastructure/ws/connection.registry.ts:191-198 | every punctual step keeps the keys of live marked waiters beyond their due time |
| `ProtocolRuns.RoutedResultSucceeds` | backend/src/infrastructure/ws/connection.registry.ts:153-248 | a run in which an invoke is answered through another instance, with the slot given back |
| `ProtocolRuns.RightResultMayBeLate` | backend/src/infrastructure/ws/connection.registry.ts:224-233 | a run in which the right device's result is received and turned away while the request goes on waiting; `ResultFate` says exactly when that happens |
| `ResultFate.ResultsAreAccounted` | backend/src/infrastructure/ws/connection.registry.ts:213-248 | in every run, of the copies of a result a device sent each is under way, settled its waiter, or was turned away by a guard |
| `ResultFate.RightResultsAreTurnedAwayIff` | backend/src/infrastructure/ws/connection.registry.ts:213-267 | a result of the assigned device is turned away if and only if there is no waiter key at its arrival, the dedup key is taken at its claim, or its waiter is gone when it reaches it |
| `ResultFate.DeliveredUnlessTurnedAway` | backend/src/infrastructure/ws/connection.registry.ts:213-248 | once nothing of it is under way, a result settled its waiter if and only if not every copy was turned away |
| `ResultFate.StepBalances` | backend/src/infrastructure/ws/connection.registry.ts:213-248 | every step keeps that account |
| `SessionProtocol.SessionNamesLatest` | backend/src/infrastructure/ws/connection.registry.ts:85-95 | in every run the session is the token of the connection set last for the device, prefixed with that connection's instance |
| `SessionProtocol.SetLeavesItsToken` | backend/src/infrastructure/ws/connection.registry.ts:85-95 | executing the SET of a connection leaves its token, whatever was there, and changes no other device's session |
| `SessionProtocol.SessionIsPresentIff` | backend/src/infrastructure/ws/connection.registry.ts:85-120 | over every run without expiry a device has a session exactly while the connection set last has not had its delete executed |
| `SessionProtocol.RegistrationTakesTheSocket` | backend/src/infrastructure/ws/connection.registry.ts:85-95 | any instance may register a device at any time; its socket there becomes the new connection's, no other does, and its SET is the next command sent |
| `SessionProtocol.DisconnectingSparesNewerSockets` | backend/src/infrastructure/ws/connection.registry.ts:105-120 | a connection that goes takes its own socket out of the map and not a newer one, and its delete is the next command sent |
| `SessionProtocol.UnregisterSparesOthers` | backend/src/infrastructure/ws/connection.registry.ts:105-120 | unregistering answers true exactly when the session is absent or its own, and removes no other |
| `SessionProtocol.HolderHasTheSocket` | backend/src/infrastructure/ws/connection.registry.ts:33-120 | the named instance holds that connection's socket or a newer one, unless a disconnect there is under way |
| `SessionProtocol.RegistersAndLeaves` | backend/src/infrastructure/ws/connection.registry.ts:85-120 | a run in which a device registers and disconnects, and its session comes and goes |
| `SessionProtocol.StepKeepsConsistent` | backend/src/infrastructure/ws/connection.registry.ts:85-120 | every step keeps commands in order, socket maps newest and sessions true |
| `Registry.ConnectionRegistry.Register` | backend/src/infrastructure/ws/connection.registry.ts:85-95 | the socket carries a token of this instance, replaces any older one, and owns the session |
| `Registry.ConnectionRegistry.Unregister` | backend/src/infrastructure/ws/connection.registry.ts:105-120 | only the same socket leaves the map, only the own token leaves the session, and the answer says whether it was the owner |
| `Registry.ConnectionRegistry.DeliverLocalJob` | backend/src/infrastructure/ws/connection.registry.ts:137-152 | delivers exactly to an open local socket before the deadline and touches no other socket |
| `Registry.ConnectionRegistry.DispatchJob` | backend/src/infrastructure/ws/connection.registry.ts:153-171 | sends locally, publishes to the holder's instance, or refuses, exactly as the session says |
| `Registry.ConnectionRegistry.RegisterWaiter` | backend/src/infrastructure/ws/connection.registry.ts:172-189 | results for the request resolve here exactly when they come from the expected device, results for others are unaffected, and the waiter is due at its timeout if and only if the timer can represent it |
| `Registry.ConnectionRegistry.MarkWaiting` | backend/src/infrastructure/ws/connection.registry.ts:191-198 | the key outlives the waiter by five seconds; with it a result that arrives elsewhere is routed here, and one that arrives here is acknowledged by whether its waiter expects the device |
| `Registry.ConnectionRegistry.CancelWaiter` | backend/src/infrastructure/ws/connection.registry.ts:200-211 | settles by cancel only a waiter that is still there |
| `Registry.ConnectionRegistry.FireTimer` | backend/src/infrastructure/ws/connection.registry.ts:178-188 | a timer takes its waiter away and settles it by timeout |
| `Registry.ConnectionRegistry.ResolveLocalWaiter` | backend/src/infrastructure/ws/connection.registry.ts:251-267 | settles exactly a waiter that is here and expects this device |
| `Registry.ConnectionRegistry.HandleResult` | backend/src/infrastructure/ws/connection.registry.ts:213-248 | the acknowledgement, the waiter, the dedup key and the bus in each of the four outcomes |
| `Registry.ConnectionRegistry.OnRoutedResult` | backend/src/infrastructure/ws/connection.registry.ts:59-75 | a routed result settles its waiter or gives the dedup key back |
| `Registry.UninterruptedResult` | backend/src/infrastructure/ws/connection.registry.ts:213-248 | the machine's four steps of one result, uninterrupted, end as HandleResult says |
| `Presence.ClampMaxInFlight` | backend/src/infrastructure/ws/presence.service.ts:52-68 | the capacity is always within 1..1024, and is the default unless a whole number of at least one was reported |
| `Presence.ClampHonours` | backend/src/infrastructure/ws/presence.service.ts:52-68 | whole numbers are honoured up to 1024, zero falls back to 16 |
| `Presence.ClampRoundTrip` | backend/src/infrastructure/ws/presence.service.ts:71-84 | a clamped capacity survives being written to Redis and read back |
| `Presence.PresenceService.Online` | backend/src/infrastructure/ws/presence.service.ts:22-32 | online mark and membership in exactly the given projects |
| `Presence.PresenceService.Offline` | backend/src/infrastructure/ws/presence.service.ts:42-49 | removes mark, capacity, counter and exactly the given memberships |
| `Presence.PresenceService.TryAcquireSlot` | backend/src/infrastructure/ws/presence.service.ts:91-102 | takes a slot exactly when one is free and never changes another count |
| `Presence.PresenceService.ReleaseSlot` | backend/src/infrastructure/ws/presence.service.ts:104-111 | gives one slot back and never leaves a negative count |
| `Presence.PresenceService.ListOnline` | backend/src/infrastructure/ws/presence.service.ts:142-155 | lists exactly the online members, once each, and drops the others from the set |
| `Presence.PresenceService.AcquireFirstFree` | backend/src/infrastructure/ws/presence.service.ts:131-139 | scans each name once and takes one slot of the first free one in cyclic order, or finds all full |
| `Presence.PresenceService.PickOnlineAcquire` | backend/src/infrastructure/ws/presence.service.ts:120-140 | no device online, all of them at the capacity they reported, or one slot taken of the first in cyclic order that is below it; the outcome depends on the online members, the cursor, the reported capacities and the counts only |
| `Presence.AscendingIsUnique` | backend/src/infrastructure/ws/presence.service.ts:127 | a set has one ascending listing, whatever order it was enumerated in |
| `Presence.FirstFreeIsUnique` | backend/src/infrastructure/ws/presence.service.ts:131-139 | the cyclic scan has one possible outcome |
| `Presence.FreeDevicesAreTakenInTurn` | backend/src/infrastructure/ws/presence.service.ts:128-139 | when the device at the cursor has a slot free it is the pick |
| `Presence.PicksAreFair` | backend/src/infrastructure/ws/presence.service.ts:128-139 | k cursor values of n names reach each index floor(k/n) to ceil(k/n) times |
| `Presence.PickMany` | backend/src/infrastructure/ws/presence.service.ts:120-140 | with fixed membership and room on each device for its own share, k picks find no device full and raise each counter by floor(k/n) to ceil(k/n) |
| `Gateway.WsGateway.RegisterConnection` | backend/src/infrastructure/ws/ws.gateway.ts:153-182 | when all five calls succeed the device is served by this socket, shown online, with its capacity, no slot taken and its keys alive for thirty seconds; when any of them throws the socket is closed and no counter is touched |
| `Gateway.WsGateway.HandleDisconnect` | backend/src/infrastructure/ws/ws.gateway.ts:226-248 | only the session's owner takes presence down |
| `Gateway.WsGateway.HandleHeartbeat` | backend/src/infrastructure/ws/ws.gateway.ts:296-307 | a beat extends the presence and session keys that have not lapsed and writes the capacity again, and touches no other device |
| `Gateway.WsGateway.Sweep` | backend/src/infrastructure/ws/presence.service.ts:22-40 | Redis drops exactly the keys whose time is over |
| `Gateway.BeatsKeepServing` | backend/src/infrastructure/ws/ws.gateway.ts:296-307 | a device that beats before each lapse stays served, however keys expire |
| `Gateway.ReconnectThenOldCloses` | backend/src/infrastructure/ws/ws.gateway.ts:153-248 | the late close of a replaced connection leaves the device served by the new one |
| `Gateway.ConnectThenDisconnect` | backend/src/infrastructure/ws/ws.gateway.ts:153-248 | a connection that comes and goes leaves no trace of the device, wherever its registration failed |
| `RpcService.RpcService.Succeed` | backend/src/application/rpc/rpc.service.ts:356-393 | the verdict is the device's own flag or else whether its status is ok, the payload is the device's, status and code are its own or their defaults, and it is logged once |
| `RpcService.RpcService.SelectDevice` | backend/src/application/rpc/rpc.service.ts:149-256 | a named device is taken exactly when it is online with fewer calls in flight than it reported, 16 without a report; unnamed, exactly when some online member of the project has room; otherwise one refusal is answered and logged, with the status and code that belong to the infrastructure, an offline device, no device or no free slot |
| `RpcService.RpcService.DispatchAndAwaitResult` | backend/src/application/rpc/rpc.service.ts:258-354 | one logged answer, and no waiter left: error, unavailable, timeout or the device's own verdict, payload, status and code, each exactly in its case; the waiter key, the bus and the sockets afterwards |
| `RpcService.RpcService.DispatchJob` | backend/src/application/rpc/rpc.service.ts:314-354 | passes exactly when the mark and dispatch succeed and the session leads to another instance or an open local socket in time, otherwise cancels the waiter and logs one answer; the waiter key with its expiry and the job with its deadline, on the bus or on the socket |
| `RpcService.RpcService.ServeWith` | backend/src/application/rpc/rpc.service.ts:85-99 | the waiter is marked for the timeout in seconds and five more, the slot is given back whatever happened, and a payload is the device's |
| `RpcService.RpcService.Serve` | backend/src/application/rpc/rpc.service.ts:75-99 | from the project on: the refusal that belongs to the cause, or an answer of the chosen device, with every count as before |
| `RpcService.RpcService.Invoke` | backend/src/application/rpc/rpc.service.ts:59-99 | on every path one response, one log entry, no waiter left and every count as before; the refusal for each cause; a payload only from an enabled project's online device, with that device's verdict, status and code; the waiter key and the job it leaves, by the timeout asked for or twenty seconds |
| `LikePattern.ContainsPatternMeansContains` | backend/src/common/db/like-pattern.ts:5-7 | the pattern is well formed and matches a string if and only if the text occurs in it, for all strings and any character folding |
| `LikePattern.ContainsPatternIsWellFormed` | backend/src/common/db/filter-conditions.ts:12-17 | the database never refuses the pattern for a trailing escape |
| `LikePattern.EscapedMatchesPrefix` | backend/src/common/db/like-pattern.ts:5-7 | the escaped text followed by a percent sign matches exactly the strings that begin with the text |
| `LikePattern.EscapeIsInjective` | backend/src/common/db/like-pattern.ts:5-7 | two texts never share a pattern |
| `LikePattern.BareWildcardsMatchAnything` | backend/src/common/db/like-pattern.ts:1-7 | unescaped, an underscore matches any one character and a percent sign anything; escaped, they match themselves |
| `Metrics.RebuildIsNoOpIff` | backend/src/application/metrics/metrics.service.ts:172-298 | the tables kept by increments over any jobs are what the rebuild computes from the rows those jobs wrote, if and only if no recent client is the empty string |
| `Metrics.UpsertAllIsGroupBy` | backend/src/application/metrics/metrics.service.ts:180-207 | folding the upsert over rows adds exactly the GROUP BY of those rows |
| `Metrics.UpsertAllAt` | backend/src/application/metrics/metrics.service.ts:180-207 | the row under a key is the aggregate of exactly the rows with that key |
| `Metrics.SummaryMeans` | backend/src/application/metrics/metrics.service.ts:270-298 | the aggregate of a group counts its rows, and its maximum latency is reached by one row and exceeded by none |
| `Metrics.RowsCountTogetherIff` | backend/src/application/metrics/metrics.service.ts:172-207 | two jobs share an RPC row if and only if day, project, action and client name agree, and a device row if and only if day, project and client do; which clients have one |
| `Metrics.CompletionOrderIsIrrelevant` | backend/src/application/metrics/metrics.service.ts:172-247 | completions recorded in any order give the same tables |
| `Metrics.RebuildIsIdempotent` | backend/src/application/metrics/metrics.service.ts:250-298 | rebuilding twice from one log is rebuilding once, whatever the tables held |
| `Metrics.RebuiltRpcRow` | backend/src/application/metrics/metrics.service.ts:270-284 | after a rebuild a recent RPC row is there exactly when the log has rows with its key, and is their aggregate |
| `Metrics.RebuiltDeviceRow` | backend/src/application/metrics/metrics.service.ts:285-297 | the same for device rows of clients that are not null |
| `Metrics.RebuildOfRpcFold` | backend/src/application/metrics/metrics.service.ts:250-284 | a rebuild of any fold is the fold of the older jobs and of the recent log rows |
| `Metrics.RebuildOfDeviceFold` | backend/src/application/metrics/metrics.service.ts:250-297 | the same for devices, when recent clients are named |
| `Metrics.CompleteAfterRebuild` | backend/src/application/metrics/metrics.service.ts:172-298 | recording a recent completion after a rebuild is rebuilding with its row in the log |
| `Metrics.WindowIsWholeDays` | backend/src/application/metrics/metrics.service.ts:250-259 | deleting by date and selecting by instant cover the same days |
| `MetricsBalance.MetricsAlwaysBalance` | backend/src/application/metrics/metrics.service.ts:172-317 | after every run of completions, rebuilds from any log and cleanups, total is success plus failed plus timeout, and for every date, project and named client the device total is the sum of the RPC totals over the actions |
| `MetricsBalance.RecordedThenGone` | backend/src/application/metrics/metrics.service.ts:172-317 | a job recorded is counted once; a cleanup past its day and a rebuild from a log without it take it out again, a cleanup of earlier days does not |
| `MetricsBalance.CompleteKeepsBalance` | backend/src/application/metrics/metrics.service.ts:172-247 | one completion keeps both balances |
| `MetricsBalance.RebuildKeepsBalance` | backend/src/application/metrics/metrics.service.ts:250-298 | a rebuild from any log keeps both balances |
| `MetricsBalance.CleanupKeepsBalance` | backend/src/application/metrics/metrics.service.ts:301-317 | a cleanup keeps both balances |
| `MetricsService.MetricsService.RecordCompletion` | backend/src/application/metrics/metrics.service.ts:172-247 | the job's row and device row go up by one in the total and in the column of its status, the latency is added to the sum, the maximum is the larger of the old one and the latency, and no other row changes |
| `MetricsService.MetricsService.RebuildRecent` | backend/src/application/metrics/metrics.service.ts:250-298 | every recent row is the aggregate of exactly the log rows with its key, its maximum reached by one of them and exceeded by none, or gone when there are none; older rows are untouched |
| `MetricsService.MetricsService.CleanupOldMetrics` | backend/src/application/metrics/metrics.service.ts:301-317 | exactly the rows before the cutoff day go, and their numbers are returned |
| `RequestLogWorker.CountedAtMostOncePerRetention` | backend/src/application/request-logs/request-log.processor.ts:33-45 | over every schedule of attempts, crashes, retries, dead-letter and fallback writes, removals and start-up rebuilds, a request adds to its monthly count at most once while its row has not been removed and once more per removal; it counts in its day's totals at most that often, and once more for each attempt the last rebuild caught between insert and recording |
| `RequestLogWorker.CountsExactly` | backend/src/application/request-logs/worker.bootstrap.ts:19-25 | how often a request whose row was never removed counts: zero times exactly when it was lost or written elsewhere and no rebuild has covered its row, twice exactly when the last rebuild found its row before the attempt recorded it, once otherwise |
| `RequestLogWorker.RebuildRepairs` | backend/src/application/request-logs/worker.bootstrap.ts:19-25 | right after a rebuild every recent request counts exactly as often as its row is there |
| `RequestLogWorker.MissingIffSilentOrLost` | backend/src/application/request-logs/request-log.processor.ts:33-45 | with no rebuild over its day, a request is missing from the totals exactly when its row came from elsewhere or its inserting attempt stopped before recording |
| `RequestLogWorker.RunIsAccounted` | backend/src/application/request-logs/request-logs.service.ts:65-90 | every row ever inserted is accounted for: present or removed, recorded, pending, lost or silent; what the metrics count follows from the last rebuild and the recordings since; and the tables are the fold of what they count |
| `RequestLogWorker.StepKeepsAccounts` | backend/src/application/request-logs/request-log.processor.ts:33-63 | every command of every attempt, every removal and every rebuild keeps the accounts |
| `RequestLogWorker.RowsBeginByTheirWriter` | backend/src/application/request-logs/request-logs.service.ts:65-90 | a new row is pending, failed or unavailable by who wrote it; a row that is there stays as it is |
| `RequestLogWorker.StatesAreMarked` | backend/src/application/request-logs/request-logs.service.ts:92-97 | states change at any time, of existing rows only, and leave metrics and accounts alone; an attempt that indexed its payload leaves its row indexed |
| `RequestLogWorker.SettledMetricsAreTheRebuiltOnes` | backend/src/application/metrics/metrics.service.ts:250-298 | when every request counts as often as its row is there, however that came about, a rebuild from the rows in any order changes no RPC row, and no device row if and only if recent clients are named |
| `RequestLogWorker.LostCompletion` | backend/src/application/request-logs/request-log.processor.ts:33-45 | a run in which the retry indexes the row and records nothing |
| `RequestLogWorker.RebuildBringsItBack` | backend/src/application/request-logs/worker.bootstrap.ts:19-25 | a run in which the next rebuild counts the lost request once |
| `RequestLogWorker.RebuildInBetweenCountsTwice` | backend/src/application/request-logs/worker.bootstrap.ts:19-25 | a run in which a rebuild between insert and recording makes the request count twice |
| `RequestLogProcessor.RequestLogs.WriteSpine` | backend/src/application/request-logs/request-logs.service.ts:65-90 | inserts if absent and says whether it did |
| `RequestLogProcessor.RequestLogs.MarkState` | backend/src/application/request-logs/request-logs.service.ts:92-97 | changes the state of an existing row only |
| `RequestLogProcessor.RequestLogProcessor.Process` | backend/src/application/request-logs/request-log.processor.ts:33-45 | the row, the metrics and the monthly count after one attempt, whether the row was new and whether indexing failed |
| `RequestLogProcessor.RequestLogProcessor.OnFailed` | backend/src/application/request-logs/request-log.processor.ts:47-63 | only the last failed attempt marks the row and hands the job over |
| `RequestLogProcessor.UninterruptedAttempt` | backend/src/application/request-logs/request-log.processor.ts:33-45 | an uninterrupted attempt of the machine leaves what Process leaves |
| `RequestLogProcessor.ProcessedOnce` | backend/src/application/request-logs/request-log.processor.ts:33-45 | consuming a queue with repeated jobs records the first job of each request |
| `RequestLogProcessor.QueueEqualsRebuild` | backend/src/application/metrics/metrics.service.ts:172-298 | and leaves the tables a rebuild computes, if and only if recent clients are named |
| `AccessTokens.QuotaIsExact` | backend/src/application/access-token/access-token.service.ts:274-307 | without expiry, reset and policy edit, over every interleaving with revoke and delete, the admitted calls are exactly the growth of the counter and fit into what the maximum left |
| `AccessTokens.CountedCallsFitTheQuota` | backend/src/application/access-token/access-token.service.ts:274-307 | with any expiry, the counted calls are the growth of the counter and fit the quota; an unlimited token's counter never moves |
| `AccessTokens.RereadAdmitsOnlyAtExpiry` | backend/src/application/access-token/access-token.service.ts:447-475 | a re-read after a miss admits the call if and only if the token is otherwise usable and expires at this instant |
| `AccessTokens.AdmittedAreCountedIff` | backend/src/application/access-token/access-token.service.ts:274-307 | over all runs, resets and policy edits included, every admitted call was counted if and only if no re-read met the token consumable again or at the instant of its expiry |
| `AccessTokens.MissedStaysBlocked` | backend/src/application/access-token/access-token.service.ts:274-307 | once a call has missed, the token is not consumable again without a reset or a policy edit |
| `AccessTokens.UncountedAtExpiry` | backend/src/application/access-token/access-token.service.ts:447-475 | a run with an uncounted call at the instant of expiry |
| `AccessTokens.UncountedAfterReset` | backend/src/application/access-token/access-token.service.ts:334-357 | a run with an uncounted call after a reset between miss and re-read |
| `AccessTokens.StepKeepsMeter` | backend/src/application/access-token/access-token.service.ts:274-381 | every step keeps the counter metered and missed calls blocked |
| `AccessTokens.MonthlyCountIsTrue` | backend/src/application/access-token/access-token.service.ts:320-329 | the count shown for the current month is the number of uses recorded in it since the last reset, over every run and however months pass |
| `AccessTokens.RevokedIsFinal` | backend/src/application/access-token/access-token.service.ts:225-242 | once a token is revoked no call of it is let through in any continuation, calls already under way included |
| `AccessTokens.DeletedIsFinal` | backend/src/application/access-token/access-token.service.ts:364-381 | the same once it is deleted |
| `AccessTokens.LiftedLimitsAdmit` | backend/src/application/access-token/access-token.service.ts:412-429 | lifting both limits admits a waiting call, however often the token was used |
| `AccessTokens.TimeExpiresTokens` | backend/src/application/access-token/access-token.service.ts:447-475 | when time passes the expiry, a waiting call misses and is refused as expired |
| `AccessTokens.UsesShow` | backend/src/application/access-token/access-token.service.ts:320-357 | a use shows in the month at once, a reset clears both counters, a new month starts at zero |
| `AccessTokenService.AccessTokenService.ConsumeInvocation` | backend/src/application/access-token/access-token.service.ts:274-307 | a token that is there and not deleted, active, unexpired and unlimited or below its maximum is admitted, and its counter goes up by one if it is limited; invalid, stopped, expired and exhausted each in its own case; admitted beyond that only at the instant of expiry |
| `AccessTokenService.AccessTokenService.UpdatePolicy` | backend/src/application/access-token/access-token.service.ts:412-429 | a live token's limits become the ones given, those left out stay, and its usage and status are untouched |
| `AccessTokenService.AccessTokenService.RecordMonthlyUsage` | backend/src/application/access-token/access-token.service.ts:320-329 | the current month's count of a live token goes up by one |
| `AccessTokenService.AccessTokenService.ResetUsage` | backend/src/application/access-token/access-token.service.ts:334-357 | clears both counters of a live token and fails for any other |
| `AccessTokenService.AccessTokenService.Revoke` | backend/src/application/access-token/access-token.service.ts:225-242 | the token is refused at any time from then on |
| `AccessTokenService.AccessTokenService.Delete` | backend/src/application/access-token/access-token.service.ts:364-381 | the token is invalid at any time from then on |
| `Rbac.AuthorizationIsCurrent` | backend/src/application/auth/jwt.strategy.ts:36-62 | after every run of mutations, authorizations and expiries, what an authorization answers, cached or not, is what the tables say at that moment |
| `Rbac.SnapshotMeans` | backend/src/application/rbac/rbac.service.ts:74-94 | a tuple is in a fresh snapshot if and only if a membership of the user and a grant of its role lead to it through a role and a permission that are not deleted; refused exactly when the account is absent, deleted or disabled |
| `Rbac.MutationReshapes` | backend/src/application/rbac/rbac.service.ts:121-392 | what each mutation does to the tuples every user holds: which are gained, which are lost, and that all others stay |
| `Rbac.DeletedRoleGrantsNothing` | backend/src/application/rbac/rbac.service.ts:214-226 | a tuple held only through a deleted role is gone at the next authorization, cached or not |
| `Rbac.DeletedPermissionGrantsNothing` | backend/src/application/rbac/rbac.service.ts:281-295 | the same for a deleted permission |
| `Rbac.OnlyTheNamedAreAffected` | backend/src/application/rbac/rbac.service.ts:214-392 | a mutation changes the snapshot of nobody outside its own invalidation list; an account it creates had none |
| `Rbac.RoleMutationsSpareOthers` | backend/src/application/rbac/rbac.service.ts:121-226 | creating, renaming or deleting a role changes the join of its members only |
| `Rbac.PermissionMutationsSpareOthers` | backend/src/application/rbac/rbac.service.ts:232-295 | creating or deleting a permission changes the join of its holders only |
| `Rbac.LinkMutationsSpareOthers` | backend/src/application/rbac/rbac.service.ts:299-392 | attaching, detaching, assigning and unassigning change the join of the listed users only |
| `Rbac.SameJoinsSamePermissions` | backend/src/application/rbac/rbac.service.ts:74-94 | users whose joins are the same have the same permissions |
| `Rbac.MutationKeepsAgreement` | backend/src/infrastructure/redis/user-authorization-cache.service.ts:48-57 | a mutation and its invalidation keep every cached snapshot equal to the fresh one |
| `Rbac.StepKeepsAgreement` | backend/src/infrastructure/redis/user-authorization-cache.service.ts:34-57 | so do authorizations and expiries |
| `Rbac.WriteKeepsConsistent` | backend/src/application/rbac/rbac.service.ts:121-392 | link rows always name existing rows |
| `Rbac.AssignmentMatters` | backend/src/application/rbac/rbac.service.ts:348-369 | an assigned role's live permissions reach an enabled account |
| `Rbac.ExpiryHealsStaleness` | backend/src/infrastructure/redis/user-authorization-cache.service.ts:34-57 | whatever was cached, after an expiry the next authorization answers from the tables |
| `Rbac.RemovedStaysOut` | backend/src/application/users/users.service.ts:151-167 | a removed account is refused from then on, whatever else happens and whatever was cached |
| `Rbac.LateWriteKeepsAgreement` | backend/src/application/rbac/rbac.service.ts:214-333 | when the affected users are listed some time before the write, the cache stays in agreement if every affected user with a snapshot by then was listed |
| `Rbac.LateWriteAgreesIff` | backend/src/application/rbac/rbac.service.ts:214-333 | and only if, when the write changes each affected user's snapshot |
| `Rbac.StaleAfterOverlap` | backend/src/application/rbac/rbac.service.ts:299-314 | a member assigned and authorized between the listing and the write is left with a stale snapshot |
| `RbacService.IncludePermissions` | backend/src/application/rbac/rbac.service.ts:453-470 | each listed role gets its own permissions in the records' order |
| `RbacService.PermissionsAreTheRolesOwn` | backend/src/application/rbac/rbac.service.ts:453-470 | a role is given exactly the records that carry its id |
| `RbacService.RbacService.CreateRole` | backend/src/application/rbac/rbac.service.ts:121-131 | fails exactly when a live role has the name; every snapshot stays current |
| `RbacService.RbacService.UpdateRole` | backend/src/application/rbac/rbac.service.ts:192-212 | renames a live role or fails with the right error; every snapshot stays current |
| `RbacService.RbacService.CreatePermission` | backend/src/application/rbac/rbac.service.ts:232-246 | fails exactly when a live permission has the tuple; every snapshot stays current |
| `RbacService.RbacService.DeleteRole` | backend/src/application/rbac/rbac.service.ts:214-226 | deletes a live role: exactly the tuples that need it are lost, its members' snapshots are dropped, every cached snapshot is the current one |
| `RbacService.RbacService.DeletePermission` | backend/src/application/rbac/rbac.service.ts:281-295 | deletes a live permission: exactly the tuples that need it are lost, its holders' snapshots are dropped, every cached snapshot is the current one |
| `RbacService.RbacService.AttachPermission` | backend/src/application/rbac/rbac.service.ts:299-314 | links live rows once or fails with the right error; the role's members gain the tuple, nobody else anything, and every cached snapshot is the current one |
| `RbacService.RbacService.DetachPermission` | backend/src/application/rbac/rbac.service.ts:316-333 | succeeds exactly on an existing link, which is gone afterwards with what was held through it; every cached snapshot is the current one |
| `RbacService.RbacService.AssignRole` | backend/src/application/rbac/rbac.service.ts:348-369 | under the administrator policy, links once or fails with the right error; the user gains the role's tuples, nobody else anything, and every cached snapshot is the current one |
| `RbacService.RbacService.UnassignRole` | backend/src/application/rbac/rbac.service.ts:371-392 | under the administrator policy, succeeds exactly on an existing link, which is gone afterwards with what was held through it; every cached snapshot is the current one |
| `RbacService.RbacService.AssertCanMutateUser` | backend/src/application/users/administrator-account-policy.service.ts:14-43 | a live account may be changed, the root account only by itself |
| `RbacService.RbacService.RemoveUser` | backend/src/application/users/users.service.ts:151-167 | the account is refused at its next authorization |
| `RbacService.RbacService.CreateUser` | backend/src/application/users/users.service.ts:90-109 | fails exactly when a live account has the name; the new account is enabled, holds nothing and affects nobody |
| `RbacService.RbacService.SetEnabled` | backend/src/application/users/users.service.ts:176-200 | the next authorization succeeds exactly when the account was enabled |
| `RbacService.RbacService.Authorize` | backend/src/application/auth/jwt.strategy.ts:36-62 | succeeds exactly for an account that is there, not deleted and enabled, with exactly the tuples the tables lead to through rows that are not deleted, cached or not; caches nothing on refusal |
| `CacheAside.ReturnedValueIsRecent` | backend/src/infrastructure/redis/redis-cache-aside.service.ts:57-103 | over every interleaving of readers and writers, failures and garbage, a returned value was the stored one at a moment no earlier than the time to live plus the load delay before |
| `CacheAside.OrderlyReadsAreExact` | backend/src/infrastructure/redis/redis-cache-aside.service.ts:57-103 | when operations do not overlap and deletions succeed, a returned value is the stored one |
| `CacheAside.OldValueComesBack` | backend/src/infrastructure/redis/redis-cache-aside.service.ts:57-103 | a run that serves a deleted value until one millisecond before that bound |
| `CacheAside.RunIsRecent` | backend/src/infrastructure/redis/redis-cache-aside.service.ts:15-74 | every cached entry and every value a reader holds is as recent as its expiry says |
| `RedisCacheAsideService.RedisCacheAsideService.Get` | backend/src/infrastructure/redis/redis-cache-aside.service.ts:15-36 | returns exactly a live good entry; only a malformed entry of this key is deleted |
| `RedisCacheAsideService.RedisCacheAsideService.GetOrLoad` | backend/src/infrastructure/redis/redis-cache-aside.service.ts:57-74 | with a coherent cache returns the stored value whatever fails, throws exactly when there is none, stays coherent, and leaves a loaded value in the cache for its time to live unless the write fails |
| `RedisCacheAsideService.UninterruptedRead` | backend/src/infrastructure/redis/redis-cache-aside.service.ts:57-74 | the machine's steps of one read, uninterrupted, return and leave what GetOrLoad does |
| `RedisCacheAsideService.GarbageIsPassedOver` | backend/src/infrastructure/redis/redis-cache-aside.service.ts:15-36 | garbage may appear at any time; a read that finds it deletes it or passes over it, loads whatever became of the deletion, and throws if the loader does |
| `RedisCacheAsideService.RedisCacheAsideService.WriteAndInvalidate` | backend/src/infrastructure/redis/redis-cache-aside.service.ts:92-103 | the cache stays coherent if and only if no deletion failed over a different good value |
| `RedisCacheAsideService.UninterruptedWrite` | backend/src/infrastructure/redis/redis-cache-aside.service.ts:92-103 | the machine's steps of one write, uninterrupted, leave what WriteAndInvalidate does; an entry whose deletion failed is served while it lives |
| `DeviceProtocol.RunningMeansConnectedOrRetrying` | sdk/javascript/src/device.ts:123-400 | in every run the device runs exactly when it has one current socket or one pending reconnect, never both, and is online exactly while one heartbeat is live |
| `DeviceProtocol.OldSocketsChangeNothing` | sdk/javascript/src/device.ts:170-359 | messages and closes of any socket change nothing unless it is the last one opened, the device runs and no reconnect is pending |
| `DeviceProtocol.CurrentSocketsMatter` | sdk/javascript/src/device.ts:349-359 | that one is the current socket, and its close takes it away |
| `DeviceProtocol.AuthenticationFailureEndsRetrying` | sdk/javascript/src/device.ts:362-371 | after close code 4001 nothing opens a socket or arms a timer until the next start |
| `DeviceProtocol.StoppedStaysStopped` | sdk/javascript/src/device.ts:132-138 | the same after a stop |
| `DeviceProtocol.OtherClosesRetry` | sdk/javascript/src/device.ts:349-389 | any other close schedules exactly one reconnect with the next delay |
| `DeviceProtocol.RetryDelaysGrow` | sdk/javascript/src/device.ts:374-389 | between welcomes the delays are non-decreasing, strictly growing until they reach the maximum, and never above it |
| `DeviceProtocol.RetryDelaysDouble` | sdk/javascript/src/device.ts:374-389 | the first delay after a welcome is the initial one and each later one twice the one before, both up to the maximum |
| `DeviceProtocol.LosesItsFirstSocket` | sdk/javascript/src/device.ts:123-400 | a run in which a device loses its first socket, waits, opens a second one and is welcomed there |
| `DeviceProtocol.EventKeepsOrder` | sdk/javascript/src/device.ts:123-400 | every event keeps sockets, timers and state in order |
| `R2RpcDevice.R2RpcDevice.Start` | sdk/javascript/src/device.ts:123-130 | a running device is left alone, any other opens one socket |
| `R2RpcDevice.R2RpcDevice.Stop` | sdk/javascript/src/device.ts:132-138 | no timer and no socket is left |
| `R2RpcDevice.R2RpcDevice.HandleMessage` | sdk/javascript/src/device.ts:170-188 | a welcome for this client on the current socket puts the device online with one heartbeat and starts the delays over; nothing else changes the state, and a welcome for another client asks to close the socket |
| `R2RpcDevice.R2RpcDevice.HandleClose` | sdk/javascript/src/device.ts:349-372 | the current socket's close arms one reconnect, or stops for code 4001 or a stopped device; any other close is ignored |
| `R2RpcDevice.R2RpcDevice.ScheduleReconnect` | sdk/javascript/src/device.ts:374-389 | one timeout with the capped exponential delay |
| `R2RpcDevice.R2RpcDevice.FireReconnect` | sdk/javascript/src/device.ts:385-388 | the pending timeout is spent and a new socket is current |
| `IsoDate.TextPassesIff` | backend/src/common/app-audit/app-audit.schema.ts:46 | the schema's date-time grammar admits the text of a date if and only if its year has four digits |
| `IsoDate.DatesPassIff` | backend/src/common/app-audit/app-audit.schema.ts:46 | any text passes the grammar of dates if and only if it has digits and dashes in their places and names a day on the calendar |
| `IsoDate.TimesPassIff` | backend/src/common/app-audit/app-audit.schema.ts:46 | a time with or without seconds passes if and only if it exists |
| `IsoDate.OffsetsPassIff` | backend/src/common/app-audit/app-audit.schema.ts:46 | an offset passes if and only if it has a sign and is less than a day |
| `IsoDate.ReadBackIsTheDate` | sdk/javascript/src/app-audit.ts:124 | the text of a date has the standard's places, and reading it back gives the date, for years of four and of six digits |
| `AppAudit.SnapshotsAreAcceptedIff` | sdk/javascript/src/app-audit.ts:80-148 | after any calls, thrown or not, and whatever the caller did to the objects it handed over, a snapshot passes the server's size limit, schema and consecutive numbering if and only if every step began in a year of four digits and the objects held at that moment would pass; objects left alone do |
| `AppAudit.EmptiedRequestIsRejected` | sdk/javascript/src/app-audit.ts:118-127 | a request emptied after it was handed over makes a snapshot the server rejects |
| `AppAudit.PerformKeepsGood` | sdk/javascript/src/app-audit.ts:92-131 | every call keeps what the recorder itself decides within the server's checks, and objects that pass passing |
| `AppAudit.CheckedRequestPasses` | backend/src/common/app-audit/app-audit.schema.ts:15-22 | the recorder admits exactly the requests the schema admits, but for a blank method |
| `AppAudit.CheckedCompletionPasses` | backend/src/common/app-audit/app-audit.schema.ts:24-61 | the recorder admits exactly the completions the schema admits |
| `AppAudit.TitleIsRefusedIff` | sdk/javascript/src/app-audit.ts:83-90 | a title is refused if and only if it is blank or the schema rejects it |
| `AppAudit.MetadataIsRefusedIff` | sdk/javascript/src/app-audit.ts:92-104 | with an audit that passes, a metadata entry is refused if and only if its key is blank or the schema would reject the audit with it |
| `AppAudit.StepIsRefusedIff` | sdk/javascript/src/app-audit.ts:106-131 | the same for a step in a year of four digits, its name and method |
| `AppAudit.CompletionIsRefusedIff` | sdk/javascript/src/app-audit.ts:46-78 | a completion of a step that passes is refused if and only if it is a second one or the schema would reject the completed step |
| `AppAudit.SnapshotIsRefusedIff` | sdk/javascript/src/app-audit.ts:133-148 | a snapshot is refused exactly when its text is too large for the server |
| `AppAudit.BlankTitleIsRefusedThoughAccepted` | sdk/javascript/src/app-audit.ts:83-90 | the recorder refuses a blank title the server would accept |
| `AppAuditRecorder.AppAuditStepHandle.Complete` | sdk/javascript/src/app-audit.ts:46-78 | completes once and only with values the schema admits; the duration is the time since the start or zero, what is given is stored, what is not stays; a refused completion changes nothing |
| `AppAuditRecorder.AppAuditStepHandle.Succeed` | sdk/javascript/src/app-audit.ts:38-40 | success keeps the error the step had, none if it had none |
| `AppAuditRecorder.AppAuditStepHandle.Fail` | sdk/javascript/src/app-audit.ts:42-44 | failure leaves its error in the step |
| `AppAuditRecorder.AppAuditRecorder.AddMetadata` | sdk/javascript/src/app-audit.ts:92-104 | one entry more, or the refusal for a blank key, more than 100 characters or 64 entries; the objects hold what the value model holds |
| `AppAuditRecorder.AppAuditRecorder.StartStep` | sdk/javascript/src/app-audit.ts:106-131 | admits exactly a name that is not blank, lengths and a request the schema admits, fewer than 128 steps and a real date; the new step behind its new handle field by field; the objects hold what the value model holds |
| `AppAuditRecorder.AppAuditRecorder.CloneSteps` | sdk/javascript/src/app-audit.ts:133-139 | a snapshot's steps are new objects with the values of now |
| `AppAuditRecorder.AppAuditRecorder.Snapshot` | sdk/javascript/src/app-audit.ts:133-148 | version 1 with the recorder's title and metadata and new step objects with the values of now, unless the text takes more than 512 KiB |
| `AppAuditRecorder.CompleteStep` | sdk/javascript/src/app-audit.ts:46-78 | completing through a handle changes its own step in the recorder and nothing else |
| `AppAuditRecorder.AlterStep` | sdk/javascript/src/app-audit.ts:70-77 | changing the objects in a step changes that step in the recorder and nothing else |
| `AppAuditRecorder.SnapshotOutlivesCalls` | sdk/javascript/src/app-audit.ts:133-148 | a snapshot keeps its title, metadata and steps through any sequence of later completions, with or without errors, and changes to handed-over objects |

## Left out

- Delivery: the protocol may answer a right result `late`; when it does is proved, that it does not happen is not promised.
- Redis and PostgreSQL failures on the invoke path other than the faults RpcService.Invoke takes as inputs, lost bus messages, and process crashes there.
- Presence under an overlapping disconnect and reconnect: the offline cleanup runs after the compare-and-delete as separate steps and may take a new connection's presence down; `Gateway` runs each call whole, and ownership over interleavings is claimed for session keys and socket maps only.
- RpcService.Invoke: runs one invoke whole, against its environment; interleavings are the subject of the machine in `InvokeProtocol`, whose answers carry the reason of a failure but not the HTTP codes.
- Presence.PresenceService.PickOnlineAcquire: is one uninterrupted call; in the machine each of its acquire attempts is a step of its own.
- InvokeProtocol: a dispatch reads the session key and publishes in one step; the answer it read is arbitrary, so nothing is gained by splitting it.
- CacheAside: is about one key; keys do not interact. The loader is one read, while the authorization loader makes two.
- Rbac: in the runs mutations are atomic and cache deletions succeed, as the services assume; a mutation whose list of users is older than its write has its own lemmas, and what failed deletions cost is the subject of `CacheAside`.
- AccessTokens.QuotaIsExact: excludes resets and policy edits, for which a run shows an uncounted call and `AccessTokens.AdmittedAreCountedIff` gives the exact condition; the project links of a token and its authentication cache are not modelled.
- Metrics: latencies are integers, as jobs carry them, not null; the overview, weekly and trend queries only read.
- RequestLogWorker: a rebuild is one step, as its transaction is; the daily cleanup of old aggregates is in `MetricsBalance` only. Retention removes rows one at a time and any row at any time; the queue's own bookkeeping, the search index and the choice of rows to trim are left out. The monthly count of a deleted token is skipped by the token's own update, which is in `AccessTokens`.
- Claims that a rebuild restores true history: retention trims the rows it reads.
- LikePattern: an ILIKE folding that changes the length of a text is not modelled.
- AppAudit: fields the types do not know, changes to metadata values, values that cannot be cloned, and the bytes of the JSON text are left out; the size is any function both ends share.
- DeviceProtocol: callbacks that call back into the device, a socket factory that throws, job handling and its timeouts, and the contents of messages other than the welcome are left out.
- Revocation of device tokens across instances, the fragmented-frame guard, the read-timeout ping, authentication of the handshake, Nest wiring, decorators, DTOs, configuration, logging, pagination, password hashing, the Kotlin SDK and the frontend: input and output, library calls or easy members.
- Integers are unbounded, as the counts stay far below 2^53; `setTimeout`'s 31-bit limit is modelled where it matters. Retry delays are reals; the powers of two they use are exact in floating point.
