# Ingestion service model

A Dafny model of an at-least-once ingestion service. Meter readings and heartbeats arrive on Kafka; a decoder
accepts or rejects them; readings go to an immutable history in TimescaleDB and from there to a newest-wins
projection in Redis; what cannot be processed is quarantined in a failure table. A query service lists houses page by
page and serves energy series and summaries computed from the history.

`dafny verify dfyconfig.toml` checks the whole project.

## How the model is laid out

| file | what it models |
|---|---|
| `Worker.dfy` | one partition worker as a state machine over its atomic steps, and its invariant |
| `Partition.dfy` | the worker's own loop over a batch, as imperative code that takes only protocol steps |
| `Delivery.dfy` | any number of processes and workers against one broker, with crashes, reassignment and lost, late or repeated commits |
| `Retry.dfy` | the bounded retry of a record and the classification of its error |
| `Failures.dfy` | the failure table: upsert, and replay or discard under a row lock, with concurrent operators |
| `MeterHandler.dfy` | the meter-record workflow and the record-key check |
| `EndToEnd.dfy` | delivery composed with the separate store writes of each attempt, operator replays and rebuilds |
| `Operations.dfy` | that service together with the failure table and the operators who replay or discard its rows |
| `Telemetry.dfy`, `History.dfy` | the history transaction, its replay check, and whole runs of inserts |
| `LuaNumber.dfy`, `Projection.dfy` | the Redis compare-and-set, with Lua's numbers as IEEE doubles |
| `Rebuild.dfy`, `Agreement.dfy` | rebuilding the projection, and when it equals what live ingestion left |
| `Heartbeat.dfy`, `Redelivery.dfy` | the heartbeat transaction over houses, registered and discovered assets, and redelivered runs of it |
| `HouseStatus.dfy` | grid membership and the expiring liveness key in Redis, live and restored |
| `Decoder.dfy`, `Identity.dfy`, `Provisioning.dfy` | decoding, the identity grammar, the Redis keys, house registration |
| `Ordering.dfy`, `Paging.dfy` | keyset pages, page tokens (base64url, section 5 of RFC 4648), the listing as a client sees it |
| `Energy.dfy` | energy over a range, flow attribution, buckets, averages, for one order of the rows |
| `EnergyOrders.dfy` | the same with every statement in its own order of tied rows, and exactly when that order matters |

Where the source changes state in place the model is a class or a method with loops, proved against a function of
the state; where it computes, the model is a function. Concurrency is a transition system: every action is one
atomic step of the code, and the main theorems are about every finite run from the initial state.

## Contracts taken for code outside the repository

- Kafka: the log of a partition never changes; a commit covers everything through the last record passed to it; a new worker
  starts at the committed position (0 when there is none); a partition that keeps its worker keeps its fetch position.
  The broker may apply a commit request late, repeatedly or never. An offset here is a position in the partition's log.
- The retry library runs the operation at least once and at most MaxTries times, and may stop earlier.
- PostgreSQL: a transaction commits as a whole or leaves no trace. Redis runs a script atomically. JSON encoding and decoding
  of projections is the identity.

## Where code and documentation disagree

The model follows the code.

- README.md:120 of the repository says that under `required` Redis is always current when a record is acknowledged.
  A record whose Redis retries are spent is quarantined and committed like any other failure
  (internal/ingestion/worker.go:267-272); `EndToEnd.RequiredCommitsWithoutCache` reaches such a state, and
  `EndToEnd.CommittedIsKept` shows that only records with a failure row can be in it.
- internal/store/postgres/rebuild_reader.go:50-52 says the page query orders readings as the compare-and-set does. It orders
  by microsecond, the script by millisecond: `Agreement.RebuiltKeyExact` gives the exact condition under which they agree
  and `Agreement.RebuildCanFallBehind` a pair on which they do not.
- internal/store/postgres/telemetry_writer.go:47 promises that an identical replay is recognised. Storage rows carry no
  seq, so it is recognised exactly when no other reading stored assets at that time and meter: `History.ReplayOverRun`,
  with the failing case in `History.RedeliveryRefused`.
- internal/rebuild/rebuild.go:49-51 says a rebuild can never regress state. For latest readings, which go through the
  compare-and-set, that is proved (`Projection.KeysNeverGoBack`, `EndToEnd.WriteKeeps`). House status is overwritten
  unconditionally: `HouseStatus.RestoreMovesStatusBack` is the run that puts an earlier time in place of a later one and
  `HouseStatus.RestoreShortensLife` the one that lets the same time expire sooner. `HouseStatus.RestoreKeepsExact` is the exact
  condition under which no reader, at the write or at any later time, is worse off.
- internal/store/redis/heartbeat.go:18-21 says a restored status lives only for what is left of the liveness window. The rebuild
  takes its time once, so a later write overshoots: `HouseStatus.RestoredLifetimeExact` says exactly when it does not.
- internal/store/postgres/energy_reader.go:39 orders by time alone, and two readings of a meter may share a time. Which of them
  counts is then up to each statement. `EnergyOrders.TieOrderExact` and `EnergyOrders.SummaryOrderExact` show that the result is
  determined exactly when tied readings have the same powers. `EnergyOrders.SplitExactOnlyIfTiesAgree` and
  `EnergyOrders.AddsUpOnlyIfTiesAgree` say the same of the two promises: ranges split exactly, and series add up to their summary,
  in every order if and only if ties agree. `EnergyOrders.TiesBreakSplit` and `EnergyOrders.TiesBreakSeries` give a first half
  that exceeds the whole and a series that exceeds its summary.

## Model

| member | source | states |
|---|---|---|
| Worker.StepKeeps | internal/ingestion/worker.go:141-361 | Every step of a worker, and every signal that can fall between two steps, keeps the invariant: the queue is the contiguous rest of what was offered, the records begun are a prefix, everything before the current one has finished, commits sent never pass what finished, and a batch left early implies a stop, a fatal exit or an exited worker |
| Worker.StepEvolves | internal/ingestion/worker.go:178-215 | No step takes back what was handled or sent; after leaving a batch early a worker begins nothing more, and after being abandoned no commit of its passes the abandoned check (the call itself is a later step) |
| Worker.LeftIsOver | internal/ingestion/worker.go:193-211 | A record can be begun or finished only while no batch has been left early, and only at the position everything before which has finished |
| Worker.CancelOrderMatters | internal/ingestion/worker.go:395-400 | With the retry context cancelled before `quit` is closed, a worker can give up record 0 and commit past it: the order in stop is necessary |
| Partition.PartitionWorker.ProcessBatch | internal/ingestion/worker.go:178-215 | Every execution is a run of the protocol, whatever of stop, abandonment or a cancelled parent context it observes between two steps; it commits at most once, then exactly the finished prefix, does commit it unless abandoned, and leaves part of a batch undone only when told to stop or with a fatal exit; every record it finishes was accepted by its deciding attempt or stands in the failure table at that attempt's stage, it writes no other rows, and a fatal exit is on a record that failed and could not be quarantined |
| Partition.PartitionWorker.HandleRecord | internal/ingestion/worker.go:246-273 | A record whose deciding attempt succeeds finishes and writes no row; otherwise it is interrupted only with the retry context done, unfinished exactly when it has no handler or could not be recorded, and finished with a row at the stage of its deciding error; nothing else of the worker's past changes |
| Partition.PartitionWorker.RunAttempts | internal/ingestion/worker.go:249-256 | The retry loop ends at the one deciding attempt: within the budget, every earlier one failed transiently with its wait run out, and it succeeds, fails for good, is the last allowed or has its wait cut short; its outcome is what is returned |
| Partition.PartitionWorker.GiveUp | internal/ingestion/worker.go:261-273 | After a final error the record is interrupted exactly when the retry context is done, and finished exactly when it is not, a handler exists and the failure was recorded, at the stage its error is classified as |
| Partition.PartitionWorker.RecordFailure | internal/ingestion/worker.go:284-307 | The record finishes exactly when the recorder answered; the row stands if it answered or the write landed unanswered |
| Partition.PartitionWorker.LeaveRecord | internal/ingestion/worker.go:198-208 | An unfinished record ends the batch where it stands, fatally exactly when the worker's context was not cancelled |
| Partition.PartitionWorker.Commit | internal/ingestion/worker.go:309-336 | Nothing is sent for an empty prefix or by a worker abandoned before the check; a worker that is never abandoned does send |
| Partition.PartitionWorker.Observe | internal/ingestion/worker.go:385-410 | Between two steps the worker sees every signal raised so far: the cancelled parent context, and take, quit, retry, context and abandon in their order; nothing of its work changes |
| Partition.RunIsOk | internal/ingestion/worker.go:120-157 | The worker invariant holds at every point of every execution of the loop code |
| Delivery.ActionKeeps | internal/ingestion/consumer.go:224-302 | Assigning, working, closing, crashing and applying a late commit all keep the system invariant: finished prefixes, pending requests and committed positions cover only finished records, slots equal holders, one owner per process and partition |
| Delivery.CommittedIsFinished | internal/ingestion/worker.go:168-215 | In every reachable state every record below a partition's committed position was accepted by its handler or has a failure row at its coordinates |
| Delivery.HandledIsPrefix | internal/ingestion/worker.go:141-213 | In every reachable state a worker's records are a prefix of what it was given, in order and once each; however the run continues, one that left a batch early handles nothing more and passes no position beyond it to a commit, and no commit of an abandoned one passes the check any more; one that passed it before may still reach the broker |
| Delivery.HandlersBounded | internal/ingestion/worker.go:178-187 | In every reachable state a process runs at most as many handlers as it has slots, abandoned workers included, and no slot is taken once nobody holds one |
| Delivery.RunKeeps | internal/ingestion/consumer.go:260-342 | Over every run the invariant holds, no record's fate is forgotten and no worker takes anything back; a worker exits only when stopped or with its process failing |
| Delivery.SentIsFinished | internal/ingestion/worker.go:206-213 | The position a worker commits is exactly the end of what has finished |
| Delivery.RowsExact | internal/ingestion/worker.go:284-307 | A failure row is left by an answered write, and by an unanswered one exactly when it landed, at the coordinates and stage of the record being handled |
| Retry.WithDefaults | internal/ingestion/retry.go:52-69 | Every policy becomes one with 1 to 10 tries and positive, ordered intervals; exactly the safe policies are left as they are; 3 tries, 100 ms and 2 s stand in for what is not positive, more than 10 tries become 10, and what is in range is kept |
| Retry.PermanentExact | internal/ingestion/retry.go:116-134 | An error is permanent exactly when its chain wraps one of the seven sentinels |
| Retry.RetryHandle | internal/ingestion/retry.go:85-113 | Between 1 and 10 attempts; all but the last failed without a permanent cause and waited, and the last is a success, a permanent error, the end of the budget or a cut-short wait |
| Retry.FailureStage | internal/ingestion/retry.go:136-159 | Panic wins over every other cause, validation over the rest; the grid stage is exactly for unknown grids, unprovisioned grids and house identities without either; the Redis stage exactly for Redis text without a permanent cause; a transient error is only ever a store stage |
| Failures.FailureStore.RecordFailure | internal/store/postgres/failures.go:11-59 | Repeating a failure updates its one row to the new payload, reason and attempts and leaves its resolution alone; a new one is unresolved; the attempts are those given, at least one; no other row changes |
| Failures.FailureStore.WithLockedFailure | internal/store/postgres/failure_ops.go:103-144 | Only an existing, unresolved and unlocked row is touched: accepted makes it Replayed and dropped Discarded, both by that operator; rejected leaves it open with the new reason and one attempt more; left open it stays as it was; a failing statement leaves every row as it was |
| Failures.RunKeeps | internal/store/postgres/failure_ops.go:76-144 | Over every interleaving of workers and operators: one row per coordinates and stage, none lost, a resolved row keeps resolution and resolver, no two operators hold one row, and "replayed" only where a handler accepted that very payload |
| Failures.EveryRunKeeps | internal/store/postgres/failures.go:11-23 | The same invariant in every state reachable from the empty table |
| Failures.RecordShows | internal/store/postgres/failures.go:11-59 | In every state of the protocol a recorded failure has its one row with the latest payload, reason and attempts, its resolution untouched |
| Failures.FinishStands | internal/store/postgres/failure_ops.go:113-144 | What a finished session decided stands in every later state: an accepted replay is Replayed and a dropped row Discarded, by that operator; a rejected replay leaves its row open with the reason and one attempt more |
| Failures.LockedRunIsSequential | internal/store/postgres/failure_ops.go:113-142 | The undisturbed call is the run lock, handle, finish |
| MeterHandler.MeterHandler.HandleRecord | internal/ingestion/meter_handler.go:65-102 | The answer, the stores and the order: a malformed record is a validation error and one of an unadmitted grid an unknown-grid error, both before anything is written; otherwise history is exactly what the insert leaves, or untouched on a fault; a conflict is an integrity error with the cache untouched; after a durable write the cache is the compare-and-set's unless the call never arrived; success exactly when all that passed and Redis answered or the policy does without, and then the reading is durable and, under `required`, the latest entry at least as new |
| MeterHandler.MeterHandler.UpdateLatest | internal/ingestion/options.go:86-98 | A failed cache call is an error with Redis text under `required` and is absorbed and counted under async-repair; the cache is the compare-and-set's unless the call never arrived |
| MeterHandler.KeyAcceptedExact | internal/ingestion/options.go:35-47 | An enforced, present key passes exactly when it is the house id or the source topic of that grid and house with some kind |
| MeterHandler.SourceTopicText | internal/ingestion/options.go:18-24 | The source topic as spelled, on an example |
| EndToEnd.ActionKeeps | internal/ingestion/meter_handler.go:65-102 | Every delivery step, store write, lost reply, operator replay, rebuild read or write and cache loss keeps: attempts match their records, successes are durable, and Redis holds nothing history does not |
| EndToEnd.AnswersCount | internal/ingestion/meter_handler.go:83-98 | A handler goes on only from an answered write, while the write takes effect either way |
| EndToEnd.CommittedIsKept | internal/ingestion/worker.go:246-307 | In every run every committed meter record has a failure row, or its exact reading is in history and, under `required` and without Redis loss, the script finds the latest entry at least as new; async-repair gives up only the Redis half |
| EndToEnd.CommittedIsCurrent | internal/ingestion/options.go:90-98 | In the true order: under `required`, a committed record without a failure row and within 2^53 is not newer than its house's latest entry by (ms, seq) |
| EndToEnd.CacheNeverAhead | internal/ingestion/meter_handler.go:83-98 | In every reachable state each latest entry's identity, millisecond, seq and powers stand in one durable row, whoever wrote it |
| EndToEnd.RequiredCommitsWithoutCache | internal/ingestion/worker.go:267-272 | For every setup under `required`, a state is reachable where a durable record is committed, quarantined at the Redis stage and absent from Redis |
| EndToEnd.WriteKeeps | internal/rebuild/rebuild.go:112-124 | Any writer that passes a projection of a durable row through the compare-and-set keeps everything and moves no entry back |
| Operations.MoveKeeps | cmd/failure-replay/main.go:112-143 | Every step of the service, of an operator and of a replayed handler keeps: the rows workers count on are the rows of the table, a replay marks only what was stored and projected in full, and what a handler accepted stays durable |
| Operations.CommittedIsAccounted | internal/store/postgres/failure_ops.go:103-144 | In every run of workers and operators every committed meter record is kept as the policy says, or has a row that is unresolved or discarded, or one marked replayed with its exact reading in history and, unless Redis lost its data, an entry at least as new |
| Operations.ReplayedIsRestored | cmd/failure-replay/main.go:138-143 | In every run a meter row marked replayed carries the record's own payload, and its reading is durable and projected, also where the service itself runs with async-repair |
| Domain.TimesRoundDown | internal/store/redis/latest.go:77-100 | Stored times round down to the microsecond and projected ones to the millisecond |
| Domain.TruncationKeepsMillis | internal/store/postgres/telemetry_writer.go:54 | Truncating to microseconds keeps the millisecond and is idempotent |
| Telemetry.SortedAssets | internal/store/postgres/telemetry_writer.go:167-179 | A permutation of the input, sorted by id, distinct when the input is |
| Telemetry.ReadingsEqual | internal/store/postgres/telemetry_writer.go:143-165 | True exactly when every scalar agrees and the asset lists are permutations of each other |
| Telemetry.TelemetryStore.InsertMeterReading | internal/store/postgres/telemetry_writer.go:52-93 | One transaction does what the specification says to both tables, or fails and leaves both as they were |
| Telemetry.TelemetryStore.VerifyReplay | internal/store/postgres/telemetry_writer.go:97-139 | A replay is accepted exactly when the stored reading, with all assets of its tick, is the same reading; nothing is written |
| History.AddAssetsExact | internal/store/postgres/telemetry_writer.go:72-84 | The asset inserts succeed exactly when ids are distinct and none is stored at the tick; then exactly these rows are added |
| History.InsertExtends | internal/store/postgres/telemetry_writer.go:43-93 | An insert never changes or removes a row; a refusal or replay adds none; a new row is keyed by meter, seq and the time cut to the microsecond and says column by column what the reading says |
| History.AcceptedInHistory | internal/store/postgres/telemetry_writer.go:43-51 | An accepted reading, new or replayed, stands in history column by column, and so does each of its assets |
| History.ReplayExact | internal/store/postgres/telemetry_writer.go:95-139 | Repeating a stored reading is a no-op reported as a replay exactly when all assets at its tick are its own, else a conflict |
| History.RunExtends | internal/store/postgres/telemetry_writer.go:43-51 | Over any run of inserts stored rows never change or disappear |
| History.ReplayOverRun | internal/store/postgres/telemetry_writer.go:43-51 | After any run, repeating any reading it inserted is a no-op, recognised exactly when no other reading inserted at its (time, meter) carried assets |
| History.RedeliveryRefused | internal/store/postgres/telemetry_writer.go:37-41 | Any two readings of one meter and time with different seqs and disjoint assets are both inserted, after which an identical redelivery of the first is a conflict exactly when the second has assets |
| LuaNumber.ToNumberMonotone | internal/store/redis/scripts/set_latest_if_newer.lua:2-12 | Rounding integers to doubles keeps their order |
| LuaNumber.NearestDouble | internal/store/redis/scripts/set_latest_if_newer.lua:2-12 | An integer becomes the nearest multiple of the spacing of doubles around it, ties to the even one |
| Projection.ProjectionOf | internal/store/redis/latest.go:77-100 | The loop builds the projection with every asset in order |
| Projection.LatestStore.SetLatestIfNewer | internal/store/redis/scripts/set_latest_if_newer.lua:6-24 | One run of the script is the compare-and-set, with undecodable stored text treated as absent |
| Projection.ScriptOrderExact | internal/store/redis/scripts/set_latest_if_newer.lua:11-19 | The script orders two readings as (ms, seq) does, except exactly when two different seqs at one millisecond are one double |
| Projection.ScriptOrderTrue | internal/store/redis/scripts/set_latest_if_newer.lua:11-19 | Within 2^53 the script's order is the true order |
| Projection.HugeSeqRefused | internal/store/redis/scripts/set_latest_if_newer.lua:17-19 | At seq 2^53 the next reading is newer and refused |
| Projection.KeysNeverGoBack | internal/store/redis/latest.go:38-55 | No sequence of compare-and-sets, from any cache, moves a key back or loses it |
| Projection.LatestIsNewest | internal/store/redis/latest.go:38-55 | In any order and with any repetition a key holds the body of an applied projection that no applied one is newer than, as the script orders them |
| Projection.AtLeastTrue | internal/store/redis/scripts/set_latest_if_newer.lua:14-19 | For a projection within 2^53 an entry the script finds at least as new is at least as new by (ms, seq) |
| Projection.LatestIsTrulyNewest | internal/store/redis/latest.go:38-55 | In the true order no applied projection within 2^53 is newer than what its key holds |
| Projection.OrderIrrelevant | internal/store/redis/latest.go:38-55 | Without ties, the same projections leave the same cache however they are ordered or repeated |
| Rebuild.LatestReadingsPage | internal/store/postgres/rebuild_reader.go:53-116 | Each row is its house's newest reading as the first statement finds it, with the assets of its tick as a later statement of its own finds them; the tables may change between the statements |
| Rebuild.RestoreHouses | internal/rebuild/rebuild.go:69-100 | Over a registry that may grow from page to page, live heartbeats between any two writes and stores that may fail: the loop ends, visits no house twice, its own writes are exactly those of its visits in order, and its counters count them also when it fails; without a failure it visits every house registered from the start |
| Rebuild.LastWriteShows | internal/store/redis/scripts/update_heartbeat.lua:8-9 | However restores and live heartbeats interleave, a house's status is what the last write to it said |
| Rebuild.MembersExact | internal/store/redis/heartbeat.go:22-31 | After any interleaving a house is a member of a grid exactly when it was before or some write made it one |
| Rebuild.VisitJoins | internal/rebuild/rebuild.go:83-86 | A visited house is a member of its own grid, and of another only if it was before or reported from there meanwhile |
| Rebuild.VisitExact | internal/rebuild/rebuild.go:87-97 | A visited house that sent no heartbeat meanwhile has the restored status exactly while its window is open, otherwise the status it had |
| Rebuild.UnvisitedKept | internal/rebuild/rebuild.go:78-98 | A house neither visited nor heard from keeps its memberships and its status |
| Rebuild.WalkStep | internal/store/postgres/rebuild_reader.go:19-48 | A page moves a keyset walk over a growing table on, in order and without missing a row present from the start; an empty page ends it with none missed |
| Rebuild.RestorePage | internal/rebuild/rebuild.go:105-125 | One page is read and applied, live writes in between, up to the first write that fails; the picks, the log and the counter account for exactly that, and the cursor is its last house |
| Rebuild.RestoreLatest | internal/rebuild/rebuild.go:102-126 | Over a history that may grow between statements, live writes to the cache and stores that may fail: the loop ends, takes no house twice, its own writes are exactly the newest readings it took in order, the counters are exact also when it fails; without a failure it takes every house with a reading in the window from the start |
| Rebuild.EveryPickHolds | internal/rebuild/rebuild.go:49-51 | Whatever live ingestion writes meanwhile, every house taken ends with an entry at least as new as the reading taken for it |
| Rebuild.Since | internal/rebuild/rebuild.go:53-55 | The window reaches back the positive lookback asked for, otherwise an hour |
| Rebuild.PageLimit | internal/rebuild/rebuild.go:56-58 | Pages are as large as asked for, otherwise 500 |
| Rebuild.Run | internal/rebuild/rebuild.go:52-132 | The whole command amid live heartbeats and readings: both loops in order, the second only after the first succeeded, every counter on success and on failure, and no write of its own on a dry run |
| Agreement.RebuiltKeyExact | internal/store/postgres/rebuild_reader.go:50-60 | The rebuilt entry has the live entry's millisecond and is never ahead of it; it is as new exactly when no reading of the house in that millisecond has a larger seq |
| Agreement.WholeMillisNotOvertaken | internal/store/postgres/rebuild_reader.go:53-60 | With whole-millisecond times and seqs within 2^53 nothing overtakes the newest reading |
| Agreement.RebuiltMatchesLive | internal/rebuild/rebuild.go:112-124 | With whole-millisecond times the rebuilt entry equals the live one in every scalar, and in its assets up to order exactly when no other seq stored assets at the tick |
| Agreement.RebuildRestoresLive | internal/rebuild/rebuild.go:102-126 | After Redis loss a rebuild leaves every house of the window at the entry live ingestion of its whole history leaves, in the same sense |
| Agreement.RebuildAfterLoss | internal/rebuild/rebuild.go:52-132 | The command run on an empty store over a history that stands still, when no store fails, does that for every house of the window with whole-millisecond times; heartbeats may arrive meanwhile |
| Agreement.RebuildCanFallBehind | internal/store/postgres/rebuild_reader.go:53-60 | From the history of any two readings of a house in one millisecond, the later microsecond with the smaller seq, the rebuild picks the later while live ingestion leaves the other, which is newer |
| Agreement.CrossedPairs | internal/store/postgres/rebuild_reader.go:53-60 | Such pairs exist at every millisecond |
| Heartbeat.HeartbeatStore.ApplyHeartbeat | internal/store/postgres/heartbeat_writer.go:94-290 | The prefetched-map loop, with others committing observations and registrations in between, does exactly what one asset after another on the tables with those observations would do, leaves the new registrations untouched, or changes nothing; a house row that matches when read again is a retry |
| Heartbeat.HeartbeatStore.ExplainHouseMismatch | internal/store/postgres/heartbeat_writer.go:119-143 | A heartbeat whose house row did not match is refused for good exactly when the row still does not match when read again; otherwise it is retried |
| Heartbeat.AllAssets | internal/store/postgres/heartbeat_writer.go:162-211 | Refused exactly when a reported asset conflicts with its row; otherwise each reported asset is right in its own table, an unchanged row is not written, and every other row is untouched |
| Heartbeat.OutcomeExact | internal/store/postgres/heartbeat_writer.go:119-211 | A heartbeat is refused for its house exactly when that is not registered with its grid and meter, for an asset exactly when one has another house or type, and is applied otherwise |
| Heartbeat.LivenessExact | internal/store/postgres/heartbeat_writer.go:19-25 | An applied heartbeat moves its house's liveness to the later of the stored and the receive time and no other house's |
| Heartbeat.LastSeenExact | internal/store/postgres/heartbeat_writer.go:238-290 | A new observation is last seen at the receive time, a row with changed capabilities at the later of the two times, and a row that already agreed is not written |
| Heartbeat.CapabilitiesCurrent | internal/store/postgres/heartbeat_writer.go:238-290 | After an applied heartbeat every reported asset's row carries the reported capabilities under that house |
| Heartbeat.BeatKeeps | internal/store/postgres/heartbeat_writer.go:94-115 | A heartbeat that is not applied changes nothing |
| Heartbeat.RunKeeps | internal/store/postgres/heartbeat_writer.go:19-72 | Over any run: no asset is registered, no owner, type or house identity changes, liveness and last-seen never go back, no row disappears, observations point at registered houses |
| Heartbeat.RedeliveryTouchesHouse | internal/ingestion/heartbeat_handler.go:68-99 | A redelivered heartbeat, whatever its receive time, is applied again, writes no asset row and moves at most the house's liveness; it changes nothing exactly when that time is not later than the stored one |
| Redelivery.OutcomesRepeat | internal/ingestion/heartbeat_handler.go:68-99 | Each heartbeat of a redelivered run meets the fate it met the first time, whatever its receive time |
| Redelivery.LastReportShows | internal/store/postgres/heartbeat_writer.go:238-290 | After a run an asset's row carries what the last applied heartbeat that reported it said |
| Redelivery.SuffixRedelivered | internal/ingestion/heartbeat_handler.go:68-99 | Redelivering any suffix of a run, in order and with any receive times, leaves every asset's owner, type and capabilities as the run left them, adds and removes no row, and moves house rows only forward |
| HouseStatus.HouseStore.UpdateHeartbeat | internal/store/redis/heartbeat.go:14-16 | The status is overwritten with the time to the second, the key lives ten minutes, the membership is added, no other status changes |
| HouseStatus.HouseStore.RestoreHeartbeat | internal/store/redis/heartbeat.go:22-31 | Refused exactly when the heartbeat is more than 9 minutes 59 seconds old; otherwise overwritten with the time to the second, to live for the whole seconds left of ten minutes |
| HouseStatus.RestoreKeepsExact | internal/store/redis/scripts/update_heartbeat.lua:8-9 | No reader, at the write or at any later time, sees an earlier status or loses one exactly when the guard refuses the restore, the house shows no status, or the one it shows is neither later than the second written nor longer-lived than the key set |
| HouseStatus.RestoreShortensLife | internal/store/redis/heartbeat.go:22-31 | Restoring over an equal second whose key lives longer makes the status vanish for a reader who would have seen it |
| HouseStatus.RestoreMovesStatusBack | internal/rebuild/rebuild.go:90-91 | Row read, newer heartbeat applied and written, row restored: the status moves back although the house row has the later time |
| HouseStatus.RestoredLifetimeExact | internal/rebuild/rebuild.go:67 | A restored key outlives the house's own window exactly when the write comes later after the rebuild's `now` than the cut-off fraction of a second |
| Decoder.DecodeStorageAssets | internal/ingestion/decoder.go:206-265 | All or nothing: succeeds exactly when every entry has a valid id, a known type, 0 to 100 percent charge, a power, a positive capacity and plugged_in exactly on EVs, and no id repeats; then each asset says field by field what its entry said, in order |
| Decoder.DecodeFlexibleAssets | internal/ingestion/decoder.go:326-383 | The same for heartbeats, with nonnegative power limits and v2g_capable exactly on EVs; the ids are distinct as the heartbeat transaction needs |
| Decoder.DecodeMeterReading | internal/ingestion/decoder.go:107-204 | Accepts exactly the well-formed records at most a day old and at most five minutes ahead; the reading says field by field what the record said |
| Identity.ValidateGridId | internal/ingestion/decoder.go:399-412 | True exactly for 1 to 32 lower-case letters and digits |
| Identity.ValidateHouseId | internal/ingestion/decoder.go:414-439 | True exactly for the grid id, "-house" and 1 to 10 digits |
| Identity.ValidateMeterId | internal/ingestion/decoder.go:441-450 | True exactly for "meter-" and the house id |
| Identity.ValidateAssetId | internal/ingestion/decoder.go:452-465 | True exactly for 1 to 64 characters of the asset alphabet |
| Identity.ValidateHouseIdentity | internal/ingestion/decoder.go:612-623 | The device class of a valid identity by its name, nothing otherwise or for any other name |
| Identity.HouseDeterminesIdentity | internal/ingestion/decoder.go:414-450 | A valid house id has one grid and one meter |
| Identity.MeterDeterminesHouse | internal/ingestion/decoder.go:441-450 | A valid meter id has one house |
| Identity.KeysDistinct | internal/store/redis/keys.go:10-20 | For valid ids, keys of each family agree exactly for the same house or grid, and the families never meet |
| Identity.KeyTexts | internal/store/redis/keys.go:10-20 | The three key families as spelled, on an example |
| Identity.UnvalidatedKeysCollide | internal/store/redis/keys.go:10-12 | Without validation two houses can share a key |
| Provisioning.Validate | cmd/register-houses/main.go:158-189 | Succeeds exactly when there are 1 to 10000 entries, every one is valid and repeats agree; the result has each house once, each with a valid identity and field by field as its first entry gave it |
| Provisioning.HouseRegistry.RegisterHouse | internal/store/postgres/house_registry.go:52-90 | A new house of a provisioned grid with a free meter and no negative rating is created with exactly what was given; an existing one is unchanged or refused by comparison; every refusal has its own cause and writes nothing |
| Provisioning.FileNeverMeterTaken | internal/store/postgres/house_registry.go:62-63 | Among validated houses the meter-uniqueness refusal never happens |
| Provisioning.RegisterAllKeeps | internal/store/postgres/house_registry.go:45-51 | Registering anything never changes a registered house |
| Provisioning.RerunUnchanged | internal/store/postgres/house_registry.go:45-51 | Registrations that ran without refusal are all unchanged when run again, even after others |
| Provisioning.RegisterFile | cmd/register-houses/main.go:71-113 | Nothing is written unless the whole file is valid; then the houses are registered in order, the meter refusal never happens and the report counts the outcomes |
| Provisioning.FileRerunUnchanged | cmd/register-houses/main.go:96-112 | A file reported without refusal is reported wholly unchanged ever after, whatever other files bring |
| Ordering.PageIsPage | internal/store/postgres/house_reader.go:33-39 | The keyset page is the ascending list of the first ids after the cursor, all of them unless full |
| Ordering.LessExact | internal/store/postgres/house_reader.go:33-39 | One id comes before another exactly when, after a common prefix, it ends or has the smaller byte |
| Paging.TokenRoundTrip | internal/query/validate.go:37-50 | A token decodes to the house id it was made from, for every nonempty id |
| Paging.TokensDistinct | internal/query/validate.go:37-39 | Different house ids have different tokens |
| Paging.SymbolExact | internal/query/validate.go:37-39 | The alphabet of tokens is A to Z, a to z, 0 to 9, '-' and '_', in this order |
| Paging.GroupsExact | internal/query/validate.go:37-39 | Four symbols stand for the same 24-bit number as the three bytes they encode |
| Paging.BreaksIgnored | internal/query/validate.go:41-50 | A line break anywhere in a token makes no difference to what it decodes to |
| Paging.ListHouses | internal/query/service.go:99-129 | The page, its rows with liveness, and the next token, or the field that was invalid; a Redis fault on any row fails the call; every house listed is past the cursor, has the asked owner and grid and is online exactly with a status; at most the size asked for, capped at 200 and 50 by default; without a next token none that was asked for is missing |
| Paging.ListingComplete | internal/query/service.go:99-129 | Following tokens from the start lists houses in order and none twice, lists every house that matched throughout, and ends, whatever the table does between pages |
| EnergyOrders.SplitExact | internal/store/postgres/energy_reader.go:28-50 | Cutting a range loses exactly the tail of the last reading before the cut that falls past it, with three independent orders of the rows on which ties agree |
| EnergyOrders.SplitExactOnlyIfTiesAgree | internal/store/postgres/energy_reader.go:28-50 | That identity holds for all orders of the three statements if and only if tied rows of the range have the same power |
| EnergyOrders.SplitEnergy | internal/store/postgres/energy_reader.go:28-50 | With three independent orders on which ties agree, the two parts never exceed the whole, fall short by at most 30 s of that reading, and are equal exactly when it has no power or nothing of it is cut off |
| EnergyOrders.ColumnsSplit | internal/store/postgres/energy_reader.go:52-66 | The same bounds for each of the thirteen energy columns of the served summaries |
| EnergyOrders.TieOrderExact | internal/store/postgres/energy_reader.go:39 | The energy of the rows in a range is the same in every order exactly when rows with the same time have the same power |
| EnergyOrders.SummaryOrderExact | internal/store/postgres/energy_reader.go:36-66 | The whole summary is the same in every order exactly when tied rows agree in solar, consumption, net, charge and discharge |
| EnergyOrders.TiesBreakSplit | internal/store/postgres/energy_reader.go:39 | For any tie of a row with solar and one without, the first half in one order exceeds the whole in the other |
| EnergyOrders.TiesBreakSeries | internal/store/postgres/energy_reader.go:68-76 | For any such tie and any bucketing, the series in one order adds up to more than the summary in the other |
| EnergyOrders.SameTimes | internal/store/postgres/energy_reader.go:39 | All sorted orders of the same rows show the same times, position by position |
| Energy.CoveredTime | internal/store/postgres/energy_reader.go:36-42 | Covered time is within the range |
| Energy.SpanExact | internal/store/postgres/energy_reader.go:36-42 | Each reading counts until the next one or the end of the range, and at most 30 seconds |
| Energy.StorageExact | internal/store/postgres/energy_reader.go:28-35 | Charge less discharge is the sum of the batteries' powers, and charge plus discharge the sum of their magnitudes |
| Energy.AttributionExact | internal/store/postgres/energy_reader.go:43-49 | The greedy split is the one and only nonnegative, balanced split that follows the priorities |
| Energy.AttributionOptimal | internal/store/postgres/energy_reader.go:43-49 | No balanced split sends less solar to the grid or draws less from it for the home |
| Energy.SummaryExportsLeast | internal/store/postgres/energy_reader.go:52-66 | Over a range no choice of balanced splits exports less solar than the summary reports, and the attributed split exports exactly that |
| Energy.SummaryBalanced | internal/store/postgres/energy_reader.go:52-66 | Sums of balanced rows balance |
| Energy.ColumnExact | internal/store/postgres/energy_reader.go:52-66 | Each of the thirteen energy columns of a summary is the sum of its own power times duration |
| Energy.StorageColumns | internal/store/postgres/energy_reader.go:52-66 | The same for charged and discharged energy over a range |
| Energy.GridColumns | internal/store/postgres/energy_reader.go:52-66 | Exported less imported energy is the net power over time, and their sum its magnitude |
| Energy.MeterColumns | internal/store/postgres/energy_reader.go:52-66 | Generated and consumed energy are the meter's powers over time; covered hours are the counted seconds |
| Energy.KwhExact | internal/store/postgres/energy_reader.go:52-66 | A power held for an hour is that energy, and energy is power times time |
| Energy.SeriesExact | internal/store/postgres/energy_reader.go:68-72 | The series has exactly the buckets with readings, in order, each with the sum of its own rows |
| Energy.SeriesTotal | internal/store/postgres/energy_reader.go:68-76 | The buckets add up to the summary |
| EnergyOrders.EnergyConserved | internal/store/postgres/energy_reader.go:43-76 | For every history, range and bucketing, series and summary each in its own order: solar, consumption, charge and discharge each equal the sum of their nonnegative flows in every bucket and in the summary; when tied rows agree the buckets add up |
| EnergyOrders.AddsUpOnlyIfTiesAgree | internal/store/postgres/energy_reader.go:68-76 | The buckets add up to the summary, in all orders of the two statements, if and only if tied rows of the range agree in solar, consumption, net, charge and discharge |
| Energy.SelfConsumption | internal/query/service.go:203-206 | The percentage is that share of generation not exported, lies in 0 to 100, and is absent exactly without generation |
| Energy.AverageExact | internal/query/service.go:242-252 | An average held for the covered hours is the energy; without covered time it is zero |
| Energy.AverageWithinReadings | internal/query/service.go:242-252 | Each average served for a bucket lies between the smallest and largest such power among the readings in that bucket: solar, consumption, export and import each by their own |
| Energy.ServeSeries | internal/query/service.go:183-187 | The served series has each bucket once, in order, with its own totals and average |

## Left out

- Consumer.Run, dispatch, onAssigned and takeWorkers as a class: the map operations are the `Offer`, `Accept`, `Refuse`, `Assign` and `Take` steps of the protocol; as methods they would only add easy members.
- The loop of partitionWorker.run as a method: it does not terminate; it is the `TakeBatch` and `ExitLoop` steps of the protocol.
- Panics of the recorder or the committer are the `Panic` step of the protocol; `Partition.dfy` does not unwind.
- Time (drain timeout, grace, commit and record timeouts, backoff lengths): each expiry is a step that may happen at any moment.
- EnergyOrders.SplitEnergy: doubles are idealised as reals throughout the energy arithmetic; rounding is modelled only for Lua numbers.
- Ordering.PageIsPage: house ids are ordered byte by byte; the database collation is taken to be that.
- Rebuild.Run: a write that fails is taken to have written nothing; a write whose answer is lost is covered for latest entries by `EndToEnd.WriteKeeps`. An empty house id, which no valid house has, would be missed by the cursor.
- Telemetry.TelemetryStore.InsertMeterReading: foreign-key and check constraints of the telemetry tables are not modelled; such a refusal is a fault that changes nothing.
- Heartbeat.LivenessExact: a house never heard from, NULL in the database, is one whose stored time is before every receive time.
- Decoder.DecodeMeterReading: works on parsed fields; JSON parsing, RFC 3339 timestamps and non-finite numbers are taken as already rejected.
- HeartbeatHandler.HandleRecord as a method: its checks are those of the meter handler, its two writes are `Heartbeat.ApplyHeartbeat` and `HouseStatus.UpdateHeartbeat`.
- sanitizeText, payload hashes and error texts: they carry no property of the protocol.
- Peak demand, ownership lookups, range, bucket-width and time-zone validation: independent single checks. A bucket is any function of the time, so daylight-saving rules are not modelled.
- Admission registry and its refresher: the admitted grids are an input that may change between records.
- Registration over HTTP, actuation handling, configuration, application wiring, metrics, tracing, health checks and the gRPC mapping: plumbing.
