# cfunc: a verified model of its core protocols

cfunc is a function-as-a-service gateway. A request for a function takes a warm
process from that function's pool (or starts one), sends it a length-prefixed
frame over a socket and waits for the reply. Around that sit a quota limiter
that many gateways share, a store whose changes travel to gateways and cron
schedulers as watch events, leader election for the schedulers, a cache of
dependency layers, an on-disk layer store, archive extraction with path guards,
and a text chunker in one of the function templates.

The hard part of cfunc is not any single function but what its small concurrent
protocols keep true together. This project models them and proves those
properties for all inputs, all runs and all interleavings.

## How the project is laid out

Concurrent protocols are transition systems: a datatype of steps, `Enabled` and
`Apply`, and runs as sequences of states. A step is one critical section, one
atomic operation or one file operation of the source. Theorems quantify over
every run. Code that changes objects in place is written again as classes and
methods over arrays and maps, and proved against functions whose properties are
lemmas.

| Files | Part of cfunc |
|---|---|
| `PoolModel`, `PoolSafety`, `PoolWakeup`, `PoolProgress`, `PoolCounters`, `PoolLimits` | the instance pool as a transition system, and what it does not promise |
| `InstancePool`, `Filtering` | the same critical sections as loops over a slice that is filtered in place |
| `QuotaAdmission`, `QuotaLedger`, `QuotaLateness`, `BucketSums`, `Limiter` | admission under contention, the flush protocol of many gateways, the limiter and its store as classes |
| `CronTable`, `StateScheduler`, `CronWatch`, `Leadership` | reconciliation, its convergence in spite of dropped events, leader election |
| `WatchEvents`, `InMemStore`, `PostgresEvents`, `FunctionCache`, `CacheHealing`, `FunctionRegistry` | the stores and their bounded subscriber buffers, the gateway's cache and registry |
| `Framing`, `NodeReader`, `StreamReader`, `Messages`, `PlainCodec`, `NodeLoop`, `NodeConnection`, `ServeLoop`, `RequestReply`, `RequestClosing` | the wire format, its readers in Node, Python and Go, the serve loops, request and reply on one connection |
| `LayerDigests`, `LayerPull`, `LayerResolver` | single-flight layer downloads |
| `LayerRefs`, `LayerStore`, `LayerAdd` | the layer store on disk, cut off at any file operation |
| `Paths`, `SafePath`, `Extraction` | lexical paths, the two guards, unpacking |
| `Paragraphs`, `Chunker` | the scraper's chunker |
| `Options`, `Sequences` | a value that may be missing, flattening |

`dafny verify dfyconfig.toml` checks all of it.

## What turned out false, and what holds instead

Each of these has a concrete run or input in the project, next to the exact
condition under which the property does hold.

- After `closeAll` a request can sleep with room in the pool and no wakeup on its
  way (`PoolLimits.ClosingLosesWakeups`). Wakeups survive closing exactly if
  nobody sleeps or nothing is listed at that moment
  (`PoolLimits.WakeupsSurviveClosingIff`).
- A spawn in flight lands in the closed pool and is never closed
  (`PoolLimits.LateSpawnLandsDetached`). Exactly the spawns that finish after the
  pool was drained leak (`PoolLimits.SpawnLeaksIff`, `LeakedIff`).
- `Stats` drops errors when nothing is warm and nothing ever succeeded
  (`PoolLimits.ErrorsCanDisappear`, and exactly when in
  `PoolCounters.StatsInvokesAreExact`).
- A flush ignores errors of the store, and swaps negative sums of observed deltas
  away. Usage survives a flush if and only if the counter is zero, or positive and
  the store takes it (`Limiter.FlushConservesIff`); after closing, everything counted
  is stored if and only if no push failed (`QuotaLedger.CloseStoresEverything`).
- A gateway that cannot read the usage back goes on admitting: every failed read can
  add a whole limit to the overshoot (`QuotaLateness.OvershootWithMissesIsReached`),
  and no more (`QuotaLateness.OvershootWithLateness`).
- Sixteen function events can push a cron event out of the shared buffer for
  good (`CronWatch.FunctionTrafficLosesAJob`). `CronWatch.DropIsSafeIff` says which
  drops keep the invariant behind convergence, and `CronWatch.UnsafeDropDiverges`
  that after every other one the scheduler can come to rest with a wrong table.
- A gateway's cache can stay wrong after crossed or lost announcements or a late
  direct update (`FunctionCache.CrossedNotificationsDiverge`, `LostEventDiverges`,
  `LateLocalPutDiverges`). `CacheHealing.HarmlessIff` gives the exact condition for
  each kind of step: after it the cache still comes to rest right. After every other
  one it comes to rest wrong (`CacheHealing.HarmfulDiverges`). A stricter property,
  that the last pending event always tells whether a name is stored, has its own
  exact conditions (`FunctionCache.NotifyIsSafeIff`, `LoseIsSafeIff`,
  `LocalPutIsSafeIff`, `LocalDeleteIsSafeIff`); a late put can break that and still
  do no harm (`CacheHealing.LatePutIsHarmless`).
- Editing a cron job without changing its schedule does not change what runs
  (`CronTable.EditedBodyIsNotRun`, and exactly when in `CronTable.RunsStoredJobIff`).
- Closing an instance while a caller waits crosses the replies
  (`RequestReply.CloseCrossesReplies`); closing is safe exactly under the condition
  of `RequestClosing.CloseIsSafeIff`.
- A caller can be left waiting for good: by the Go SDK if the reply does not fit, and
  by the Node SDK, as long as the script catches the error of `start`, if the error
  reply does not fit (`RequestReply.ReplyCanBeDropped`); by nothing else
  (`RequestReply.WaitsInVainIff`).
- What the Node SDK does with a stream can depend on how and when it arrives: a frame
  behind a shutdown (`NodeConnection.ShutdownThenFrame`) or behind a payload that is no
  JSON (`NodeConnection.BadThenFrame`) is dispatched or not. It does exactly if the
  stream is not steady (`NodeConnection.SplitIsIrrelevantIff`).
- Readers reject the empty payload that writers accept (`Framing.RoundTripIff`),
  and a stream cut inside a frame can look like a clean end, exactly where
  `ServeLoop.WhoNoticesTheCut` says.
- A goroutine that waited for another one's layer download reports success even
  when the download failed (`LayerPull.WaiterCanBeWrong`); for a well-formed digest it
  is right exactly if the download succeeded (`LayerPull.WaiterIsRightIff`).
- Digests are not checked for their form, and the cache path is cleaned: "./" before
  a digest leads to its directory, although the pull under that name always fails
  (`LayerPull.AliasFails`). A digest can match some hash exactly if it is well-formed
  (`LayerDigests.CanMatchIff`), and those never share a directory
  (`LayerDigests.OneDigestPerDirectory`).
- Adding the same tree again under another version renames the old entry
  (`LayerStore.AddingAgainRenames`, exactly when in
  `LayerStore.ResolveNamesItRightIff`), and an empty version does not mean the most
  recent one (`LayerAdd.NineSortsAfterTen`, `LayerAdd.EmptyVersionIsNewestIff`).
- The chunker's window loop ends on a long chunk only if the overlap is smaller
  than the size (`Chunker.WindowLoopEndsIff`), so chunking a text ends exactly if it
  is, or if no paragraph is too long (`Chunker.ChunkableIff`).

Where comments in the source disagree with its code, the model follows the code:
`acquire` waits on a condition variable and not on the first instance's mutex
(`internal/gateway/gateway.go:592`); `RegisterDef` says that the cache is updated
by the watch loop only, but `RegisterDefAs` also updates it directly
(`internal/gateway/gateway.go:388-391`, `409`); `Start` says that it reconciles
before it subscribes, but subscribes first (`internal/scheduler/state.go:96-109`);
`Resolve` promises the most recently added entry for an empty version
(`internal/layers/store.go:165`); `Add` says that it returns the existing
manifest for known content, but writes and returns a new one
(`internal/layers/store.go:92-93`, `145-151`); `ReadFrame` says that io.EOF means
a close without partial data, but a close right after a header wraps io.EOF as
well (`internal/wire/wire.go:73`, `87-89`).

## Model

| member | source | states |
|---|---|---|
| PoolSafety.CapacityAndExclusion | internal/gateway/gateway.go:610-664 | In every reachable state of every pool, closed ones included, instances plus outstanding spawns stay within the maximum, and no instance is held by two requests. |
| PoolSafety.ClosedAtMostOnce | internal/gateway/gateway.go:671-740 | No instance is closed twice by any mix of reaping and closing pools, and none is closed while it is listed. |
| PoolSafety.ReaperSparesTheBusy | internal/gateway/gateway.go:699-740 | When the reaper closes an instance no request holds it, it was not closed before and it is out of the list. |
| PoolSafety.VictimsStayOut | internal/gateway/gateway.go:706-740 | A reaped instance is never listed or held again, in any later state. |
| PoolSafety.ReapPartitions | internal/gateway/gateway.go:708-726 | One reap pass, interleaved with everything else, splits the list into survivors in their order and locked victims; nothing is lost or doubled. |
| PoolWakeup.NoLostWakeup | internal/gateway/gateway.go:610-668 | In a pool that is not closed a request sleeps only if the pool is full, and every instance is busy or somebody is between unlocking and broadcasting. |
| PoolWakeup.SleepersAreNotAlone | internal/gateway/gateway.go:610-668 | In any pool a sleeper implies another request that holds, spawns or is about to broadcast. |
| PoolWakeup.SleepersCanAlwaysWake | internal/gateway/gateway.go:610-668 | No deadlock: every reachable state has a continuation, without new requests and without a spawn that fails, after which nobody sleeps. |
| PoolProgress.EveryRequestFinishes | internal/gateway/gateway.go:596-669 | Inevitable, not only possible: while no request arrives and the reaper keeps out, the requests can take no more steps than a bound computed from the state, in whatever order they move, and they stop moving only when all of them are gone. |
| PoolProgress.EveryRequestFinishesAnyway | internal/gateway/gateway.go:596-740 | With the reaper, Stats and closing interleaved in any way, the requests take no more steps than that bound and the price of one broadcast for every reap pass that removed something; when none of them can move, all are gone or the reaper holds the mutex and can go on. |
| PoolProgress.StepBurns | internal/gateway/gateway.go:610-668 | Every step of every request lowers one measure of the whole pool, broadcasts that wake everybody included. |
| PoolProgress.SomeoneCanMove | internal/gateway/gateway.go:610-668 | As long as there are requests and the reaper does not hold the mutex, one of them has a next step. |
| PoolCounters.CountersSurviveReaping | internal/gateway/gateway.go:709-726 | For an open pool outside a reap pass, lifetime totals plus the live counters equal everything ever counted, for invokes, errors and durations. |
| PoolCounters.StatsInvokesAreExact | internal/gateway/stats.go:92-160 | The invokes of a report lie between what was counted at its snapshot and at its end; its errors do so if and only if the row is not left at its zero values or nothing had failed by the snapshot. |
| PoolCounters.StatsInvokesNeverDecrease | internal/gateway/stats.go:60-160 | Reported invokes never go down while the pool stays the function's pool. |
| PoolLimits.ClosingLosesWakeups | internal/gateway/gateway.go:671-679 | A run in which closing leaves a request asleep although there is room and no wakeup is coming. |
| PoolLimits.DrainIsJustifiedIff | internal/gateway/gateway.go:671-676 | Emptying the list keeps every sleeper justified if and only if nobody sleeps or the list was empty. |
| PoolLimits.WakeupsSurviveClosingIff | internal/gateway/gateway.go:671-679 | Exactly then every later sleeper of the closed pool is justified, in the whole rest of the run. |
| PoolLimits.LateSpawnLandsDetached | internal/gateway/gateway.go:642-656 | A run in which a spawn in flight comes to rest in a pool that is already closed. |
| PoolLimits.LateSpawnIsNeverClosed | internal/gateway/gateway.go:671-679 | Whatever is in the list of a drained pool stays there and is never closed, in every run. |
| PoolLimits.LeakedIff | internal/gateway/gateway.go:642-679 | An instance is neither closed nor due to be closed by anybody if and only if its pool has been drained and lists it. |
| PoolLimits.SpawnLeaksIff | internal/gateway/gateway.go:643-656 | A spawn that finishes leaks its instance if and only if the pool has been drained by then. |
| PoolLimits.ErrorsCanDisappear | internal/gateway/stats.go:153-160 | A run in which one error was counted and the report shows none. |
| InstancePool.Pool.TryAcquire | internal/gateway/gateway.go:618-667 | Takes the first free instance in slice order and no other; otherwise reserves a spawn slot if there is room; otherwise the pool is full and all busy. |
| InstancePool.Pool.FinishSpawn | internal/gateway/gateway.go:643-656 | The reserved slot becomes a locked instance at the end of the slice, and what the pool has counted in all does not change. |
| InstancePool.Pool.FailSpawn | internal/gateway/gateway.go:643-649 | A failed spawn gives its slot back and wakes the waiters. |
| InstancePool.Pool.ReapOnce | internal/gateway/gateway.go:208-731 | The in-place pass keeps the others in order and returns, locked, exactly the instances that nobody held and whose last use, or creation if there was none, is at least the limit ago; so what was used more recently stays; the sum of lifetime and live counters is as it was. |
| InstancePool.Pool.FilterInPlace | internal/gateway/gateway.go:708-725 | The loop that overwrites the slice while it reads it computes the order-preserving filter. |
| InstancePool.CloseVictims | internal/gateway/gateway.go:734-739 | Every victim is closed once and unlocked. |
| InstancePool.Pool.CloseAll | internal/gateway/gateway.go:671-679 | Empties the list and closes each of its instances once, busy or not, without waking anybody. |
| InstancePool.Pool.Stats | internal/gateway/stats.go:92-160 | Invokes are lifetime plus live; errors too unless nothing is warm and nothing succeeded; the average is total time, truncated to milliseconds, by invokes; earliest creation, shortest cold start and latest use, which is the creation of what was never used, are the attained extremes over the live instances. |
| InstancePool.SumSplits | internal/gateway/gateway.go:713-718 | A counter summed over a list is its sum over the survivors plus its sum over the victims. |
| Filtering.Partition | internal/gateway/gateway.go:708-726 | Survivors and victims together are the list, as multisets. |
| Filtering.KeepsOrder | internal/gateway/gateway.go:708-726 | Survivors embed into the list by an increasing index map. |
| QuotaAdmission.ExactAdmission | internal/quota/quota.go:93-122 | Under every interleaving of n racing calls exactly min(n, max(0, limit - remote - count)) are admitted, and the counter rises by as many. |
| QuotaAdmission.EveryScheduleEnds | internal/quota/quota.go:111-121 | No schedule of the racing calls is longer than a bound in the room left and the number of calls: the retry loop terminates. |
| QuotaAdmission.EveryoneGetsThrough | internal/quota/quota.go:111-121 | From every state of the race the calls can all be decided. |
| QuotaAdmission.MoveIsFair | internal/quota/quota.go:111-121 | What every atomic step keeps; a failed swap means the counter has strictly risen since it was read. |
| QuotaAdmission.MoveBurnsFuel | internal/quota/quota.go:111-121 | Every atomic step of every call lowers one measure of the whole race. |
| QuotaLedger.UsageIsConserved | internal/quota/quota.go:166-188 | Counted units equal local counters plus samples in flight plus stored usage plus what the store refused, in every interleaving of calls with the three steps of every gateway's flush. |
| QuotaLedger.CloseStoresEverything | internal/quota/quota.go:80-85 | If every gateway has swapped its counter once more after its last call, in any order and whatever else went on in between, and no flush is under way, every unit ever counted is in the store if and only if no push of a non-empty sample ever failed. |
| QuotaLedger.EveryoneCanClose | internal/quota/quota.go:80-85 | From any state between flushes the gateways can be closed one by one, at any later times, after which the store holds all counted units but those lost before. |
| QuotaLedger.ClosedMeansStored | internal/quota/quota.go:80-85 | Whenever no gateway holds anything back, the store holds all counted units but the lost ones: all of them if and only if none was lost. |
| QuotaLedger.OvershootBound | internal/quota/quota.go:93-232 | With limit L a gateway adds at most L to any minute if its flush is one step and at most 2L if it is three, so N gateways at most N times that, across minute rollovers. |
| QuotaLateness.OvershootWithLateness | internal/quota/quota.go:93-232 | For every step there is: at most 2L, one for each late admission and each observed unit, and L for each read that failed, for one gateway with its own and for all together. |
| QuotaLateness.OvershootWithMissesIsReached | internal/quota/quota.go:166-232 | With k reads that fail one gateway reaches (k + 2) L, for every k and L. |
| QuotaLedger.OvershootIsReached | internal/quota/quota.go:166-232 | The bound of 2L is sharp, for every L. |
| Limiter.Limiter.GetOrCreateCounter | internal/quota/quota.go:133-143 | A counter is created once, at zero, and never replaced; no two keys share one. |
| Limiter.Limiter.Allow | internal/quota/quota.go:93-122 | Whatever others add between load and swap, nothing of it is overwritten, an admitted call counts one, was alone in its deciding round and stays within the limit, and a denied one saw no room; without a limit every call is admitted. |
| Limiter.Counter.Admit | internal/quota/quota.go:111-121 | The compare-and-swap loop ends for any additions of others, and decides on the counter as it is at the deciding operation. |
| Limiter.Limiter.Observe | internal/quota/quota.go:126-131 | Adds the delta to that key's counter and touches no other. |
| Limiter.Limiter.SwapAll | internal/quota/quota.go:175-185 | Every counter is zero afterwards, and the samples are exactly the positive old values. |
| Limiter.Limiter.Flush | internal/quota/quota.go:166-232 | Each positive counter that the store takes is added to its bucket of this minute and no other bucket changes, no counter is replaced, limits and remote usage are read back exactly where the store answers and stay otherwise, and only a listing of projects that fails is an error. |
| Limiter.TenancyStore.AddQuotaUsage | internal/state/inmem_tenancy.go:160-176 | Adds to the minute's bucket, which raises the sum from any minute up to that one by as much and changes no sum from a later minute and of no other key; a negative delta is refused and changes nothing. |
| Limiter.TenancyStore.GetQuotaUsage | internal/state/inmem_tenancy.go:178-193 | The sum over the buckets at or after that minute, whatever order they are visited in; nothing if all are at least a minute older. |
| BucketSums.SinceAdd | internal/state/inmem_tenancy.go:185-189 | A unit added to a bucket counts for every minute up to that bucket and for none after it. |
| QuotaLedger.FreshMinute | internal/quota/quota.go:216-226 | A gateway that reads back in a minute into which nobody has pushed starts from zero. |
| QuotaLedger.EarlierMinutesDoNotCount | internal/quota/quota.go:216-226 | What is pushed into a minute changes what a gateway reads back if and only if that minute is not before its own. |
| Limiter.FlushConservesIff | internal/quota/quota.go:178-188 | A flush loses no usage if and only if the counter is zero, or positive and the store takes it. |
| BucketSums.SumPick | internal/state/inmem_tenancy.go:185-189 | A sum over map entries does not depend on which entry is taken first. |
| StateScheduler.StateScheduler.Reconcile | internal/scheduler/state.go:187-223 | Succeeds if and only if every wanted schedule parses; then the table is reconciled; when it stops early the bookkeeping is still consistent, every entry left is wanted, and every entry that was right already is there unchanged. |
| StateScheduler.StateScheduler.RemoveStale | internal/scheduler/state.go:201-208 | Afterwards exactly the entries whose id and schedule are still wanted remain, untouched. |
| StateScheduler.StateScheduler.Register | internal/scheduler/state.go:214-220 | A schedule that parses gets a fresh cron entry with the captured job; one that does not changes nothing. |
| CronTable.RunsStoredJobIff | internal/scheduler/state.go:201-221 | After a reconciliation the running job is the stored one if and only if it was reseated or was already the same. |
| CronTable.EditedBodyIsNotRun | internal/scheduler/state.go:201-213 | For every edit that leaves the schedule alone there is a reconciled table on which the old job runs and another reconciliation changes nothing. |
| CronTable.ReconcileIsIdempotent | internal/scheduler/state.go:187-223 | A second reconciliation with the same jobs changes nothing. |
| CronTable.DropKeeps | internal/scheduler/state.go:203-207 | Dropping an entry keeps live entries and ids one to one and every other entry as it was. |
| CronTable.AddKeeps | internal/scheduler/state.go:215-220 | So does adding one. |
| CronWatch.SchedulerConverges | internal/scheduler/state.go:100-163 | Whenever Start has succeeded and channel, writers and scheduler are at rest, there is one live entry for each known schedule, and the known schedules are the stored ones if and only if all stored ones parse; for every run whose drops are safe. |
| CronWatch.RunsLastWrite | internal/scheduler/state.go:100-223 | From the writers to the cron engine: at rest, if all stored schedules parse, a job that was written last has a live entry with that schedule, and a job that was deleted last has none; for every run whose drops are safe. |
| CronWatch.DropIsSafeIff | internal/state/inmem.go:163-173 | Broadcasting into a full buffer keeps the invariant behind convergence if and only if it drops no cron event, another one is buffered or pending, the scheduler is about to list or down, or what it has, or whatever it can make of its listing, is up to date. |
| CronWatch.UnsafeDropDiverges | internal/state/inmem.go:163-173 | After any other drop, in every state of the invariant, the system can come to rest, without another write and though all schedules parse, with a table that is not the stored one. |
| CronWatch.CronTrafficConverges | internal/scheduler/state.go:136-163 | With cron traffic only, convergence holds for every interleaving of writers, drops and watch steps. |
| CronWatch.CronTrafficIsHarmless | internal/state/inmem.go:163-173 | With cron traffic only, a full buffer holds a cron event, so no drop does harm. |
| CronWatch.FunctionTrafficLosesAJob | internal/scheduler/state.go:149-155 | A run with function traffic that comes to rest with a stored job missing from the scheduler, for every job. |
| Leadership.AtMostOneFires | internal/scheduler/state.go:226-232 | At any moment at most one scheduler passes the fire gate, and it holds the lock. |
| Leadership.StopReleasesExactlyOnce | internal/scheduler/state.go:118-132 | A scheduler wins at most once and releases at most as often; once stopped it has released exactly what it won. |
| Leadership.StopIsFinal | internal/scheduler/state.go:118-132 | A stopped scheduler never takes the lock again. |
| Leadership.CanAlwaysStop | internal/scheduler/state.go:118-183 | A scheduler that was started can always be stopped without anybody else moving, whatever the elector answered; then it has given back the lock if it won it. |
| Leadership.SuccessorCanWin | internal/scheduler/state.go:157-183 | With the lock free, any running scheduler can become leader on its next tick. |
| InMemStore.InMemStore.Broadcast | internal/state/inmem.go:163-173 | Every subscriber gets the event once or, if its buffer is full, not at all; nobody else is affected. |
| InMemStore.InMemStore.Watch | internal/state/inmem.go:127-143 | A new subscriber with an empty buffer joins the set. |
| InMemStore.InMemStore.PutFunction | internal/state/inmem.go:65-75 | Stores the definition with its default project and announces it to every subscriber. |
| InMemStore.InMemStore.DeleteFunction | internal/state/inmem.go:77-83 | Deleting a missing name is no error and is announced all the same. |
| InMemStore.InMemStore.PutCronJob | internal/state/inmem.go:105-115 | Stores the job with its default project and announces it. |
| InMemStore.InMemStore.DeleteCronJob | internal/state/inmem.go:117-123 | Deletes the job and announces it, missing or not. |
| PostgresEvents.NotifyRoundTrip | internal/state/postgres.go:386-415 | Every event that the database announces is decoded to that event, colons in names included. |
| PostgresEvents.DecodeIsExact | internal/state/postgres.go:386-415 | Nothing but the announcement of an event is decoded to it. |
| PostgresEvents.Subscribers.Watch | internal/state/postgres.go:290-299 | Subscribes with an empty buffer, or fails if and only if the store is closed. |
| PostgresEvents.Subscribers.Cancel | internal/state/postgres.go:301-309 | The end of a context closes its channel if and only if it was still subscribed, so no channel is closed twice in any order of cancelling and closing. |
| PostgresEvents.Subscribers.Close | internal/state/postgres.go:66-79 | Closes every subscribed channel, none twice, and nobody can subscribe afterwards. |
| PostgresEvents.Subscribers.Dispatch | internal/state/postgres.go:416-423 | A decoded event reaches every subscriber that has room; nothing is ever sent on a closed channel. |
| FunctionRegistry.Registry.ApplyPut | internal/gateway/gateway.go:320-332 | Replaces the definition, normalised, and shuts the old pool down, closing each of its instances once and no other; a registered pool always has its definition's size. |
| FunctionRegistry.Registry.ApplyDelete | internal/gateway/gateway.go:336-345 | Removes definition and pool, closing each of its instances once and no other. |
| FunctionRegistry.Registry.ApplyEvent | internal/gateway/gateway.go:303-315 | A put is looked up again and ignored if the name is gone; a delete is believed; the pool goes and its instances are closed once exactly when the event applies; otherwise nothing changes, so cron events change nothing. |
| FunctionRegistry.Registry.PoolFor | internal/gateway/gateway.go:597-608 | Only known functions have a pool; it is created once, with the size of the definition. |
| CacheHealing.HarmlessIff | internal/gateway/gateway.go:267-345 | Of a gateway whose cache comes to rest right however it goes on in order: after any write, announcement, loss, watch step or direct update it still does if and only if the step is harmless, which a test of the pending events, the put in hand and the cache decides. |
| CacheHealing.HarmfulDiverges | internal/state/inmem.go:65-83 | After any other step there is a continuation without writes, in order and without losses, that rests with a wrong cache. |
| CacheHealing.RestsRightIff | internal/gateway/gateway.go:303-345 | Whether every way to rest leaves the cache right about a name is decided now: a stored name needs a put as its last pending event, or the right definition in hand or cached; another name a pending delete, or to be absent. |
| CacheHealing.CacheRestsRight | internal/gateway/gateway.go:267-345 | In every run of harmless steps, the cache equals the store, defaults filled in, whenever it is at rest. |
| CacheHealing.CacheHoldsLastWrite | internal/gateway/gateway.go:267-345 | From the writers to the gateway: at rest the cache holds the definition that was put last, default project and limit filled in and nothing else changed, and nothing under a name that was deleted last. |
| CacheHealing.ComesToRest | internal/gateway/gateway.go:303-345 | From every state the gateway, left alone, can come to rest. |
| CacheHealing.LatePutIsHarmless | internal/gateway/gateway.go:303-313 | A put announced after a later delete breaks the stricter property below and does no harm, because it is looked up. |
| FunctionCache.CacheConverges | internal/gateway/gateway.go:267-345 | As long as announcements come in turn and only superfluous ones are lost, a name without pending events is cached as stored, and for any other name the last pending event says whether it is stored. |
| FunctionCache.BufferIsBounded | internal/state/inmem.go:127-173 | The gateway's buffer never holds more than sixteen events, and with room a pending announcement can be delivered. |
| FunctionCache.NotifyIsSafeIff | internal/state/inmem.go:65-83 | Announcing a write out of commit order keeps that stricter property if and only if no other write to the name is left or the last one left is of the same kind as the last one there was. |
| FunctionCache.LoseIsSafeIff | internal/state/inmem.go:163-173 | Losing an announcement keeps it if and only if the last event left about the name tells the truth, or none is left and the cache is right or about to be. |
| FunctionCache.LocalPutIsSafeIff | internal/gateway/gateway.go:398-416 | The direct cache update of a registration keeps it if and only if an event for the name is still due or the store still holds that definition. |
| FunctionCache.LocalDeleteIsSafeIff | internal/gateway/gateway.go:429-446 | The same for a direct removal. |
| FunctionCache.CrossedNotificationsDiverge | internal/state/inmem.go:65-83 | A run in which a delete announced late removes a function that was stored again. |
| FunctionCache.LostEventDiverges | internal/gateway/gateway.go:255-256 | A run in which a write before the subscription is never noticed. |
| FunctionCache.LateLocalPutDiverges | internal/gateway/gateway.go:398-416 | A run in which a direct update overwrites a newer definition for good. |
| FunctionCache.NotifyLatest | internal/state/inmem.go:163-173 | Which event about a name is the latest after one write of several is announced. |
| Framing.LengthRoundTrip | internal/wire/wire.go:61-62 | Reading back a written length gives it back. |
| Framing.HeaderRoundTrip | internal/wire/wire.go:75-79 | Writing a length that was read gives the same four bytes. |
| Framing.BigEndianOrder | internal/wire/wire.go:61-62 | Headers are ordered like lengths, byte by byte: the most significant byte comes first. |
| Framing.LimitIsSixteenMebibytes | internal/wire/wire.go:53-85 | A frame may hold up to 16777216 bytes, and a header that announces one more is refused. |
| Framing.RoundTripIff | internal/wire/wire.go:53-85 | Among the payloads a writer accepts, exactly the non-empty ones are read back. |
| Framing.EncodeParse | internal/wire/wire.go:74-95 | Whatever a reader accepts is the encoding of its payload. |
| Framing.StreamRoundTrip | internal/wire/wire.go:53-95 | Any list of frames followed by anything but a whole frame is read back exactly, and exactly the rest is left. |
| Framing.ParseInPieces | sdks/node/cfunc/index.mjs:32-49 | Parsing what has arrived and going on from the leftover equals parsing everything at once, wherever the stream is split. |
| Framing.ParseExtends | sdks/node/cfunc/index.mjs:37-49 | More bytes never change a verdict once reached. |
| Framing.BadStays | sdks/node/cfunc/index.mjs:42-43 | After a bad length, later bytes change neither the frames before it nor the verdict. |
| NodeReader.FrameReader.Push | sdks/node/cfunc/index.mjs:32-35 | The buffered bytes are the old ones followed by the chunk, and the size stays their number. |
| NodeReader.FrameReader.Coalesce | sdks/node/cfunc/index.mjs:50-54 | Merging chunks does not change the bytes. |
| NodeReader.FrameReader.Next | sdks/node/cfunc/index.mjs:37-47 | Takes exactly the frame at the front and leaves the rest; asks for more or throws without losing a byte. |
| NodeReader.TakeFrames | sdks/node/cfunc/index.mjs:32-54 | push and then next until it has no more: all frames complete by now are out and the leftover is buffered. |
| NodeReader.TakeAllFrames | sdks/node/cfunc/index.mjs:32-54 | Over a whole stream the frames that push and next give depend on the bytes only, not on how they were split. |
| NodeLoop.OnData | sdks/node/cfunc/index.mjs:92-113 | One loop that is not interrupted handles the ordinary frames in order, up to and with a shutdown, up to a falsy one, or to an exception, leaves the rest in the buffer, and says why it ended. |
| NodeLoop.KindMeans | sdks/node/cfunc/index.mjs:94-110 | Which payloads are dispatched, waited for, end the loop or make the reader throw, for every message and for what is no message. |
| NodeLoop.HandleMeans | sdks/node/cfunc/index.mjs:92-113 | That work in terms of the frames of the stream: which is the first at which the loop does not go on, what is dispatched before it and what is left. |
| NodeConnection.OnAllData | sdks/node/cfunc/index.mjs:92-113 | The connection as written, one loop for every chunk, loops queued behind a destroyed socket included, with any chunks arriving while a handler works, ends as some run of the transition system does, and for a steady stream as one loop over all the bytes would. |
| NodeConnection.SplitIsIrrelevantIff | sdks/node/cfunc/index.mjs:92-113 | Over every split and every arrival during a wait, what is dispatched, kept and given up depends only on the bytes if and only if the stream is steady; and then it is what one loop over all of them does. |
| NodeConnection.SteadyIff | sdks/node/cfunc/index.mjs:92-113 | Steady by position: at the first frame that is not simply answered, a shutdown or falsy value comes last with no bad length behind it; and if it is no JSON, no invoke comes before it or nothing that would be dispatched behind it. |
| NodeConnection.ShutdownThenFrame | sdks/node/cfunc/index.mjs:106-110 | Every frame behind a shutdown stays in the buffer if both come in one chunk and is dispatched if they come in two. |
| NodeConnection.BadThenFrame | sdks/node/cfunc/index.mjs:92-104 | An invoke, a payload that is no JSON, and a frame: the frame is dispatched if the last two arrive while the handler works, and not if all come in one chunk. |
| NodeLoop.PlainIsParseAll | sdks/node/cfunc/index.mjs:92-113 | If all frames are ordinary messages the loop handles exactly the frames of the bytes. |
| NodeConnection.GatewayTrafficIsSteady | internal/spawn/spawn.go:100-112 | What a gateway writes that sends its shutdown last is steady, never makes the SDK destroy its socket, and every message of it is dispatched, in order. |
| StreamReader.ReadExact | sdks/python/cfunc.py:69-76 | Gives exactly the next n bytes however they are delivered, or nothing if the stream ends first. |
| StreamReader.PyReadFrame | sdks/python/cfunc.py:56-65 | Payload, end, bad length or short read as the front of the stream says, with exactly that much consumed. |
| StreamReader.PyReadAll | sdks/python/cfunc.py:56-76 | Reading frames until there is none gives exactly the frames of the stream, then the verdict on the rest. |
| StreamReader.ReadFull | internal/wire/wire.go:75-78 | Like ReadExact, and tells how much there was. |
| StreamReader.GoReadFrame | internal/wire/wire.go:74-89 | The same front-of-stream verdicts with Go's error cases. |
| StreamReader.GoReadAll | internal/wire/wire.go:74-89 | The same for Go. |
| RequestReply.RepliesAreNeverCrossed | internal/spawn/spawn.go:100-107 | For every run in which Close keeps the reaper's discipline, the k-th reply read is the reply to the k-th message written, with its id and a fitting kind, through partial writes, crashes and earlier failures. |
| RequestReply.WaitsInVainIff | internal/spawn/spawn.go:100-107 | A waiting caller is stuck until the process dies if and only if the process said nothing because the reply did not fit, which the Python SDK never does; otherwise somebody can move. |
| RequestReply.ReplyCanBeDropped | sdks/go/cfunc.go:100-105 | For every invoke and every fitting answer that is too large, an error in the Node SDK's case, there is a run that ends with the caller waiting like that. |
| RequestReply.ReplacementIsHeard | sdks/python/cfunc.py:120-147 | A run in which the caller of the Python or Node SDK hears an error in place of a result that is too large, for every such result and error. |
| RequestReply.NoSecondResult | sdks/node/cfunc/index.mjs:122-146 | After a result that is too large only an error can be said about the message. |
| RequestReply.AfterTheReply | sdks/go/cfunc.go:57-80 | Once a reply is out in full the process reads on, but after the answer to a shutdown it is gone. |
| RequestReply.CloseCanFinish | internal/spawn/spawn.go:111-128 | Close, once begun, can always go on without anybody else moving, until the process is dead and its pipes are empty. |
| RequestReply.CloseCrossesReplies | internal/spawn/spawn.go:111-128 | Without that discipline Close can take the caller's reply and leave it the answer to the shutdown, for every message and reply. |
| RequestClosing.CloseIsSafeIff | internal/spawn/spawn.go:111-128 | In every state the discipline allows, starting Close is safe if and only if no caller is inside Invoke or the process can no longer answer; safe means that no continuation crosses replies. |
| RequestClosing.StartingCrosses | internal/spawn/spawn.go:111-128 | In every other phase of caller and process, a dropped reply included, a continuation in which nobody else breaks the rules crosses replies. |
| RequestReply.FrameIsTheReply | internal/spawn/spawn.go:106 | Whoever reads a whole frame reads the one reply under way, and nothing stays behind it. |
| Messages.PartIsShort | sdks/go/cfunc.go:57-64 | A frame that has arrived only in part is not mistaken for anything. |
| ServeLoop.GoServe | sdks/go/cfunc.go:57-105 | The peer reads exactly what belongs to the frames of the stream: for an invoke a result with the handler's body if it is done, an error with its body if it fails, and the SDK's own answers to the rest, each with its id, as far as they fit; up to a payload that is no message or a shutdown, null being an empty message; and the loop ends as stated. |
| ServeLoop.PyServe | sdks/python/cfunc.py:99-147 | The same for Python, where a result that does not fit is replaced by an error, any other reply that does not fit ends the loop, and null ends it like the end of the stream. |
| ServeLoop.TalkIsConversation | sdks/go/cfunc.go:57-105 | The conversation by position: what is said about frame i belongs to it, and it stops after an exception or a shutdown, before a payload the loop cannot take, or at the end, and nowhere else. |
| ServeLoop.ConversationIsUnique | sdks/python/cfunc.py:99-147 | Handler and frames determine the conversation. |
| ServeLoop.EndMeans | sdks/go/cfunc.go:57-80 | A loop ends cleanly if and only if what came last was a shutdown, null in Python, less than a header in Python, and nothing or a good header alone in Go. |
| ServeLoop.GoAnswer | sdks/go/cfunc.go:65-105 | What belongs to the message reaches the peer as a whole frame if it fits, or nothing does. |
| ServeLoop.PyAnswer | sdks/python/cfunc.py:120-147 | What belongs to the message, or the error that replaces a result too large, reaches the peer, or the loop is left by an exception. |
| ServeLoop.SaidAboutFrame | sdks/python/cfunc.py:99-147 | The i-th thing said is about the i-th frame and echoes its id; only Go is ever silent, and only about a reply that does not fit. |
| ServeLoop.RepliesLineUp | sdks/go/cfunc.go:57-105 | A peer that reads replies in order pairs them rightly without ids, and the i-th carries what belongs to the i-th frame: always in Python, in Go as long as all replies up to there fit. |
| ServeLoop.WhoNoticesTheCut | sdks/python/cfunc.py:69-76 | For a stream cut inside a frame, Python sees a clean end if and only if the cut is in the header, Go if and only if it is right after it. |
| LayerPull.SingleFlight | internal/gateway/layers.go:108-127 | At most one goroutine pulls a digest, and the map lists a digest exactly while one does. |
| LayerPull.NoWaiterIsStranded | internal/gateway/layers.go:109-127 | A waiter's channel is closed or has exactly one live goroutine that will close it; none is closed twice. |
| LayerPull.OwnerCanClose | internal/gateway/layers.go:122-167 | That goroutine can always go on and close it, without anybody else moving. |
| LayerPull.OnlyVerifiedTrees | internal/gateway/layers.go:151-167 | A cache directory holds a tree whose hash matched a digest of that directory; a digest that shares the directory matches if and only if it is well-formed. |
| LayerPull.InstalledForGood | internal/gateway/layers.go:158-167 | An installed directory is never replaced. |
| LayerPull.PullersTellTheTruth | internal/gateway/layers.go:122-167 | For a well-formed digest, a caller that did not wait reports success only if the directory was installed, and a puller succeeds if and only if it was. |
| LayerPull.WaiterIsRightIff | internal/gateway/layers.go:109-117 | A goroutine that returns from waiting reports success, and, for a well-formed digest, is right if and only if the pull whose channel it waited on succeeded, unless the digest was pulled again in between. |
| LayerPull.WaiterReturns | internal/gateway/layers.go:109-117 | Whoever stops waiting reports success if and only if it was not cancelled, and then its channel is closed. |
| LayerPull.FoundAtOnce | internal/gateway/layers.go:102-106 | A caller that looks for a well-formed digest succeeds at once if its layer is there, and takes the way of a pull if not. |
| LayerPull.RenameFindsRoom | internal/gateway/layers.go:158-165 | In every run the rename meets no directory that another pull has installed. |
| LayerPull.CacheFollowsPull | internal/gateway/layers.go:122-167 | After a pull of a well-formed digest the directory is there if and only if the pull succeeded, until the digest is pulled again. |
| LayerPull.WaiterCanBeWrong | internal/gateway/layers.go:109-117 | A run in which the download fails and the waiter still reports success, for every digest. |
| LayerPull.AliasFails | internal/gateway/layers.go:103-117 | A run in which the pull of an alias fails while its directory is filled under the digest itself, so that the waiter is right although the pull failed; for every digest and blob that match. |
| LayerDigests.OneDigestPerDirectory | internal/gateway/layers.go:103-280 | Of all digests that share a cache directory, the path being joined and cleaned, exactly one can pass the check for a hash: the well-formed one. |
| LayerDigests.CanMatchIff | internal/gateway/layers.go:273-284 | A digest can pass the check for some hash if and only if it is sixty-four hex digits, in either case, with or without the prefix. |
| LayerDigests.MatchesIff | internal/gateway/layers.go:273-280 | A digest passes the check for a hash if and only if it has the same sixty-four digits, in either case, with or without the prefix. |
| LayerDigests.AliasSharesDirectory | internal/gateway/layers.go:103-103 | "./" before a digest leads to the same directory and is never well-formed. |
| LayerResolver.StoreResolver.EnsureLocal | internal/gateway/layers.go:102-167 | For one caller: succeeds if and only if something is there, or a genuine blob can be had and download, disk and rename work; changes nothing otherwise, and gives the slot back. |
| LayerResolver.StoreResolver.Resolve | internal/gateway/layers.go:77-97 | On success every mount is ready; on failure the mounts before the failing one are rewritten, the rest are as they were, and that one could not be had. |
| LayerRefs.RefRoundTripIff | internal/layers/store.go:51-64 | A reference survives being written and parsed if and only if its version holds no '@'. |
| LayerRefs.ParseRef | internal/layers/store.go:53-64 | Only the empty string is refused; without '@' all of it is the name; otherwise the version is what follows the last '@'. |
| LayerRefs.KeyIsInjective | internal/layers/store.go:51-51 | References whose versions hold no '@' do not share an index entry. |
| LayerRefs.KeysCanCollide | internal/layers/store.go:51-51 | Others can. |
| LayerRefs.PickLast | internal/layers/store.go:186-187 | Finds the key that sorts last. |
| LayerStore.CutOffShows | internal/layers/store.go:118-161 | Wherever Add is cut off, readers see the disk before it, with the blob, with blob and manifest, or with the entry too, and nothing else. |
| LayerStore.LeavesCopyIff | internal/layers/store.go:118-143 | A half-made copy stays behind if and only if Add was cut off between starting and renaming it and did not tidy up, or did nothing at all and one was there. |
| LayerStore.LeavesNoManifest | internal/layers/store.go:145-151 | A completed Add leaves no temporary manifest. |
| LayerStore.StoreSurvives | internal/layers/store.go:94-163 | After any sequence of Adds, each cut off anywhere, every index entry has its manifest and its complete blob, whose hash is its digest. |
| LayerStore.IndexHoldsLastAdded | internal/layers/store.go:153-160 | The index maps a key to the digest of its last completed Add, and an unfinished Add changes no entry. |
| LayerStore.ManifestIsLastWritten | internal/layers/store.go:145-151 | The manifest of a digest is the one of the last Add of that content that got as far. |
| LayerStore.ResolveGivesLastAdded | internal/layers/store.go:94-198 | From an empty store and after any history, resolving a key gives the digest of its last completed Add with a complete blob, or not found. |
| LayerStore.ResolveNamesItRightIff | internal/layers/store.go:145-193 | The manifest found carries the requested name and version if and only if the last manifest of that digest was written under them. |
| LayerStore.AddingAgainRenames | internal/layers/store.go:145-151 | Two completed Adds of one tree under two versions leave the first with the second's version. |
| LayerAdd.Store.Add | internal/layers/store.go:94-163 | Bad arguments change nothing; otherwise the disk shows exactly the operations there was time for, and success means all of them and returns a manifest with the arguments, the digest and the size. |
| LayerAdd.Store.Resolve | internal/layers/store.go:166-198 | With a version the entry of that key; without one, among all versions v for which the index holds name@v, the entry of the key that sorts last, which names that version if it holds no '@'; not found if there is none. |
| LayerAdd.EmptyVersionIsNewestIff | internal/layers/store.go:165-189 | An empty version finds the version just added if and only if its key sorts after those of all versions of the name. |
| LayerAdd.NineSortsAfterTen | internal/layers/store.go:186-187 | Version 10 added after version 9 does not. |
| Paths.CleanIsIdempotent | internal/builder/builder.go:312-312 | Cleaning a cleaned path changes nothing. |
| Paths.CleanDropsDots | internal/builder/builder.go:312-312 | Empty components and dots make no difference. |
| Paths.CleanUndoes | internal/builder/builder.go:312-312 | A name and the ".." behind it make no difference, whatever comes before and after them. |
| Paths.CleanStaysAtRoot | internal/builder/builder.go:312-312 | ".." at the root makes no difference. |
| Paths.CleanKeeps | internal/builder/builder.go:312-312 | A path with none of these stays as it is, and the empty one becomes a dot: with the rules above this determines Clean. |
| SafePath.SafeJoinAcceptsIff | internal/gateway/layers.go:248-266 | For an absolute directory other than the root, exactly the non-empty relative names without a ".." component are accepted, and the target appends their names. |
| SafePath.SafeJoinAtRootIff | internal/gateway/layers.go:261-264 | Under the root only names that clean to the root are accepted. |
| SafePath.ExtractAcceptsIff | internal/builder/builder.go:311-315 | Exactly the relative names that do not climb out are accepted. |
| SafePath.BothContain | internal/builder/builder.go:311-316 | Both guards yield only targets under the directory. |
| SafePath.SafeJoinImpliesExtract | internal/builder/builder.go:311-316 | Whatever safeJoin accepts, Extract accepts with the same target. |
| SafePath.ExtractAcceptsMore | internal/builder/builder.go:311-315 | But not the other way round. |
| Extraction.FileSystem.Extract | internal/builder/builder.go:303-339 | Stops at the first entry the guard refuses; the files are those of the accepted entries before it. |
| Extraction.OutsideUntouched | internal/builder/builder.go:303-339 | Whatever entries are called, no file outside the destination changes. |
| Extraction.LastEntryWins | internal/gateway/layers.go:207-226 | A path holds the content of the last regular entry that goes there. |
| Extraction.OthersKeep | internal/builder/builder.go:317-338 | A path to which no regular entry goes keeps what it had, inside the destination too: directories, symlinks and others write nothing. |
| Extraction.TargetIff | internal/gateway/layers.go:199-266 | What each of the two accepts, symlinks included, and where it goes. |
| Extraction.GatewayImpliesBuilder | internal/gateway/layers.go:199-245 | An archive that the gateway accepts is unpacked by the builder to the same files. |
| Paragraphs.JoinThenSplit | templates/python/scraper/_lib.py:133-133 | Paragraphs joined with blank lines and split again are the same paragraphs. |
| Paragraphs.SplitThenJoin | templates/python/scraper/_lib.py:133-133 | The parts of a text joined with blank lines are the text. |
| Paragraphs.OnlySpaceIsLost | templates/python/scraper/_lib.py:133-133 | Splitting into paragraphs loses nothing but white space. |
| Paragraphs.SolidMeans | templates/python/scraper/_lib.py:133-133 | What counts as visible: every character but white space, each as often as it occurs. |
| Chunker.Pack | templates/python/scraper/_lib.py:134-146 | The chunks are the paragraphs in order, grouped greedily: no group of several is over the size, and none could take in the next paragraph. |
| Chunker.GreedyIsUnique | templates/python/scraper/_lib.py:134-146 | Paragraphs and size determine that grouping. |
| Chunker.WindowsAreLossless | templates/python/scraper/_lib.py:154-157 | A chunk is rebuilt from its windows by dropping the overlaps. |
| Chunker.CutWindows | templates/python/scraper/_lib.py:154-157 | The loop yields exactly the windows, and ends. |
| Chunker.Chunk | templates/python/scraper/_lib.py:128-158 | Whenever it ends: a chunk of up to one and a half times the size is output whole, a longer one in pieces of the size, cut every size minus overlap characters; the outputs in order rebuild chunks that join to the paragraphs joined, and none is longer than one and a half times the size. |
| Chunker.ChunksAreLossless | templates/python/scraper/_lib.py:128-158 | The rebuilt chunks, joined, have the same paragraphs as the text and every visible character of it. |
| Chunker.PiecesAreShort | templates/python/scraper/_lib.py:150-157 | Every output has at most one and a half times the size, in numbers. |
| Chunker.PiecesAreCutRight | templates/python/scraper/_lib.py:150-157 | Where each piece of a long chunk starts and ends, how many there are, and that no other chunk is cut. |
| Chunker.OnlyLongParagraphsAreCut | templates/python/scraper/_lib.py:150-157 | Only a single paragraph that is too long by itself is ever cut. |
| Chunker.WindowLoopEndsIff | templates/python/scraper/_lib.py:154-157 | The loop condition fails at some turn if and only if the overlap is smaller than the size. |
| Chunker.ChunkableIff | templates/python/scraper/_lib.py:128-158 | Every chunk of a text is short or has windows that end if and only if the overlap is smaller than the size or every paragraph of the text is short. |

## Left out

- One pool at a time: the transition system follows one pool; the gateway's map of pools is `FunctionRegistry`, and holding the gateway mutex appears as two flags.
- Counter width: counters are unbounded; the wrap-around of 64-bit counters and of durations is not modelled.
- InstancePool.Pool.Stats: the mode and the layer summaries of a row are not modelled, and the average is a real number; in the transition system a report reads the three counters of one instance in one step.
- Layer resolution inside a spawn is part of the spawn step, which succeeds or fails.
- QuotaLedger.OvershootBound: takes each Allow as one step, without Observe and without reads that fail; `QuotaLateness.OvershootWithLateness` states the bound for all steps.
- Limiter.Limiter.Allow: what other goroutines add in each round is a function of the round; only the state at the atomic operations is modelled.
- Limiter.Limiter.Flush: runs without interruption; its interleavings are in `QuotaLedger`, where the calls of a refresh are one step that reads or misses. Nested maps by project and kind are maps by a pair.
- Quotas changed during a run, `SetLimit`, audit log, API keys and project records.
- Timestamps of stored definitions and jobs.
- The wall-clock behaviour of cron entries, and `NopLeader`, which does not exclude anybody.
- Leadership: the lock is exclusive and held until released; a lost database session is not modelled.
- Postgres: SQL, connections, the LISTEN loop and migrations; a notification arrives as it was sent. Closing the store a second time is not modelled.
- `InMemStore.Close` and the end of a subscription.
- HTTP handling, authentication, request limits, TLS, dashboard, command line and logging.
- Starting processes and containers, timeouts of Close, and operating-system errors while writing; a write to a dead process fails.
- RequestClosing.CloseIsSafeIff: takes for granted that an empty error, the shutdown and its answer fit into a frame.
- RequestReply.RepliesAreNeverCrossed: holds for peers that follow the protocol and a marshaller that unmarshalling undoes; JSON itself is not modelled, and Node's habit of answering frames that arrive after a shutdown is in `NodeConnection`, because nothing is sent then.
- ServeLoop: handlers are functions of the frame and its number; contexts and deadlines are left out. What the Node loop writes is covered, as a protocol, by `RequestReply`.
- NodeLoop.OnData: an error reply that is itself too large ends the promise of `start` and this loop; that exit is in `RequestReply` only. Chunks that arrive during a wait are in `NodeConnection`.
- NodeConnection: any invoke may be waited for and nothing else is; that a script ends the process when `start` fails is not modelled, and no chunk is empty.
- StreamReader: payloads are bytes; what the loops make of them once decoded is in `ServeLoop` and `NodeLoop`.
- PoolProgress.EveryRequestFinishes: keeps the reaper out, whose broadcasts wake sleepers again; `PoolProgress.EveryRequestFinishesAnyway` lets it in and counts those broadcasts.
- Hash, gzip and tar are not modelled: a blob has a hash, unpacks or does not.
- LayerPull: directories are never removed by others, and temporary directories of failed pulls are not followed.
- LayerPull.PullersTellTheTruth: says nothing of digests that are not well-formed; they can name paths that no pull installs, and whether a stat finds something there is left open.
- LayerDigests: file systems that do not tell upper case from lower.
- LayerResolver.StoreResolver.EnsureLocal: is the uncontended path; contention is in `LayerPull`. The fallback for mounts without a digest is in Resolve.
- LayerStore: a blob is one value; permission bits, symlink checks and the walk over its files are not modelled, and the size is the length of that value. Writes by other processes to the same root are left out.
- Digests of `builder.hashDir` and `layers.hashTree`: they order entries differently and nothing general relates them.
- Extraction.FileSystem.Extract: directories, file modes and errors of the file system are not modelled.
- Paths: Windows separators and symbolic links on disk.
- Chunker.Chunk: requires that it ends, as `Chunker.ChunkableIff` has it, and that size and overlap are not negative.
- White space beyond ASCII in strip.
