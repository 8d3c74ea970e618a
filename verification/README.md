# Verified model of TinkivaDatabase

TinkivaDatabase serves many small SQLite files from one process. Its heart is a registry
(`src/db.rs`): a bounded cache of open tenant databases, shared by requests, capacity eviction, idle
cleanup and WAL checkpoints, with admission control by two nested semaphores and with cancellation of a
request at every await. This project models the registry twice, shows where the two models meet, and models
the code around it once.

**The step system** (`Protocol`). Every in-flight request, lease drop, cleanup and checkpoint sweep is a
task with a program counter; each atomic counter operation, map operation, mutex or permit hand-over and
once-cell change is one step, and any tasks may interleave. Timeouts, cancellation, failed opens, spurious
compare-and-swap failures and background closes are steps of their own, and `len()` reads the map one shard
at a time while others remove entries. `Ledger`, `Conservation`, `Invariants` and `Runs` prove one inductive
invariant; `Safety`, `Uniqueness`, `PinnedCache`, `Waits` and `FailedOpens` draw the guarantees from it, for
every state of every run.

**The registry class** (`Registry`). `DatabaseManager` and `DatabaseEntry` with their fields and loops, one
operation at a time with a supplied clock, proved against relations on plain values (`CacheSpec`). `Lru`
proves that these relations keep exactly the most recently used names, and `Serial` runs the class itself over
any serial trace and arrives at that specification. `Maintenance` says what one operation does to all tenants,
and `Recency` what whole histories with checkpoints do to idle ones.

**The two together** (`Solo`). A request of the step system that runs while nobody else moves changes the map, the
entries and the permits exactly as the relation says that the class's `Acquire` is proved to follow, with the
timestamps erased.

**Around it.** `Streaming` has the row loops of `query` and `batch` and the batch transaction; `Telemetry` the
cumulative histograms; `OpenLoop` the open-loop load generator of `tools/benchmark.py`, its request mix and
its percentiles.

`dafny verify dfyconfig.toml` checks everything.

## Where the code does less than one would expect

- **A failed open can orphan an entry.** `acquire` unlinks the entry by pointer (`src/db.rs:117-120`) while
  others may hold it or have looked it up, and `take` removes by name (`src/db.rs:203`). So the statement that an
  entry missing from the map is CLOSED holds throughout a run exactly when no failed open is unlinked in that
  run (`Uniqueness.AbsentEntriesAreClosedIffNoOpenFails`). How bad it gets is exact too, for every configuration
  and every name (`FailedOpens`): `k` requests can hold leases on `k` different entries of one name, each with its
  own open pools on the same file, if and only if the process admits `k` requests; so two live entries of one name
  need `max_concurrent_requests >= 2`, and the per-database bound can be exceeded for a name if and only if
  `max_concurrent_requests` is larger than it, as it is by default (512 and 8, `src/config.rs:98-99`). And `take` can
  unlink an entry that is open and leased and that it did not close. The step system has no timestamps, so in that
  last run the cleanup finds the entry idle at once, as it does with an idle timeout of zero; the others need no
  cleanup. The lease counter, capacity, permit and no-use-after-close guarantees do not depend on any of this.
- **Checkpoints count as use.** `checkpoint_wal` leases each entry (`src/db.rs:237-246`), and dropping that lease
  touches `last_used_ms` (`src/db.rs:434-439`), so a resident's last use is the later of the last request for it and
  the last checkpoint (`Recency.HistoryTracks`). `README.md:4-6` and `README.md:119` promise that idle tenants are closed
  and that the least recently used one is evicted. In every run a cleanup closes an idle tenant if and only if no
  checkpoint ran since its cutoff (`Recency.ClosedIffNoCheckpointSince`), and the possible victims are all least
  recently asked for if and only if the idle tenants not asked for since the last checkpoint were asked for at the
  same time (`Recency.VictimsAreLeastRecentIffLevelAlike`). `Recency` gives a history that breaks each promise, and
  shows that the first can be broken for every idle timeout but zero. With the defaults, a checkpoint every 10 s
  and an idle timeout of 300 s (`src/config.rs:91-93`), no tenant is ever closed for being idle
  (`Recency.CleanupClosesNothing`). The LRU theorems below are about traces without checkpoints.

## Model

| member | source | states |
|---|---|---|
| Runs.ReachableInv | src/db.rs:86-262 | The invariant holds in every state that any interleaving reaches: exact counters, conserved permits, exact mutex, capacity, known names, sane pools |
| Ledger.MovesSettle | src/db.rs:86-205 | Every step of every task changes what the task holds by exactly its effect on the registry, and has checked the guard of that effect |
| Conservation.TaskStepBalanced | src/db.rs:325-347 | Lease counters, both kinds of permits and pending closes stay balanced over any task step |
| Invariants.MeasureKeepsFact | src/db.rs:151-157 | A shard-by-shard `len()` that runs while entries are removed never lets an admission exceed the capacity |
| Safety.LeaseCounterExact | src/db.rs:325-347 | In every reachable state an entry's counter is its number of outstanding leases, or CLOSED with none |
| Safety.DropsOnlyLiveCounters | src/db.rs:434-439 | A drop always finds a counter above 0 and below CLOSED, so `fetch_sub` never wraps and never revives a closed entry |
| Safety.ClosedForever | src/db.rs:19 | An entry that is CLOSED stays CLOSED and unleased for the rest of the run |
| Safety.CapacityHolds | src/db.rs:143-165 | The map never holds more than `max_open_databases` entries |
| Safety.OneEvictionSuffices | src/db.rs:151-157 | Each admission evicts at most once: after an eviction there is room, and the attempt limit is never reached |
| Safety.SlotFailsOnlyWithoutVictim | src/db.rs:152-156 | `slot` answers CapacityBusy only after `evict_oldest_idle` found no idle entry or lost its candidate |
| Safety.BusyScanSawEachEntryLeased | src/db.rs:170-186 | When the scan found no idle entry, it had read the counter of every entry that is still in the map, in that same scan, and each was leased or closing |
| Safety.NoUseAfterClose | src/db.rs:427-432 | A lease in use, by a request or a checkpoint, finds its pools opened and not closed, so the `expect` cannot fire |
| Safety.EveryClosedEntryIsClosedOnce | src/db.rs:187-204 | `close_entry` runs at most once per entry, and a CLOSED entry has one run done or still due |
| Safety.CloseRunsUnleased | src/db.rs:440-454 | When `close_entry` runs, the entry is CLOSED, unleased and not yet closed, and afterwards it has been closed once and its pools are not open |
| Safety.PermitsConserved | src/db.rs:96-123 | Free plus held permits equal the configured totals, for the process and for each entry, under shedding, failure and cancellation |
| Safety.QuiescenceRestoresEverything | src/db.rs:51-55 | When no task is in flight every permit, the mutex and every once-cell are free and no counter is left above zero |
| Safety.AdmissionBounds | src/db.rs:101-112 | Leases handed out never exceed `max_concurrent_requests`, nor the per-database share of any entry |
| Uniqueness.AbsentEntriesAreClosedIffNoOpenFails | src/db.rs:112-120 | Every entry missing from the map is CLOSED in every state of a run, if and only if the run unlinks no entry after a failed open |
| Uniqueness.FailedOpenOrphans | src/db.rs:117-120 | The unlink after a failed open always leaves its entry unclosed and absent from the map |
| Uniqueness.OneLeasableEntryPerName | src/db.rs:143-165 | Without failed opens a name never has two leasable entries |
| Uniqueness.TakeUnlinksWhatItClosed | src/db.rs:198-205 | Without failed opens `take` removes exactly the entry it closed |
| Uniqueness.NameBound | src/db.rs:158-162 | Without failed opens the per-database bound holds per name, across evictions and re-creations |
| FailedOpens.LeasesOfOneNameApart | src/db.rs:112-122 | For every valid configuration and name, `k` live leases on `k` different entries of that name, each with open pools, are reachable if and only if the process admits `k` requests |
| FailedOpens.TwoLiveEntriesOfOneName | src/db.rs:117-120 | Two requests can use different entries of one name at the same time if and only if `max_concurrent_requests` is at least two |
| FailedOpens.NameBoundCanBreak | src/db.rs:101-112 | The per-database bound can be exceeded for a name if and only if `max_concurrent_requests` is larger than it |
| FailedOpens.TakeUnlinksALiveEntry | src/db.rs:198-205 | For every valid configuration and name, a run has a `remove` step of `take` that takes out an open, leased entry while the entry `take` closed is another one |
| PinnedCache.RunsSimulatePinnedCache | src/db.rs:86-205 | Every run without failed opens simulates a bounded pinned cache, with the insert, the lease exchange, the drop decrement and the close exchange as the linearisation points |
| Waits.WaitingOrder | src/db.rs:96-116 | Waits follow the order mutex, tenant permit, process permit, pools; the mutex holder never waits |
| Waits.NoSetBlocksItself | src/db.rs:130-139 | No set of tasks blocks itself: some member is free, or waits only for tasks outside the set |
| Waits.SomeTaskProceeds | src/db.rs:86-165 | While tasks are in flight some task can take a step of its own, with no timeout or cancellation to help |
| Retries.GivesUpAfterSixteenLookups | src/db.rs:88-95 | A request that found its entry closing looks again, and gives up of its own accord exactly after sixteen lookups |
| Retries.DecrementWraps | src/db.rs:434-439 | A decrement is a 64-bit `fetch_sub`, CLOSED is what it leaves of zero, and a semaphore takes at most `usize::MAX >> 3` permits |
| Registry.DatabaseEntry.Admit | src/db.rs:97-122 | A request gets its lease or is refused, whatever it took before a refusal is given back, and each wait for a permit is counted |
| Registry.DatabaseManager.constructor | src/db.rs:75-84 | A new registry is empty, with every process slot free |
| Registry.DatabaseManager.Take | src/db.rs:198-205 | Unlinks and closes exactly the named entry if it is resident and unleased, else changes nothing |
| Registry.DatabaseManager.OldestIdle | src/db.rs:171-186 | The scan finds an unleased entry of minimal last use, and fails exactly when all are leased |
| Registry.DatabaseManager.EvictOldestIdle | src/db.rs:170-195 | Evicts, closes and counts one such entry and nothing else; fails exactly when all are leased |
| Registry.DatabaseManager.MakeRoom | src/db.rs:151-157 | The capacity loop ends with room after at most one eviction, or changes nothing because all are leased |
| Registry.DatabaseManager.SlotFor | src/db.rs:143-165 | CapacityBusy exactly for a new name at capacity with all leased; else the name is resident and at most one victim is gone |
| Registry.DatabaseManager.Acquire | src/db.rs:86-125 | The answer, the residents and the free slots follow the acquire relation in every case; leases and slots stay balanced, every lifecycle count is exact, failed opens included, and whatever leaves the map is closed |
| Registry.DatabaseManager.Release | src/db.rs:434-439 | Gives back exactly one lease, one tenant slot and one process slot |
| Registry.DatabaseManager.CleanupIdle | src/db.rs:207-225 | Removes and closes exactly the unleased entries that have been idle for the timeout, in milliseconds, and returns and counts their number |
| Registry.DatabaseManager.CheckpointWal | src/db.rs:230-262 | Counts exactly the open entries whose checkpoint succeeded, and touches every resident entry |
| Registry.DatabaseManager.Stats | src/db.rs:264-277 | Reports the residents, all outstanding leases and the slots that these leave free |
| Registry.DatabaseManager.CloseAll | src/db.rs:278-289 | Empties the map and closes every entry's pools, also under a lease; counters of leased entries stay, and the registry is valid afterwards exactly when nothing was leased |
| Registry.LedgerGranted | src/db.rs:101-122 | Leases, tenant slots and process slots still add up after any answer to a request |
| Registry.LedgerReleased | src/db.rs:434-439 | They still add up after a drop |
| Maintenance.EvictionAtCapacity | src/db.rs:143-195 | At capacity a new name is refused exactly when all are leased; else exactly one unleased entry of minimal last use goes, even if the request is then shed or its open fails, and all others are unchanged |
| Maintenance.ResidentNeverBusy | src/db.rs:144-150 | A request for a resident name is never refused for capacity and evicts nobody; its answer depends on the free slots and the open alone |
| Maintenance.InvalidNames | src/db.rs:461-473 | A name is refused as invalid exactly when it is empty, longer than 64, begins with a hyphen or an underscore, or holds anything but these and ASCII letters and digits |
| Maintenance.IdleForTheTimeout | src/db.rs:207-225 | A cleanup closes an unleased tenant exactly when its last use lies `idle_timeout_seconds * 1000` milliseconds back, cut to 64 bits, or is zero |
| Maintenance.CleanupAfterCheckpoint | src/db.rs:230-246 | After a checkpoint a cleanup removes every unleased tenant once its cutoff reaches the checkpoint, and none before |
| Recency.HistoryTracks | src/db.rs:241-246 | In every run each resident was last used when it was last asked for or at the last checkpoint, whichever is later |
| Recency.ClosedIffNoCheckpointSince | src/db.rs:207-225 | In every run a cleanup closes exactly the tenants that are unleased, not asked for since the cutoff, and not checkpointed since the cutoff |
| Recency.CleanupClosesNothing | src/db.rs:207-246 | So a cleanup closes nothing if a checkpoint ran after its cutoff, whatever requests came in between |
| Recency.IdleTenantCanStay | src/db.rs:208-215 | A cleanup can leave a tenant open that nobody has asked for since the cutoff, if and only if the idle timeout is not zero |
| Recency.VictimsAreLeastRecentIffLevelAlike | src/db.rs:167-186 | In every run all possible victims are least recently asked for among the unleased, if and only if the unleased residents not asked for since the last checkpoint were last asked for at the same time |
| Recency.RecentTenantEvictedFirst | src/db.rs:170-195 | With two places there is a history in which, after a checkpoint, the later asked for of two idle tenants is evicted first |
| Lru.ResidentsAreTheMostRecent | src/db.rs:143-225 | For every serial trace the residents are exactly the `max_open_databases` most recently used names last used after every cleanup cutoff |
| Lru.MoreCapacityKeepsResidents | src/db.rs:152-156 | On the same trace a larger capacity keeps every resident of a smaller one |
| Lru.UseOfNewWithoutRoom | src/db.rs:170-186 | Admitting a new name without room trades it for the least recent resident and moves nobody else |
| Serial.AloneIsLeased | src/db.rs:86-125 | A serial request for a valid name whose open succeeds always gets its lease |
| Serial.ServeTrace | src/db.rs:86-225 | The registry class, driven by any serial trace, ends with exactly the most recently used names in its map |
| Solo.AloneFollowsAcquired | src/db.rs:86-165 | A request of the step system that runs alone from a calm state ends with the answer, the map, the entries and the permits that the acquire relation of the class gives, for some timestamps |
| Solo.RunIsCalm | src/db.rs:198-205 | Every reachable state is calm in which no task is opening an entry or unlinking one it closed: what the map holds is neither CLOSED nor shut |
| Streaming.RowValues | src/api.rs:423-442 | A null column reads as null and any other through the conversion of its type name, in order; the row fails exactly when a column that is not null cannot be converted |
| Streaming.RowReads | src/api.rs:425-440 | The same of the functions in which the other contracts speak of rows, so that these mean what `RowValues` does |
| Streaming.FetchRows | src/api.rs:251-276 | `query` returns the first `limit` rows decoded, fails exactly on a pull or row it reaches that fails, and is truncated exactly when there is a row more |
| Streaming.NullsRead | src/api.rs:427-428 | A row of nulls decodes to nulls, whatever the type names |
| Streaming.RunStatement | src/api.rs:313-345 | A batch statement fails exactly at a broken event before its cut or at a row to be delivered that cannot be read; else it delivers the rows before the cut, the first column names, the effect reported last, and pulls no event beyond the row that cuts it |
| Streaming.StatementFailsIff | src/api.rs:322-343 | Failing before the cut is the same as failing at some event, in terms of the places of the rows |
| Streaming.ProducesDelivers | src/api.rs:322-343 | What a statement produces, in terms of the places of its rows, of its last effect event and of its first named row |
| Streaming.CutKeepsPrefix | src/api.rs:336-339 | The cut keeps the first `limit` rows of the whole stream, and happens exactly when there are more |
| Streaming.BindQuery | src/api.rs:395-421 | Parameters bind in order, and fail exactly when one is an integer of 2^63 or more |
| Streaming.BlankSql | src/api.rs:387-393 | SQL is refused as empty exactly when every character is one of the 25 white spaces of Unicode |
| Streaming.TenantDatabase.Batch | src/api.rs:297-349 | On success there is a chain of states from the committed one, each statement run on what its predecessor left, its result delivered from there, and the last state is committed; else the committed state is unchanged and, once begun, some statement fails on what its predecessors left or the commit fails; says exactly when, and when the request is at fault |
| Streaming.RunsAreChain | src/api.rs:309-346 | The recursive state after a list of statements is the end of such a chain |
| Telemetry.Histogram.Record | src/metrics.rs:33-43 | After any samples, bucket `i` counts those at or below bound `i`, modulo 2^64 |
| Telemetry.BucketsAreCumulative | src/metrics.rs:12-15 | Buckets are nondecreasing, bounded by `count`, and differ by the samples between their bounds |
| Telemetry.BucketsHoldTheirSamples | src/metrics.rs:12-43 | Each of the twelve buckets is the number of samples within its own bound, from 1 ms to 5 s |
| Telemetry.MicrosRoundDown | src/metrics.rs:41-42 | The total in microseconds misses less than one for each sample |
| Telemetry.RouteMetrics.Record | src/metrics.rs:98-105 | Succeeded plus failed stays equal to the route's histogram count, modulo 2^64 |
| Telemetry.Metrics.RecordRequest | src/metrics.rs:94-106 | A request records on its own route and on no other; an unknown route records nothing |
| Telemetry.RouteTable | src/metrics.rs:17-23 | The three routes and their places; any other path has none |
| OpenLoop.Load.Count | tools/benchmark.py:291-306 | A finished request adds one latency and one to exactly the counter of its outcome: a write or a read by the role of its ordinal if answered with 200, shed for 429, a transport error for 0, an HTTP error for anything else |
| OpenLoop.Load.Offer | tools/benchmark.py:316-344 | An ordinal is handed to the executor with its tenant and role, or dropped when `max_outstanding` are pending, and the backlog stays within that bound |
| OpenLoop.Load.OfferDue | tools/benchmark.py:315-320 | Exactly the ordinals that do not fit in the backlog are dropped |
| OpenLoop.Load.Drive | tools/benchmark.py:275-356 | For every completion schedule the load offers floor(duration * rate) requests, and reads, writes, shed, errors and drops add up to them, with one latency for each request submitted and no drop if they all fit in the backlog |
| OpenLoop.DueIsMinimum | tools/benchmark.py:314 | The minimum of the two truncations is the number of requests due, capped at the deadline |
| OpenLoop.ExactMix | tools/benchmark.py:322-324 | Any window of databases * (readers + writers) ordinals, wherever it starts, offers each tenant exactly `writers` writes and `readers` reads |
| OpenLoop.CountersHoldTheMix | tools/benchmark.py:296-324 | After `k` whole periods with nothing dropped and every answer 200, the load reports exactly `k * databases * writers` writes and `k * databases * readers` reads |
| OpenLoop.TenantsTakeTurns | tools/benchmark.py:322 | Consecutive ordinals go to consecutive tenants, from the first and round again |
| OpenLoop.PercentileSplits | tools/benchmark.py:359-363 | At most the fraction of the values lie below the percentile, and more than the fraction at or below it |

## Left out

- Registry.DatabaseManager.Acquire: runs at one instant with nobody else running, so the retry of `src/db.rs:88-95` around a concurrent close, the waits and the admission timeouts are in the step system only; admission waits are counted, and their durations, zero here, are not recorded.
- Registry.DatabaseManager.EvictOldestIdle: closes the evicted entry at once; the spawned close of `src/db.rs:190` is a step of its own in the step system.
- Registry.DatabaseManager.CloseAll: nobody else runs meanwhile; `close_all` is not in the step system.
- Registry.DatabaseManager.CleanupIdle: nothing runs between its scan and its takes; in the step system the scan may propose any entry it saw unleased, because timestamps are not kept there.
- Solo.AloneFollowsAcquired: only `acquire` is linked to the class in this way; drops, cleanups and checkpoints are proved separately in both models.
- Streaming.TenantDatabase.Batch: statements that themselves end the transaction are not modelled; the lease it acquires first is the registry's part.
- Streaming.RowValues: what each driver conversion makes of a value is given; base64 and JSON number formatting are library functions.
- Telemetry.Histogram.Record: durations are whole nanoseconds and the bounds exact integers, where the code compares 64-bit floats; `BucketsAreCumulative` speaks of states with no record in flight.
- OpenLoop.Load.Drive: rates and times are exact reals, a request's outcome is a function of its ordinal, and its SQL parameter is left out; the thread pool and the HTTP client are not modelled.
- Lru.ResidentsAreTheMostRecent: traces without checkpoints, since a checkpoint touches every resident (see above), and with opens that succeed.
- Counters: lifecycle counts are unbounded, and there are fewer than 2^64 - 1 tasks in flight.
- Memory ordering weaker than sequential consistency.
- SQLite, the sqlx pools, PRAGMAs, WAL growth and file paths: an open succeeds or fails, and a close is a mark.
- HTTP routing, authentication, compression, error-to-status mapping, request parsing and the JSON row serializers: plumbing and formatting.
- Configuration loading: the positive limits are assumed, and the semaphore sizes are within what a semaphore accepts; environment overrides are not modelled.
- Prometheus text rendering, process memory and CPU probes, and the closed-loop benchmark workers.
