# Starshard in Dafny

Starshard is a concurrent map whose shards are allocated lazily and which can be re-sharded while it is
in use. This project models its core and proves what the core is for. `dafny verify dfyconfig.toml`
checks everything.

**Two-generation map.** While a migration runs, the map is the union of an active and a previous
directory, each routed by the hash modulo its own slot count. `Routing.Stands` says what the two
directories stand for; `ShardedMap.StarMap` is the object, and every operation on it (`ShardedMap`,
`Batches`, `Transactions`, `WholeMap`, `Rebalance`, `Staging`) refines a plain map and keeps the
directories, the length, the epoch, the cache and the migration tracker coherent. `Runs` lifts this to
whole runs and bounds how long a migration can take under interference. `Mutation` and `Tracker` are the
parts below it; `Mutation` also covers user code that stops an operation at any point.

**Lock protocol.** The `Protocol*` modules model threads with program counters: transactions and single-key
writers, lookups, snapshot builders, cache hits, lazy initializers and exclusive topology operations. Two
ghost maps say what may be observed: `published`, in which a change shows once its epoch is published, and
`committed`, in which a transaction shows as a whole. One invariant, kept by every step, gives snapshot
atomicity, epoch-cache agreement, linearizable lookups, serializability, freedom from circular waits and
progress. `ProtocolMigration` shows that its migration steps are those of the batch loop.

**Eviction.** `EvictionIndex` is the striped metadata index with its hooks and its rebuild,
`EvictionHooks` what whole runs of hooks leave in it, `EvictionOrder` the policies and candidate selectors,
`EvictionVictims` the specification of a pass with its exactness theorems. `EvictionPasses`, `EvictionRuns`
and `EvictionLocal` are the passes over map and index together, all proved to pick the same victims, in the
synchronous and the asynchronous form; `EvictionRetry` shows that an interrupted pass and its retry take the
same victims as well. `EvictionMaintenance` and `EvictionCache` cover repair and whole sequential runs;
`EvictionRecovery` is the interleaved state machine of skipped hooks, repairs, evictions and acknowledgements
of every kind of pass.

**Snapshots and replication.** `CowStorage` models reference-counted copy-on-write storage on the heap,
`CowOperations` the map's operations on it and `SnapshotViews` the views built from it. `Replication` is
the quorum decision for every order of replies, `ReplicationOrder` the ordering of replicated writes across
clients.

Conventions. Keys and values are abstract types with lawful equality, the hash is an arbitrary function,
and the metadata index has a hash of its own. Iteration order of hash tables is arbitrary. Clocks,
deadlines, cancellation flags, user callbacks and panics are parameters or nondeterministic choices.
Counters, epochs and stamps are natural numbers.

A migration batch makes progress exactly when its entry budget is positive as well as its shard budget
(`Rebalance.AdvanceRebalance` states the equivalence). The other case is internal only: the loop at
src/core/sync_impl/rebalance_impl.rs:100 is never entered with an entry budget of zero, but every caller
passes at least one.

Enforcing the limits has a gap that the code shares with its model. An operation that unwinds marks its failure
after releasing routing (src/core/sync_impl/eviction_impl.rs:18-30), so the mark can land in another thread's
exclusive pass; the dirty index then rejects every later candidate, and the pass returns over its limit with
the work pending. `EvictionMaintenance.MarkedTooEarly` is the smallest such case, and
`EvictionMaintenance.EnforceExclusively` the exact condition.

## Model

| member | source | states |
|---|---|---|
| Mutation.PromoteEntry | src/core/mutation.rs:11-57 | Stopped at any user Clone, Hash, Eq or Drop point, the generations keep their union and stay disjoint; they are untouched or fully promoted, and a stop before the commit leaves them untouched |
| Mutation.MoveOne | src/rebalance.rs:521-560 | The worker's move of a key still in its source: union and disjointness kept at every stop, promoted exactly when no stop point before the commit fires |
| Mutation.HashTable.ReserveOne | src/core/mutation.rs:25-33 | Growing a staged table keeps its entries and leaves room for one more |
| Mutation.HashTable.InsertVacant | src/core/mutation.rs:34-48 | With spare capacity, an insert neither grows nor loses entries |
| Mutation.HashTable.Detach | src/core/mutation.rs:39-41 | Detaching a located pair removes that pair only and yields its value |
| Mutation.ShardMutation.Apply | src/core/mutation.rs:95-122 | A table change happens unless stopped before its commit; inserts are marked before user code can run |
| Mutation.ShardMutation.Publish | src/core/mutation.rs:124-139 | The drop publishes the exact length difference and moves the epoch whenever contents changed, though only lengths and a flag are compared |
| Mutation.MutateOnce | src/core/mutation.rs:60-139 | One completed change: exact length, and an epoch move for every insert and every effective removal |
| Mutation.RunMutation | src/core/mutation.rs:60-139 | A guarded run of changes stopped after any prefix leaves exactly the committed prefix, with exact length, and an epoch move whenever contents changed |
| Tracker.RebalanceTracker.BeginWithCounts | src/rebalance.rs:205-220 | A new generation starts with no progress, unpaused |
| Tracker.RebalanceTracker.Step | src/rebalance.rs:221-230 | Counts one more drained source slot |
| Tracker.RebalanceTracker.FinishStaged | src/rebalance.rs:231-260 | A staged rebuild counts as a finished generation of its own |
| Tracker.RebalanceTracker.Finish | src/rebalance.rs:285-295 | Finishing ends migration and pause |
| Tracker.RebalanceTracker.Pause | src/rebalance.rs:326-335 | Pausing takes effect only while migrating and says so |
| Routing.PromoteKey | src/core/sync_impl.rs:219-230 | Moving a waiting key to its active slot changes neither the logical map nor routing nor disjointness |
| Routing.SwapActive | src/core/sync_impl.rs:635-693 | Replacing one active slot's table replaces exactly that slot's part of the logical map, with exact cardinality |
| Routing.BindActive | src/core/sync_impl.rs:362-379 | Changing a settled key in its slot changes exactly its binding in the logical map |
| Routing.SwitchGeneration | src/core/sync_impl/rebalance_impl.rs:30-53 | Turning the whole directory into the previous generation over an empty one keeps the logical map |
| Routing.DropEmptySource | src/core/sync_impl/rebalance_impl.rs:166-173 | A previous directory whose slots are all retired can be dropped |
| Routing.StandsUnique | src/core/sync_impl.rs:188-217 | The two directories determine the logical map and the set of keys still to move |
| ShardedMap.StarMap.GetOrInitShard | src/core/sync_impl.rs:192-205 | Lazy allocation keeps every invariant and touches one slot only |
| ShardedMap.StarMap.PromotePrevious | src/core/sync_impl.rs:219-230 | Settles a key in its active shard without changing the logical map, its length or its epoch |
| ShardedMap.StarMap.Insert | src/core/sync_impl.rs:362-398 | Refines map insert: returns the old binding, epoch moves by one, the key no longer waits |
| ShardedMap.StarMap.Get | src/core/sync_impl.rs:400-445 | Active first, previous as fallback: exactly the logical lookup, nothing allocated |
| ShardedMap.StarMap.Remove | src/core/sync_impl.rs:471-530 | Refines map removal; the epoch moves exactly when the key was present |
| ShardedMap.StarMap.GetOrInsertWith | src/core/sync_impl.rs:546-580 | Returns a present value unchanged, or stores the computed one |
| ShardedMap.StarMap.ComputeIfPresent | src/core/sync_impl.rs:588-632 | Replaces or removes a present value by the computed result, leaves an absent key alone |
| ShardedMap.StarMap.CompareAndSwap | src/core/sync_impl.rs:1198-1240 | Swaps exactly on a match; failure carries the current value, or the new one when the key is absent |
| ShardedMap.StarMap.CompareAndRemove | src/core/sync_impl.rs:1244-1280 | Removes exactly on a match |
| Batches.ApplyLookup | src/core/sync_impl.rs:635-760 | Sequential application leaves each key with its last change |
| Batches.SelectLast | src/core/sync_impl.rs:662-669 | Bucketing by shard keeps the last change of every key |
| Batches.HitsAreGrowth | src/core/sync_impl.rs:635-760 | The returned counts are exactly the growth or shrinkage of the map |
| Batches.InsertedInOrder | src/core/sync_impl.rs:635-693 | Inserting one by one gives each key the value of its last entry and leaves the others alone |
| Batches.RemovedInOrder | src/core/sync_impl.rs:696-757 | Removing one by one removes exactly the given keys |
| Batches.BatchInsert | src/core/sync_impl.rs:635-693 | For any bucket order and on the migrating path: every key ends with the value of its last entry, every other key keeps its binding, and the count is the growth of the map; the same as inserting one by one |
| Batches.BatchRemove | src/core/sync_impl.rs:696-757 | For any bucket order and on the migrating path: exactly the given keys are gone, and the count is the shrinkage of the map; the same as removing one by one |
| Batches.InsertEach | src/core/sync_impl.rs:643-661 | The per-key migrating path leaves every key with the value of its last entry, and counts the growth |
| Batches.RemoveEach | src/core/sync_impl.rs:703-724 | The per-key migrating path removes exactly the given keys, and counts the shrinkage |
| Batches.BatchGet | src/core/sync_impl.rs:761-793 | Pointwise lookup in input order, bucketed or not |
| Batches.PositionsOf | src/core/sync_impl.rs:770-777 | A bucket holds exactly the input positions routed to its shard |
| Transactions.FootprintCovers | src/core/sync_impl.rs:1087-1107 | The lock indices are ascending, duplicate-free, and exactly those the operations route to |
| Transactions.FoldMeaning | src/core/sync_impl.rs:1127-1193 | Folding the operations in order decides each key by the last operation that changes it |
| Transactions.ExecuteTransaction | src/core/sync_impl.rs:1080-1193 | Each key ends with what its last write or removal says, a key only read or not named keeps its binding; equals folding the operation list in order; the epoch moves whenever contents change |
| WholeMap.Retain | src/core/sync_impl.rs:797-833 | Keeps exactly the matching entries of both generations, with their values |
| WholeMap.Clear | src/core/sync_impl.rs:836-869 | Empties both generations, keeps exactly the allocated active shards and ends any migration |
| WholeMap.CollectInto | src/core/sync_impl.rs:922-968 | Lists every entry of both generations exactly once, with the current epoch |
| WholeMap.CachedSnapshot | src/core/sync_impl.rs:995-1005 | Hits exactly on a matching epoch outside Clone mode, and then lists the logical map |
| WholeMap.CaptureSnapshot | src/core/sync_impl.rs:1007-1047 | Serves or rebuilds: always the logical map at the current epoch, cached unless in Clone mode |
| Rebalance.StrictShardCount | src/core/helpers.rs:61-79 | Accepts exactly the counts up to the maximum, and gives the default for zero |
| Rebalance.StartRebalanceOnline | src/core/sync_impl/rebalance_impl.rs:30-53 | Retains a running migration whatever it targets; otherwise, for a different valid count, the directory becomes the previous generation, with contents, length and epoch untouched and the telemetry of the new generation |
| Rebalance.MoveKey | src/core/sync_impl/rebalance_impl.rs:119-146 | Moves a loaded key that is provably still in its source slot; exactly one key fewer waits |
| Rebalance.LoadKeys | src/core/sync_impl/rebalance_impl.rs:108-125 | Prepares distinct keys of the source slot, at most the limit and at least one if there is one; only the clock stops it before the limit or the last key |
| Rebalance.BatchStep | src/core/sync_impl/rebalance_impl.rs:100-180 | One turn of the batch loop: moves or retires or reports an exhausted work list, and keeps the loaded keys present in the source; unless hurried they run out only with the slot or the entry budget |
| Rebalance.AdvanceRebalance | src/core/sync_impl/rebalance_impl.rs:73-197 | Contents, length and epoch untouched; both budgets respected; moved plus retired is exactly the decrease of entries plus slots; it strictly decreases if and only if migrating, unpaused, not cancelled, of the expected generation and with both budgets positive; neither hurried nor cancelled it ends the migration or uses up a budget; completion reported if and only if the batch was admitted and no migration is left; an exhausted budget if and only if it is left and the entry budget, the clock or the end of the prepared keys stopped the batch |
| Rebalance.RebalanceCooperative | src/core/sync_impl/rebalance_impl.rs:324-372 | Terminates at the requested count whatever migration was running, accepting exactly valid counts, and returns the entries that waited at the start plus the whole map if it began a generation |
| Staging.StageBoth | src/core/async_impl/rebalance_impl.rs:414-437 | Active-first-vacant-only and previous-first-overwrite staging build the same directory, the correctly routed active-wins union, even for overlapping generations |
| Staging.StageSync | src/core/sync_impl/rebalance_impl.rs:384-396 | Synchronous staging order builds the active-wins union and counts its entries |
| Staging.StageAsync | src/core/async_impl/rebalance_impl.rs:414-437 | Asynchronous staging order builds the active-wins union and counts its entries |
| Staging.StagedUnique | src/core/sync_impl/rebalance_impl.rs:384-411 | A staged directory is determined by the union it holds |
| Staging.RebalanceStaged | src/core/sync_impl/rebalance_impl.rs:373-421 | Both stop-the-world forms keep the logical map and leave a single generation of the requested count, counted as a finished generation of as many entries as the map has |
| Runs.RunScript | src/core/sync_impl.rs:362-869 | Every run of operations, batches, transactions, migrations, pauses and snapshots leaves the plain map; the migration it finds ends within as many batches with room, at positions where the last pause or resume is no pause, as it had entries plus slots left, whatever interferes; only a later generation can make the map migrate again |
| ProtocolInvariant.KeepExcluded | src/core/sync_impl.rs:192-230 | Taking only available locks keeps mutual exclusion |
| ProtocolMoves.CollectedAll | src/core/sync_impl.rs:922-968 | A builder holding every lock lists published, committed and live map alike |
| ProtocolWrites.PromoteKeeps | src/core/sync_impl.rs:219-230 | A promotion step keeps the protocol invariant |
| ProtocolWrites.PublishKeeps | src/core/mutation.rs:124-139 | Dropping a guard, which publishes all its changes at once, keeps the protocol invariant |
| ProtocolWrites.PublishedCaptures | src/core/mutation.rs:124-139 | Publishing leaves no earlier capture labelled current, unless it publishes no change |
| ProtocolWrites.MutateKeeps | src/core/sync_impl.rs:672-687 | A guard's next change keeps the invariant, be it the first or one more of a batch before its only publication |
| ProtocolCommits.CommitWhole | src/core/sync_impl.rs:1080-1193 | A commit changes the committed map at once by exactly the applied edits of one transaction: all of them, unless user code stopped it |
| ProtocolCommits.RearrangeKeeps | src/core/sync_impl/rebalance_impl.rs:73-197 | Steps under exclusive routing that rearrange entries without changing any live binding keep the invariant without an epoch move |
| ProtocolMigration.MoveRearranges | src/core/sync_impl/rebalance_impl.rs:119-146 | The batch loop's move of a waiting key is such a step |
| ProtocolMigration.RetireRearranges | src/core/sync_impl/rebalance_impl.rs:149-165 | Taking a drained source slot is such a step |
| ProtocolMigration.FinishRearranges | src/core/sync_impl/rebalance_impl.rs:166-173 | Dropping the all-retired previous directory is such a step |
| ProtocolMigration.SwitchRearranges | src/core/sync_impl/rebalance_impl.rs:30-53 | Starting a generation over empty slots is such a step |
| ProtocolMigration.RebuildRearranges | src/core/sync_impl/rebalance_impl.rs:384-411 | Publishing a staged directory is such a step |
| ProtocolMigration.MergedIsPublished | src/core/async_impl/rebalance_impl.rs:414-437 | What either staging order merges is the published map |
| ProtocolCommits.StepKeeps | src/core/sync_impl.rs:188-230 | Every step of every thread keeps the protocol invariant |
| ProtocolCommits.RunInv | src/core/sync_impl.rs:188-230 | The invariant holds in every state of every run |
| ProtocolRuns.SnapshotAtomic | src/core/sync_impl.rs:871-968 | In every interleaving a captured snapshot is the whole logical map, each key once, at one instant inside the capture when nothing is half applied |
| ProtocolRuns.CacheAgrees | src/core/sync_impl.rs:991-1005 | Whenever the cached epoch is current, the cache lists the committed map, and the live binding of every key without an unpublished change, also while guards hold several unpublished changes each |
| ProtocolRuns.CacheHitLinearizes | src/core/sync_impl.rs:995-1047 | A lock-free cache hit lists the committed map of the instant it was served |
| ProtocolRuns.ReadLinearizes | src/core/sync_impl.rs:400-428 | A two-step lookup answers with the committed and live binding of its key at an instant inside the lookup, in both branches |
| ProtocolRuns.Serializable | src/core/sync_impl.rs:1080-1193 | The committed map of every run is the serial execution of transactions and removals in commit order, a transaction stopped by user code counting with its applied operations |
| ProtocolRuns.TransactionFolds | src/core/sync_impl.rs:1127-1193 | What a committed transaction does to each key is its operation list folded in order |
| ProtocolWaits.LockPlanCovers | src/core/sync_impl.rs:1087-1126 | A transaction's plan, active shards ascending then allocated previous shards ascending, follows the lock order, covers every operation and has no lock that no operation routes to |
| ProtocolWaits.HoldsBelow | src/core/sync_impl.rs:879-893 | In every reachable state a thread waits only for locks above all it holds |
| ProtocolWaits.NoCircularWait | src/core/sync_impl.rs:910-930 | No reachable state has a circular wait, counting readers queued behind waiting writers |
| ProtocolProgress.StepOrWait | src/core/sync_impl.rs:192-230 | An unfinished operation can step, or another thread holds the lock it waits for |
| ProtocolProgress.Progress | src/core/sync_impl.rs:1087-1126 | While some operation is unfinished, some unfinished operation can take a step |
| CowStorage.CowShards.Snapshot | src/core/types.rs:33-41 | Sharing a view copies no table, holds exactly the cells of the allocated slots and counts every reference |
| CowStorage.CowShards.WriteShard | src/core/types.rs:51-58 | Writes in place exactly when no view holds the table, otherwise on a copy; no held table changes |
| CowStorage.CowShards.Drop | src/core/types.rs:33-58 | Dropping a view gives back exactly its references |
| CowStorage.CowShards.RetireShard | src/core/sync_impl/rebalance_impl.rs:156-162 | An emptied slot gives back its reference; no table changes |
| CowStorage.HoldView | src/core/types.rs:33-58 | A captured view shows its captured tables after any later run of writes, slot allocations and retirements, captures and releases, while the slots show what the run makes of them |
| CowOperations.OperationsAreScripts | src/core/sync_impl/rebalance_impl.rs:119-173 | Writes, promotions, migration moves, slot retirement, generation switches, staged rebuilds and clear are such runs; slot by slot, each leaves what the operation does: one slot written, two tables with the same union, one slot retired, slots added, only the staged slots, or empty tables |
| SnapshotViews.ViewLength | src/snapshot.rs:23-37 | The summed length of a view is the number of entries it shows |
| SnapshotViews.CaptureView | src/core/sync_impl.rs:871-919 | A view holds the tables of the allocated slots of both directories and shows each logical entry in exactly one of them, with the length, version and shard count of the capture |
| EvictionIndex.LifecycleState.RecordInsert | src/eviction/engine.rs:469-521 | A completed insert hook tracks the key with the given weight and a fresh incarnation and access; a replacement keeps the age and raises the frequency by one below saturation; any other insert starts with a fresh age and frequency one; other records, stripe weights, counter and stamp disjointness stay right |
| EvictionIndex.LifecycleState.RecordRead | src/eviction/engine.rs:523-555 | A hit on a tracked key makes it the most recent access and raises its frequency by one below saturation, and changes neither age, incarnation nor weight; a miss changes nothing |
| EvictionIndex.LifecycleState.RecordRemove | src/eviction/engine.rs:557-586 | Forgets exactly the key, swap-removal and empty-bucket cleanup included |
| EvictionIndex.LifecycleState.RecordEviction | src/eviction/engine.rs:729-760 | Forgets the candidate's own incarnation; a newer record of the key stays |
| EvictionIndex.LifecycleState.Validate | src/eviction/engine.rs:709-727 | Accepts a candidate exactly when the index is clean, the epoch unchanged and the tracked record identical to the candidate |
| EvictionIndex.LifecycleState.TotalWeight | src/eviction/engine.rs:317-326 | The stripe weights add up to the weight of all tracked records |
| EvictionIndex.LifecycleState.Reconcile | src/eviction/engine.rs:764-831 | Rebuilds from the live entries: exact keys and weights, carried age, recency and frequency, fresh incarnations, stale earlier candidates, clean afterwards |
| EvictionIndex.LifecycleState.MarkDirty | src/eviction/engine.rs:241-246 | A failure makes the index dirty and leaves work pending |
| EvictionIndex.LifecycleState.MarkMaintained | src/eviction/engine.rs:262-270 | Acknowledges observed work only: newer work stays pending |
| EvictionIndex.StampedChange | src/eviction/engine.rs:436-438 | Records made of their own stamps and a fresh one never share a stamp |
| EvictionHooks.RunHooks | src/eviction/engine.rs:469-586 | In any run of completed hooks, a key inserted new and not renewed or removed since has a frequency of one plus the hits and replacements since, up to saturation |
| EvictionOrder.PolicyMeaning | src/eviction/engine.rs:127-139 | Between distinct tracked records LRU compares last accesses, FIFO insertions, and LFU frequencies and then last accesses |
| EvictionOrder.HeadMeaning | src/eviction/engine.rs:588-616 | The head of the order is least recently used, first inserted, or least frequently and then least recently used among all tracked records |
| EvictionOrder.ReadThenRank | src/eviction/engine.rs:523-555 | After a hit every other tracked record precedes the key under LRU |
| EvictionOrder.RankTotal | src/eviction/engine.rs:127-139 | Under each of LRU, LFU and FIFO, any two tracked records are ordered one way only |
| EvictionOrder.RebuildKeepsOrder | src/eviction/engine.rs:775-799 | A rebuild keeps the relative order of already tracked keys under all three policies |
| EvictionOrder.RebuildPutsNewLast | src/eviction/engine.rs:775-799 | A key first tracked by a rebuild ranks after every carried one under LRU and FIFO |
| EvictionOrder.OrderUnique | src/eviction/engine.rs:588-616 | The sorted candidate list does not depend on iteration order |
| EvictionOrder.Candidates | src/eviction/engine.rs:588-616 | Nothing while dirty, otherwise the full eviction order |
| EvictionOrder.MinimumCandidate | src/eviction/engine.rs:620-656 | The head of the full eviction order for every policy and iteration order |
| EvictionOrder.CandidatesForKeys | src/eviction/engine.rs:661-707 | The eviction order of the given keys' records |
| EvictionVictims.VictimsSuffice | src/core/sync_impl/eviction_impl.rs:347-415 | A full pass ends within the count, weight and every destination-shard limit |
| EvictionVictims.VictimsTurn | src/core/sync_impl/eviction_impl.rs:373-406 | Under any mix of limits a record is a victim if and only if, at its turn and with the victims before it gone, the number of entries, the total weight or the size of its own destination shard is above its limit |
| EvictionVictims.VictimsAreShortestPrefix | src/core/sync_impl/eviction_impl.rs:373-406 | Without a per-shard limit the victims are the shortest prefix of the policy order that meets the limits |
| EvictionVictims.VictimsAreSurplus | src/core/sync_impl/eviction_impl.rs:373-406 | With only a per-shard limit the victims are each destination shard's lowest-ranked surplus |
| EvictionVictims.MinimumSuffices | src/core/sync_impl/eviction_impl.rs:364-371 | When one entry is one too many, the minimum alone gives the full pass's victim |
| EvictionVictims.OnlyAllVictimsSuffice | src/core/sync_impl/eviction_impl.rs:373-406 | Of all first parts of the victims, only the whole meets the limits |
| EvictionVictims.CutShort | src/core/sync_impl/eviction_impl.rs:373-406 | A pass cut short has the first of its victims, and all of them exactly from the last needed candidate on |
| EvictionVictims.PartIsShardOrder | src/eviction/engine.rs:661-707 | A shard's part of the global order is the order of the shard's own records |
| EvictionPasses.EvictKey | src/core/sync_impl/eviction_impl.rs:386-406 | Removes a key from whichever generation has it, with one write record |
| EvictionPasses.EvictNext | src/core/sync_impl/eviction_impl.rs:373-406 | One turn of the check-and-remove loop, counters and cached overweight flag kept exact |
| EvictionPasses.CountPerShard | src/core/sync_impl/eviction_impl.rs:351-360 | Counts entries of both generations by destination shard |
| EvictionPasses.SelectCandidates | src/core/sync_impl/eviction_impl.rs:361-373 | None, the minimum or all candidates: always the victims of a full pass |
| EvictionRuns.ExclusivePass | src/core/sync_impl/eviction_impl.rs:347-415 | The synchronous pass removes the first of the specified victims from map and index, which stay in agreement; all of them, and the limits met, if and only if no other thread marks a failure up to the last look that is needed |
| EvictionRuns.RemoveExcess | src/core/sync_impl/eviction_impl.rs:373-406 | The check-and-remove loop takes the first of the chosen candidates, all of them exactly when no failure is marked before the last needed look |
| EvictionRuns.PlanEvictions | src/core/async_impl/eviction_impl.rs:350-406 | Planning on simulated counters, which never go below zero, picks the same victims |
| EvictionRuns.CommitPlan | src/core/async_impl/eviction_impl.rs:414-436 | Commits the first part of the plan, all of it exactly when no failure is marked meanwhile |
| EvictionRuns.PlannedPass | src/core/async_impl/eviction_impl.rs:333-437 | The asynchronous plan-then-commit pass evicts the same victims as the exclusive pass, or the first of them when a failure is marked meanwhile; the limits are met if and only if none is marked up to the last commit |
| EvictionLocal.LocalPass | src/core/sync_impl/eviction_impl.rs:297-345 | Shard-local trimming evicts the same victims, shard by shard in the same order, as an exclusive pass with the same limit; if a failure is marked meanwhile, the first of those in every shard, and a repair is due |
| EvictionLocal.TrimShard | src/core/sync_impl/eviction_impl.rs:313-328 | An overfull shard loses exactly its lowest-ranked surplus, or the first part of it when a failure is marked meanwhile; a failure marked after the last eviction still makes a repair due |
| EvictionLocal.PerShardPass | src/core/async_impl/eviction_impl.rs:179-262 | The asynchronous per-shard pass, which plans every overfull shard before deleting, evicts the same victims |
| EvictionRetry.RetryFinishes | src/core/sync_impl/eviction_impl.rs:329-346 | What an interrupted shard-local pass took, and what the exclusive pass over the repaired index takes, are together exactly the victims of an uninterrupted pass |
| EvictionMaintenance.RepairIndex | src/core/sync_impl/eviction_impl.rs:251-266 | Whatever hooks were skipped, the index agrees with the map again; carried records keep age, recency and frequency |
| EvictionMaintenance.Target | src/core/sync_impl/eviction_impl.rs:277-280 | The smaller of the requested and the configured target, or whichever exists |
| EvictionMaintenance.RunEviction | src/core/sync_impl/eviction_impl.rs:268-416 | From any state, whatever failures came before it or interrupt its shard-local part: exactly the victims of the policy order of the index, repaired if it was dirty, go, and none if the limits held; the survivors keep value, age, recency and frequency, in agreement with the index; every limit satisfied and nothing pending. If a failure is marked during its exclusive part only some victims may be gone, and the work stays pending |
| EvictionMaintenance.EnforceLimits | src/core/sync_impl/eviction_impl.rs:297-406 | The shard-local pass when only shard sizes matter, with the exclusive retry when a failure interferes: what goes are victims, in the policy order, of the one index it found or repaired first; all of them, and every limit satisfied, unless the index ends dirty again; the others keep age, recency and frequency |
| EvictionMaintenance.EnforceExclusively | src/core/sync_impl/eviction_impl.rs:347-415 | After whatever repair is due, exactly the first part of the victims in the policy order of the repaired index goes; all of them, and the limits met, if and only if no failure is marked up to the last needed look |
| EvictionMaintenance.MarkedTooEarly | src/eviction/engine.rs:709-712 | With one entry too many, a failure marked before the candidates are selected or validated makes the pass return over its limit with the work pending |
| EvictionMaintenance.OneTooMany | src/eviction/engine.rs:592-594 | In that smallest case the needed looks are exactly selection and validation, and in the planned form planning too |
| EvictionCache.RunCache | src/core/sync_impl.rs:260-338 | Over every run with completed and interrupted hooks, retain and clear included, each action does to map and index exactly what it says, and maintenance evicts exactly the victims of the policy order or, if it ends dirty, some of them; a clean index agrees with the map; a run ending in maintenance ends in agreement, and clean, within limits and with nothing pending unless a failure was marked during the exclusive part of that pass |
| EvictionRecovery.StepKeeps | src/eviction/engine.rs:163-177 | Every interleaved step of operations, failures, retain and clear, and exclusive, shard-local and routing-free passes keeps the recovery invariant |
| EvictionRecovery.CleanMeansAgreed | src/eviction/engine.rs:226-270 | In every run, whenever the index is not dirty it agrees with the data on every key without an outstanding hook |
| EvictionRecovery.EpochsOrdered | src/eviction/engine.rs:226-270 | Repairs never exceed failures and acknowledgements never exceed work |
| EvictionRecovery.DirtyUntilSeen | src/eviction/engine.rs:764-831 | A failure keeps the index dirty until a repair that observed it is published |
| EvictionRecovery.PendingUntilObserved | src/eviction/engine.rs:252-270 | Whichever kind of pass acknowledges, evicting after its sample or not, work is acknowledged only through a sample taken after it was announced |
| Replication.BuiltinsValid | src/advanced.rs:342-372 | Strict and majority configurations are valid exactly for nonempty topologies, and bound every valid write quorum; majority reads and writes meet |
| Replication.WriteQuorumsMeet | src/advanced.rs:365-372 | Any two write quorums of a valid configuration share a member |
| Replication.AcceptedByQuorum | src/core/replication.rs:100-121 | An accepted write is acknowledged by a write quorum of distinct members, exactly the primary and the replicas that succeeded, which meets every other write quorum |
| Replication.ValidateTopology | src/core/replication.rs:43-68 | Accepts exactly a nonzero timeout, a write majority and a nonempty read quorum within a nonempty topology, matching counts and distinct handles, and reports the first violated rule |
| Replication.ReplicateToQuorum | src/core/replication.rs:80-129 | Exactly one verdict for every order of replies and deadline, sent as soon as it is certain; the final fallback is reached exactly without replicas and with a quorum above one |
| Replication.FailureIsFinal | src/core/replication.rs:117-122 | After a quorum failure no continuation of the replies could have reached the quorum |
| Replication.ValidatedVerdict | src/core/replication.rs:80-129 | For a validated topology the fallback is unreachable, and the verdicts mean exactly reached, out of reach, undecided at the deadline |
| Replication.OrderIndependent | src/core/replication.rs:100-123 | Replies in another order give the same verdict |
| ReplicationOrder.StepKeeps | src/core/replication.rs:80-129 | Every step of writers, coordinators, timeouts and cancellations keeps the ordering invariant |
| ReplicationOrder.ReplicasFollowPrimary | src/core/replication.rs:203-295 | In every run each replica's call log is a subsequence of the primary's application order |
| ReplicationOrder.CallsNeverOverlap | src/core/replication.rs:80-129 | When a remote call starts, no other operation's fanout is live and its operation is the latest applied |
| ReplicationOrder.AnswersAreJudgements | src/core/replication.rs:70-129 | In every run a finished operation's verdict is the judgement on the replies before its deadline, and its caller is told that verdict and no other |
| ReplicationOrder.AcceptedIsReplicated | src/core/replication.rs:100-121 | A caller told that its write was accepted has it on the primary and called with success on distinct replicas, a quorum together |
| ReplicationOrder.AbandonedLeaveNoTrace | src/core/replication.rs:203-231 | An operation that times out or is cancelled before application reaches neither the primary nor any replica |

## Left out

- Wrap-around of 64-bit epochs, stamps and counters, and of the 128-bit weight sums; only the saturating frequency counter is modelled with its bound.
- src/core/async_impl.rs: it repeats the synchronous algorithms over asynchronous locks; only its staged rebuild and its eviction passes are modelled, for the equivalences.
- A bucketed batch is one writer for each bucket in the lock protocol; that it pins routing from bucket to bucket is not used, and no atomicity across buckets is claimed.
- Rollback of transactions stopped by a panic: the applied operations stay, as the repository documents, and the lock protocol keeps them.
- Write records inside retain, clear and eviction are one removal step with one publication in the lock protocol; the sequential model counts them one by one.
- The memory orderings of atomics, lock poisoning and the internals of hash tables are taken as correct and sequentially consistent.
- Worker threads, leases, condition variables, pause telemetry and the periodic eviction scheduler.
- Eviction callbacks, metrics, deferred destruction of retired keys and values, and panic payloads.
- Parallel collection, serialization wrappers, entry handles, iterators, statistics, constructors and clamped shard counts.
- Eviction passes over map and index together run against failure marks of other threads only; their interleaving with other changes of the data is in the recovery machine, which knows keys and weights but no ranks.
- Dropping the last map handle, which cancels pending replica work: the ordering theorems are about maps that stay alive.
- Metadata hooks are atomic: two read hooks of one key racing on the access stamp are not split.
- ReplicationOrder.CallsNeverOverlap: is about fanouts of operations, so a coordinator that is cleaning up after its deadline counts as live until it releases the order.
