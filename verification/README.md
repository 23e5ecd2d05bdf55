# Verification of the studio's core

A Dafny model of four parts of Creative AI Studio, with proofs about every
interleaving, every input or every reachable state of each.

- **Runtime cache** (`RuntimeTable`, `CacheModel`, `CacheSystem`, `CacheProofs`,
  `CacheSteps`, `CacheBudget`, `CacheTheorems`, `CacheProgress`, `CacheGuarantees`,
  `CacheRecency`, `CacheWitness`, `CacheAdmission`, `ModelRuntimeCache`). Each short critical section of
  the cache is one atomic step; callers, in-flight retirements, slow cleanups and
  parked waiters are part of the state. The class `ModelRuntimeCache` runs the same
  operations start to end on its fields and is proved against the same sections.
- **Jobs** (`JobStatuses`, `JobRuns`, `JobProofs`, `JobGuarantees`, `JobOutcomes`, `JobRunner`,
  `JobCancel`, `JobQueue`, `JobCreation`, `StartupRecovery`). A worker is a program whose every access
  to the job table is one step; many workers, cancels, failures, storage faults,
  duplicate deliveries and restarts interleave. `JobRunner` is one such call written
  out as code under a rely condition, proved to take the worker's very path.
- **Batches** (`BatchRuns`, `BatchProofs`, `BatchSteps`, `BatchGuarantees`,
  `BatchSections`, `BatchWitness`, `BatchMissed`, `BatchStage`, `BatchStatus`, `BatchAdvance`, `Expansion`, `Refinement`,
  `RefinementExact`, `Sorting`). The repository lock is explicit: acquire, read, one step
  per item, save or enqueue, release, with job rows changing in between, workers taking
  ids and putting them back, and crashes followed by a startup recovery anywhere.
- **Audio** (`AudioEnvelope`). Ducking and envelope loops on arrays of reals.

Files are maps and rows are statuses. The outside (storage faults, undecodable rows,
what a generator does, which cleanup raises, the sampler's choice) enters as
parameters or as free choices of a step, so a theorem holds for all of them.

## Where the code does not do what it says

Six promises turned out false of the code. Each has a concrete input and the exact
condition under which it holds.

- *A victim is never wasted* (core/models/cache.py:586-616). An INVALID entry under the
  requested id may live in another media bucket, or in a requested bucket that is over its
  budget; it is retired although the requested bucket stays full. `CacheWitness.VictimCanBeWasted`, `CacheBudget.VictimIsWorthIt`.
- *A claimed job is terminal on return* (core/jobs/runner.py:403-409). A generator that
  raises GenerationCancelled for a job nobody cancelled leaves it `running` with no
  worker. `JobGuarantees.UnaskedStopStrands`, `JobGuarantees.ReturnIsTerminal`.
- *Startup never enqueues a child of a cancelled batch, and a second pass changes
  nothing* (core/jobs/startup_recovery.py:380-407). `cancel()` marks an item whose row
  does not exist yet; if the row is inserted right after and the process dies before the
  refused exposure cancels it, the restart skips the item as already over and the final
  sweep enqueues its row. `BatchWitness.CrashLeavesStaleChild` is a run from an empty
  directory that ends so; `StartupRecovery.OnlyStaleChildrenSurvive` and
  `BatchGuarantees.CancelledChildBecomesPending` say exactly when it happens.
- *Completion done means the batch has the outcome* (core/jobs/completion.py:482-534). If
  the row of a succeeded job becomes undecodable between the read that finds it terminal
  and the copy of its status, the item is left as it is and completion is recorded all the
  same. `BatchMissed.CompletionCanMiss`, `BatchGuarantees.MissedExactly`.
- *A refinement reproduces its winner* (core/batches/expansion.py:39-50). Batch files are
  written with sorted keys (core/storage/json_files.py:51), so a later stage visits axes
  and patch entries in alphabetical order, whatever order they were declared in.
  `Refinement.RefinementCanDiffer`, `RefinementExact.ReproducesExactly`.
- *A cancelled batch whose items are all over is finished* (core/batches/service.py:1863).
  A batch without items reads as queued. Validation forbids one, but overrides are
  applied without it (apps/api/routes/batches.py:187-189), and a sample of zero items is
  then accepted. `BatchAdvance.EmptyBatchReadsQueued`, `BatchAdvance.OnlyZeroSamplesAreEmpty`,
  `BatchStatuses.CancelledBatchEnds`.

## Model

| member | source | states |
|---|---|---|
| `CacheTheorems.StepKeepsInv` | core/models/cache.py:223-747 | every critical section, taken in any reachable state by a caller that follows the protocol, keeps leases, reservations, retirements, runtimes, budgets and parked waiters consistent |
| `CacheTheorems.RunKeepsInv` | core/models/cache.py:223-747 | the same over any run of interleaved sections |
| `CacheTheorems.ReachableInv` | core/models/cache.py:124-166 | every state reachable from an empty cache satisfies that invariant |
| `CacheGuarantees.LeasedRuntimesAreSafe` | core/models/cache.py:364-443 | an outstanding lease is on the entry the table holds, the lease count is the number of outstanding handles, the entry is neither RETIRING nor removed, and its runtime is neither cleaned nor due for cleanup |
| `CacheSteps.ReleaseFindsItsLease` | core/models/cache.py:700-706 | a release by a holder finds its own object with a positive count: the stale branch and the clamp at zero are never taken |
| `CacheGuarantees.RuntimesAreConserved` | core/models/cache.py:306-362 | a runtime given to the cache is in one uncleaned entry, or waiting for one cleanup, or cleaned once, and never two of these |
| `CacheGuarantees.RetirementsFinish` | core/models/cache.py:1071-1119 | a RETIRING entry stays under its id until the operation that marked it removes it; its cleanup and removal are always possible, and no other step removes it |
| `CacheGuarantees.BucketsFitOrArePinned` | core/models/cache.py:1044-1069 | in every reachable state a bucket fits its budget or at most one of its entries is idle |
| `CacheBudget.ReservationsEnterWithRoom` | core/models/cache.py:562-616 | in any table whatever, a reservation is only inserted where the raw occupancy was below budget, as one LOADING entry at the end |
| `CacheBudget.OverflowIsExact` | core/models/cache.py:1044-1069 | an overflow pass retires exactly min(excess, idle others), and no idle entry older than a retired one is left |
| `CacheBudget.OverflowFits` | core/models/cache.py:987-1069 | after an overflow pass the bucket fits, or only the excluded entry is idle |
| `CacheBudget.PickedVictim` | core/models/cache.py:921-985 | a victim picked for a reservation is the oldest idle entry of an exactly full bucket |
| `CacheAdmission.SelectionIsExact` | core/models/cache.py:921-985 | in the counts of the bucket alone: room if and only if occupancy is below budget; a victim, the first idle entry, if and only if there is no room, the live entries are exactly the budget and one is idle |
| `CacheAdmission.FirstSectionIsExact` | core/models/cache.py:501-585 | the first section hits every READY entry with one more lease, is busy on LOADING and RETIRING ones, retires an idle INVALID one, and for an unknown id reserves, retires or refuses exactly as the counts say |
| `CacheAdmission.SecondSectionIsExact` | core/models/cache.py:586-616 | after the cleanup the id is reserved if and only if it is still unknown and occupancy is below budget |
| `CacheAdmission.FullBucketAdmits` | core/models/cache.py:921-985 | a bucket full of live entries, one idle and none RETIRING, admits a new id by retiring its first idle entry |
| `CacheAdmission.BucketsArePerMedia` | core/models/cache.py:233-252 | a media type with its own limit has a bucket of its own with that budget; all others share the default bucket and budget |
| `CacheBudget.VictimIsWorthIt` | core/models/cache.py:586-616 | with no other retirement in the bucket, the recheck admits the reservation if and only if the bucket without the victim is below budget; a victim picked for capacity is never wasted |
| `CacheBudget.OwnBucketIsWorthIt` | core/models/cache.py:562-616 | an entry replaced within its own fitting bucket is always followed by a reservation |
| `CacheWitness.VictimCanBeWasted` | core/models/cache.py:540-616 | a reachable state in which a victim is retired and the reservation is refused all the same |
| `CacheGuarantees.WakeupsAreNotLost` | core/models/cache.py:702-714 | a step that ends what a waiter waits for is the release or the removal of that very object, and it wakes everybody; parked waiters are always still blocked |
| `CacheGuarantees.BlockingSurvives` | core/models/cache.py:856-870 | no other step can end a wait |
| `CacheGuarantees.WaitingAndStaleReleases` | core/models/cache.py:856-870 | a caller waits exactly for an object that is still current and leased or RETIRING; the release of one that is gone changes nothing in the cache |
| `CacheProgress.RunProgress` | core/models/cache.py:742-747 | over any run an entry object only moves LOADING, READY, INVALID, RETIRING, removed, and a later object under the same id has a greater generation |
| `CacheGuarantees.GenerationsIdentifyEntries` | core/models/cache.py:872-879 | two entries of one id seen at two moments are the same object if and only if their generations agree |
| `CacheGuarantees.ReservationsAreNeverLost` | core/models/cache.py:618-647 | publishing a reservation always succeeds and pins the entry |
| `CacheRecency.EvictionIsLeastRecentlyUsed` | core/models/cache.py:987-1069 | over the log of uses of a whole run, no idle entry that overflow leaves was last used before one it retires |
| `RuntimeTable.RetireFirstUnroll` | core/models/cache.py:1044-1069 | retiring one entry at a time with a rescan in between marks the same entries as one pass over the first ones |
| `ModelRuntimeCacheClass.ModelRuntimeCache.EvictBucketOverflow` | core/models/cache.py:1044-1069 | the loop leaves the table and the victims of the overflow pass as specified, oldest first |
| `ModelRuntimeCacheClass.ModelRuntimeCache.FinishRetirement` | core/models/cache.py:1071-1134 | cleanup is called once, the entry is removed and all waiters are woken whatever cleanup raises, and the raise is reported |
| `ModelRuntimeCacheClass.ModelRuntimeCache.FinalizeAll` | core/models/cache.py:343-362 | every victim is cleaned and removed in order with one wakeup each, and the first raise is reported after all of them |
| `ModelRuntimeCacheClass.ModelRuntimeCache.Put` | core/models/cache.py:223-362 | refuses a busy entry and changes nothing, or installs the runtime, cleans up the replaced runtime and every overflow victim, and reports the first raise |
| `ModelRuntimeCacheClass.ModelRuntimeCache.Unload` | core/models/cache.py:364-383 | refuses a busy entry, ignores an unknown id, and removes an idle one even if its cleanup raises |
| `CacheProofs.UnloadAllOrNone` | core/models/cache.py:385-443 | the section of `unload_all` marks every entry if all are idle, and none as soon as one is leased, LOADING or RETIRING |
| `ModelRuntimeCacheClass.ModelRuntimeCache.UnloadAll` | core/models/cache.py:385-443 | all or nothing: any busy entry leaves the table untouched, otherwise it ends empty with every runtime cleaned in order |
| `ModelRuntimeCacheClass.ModelRuntimeCache.AcquireOrReserve` | core/models/cache.py:461-616 | an entry is retired exactly if it is the idle INVALID one under the id, or, for an unknown id, the first idle entry of a bucket whose live entries just fill its budget and whose occupancy leaves no room; the call then hits a READY entry with one more lease, waits for a pinned INVALID one, reserves if and only if there is room or the retirement makes it, and is busy otherwise; victims are cleaned and gone even if cleanup raised, and the raise is returned |
| `ModelRuntimeCacheClass.ModelRuntimeCache.PublishReadyAndPin` | core/models/cache.py:618-647 | the reservation becomes READY with one lease at the end of the order, or the call is refused unchanged |
| `ModelRuntimeCacheClass.ModelRuntimeCache.ReleaseLease` | core/models/cache.py:667-729 | a stale handle changes nothing; otherwise one decrement, a notification, and the cleanup of what the overflow pass retires |
| `ModelRuntimeCacheClass.ModelRuntimeCache.MarkInvalid` | core/models/cache.py:731-747 | only the current READY object is marked |
| `ModelRuntimeCacheClass.RemoveEachMembers` | core/models/cache.py:343-362 | after the finalizations exactly the entries that were not victims remain |
| `JobStatuses.ReachableStatuses` | core/jobs/statuses.py:76-104 | following the transition table any number of times reaches exactly the closed form `CanBecome` |
| `JobStatuses.TableContract` | core/jobs/statuses.py:13-27 | terminal statuses are absorbing, nothing returns to queued, cancel_requested never succeeds, and every change raises the rank |
| `JobStatuses.UpdateFollowsTable` | core/storage/repositories/job_repository.py:280-342 | whatever statuses a caller expects, an update writes its target exactly on an expected row the table lets follow, and leaves every other row alone |
| `JobProofs.StepFollowsTable` | core/jobs/runner.py:330-486 | each access of a worker changes its row along one edge of the table and leaves the worker where its next position is justified |
| `JobProofs.StepOwnership` | core/jobs/runner.py:445-456 | ownership begins with winning the claim of a queued row and nowhere else; only an owner on its way enters the generator; a worker without ownership changes no row that is neither queued nor corrupt |
| `JobProofs.OutsideExact` | core/storage/repositories/job_repository.py:280-342 | what creation, cancel, failing, finalizing and repair do to every row: a row appears queued, a cancel moves the status it read, a failure any expected one, and nothing else changes |
| `JobProofs.QueueStepsExact` | core/jobs/queue.py:67-101 | enqueueing adds an id, dequeueing hands it to a free worker at its first read, a restart forgets queue and workers, nothing else touches them |
| `JobProofs.OutsideIsFree` | core/jobs/service.py:670-731 | creations, cancels, failures, repairs and restarts may come at any time, whatever workers do |
| `JobProofs.StepChangesByEdges` | core/storage/repositories/job_repository.py:280-342 | every status change by claim, run, cancel, finalize, fail, quarantine or repair is an edge of the table or corrupt to failed |
| `JobProofs.StepKeepsInv` | core/jobs/runner.py:88-486 | every step of every worker and of the outside keeps ownership unique, positions justified and the queue complete |
| `JobProofs.RunKeepsInv` | core/jobs/runner.py:88-486 | the same over whole runs |
| `JobGuarantees.GeneratorEnteredOnce` | core/jobs/runner.py:337-356 | over any run with duplicate deliveries, racing workers, requeues, cancels and restarts a job's generator is entered at most once |
| `JobGuarantees.RunFollowsTable` | core/jobs/statuses.py:76-127 | over any run a row only moves as the table allows |
| `JobGuarantees.OutcomesAreFinal` | core/jobs/service.py:670-731 | a terminal job stays as it is, a job seen cancelled or asked to cancel never succeeds later, and nothing becomes queued again |
| `JobGuarantees.ReturnKeepsWork` | core/jobs/runner.py:96-160 | under arbitrary faults, an id `run_once` is through with is pending again, or its row is missing or not queued |
| `JobGuarantees.QueueLosesNothing` | core/jobs/runner.py:238-290 | at every moment an enqueued job that is still queued is in the queue or in the hands of a worker that has not claimed it |
| `JobGuarantees.DeliveriesEnd` | core/jobs/runner.py:330-486 | a delivery takes fewer than fourteen steps of its worker, whatever others do |
| `JobGuarantees.ReturnIsTerminal` | core/jobs/runner.py:375-443 | a claimed job is terminal on return if and only if neither an unasked GenerationCancelled nor a failed last-resort write ended the call |
| `JobGuarantees.NobodyIsStranded` | core/jobs/runner.py:375-443 | if generators stop only when asked and the last write does not fail, no job is ever in progress without a worker that owns it, over any run |
| `JobGuarantees.FreshStartIsSettled` | core/jobs/startup_recovery.py:268-289 | a process that starts with nothing in progress satisfies the premise of the theorem above |
| `JobGuarantees.UnaskedStopStrands` | core/jobs/runner.py:403-409 | a run in which an unasked GenerationCancelled leaves a job running with no worker and an empty queue |
| `JobOutcomes.CancelWins` | core/jobs/runner.py:458-478 | left alone, an owner at any position turns a requested cancel into cancelled, except after its last look at the row, where it fails it |
| `JobOutcomes.UndisturbedOutcome` | core/jobs/runner.py:330-437 | an undisturbed delivery ends succeeded if the generator returns and failed if it raises |
| `JobOutcomes.ReadsBeforeTheClaim` | core/jobs/runner.py:96-160 | an undecodable row leads to quarantine, any other failure before the claim back to the queue, a queued row to the claim, and every other row to nothing |
| `JobOutcomes.PoisonIsQuarantined` | core/jobs/runner.py:200-290 | an undecodable row is failed if it is queued or corrupt and left alone otherwise |
| `JobRunner.Table.ProcessJob` | core/jobs/runner.py:330-443 | one call, with interference and faults at every access, takes exactly the path of the machine's worker: same row, same number of accesses, same entry into the generator, same failure before the claim; it writes nothing unless its first write is the claim; what it claimed is terminal on return except for a GenerationCancelled on a row still running, or a last write that raised after an earlier fault; with no fault and a generator that does not break it never writes failed; a single cancel at any moment up to the last look makes it cancelled; undisturbed, succeeded, failed or running as the generator ends |
| `JobRunner.Table.RunClaimed` | core/jobs/runner.py:352-414 | from the claim to the end of the try block it follows the machine; terminal unless an access raised or a GenerationCancelled met a running row; a single cancel between the claim and the last look ends cancelled |
| `JobRunner.Table.RunGenerator` | core/jobs/runner.py:375-398 | from preparing to the generator's end it follows the machine: entered exactly if the update to running matched and did not raise, over exactly unless it was entered and the generator returned; it raises only if an access did; a single cancel up to its end ends cancelled |
| `JobRunner.Table.HandleCrash` | core/jobs/runner.py:399-412 | what the generator's part raised becomes failed, or cancelled if the look in the handler finds a cancel |
| `JobRunner.Table.WrapUp` | core/jobs/runner.py:414-437 | after the generator returned, the job is terminal unless an access raised, never failed unless one did, cancelled if a cancel comes before the commit, and succeeded undisturbed; it follows the machine |
| `JobRunner.Table.CommitSuccess` | core/jobs/service.py:635-668 | a cancel landing before the commit is finalized by the owner: cancelled, never failed unless an access raised; without one, succeeded |
| `JobRunner.Table.ResolveClaimFailure` | core/jobs/runner.py:458-486 | after any post-claim exception it follows the machine: terminal unless the last update raised; undisturbed a requested cancel ends cancelled and anything else unfinished failed |
| `JobCancel.CancelJob` | core/jobs/service.py:685-714 | the retry loop ends within five turns because each lost update means a higher rank; it ends with a won update to the right target, or with nothing left to cancel |
| `JobCancel.CancelIsDecisive` | core/jobs/service.py:670-731 | after the call the job never succeeds unless it had succeeded already |
| `JobQueues.JobQueue.Enqueue` | core/jobs/queue.py:67-89 | refuses an unknown lane or an id pending elsewhere, is idempotent in the same lane, and otherwise appends; map, lanes and FIFO history stay in agreement |
| `JobQueues.JobQueue.Dequeue` | core/jobs/queue.py:91-101 | gives out the oldest id of the lane and forgets its lane; what was accepted stays delivered plus pending |
| `JobQueues.JobQueue.Size` | core/jobs/queue.py:103-117 | the lane's length, or the sum, which is the number of distinct pending ids |
| `JobQueues.JobQueue.ResolveLane` | core/jobs/queue.py:119-132 | fails exactly for an unknown lane, or for no lane on a queue with several |
| `StartupRecovery.Recovery.Run` | core/jobs/startup_recovery.py:202-409 | one pass from any disk: every row ends as `WhoEndsHow` says, new rows are exactly the missing children of live batches that may be made, queued; with readable batch files the queue holds exactly the queued rows, otherwise exactly the children asked for that may be exposed, once each; items follow their rows |
| `StartupRecovery.WhoEndsHow` | core/jobs/startup_recovery.py:202-289 | who ends succeeded, queued, cancelled and failed, each if and only if, by status, decodability, owner and its cancellation |
| `StartupRecovery.Recovery.QuarantinePoison` | core/jobs/startup_recovery.py:202-238 | every undecodable row is settled by its raw status and its batch, and the batch is reconciled |
| `StartupRecovery.Recovery.ResumeCancellations` | core/batches/service.py:1477-1525 | every child of a cancelling batch not recorded as over gets the cancel signal |
| `StartupRecovery.SignalExact` | core/batches/service.py:1477-1525 | the cancel signal changes a child exactly if its item is not over and its row is queued, or in progress and decodable: to cancelled, or to cancel_requested |
| `StartupRecovery.Recovery.ResumeStages` | core/batches/service.py:1527-1600 | rows are made exactly for the missing children that may be made, and exactly the children asked for that are queued, decodable and in a live batch are handed over |
| `StartupRecovery.Recovery.FinalizeInterrupted` | core/jobs/startup_recovery.py:268-289 | interrupted rows fail, requested cancels are finalized, nothing else changes |
| `StartupRecovery.Recovery.Sweep` | core/jobs/startup_recovery.py:396-407 | exactly the decodable queued rows are added to the queue, none twice |
| `StartupRecovery.NothingInProgress` | core/jobs/startup_recovery.py:202-409 | after a pass every row is queued or terminal |
| `StartupRecovery.RecoveryFollowsTable` | core/jobs/startup_recovery.py:483-520 | what recovery makes of a row is a path of the transition table |
| `StartupRecovery.CancellationTakesPrecedence` | core/jobs/startup_recovery.py:531-628 | a queued child of a cancelling batch ends cancelled, decodable or not, unless it is stale |
| `StartupRecovery.RunnableWorkIsKept` | core/jobs/startup_recovery.py:268-289 | outside cancelling batches a decodable row is queued after the pass if and only if it was before; interrupted rows fail and requested cancels are finalized |
| `StartupRecovery.OnlyStaleChildrenSurvive` | core/jobs/startup_recovery.py:380-407 | a child of a cancelling batch is still queued after a pass if and only if its item said it was over while its row was queued, and no undecodable sibling caused a reconcile |
| `StartupRecovery.SecondPassChangesOnlyStale` | core/jobs/startup_recovery.py:202-409 | a second pass changes the status of a row if and only if the first one missed it in that way |
| `StartupRecovery.StaleChildIsEnqueued` | core/jobs/startup_recovery.py:396-407 | a disk on which recovery leaves a child of a cancelled batch queued |
| `BatchWitness.CrashLeavesStaleChild` | core/batches/service.py:1406-1416 | a run from an empty directory through creation, id assignment, cancellation, insertion, crash and restart after which a cancelled batch's child is pending; the disk at the restart is stale |
| `BatchSteps.ExposureIsClear` | core/batches/service.py:684-695 | a decision to expose a job was taken on files in which no owner of the job is being cancelled |
| `BatchSteps.ShortcutHasNoOwner` | core/jobs/completion.py:631-645 | the ownership-index shortcut is taken only for a job no batch owns, although the scan is lock-free and file by file |
| `BatchSteps.OneOwner` | core/batches/repository.py:361-389 | a job id is owned by at most one batch |
| `BatchSteps.StepKeepsInv` | core/batches/repository.py:111-261 | every step under or outside the lock keeps the files, working copies, ids and known outcomes consistent |
| `BatchSteps.RunKeepsInv` | core/batches/repository.py:111-261 | the same over whole runs |
| `BatchSections.CancelIntentExact` | core/batches/service.py:1278-1400 | a cancellation marks exactly the items without a child and the unfinished ones whose child has no row or an undecodable queued one |
| `BatchSections.CancelIntentRow` | core/batches/service.py:1340-1410 | the only row it changes is such an undecodable queued one, which becomes cancelled |
| `BatchSections.AssignExact` | core/batches/service.py:412-443 | exactly the items of the stage without an id that are not over get one |
| `BatchSections.ReconcileExact` | core/batches/service.py:1030-1131 | a reconciliation copies the status of every row that can be decoded, failed or was cancelled, and changes nothing else of an item |
| `BatchSections.LookExact` | core/batches/service.py:648-758 | what the first look under the lock leads to: an exposure exactly for a queued job whose owner was read and is live, or that certainly has none; a lesson exactly if certainly nobody owns it; a walk over the file for anything else that can be read |
| `BatchSections.WalkStep` | core/batches/repository.py:111-261 | a walk changes one item of the working copy at a time, and generates an id exactly for an item that gets it |
| `BatchSections.SaveStep` | core/batches/repository.py:111-261 | a save replaces the file as a whole or fails as a whole; only a written one makes ids durable, and only a converging reconciliation teaches |
| `BatchSections.EnqueueStep` | core/jobs/service.py:563-582 | an exposure puts the id in the queue exactly if its row can be read and is not cancelled |
| `BatchSections.RestartStep` | core/jobs/startup_recovery.py:202-409 | a new process has no lock, no threads and nothing in hand; every row is as recovery leaves it, or as it was where its quarantine failed; pending are exactly the decodable queued rows, if every batch could be read |
| `BatchSections.DiskExact` | core/jobs/startup_recovery.py:202-289 | recovery works on every row it can settle, on the children of every readable batch with what is recorded for them, and on the cancellations it can read |
| `BatchSections.SectionsGoOn` | core/batches/repository.py:111-261 | whoever holds the lock can always go on to release it; a stage is added exactly when the current one is over, another is planned and nobody cancelled |
| `BatchSections.LooksGoOn` | core/batches/repository.py:361-389 | the first look can be taken whatever files cannot be read |
| `BatchSections.ListingsGoOn` | core/jobs/completion.py:631-645 | a listing can read every file, or fail to, and concludes about a job exactly when all were read and none owns it |
| `BatchSections.LockSteps` | core/batches/repository.py:111-261 | the lock is taken when free, an exception only leads to its release, and only a lesson outlives the section |
| `BatchSections.ReadStep` | core/batches/repository.py:111-261 | a creation or deletion is written at the first look, everything else is decided by it |
| `BatchSections.FinishStep` | core/batches/service.py:1210-1275 | a walk ends with its copy as it is, or with new pending items of the next stage and the stage counted up |
| `BatchSections.CompletionSteps` | core/jobs/completion.py:482-534 | completion is recorded by the thread that carries the lesson, for its job, and by a listing, for the job it concluded about |
| `BatchSections.ListingSteps` | core/jobs/completion.py:631-645 | a listing starts with every file and no owner; each file it reads adds the ids it owns, and one it cannot read makes it unreliable |
| `BatchSections.HandSteps` | core/jobs/runner.py:96-160 | a pending id can be taken, and a taken one put back or let go |
| `BatchSections.InsertionSteps` | core/jobs/service.py:207-246 | a child's row appears queued once its batch was seen live and its id is durable, and not twice; another job's under an id nobody has |
| `BatchSections.RowSteps` | core/storage/repositories/job_repository.py:280-342 | rows move along the table at any moment, and become undecodable and decodable again |
| `BatchSections.PreCheckStep` | core/batches/service.py:500-530 | a child is cleared for insertion exactly by a look that finds its batch live |
| `BatchSections.AnyoneMayAsk` | core/batches/service.py:648-758 | what callers know when they ask: a new batch has no children, a converging reconciliation is for a job read as over, an exposure is for the batch that holds the id durably |
| `BatchGuarantees.ExposureIsAuthorized` | core/batches/service.py:648-758 | whenever a job becomes pending it is by a section holding the lock at a moment when no owner of it is being cancelled, by the creation of a job no batch owns, by the worker that was handed it, or by the sweep of a restart that could read every batch |
| `BatchGuarantees.CancelledChildBecomesPending` | core/jobs/runner.py:96-160 | a child of a batch whose cancellation is durable becomes pending if and only if the worker that was handed it puts it back, or a restart finds it stale |
| `BatchGuarantees.RestartSweeps` | core/jobs/startup_recovery.py:380-407 | the sweep of a restart picks up a child of a cancelled batch if and only if it is stale |
| `BatchGuarantees.CancelledChildrenStayHidden` | core/batches/service.py:1277-1438 | once a batch's cancellation is durable, a child that is neither pending nor in a worker's hands stays out of both, over any run in which no restart finds it stale |
| `BatchGuarantees.CancelledBatchIsClosed` | core/batches/service.py:1278-1300 | a batch whose cancellation is durable has no item left that could still get a child |
| `BatchGuarantees.ChildIdsAreDistinct` | core/batches/service.py:412-440 | distinct items never share a child id |
| `BatchGuarantees.BatchOnlyGrows` | core/batches/service.py:1210-1275 | over any run the cancellation flag and child ids stay, items are only appended, an item that was over without a child never gets one, and a batch being cancelled gains no stage, item or child id |
| `BatchGuarantees.OneRowPerChild` | core/jobs/service.py:207-246 | over any run of the batch system an id gets at most one row |
| `JobCreation.OneCallerCreates` | core/jobs/service.py:207-246 | any number of callers looking and inserting at once: at most one is told it created the row, one event is published for it, and every answer is true of the row |
| `JobCreation.StepAnswers` | core/jobs/service.py:207-246 | every look and insert answers by comparing requests; an insert makes the row exactly if it finds none; references are checked only when there is no row |
| `JobCreation.CreationOutcome` | core/jobs/service.py:160-246 | an event is published exactly if the callers made the row, it holds the creator's request, and reuse means the same request |
| `BatchGuarantees.CompletionIsSound` | core/jobs/completion.py:482-534 | over every run: completion done stays, the job's outcome is fixed, and every item that is this job carries it from then on, unless the outcome was missed |
| `BatchGuarantees.MissedExactly` | core/batches/service.py:1030-1131 | an outcome is missed exactly by the visit of a converging reconciliation to the job's own item when its row has become undecodable, its status is succeeded and the item does not carry it |
| `BatchMissed.CompletionCanMiss` | core/batches/service.py:1107-1114 | a run from an empty directory after which completion is done and the item still says pending |
| `BatchGuarantees.RecomputeReflects` | core/batches/service.py:1030-1131 | a reconciliation copies the status of a row exactly unless the row is undecodable and its status neither failed, nor cancelled, nor recorded already |
| `BatchStage.StageStore.AssignIds` | core/batches/service.py:412-443 | ids are saved all at once or not at all, only where missing, and stay distinct |
| `BatchStage.StageStore.Materialize` | core/batches/service.py:478-594 | one item, for every event: on a live batch a missing row becomes queued and is handed over, a queued one is handed over, any other is left; a refused exposure cancels a queued row and requests the cancel of one in progress; ambiguous reads, undecodable rows and a cancelling batch change nothing |
| `BatchStage.StageStore.EnqueueStage` | core/batches/service.py:397-623 | from any state a crash can leave: ids stay, rows are neither lost nor made for items that are over, only due ids are handed over; unless cancelled meanwhile rows found are unchanged and rows added are queued; a fault-free pass over a live batch hands over exactly the waiting due ids, in item order |
| `BatchStage.ExposedOnce` | core/batches/service.py:478-594 | the ids a pass hands over are those of the due items with no row or a queued one, each once |
| `BatchStage.StageStore.RerunAfterCrashes` | core/batches/service.py:397-411 | any number of crashed or faulty attempts and one good one: every due item has its row under its first id, rows found are unchanged and rows added are queued and handed over, unless the batch was cancelled |
| `BatchStatuses.CountsPartition` | core/batches/service.py:1831-1852 | the five counts add up to the total |
| `BatchStatuses.CountsAreExact` | core/batches/service.py:1831-1852 | what each of the six numbers counts, as sets of items by status |
| `BatchStatuses.BestIsUnbeaten` | core/batches/service.py:1833-1837 | the best item is scored, no score is higher, and of equal scores its index is lowest; there is none exactly when nothing is scored |
| `BatchStatuses.SucceededMeansDone` | core/batches/service.py:1855-1906 | succeeded if and only if no advance error, items exist, all succeeded and no stage remains |
| `BatchStatuses.UnfinishedMeansMoreToCome` | core/batches/service.py:1855-1906 | queued or running if and only if something is still to come |
| `BatchStatuses.QueuedMeansUntouched` | core/batches/service.py:1855-1906 | queued if and only if no advance error and every item is pending |
| `BatchStatuses.EndsExactly` | core/batches/service.py:1855-1906 | partial, cancelled and failed, each if and only if, by the statuses of the items |
| `BatchStatuses.CancelledBatchEnds` | core/batches/service.py:1855-1906 | a cancelling batch with all items over is neither queued nor running if and only if it has items or an advance error |
| `BatchAdvance.EmptyBatchReadsQueued` | core/batches/service.py:1863-1865 | an accepted specification that expands to no items, and a cancelling batch without items reads as queued |
| `BatchAdvance.OnlyZeroSamplesAreEmpty` | core/batches/expansion.py:89-117 | with values on every axis nothing is asked for if and only if zero items are sampled |
| `BatchStatuses.WinnersAreBest` | core/batches/service.py:1915-1929 | min(keep, succeeded) winners, all succeeded, from best to worst: the higher score first, none as -1, the lower index on a tie; no succeeded item left out does better than a winner |
| `BatchStatuses.WinnersIgnoreOrder` | core/batches/service.py:1915-1929 | the winners do not depend on the order of the items |
| `BatchAdvance.AdvancesExactly` | core/batches/service.py:1210-1275 | a stage is added if and only if the current one is over, something succeeded, a further one is planned, nobody cancelled and the preflight accepts; items are only appended |
| `BatchAdvance.AdvanceMarks` | core/batches/service.py:1230-1275 | a ready batch the preflight refuses gets the advance error and nothing else; one it accepts loses it; any other stays as it is |
| `BatchAdvance.AdvanceAddsItsWinners` | core/batches/service.py:1230-1275 | for every batch: an advance appends exactly min(keep_top_n, succeeded) pending items, one per winner and for its cell; winners are succeeded items of the stage, best score first, and no succeeded item left out has a higher score, or the same score and a lower index; new items come by model and then by rank, and every one refines into its own request |
| `BatchAdvance.AdvanceKeepsRequests` | core/batches/service.py:1230-1275 | where the winners refine into their own requests, the new items have exactly the winners' requests |
| `BatchAdvance.AnyNumberOfStages` | core/batches/service.py:1210-1275 | from any first-stage expansion, through any number of stages: items stay, every item of a later stage refines into its own request, and an item of the first stage does where the declared and the reloaded order agree for its cell |
| `BatchAdvance.SelectedIsDelivered` | core/batches/expansion.py:39-50 | where the orders agree for every cell, every item of every stage has the very request of some first-stage item |
| `Expansion.ExpandFirstStage` | core/batches/expansion.py:22-86 | exactly the cells wanted; indices are positions; every seed is the last patched one, or the base seed if shared, or base (zero if none) plus index; every request is the one built at its own index; items come in the order of their models and within a model in the order of the cells; a sample without a size, too many cells or a patch that replaces a locked field are refused, exactly then |
| `Expansion.WantedIsExact` | core/batches/expansion.py:89-117 | a grid asks for product-many and a sample for min(max_items, product) cells, all different and all choices of the axes |
| `Expansion.NoCellTwice` | core/batches/expansion.py:89-117 | whatever the strategy, no two items are for the same cell |
| `Expansion.GridExpansionIsExact` | core/batches/expansion.py:89-117 | a grid has product-many distinct cells, exactly the choices of one value per axis |
| `Expansion.GridMembers` | core/batches/expansion.py:95-98 | a cell is in the grid if and only if it is such a choice |
| `Expansion.GridDistinct` | core/batches/schemas.py:59-73 | with unique labels per axis no cell occurs twice |
| `Expansion.DraftSeed` | core/batches/expansion.py:204-214 | the seed is the last patched one, else the base seed if shared, else base or zero plus index; no other field depends on the index |
| `Expansion.SeedsDiffer` | core/batches/expansion.py:209-214 | unless the policy is shared, unpatched items at different places have different seeds |
| `Expansion.ReindexedIsDraft` | core/batches/expansion.py:72-86 | reseeding after the sort gives what building in the final place would have given |
| `Expansion.EntryByField` | core/batches/expansion.py:217-258 | each of the six fields after one patch entry: replaced by its own key, extended by its two appending keys, else unchanged |
| `Expansion.AppendExact` | core/batches/expansion.py:239-243 | appending to an empty field sets it, appending tidy text to tidy text joins both whole with a comma |
| `Expansion.StripExact` | core/batches/expansion.py:241-242 | stripping removes commas and blanks at the ends, all of them and nothing else |
| `Expansion.ShowReads` | core/batches/expansion.py:239-243 | a number appended to text is its decimal: it reads back as the number, with a sign exactly if it is negative |
| `Refinement.RefinementReproduces` | core/batches/expansion.py:39-50 | where the deciding patch entries come in the same order, a refinement equals its winner in prompt, negative prompt, model, seed, format and task |
| `Refinement.FieldReproduces` | core/batches/expansion.py:143-201 | one field: where its deciding entries come in the same order, a refinement gives it the winner's value |
| `RefinementExact.ReproducesExactly` | core/batches/expansion.py:143-258 | for every specification and cell, refinements keep a field of their winner for all base requests, patch values and positions if and only if the last replacement and the appends after it are visited in the same order as declared and as reloaded |
| `RefinementExact.ReproducesExactlyForChoices` | core/batches/schemas.py:59-73 | the same for every cell of the grid of a validated specification: unique axis names, patches that are dictionaries |
| `RefinementExact.BothOrdersHoldTheSlots` | core/batches/expansion.py:167-185 | declared and reloaded order visit the same patch slots, each once |
| `RefinementExact.OrdersAreSlots` | core/storage/json_files.py:33-53 | what each stage applies is its slots filled with the patch values; writing and reading back commutes with changing them |
| `Refinement.RefinementCanDiffer` | core/batches/expansion.py:143-201 | an accepted specification whose refined prompt differs from the winner's |
| `Refinement.AlphabeticalReproduces` | core/storage/json_files.py:33-53 | axes and patch keys declared in alphabetical order always reproduce |
| `Refinement.LaterStagesReproduce` | core/batches/expansion.py:39-50 | from the second stage on every refinement reproduces what it refines |
| `Refinement.RefinedStageShape` | core/batches/service.py:1230-1275 | whatever the winners: one item per winner for its cell as reloaded, each refining into its own request, in the order of their models and within a model of the winners, indices renumbered |
| `Refinement.FirstStageReproducible` | core/batches/expansion.py:39-50 | a first-stage item whose orders agree refines into its own request at any position |
| `Refinement.RefinedStageIsFaithful` | core/batches/service.py:1230-1275 | where the winners refine into their own requests, each new item has its winner's request |
| `AudioEnvelope.DuckEnvelope` | core/audio/postprocess.py:263-298 | the gain is sample by sample the lowest of full gain and the single-span curves |
| `AudioEnvelope.DuckSpan` | core/audio/postprocess.py:276-296 | one span lowers every sample to its own curve and touches nothing else |
| `AudioEnvelope.CurveByDistance` | core/audio/postprocess.py:271-296 | the curve of one span by distance: the floor inside, a straight ramp of attack or release length beside it, full gain beyond and for a span outside the buffer |
| `AudioEnvelope.SpanOrderIsIrrelevant` | core/audio/postprocess.py:276-296 | the curve depends only on the set of spans |
| `AudioEnvelope.DuckedRange` | core/audio/postprocess.py:263-298 | for a reduction the gain stays between floor and one, and is the floor on every sample some span covers |
| `AudioEnvelope.DuckedSlope` | core/audio/postprocess.py:271-274 | neighbouring samples differ by at most (1 - floor) / min(attack, release) |
| `AudioEnvelope.SmoothedEnvelope` | core/audio/postprocess.py:620-644 | the running-sum form equals the naive average over the centred window, silence beyond both ends |
| `AudioEnvelope.SpansAreRuns` | core/audio/postprocess.py:647-654 | a pair is returned if and only if it is a maximal run of true |
| `AudioEnvelope.SpansInOrder` | core/audio/postprocess.py:647-654 | spans come in order with a gap between neighbours |

## Left out

- The HTTP application, routes, export paths, bootstrap wiring and scripts: plumbing.
- Model loaders, generators, TTS and accelerator cleanup: opaque calls that may raise.
- The execution and group locks of the cache, drain timeouts and the admission semaphore of `ModelService`: only the metadata lock's sections and the condition variable are modelled.
- The object identity of cache entries and runtimes is modelled by serial numbers; aliasing beyond that is not.
- `core/jobs/runner.py`, `core/jobs/service.py` and `core/batches/repository.py` change shared storage from many threads; there the model is a step machine over values, because what matters is the interleaving of single accesses.
- A raise of the claim's own UPDATE after it committed (core/jobs/runner.py:445-456), and exceptions that are not `Exception`: a worker that dies is a restart.
- Storage faults inside a startup recovery of the batch system, other than unreadable batch files and failed quarantines: a pass that raises is a crash followed by another start.
- The file writes of startup recovery's own reconciles are left to the ordinary sections that follow a restart.
- Story replay and asset synchronization inside completion: steps that succeed or are retried.
- The poison-retry candidates of the completion loop (core/jobs/completion.py:125-277): its exposures are covered as `ExposeRecovered`, its bookkeeping is not.
- Stage materialization during startup recovery is taken as an arbitrary set of new children and exposures of live batches; its own steps are in `BatchStage`.
- Permanent materialization failures and the text of `advance_error`.
- Request parameters and their deep merge, item labels, average scores and rounding: bookkeeping with easy properties.
- Progress throttling and the mapping of progress fractions.
- Reference validation, lanes configuration, manifests, cloud guard, bible, feedback and asset repositories: validation with easy properties.
- Peak and RMS normalization, silence trimming and fades: single-pass arithmetic.
- Floating-point rounding, logging, events and wall clock.
