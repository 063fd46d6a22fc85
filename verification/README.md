# Forge: a verified model of its concurrent core

Forge runs commands for agents inside pooled containers. This project models the parts of it in
which several things happen at once or one representation is turned into another, and proves what
the code promises about them. `dafny verify dfyconfig.toml` checks everything.

| part of the program | modules |
|---|---|
| container pool shared by asyncio tasks | `PoolProtocol` (the state machine), `PoolSafety`, `PoolLedger`, `PoolShutdown`, `PoolHealth`, `PoolLock` (what it keeps), `PoolTheorems` (the promises), `PoolRuns`, `PoolLimits` (where they end), `PoolSeizure` (raising health checks), `PoolAlone` (each operation by itself, and a closed pool) |
| the pool's loops when nobody interferes | `ContainerPool` (a class, methods over its fields), `ReaperPass` (its pass is a run of the state machine) |
| snapshot archives | `PathText`, `FileTree`, `TreeListing`, `SnapshotArchive`, `ListingOrder` (no two archives of one tree differ) |
| idempotent executions | `ExecutionProtocol` (all interleavings, replays), `ExecutionAlone` (one call, each way it can end) |
| workspace and snapshot rows against directories and archives | `WorkspaceLifecycle` (all interleavings), `WorkspaceAlone` (one call, each way it can end) |
| glob patterns | `Glob` |
| event stream and event bus | `EventStream`, `EventBus` |
| captured output and paging | `OutputCapture`, `TextLines` |

Two styles are used. Code that shares state between tasks is a state machine: one step is the code
between two `await`s, a run is any list of steps of any number of tasks, and `Reachable` states are
those at the end of some run. The driver's and the database's answers, the clock and the scheduler
are the choice of the next step. Code that runs through without interference is a method proved
against a specification function, and the laws are lemmas about that function.

What the proofs found out about the code:

- A reaper pass that meets a kept entry past its TTL awaits its destruction (`container_pool.py` line
  398) while the queue is open to everybody, and then drains and rebuilds the queue (lines 402-408).
  Only the count of leases survives that in every configuration (`PoolTheorems.LeasesBalance`). Each
  other promise holds in all runs in which no such pass keeps more than so many entries, and so
  in all runs if `min_idle` is that small; for every larger `min_idle` a run breaks it
  (configurations have `1 <= max_size` and `min_idle <= max_size`):

  | promise | holds in all runs exactly if |
  |---|---|
  | no environment is leased twice | `min_idle <= 2` (`PoolLimits.NoDoubleLeaseIff`) |
  | no leased one is idle or set aside, none is queued twice, `in_use` is what tasks hold | `min_idle <= 2` (`PoolLimits.OnePlaceIffs`) |
  | a command starts only on an environment its session alone holds | `min_idle <= 2` (`PoolLimits.ExecOnlyOnOwnIff`) |
  | verdicts of health checks stand | `min_idle <= 2` (`PoolLimits.VerdictsStandIff`) |
  | with warm-ups, total and what is owed stay within `max_size + min_idle` | `min_idle <= 2` (`PoolLimits.MaxSizePlusMinIdleIff`) |
  | the environment of a raised health check keeps its slot, unqueued and unleased | `min_idle <= 2` (`PoolSeizure.RaisedKeepSlotsIff`) |
  | before shutdown nothing passed to destroy is held, or idle | `min_idle <= 1` (`PoolLimits.NoUseAfterDestroyIff`, `NoIdleAfterDestroyIff`) |
  | without warm-ups `total <= max_size` | `min_idle <= 1` (`PoolLimits.MaxSizeWithoutWarmUpsIff`) |
  | without warm-ups `max_size` raised health checks end all leasing | `min_idle <= 1` (`PoolSeizure.SeizesUpWithoutWarmUpsIff`) |
  | in all runs `max_size` raised health checks end all leasing | `min_idle == 0` (`PoolSeizure.SeizesUpIff`) |
  | no environment is lost, and the counters add up | `min_idle == 0` (`PoolLimits.NothingIsLostIff`, `CreatedBalancesIff`) |
  | shutdown leaves only what a cancelled pass had not reached | `min_idle == 0` (`PoolLimits.OnlyAbandonedOutliveIff`) |
  | shutdown destroys every environment ever created | `min_idle == 0` and `max_size == 1` (`PoolLimits.ShutdownDestroysEverythingIff`) |

- Shutdown also leaves behind what a cancelled reaper pass had drained and not reached: all but the
  first of its surplus entries (`PoolLimits.CancelledPassLeavesOne`). If no pass meets a kept entry
  past its TTL, that is all it leaves (`PoolShutdown.NothingOutlivesShutdown`).
- `docs/architecture/overview.md` line 348 says `total <= max_size` always. `_warm` takes no lock and
  reserves no slot, so with warm-ups this holds in all runs exactly if `min_idle` is 0
  (`PoolLimits.MaxSizeAlwaysIff`); `max_size + min_idle` is reached.
- The comment at `container_pool.py` line 388 suggests that only entries past their TTL are killed.
  The code destroys every surplus entry whatever its age; the model does what the code does.
- `_release` guards against a health check that raises, `_acquire` does not. If the runtime driver's
  check may raise, such an environment keeps its slot until shutdown
  (`PoolSeizure.RaisedCheckKeepsItsSlot`), and when every call has ended these are exactly the slots
  still taken (`PoolSeizure.OnlyRaisedSlotsRemain`). Without warm-ups a session can still be handed
  out exactly if fewer than `max_size` checks have raised (`PoolSeizure.CanStillLeaseIff`), and
  `max_size` of them can (`PoolSeizure.PoolCanSeize`). The Docker driver turns every `Exception` of its
  check into the answer no (`docker_driver.py` lines 220-225), so with it alone this does not happen.
- A bare `**` accepts a path with a newline, a longer pattern with `**` does not
  (`Glob.GlobMatchIsMatch`).
- A replayed execution returns the text of the first answer only if it was truncated and has no
  carriage return, or was empty, and its duration only if the wall clock, read back from the row,
  agrees with the monotonic clock (`OutputCapture.ReplayRepeatsTheAnswer`).
- A restore that fails between wiping and re-creating the new directory leaves a `ready` row without
  a directory; that is the only way to get one. A creation that breaks off between its two `mkdir`s,
  or a roll-back that fails, leaves a directory without a row; these are the only ways
  (`WorkspaceLifecycle.StoresStayInStep`).
- Deleting a workspace removes the rows of its snapshots and leaves their archives. Besides that only a
  write or a roll-back that breaks off leaves an archive without a row
  (`WorkspaceLifecycle.ArchivesStayInStep`).
- Snapshot and restore give up exactly on a plain file named `.forge` or `.forge/exec`
  (`SnapshotArchive.RestoreRebuilds`).

## Model

| member | source | states |
|---|---|---|
| PoolTheorems.EachEnvironmentInOnePlace | src/forge/pool/container_pool.py:228-337 | Unless a pass ages out one of three or more kept entries: the idle queue has no duplicates, no environment is held by two sessions or is idle and held at once, and `in_use` is exactly what tasks hold. |
| PoolTheorems.NothingIsLost | src/forge/pool/container_pool.py:228-337 | Unless a pass meets a kept entry past its TTL: before shutdown every environment not destroyed is idle, in use or with the reaper. |
| PoolTheorems.DestroyedStaysUnused | src/forge/pool/container_pool.py:281-287 | Unless a pass ages out one of two or more kept entries: before shutdown what was passed to destroy is neither held nor idle. |
| PoolTheorems.ExecOnlyOnOwnEnvironment | src/forge/pool/lease.py:32-54 | Unless a pass ages out one of three or more kept entries: exactly a call on a session not yet closed starts a command, once, on the environment that session alone holds. |
| PoolTheorems.MaxSizeRespected | src/forge/pool/container_pool.py:257-270 | Without warm-ups, and unless a pass ages out one of two or more kept entries, idle plus in use stays within `max_size`. |
| PoolTheorems.WarmUpsOvershootAtMostMinIdle | src/forge/pool/container_pool.py:217-226 | With one warm-up in flight at any time, and unless a pass ages out one of three or more kept entries, the total plus what is still owed stays within `max_size + min_idle`. |
| PoolTheorems.CreatedBalances | src/forge/pool/container_pool.py:48-63 | Unless a pass meets a kept entry past its TTL: before shutdown created equals idle plus real `in_use` plus killed plus reaped. |
| PoolTheorems.LeasesBalance | src/forge/pool/container_pool.py:268-278 | In every run `total_leases` is the number of sessions handed out. |
| PoolLimits.NoDoubleLeaseIff | src/forge/pool/container_pool.py:391-408 | No environment is ever held by two sessions, in all runs, if and only if `min_idle` is at most 2. |
| PoolLimits.NoUseAfterDestroyIff | src/forge/pool/container_pool.py:391-408 | Before shutdown no session holds an environment passed to destroy, in all runs, if and only if `min_idle` is at most 1. |
| PoolLimits.MaxSizeWithoutWarmUpsIff | src/forge/pool/container_pool.py:391-408 | Without warm-ups the total stays within `max_size`, in all runs, if and only if `min_idle` is at most 1. |
| PoolLimits.NothingIsLostIff | src/forge/pool/container_pool.py:391-408 | Before shutdown no environment is lost, in all runs, if and only if `min_idle` is 0. |
| PoolLimits.OnePlaceIffs | src/forge/pool/container_pool.py:391-408 | In all runs no leased environment is idle, none is set aside by the reaper, none is queued twice, and `in_use` is exactly what tasks hold: each of the four if and only if `min_idle` is at most 2. |
| PoolLimits.ExecOnlyOnOwnIff | src/forge/pool/lease.py:32-54 | In all runs exactly the calls on open sessions start a command, each on an environment its session alone holds, if and only if `min_idle` is at most 2. |
| PoolLimits.VerdictsStandIff | src/forge/pool/container_pool.py:321-337 | In all runs the verdicts of health checks stand, if and only if `min_idle` is at most 2. |
| PoolLimits.MaxSizePlusMinIdleIff | src/forge/pool/container_pool.py:217-226 | In all runs the total plus what a warm-up owes stays within `max_size + min_idle`, if and only if `min_idle` is at most 2. |
| PoolLimits.HiddenLeaseOvershoots | src/forge/pool/container_pool.py:391-408 | For every `min_idle` from 3 on, a run that ends one above `max_size + min_idle`: a lease that fills no slot ends in a full pool. |
| PoolLimits.NoIdleAfterDestroyIff | src/forge/pool/container_pool.py:391-408 | Before shutdown nothing passed to destroy lies idle, in all runs, if and only if `min_idle` is at most 1. |
| PoolLimits.CreatedBalancesIff | src/forge/pool/container_pool.py:48-63 | Before shutdown created equals idle plus real `in_use` plus killed plus reaped, in all runs, if and only if `min_idle` is 0. |
| PoolLimits.OnlyAbandonedOutliveIff | src/forge/pool/container_pool.py:121-141 | What a finished shutdown leaves is what a cancelled pass had not reached, in all runs, if and only if `min_idle` is 0. |
| PoolLimits.AgingOutLosesOne | src/forge/pool/container_pool.py:396-408 | For every `min_idle` from 1 on, a run in which an environment given back while an entry ages out is dropped. |
| PoolLimits.AgingOutOvershoots | src/forge/pool/container_pool.py:396-408 | For every `min_idle` from 2 on, a run without warm-ups that ends with `max_size + 1`. |
| PoolLimits.SurvivorIsLeasedTwice | src/forge/pool/container_pool.py:396-408 | For every `min_idle` from 3 on, a run in which two sessions hold one environment. |
| PoolLimits.ShutdownDestroysEverythingIff | src/forge/pool/container_pool.py:121-141 | A finished shutdown has destroyed every environment ever created, in all runs, if and only if `max_size` is 1 and `min_idle` is 0. |
| PoolLimits.CancelledPassLeavesOne | src/forge/pool/container_pool.py:126-130 | Shutdown cancels a pass between two surplus entries, and the second is never destroyed. |
| PoolLimits.OvershootReached | src/forge/pool/container_pool.py:217-226 | For every configuration some run reaches `max_size + min_idle`. |
| PoolLimits.MaxSizeAlwaysIff | docs/architecture/overview.md:348 | The documented bound holds in all runs if and only if `min_idle` is 0. |
| PoolSeizure.RaisedCheckKeepsItsSlot | src/forge/pool/container_pool.py:274-279 | From a raised health check on, until shutdown is done, its environment fills a slot, is never queued and no session holds it (unless a pass ages out one of three or more kept entries). |
| PoolSeizure.RaisedChecksSeizeThePool | src/forge/pool/container_pool.py:274-296 | After `max_size` raised health checks, without warm-ups, no session is handed out and nobody is inside one until shutdown is done (unless a pass ages out one of two or more kept entries). |
| PoolSeizure.RaisedKeepSlotsIff | src/forge/pool/container_pool.py:274-279 | In all runs every raised check keeps its slot, unqueued and unleased, until shutdown is done, if and only if `min_idle` is at most 2. |
| PoolSeizure.OnlyRaisedSlotsRemain | src/forge/pool/container_pool.py:274-283 | When every call has ended and shutdown is not done, `in_use` is exactly the environments whose checks raised (unless a pass ages out one of three or more kept entries). |
| PoolSeizure.CanStillLeaseIff | src/forge/pool/container_pool.py:238-304 | Before shutdown some run without warm-ups still hands out a session, if and only if fewer than `max_size` checks have raised (unless a pass ages out one of two or more kept entries). |
| PoolSeizure.SeizesUpWithoutWarmUpsIff | src/forge/pool/container_pool.py:274-296 | In all runs without warm-ups `max_size` raised checks end all leasing until shutdown is done, if and only if `min_idle` is at most 1. |
| PoolSeizure.SeizesUpIff | src/forge/pool/container_pool.py:217-226 | In all runs `max_size` raised checks end all leasing until shutdown is done, if and only if `min_idle` is 0. |
| PoolSeizure.PoolCanSeize | src/forge/pool/container_pool.py:274-279 | In every configuration, if the driver's check may raise, a run before shutdown has `max_size` raised health checks. |
| PoolShutdown.NothingOutlivesShutdown | src/forge/pool/container_pool.py:121-141 | Unless a pass met a kept entry past its TTL: when shutdown is done and all sessions have ended, what was created and not destroyed is exactly what a cancelled pass had not reached. |
| PoolShutdown.InvKept | src/forge/pool/container_pool.py:121-141 | Every step but a pass that meets a kept entry past its TTL keeps the ownership, counting and shutdown invariants together. |
| PoolAlone.RejectedIff | src/forge/pool/container_pool.py:159-160 | In every run a session is rejected if and only if shutdown had begun when it was asked for. |
| PoolAlone.ClosedPoolRejects | src/forge/pool/container_pool.py:159-160 | From the first step of shutdown on the pool stays closed, and whoever has not entered by then is rejected if it enters at all. |
| PoolAlone.LateSessionsEnteredEarly | src/forge/pool/container_pool.py:121-160 | Every session handed out after shutdown has begun belongs to a task that was already in. |
| PoolAlone.UninterruptedAcquireIsARun | src/forge/pool/container_pool.py:228-304 | A session opened alone in an open pool can end as `SubPool.Acquire` says: the first healthy idle environment, the dead ones before it destroyed, else a new one, else exhaustion. |
| PoolAlone.WaitIsInVain | src/forge/pool/container_pool.py:289-302 | A call that finds the pool full and waits in vain ends as exhausted and has changed nothing. |
| PoolAlone.WokenTakesTheNext | src/forge/pool/container_pool.py:297-304 | A woken call puts the head it got behind the others and leases the new head, if that is healthy. |
| PoolAlone.UninterruptedReleaseIsARun | src/forge/pool/container_pool.py:306-337 | A session ended alone gives up its slot; its environment is queued last if alive and the pool open, destroyed otherwise, and counted as killed only in an open pool. |
| PoolAlone.UninterruptedWarmIsARun | src/forge/pool/container_pool.py:217-226 | A warm-up alone can queue, in order, exactly what `SubPool.Warm` queues. |
| PoolAlone.UninterruptedShutdownIsARun | src/forge/pool/container_pool.py:121-141 | Shutdown alone destroys exactly what is idle or in use, forgets both, and abandons what a pass has not reached. |
| PoolLock.SlotsChangeUnderLock | src/forge/pool/container_pool.py:228-235 | In every run, while one task creates an environment no other session changes a slot, a counter, what is queued or what is destroyed; only the end of shutdown clears the slots. |
| PoolLock.OneCreationAtATime | src/forge/pool/container_pool.py:228-235 | In every run at most one task is creating, and it is the one that holds the lock. |
| PoolLock.ExhaustedOnlyIfFull | src/forge/pool/container_pool.py:238-304 | A session waits, or ends as exhausted, only if the pool has been full at some moment since it entered. |
| PoolLock.CreatesOnlyIfNoneIdle | src/forge/pool/container_pool.py:238-258 | A creation begins only while nothing is idle, there is room, and the lock is free. |
| PoolSafety.PlacesKept | src/forge/pool/container_pool.py:228-337 | Every step but a pass that ages out one of three or more kept entries keeps each environment in one place and the slots of `in_use` matched with their owners. |
| PoolSafety.TotalWithoutWarmUps | src/forge/pool/container_pool.py:306-337 | From any well-placed state within the bound, runs without warm-ups and with such small passes stay within it, the release health check included. |
| PoolSafety.TotalWithWarmUps | src/forge/pool/container_pool.py:217-226 | Runs with warm-ups keep the total, the debt and what a refill may bring back within `max_size + min_idle`. |
| PoolLedger.EnvSlotCount | src/forge/pool/container_pool.py:257-270 | The lock owner's placeholder is the only slot of `in_use` that is no environment. |
| PoolHealth.OnlyVettedEnvironmentsAreLeased | src/forge/pool/container_pool.py:272-287 | Unless a pass ages out one of three or more kept entries: whatever a session holds was created or found healthy since it last lay idle, and an environment that ever failed a check is never queued or leased again. |
| PoolHealth.StepSound | src/forge/pool/container_pool.py:321-337 | Every such step keeps the driver's verdicts in force: nothing condemned comes back, nothing unchecked is relied on. |
| ContainerPool.SubPool.Acquire | src/forge/pool/container_pool.py:228-304 | Alone, it leases the first healthy idle environment having destroyed exactly the dead ones before it, else creates one, and reports exhaustion exactly if nothing was idle and `in_use` was full. |
| ContainerPool.SubPool.LeaseNew | src/forge/pool/container_pool.py:257-270 | The placeholder is replaced by the new environment, or goes away again with a failed creation. |
| ContainerPool.SubPool.Release | src/forge/pool/container_pool.py:306-337 | The slot is given up; the environment is queued if it is alive and the pool open, and destroyed otherwise. |
| ContainerPool.SubPool.Warm | src/forge/pool/container_pool.py:217-226 | Queues as many new environments as are missing to `min_idle`, up to the first failed creation. |
| ContainerPool.SubPool.ReapOnce | src/forge/pool/container_pool.py:368-415 | An uninterrupted pass leaves the survivors and then the warmed-up environments, destroys the victims in order, and never touches `in_use`. |
| ContainerPool.SubPool.AgeOut | src/forge/pool/container_pool.py:391-400 | Exactly the entries past their TTL are destroyed, and the queue loses as many heads, whichever entries those are. |
| ContainerPool.PopsCutTheFront | src/forge/pool/container_pool.py:395-396 | Popping so many heads, an empty queue staying empty, leaves the queue without its front. |
| ContainerPool.YoungestFirstSorts | src/forge/pool/container_pool.py:381-383 | The order used by a pass is the queue, sorted youngest first. |
| ContainerPool.YoungestFirstIsStable | src/forge/pool/container_pool.py:381 | Entries of one age stay in queue order. |
| ContainerPool.ReapKeepsTheYoungest | src/forge/pool/container_pool.py:368-415 | Survivors and victims together are the queue, each entry once; at most `max(min_idle - in_use, 0)` survive, all within TTL and none older than a victim; if fewer survive, all victims had aged out. |
| ContainerPool.ReapRestoresMinIdle | src/forge/pool/container_pool.py:414-415 | If all creations succeed a pass ends with total `max(min_idle, in_use)`. |
| ReaperPass.UninterruptedPassIsARun | src/forge/pool/container_pool.py:368-412 | Some run of the state machine's reaper steps alone, ageing out included, ends with the queue and the destroyed environments of the sequential pass. |
| ReaperPass.AgingPopsTheYoungest | src/forge/pool/container_pool.py:391-398 | While the `n`-th aged-out entry is being destroyed, the queue of an undisturbed pool lacks the `n` youngest entries. |
| ReaperPass.EveryVictimGoes | src/forge/pool/container_pool.py:391-412 | Whatever else runs, as long as the pool is open every entry a pass does not keep has been destroyed when the pass is over. |
| FileTree.IterFiles | src/forge/storage/snapshot_store.py:134-155 | The explicit stack terminates on every tree and yields the listing of the structural recursion, in its order. |
| FileTree.Visit | src/forge/storage/snapshot_store.py:144-155 | One directory yields its sorted entries that are no symbolic links and pushes its real subdirectories. |
| TreeListing.TraversalIsComplete | src/forge/storage/snapshot_store.py:134-155 | Every entry that is no symbolic link is yielded exactly once, nothing else is, and every directory comes before anything inside it. |
| ListingOrder.ListingIsDetermined | src/forge/storage/snapshot_store.py:134-155 | The listing is the one sequence of all entries but symbolic links in an order stated without the stack: a directory before its contents, entries by name before deeper ones, subdirectories backwards. |
| PathText.SortedOrder | src/forge/storage/snapshot_store.py:144 | The names of a directory come in strictly increasing order. |
| PathText.BeforeMeans | src/forge/storage/snapshot_store.py:144 | That order: a prefix first, else the smaller code point where two names first differ. |
| PathText.SplitOfJoin | src/forge/storage/snapshot_store.py:117 | A path is recovered from its POSIX text. |
| SnapshotArchive.ExcludedIsBelow | src/forge/storage/snapshot_store.py:118-119 | The text prefix test excludes exactly the paths strictly below `.forge/exec`. |
| SnapshotArchive.WriteArchive | src/forge/storage/snapshot_store.py:104-120 | The archive holds the traversal's entries that are not excluded, in order. |
| ListingOrder.ArchiveIsDetermined | src/forge/storage/snapshot_store.py:104-155 | An archive names exactly the kept paths, in the order of the listing, each with what is there: two snapshots of one tree are the same. |
| SnapshotArchive.WorkspaceDir.ReadArchive | src/forge/storage/snapshot_store.py:122-131 | Extraction fails exactly when some member is blocked by what is already there. |
| SnapshotArchive.ExtractWellFormed | src/forge/storage/snapshot_store.py:122-131 | Extraction from any archive with sound names over any tree, where it succeeds, leaves everything inside directories. |
| SnapshotArchive.WorkspaceDir.EnsureEmpty | src/forge/storage/snapshot_store.py:158-163 | The directory ends up present and empty, whatever was there; it fails exactly if there was none, or if it was emptied by removing it and cannot be made again, and then there is none. |
| SnapshotArchive.WorkspaceDir.Restore | src/forge/services/snapshot_service.py:82-96 | Wiping, extracting and adding `.forge/exec` give the restored tree of the archive, or fail exactly when that does not exist or the wipe fails; only a failed wipe leaves no directory. |
| SnapshotArchive.ArchiveExtracts | src/forge/storage/snapshot_store.py:104-131 | Extracting an archive into an empty directory always succeeds and gives the tree without links and excluded paths. |
| SnapshotArchive.ExtractionMeetsEveryParent | src/forge/storage/snapshot_store.py:134-155 | When a member is extracted, all directories above it are already there. |
| SnapshotArchive.RestoreRebuilds | src/forge/services/snapshot_service.py:67-110 | Snapshot then restore is the pruned tree plus a real `.forge/exec`; it fails exactly when a plain file stands at `.forge` or `.forge/exec`. |
| SnapshotArchive.RestoreIsIdempotent | src/forge/services/snapshot_service.py:67-110 | Snapshotting and restoring a restored tree changes nothing. |
| SnapshotArchive.LookalikesSurvive | src/forge/storage/snapshot_store.py:24 | Names that only begin like `.forge/exec` are kept. |
| ExecutionProtocol.OneRowPerKey | src/forge/storage/migrations.py:50-52 | In every interleaving a live workspace has at most one row for an idempotency key. |
| ExecutionProtocol.AtMostOneRun | src/forge/services/execution_service.py:63-174 | The driver is started at most once for each execution, and at most once for each workspace and key. |
| ExecutionProtocol.EveryRunWasIssued | src/forge/services/execution_service.py:84-115 | The driver only runs what has had a row. |
| ExecutionProtocol.SameAnswer | src/forge/services/execution_service.py:67-82 | All calls with one workspace and key that return normally report the same execution and exit code, also after the row is gone. |
| ExecutionProtocol.FinishedRowsAnswer | src/forge/services/execution_service.py:67-82 | As long as a succeeded, failed or timed-out row of a key is there, every later call with that workspace and key is looking it up or has returned its id and its code, -1 if it has none. |
| ExecutionProtocol.AnswersAreRepeated | src/forge/services/execution_service.py:67-82 | So every call that comes after an answered one repeats that answer while the row is there, and never inserts or runs. |
| ExecutionProtocol.TerminalRowsAreFinal | src/forge/storage/meta_store.py:247-287 | A row goes from queued to running to finished; a finished row never changes. |
| ExecutionProtocol.StatusTellsTheCode | src/forge/services/execution_service.py:229-234 | In every reachable table succeeded goes with exit code 0, timed out with 124, and no unfinished row has a code. |
| ExecutionProtocol.EventsTellTheStory | src/forge/services/execution_service.py:94-165 | Each execution is announced as queued, started, finished, at most once each and in that order; all three if it finished. |
| ExecutionProtocol.InvKept | src/forge/services/execution_service.py:63-174 | Every step of every call, and every workspace creation or deletion, keeps tables, owners, answers, runs and events consistent. |
| ExecutionAlone.CommandRuns | src/forge/services/execution_service.py:63-174 | A call alone that runs its command: one new row with its exit code and status, three events in order, one run, and the exit code returned; nothing else changes. |
| ExecutionAlone.DriverRaises | src/forge/services/execution_service.py:116-133 | If the driver raises, the row has failed without a code, all three events are published and the call raises. |
| ExecutionAlone.SessionRaises | src/forge/services/execution_service.py:116-133 | If no session is to be had, the same without a run. |
| ExecutionAlone.EmptyCommandRaises | src/forge/services/execution_service.py:103-105 | An empty command raises and leaves its row running, with two events. |
| ExecutionAlone.FinishedFound | src/forge/services/execution_service.py:67-82 | A finished row of the key is the answer; nothing is inserted, published or run. |
| ExecutionAlone.UnfinishedFound | src/forge/services/execution_service.py:67-93 | An unfinished one is not: no insert is possible, the call raises and changes nothing. |
| WorkspaceLifecycle.StoresStayInStep | src/forge/services/workspace_service.py:30-84 | At every await a ready row has its directory, exactly unless a broken wipe lost it; a snapshot row has its archive; a directory has a row or its insert is under way, exactly unless its creation or roll-back broke off. |
| WorkspaceLifecycle.ArchivesStayInStep | src/forge/services/snapshot_service.py:39-59 | At every await an archive has a row or its insert is under way, exactly unless its workspace has been deleted, or its write or roll-back broke off. |
| WorkspaceLifecycle.DeletedWorkspaceLeavesArchives | src/forge/storage/migrations.py:54-62 | Deleting a workspace takes the rows of its snapshots with it and leaves their archives. |
| WorkspaceLifecycle.ReadyMeansDirectory | src/forge/services/workspace_service.py:51-58 | In runs in which no wipe breaks off every ready row has its directory. |
| WorkspaceLifecycle.BrokenWipeLosesADirectory | src/forge/services/snapshot_service.py:82 | A wipe that breaks off does leave a ready row without a directory. |
| WorkspaceLifecycle.HalfMadeDirectoryStays | src/forge/storage/workspace_store.py:56-57 | A creation that breaks off between its two `mkdir`s leaves a directory without a row. |
| WorkspaceLifecycle.CleanedUpStaysGone | src/forge/services/snapshot_service.py:84-89 | After a failed restore has cleaned up, its workspace has neither row, directory nor snapshots, whatever else runs. |
| WorkspaceLifecycle.FailedRestoreLeavesNoTrace | src/forge/services/snapshot_service.py:67-89 | A failed restore running alone, its clean-up done, leaves rows, directories, snapshots and archives as they were. |
| WorkspaceLifecycle.InvKept | src/forge/services/workspace_service.py:30-84 | Every step of every create, delete, snapshot and restore, failing or not, keeps the two stores' invariant. |
| WorkspaceAlone.CreateSucceeds | src/forge/services/workspace_service.py:30-58 | Create alone adds one ready row and its directory. |
| WorkspaceAlone.CreateFails | src/forge/services/workspace_service.py:50-58 | If the insert fails nothing is left, or a stray directory if that cannot be removed either. |
| WorkspaceAlone.DeleteSucceeds | src/forge/services/workspace_service.py:67-84 | Delete alone removes row, directory and the rows of the snapshots, and no archive. |
| WorkspaceAlone.DeleteStops | src/forge/services/workspace_service.py:67-84 | If tree or row cannot be removed, the row stays marked as deleting. |
| WorkspaceAlone.SnapshotSucceeds | src/forge/services/snapshot_service.py:39-59 | Snapshot alone adds one archive and its row. |
| WorkspaceAlone.SnapshotRollsBack | src/forge/services/snapshot_service.py:52-57 | If the insert fails and is rolled back, no archive is left. |
| WorkspaceAlone.RestoreEnds | src/forge/services/snapshot_service.py:67-96 | Restore alone adds one ready row and its directory; blocked at `.forge/exec` it raises and leaves them, and a wipe that breaks off leaves the row alone. |
| WorkspaceAlone.NoRestoreWithoutArchive | src/forge/services/snapshot_service.py:84-89 | Without its archive no restore succeeds. |
| Glob.GlobMatchIsMatch | src/forge/services/files_service.py:392-436 | All three branches agree with one matcher over `/`-components, except that a bare `**` also accepts newlines. |
| Glob.GlobToPieces | src/forge/services/files_service.py:412-432 | The loop over the parts emits the pieces of the recursive definition. |
| Glob.CompiledIsMatch | src/forge/services/files_service.py:404-436 | The compiled expression accepts exactly what the component matcher accepts. |
| Glob.TextIsRendered | src/forge/services/files_service.py:412-436 | The joined text is the compiled expression, written out. |
| Glob.FixedReadsBack | src/forge/services/files_service.py:428 | A piece without stars, escaped, is read back as it is meant: `?` as any character, every other one as itself. |
| Glob.WildIsMatch | src/forge/services/files_service.py:401 | Without `**`, matching the whole text at once is matching it component by component. |
| Glob.WildConcat | src/forge/services/files_service.py:401 | Shell matching of a concatenation is a split of the text. |
| Glob.TranslateIsWild | src/forge/services/files_service.py:428 | The translated expression of a bracket-free part, whose inner pieces are atomic searches that never try a later occurrence, means shell matching. |
| Glob.TailSearches | src/forge/services/files_service.py:428 | Taking the first occurrence of each inner piece for good loses no match, whatever follows. |
| Glob.CollapseChangesNothing | src/forge/services/files_service.py:434-435 | The `/+` collapse never changes the expression. |
| Glob.CollapseMeans | src/forge/services/files_service.py:434-435 | A run of slashes counts as one, whatever is around it. |
| Glob.DoubleGapIsGap | src/forge/services/files_service.py:417-423 | `**/**/p` is equivalent to `**/p`. |
| Glob.GapAcceptsMore | src/forge/services/files_service.py:404-409 | `**/p` accepts everything `p` does, except exactly when `p` is a bare `**` and the path has a newline. |
| EventStream.Subscribe | src/forge/client/http_client.py:278-286 | However the stream is cut into chunks, the loop yields what the whole stream holds and keeps the same rest; if the chunks carry what the server printed for some events, it yields exactly those and keeps nothing. |
| EventStream.ParseAppend | src/forge/client/http_client.py:278-286 | Parsing a longer stream is parsing on from the rest of the shorter one. |
| EventStream.BlockThenRest | src/forge/client/http_client.py:278-286 | What comes before the first blank line contributes its `data: ` lines, and then the rest of the stream is parsed alike. |
| EventStream.StreamRoundTrips | src/forge/server/routes/executions.py:51-54 | The printed frames of any events come back as their payloads, in order, with nothing left over. |
| EventBus.Bus.Publish | src/forge/events/bus.py:37-45 | Every subscriber whose filter matches gets the event at the end of its queue, or one more loss if the queue is full and bounded; the others keep queue and count. |
| EventBus.Bus.Unsubscribe | src/forge/events/bus.py:74-75 | Exactly this subscription goes; the others stay in order. |
| EventBus.Subscription.Next | src/forge/events/bus.py:70-73 | The subscriber gets the oldest queued event. |
| EventBus.EveryEventIsAccountedFor | src/forge/events/bus.py:37-75 | Delivered plus queued plus lost is what matched since the subscription, and delivered then queued is an in-order part of it, all of it if nothing was lost. |
| EventBus.QueuedIsDelivered | src/forge/events/bus.py:37-73 | Over any continuation of any run, delivered then queued only grows at its end: once queued, an event leaves only by delivery, in its turn. |
| EventBus.LostExactlyIfFull | src/forge/events/bus.py:42-45 | After any run a publication is lost if and only if it matches, the queue is bounded and holds exactly `capacity` events; it is last in the queue if it matches and is not lost. |
| EventBus.TakenIsOldest | src/forge/events/bus.py:70-73 | After any run taking delivers the oldest queued event, if there is one, and loses nothing. |
| EventBus.LosslessSubscriberSeesTheStory | src/forge/services/execution_service.py:94-165 | A subscriber without losses sees a finished execution as queued, started, finished, once each and in order. |
| OutputCapture.Drain | src/forge/drivers/docker_driver.py:262-278 | The buffer is the first `limit` bytes of all that was read; truncated if and only if at least that many came. |
| OutputCapture.ExecutionLog.Complete | src/forge/services/execution_service.py:135-174 | The execution is recorded by its row and log, and every other recorded execution stays recorded, since no two share a log. |
| OutputCapture.ExecutionLog.Fail | src/forge/services/execution_service.py:116-133 | A failure in the driver or before is recorded without a code, and every other recorded or failed execution stays so. |
| OutputCapture.LogsAreDistinct | src/forge/services/execution_service.py:186-194 | The log's path determines the execution. |
| OutputCapture.ExecutionLog.Replay | src/forge/services/execution_service.py:237-265 | For every recorded execution, whatever was recorded since, the replay is the first answer in all but text and duration, each under its exact condition; without the log the text is empty; one that failed in the driver or before is reported as -1 with no output; the code is the one the protocol reports. |
| OutputCapture.ReplayRepeatsTheAnswer | src/forge/services/execution_service.py:142-155 | The same for any files that still hold the log of a truncated execution. |
| OutputCapture.NewlinesUnchangedIff | src/forge/services/execution_service.py:251 | Reading text back changes it exactly if it has a carriage return. |
| OutputCapture.NewlinesMean | src/forge/services/execution_service.py:251 | Up to the first carriage return nothing changes; CR LF, and a CR without LF after it, become LF. |
| TextLines.PagingCoversTheText | src/forge/services/files_service.py:180-188 | Reading on at multiples of the limit while truncated terminates and shows every line once; the windows joined are the text. |
| TextLines.SplitKeepsAll | src/forge/services/files_service.py:181 | The lines joined are the text, whatever the line breaks. |
| TextLines.LinesAreProper | src/forge/services/files_service.py:181 | Every line is a break-free text and exactly one terminator, a break character or CR LF; only the last may lack it and is then not empty; no two lines meet between CR and LF. |
| TextLines.ProperLinesAreTheLines | src/forge/services/files_service.py:181 | Any cutting of a text into such lines is the splitting. |
| TextLines.BreaksAre | src/forge/services/files_service.py:181 | The ten characters that end a line. |
| TextLines.ReadWindow | src/forge/services/files_service.py:183-187 | The window holds exactly the lines from `offset` on and before `offset + limit`, with their total number and whether more follow. |
| TextLines.ReadRefuses | src/forge/services/files_service.py:178-187 | A NUL makes the file binary before a negative offset is refused; a negative limit is not refused, and shows what its slice does. |

## Left out

- Task cancellation, process crashes and `stream_exec`: a step always runs to its next `await`.
- The warm-up that `start` itself awaits: at most one `_warm` is in flight, and it ends when shutdown begins. A shutdown that overlaps `start` is not modelled.
- Several images: one sub-pool is modelled, since sub-pools share nothing but the closed flag.
- OutputCapture.ExecutionLog.Replay: times are whole microseconds; the rounding of floating-point seconds is not modelled.
- Waiting times, lease deadlines as clock values, fairness and progress: a timeout may fire at any wait, and no task is promised its turn.
- The order in which waiters get `sp.lock` or a queued entry: any of them may be next, which includes the first-come order of asyncio.
- PoolTheorems.ExecOnlyOnOwnEnvironment: says where a command starts, not that the container survives it; a shutdown may destroy an environment in use.
- Each metastore call is one atomic step that succeeds or fails as a whole; SQL, JSON, dates and UTF-8 are not modelled.
- An update of an execution row and the event that follows it are one step. In the code other tasks may see the finished row, and replay its answer, shortly before the finished event is published.
- The tar and zstd formats, file modes, hard links and special files; a tree holds directories, files with contents, and symbolic links.
- Glob.TranslateIsWild: covers patterns without brackets. An atomic group around a lazy search is modelled as its shortest match; the search order of the other operators does not matter to whether a whole path matches.
- Symbolic-link resolution and path checks of the file service, `grep`, `edit` and uploads: operating-system and library behaviour or thin wrappers.
- EventStream.StreamRoundTrips: event kind and JSON payload must hold no line break, which the JSON encoder and the fixed kinds guarantee; the encoder itself is not part of this model.
- Why a spill write fails or a command is empty: in `ExecutionProtocol` either may happen to any call, is raised outside the `try` of `exec` and leaves the row running.
- The filter of a subscription is a parameter; how `subscribe` builds it from kinds, workspace and execution is not modelled. Nor are wait-time statistics.
- Docker calls, image pulls, HTTP wiring, command line, daemon, client facades and configuration helpers.
