# Verified model of n8n's execution lifecycle, credential resolution and data walks

This project models parts of n8n's server and node utilities in Dafny and proves what they keep over whole
runs. `dafny verify dfyconfig.toml` checks everything.

| file | what it models |
|---|---|
| `ResumeProtocol.dfy` | one execution record shared by several processes: suspension, timers, finished children and requests racing to resume it, the conditional update, the write of a child's output into its parent |
| `ExecutionLifecycle.dfy`, `ActiveExecutions.dfy` | the table of active executions of one process, its post-execution promises, concurrency permits, shutdown; first as steps on a state, then as the object whose methods are proved against those steps |
| `WaitTracker.dfy` | the timers for waiting executions, leader stepdown and takeover |
| `CredentialTypes.dfy`, `CredentialsOverwrites.dfy`, `SeveralParents.dfy`, `ResolvedTypes.dfy` | the ancestor worklist and the memoised, in-place resolution of credential overwrites |
| `ConnectionPool.dfy` | the pool cache with overlapping creations, abort listeners, sweeps and purges |
| `CredentialRepair.dfy` | repairing node credentials with two lookup caches |
| `ActivationQueue.dfy` | retrying workflow activation with capped doubling |
| `Backtracking.dfy`, `FlattenObject.dfy`, `Deduplication.dfy` | tracing paired items, flattening objects, deduplicating by key |
| `Timeouts.dfy` | nested deadlines and the stop time of resumed runs |
| `Counting.dfy`, `Wrappers.dfy` | counting in sequences; `Option` and `Result` |

Every `await` ends a step, and everything between two awaits is atomic, as on the event loop. Time is an
integer, keys and payloads are values, and what the database, a handler or `add` answers is an input of the
step. JavaScript objects that are shared by reference (execution entries, abort controllers, timeouts) are
named by their index of creation.

## Where the code does not do what its comments say

- The conditional update that guards a resume compares the status only. An attempt that read the record in one
  waiting period and updates it in a later one resumes the execution with the earlier data
  (`StaleFetchRollsBack`); one that read while a run was executing resumes it with that run's saved progress
  (`ProgressRollsBack`); a child's write can put earlier data back in the same way (`LateWriteRollsBack`);
  a child's write also lands on a parent that runs again without it (`WriteLandsOnRunningParent`);
  and a child that finishes before its parent is saved as waiting writes nothing, yet can resume it
  (`EarlyChildResumesWithSuspendedInput`). `ResumedDataIsThatOfItsOrigin` says for every winner that
  fetched suspended data what it resumes with, and when that is its own suspension; `FreshWinnerSchedule` and
  `FinishedChildResumesWithChildOutput` say on which schedules a child's output arrives.
- `setRunning` does not look at the status either, so that an execution canceled just before it runs all the same
  (`ResumeOverrulesCancel`).
- A resume that loses keeps the concurrency permit it took; as many lost resumes as the limit allows stop all
  limited executions, but for those that a removal lets through (`LostResumesStarve`).
- Stopping an execution that waits for a permit lets the next one through, although no permit came back. That
  is the only way to exceed the limit (`LimitBrokenByRemoval`), and the only way out of the starvation
  (`StarvedUntilRemoval`, `RemovalOvertakes`).
- A type that extends several others inherits from the last recognised one when it is resolved and from the
  first when it is read, so `setPlainData` changes reads (`SeveralParentsDisagree`). For all data it changes none
  exactly if, of every type with several parents, neither the later ones nor the parents of the first are
  recognised (`KeptExactlyWhenTame`); where all parents are recognised, that is single inheritance
  (`KeptExactlyForSingleParents`).
- `shutdown` waits for a table that is empty. An execution that is added or goes to wait after the cancel loop
  stays in the table when it is saved as waiting, and the loop does not end by itself
  (`AddInFlightBlocksShutdown`, `SuspensionBlocksShutdown`); `WaitLoopEnds` says exactly when it does.
- `shutdown` collects executions for `removeAll` to mark as canceled, but calls it when the limit is already
  disabled, so that it returns at once (`ShutdownMarksNobodyCanceled`).
- `stopTracking` keeps the entries whose timers it clears, so after a takeover the poll skips those executions
  (`TimedAfterTakeover`, `AbandonedStays`).
- Starting an execution forgets its timer without clearing it, so that one which is started by other means and
  waits again can have two (`StartedTwice`).
- The timeout of a resumed run is meant to count from the start of the execution. `setRunning` overwrites the
  start time at every resume (packages/@n8n/db/src/repositories/execution.repository.ts:418-424), so it counts
  from the previous run (`KillDeadlineAcrossResumes` has the exact condition).
- A purge of the pool cache closes all pools only if no creation overlapped another for the same key
  (`PurgeClosesAllButOrphans`); aborting a replaced pool closes its successor (`OrphanTakesSuccessorDown`).
- A retried activation that returns early leaves its workflow queued without a timer
  (`OneTimeoutPerQueuedWorkflow`, `RetryEffect`).

## Model

| member | source | states |
|---|---|---|
| ResumeProtocol.AtMostOneResumePerPeriod | packages/cli/src/active-executions.ts:85-108 | over every interleaving of any number of timers, children and requests in any processes, a waiting period is left by at most one attempt, and at most one run of the execution is live at any time |
| ResumeProtocol.LosersLeaveTheRecordAlone | packages/cli/src/wait-tracker.ts:129-145 | the update succeeds exactly when the record waits, and sets it running with the attempt's data; a refused attempt leaves the record unchanged and was beaten by the period's winner, unless the execution was canceled |
| ResumeProtocol.ResumedDataIsThatOfItsOrigin | packages/cli/src/active-executions.ts:90-102 | on every run, a winner that fetched suspended data, however long ago, resumes with exactly what was saved at the suspension the data came from; if a child had written into them, only the input of the next node differs and is what that child hands over; if suspensions differ outside that input, it is the suspension of the period it won exactly if the data came from there |
| ResumeProtocol.FreshWinnerSchedule | packages/cli/src/wait-tracker.ts:97-131 | a timer or child that fetched in the period it won has a child's output exactly if some child had written between suspension and fetch, and the data of that period exactly if nobody had or the last to write had read data of it |
| ResumeProtocol.FinishedChildResumesWithChildOutput | packages/cli/src/wait-tracker.ts:147-167 | a child that wrote in the period it wins resumes its parent with what a finished child that wrote in that period hands over as the next node's input, and everything else as at a suspension: that of the period exactly if the last writer had read data of it. What it hands over is the data of the last task of its last node or, pinned in manual mode, one item for every pinned item, paired with its place |
| ResumeProtocol.ChildOutputIs | packages/cli/src/workflow-helpers.ts:21-54 | the output found for a finished child is exactly what it hands over, and finding it throws exactly if pinned manual data meet a last node without a task |
| ResumeProtocol.LastTaskDecides | packages/cli/src/workflow-helpers.ts:33 | when the last node ran several times, the output is the data of its last task, whatever the earlier ones were |
| ResumeProtocol.FetchOutcome | packages/cli/src/wait-tracker.ts:101-112 | a timer or child fails exactly if the execution is finished, a request also if it is running or has an error noted; otherwise a timer or child holds what the record has |
| ResumeProtocol.RequestResumesWithItsAnswer | packages/cli/src/webhooks/webhook-helpers.ts:340-345 | on every run, a request that wins resumes with the answer it gave |
| ResumeProtocol.CanceledWaitIsOver | packages/cli/src/active-executions.ts:90-106 | a waiting period whose execution is canceled is never won, whatever happens later |
| ResumeProtocol.CompletedRunIsOver | packages/cli/src/wait-tracker.ts:110-112 | once a run has completed, well or with an error, no attempt ever wins again, and the execution is finished for good exactly if it went well |
| ResumeProtocol.CrashedRunIsOver | packages/cli/src/active-executions.ts:90-106 | the run of a process that dies is never taken up: the record waits no more and no attempt wins again |
| ResumeProtocol.CrashSilencesItsProcess | packages/cli/src/active-executions.ts:90-106 | a crash ends every attempt of its process for good, and touches neither the record nor other processes |
| ResumeProtocol.StaleFetchRollsBack | packages/cli/src/wait-tracker.ts:97-131 | a reachable run in which an attempt wins the second waiting period with the data of the first |
| ResumeProtocol.ProgressRollsBack | packages/cli/src/wait-tracker.ts:101-112 | a reachable run in which an attempt that fetched from an executing run wins a later period with the progress that run had saved |
| ResumeProtocol.LateWriteRollsBack | packages/cli/src/workflow-helpers.ts:245-269 | a reachable run in which a child's write puts the data of an earlier suspension back |
| ResumeProtocol.WriteLandsOnRunningParent | packages/cli/src/workflow-helpers.ts:261-270 | a reachable run in which a child's output is written into the record of a parent that already runs again without it |
| ResumeProtocol.ResumeOverrulesCancel | packages/@n8n/db/src/repositories/execution.repository.ts:418-424 | a reachable run in which an execution canceled between the conditional update and `setRunning` runs all the same |
| ResumeProtocol.EarlyChildResumesWithSuspendedInput | packages/cli/src/workflow-helpers.ts:250-252 | a reachable run in which a child that finished early resumes its parent with the suspended input |
| ResumeProtocol.UnreadableChildNeverResumes | packages/cli/src/workflow-helpers.ts:21-51 | a finished child with pinned manual data on a last node without a task never writes to its parent and never resumes it, on any run; every other child goes on to restart its parent |
| ResumeProtocol.ExecutionRow.UpdateExistingExecution | packages/@n8n/db/src/repositories/execution.repository.ts:434-508 | the row after an update and whether it happened, with and without a required status, for a row that is there or gone, on either kind of driver |
| ResumeProtocol.ExecutionRow.ReadParent | packages/cli/src/workflow-helpers.ts:242-259 | the read fails exactly if the child is unreadable, and yields the parent's data exactly if the child hands something over and the parent waits on a node; as the child's step of the protocol, with the snapshot that step takes |
| ResumeProtocol.ExecutionRow.WriteParent | packages/cli/src/workflow-helpers.ts:261-270 | the write is the child's second step of the protocol, whatever the row holds by then |
| ResumeProtocol.ExecutionRow.Resume | packages/cli/src/active-executions.ts:90-102 | the conditional update is the step of the protocol, and succeeds exactly when that step wins |
| ExecutionLifecycle.PermitAccounting | packages/cli/src/active-executions.ts:80-138 | in every regular-mode run permits granted equal those released plus adds in flight, unsettled promises and lost resumes; each entry releases once, at its callback; the capacity is the limit less the permits out and the calls waiting; the limit is exceeded by at most the calls that removals let through, and a call waits only while it is used up |
| ExecutionLifecycle.LongestWaitingGoesFirst | packages/cli/src/concurrency/concurrency-queue.ts:65-75 | in every step of every run, when a waiting call is let through no call that came before it is still waiting |
| ExecutionLifecycle.ThrottledModes | packages/cli/src/concurrency/concurrency-control.service.ts:116-120 | on every run, a call waits exactly if its mode is webhook, trigger or chat and the permits out with the calls waiting reach the limit; other modes go through without a permit |
| ExecutionLifecycle.LimitBrokenByRemoval | packages/cli/src/concurrency/concurrency-queue.ts:45-75 | a step takes more permits out than the limit allows exactly if it removes a queued execution while another waits |
| ExecutionLifecycle.LostResumesStarve | packages/cli/src/active-executions.ts:88-107 | once as many resumes have lost as the limit allows, the limited executions starting or running are at most as many as removals from the queue have let through |
| ExecutionLifecycle.StarvedUntilRemoval | packages/cli/src/concurrency/concurrency-queue.ts:45-75 | while lost resumes hold all permits and nothing runs, a step lets a call through exactly if it removes a queued execution while another waits |
| ExecutionLifecycle.RemovalOvertakes | packages/cli/src/executions/execution.service.ts:501-505 | a reachable run with a limit of one in which two permits are out |
| ExecutionLifecycle.StoppedWhileQueuedNeverStarts | packages/cli/src/executions/execution.service.ts:501-505 | the execution that was removed from the queue never starts |
| ExecutionLifecycle.ShutdownKeepsThrottledCallsOut | packages/cli/src/active-executions.ts:279-284 | after a regular-mode shutdown a throttled call never resumes |
| ExecutionLifecycle.StepKeepsEntry | packages/cli/src/active-executions.ts:110-138 | unless an earlier object of the execution has settled finally and its callback is still to run, its entry leaves the table exactly by its own final settle, a stop while waiting or shutdown; otherwise start time and response promise carry over |
| ExecutionLifecycle.AddInsertsRunning | packages/cli/src/active-executions.ts:110-121 | an `add` that returns puts a running, pending entry of its own into the table, which starts now or carries start time and response promise over |
| ExecutionLifecycle.WorkflowReference | packages/cli/src/active-executions.ts:131-133 | the running workflow of an entry is set by attaching it, dropped by the callback of a waiting entry, and touched by no other step |
| ExecutionLifecycle.EarlierObjectsHarmless | packages/cli/src/active-executions.ts:124-138 | the entry is safe from earlier objects in every next step exactly if none of them has settled finally with its callback still to run |
| ExecutionLifecycle.StepGenerations | packages/cli/src/active-executions.ts:110-121 | a step leaves such an earlier object behind exactly if it inserts an entry between a final settle and its callback |
| ExecutionLifecycle.WaitCyclesKeepEntry | packages/cli/src/active-executions.ts:110-121 | over any number of wait and resume cycles, none inserting an entry between a final settle and its callback, the entry stays, with the first start time and the response promise attached last; losing resumes and other executions are unrestricted |
| ExecutionLifecycle.SettledExecutionLeaves | packages/cli/src/active-executions.ts:175-221 | what stop and finalize, followed by the settle callback, do to the table and to the permit |
| ExecutionLifecycle.PermitComesBackUnlessOrphan | packages/cli/src/active-executions.ts:124-138 | some continuation of the run gives the permit of an entry back exactly if the entry is not a pending one that was stopped while waiting or replaced |
| ExecutionLifecycle.OrphanNeverSettles | packages/cli/src/active-executions.ts:190-197 | a pending promise whose entry was stopped while waiting or replaced never settles, so its permit stays out |
| ExecutionLifecycle.ResumeBeforeFinalizeLosesEntry | packages/cli/src/active-executions.ts:129-138 | a reachable run in which a resume that comes before the earlier finalize loses its entry while it runs |
| ExecutionLifecycle.CancelLoopRemains | packages/cli/src/active-executions.ts:286-298 | after the cancel loop of any run exactly the executions that were not waiting are left, none drained; those with a response promise, or all in a regular-mode shutdown that cancels everything, have settled |
| ExecutionLifecycle.WaitLoopEnds | packages/cli/src/active-executions.ts:302-311 | whatever happens during the wait loop, once every entry left has settled and run its callback the table is empty if and only if no execution was found waiting by such a callback without being stopped or resumed since |
| ExecutionLifecycle.ParkedByCallbackOnly | packages/cli/src/active-executions.ts:129-138 | a step leaves an entry in the table that no callback will remove exactly if it is the callback of an entry with status waiting |
| ExecutionLifecycle.AddInFlightBlocksShutdown | packages/cli/src/active-executions.ts:278-311 | a run in which an add in flight at a shutdown that cancels everything keeps the table from becoming empty |
| ExecutionLifecycle.SuspensionBlocksShutdown | packages/cli/src/commands/start.ts:112 | a run in which an execution that goes to wait during a shutdown that does not cancel everything keeps it from becoming empty |
| ExecutionLifecycle.ShutdownMarksNobodyCanceled | packages/cli/src/concurrency/concurrency-control.service.ts:145-163 | on every run, in either mode, the removeAll of a shutdown changes no queue and marks no execution canceled |
| ActiveExecutions.ActiveExecutions.BeginAdd | packages/cli/src/active-executions.ts:55-88 | `add` up to the throttle, as the step of the lifecycle |
| ActiveExecutions.ActiveExecutions.CompleteAdd | packages/cli/src/active-executions.ts:98-121 | the rest of `add`, and exactly when it throws |
| ActiveExecutions.ActiveExecutions.StopExecution | packages/cli/src/active-executions.ts:175-199 | the whole new state, as the step of the lifecycle |
| ActiveExecutions.ActiveExecutions.FinalizeExecution | packages/cli/src/active-executions.ts:202-221 | the whole new state, as the step of the lifecycle |
| ActiveExecutions.ActiveExecutions.SettleCallback | packages/cli/src/active-executions.ts:124-138 | the whole new state, as the step of the lifecycle |
| ActiveExecutions.ActiveExecutions.Release | packages/cli/src/concurrency/concurrency-queue.ts:39-43 | a release raises the capacity and lets the head of the queue through, the call that has waited longest (`LongestWaitingGoesFirst`) |
| ActiveExecutions.ActiveExecutions.RemoveQueued | packages/cli/src/concurrency/concurrency-queue.ts:45-75 | the first call of the execution is taken out of the queue, the capacity rises, and the call that has waited longest of the others goes through (`LongestWaitingGoesFirst`) |
| ActiveExecutions.ActiveExecutions.AttachResponsePromise | packages/cli/src/active-executions.ts:153-158 | the whole new state, and exactly when it throws |
| ActiveExecutions.ActiveExecutions.CancelLoop | packages/cli/src/active-executions.ts:286-298 | the loop over the keys, as the recursive definition, with the executions it collects |
| ExecutionLifecycle.CancelLoopIsShutdown | packages/cli/src/active-executions.ts:286-298 | in any key order the loop does to every entry what the closed form says, and collects exactly the executions it cancels |
| ActiveExecutions.ActiveExecutions.RemoveAll | packages/cli/src/concurrency/concurrency-control.service.ts:145-163 | nothing when the limit is disabled, otherwise one removal per queued execution |
| ExecutionLifecycle.RemoveEachEmpties | packages/cli/src/concurrency/concurrency-control.service.ts:148-154 | removing every queued execution empties the queue, although every removal lets another call through |
| ActiveExecutions.ActiveExecutions.Shutdown | packages/cli/src/active-executions.ts:278-300 | the state after the cancel loop, and that no execution is marked canceled |
| WaitTracker.TrackedIsTimed | packages/cli/src/wait-tracker.ts:59-87 | until a stepdown every tracked execution has a live timer of its own, in every run |
| WaitTracker.PollTimesTheUntracked | packages/cli/src/wait-tracker.ts:75-86 | a poll sets a new timer for a found execution exactly if it is not tracked |
| WaitTracker.TimedAfterTakeover | packages/cli/src/wait-tracker.ts:170-181 | after stepdown and takeover a found execution has a live timer exactly if it was not tracked or a duplicate timer survived |
| WaitTracker.AbandonedStays | packages/cli/src/wait-tracker.ts:77-86 | a tracked execution without a live timer is never timed again by any poll |
| WaitTracker.StopClears | packages/cli/src/wait-tracker.ts:89-95 | stopping an execution clears the timer of its entry, drops the entry, and touches no other |
| WaitTracker.StartKeepsTimeout | packages/cli/src/wait-tracker.ts:97-99 | starting an execution drops its entry and leaves every timer set |
| WaitTracker.FireStarts | packages/cli/src/wait-tracker.ts:81-83 | a timer that fires starts its execution and is gone; one that is not set does nothing |
| WaitTracker.NeverFiresAgain | packages/cli/src/wait-tracker.ts:89-95 | a timer that has fired or been cleared never fires again, in any run |
| WaitTracker.StartedTwice | packages/cli/src/wait-tracker.ts:97-99 | a run in which an execution has two live timers, both of which will start it |
| WaitTracker.WaitTracker.GetWaitingExecutions | packages/cli/src/wait-tracker.ts:77-86 | the loop over the found executions, as the recursive definition |
| WaitTracker.WaitTracker.StopTracking | packages/cli/src/wait-tracker.ts:171-181 | exactly the timers of the entries are cleared, and every entry stays |
| CredentialTypes.GetParentTypes | packages/cli/src/credential-types.ts:26-38 | the loop over the list it extends terminates and returns the generations of ancestors one after the other |
| CredentialTypes.ParentsAreTheAncestors | packages/cli/src/credential-types.ts:26-38 | the result holds exactly the strict transitive ancestors |
| CredentialTypes.NearestFirst | packages/cli/src/credential-types.ts:31-37 | under single inheritance the list starts with the chain of ancestors, nearest first, and then only repeats |
| CredentialTypes.AcyclicIsRanked | packages/cli/src/credential-types.ts:26-38 | every extends relation without cycles has the rank that termination needs |
| CredentialTypes.RankedIsAcyclic | packages/cli/src/credential-types.ts:26-38 | and only those have one |
| CredentialsOverwrites.GetAfterSetPlainData | packages/cli/src/credentials-overwrites.ts:115-128 | for every key order, a read after `setPlainData` gives the value at the nearest type that defines the key in the raw data |
| CredentialsOverwrites.GetOverwritesBetween | packages/cli/src/credentials-overwrites.ts:171-201 | whatever the memo holds, the result lies between the raw and the fully inherited fields |
| CredentialsOverwrites.GetIsNearest | packages/cli/src/credentials-overwrites.ts:203-210 | reversing, merging and repeating ancestors comes to the nearest definition in the table |
| CredentialsOverwrites.ReloadIsStable | packages/cli/src/credentials-overwrites.ts:130-138 | setting the rewritten table again changes no result of `applyOverwrite` |
| ResolvedTypes.DescendantFirstLeavesRaw | packages/cli/src/credentials-overwrites.ts:171-201 | on any hierarchy, a type whose turn comes after that of a descendant keeps its raw fields in the table |
| CredentialsOverwrites.FilledOnlyEmpty | packages/cli/src/credentials-overwrites.ts:152-169 | only null, undefined or empty fields change, each to its overwrite, and applying twice is applying once |
| SeveralParents.SeveralParentsDisagree | packages/cli/src/credentials-overwrites.ts:189-192 | in every acyclic hierarchy, for every type that can inherit from more than its first parent, there are data for which `setPlainData` changes a read |
| SeveralParents.KeptExactlyWhenTame | packages/cli/src/credentials-overwrites.ts:171-210 | for all data and key orders `setPlainData` changes no read, if and only if the later parents of every type, and the parents of its first one, are not recognised |
| SeveralParents.KeptExactlyForSingleParents | packages/cli/src/credentials-overwrites.ts:115-128 | where all parents are recognised, that is so if and only if no type extends several others |
| SeveralParents.TameReloadIsStable | packages/cli/src/credentials-overwrites.ts:130-138 | on all those hierarchies setting the rewritten table again changes no result of `applyOverwrite` |
| CredentialsOverwrites.CredentialsOverwrites.GetOverwritesOf | packages/cli/src/credentials-overwrites.ts:171-201 | result and memo of the recursive method |
| CredentialsOverwrites.CredentialsOverwrites.SetPlain | packages/cli/src/credentials-overwrites.ts:115-128 | the table after the loop that rewrites what it goes through |
| CredentialsOverwrites.CredentialsOverwrites.GetFor | packages/cli/src/credentials-overwrites.ts:203-210 | the fields a read gives |
| CredentialsOverwrites.CredentialsOverwrites.ApplyOverwrite | packages/cli/src/credentials-overwrites.ts:152-169 | the loop over the overwrites fills exactly the empty fields |
| ConnectionPool.NoAbortedPoolIsCached | packages/nodes-base/utils/connection-pool-manager.ts:91-133 | in every reachable state no cached registration has an aborted controller |
| ConnectionPool.AbortIsRemoval | packages/nodes-base/utils/connection-pool-manager.ts:118-133 | the re-entrant abort and cleanup come to one removal of whatever is cached under the key |
| ConnectionPool.OnlyOverlapOrphans | packages/nodes-base/utils/connection-pool-manager.ts:102-117 | a pool is orphaned exactly when another creation for its key ends while it is cached |
| ConnectionPool.PurgeClosesAllButOrphans | packages/nodes-base/utils/connection-pool-manager.ts:149-157 | a purge empties the cache, and closes every pool exactly if none was orphaned |
| ConnectionPool.OrphanTakesSuccessorDown | packages/nodes-base/utils/connection-pool-manager.ts:118-133 | aborting an orphan removes and aborts the newer pool |
| ConnectionPool.IdlePoolsLeaveInTime | packages/nodes-base/utils/connection-pool-manager.ts:139-147 | a pool last used at t is out six minutes later, in every timed run of accesses, creations, aborts and punctual sweeps |
| ConnectionPool.PoolsInUseStay | packages/nodes-base/utils/connection-pool-manager.ts:96-99 | after a hit at t every timed run up to t plus five minutes still caches the same pool under the same controller, unless it is purged, aborted or replaced |
| ConnectionPool.StepKeepsPool | packages/nodes-base/utils/connection-pool-manager.ts:91-157 | a cached pool stays exactly if it is not purged, swept, aborted or replaced; a hit renews its stamp and no other step does |
| ConnectionPool.SweepTakesTheIdle | packages/nodes-base/utils/connection-pool-manager.ts:139-147 | a sweep takes out exactly the pools idle for longer than five minutes and aborts exactly their controllers |
| ConnectionPool.CachedPoolWasCreated | packages/nodes-base/utils/connection-pool-manager.ts:102-117 | in every reachable state a cached pool is one that was created under the controller cached with it |
| ConnectionPool.ConnectionPoolManager.GetConnection | packages/nodes-base/utils/connection-pool-manager.ts:91-105 | a hit returns the cached pool, not aborted, and renews it; a miss makes a new controller |
| ConnectionPool.ConnectionPoolManager.Created | packages/nodes-base/utils/connection-pool-manager.ts:104-123 | the pool is cached and listened to, unless its controller was aborted meanwhile |
| ConnectionPool.ConnectionPoolManager.CleanupConnection | packages/nodes-base/utils/connection-pool-manager.ts:126-133 | the cleanup with the aborts it causes |
| ConnectionPool.ConnectionPoolManager.CleanupStaleConnections | packages/nodes-base/utils/connection-pool-manager.ts:139-147 | deleting while iterating removes exactly the entries idle longer than the limit |
| ConnectionPool.ConnectionPoolManager.PurgeConnections | packages/nodes-base/utils/connection-pool-manager.ts:153-157 | deleting while iterating leaves the map empty |
| CredentialRepair.CachesDoNotShow | packages/cli/src/workflow-helpers.ts:71-175 | with caches the pass gives the cache-free result, up to null ids, if and only if no entry reuses the type and id of an earlier unresolved reference under another name |
| CredentialRepair.SecondPassChangesNothing | packages/cli/src/workflow-helpers.ts:71-175 | a second pass over the same database changes nothing |
| CredentialRepair.RepairOutcome | packages/cli/src/workflow-helpers.ts:86-171 | an old-style entry gets an id exactly if one single place of the database holds its type and name, and then that id; a known id gets the name stored with it; an unknown id becomes the first dead reference to it, if there was one, and is otherwise resolved by its name in the same way |
| CredentialRepair.RepairOne | packages/cli/src/workflow-helpers.ts:86-171 | one turn of the loop gives what the history of entries determines, which `RepairOutcome` states by places of the database, and keeps both caches in step with it |
| CredentialRepair.ReplaceInvalidCredentials | packages/cli/src/workflow-helpers.ts:82-174 | the pass in place over all nodes, disabled ones untouched: the enabled entries become those of `RepairOutcome`, each at its own place |
| ActivationQueue.OneTimeoutPerQueuedWorkflow | packages/cli/src/active-workflow-manager.ts:772-824 | in every reachable state a queued workflow has exactly one live timer, set to the delay of its failures, unless a retry returned early; any other workflow has none |
| ActivationQueue.DelayShape | packages/cli/src/active-workflow-manager.ts:788-791 | the delay min(1000 * 2^n, one day) never falls, rises up to n = 17 and is one day exactly from there |
| ActivationQueue.NextDelay | packages/cli/src/constants.ts:80-81 | the capped doubling steps along the closed form |
| ActivationQueue.RetryEffect | packages/cli/src/active-workflow-manager.ts:779-812 | what each outcome of a retry leaves in the queue |
| ActivationQueue.QueuedAfresh | packages/cli/src/active-workflow-manager.ts:814-823 | a workflow that is queued, again or for the first time, is retried after 1000 ms, by that timer alone; no other workflow is touched |
| ActivationQueue.RemovedIsGone | packages/cli/src/active-workflow-manager.ts:829-834 | a removed workflow is off the queue and has no timer; no other workflow is touched |
| ActivationQueue.RetryTouchesItsOwn | packages/cli/src/active-workflow-manager.ts:779-812 | a retry touches no workflow but its own, and a timer that was cleared does nothing |
| ActivationQueue.DelayAfterFailures | packages/cli/src/active-workflow-manager.ts:788-805 | after k failures in a row the only timer of the workflow is due in 1000 * 2^k ms, from k = 17 on in a day |
| ActivationQueue.ActivationRetries.AddQueuedWorkflowActivation | packages/cli/src/active-workflow-manager.ts:814-823 | an older timer of the workflow is cleared before the new one is set |
| ActivationQueue.ActivationRetries.RetryFunction | packages/cli/src/active-workflow-manager.ts:779-812 | the retry body keeps the queue valid and is the step of the model |
| ActivationQueue.ActivationRetries.RemoveAllQueuedWorkflowActivations | packages/cli/src/active-workflow-manager.ts:839-843 | deleting while iterating leaves no entry and no timer |
| Backtracking.FindPairedItemThroughWorkflowData | packages/nodes-base/utils/workflow-backtracking.ts:44-114 | if sources lead to earlier entries the loop ends; the result is that of a walk which starts at the last run of the last node, goes on to the run that the first source names, 0 if it names none, and ends where no such run exists |
| Backtracking.PreviousIs | packages/nodes-base/utils/workflow-backtracking.ts:24-42 | the previous task is the run that the first source names, and there is none exactly if it names none |
| Backtracking.ResultIsFromFirstTask | packages/nodes-base/utils/workflow-backtracking.ts:112-114 | the result is the paired item of an item of the first entry of the chain |
| Backtracking.MissingLinkFallsBack | packages/nodes-base/utils/workflow-backtracking.ts:90-103 | a missing or array link continues with input 0 and the original item index |
| Backtracking.UnchangedIndexes | packages/nodes-base/utils/workflow-backtracking.ts:84-110 | through entries that pair every item with its own index an item is traced to its own index |
| FlattenObject.FlattenRepresents | packages/nodes-base/utils/utilities.ts:346-366 | each leaf is under exactly its dotted path and nothing else is there |
| FlattenObject.FlattenRoundTrip | packages/nodes-base/utils/utilities.ts:346-366 | splitting the keys on dots rebuilds the tree |
| FlattenObject.DotCollides | packages/nodes-base/utils/utilities.ts:358 | a key with a dot can swallow a leaf |
| FlattenObject.OneField | packages/nodes-base/utils/utilities.ts:348-364 | one field gives a date's text, any other plain value itself, and of an object its flattened fields that are not undefined, behind the key and a dot |
| FlattenObject.LaterFieldWins | packages/nodes-base/utils/utilities.ts:348-364 | a later field overwrites what is there under its keys and leaves the rest |
| FlattenObject.DatesAreTexts | packages/nodes-base/utils/utilities.ts:350-353 | a date flattens like its text, at any depth |
| FlattenObject.FlattenRoundTripWithDates | packages/nodes-base/utils/utilities.ts:346-366 | the round trip holds for objects with dates, up to writing a date as its text |
| FlattenObject.FlattenFields | packages/nodes-base/utils/utilities.ts:346-366 | the nested loops compute the recursive definition |
| Deduplication.EachKeyOnceByItsLastItem | packages/core/src/data-deduplication-service.ts:68-84 | if the deduplicator partitions the keys, the outputs hold each distinct key once, by the last item that carries it |
| Deduplication.PickedAreLast | packages/core/src/data-deduplication-service.ts:81-84 | whatever the deduplicator answers, a key of the input gives the last item that carries it and any other key gives nothing |
| Deduplication.CheckProcessedItems | packages/core/src/data-deduplication-service.ts:68-84 | the reduction and the two picks, for any answer |
| Timeouts.DeadlineIsTheMinimum | packages/cli/src/workflow-execute-additional-data.ts:254-265 | down any chain of nested calls the deadline is the minimum of the root deadline and all positive own deadlines |
| Timeouts.DeadlineNeverIncreases | packages/cli/src/workflow-execute-additional-data.ts:254-265 | a nested call has a later deadline than its caller only if the root deadline is 0, which no caller passes, and it is the first with a limit of its own |
| Timeouts.KillDeadlineAcrossResumes | packages/cli/src/workflow-runner.ts:311-333 | a resumed run is stopped at max(now, previous start + limit), and exactly when that equals the limit from the first start |
| Timeouts.FirstResumeCountsFromTheStart | packages/cli/src/workflow-runner.ts:313-318 | the first resume is counted from the first start |
| Timeouts.LaterResumesExtendTheDeadline | packages/cli/src/workflow-runner.ts:264 | a second resume can stop later than the limit from the first start |
| Timeouts.RunMainProcess | packages/cli/src/workflow-runner.ts:223-333 | without a positive limit or maximum neither timer is set; otherwise the soft deadline is the smaller of setting and maximum from now, the setting going before the default, and the run is stopped at the later of now and start plus that limit |
| Timeouts.WorkflowTimeoutIs | packages/cli/src/workflow-runner.ts:224-227 | the setting goes before the default, and a positive one of either is cut to the maximum |
| Timeouts.StartExecution | packages/cli/src/workflow-execute-additional-data.ts:254-265 | the deadline handed to a sub-workflow |

## Left out

- ResumeProtocol.ExecutionRow.UpdateExistingExecution: takes the two updates of the legacy SQLite driver without a pool as one step.
- ExecutionLifecycle.PermitAccounting: has one limited queue, production; the evaluation queue is a second copy of it.
- CredentialsOverwrites.GetAfterSetPlainData: names the nearest definition under single inheritance, as do GetIsNearest, GetOverwritesBetween and ReloadIsStable; other hierarchies are the matter of `SeveralParents`.
- SeveralParents.KeptExactlyWhenTame: takes parent lists that do not name their first parent a second time.
- CredentialRepair.CachesDoNotShow: takes a database in which an id belongs to one credential, and names that are not properties of every JavaScript object.
- ActivationQueue.OneTimeoutPerQueuedWorkflow: takes the body of a retry as one step.
- The steps of `ResumeProtocol` work on values, except for `ExecutionRow`; the parent's run data are not updated through shared references, and the record is not deleted while it is resumed.
- Hierarchies assume that the known and the loaded credential types agree on what a type extends.
- What a webhook, form or chat message makes of the run data it resumes with is arbitrary in the model.
- The database work of a shutdown, and the timer that ends the process when a shutdown takes too long, are not part of this model.
- Response promises are only carried along; that they are settled, streamed to or closed is not modelled.
- When the timers of `WaitTracker` fire, that is their trigger time, is not part of this model.
- Retries, kills and sweeps come exactly on time; delays beyond 2^31 milliseconds, which Node.js shortens, are not modelled.
- Abort listeners that a pool handler adds itself are taken not to call the manager.
- Item positions, run indexes and timeouts are integers.
- `chunk`, `shuffleArray`, `getVariables` and the order in which `run` attaches promises: they would add easy members only.
- Webhooks, pub/sub, hooks, encryption, hashing of pool keys, logging and the workflow engine are not part of this model.
