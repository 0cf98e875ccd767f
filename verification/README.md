# A verified model of the bridge backend's stateful cores

The backend receives chat events from a bridge, runs chatbots on them and sends replies, one by one or
in bulk. This project models the parts of it that keep state across calls, and proves what they promise
over every run:

* **Event scheduler** (`Scheduler`, `SchedulerSafety`, `Pipeline*`). `MemoryPipeline` with per-room
  queues, the line of ready rooms, the active set, the dedupe window and the counters. `Scheduler` holds
  one function per lock region and a class whose methods work in place and equal those functions.
  `Pipeline` puts any number of request threads, workers and the SQLite writer around it. An admission
  takes two lock regions with a writer call between them and is in flight in the meantime.
* **Reply-job leases** (`ReplyJobs`, `Lease*`, `Dispatch`). The guarded updates of the reply_jobs table,
  driven by request threads, any number of dispatch workers and duplicate queue tasks, and the recovery
  scheduler, which lists rows in one step and updates them in another. The request thread's own write is
  taken to come before any recovery step on its job.
* **State store** (`StateMap`, `StateRefinement`, `StateStore`). The write-back cache, the table and the
  writer's FIFO queue, against one plain expiring map. The class takes each operation whole. The runs also
  have the halves that the code does apart: finding a row and caching it later, removing a row after the
  cache entry, flushing a captured entry; each half comes with the exact condition for it to be harmless.
* **Hot reload** (`Registry`, `HotReload`, `HotReloadRuns`, `HotReloadBots`, `HotReloadProgress`,
  `HotReloadConvergence`, `ReloadService`). The incremental scan
  with its per-tick budget, failure isolation, duplicate-key arbitration and the cached sorted view.
* **Paged listings** (`Sorting`, `Paging`, `Text`, `Listings`). Following `nextCursor` to the end, once
  in general and for messages, send targets and batch items, down to the text of the cursors.
* **Bulk sends** (`Targets`, `Batches`, `BatchRuns`). Target resolution and the batch ledger.
* **Reply rate limiter** (`RateLimiter`). Slot reservation, with times as exact reals.

In-place code is a class or a method with loops, and its contract ties the new state to a function of
the old one; the theorems are about these functions and about runs of them.

`dafny verify dfyconfig.toml` checks the whole project.

## What turned out false

Each of these properties fails for a run or an input that a lemma names. Beside it stands the exact
condition under which the property does hold, proved in both directions.

* *An id stays in the dedupe window for its TTL.* Three admissions of one id that overlap and commit out
  of clock order lose it (`PipelineDedupe.OverlapLosesWindow`). In every interleaving it holds exactly
  when no admission starts on a line whose expired head has the id's current record and a young record
  behind it (`ForgetsExact` for one step, `KeptExact` for runs); such a line needs three accepts out of
  clock order (`ForgetsNeedsThree`), and admissions of one id that never overlap make none
  (`SeparateNeverForgets`).
* *No two adapter calls for one job at once.* Recovery updates a row it listed earlier by status alone
  (`LeaseExclusion.RecoveryRaceBreaksExclusion`). With calls settled within their leases, calls hold their
  rows throughout a run exactly when no recovery update hits a job whose call is in progress
  (`RequeueExact`, `ExclusiveExact`), and two calls can come about from a state exactly when such an
  update can (`CollisionExact`; the steps are in `HitBreaksExclusion`). Checking the lease at the update is
  enough (`LeaseExclusionHolds`).
* *The state store answers as a plain map.* Operations that overlap lose a write: a flush
  (`StateRefinement.OverlappingFlushLosesWrite`, exact: `FlushExact`), a read that caches its row late
  (`LateRememberLosesWrite`, exact: `RememberExact`), a delete that removes its row late
  (`LateRemoveLosesWrite`, exact: `RemoveRowExact`). A mutate can start from a deleted value
  (`MutateReadsDeletedRow`, exact: `MutateDeletedExact`, and `LoadExact` and `GetExact` for every read that
  reaches the table). The size-rejection fall-through of `BotStateStore.mutate` reports a value that no
  reader sees (`FallThroughIsInvisible`); it reports the current value for every key that is neither dirty
  nor named by a waiting task (`FallThroughReplyPlain`, exact: `FallThroughReplyExact`), and what it writes
  stays hidden (`FallThroughAgreesExact`).
* *The key of a loaded file is registered.* A file that failed as a duplicate and then changes its key
  unregisters the bot of the file it duplicated (`HotReload.DuplicateThenRenamed`, three ticks from an
  empty service; exact: `LoadRegisteredExact` for one load, `HotReloadRuns.RegisteredExact` for runs).
* *Every tick reduces the outdated files.* Duplicate-key retries can use up every tick's budget
  (`HotReloadProgress.RetriesStarve`, two ticks from an empty service and then for ever; exact:
  `TickFallsExact`).
* *Following the cursor shows everything.* Message pages of 200 lose their look-ahead row, and batch item
  limits above 1000 end after one page (exact: `Listings.MessagePages`, `TargetPages`, `ItemPages`).
* *Targets and exclusions are the rooms asked for.* A filter lists its rows with the maximum as limit, so
  rooms that match beyond it vanish (`Targets.LimitLosesRoom`, exact: `FilterExact`), and a filter request
  with a positive maximum is never refused for its size (`FilterExceedsExact`, `Batches.CreateFilterBatch`).
  With room keys and a filter, rooms asked for both ways and excluded either way count twice; the exact
  balance is in `ResolveRoomsAndFilter`. A negative maximum adds to the exclusions (`CutConserves`).
* *A completed batch has only settled jobs.* Jobs under way count as skipped
  (`BatchRuns.CompletedWhileDispatching`; exact: `ClosedMeansSettledExact`). Its counters cover at most
  1000 items (exact: `RefreshLedger`, `LedgerRun`).
* *COMPLETED, FAILED and CANCELED never change.* They do not if refreshes and cancellations are taken whole
  (`BatchRuns.KeptRun`). Both read the row and write it later: a cancellation inside a refresh is lost
  (`CancelLostToRefresh`, exact: `SplitRefreshExact`), and a batch completed inside a cancellation becomes
  canceled (`CompletedLostToCancel`, exact: `SplitCancelExact`).
* *Different bots, rooms and senders have different slot lines.* Names with a bar collide
  (`RateLimiter.BarsCollide`), a missing sender collides with the sender `_`, and a star stands for every
  room or sender. Exact: `RoomLineExact`, `GlobalLine` and `OwnSenderExact` within a scope,
  `OwnTargetExact` across scopes, all on the fields of the call; `OwnLineExact` on the parts of the key.

## Model

| member | source | states |
|---|---|---|
| `Scheduler.MemoryPipeline.constructor` | app/infra/memory_pipeline.py:271-296 | a new pipeline is empty |
| `Scheduler.MemoryPipeline.EvictDedupe` | app/infra/memory_pipeline.py:437-444 | the loop removes the records at the head of the order that are older than the TTL, and an id only if its record is the current one |
| `Scheduler.MemoryPipeline.BeginAdmission` | app/infra/memory_pipeline.py:308-331 | the first lock region: eviction, then the verdict, with the whole new state |
| `Scheduler.MemoryPipeline.AdmitToRoom` | app/infra/memory_pipeline.py:312-331 | duplicate, partition limit, or the capacity checks on an opened queue |
| `Scheduler.MemoryPipeline.ReserveSlot` | app/infra/memory_pipeline.py:321-331 | global limit, room limit, and dropping the oldest event under that policy |
| `Scheduler.MemoryPipeline.RefuseBackup` | app/infra/memory_pipeline.py:333-336 | a refused backup counts as a rejection and changes nothing else |
| `Scheduler.MemoryPipeline.CommitAdmission` | app/infra/memory_pipeline.py:346-355 | the second lock region: event at the tail, dedupe record, totals, room made ready |
| `Scheduler.MemoryPipeline.MarkRoomReady` | app/infra/memory_pipeline.py:431-435 | a room enters the line only if it is neither ready nor active |
| `Scheduler.MemoryPipeline.NextItem` | app/infra/memory_pipeline.py:410-429 | the first ready room leaves the line and its oldest event becomes active, or nothing if its queue is empty |
| `Scheduler.MemoryPipeline.CountOutcome` | app/infra/memory_pipeline.py:395-400 | exactly one of processed and errors goes up |
| `Scheduler.MemoryPipeline.FinishRoom` | app/infra/memory_pipeline.py:401-406 | the room is released and becomes ready again if events wait |
| `SchedulerSafety.VerdictExact` | app/infra/memory_pipeline.py:312-331 | which events go through and which refusal the others get, on the scheduler's fields; a room with a queue or a worker is never refused for the partitions, a full room only under the rejecting policy |
| `SchedulerSafety.AdmitExact` | app/infra/memory_pipeline.py:312-331 | what each answer does to counters, queues and totals; only an event that goes through into a full room drops its oldest event |
| `SchedulerSafety.BeginKeepsSafe` | app/infra/memory_pipeline.py:310-331 | the first lock region keeps the line repetition-free and equal to its set, ready and active apart, totals exact, and no room with waiting events lost |
| `SchedulerSafety.CommitKeepsSafe` | app/infra/memory_pipeline.py:346-356 | so does the second |
| `SchedulerSafety.PickKeepsSafe` | app/infra/memory_pipeline.py:410-429 | so does a pick, and the picked room was not active |
| `SchedulerSafety.FinishKeepsSafe` | app/infra/memory_pipeline.py:401-408 | so does a finish |
| `PipelineRuns.SafeStep` | app/infra/memory_pipeline.py:298-435 | every step of every thread keeps the scheduler safe and each active room held by exactly one worker |
| `PipelineRuns.SafeRun` | app/infra/memory_pipeline.py:298-435 | scheduler safety and no lost room over every interleaving |
| `PipelineRuns.LedgerRun` | app/infra/memory_pipeline.py:310-429 | accepted = queued + active + processed + errors + dropped, up to rooms between their count and their release; calls = accepted + duplicate + rejected + in flight |
| `PipelineOrder.OrderRun` | app/infra/memory_pipeline.py:324-429 | for every room, accepted = removed followed by queued, started is a subsequence of removed, and all started but the held one are finished |
| `PipelineOrder.EveryReachableState` | app/infra/memory_pipeline.py:268-435 | safety, ledger and order in every state reachable from the start |
| `PipelineOrder.StartsAfterPreviousFinished` | app/infra/memory_pipeline.py:386-429 | an event starts only after the previous started one of its room has finished |
| `PipelineOutcomes.OutcomesFromStart` | app/infra/memory_pipeline.py:391-400 | in every reachable state processed is the number of handlers that returned and errors of those that raised, up to workers that have not counted theirs yet |
| `PipelineOutcomes.OutcomesRun` | app/infra/memory_pipeline.py:386-408 | the invariant behind it, over every interleaving |
| `PipelineOutcomes.GenuineFromStart` | app/infra/memory_pipeline.py:338-347 | every event in flight, queued or held is what its admission was called with; backups go in only for events that asked, marks only for events with a checkpoint |
| `PipelineOutcomes.MarkExact` | app/infra/memory_pipeline.py:392-394 | a returned handler's mark goes in exactly when the event has a checkpoint and the writer has space |
| `PipelineOutcomes.BackupExact` | app/infra/memory_pipeline.py:333-336 | a backup goes in exactly while the writer has space; otherwise the admission is refused and counted as rejected |
| `PipelineOutcomes.RowsExact` | app/infra/memory_pipeline.py:235-260 | the message table changes exactly by inserts under new ids, by marks of stored rows and by tasks that the writer works through successfully |
| `PipelineOutcomes.WriterExact` | app/infra/memory_pipeline.py:176-209 | the writer takes and works through tasks one by one; a task goes in exactly while its queue has space |
| `PipelineOutcomes.DurableFromStart` | app/infra/memory_pipeline.py:193-239 | if no write fails, a backup that the writer has worked through is stored, and so is the processed mark of an event that asked for a backup |
| `PipelineLimits.BoundedRun` | app/infra/memory_pipeline.py:315-351 | with at most n overlapping admissions, queued plus in flight, room queue plus its in-flight calls, and partitions stay within limit - 1 + n, under both policies |
| `PipelineLimits.OverloadLimits` | app/infra/memory_pipeline.py:315-351 | the same from the start, for every room; n = 1 gives the configured limits |
| `PipelineLimits.LineRun` | app/infra/memory_pipeline.py:401-435 | the ready line is first in, first out over every run |
| `PipelineLimits.Fairness` | app/infra/memory_pipeline.py:410-435 | a room at position p is taken by exactly pick p + 1, is still waiting before it, and until then no room is taken twice |
| `PipelineLimits.FairnessFromStart` | app/infra/memory_pipeline.py:410-435 | the three parts of fairness from every reachable state |
| `PipelineCheckpoint.CheckpointOrder` | app/infra/memory_pipeline.py:333-397 | a processed mark follows the backup of its event in the writer's queue and comes from a handler that returned; a row is marked only then, or by the handler of a recovered event with its id |
| `PipelineCheckpoint.CheckpointRun` | app/infra/memory_pipeline.py:193-260 | the invariant behind it, over every interleaving with the writer |
| `PipelineCheckpoint.RowStep` | app/services/event_service.py:88-122 | the invariant on marked rows through every step, including a recovered event's handler that marks its row itself |
| `PipelineDedupe.EvictKeeps` | app/infra/memory_pipeline.py:437-444 | eviction removes an id only if its own record is older than the TTL |
| `PipelineDedupe.EvictSorted` | app/infra/memory_pipeline.py:437-444 | on a time-ordered line exactly the young records remain |
| `PipelineDedupe.WindowRun` | app/infra/memory_pipeline.py:308-350 | under any interleaving an id is absent only if its last committed accept is older than the TTL |
| `PipelineDedupe.ProtectedRun` | app/infra/memory_pipeline.py:308-350 | if admissions of one id do not overlap, every accept is the recorded one or over the TTL; the exact condition for keeping the id is that of `KeptExact` |
| `PipelineDedupe.EvictExact` | app/infra/memory_pipeline.py:437-444 | eviction removes exactly the ids whose current record is among those taken off the head of the line |
| `PipelineDedupe.ForgetsExact` | app/infra/memory_pipeline.py:308-314 | an admission evicts an id accepted within the TTL exactly when the line hides it: its current record in the expired head, a young record of it behind |
| `PipelineDedupe.ForgetsNeedsThree` | app/infra/memory_pipeline.py:349-350 | such a line holds three accepts of the id: an old time, a younger one, the old time again |
| `PipelineDedupe.KeptExact` | app/infra/memory_pipeline.py:308-350 | under any interleaving, every id stays in the window for its TTL throughout the run exactly when no admission starts on a hiding line |
| `PipelineDedupe.SeparateNeverForgets` | app/infra/memory_pipeline.py:308-350 | if admissions of one id never overlap, no line hides and no id leaves early |
| `PipelineDedupe.DedupeExact` | app/infra/memory_pipeline.py:308-314 | one admission at a time: an id is refused exactly when an event with it was accepted at most the TTL ago |
| `PipelineDedupe.OverlapLosesWindow` | app/infra/memory_pipeline.py:349-350 | a run of three overlapping admissions in which an id accepted 7 ms ago leaves a 10 ms window |
| `ReplyJobs.ClaimedUntil` | app/repositories/reply_jobs.py:66-106 | a claimed job can be claimed again or be listed by recovery exactly from its lease's end on |
| `ReplyJobs.ClaimableExact` | app/repositories/reply_jobs.py:84-98 | every status is waiting, held or final; exactly when a row can be claimed and when recovery lists it |
| `ReplyJobs.UpdateColumns` | app/repositories/reply_jobs.py:66-202 | which columns the four updates write, with the attempts and the send time |
| `ReplyJobs.ReplyJobTable.Insert` | app/repositories/reply_jobs.py:19-48 | refused exactly for a known job id or a known dedupe key |
| `ReplyJobs.ReplyJobTable.Claim` | app/repositories/reply_jobs.py:66-106 | succeeds exactly on a waiting row or one whose lease is over, and then sets owner, lease and status |
| `ReplyJobs.ReplyJobTable.MarkRetrying` | app/repositories/reply_jobs.py:109-130 | succeeds exactly for the owner of a dispatching row, releases it and counts one attempt |
| `ReplyJobs.ReplyJobTable.Complete` | app/repositories/reply_jobs.py:133-164 | the same for completion; a status that is not terminal is stored as failed |
| `ReplyJobs.ReplyJobTable.UpdateIfStatus` | app/repositories/reply_jobs.py:167-202 | writes exactly when the row has one of the expected statuses |
| `LeaseRuns.RowStep` | app/repositories/reply_jobs.py:55-202 | every step keeps owner and lease set exactly while dispatching and the send time exactly when sent, and never writes a terminal row |
| `LeaseRuns.SoundRun` | app/repositories/reply_jobs.py:55-202 | the same over every run |
| `LeaseRuns.TerminalRun` | app/repositories/reply_jobs.py:55-202 | a terminal row stays as it is in every continuation |
| `LeaseRuns.SubmissionExact` | app/services/send_service.py:173-190 | which steps add a job to those waiting for the dispatch queue and which take it, once each |
| `LeaseRuns.ResolveExact` | app/infra/dispatch_queue.py:131-158 | resolving an attempt leaves the task ready for the next one after a retry and done otherwise |
| `LeaseFencing.FencedRun` | app/repositories/reply_jobs.py:109-164 | fencing and attempt accounting as an invariant of every run |
| `LeaseFencing.Fencing` | app/repositories/reply_jobs.py:109-164 | only the most recent claimer retries or completes, at most one completion per job succeeds, attempt_count is the number of counted transitions |
| `LeaseFencing.BudgetRun` | app/infra/dispatch_queue.py:104-158 | attempts beyond those counted by tasks are at most one, and only on a terminal row |
| `LeaseFencing.AttemptBound` | app/infra/dispatch_queue.py:104-158 | attempt_count is at most the maximum attempts times the accepted tasks, plus one |
| `LeaseExclusion.ExclusiveRun` | app/repositories/reply_jobs.py:66-106 | every adapter call in progress holds its row, over every timely run |
| `LeaseExclusion.RequeueExact` | app/services/recovery_service.py:159-163 | a recovery update keeps every call in possession of its row exactly when the row has changed status or no call for the job is in progress |
| `LeaseExclusion.ExclusiveExact` | app/services/recovery_service.py:143-163 | with calls within their leases: calls hold their rows throughout the run exactly when no recovery update hits a call |
| `LeaseExclusion.AtomicHitsNothing` | app/repositories/reply_jobs.py:221-255 | an update made while the lease is over hits no call |
| `LeaseExclusion.HitBreaksExclusion` | app/services/recovery_service.py:159-165 | from every state with such an update, requeue, enqueue, begin and claim put two calls for the job in progress, all within their leases |
| `LeaseExclusion.CollisionExact` | app/services/recovery_service.py:143-165 | from a state in which calls hold their rows, some run within the leases leads to two calls for one job exactly when in some such run a recovery update hits a call |
| `LeaseExclusion.LeaseExclusionHolds` | app/repositories/reply_jobs.py:66-164 | no two adapter calls for one job at once, for any number of workers, duplicate tasks and recovery ticks |
| `LeaseExclusion.RecoveryRaceBreaksExclusion` | app/services/recovery_service.py:143-163 | such a state is reachable: a run from the start with two calls for one job, all within their leases |
| `Lease.FinalExact` | app/infra/dispatch_queue.py:131-155 | an attempt is retried exactly when it was not delivered, is not expired or a duplicate, and is not the last; otherwise the job gets the outcome's status, or FAILED for one still in progress |
| `Dispatch.AttemptsFrom` | app/infra/dispatch_queue.py:104-158 | the attempts made are those up to the first that stops the task |
| `Dispatch.DispatchQueue.Enqueue` | app/infra/dispatch_queue.py:60-75 | accepts exactly while the queue is not full, at the tail |
| `Dispatch.DispatchQueue.Attempt` | app/infra/dispatch_queue.py:111-158 | one attempt: nothing unless claimed, otherwise one counted attempt; retried exactly if it does not stop the task, else the row ends as the outcome says, with a send time exactly for SENT; one of the three counters goes up |
| `Dispatch.DispatchQueue.Dispatch` | app/infra/dispatch_queue.py:104-158 | an undisturbed dispatch of a claimable job makes attempts up to the first that stops it and counts exactly these; the row ends with that outcome's status (FAILED for one in progress), SENT with the time of that attempt; sent goes up exactly for a delivery |
| `Dispatch.DispatchQueue.RecoverJob` | app/services/recovery_service.py:159-173 | a listed job whose row has another status by now is skipped, any other is requeued, or fails if the queue is full |
| `Dispatch.DispatchQueue.RecoverReplyJobs` | app/services/recovery_service.py:143-173 | of the listed jobs, those whose rows still have their listed status are requeued in order while the queue has room, the rest of them fail, no other row changes |
| `StateMap.PersistDrains` | app/infra/memory_pipeline.py:127-150 | queueing a task changes the drained table as applying it does |
| `StateMap.DrainedElsewhere` | app/infra/memory_pipeline.py:193-260 | tasks that do not name a key leave its live row alone |
| `StateRefinement.GetAgrees` | app/chatbot/state_store.py:405-421 | a read answers what the plain map holds and keeps agreement |
| `StateRefinement.GetExact` | app/chatbot/state_store.py:405-421 | a read that reaches the table answers right exactly when the row shows the value that draining will leave, and keeps agreement exactly when it caches nothing or that row |
| `StateRefinement.LoadExact` | app/chatbot/state_store.py:197-228 | the same for the load of a mutate |
| `StateRefinement.MutateDeletedExact` | app/chatbot/state_store.py:221-222 | for a deleted key a mutate starts right exactly when no live row is left or an empty one, while a get is always right |
| `StateRefinement.WriteAfterLoad` | app/chatbot/state_store.py:197-245 | whatever the load found, a saved update restores agreement |
| `StateRefinement.RememberExact` | app/chatbot/state_store.py:406-418 | caching a row that was found, at once or later, keeps agreement exactly when the map shows that row |
| `StateRefinement.RemoveRowExact` | app/chatbot/state_store.py:538-540 | removing the row of a deleted key, at once or later, keeps agreement exactly when the key is dirty or dead |
| `StateRefinement.ShownIsMap` | app/chatbot/state_store.py:115-133 | what the store alone shows of a key is what the map holds |
| `StateRefinement.MutateAgrees` | app/chatbot/state_store.py:506-536 | a mutate starts from the plain map's value; a rejected one changes nothing |
| `StateRefinement.FlushExact` | app/chatbot/state_store.py:260-303 | persisting a captured entry keeps agreement exactly when the captured entry still shows what the map holds |
| `StateRefinement.RestartAgrees` | app/chatbot/state_store.py:81-113 | clear and warmup after flush and drain keep the visible map |
| `StateRefinement.OpRefines` | app/chatbot/state_store.py:115-342 | each operation, and each half of a read, flush or removal under its exact condition, answers as the plain map does and keeps agreement |
| `StateRefinement.StoreRefinesMap` | app/chatbot/state_store.py:115-547 | every allowed run answers exactly as the plain expiring map, with or without the writer |
| `StateRefinement.WriteBehind` | app/chatbot/state_store.py:260-303 | from an empty start: same answers, and the drained table agrees with the map on every key that is not dirty |
| `StateRefinement.WriteLasts` | app/chatbot/state_store.py:115-133 | after a fitting write and any operations that neither write nor delete the key, a reader gets the value exactly until the entry's expiry time |
| `StateRefinement.DeleteLasts` | app/chatbot/state_store.py:538-540 | after a delete no reader gets the key until it is written again |
| `StateRefinement.WriteReports` | app/chatbot/state_store.py:344-355 | a write is saved exactly when there is no limit or its text is within it; a mutate starts from what a reader would get |
| `StateRefinement.PruneExact` | app/repositories/chatbot_states.py:190-199 | a prune takes exactly the rows whose expiry time has come |
| `StateRefinement.ReadExact` | app/chatbot/state_store.py:405-421 | a read that reaches the table caches a live row and deletes an expired one |
| `StateRefinement.MaintenanceExact` | app/chatbot/state_store.py:81-342 | what caching, removing, flushing, evicting, pruning, writing and restarting achieve in cache, queue and drained table |
| `StateRefinement.OverlappingFlushLosesWrite` | app/chatbot/state_store.py:261-290 | a write between a flush's capture and its clearing of the dirty mark is lost after eviction |
| `StateRefinement.LateRememberLosesWrite` | app/chatbot/state_store.py:406-418 | a write between the two halves of a read is replaced by the row found before it, and a flush persists that row |
| `StateRefinement.LateRemoveLosesWrite` | app/chatbot/state_store.py:538-540 | a write and its flush between the two halves of a delete are lost after eviction |
| `StateRefinement.MutateReadsDeletedRow` | app/chatbot/state_store.py:221-222 | a mutate after an undrained delete starts from the deleted value, a get does not |
| `StateRefinement.FallThroughIsInvisible` | app/chatbot/state_store.py:495-504 | the fall-through after a size rejection reports a value a reader does not see |
| `StateRefinement.FallThroughAgreesExact` | app/chatbot/state_store.py:495-504 | with or without the writer, the fall-through after a size rejection keeps agreement with the unchanged map exactly when the cache's own load does |
| `StateRefinement.DirectFallThroughAgrees` | app/chatbot/state_store.py:495-504 | without a writer it always does, so a reader still gets the map's value |
| `StateRefinement.FallThroughReplyExact` | app/chatbot/state_store.py:495-504 | it reports the current value exactly when the table row shows it or the update of the row is that value again |
| `StateRefinement.FallThroughReplyPlain` | app/chatbot/state_store.py:495-504 | it does for every key that is neither dirty nor named by a waiting task |
| `StateRefinement.FallThroughWrites` | app/repositories/chatbot_states.py:124-182 | what it writes: the update of the row, exactly when that fits |
| `StateStore.BotStateStore.Get` | app/chatbot/state_store.py:405-421 | taken whole: a cached value until its expiry time; otherwise what the plain map holds, exactly unless the table is read and its row differs in value from what draining will leave; the map does not change |
| `StateStore.BotStateStore.Set` | app/chatbot/state_store.py:423-450 | saved exactly when there is no limit or the text is within it; a saved write updates the map, any other changes nothing |
| `StateStore.BotStateStore.MutateResult` | app/chatbot/state_store.py:506-536 | saves the update of the loaded value if it fits and reports it, otherwise the map stays; the loaded value is the map's exactly unless an uncached row differs from what draining will leave |
| `StateStore.BotStateStore.LoadForUpdate` | app/chatbot/state_store.py:211-226 | the cached value, or the table row, which is then cached; an expired entry is dropped and deleted |
| `StateStore.BotStateStore.Delete` | app/chatbot/state_store.py:538-540 | taken whole: the key is gone from the map, the cache and, once drained, the table |
| `StateStore.BotStateStore.ReadRow` | app/repositories/chatbot_states.py:25-51 | the row until its expiry time, or none; an expired row is deleted |
| `StateStore.BotStateStore.PruneExpired` | app/chatbot/state_store.py:542-547 | pruning keeps the visible map |
| `StateStore.BotStateStore.EvictIfNeeded` | app/chatbot/state_store.py:333-342 | only clean entries leave, until the limit is met or none is clean; the map does not change |
| `StateStore.BotStateStore.FlushDirty` | app/chatbot/state_store.py:260-303 | every dirty entry is persisted, nothing stays dirty, the map does not change |
| `StateStore.BotStateStore.FlushIfDue` | app/chatbot/state_store.py:253-258 | flushes exactly when the interval has passed |
| `StateStore.BotStateStore.WriterStep` | app/infra/memory_pipeline.py:193-260 | applying the head task keeps the visible map |
| `StateStore.BotStateStore.Restart` | app/chatbot/state_store.py:81-113 | flush, drain, clear and warmup keep the visible map |
| `Registry.SortedViewUnique` | app/chatbot/registry.py:73-82 | a registry has one view by priority and key, so the cache equals a fresh sort |
| `Registry.ChatbotRegistry.Register` | app/chatbot/registry.py:40-46 | adds exactly when the key is free; the cache stays right |
| `Registry.ChatbotRegistry.Replace` | app/chatbot/registry.py:48-55 | puts the bot under its key and returns the previous one |
| `Registry.ChatbotRegistry.Unregister` | app/chatbot/registry.py:57-64 | removes the key and returns its bot; the cache stays right |
| `Registry.ChatbotRegistry.Snapshot` | app/chatbot/registry.py:73-82 | exactly the registered bots, by priority and then key |
| `HotReload.LoadUnique` | app/chatbot/service.py:226-280 | a load keeps at most one loaded file per key |
| `HotReload.LoadTracked` | app/chatbot/service.py:226-280 | a load keeps every registered key the key of some tracked file |
| `HotReload.RemoveInv` | app/chatbot/service.py:282-303 | so does a removal |
| `HotReload.TickInv` | app/chatbot/service.py:183-225 | every tick keeps both, whatever the directory holds |
| `HotReload.EveryRunInv` | app/chatbot/service.py:183-309 | both hold after any sequence of ticks from an empty service |
| `HotReload.LoadExact` | app/chatbot/service.py:226-280 | what a load leaves: loaded exactly if it succeeded and no other loaded file has the key, retry exactly after a duplicate-key failure; the loaded bot stands under its key and only the file's previous key is given up |
| `HotReload.RemoveExact` | app/chatbot/service.py:282-303 | what a removal takes: the record, and its bot unless the file had failed and another loaded file has the key |
| `HotReloadBots.LastLoadStands` | app/chatbot/service.py:226-280 | from an empty service, a registered bot is the bot of the last successful load under its key |
| `HotReloadBots.LoadedFileStands` | app/chatbot/service.py:183-280 | if no load gave up a key in use, each loaded file whose record is up to date has the bot that the file contains registered under its key |
| `HotReload.LoadRegisteredExact` | app/chatbot/service.py:248-264 | a load keeps the keys of loaded files registered exactly when the key it gives up is not in use by another loaded file |
| `HotReloadRuns.RemoveRegistered` | app/chatbot/service.py:282-303 | a removal never takes the key of a loaded file |
| `HotReloadRuns.ScanRegisteredExact` | app/chatbot/service.py:200-225 | after every load of a scan the keys of loaded files are registered exactly when no load gives up a key in use |
| `HotReloadRuns.RegisteredExact` | app/chatbot/service.py:183-309 | the same over every sequence of ticks |
| `HotReloadRuns.RegisteredFromStart` | app/chatbot/service.py:183-309 | the same from an empty service |
| `HotReload.DuplicateThenRenamed` | app/chatbot/service.py:248-264 | three ticks from an empty service after which a loaded file's bot is unregistered |
| `HotReloadProgress.ScanFiles` | app/chatbot/service.py:200-225 | a scan rewrites the records of exactly the first eligible files within the budget |
| `HotReloadProgress.TickProgress` | app/chatbot/service.py:200-225 | at least the budget left by duplicate-key retries goes to outdated files |
| `HotReloadProgress.LoadsIndex` | app/chatbot/service.py:200-225 | a file is loaded exactly when it is eligible and fewer eligible files than the budget come before it |
| `HotReloadProgress.EligibleExact` | app/chatbot/file_state.py:74-83 | a scan looks at a file exactly when it is new, differs in size, time or hash, or is marked for retry |
| `HotReloadProgress.InitialLoad` | app/chatbot/service.py:202-215 | the first scan loads every file, whatever the budget |
| `HotReloadProgress.TickFallsExact` | app/chatbot/service.py:200-225 | the number of outdated files falls exactly when, before the tick, some outdated file has fewer eligible files than the budget before it in the listing |
| `HotReloadConvergence.RetriesLeaveOnePerKey` | app/chatbot/service.py:226-264 | while the directory is still, the retries are at most the possible duplicates counted at the start without one file for every shared key |
| `HotReloadConvergence.Converges` | app/chatbot/service.py:183-225 | with a still directory, and fewer retries and possible duplicates than the budget counted before the first tick, without one file for every shared key, no file is outdated after as many ticks as there were outdated files, plus the first, which also forgets the files that are gone |
| `HotReloadProgress.RetriesStarve` | app/chatbot/service.py:205-215 | two ticks from an empty service lead to a state that every later tick leaves as it is, with a new file never loaded |
| `ReloadService.ChatbotService.PathForBotKey` | app/chatbot/service.py:305-309 | finds another file loaded under the key exactly when there is one |
| `ReloadService.ChatbotService.LoadChangedPath` | app/chatbot/service.py:226-280 | failure, duplicate, or registration with the old key given up; keeps the run invariants |
| `ReloadService.ChatbotService.RemovePath` | app/chatbot/service.py:282-303 | the record goes, and the key with it unless another loaded file uses it |
| `ReloadService.ChatbotService.ScanIncremental` | app/chatbot/service.py:183-225 | one tick in place |
| `ReloadService.ChatbotService.ReloadChanged` | app/chatbot/service.py:200-225 | the load loop within its budget |
| `Paging.RemainingSuffix` | app/repositories/messages.py:333-346 | asking again with a shown row as cursor gives the rows after it |
| `Paging.WalkComplete` | app/services/message_service.py:131-134 | a scheme that fetches what its next-page test expects shows every row once, in order |
| `Paging.WalkExact` | app/services/message_service.py:131-134 | it shows everything exactly when its fetch is not capped or one fetch is enough |
| `Paging.TextWalkSame` | app/services/message_service.py:131-134 | sending cursor texts back shows what following rows does |
| `Paging.TextWalkExact` | app/services/message_service.py:131-134 | the same exactness for a client that passes cursor texts |
| `Text.MessageCursorParses` | app/services/message_service.py:13-14 | the message cursor's text parses back to time and id |
| `Text.TargetCursorParses` | app/services/send_target_service.py:78-79 | the target cursor's text parses back, also for room keys with tabs |
| `Listings.MessageCursorExact` | app/repositories/messages.py:333-346 | the cursor clause selects exactly the rows that sort after the cursor's row |
| `Listings.MessagePages` | app/services/message_service.py:55-82 | the walk is the full ordered result exactly when the page size is below 200 or 200 rows are all |
| `Listings.MessageRows` | app/repositories/messages.py:298-330 | the full result is exactly the messages that meet every given condition, latest first and then by falling id |
| `Listings.MessagePageSize` | app/services/message_service.py:70-82 | a page holds 1 to 200 of the remaining rows, as asked |
| `Listings.OneTargetPerRoom` | app/repositories/send_targets.py:20-73 | each room with a message has exactly one target row, its latest |
| `Listings.TargetCursorExact` | app/repositories/send_targets.py:160-173 | as above, for targets |
| `Listings.TargetPages` | app/services/send_target_service.py:107-173 | the walk is complete exactly when the effective page size is at most 10000 or 10000 rows are all |
| `Listings.TargetRows` | app/repositories/send_targets.py:20-73 | the full result is exactly the filter's rows that are the latest of their room, by time and room |
| `Listings.TargetPageSize` | app/services/send_target_service.py:127-131 | a page holds as many of the remaining rows as the configured maximum allows, up to 10000 |
| `Listings.ItemCursorExact` | app/repositories/send_batches.py:146-152 | as above, for batch items |
| `Listings.ItemPages` | app/repositories/send_batches.py:134-166 | the walk is complete exactly for limits of 1 to 1000 or when the clamped limit holds everything |
| `Listings.ItemRows` | app/repositories/send_batches.py:134-166 | the full result is exactly the batch's items, by rising id |
| `Listings.ItemPageSize` | app/repositories/send_batches.py:140 | a page holds 1 to 1000 of the remaining items, as asked |
| `Targets.SendableExact` | app/services/send_target_service.py:58-67 | a send keeps exactly the rooms whose token expires at a known time in the future |
| `Targets.StatusExact` | app/services/send_target_service.py:58-67 | the four statuses on token, expiry and safety window |
| `Targets.CutConserves` | app/services/send_target_service.py:261-263 | the cut moves the surplus to the exclusions and keeps the total exactly when the maximum is not negative |
| `Targets.SliceExact` | app/services/send_target_service.py:263 | the prefix that the cut keeps, counted from the end for a negative maximum |
| `Targets.ResolveRooms` | app/services/send_target_service.py:238-264 | distinct targets in request order within the maximum; targets plus exclusions are the distinct requested rooms; each exclusion is counted under its reason, and the maximum is exceeded exactly when the usable rooms outnumber it |
| `Targets.SiftKeysReasons` | app/services/send_target_service.py:252-260 | the number of keys excluded for each reason, before the cut |
| `Targets.SiftReasons` | app/services/send_target_service.py:293-305 | the same for listed rows |
| `Targets.ResolveFilter` | app/services/send_target_service.py:266-309 | the matching rows are listed up to the clamped maximum; each listed row is a target or an exclusion under its status; distinct targets within the maximum; all matching rooms are accounted for exactly when the limit holds them |
| `Targets.FilterTotal` | app/services/send_target_service.py:276-309 | what a filter request accounts for: the listed rows, plus the amount of a negative maximum |
| `Targets.FilterExact` | app/repositories/send_targets.py:176-215 | for a maximum that is not negative, every matching room is accounted for exactly when the clamped limit holds them all |
| `Targets.FilterExceedsExact` | app/services/send_target_service.py:306-308 | a filter request has a maximum exclusion exactly for a negative maximum, or for zero when its first row is usable |
| `Targets.LimitLosesRoom` | app/services/send_target_service.py:276-277 | three matching rooms and a maximum of two: two targets, no exclusion |
| `Targets.Merge` | app/services/send_target_service.py:350-369 | first occurrence of each room, exclusions added up reason by reason, cut to the maximum |
| `Targets.ResolveRoomsAndFilter` | app/services/send_target_service.py:195-221 | room keys with a filter: exactly for a maximum that is not negative, targets and exclusions are the rooms asked for, with rooms asked for both ways but not targets both ways counted twice and matching rooms beyond the limit not counted |
| `Batches.TallySum` | app/services/send_batch_service.py:337-346 | every item is in exactly one of the five counters |
| `Batches.UpsertRooms` | app/repositories/send_batches.py:108-131 | an item of a known room is replaced in its place, any other is appended |
| `Batches.UpsertItems` | app/repositories/send_batches.py:108-131 | the item of a known room is the new one, every other item stays |
| `Batches.SendBatch.InsertItem` | app/repositories/send_batches.py:108-131 | rooms of a batch stay distinct |
| `Batches.SendBatch.UpdateItemStatus` | app/repositories/send_batches.py:252-268 | exactly one item changes, and only its status |
| `Batches.SendBatch.SyncItems` | app/services/send_batch_service.py:317-346 | the loop brings the first 1000 items up to date with their jobs and tallies them |
| `Batches.SendBatch.Refresh` | app/services/send_batch_service.py:317-367 | the whole refresh in place |
| `Batches.SendBatch.Cancel` | app/services/send_batch_service.py:223-242 | a finished batch is only refreshed, any other becomes canceled |
| `Batches.SendBatch.DispatchTargets` | app/services/send_batch_service.py:264-315 | one item per target in order, each with its own room, the job of its own send and that send's status, and counters that tally them |
| `Batches.SendBatch.PersistPreviewItems` | app/services/send_batch_service.py:253-262 | a dry run stores its targets as skipped, without jobs |
| `Batches.CreateBatch` | app/services/send_batch_service.py:101-134 | refusals exactly as coded; otherwise each item is for its own target and the job of its own send and shows how that job stands; target count is targets plus exclusions, counters add up to the listed items, a dry run ends completed |
| `Batches.CreateFilterBatch` | app/services/send_batch_service.py:101-134 | with a positive maximum a filter batch is refused only for missing confirmation; its target count is the matching rooms exactly when the listing's limit holds them |
| `BatchRuns.RefreshLedger` | app/services/send_batch_service.py:317-367 | the counters add up to the items, exactly when there are at most 1000 |
| `BatchRuns.RefreshOutcome` | app/services/send_batch_service.py:347-366 | running exactly while an item is queued, failed exactly when something failed and nothing was sent, completed otherwise |
| `BatchRuns.CountersCountJobs` | app/services/send_batch_service.py:66-77 | each counter is the number of items whose job has its statuses; skipped covers duplicates and jobs in progress |
| `BatchRuns.ClosedMeansSettledExact` | app/services/send_batch_service.py:347-356 | a closed batch has only settled jobs exactly when an item was queued or the refresh overlooked no job under way and no queued job beyond the first 1000 items |
| `BatchRuns.CompletedWhileDispatching` | app/services/send_batch_service.py:66-77 | a batch completes while its job is being dispatched, and its counters move later |
| `BatchRuns.KeptRun` | app/services/send_batch_service.py:223-367 | over every run of item writes and of refreshes and cancellations taken whole, the target count, rooms and a cancellation's time are kept and a final status is never left |
| `BatchRuns.ItemsFollowJobs` | app/services/send_batch_service.py:326-336 | refreshes and cancellations never change an item's room or job, and a refresh makes a listed item show how its job stands |
| `BatchRuns.CancelExact` | app/services/send_batch_service.py:223-242 | a cancellation taken whole: an open batch becomes canceled at that time, a finished one keeps its status |
| `BatchRuns.FinalRun` | app/services/send_batch_service.py:347-350 | COMPLETED, FAILED and CANCELED never change over such runs |
| `BatchRuns.LedgerRun` | app/services/send_batch_service.py:317-367 | after creation and every later refresh or cancellation the counters are target count minus exclusions, exactly for at most 1000 items |
| `BatchRuns.SplitRefreshExact` | app/services/send_batch_service.py:318-367 | a refresh's write respects a final status, whatever it counted, exactly when it read that same status |
| `BatchRuns.CancelLostToRefresh` | app/services/send_batch_service.py:318-367 | a cancellation between read and write is lost |
| `BatchRuns.SplitCancelExact` | app/services/send_batch_service.py:226-241 | a cancellation's write respects a final status exactly when it read a final status too or the batch is canceled already |
| `BatchRuns.SplitWrites` | app/services/send_batch_service.py:231-241 | what the two writes put into the row: the counts read or made, the target count read, never the items |
| `BatchRuns.CompletedLostToCancel` | app/services/send_batch_service.py:226-241 | a batch that a refresh completes between the read and the write of a cancellation ends canceled |
| `RateLimiter.OwnLineExact` | app/chatbot/reply_rate_limiter.py:56-61 | a call shares its line only with calls for the same bot, room part and sender part, of any scope, exactly when these hold no bar, not counting one at the end of the sender |
| `RateLimiter.RoomLineExact` | app/chatbot/reply_rate_limiter.py:56-61 | among room-scope calls: exactly when neither bot nor room holds a bar |
| `RateLimiter.SenderLineExact` | app/chatbot/reply_rate_limiter.py:56-61 | among sender-scope calls, on the parts of the key: a bar inside the sender matters too |
| `RateLimiter.OwnSenderExact` | app/chatbot/reply_rate_limiter.py:56-61 | among sender-scope calls, on bot, room and sender as given: exactly when no name holds a harmful bar and the sender is neither missing nor an underscore |
| `RateLimiter.OwnTargetExact` | app/chatbot/reply_rate_limiter.py:56-61 | across scopes a call has a line of its own exactly when it is sender-scope, no name holds a harmful bar and the sender is not missing, an underscore or a star |
| `RateLimiter.GlobalLine` | app/chatbot/reply_rate_limiter.py:56-61 | among global calls the line is the bot's alone, whatever the names |
| `RateLimiter.BarsCollide` | app/chatbot/reply_rate_limiter.py:56-61 | with a bar in a name two rooms share a line |
| `RateLimiter.ReplyRateLimiter.Wait` | app/chatbot/reply_rate_limiter.py:26-48 | reserves the slot and answers the wait until it in whole milliseconds, rounded down |
| `RateLimiter.ReplyRateLimiter.Clear` | app/chatbot/reply_rate_limiter.py:50-54 | all reservations are gone |
| `RateLimiter.SlotsEarliest` | app/chatbot/reply_rate_limiter.py:41-45 | every slot is the earliest time not before its call and not before the previous slot plus its interval |
| `RateLimiter.SecondsExact` | app/chatbot/reply_rate_limiter.py:39 | an interval is in milliseconds, a time in seconds |
| `RateLimiter.KeysIndependent` | app/chatbot/reply_rate_limiter.py:40-45 | the slots of a key depend on its own requests only |
| `RateLimiter.WindowBound` | app/chatbot/reply_rate_limiter.py:26-48 | any half-open window of length W holds at most ceil(W / interval) slots of a key |
| `RateLimiter.BoundReached` | app/chatbot/reply_rate_limiter.py:26-48 | a burst reaches that bound |

## Left out

- HTTP routes, request and response schemas, token checks, settings loading: plumbing; limits and intervals are parameters of the models.
- Bridge adapters, HTTP client and subprocess helpers: an adapter call is an arbitrary outcome.
- SQLite, migrations and full-text search: tables are maps and sequences with atomic guarded updates; `search_messages` is not part of this model.
- Condition waits, sleeps, retry backoff, thread start and shutdown: only lock regions, statements and queue operations are steps.
- Logging, redaction, run records and the oldest-event age in the pipeline's statistics: no effect on the modelled state.
- Error texts in job rows and the skip reasons of batch items, apart from the queue-full text.
- A synchronous send that writes a status in progress to its job: the request's own write is QUEUED or terminal, and comes before recovery looks at the job.
- The listing of stored messages for recovery, and the limit and the order of the recovery listings: recovery may list any recoverable row, and a recovered message is an admission without backup and checkpoint.
- The worker's writes of retry and completion that raise: a settled task may be abandoned instead.
- The bounded writer queue under the state store, and snapshots that the writer refuses by size: no enqueue is refused there.
- StateStore.BotStateStore.Get: does not release the lock between finding the row and caching it; the halves apart are `FindRow` and `Remember` in the runs, with `RememberExact`.
- StateStore.BotStateStore.Delete: does not let another operation on the key in between dropping the cache entry and removing the row; the removal apart is `RemoveRow` in the runs, with `RemoveRowExact`.
- StateStore.BotStateStore.EvictIfNeeded: does not say which clean entry goes first; the code takes the first in insertion order, and the guarantees hold for any choice.
- `MEMORY_STATE_ENABLED=false`, throttled pruning, `parse_state_key` and `make_key`.
- Importing, hashing and unloading bot modules, the cut to the maximum number of bot files and the stored module records: a load is an arbitrary result, a directory an arbitrary listing.
- ReloadService.ChatbotService.PathForBotKey: does not say which file is found, because at most one other loaded file has the key.
- Registry.ChatbotRegistry.Snapshot: does not model that callers get a copy of the cached list, which is a value here.
- Python's `int()` on blanks, underscores and non-ASCII digits in cursors: the model reads plain decimal numbers, which is what the services write.
- The filters of the target listing and the reply-token cache: any row filter is allowed, and a target's token is an input.
- Target groups, retrying failed items as a new batch, and a send that raises in the middle of a batch.
- Batches.SendBatch.DispatchTargets: does not model the pause between sends.
- Rounding of floating-point times in the rate limiter: times are exact.
