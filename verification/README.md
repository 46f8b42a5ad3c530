# Verification of the portrait platform's service-layer protocols

This project models the stateful protocols in the service layer of the portrait platform and proves what
they keep over every run. Objects the service updates in place are classes whose methods are proved
against specification functions; the laws are lemmas about those functions and about runs of them.

| files | what they model |
|---|---|
| `GalleryLog`, `GalleryStore`, `GalleryRecovery`, `GalleryMutations` | the gallery's in-memory records, its snapshot file and write-ahead log, what a restart recovers, and the compensating rollback |
| `FairBatch`, `FairBatchLaws`, `BatchOutputs`, `InferenceScheduler`, `SchedulerService` | the dynamic batching scheduler: fair selection, concatenate and split, fallback, futures, and all its runs |
| `Entitlements`, `EntitlementLaws`, `EntitlementRuns`, `EntitlementCases` | versioned entitlements of one project, which of them is current, time-driven reconciliation, and two runs in which it goes wrong |
| `ControlState`, `ControlStateLaws`, `ControlStateRuns` | workers with cached state over a compare-and-set register, and which operations each published revision holds |
| `Idempotency`, `IdempotencyRuns` | the bounded table of idempotency keys, interleaved across requests |
| `Metering`, `MeteringLaws` | the usage ledger with reversals, and its aggregation |
| `AuditChain` | the audit log as a hash chain |
| `GatherLimited` | bounded-concurrency gather |
| `Nms` | greedy non-maximum suppression |
| `Rollout` | weighted rollout of model aliases |
| `Common` | optional values and map lookup |

Check everything with `dafny verify --resource-limit 2000000 --verification-time-limit 0 dfyconfig.toml`.

## Conventions

- The environment is a parameter: clock readings, new ids, file-operation outcomes, executor replies, digests,
  and the choice among equals where the source leaves it open.
- Concurrency is a run of steps in any order. Asynchronous methods are cut at their await points; a step that is
  not enabled does nothing.
- Floating-point numbers are exact reals.
- Ids drawn from uuid4 or a token generator are assumed new. Where a theorem needs that, it says so
  (`FreshRun`, `Proper`, `Fresh`, `Enabled`).

## What was found

Some statements one would like to make do not hold of the code. For each, the model keeps the code as it is,
proves exactly when the statement holds (the lemma named first), and exhibits a failing case, in a run from the
start where there are runs (the lemma named second).

- Failing closed, a gallery compaction that fails after its log line was appended rolls memory back but not the
  log (`GalleryRecovery.StepRecoverable`, `GalleryRecovery.LateFailureShows`).
- With `STATE_WRITE_FAIL_CLOSED` off, a snapshot that could not be written is still followed by the removal of the
  log (`GalleryRecovery.StepRecoverableFailOpen`, `GalleryRecovery.FailOpenLosesTheLog`).
- A feature added through a person handle whose record is gone is logged but not in memory; when the append is
  refused instead, the dead record is filed in memory again and the files know nothing of it
  (`GalleryRecovery.StrayHandle`, `GalleryRecovery.StrayHandleShows`).
- A restore whose re-appending stops half-way leaves the features on disk in another order than in memory
  (`GalleryMutations.RestoreHalfway`, `GalleryMutations.HalfwayShows`).
- A temporary expansion with a grace period can be activated past its own expiry; the pass after that ends it
  again (`EntitlementRuns.OnePassSettles`, `EntitlementCases.TwoPassesNeeded`).
- For the same reason an accepted rollback can be undone by the reconciliation that reads its own answer back
  (`EntitlementRuns.RollbackTakesEffect`, `EntitlementCases.RollbackUndone`).
- A control-state save that fails without a conflict, or a lock given back without saving, leaves the change in
  the cache, and the next operation publishes both (`ControlStateRuns.OperationPublishes` and
  `ControlStateRuns.NothingLeftIff`, `ControlStateRuns.FailedSaveLeaksAtBoot`).
- After an `invalidate` a stale prefetch does replace newer state (`ControlStateLaws.StalePrefetch`,
  `ControlStateLaws.StalePrefetchAtBoot`).
- Recording the same usage report twice is a no-op only for keys of 1 to 256 characters, because keys are looked
  up in full and stored truncated (`MeteringLaws.RepeatedRecordLater`, `MeteringLaws.LongKeyRecordedTwice`).
- A price change between an event and its reversal leaves a cost behind (`MeteringLaws.ReversalCost`,
  `MeteringLaws.PriceChangeLeavesCost`).
- A gathered item that raises a cancellation of its own does not stop the others from starting until the caller
  notices (`GatherLimited.StopFlag`, `GatherLimited.GiveUpGoesOn`).

## Model

| member | source | states |
|---|---|---|
| `GalleryLog.ApplyGalleryWal` | app/gallery_state.py:77-120 | the replay loop over the log file computes the line-by-line replay over the snapshot, and raises exactly when a line is not JSON |
| `GalleryLog.MergeSplits` | app/gallery_state.py:57-74 | replayed feature deltas replace what they name and leave the other features in order, in front |
| `GalleryLog.MergeIdempotent` | app/gallery_state.py:57-74 | a list of filter-then-append deltas can be replayed twice with the same result, order included |
| `GalleryLog.ReplayIdempotent` | app/gallery_state.py:57-120 | replaying any log whose feature lines carry their record -- blank lines, unknown operations and missing fields included -- over its own result changes nothing, feature order and time stamps included |
| `GalleryLog.OrphanLineNotIdempotent` | app/gallery_state.py:101-110 | why that condition is there: a feature line without its record is lost by the first replay and found by the second |
| `GalleryLog.StaleLogHarmless` | app/gallery_state.py:152-165 | a log left behind by a failed removal does not disturb the lines appended after it |
| `GalleryStore.Gallery.SaveGalleryState` | app/gallery_state.py:152-165 | what memory, snapshot, log, counter and the trail of disk states are after a compaction, for every answer of the file system; memory is untouched |
| `GalleryStore.Gallery.AppendGalleryWal` | app/gallery_state.py:168-193 | the same for one logged change, including the compaction it may trigger and the failure it may report |
| `GalleryStore.Gallery.UpsertPerson` | app/gallery_state.py:260-290 | refines the operation's specification: record created or updated in place, logged, and memory put back when persisting raises |
| `GalleryStore.Gallery.AddFeature` | app/gallery_state.py:293-333 | the same for a feature, for live handles and for handles whose record has been replaced or deleted |
| `GalleryStore.Gallery.PatchPerson` | app/gallery_state.py:345-370 | the same for a patch, a missing person included |
| `GalleryStore.Gallery.DeletePerson` | app/gallery_state.py:373-390 | the same for a delete; a missing person logs nothing |
| `GalleryStore.Gallery.LoadGalleryState` | app/gallery_state.py:123-149 | memory becomes the records the files recover to, each under the key it carries itself, those with invalid ids skipped; a log that does not parse raises and leaves memory alone |
| `GalleryRecovery.IntendedLine` | app/gallery_state.py:196-241 | the line an operation logs, replayed over a matching state, gives the state the operation leaves in memory |
| `GalleryRecovery.SnapshotOverOldLog` | app/gallery_state.py:152-165 | rewriting the snapshot while the old log is still there changes nothing a restart would see |
| `GalleryRecovery.CommitSurvivor` | app/gallery_state.py:168-193 | for every answer of the file system, which state a restart finds after an operation, and whether it was refused |
| `GalleryRecovery.StepRecoverable` | app/gallery_state.py:168-193 | failing closed, an operation leaves disk and memory in agreement if and only if it is not a logged, effective change whose compaction then fails |
| `GalleryRecovery.LateFailureShows` | app/gallery_state.py:168-193 | a first upsert that is refused this way is gone from memory and back after a restart |
| `GalleryRecovery.StepRecoverableFailOpen` | app/gallery_state.py:152-193 | failing open, an operation leaves disk and memory in agreement if and only if the file system's answers keep the change (without the log, the write; with it, the append, or a compaction whose write succeeds and whose old log is removed or agrees) or it changes nothing; where the log is lost, if and only if the old snapshot already holds the result |
| `GalleryRecovery.FailOpenLosesTheLog` | app/gallery_state.py:159-163 | failing open, the same first upsert is accepted and in memory, and a restart finds nothing |
| `GalleryRecovery.CrashPoint` | app/gallery_state.py:152-193 | a crash at any disk state an operation passes through recovers to the state that operation was making: failing closed always, failing open exactly when that state keeps every person -- when it is not the one whose log was thrown away without a new snapshot, nor a snapshot over a log the change is missing from, or loses nothing by it |
| `GalleryRecovery.PointAgrees` | app/gallery_state.py:152-193 | the same from one person's view, failing closed or open, when only that person was in agreement before, or is being rewritten |
| `GalleryRecovery.StepAgrees` | app/gallery_state.py:152-193 | for each person, failing closed or open: where disk and memory agreed, an operation keeps them in agreement if and only if its file-system answers do not spoil that person |
| `GalleryRecovery.CompactionHeals` | app/gallery_state.py:152-165 | a complete compaction restores agreement whatever went wrong before |
| `GalleryRecovery.RunSound` | app/gallery_state.py:260-390 | over every run, records sit under their own key with distinct feature ids, on disk and in memory |
| `GalleryRecovery.RunAgrees` | app/gallery_state.py:77-193 | over every run of operations, failures and restarts, failing closed or open, and for each person: a restart finds what memory holds of them up to time stamps, unless a failure that spoiled them is outstanding; an accepted upsert, patch or delete whose line stays in the log, a compaction or a restart clears it |
| `GalleryRecovery.RunRecoverable` | app/gallery_state.py:77-193 | with none outstanding, a restart finds exactly what memory holds |
| `GalleryRecovery.CrashAnywhere` | app/gallery_state.py:77-193 | after any such run, a crash inside the next operation leaves each person without an outstanding failure as they were before it or as it was making them; failing open, the latter exactly where the disk state keeps them |
| `GalleryRecovery.StrayHandle` | app/gallery_state.py:320-332 | a feature added through a handle whose record is gone: what is answered, what memory holds then, and exactly when disk and memory still agree, for accepted and refused calls, with and without the log, failing closed or open |
| `GalleryRecovery.StrayHandleShows` | app/gallery_state.py:320-332 | after a create and a delete, an accepted stray feature is on disk only, and a refused one brings the person back in memory only |
| `GalleryMutations.RestoreGalleryPersonSnapshot` | app/portrait_gallery_mutations.py:79-115 | memory at the key becomes the earlier copy or nothing, every other person is unchanged, and the files and error list are those of delete, re-insert and re-append in order |
| `GalleryMutations.RollbackGalleryMutation` | app/portrait_gallery_mutations.py:122-151 | the error of every object not cleaned up comes first, newest object first, then those of the restore; it raises exactly when there is one |
| `GalleryMutations.RestoreRecovers` | app/portrait_gallery_mutations.py:79-115 | when no hook reports an error, and failing open none was passed over, a restart finds exactly the restored memory, at the key and at every other key, whatever compactions happened on the way |
| `GalleryMutations.RestoreHalfway` | app/portrait_gallery_mutations.py:97-114 | failing closed, whatever hook failed: which record a restart finds -- the features logged since the log was last cut stand behind the others -- and exactly when that is the restored one |
| `GalleryMutations.HalfwayShows` | app/portrait_gallery_mutations.py:107-114 | a restore of two features whose second append is refused: on disk they have changed places |
| `GalleryMutations.ReappendIdentity` | app/portrait_gallery_mutations.py:109-111 | re-appending all features in order is the identity if and only if their ids are distinct |
| `FairBatch.GroupByScope` | app/inference_scheduler.py:187-190 | the grouping loop yields each scope's requests in order and the scopes by first appearance |
| `FairBatch.TakeTurn` | app/inference_scheduler.py:200-215 | one scope's inner loop is the specified turn |
| `FairBatch.TakeFairBatch` | app/inference_scheduler.py:181-227 | the nested loops pick the specified selection, or the seed alone, and leave the rest of the queue |
| `FairBatchLaws.VisitTakes` | app/inference_scheduler.py:203-214 | a turn takes a prefix of its scope's queue: as long as weight, queue and room allow, and no longer |
| `FairBatchLaws.SelectionSplits` | app/inference_scheduler.py:181-227 | every scope contributes a first-come-first-served prefix, everything selected is compatible with the seed, and the size stays within capacity unless the batch is one request |
| `FairBatchLaws.SelectionDistinct` | app/inference_scheduler.py:223-227 | no request is picked twice |
| `FairBatchLaws.QueueSplits` | app/inference_scheduler.py:223-227 | batch and remaining queue partition the queue by identity |
| `FairBatchLaws.RemoveKeepsOrder` | app/inference_scheduler.py:225-226 | the requests left behind keep their order |
| `FairBatchLaws.SelectionStarts` | app/inference_scheduler.py:195-224 | a selection with positive weights is never empty |
| `FairBatchLaws.RoundShares` | app/inference_scheduler.py:200-218 | in one round every scope gets exactly its weight's worth, unless its queue or the room runs out |
| `FairBatchLaws.LastScopeGoesLast` | app/inference_scheduler.py:191-193 | the scope served last is served again only after every other waiting scope was served or did not fit |
| `FairBatchLaws.SelectionWork` | app/inference_scheduler.py:195-221 | with requests of at least one row, a batch stops below capacity only if no waiting scope's oldest request fits |
| `BatchOutputs.SplitOutputs` | app/inference_scheduler.py:278-290 | the split is refused exactly when an output does not have one row per input row; otherwise part i is each output's i-th slice |
| `BatchOutputs.ShareIsAlone` | app/inference_scheduler.py:245-247 | for a row-wise model, a member's slice of the batched output is the output of its input alone |
| `BatchOutputs.ShareIndependent` | app/inference_scheduler.py:245-247 | the slice depends on the member's own input only, not on who else is in the batch |
| `InferenceScheduler.DiscardKeeps` | app/inference_scheduler.py:125-142 | discarding keeps the scheduler's invariant and settles only futures that were open |
| `InferenceScheduler.SubmitKeeps` | app/inference_scheduler.py:71-112 | accepting or refusing a call keeps the invariant, the queue bound included |
| `InferenceScheduler.WakeKeeps` | app/inference_scheduler.py:159-179 | a worker turn keeps the invariant and moves every dispatched request from the queue into the batch |
| `InferenceScheduler.BatchKeeps` | app/inference_scheduler.py:244-259 | handing out a batch, or falling back, keeps the invariant and never settles a future twice |
| `InferenceScheduler.OneKeeps` | app/inference_scheduler.py:261-276 | so does finishing one member on its own |
| `SchedulerService.Scheduler.Submit` | app/inference_scheduler.py:71-112 | a call is refused exactly when the queue is full after discarding; otherwise its future is open and it is queued last |
| `SchedulerService.Scheduler.CancelRequest` | app/inference_scheduler.py:106-111 | a cancelled caller settles its own future unless it is settled already |
| `SchedulerService.Scheduler.DiscardFinished` | app/inference_scheduler.py:125-142 | the draining loop drops cancelled requests and times out overdue ones, keeping the others in order |
| `SchedulerService.Scheduler.Wake` | app/inference_scheduler.py:159-179 | one turn of the worker loop: discard, stop, wait or dispatch |
| `SchedulerService.Scheduler.FinishBatch` | app/inference_scheduler.py:229-259 | the executor's answer for a batch is split and handed out, or every open member is left to single execution |
| `SchedulerService.Scheduler.FinishOne` | app/inference_scheduler.py:261-276 | one member's own answer or error settles its future unless it is settled already |
| `SchedulerService.ExactlyOnePlace` | app/inference_scheduler.py:71-276 | over every run, an unanswered request is in exactly one of the queue and the batch in flight, a request in either is open or cancelled, and the queue never exceeds its bound |
| `SchedulerService.AnsweredOnce` | app/inference_scheduler.py:229-276 | an answer once given is never changed by anything that follows |
| `SchedulerService.WakeDispatches` | app/inference_scheduler.py:152-177 | once the seed's waiting time is over, a turn dispatches a batch and shortens the queue |
| `SchedulerService.QueueDrains` | app/inference_scheduler.py:159-227 | without further submissions, and whatever cancellations, time-outs and answers fall in between, k dispatching turns leave at most the queue's length less k waiting |
| `SchedulerService.BatchesBounded` | app/inference_scheduler.py:159-227 | over every run, batches started plus requests queued never exceed requests accepted |
| `SchedulerService.ResultsAreAlone` | app/inference_scheduler.py:229-290 | over every run with a row-wise model, every result equals what the request's input would get alone, batched or retried, with any cancellations around it |
| `Entitlements.EntitlementBook.Reconcile` | app/portrait_commercial.py:273-352 | the imperative pass computes the specified pass and reports a change exactly when something was left to do |
| `Entitlements.EntitlementBook.CollectDue` | app/portrait_commercial.py:304-326 | the collection loop expires what passed unseen and collects exactly the due records |
| `Entitlements.EntitlementBook.LatestOf` | app/portrait_commercial.py:329 | the winner is the due record with the latest start, highest version among equals |
| `Entitlements.EntitlementBook.RestoreRollbackTarget` | app/portrait_commercial.py:241-270 | a usable target becomes active and current; otherwise nothing is current |
| `Entitlements.EntitlementBook.CreateEntitlement` | app/portrait_commercial.py:654-775 | creation reads (and reconciles) the profile, refuses for the source's reasons in the source's order, and inserts the new version |
| `Entitlements.EntitlementBook.ChangeEntitlementStatus` | app/portrait_commercial.py:798-917 | cancel, revoke and rollback with their checks, and the second reconciliation that reads the answer back |
| `EntitlementLaws.ChangesKeep` | app/portrait_commercial.py:216-238 | recorded changes keep histories connected chains of allowed moves ending in the stored status, and keep terms, ids and versions |
| `EntitlementLaws.RestoredKeeps` | app/portrait_commercial.py:253-270 | restoring a target never makes current a pending, revoked, expired or superseded record |
| `EntitlementLaws.Absorbing` | app/portrait_commercial.py:216-238 | revoked and expired records never change again |
| `EntitlementLaws.ReconciledKeeps` | app/portrait_commercial.py:273-352 | a pass keeps the invariant; afterwards nothing due is left pending and every active record is in force or in grace |
| `EntitlementRuns.HeirIsCurrent` | app/portrait_commercial.py:279-350 | which record a pass leaves current, read off the book before the pass |
| `EntitlementRuns.PassChanges` | app/portrait_commercial.py:273-352 | a pass changes the book if and only if a record was due or the current one was over |
| `EntitlementRuns.OnePassSettles` | app/portrait_commercial.py:241-350 | one pass is a fixpoint if and only if the record it makes current is not a temporary expansion past its expiry |
| `EntitlementRuns.NoGraceSettles` | app/portrait_commercial.py:241-350 | without grace on temporary expansions one pass is always a fixpoint |
| `EntitlementCases.TwoPassesNeeded` | app/portrait_commercial.py:283-350 | a run of two accepted grants after which one pass is not a fixpoint |
| `EntitlementRuns.PassesSettle` | app/portrait_commercial.py:273-352 | at a fixed time, n records settle within n + 1 passes |
| `EntitlementRuns.InsertedKeeps` | app/portrait_commercial.py:718-773 | an accepted proposal keeps the invariant: dense versions, an older rollback target, at most one active record |
| `EntitlementRuns.ActedKeeps` | app/portrait_commercial.py:848-907 | so does an accepted action |
| `EntitlementRuns.RollbackTakesEffect` | app/portrait_commercial.py:880-917 | an accepted rollback is saved with the target active, current and older than the superseded record; the answer still shows it exactly when, in the reconciled book before the action, nothing scheduled is due by then and the target is neither lapsed nor a temporary expansion past its expiry |
| `EntitlementCases.RollbackUndone` | app/portrait_commercial.py:880-917 | a run of three accepted grants after which an accepted rollback no longer shows in its own answer |
| `EntitlementRuns.RunKeeps` | app/portrait_commercial.py:253-352 | over every run a record is active if and only if the profile names it as current, versions are dense, targets are older, histories are connected chains |
| `EntitlementRuns.OneActive` | app/portrait_commercial.py:328-350 | at most one record is ever active |
| `EntitlementRuns.RunEvolves` | app/portrait_commercial.py:216-238 | whatever follows, no record is lost, its terms never change and its history only grows |
| `EntitlementRuns.EndIsFinal` | app/portrait_commercial.py:216-238 | a revoked or expired record stays so in every continuation of a run |
| `ControlState.ControlRegister.Save` | app/postgres_control_state.py:183-219 | insert-if-absent and update-if-revision together are a compare-and-set on the revision |
| `ControlState.ControlStateBackend.ApplySnapshot` | app/portrait_control_state.py:42-61 | a snapshot replaces the cache exactly when forced or newer |
| `ControlState.ControlStateBackend.Save` | app/portrait_control_state.py:92-115 | what register and cache are after a save that is accepted, refused, failed or unanswered; a conflict reloads |
| `ControlStateLaws.SavedLogInv` | app/portrait_control_state.py:92-103 | a publication appends one revision computed from the one before it |
| `ControlStateLaws.NoLostUpdate` | app/portrait_control_state.py:42-115 | under every interleaving, each committed revision is operations of one worker applied to the committed revision before it |
| `ControlStateRuns.OneOperationEach` | app/portrait_control_state.py:57-115 | it is exactly one operation, in every interleaving of workers whose operations each change the state once, then save once with the database answering, and whose reloads work |
| `ControlStateRuns.SingleIff` | app/portrait_control_state.py:92-103 | in every run: each revision is exactly one operation if and only if each step that writes one finds exactly one operation its worker ran since its last snapshot or accepted save |
| `ControlStateRuns.RevisionIsUnsynced` | app/portrait_control_state.py:92-103 | a revision holds exactly those operations, read off the events of the run |
| `ControlStateRuns.NothingLeftIff` | app/portrait_control_state.py:79-115 | an operation that changed the state and gives the lock back leaves nothing unpublished if and only if the database answered its save and a refused one could reload |
| `ControlStateLaws.Serializable` | app/portrait_control_state.py:42-115 | when the validator accepts what was committed, the store equals a serial run of the committed operations |
| `ControlStateLaws.ConflictMeansOverlap` | app/portrait_control_state.py:96-104 | a save is refused exactly when somebody published since this worker synchronised, or it forgot its revision |
| `ControlStateLaws.ConflictHeals` | app/portrait_control_state.py:104-109 | after a 409 the worker equals a committed revision, with no trace of its change |
| `ControlStateLaws.StalePrefetch` | app/portrait_control_state.py:57-61 | a prefetched snapshot takes a worker back exactly when it was told to forget a newer revision |
| `ControlStateLaws.StalePrefetchAtBoot` | app/portrait_control_state.py:57-83 | in every control plane, from a fresh store: a worker that published revision 1 is taken back to the empty state |
| `ControlStateLaws.NeverBack` | app/portrait_control_state.py:57-83 | no other step takes a worker back |
| `ControlStateLaws.ReadsAreFresh` | app/portrait_control_state.py:70-83 | an operation works on the revision published when it began or a later one, whatever happens while it waits for the lock |
| `ControlStateRuns.OperationPublishes` | app/portrait_control_state.py:70-115 | after any run and with any steps of other threads in between, prefetches of the same worker included, a saved operation publishes itself after what its worker had not published and no newer snapshot replaced; exactly itself if and only if there was nothing of the kind |
| `ControlStateRuns.FailedSaveLeaks` | app/portrait_control_state.py:110-115 | an up-to-date worker whose save failed without a conflict publishes that change with the next operation |
| `ControlStateRuns.FailedSaveLeaksAtBoot` | app/portrait_control_state.py:110-115 | the same on a fresh store, with the exact log |
| `Idempotency.IdempotencyStore.PurgeExpired` | app/portrait_idempotency.py:120-122 | exactly the records still valid remain |
| `Idempotency.IdempotencyStore.FindOldest` | app/portrait_idempotency.py:150-153 | an entry is found exactly when one is completed, and no completed entry expires sooner |
| `Idempotency.IdempotencyStore.Reserve` | app/portrait_idempotency.py:144-158 | the answer and the table after a reservation, the evicted entry being an oldest completed one |
| `Idempotency.IdempotencyStore.Complete` | app/portrait_idempotency.py:179-188 | a reply is stored exactly when token and content hash still match |
| `Idempotency.IdempotencyStore.RequireIdempotentWrite` | app/portrait_idempotency.py:263-286 | the decision to proceed, replay, refuse a reused key, or report a request in progress |
| `Idempotency.IdempotencyStore.FinalizeResponse` | app/portrait_idempotency.py:298-347 | server errors and oversized replies give the key back; others are stored if the key is still held |
| `IdempotencyRuns.RunKeeps` | app/portrait_idempotency.py:120-201 | over every interleaving, executions are accounted for, records belong to admitted requests, completed ones hold their own request's reply |
| `IdempotencyRuns.ExecutionsAreAccounted` | app/portrait_idempotency.py:125-201 | a key was executed as often as it was released, purged and evicted, plus once if it is held |
| `IdempotencyRuns.AtMostOnce` | app/portrait_idempotency.py:125-201 | a key never released, purged or evicted is executed at most once |
| `IdempotencyRuns.BoundedTable` | app/portrait_idempotency.py:149-157 | the table never exceeds its capacity |
| `IdempotencyRuns.ReplayIsGenuine` | app/portrait_idempotency.py:263-286 | every replay returns the reply an earlier request with the same key and content produced, within its window |
| `IdempotencyRuns.NeverEvicted` | app/portrait_idempotency.py:144-157 | a request in progress keeps its key through every arrival exactly until it expires |
| `IdempotencyRuns.FinishTouchesOwn` | app/portrait_idempotency.py:179-201 | finishing changes at most one record, the finishing request's own and unfinished one |
| `IdempotencyRuns.RepliesAreFinal` | app/portrait_idempotency.py:144-188 | a stored reply stays until it expires or is evicted; no later reply replaces it |
| `IdempotencyRuns.LostForever` | app/portrait_idempotency.py:161-201 | an owner that lost its record never gets it back |
| `IdempotencyRuns.LateReplyIgnored` | app/portrait_idempotency.py:179-188 | so its late reply never overwrites a later owner's |
| `Metering.UsageLedger.RecordUsageEvent` | app/portrait_metering.py:142-202 | lookup by key before validation, refusals in the source's order, one event appended or none |
| `Metering.UsageLedger.ReverseUsageEvent` | app/portrait_metering.py:205-268 | a reversal negates its original and copies its labels; a second request answers the first reversal |
| `Metering.ModelFor` | app/portrait_metering.py:338-340 | the cost model in effect is the latest one not after the event, if any |
| `Metering.AggregateUsage` | app/portrait_metering.py:397-475 | the accumulation loop computes the event-by-event report |
| `MeteringLaws.GroupedAt` | app/portrait_metering.py:425-429 | each entry of an outcome, delivery or dimension table is the sum over the events carrying that label |
| `MeteringLaws.DimensionsConserve` | app/portrait_metering.py:421-429 | outcomes, delivery kinds and each of the five dimensions add up to the total requests |
| `MeteringLaws.SeriesConserves` | app/portrait_metering.py:430-474 | requests, images, video, GPU time and cost of the periods add up to the totals |
| `MeteringLaws.BucketOutcomes` | app/portrait_metering.py:449-456 | within each period the three outcomes add up to the requests |
| `MeteringLaws.OrderDoesNotMatter` | app/portrait_metering.py:271-286 | the sum of any quantity depends on which events there are, not on their order |
| `MeteringLaws.ReportIgnoresOrder` | app/portrait_metering.py:397-475 | so does the whole report: totals, tables, periods, cost, counters and currencies |
| `MeteringLaws.PairCancels` | app/portrait_metering.py:239-260 | two events whose contributions cancel leave no trace in a sum, wherever they stand |
| `MeteringLaws.PairInReport` | app/portrait_metering.py:239-260 | with a reversal and its original in the window, every entry of the outcome and five dimension tables is as without the two, and the requests move from the original's delivery kind to the reversal's |
| `MeteringLaws.PairInTotals` | app/portrait_metering.py:239-260 | so is every total |
| `MeteringLaws.PairInCost` | app/portrait_metering.py:338-362 | and the cost, exactly when the usage costs the same at both times |
| `MeteringLaws.ReversalCost` | app/portrait_metering.py:338-362 | the pair cancels in the cost exactly when the usage costs the same at both times |
| `MeteringLaws.PriceChangeLeavesCost` | app/portrait_metering.py:338-362 | for any two cost models, a run of a report and its reversal around the price change: no usage stands, and the reported cost is the difference of the request prices |
| `MeteringLaws.LedgerKeeps` | app/portrait_metering.py:142-268 | over every run, reversals name an earlier usage event, negate it, and no two name the same |
| `MeteringLaws.OneReversal` | app/portrait_metering.py:226-237 | each usage event has at most one reversal, and a reversal is never reversed |
| `MeteringLaws.RepeatedRecord` | app/portrait_metering.py:150-193 | on any list of events, recording the same report again at once is a no-op if and only if its key has 1 to 256 characters |
| `MeteringLaws.RepeatedRecordLater` | app/portrait_metering.py:150-193 | the same over runs, with any operations in between: the repeated report is answered with the event it recorded first |
| `MeteringLaws.LongKeyRecordedTwice` | app/portrait_metering.py:150-193 | a run that records one report with a key of 257 characters twice |
| `MeteringLaws.RepeatedReversal` | app/portrait_metering.py:228-237 | reversing again answers the reversal already there |
| `MeteringLaws.NetUsage` | app/portrait_metering.py:205-268 | over every run and for any quantity, the ledger sums to the usage never reversed plus what reversals failed to take back |
| `MeteringLaws.OddIsNet` | app/portrait_metering.py:205-268 | nothing is left of whatever negates with its reversal |
| `MeteringLaws.TotalsAreNet` | app/portrait_metering.py:397-424 | the totals of the whole ledger are the totals of the usage that stands |
| `MeteringLaws.DimensionsAreNet` | app/portrait_metering.py:397-429 | over every run, each entry of the reported outcomes, endpoints, models, capabilities, resources and applications is that of the usage that stands |
| `MeteringLaws.CostIsNet` | app/portrait_metering.py:338-362 | the reported cost is that of the usage that stands plus, for each reversal, the price difference between its time and its original's; exactly net when one model is in effect throughout |
| `AuditChain.AuditLog.AuditEvent` | app/portrait_audit.py:248-281 | an event is linked to the last readable record; an unreadable tail refuses it or starts a new chain |
| `AuditChain.AuditLog.VerifyAuditChain` | app/portrait_audit.py:595-639 | the loop's running hash, head, count and error list are the specified ones |
| `AuditChain.VerifyIff` | app/portrait_audit.py:595-639 | a log is accepted exactly when every non-blank line is a record carrying its own digest and its predecessor's |
| `AuditChain.AppendVerifies` | app/portrait_audit.py:239-264 | a sealed append is accepted exactly when the log was accepted before |
| `AuditChain.WrittenVerifies` | app/portrait_audit.py:372-375 | a log built only by sealed appends verifies and counts every event |
| `AuditChain.HeadDeterminesLog` | app/portrait_audit.py:225-236 | with a collision-free digest, two accepted logs with the same head are equal record for record |
| `GatherLimited.Gather.TakeNextIndex` | app/portrait_async.py:70-77 | the next index is handed out exactly when the pool is not stopping and items are left, and was never started before |
| `GatherLimited.Gather.StoreResult` | app/portrait_async.py:84-85 | a result is stored in its own slot and the worker is free again |
| `GatherLimited.Gather.WorkerFailed` | app/portrait_async.py:86-88 | a raising item raises the flag |
| `GatherLimited.Gather.WorkerGaveUp` | app/portrait_async.py:84-88 | an item that raises a cancellation ends its worker without raising the flag |
| `GatherLimited.Gather.NoticeFailure` | app/portrait_async.py:91-101 | the caller's await raises once a worker broke, and the flag is raised |
| `GatherLimited.Gather.NoticeCancellation` | app/portrait_async.py:93-94 | so is it when the caller is cancelled |
| `GatherLimited.Gather.CancelTask` | app/portrait_async.py:95-103 | the caller cancels a worker, between items or inside one |
| `GatherLimited.Gather.CollectResults` | app/portrait_async.py:91-105 | the call returns every item's own result in order when nobody broke, and raises after tearing down |
| `GatherLimited.ReturnIsComplete` | app/portrait_async.py:79-105 | under every interleaving a normal return has every slot filled with its own item's result |
| `GatherLimited.StartedOnce` | app/portrait_async.py:70-77 | items are started in order, each at most once |
| `GatherLimited.Bounded` | app/portrait_async.py:64-90 | never more items in progress than the limit, or one |
| `GatherLimited.NothingAfterStop` | app/portrait_async.py:70-88 | once a failure or cancellation is flagged, no further item is started |
| `GatherLimited.StopFlag` | app/portrait_async.py:84-104 | the flag is up exactly when a worker failed or the caller is tearing down or has raised |
| `GatherLimited.GiveUpGoesOn` | app/portrait_async.py:84-105 | a run in which an item raises a cancellation and another item is started after it |
| `GatherLimited.FailureSurfaces` | app/portrait_async.py:84-104 | once a worker failed, gave up or was cancelled, or the flag is up, the call never returns normally |
| `Nms.IouIsRatio` | app/geometry.py:49-58 | overlap lies in [0, 1] and is symmetric, for degenerate and inverted boxes too |
| `Nms.GreedyHead` | app/geometry.py:42-59 | taking the best box and dropping what overlaps it leaves the greedy problem for the rest |
| `Nms.Suppress` | app/geometry.py:31-61 | the shrinking loop returns the greedy selection and ends |
| `Nms.KeptIff` | app/geometry.py:42-59 | a box is kept if and only if no better-ranked kept box overlaps it by more than the threshold |
| `Nms.KeptAreApart` | app/geometry.py:42-59 | kept boxes overlap pairwise by at most the threshold |
| `Nms.DroppedAreDominated` | app/geometry.py:39-59 | every dropped box overlaps a kept one of at least its score by more than the threshold |
| `Nms.DuplicatesDrop` | app/geometry.py:49-58 | two copies of one box are never both kept, unless its area is below the smallest union or the threshold is 1 or more |
| `Nms.Extremes` | app/geometry.py:42-59 | the best box is always kept, and a threshold of 1 or more keeps every box |
| `Nms.RerunKeepsAll` | app/geometry.py:31-61 | running on the survivors drops nothing |
| `Rollout.RolloutCandidates` | app/model_config_resolver.py:10-45 | the loop keeps well-formed items in order, clamps weights, levels an all-zero list, rejects an invalid target |
| `Rollout.WeightedRolloutTarget` | app/model_config_resolver.py:48-66 | the cursor stops at the position whose share contains the bucket; the fallback after the loop is never reached |
| `Rollout.ExactlyOne` | app/model_config_resolver.py:57-66 | a bucket selects exactly one position, of positive weight |
| `Rollout.ExactShare` | app/model_config_resolver.py:53-66 | exactly weight-many of the buckets select each position |
| `Rollout.NormalisedSplits` | app/model_config_resolver.py:42-56 | any nonempty normalised list has a positive total |
| `Rollout.AliasResolution` | app/model_config_resolver.py:69-108 | which target an alias resolves to, by the source's precedence, weighted with a traffic key and heaviest without |
| `Rollout.HeaviestIsLive` | app/model_config_resolver.py:98-106 | without a traffic key the chosen candidate receives traffic |

## Left out

- GalleryLog.ReplayIdempotent: a feature line must carry its record, as every line the service writes does; a hand-edited log may not, and then replay depends on what was there before.
- GalleryStore.Gallery.LoadGalleryState: person ids are taken without surrounding blanks, which the source's check ignores; which of several stored records carrying one key is kept is left open.
- GalleryRecovery.RunRecoverable: file replacement and appending are atomic; the direct-write fallback after a failed replace, and what a crash inside an append leaves, are modelled only as a line that makes the replay raise.
- GalleryRecovery.StepRecoverable: persons are compared without `updated_at`, which replay takes from the log line.
- GalleryStore: metadata values are strings; the snapshot's list of persons is a map by key; the PostgreSQL and vector-store branches are not part of this model.
- SchedulerService.ResultsAreAlone: for executors that work row by row; queue and inference timings attached to a result, metrics, and cancelling the worker task are not modelled. No bound on how long a scope waits is claimed.
- SchedulerService.Scheduler.Wake: waiting for the wake event is the end of a turn; when the next turn comes is up to the run.
- EntitlementRuns.RunKeeps: one project's book, since every operation filters by tenant and project; profile status transitions, persistence, and the truncation of actor and reason texts are left out.
- ControlStateLaws.NoLostUpdate: the register is atomic, as one database transaction is; the projection of entities beside the row, and validators that raise (a failed load), are not modelled. The local-file mode is left out.
- Idempotency.IdempotencyStore.Reserve: among completed entries expiring at the same instant any may be evicted; the Redis scripts are not part of this model, nor is how storage keys and content hashes are computed; header names are taken as already lower-case.
- Metering.UsageLedger.RecordUsageEvent: one project's ledger; trimming and lower-casing of text fields, number conversion errors, and the digest function are parameters of the caller.
- Metering.AggregateUsage: receives the events of its window and a naming of periods; time zones, rounding of costs to six digits, budget alerts and forecasts are left out.
- AuditChain.AuditLog.AuditEvent: one writer, and appends that succeed; sanitising and bounding of payloads, and the report's limit of twenty listed errors, are left out.
- AuditChain.HeadDeterminesLog: takes the digest as injective on canonical payloads.
- GatherLimited.ReturnIsComplete: an item's result is a function of its index; a worker that swallows its own cancellation may still finish, which the steps allow.
- Nms.Suppress: the ranking is a parameter, since argsort leaves the order of equal scores open; sorting itself is not modelled.
- Rollout.AliasResolution: validation of references, and the naming of a project and model pair, are parameters; which shape of the configuration object the list came from is decided before.
- The HTTP layer, contracts, console modules, model execution, image code, video jobs, access control, encryption, licence checks and the rest of the commercial module: no protocol of their own, or code outside this model.
