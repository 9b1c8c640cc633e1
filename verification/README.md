# Verified model of the analysis backend

The backend is a set of database-backed job queues and a few self-contained algorithms. This project models
the parts where interleavings, crashes or arithmetic make correctness hard to see, and proves what they
guarantee for every run and every input. `dafny verify dfyconfig.toml` checks all of it.

**Queues.** A queue is a transition system. Its state holds the table rows and what each worker remembers
between two statements; every event is one database statement or one transaction; a run is any sequence of
events, so results hold for every interleaving, any number of workers and a crash anywhere. Beside each
machine stands a class whose methods update the rows as the service does and are proved to take exactly the
machine's step.

- `InterpretationQueue`: the retry queue for AI interpretations.
- `AnalysisTaskQueue`: the analysis tasks, with stale recovery and the claimer's unguarded last write.
- `ScheduleClaims`, `ScheduleSync`: how far apart a recurring schedule fires, and whether it shows the status
  of its last task.
- `AgentBacktestGroups`: fast and refined backtest results, and what readers see of them.

**Derived data.** `BacktestItems`, `RecomputeBatches`, `BacktestSummaries`, `BacktestAgreement`,
`BacktestBrokenOff` and `BacktestService` treat the backtest summaries as a cache over the result rows. `MergedHistory` (over
`StableSort`) covers the lists put together from windows of two queries. `Migration` copies legacy tables with
checkpoints and crashes.

**Algorithms.** `TradingSession`, `AgentRunBridge`, `LoginRateLimit`, `Rsi` and `AutoOrder`.

**Administration.** `LastAdmin` covers users, roles and seeding. `Options` and `Basics` are helpers.

Each operation is pinned from its inputs: its contract gives the columns it writes and the condition it writes them
under in their own values, and lemmas over runs say what that adds up to: who decided a row's last status, which
version a reader gets, which item's evaluation a result holds, which row stands where on a page.

Where the code does not meet a property on all inputs, the model keeps the code as it is and states the exact
condition:

- A completed interpretation group can be turned back to pending by a worker still in flight; completion is
  final exactly when there is none. A group whose worker died is stuck, in both group queues; every other group
  can still end.
- A schedule's interval holds between stored trigger times; between the claims themselves it is guaranteed
  exactly when the first claimer did not wait.
- A schedule whose status write was lost lags behind its task; otherwise it is exact.
- A task the sweep failed can still be overwritten by its claimer, and by nobody else; a row in processing without
  a start time is never recovered. Active tasks are unique in every run exactly with the partial index.
- A forced backtest run can leave a wrong summary when a candidate's stored row has another owner or code than its
  history row, as after a reply that named another one; it cannot exactly when no such candidate leaves a summary
  that another row needs, and a run without force never does. A recomputation over all owners that completes
  repairs everything; over one owner the same condition decides.
- A refresh that breaks off can leave wrong only touched summaries it did not reach; such a summary stays as it is
  until a later run touches it, and is right after one that completes. A recomputation that breaks off ends in
  agreement exactly when it had reached every needed summary.
- History pages are exact exactly when the failed rows' displayed times descend, which completedAt guarantees; the
  task list is exact exactly when every row its queries cut off is displayed behind at least `limit` rows they keep,
  which few running tasks and end times guarantee.
- The next trading session is right exactly for well-ordered windows, which the parser does not enforce; across
  a clock change the announced instant can lie in the past, under a condition on the zone that can be read off
  before.
- An active administrator survives every run exactly when nobody is an administrator by an old role code
  alone, which seeding guarantees.
- The guard of the last administrator also refuses needlessly, exactly for disabled administrators who stay so beside
  a single active one.
- A fractional quantity cap orders fractions of a share.
- The request hash leaves out whether refinement was asked for: the answers for one hash all got their choice
  exactly when they all asked for the same.

## Model

| member | source | states |
|---|---|---|
| InterpretationQueue.ClaimsAreFewAndSpaced | src/modules/backtest/backtest-ai-interpretation.service.ts:327-396 | over every interleaving of workers, hydrating readers and Agent write-backs: a run group is claimed at most three times, at least 30 s and then 60 s apart, and an Agent-managed group never |
| InterpretationQueue.FailureIsDecidedByTheAttempt | src/modules/backtest/backtest-ai-interpretation.service.ts:381-395 | in every run: the failure of the first claim puts the group back with a retry time of exactly the clock + 30 s, of the second + 60 s, and of the third fails it |
| InterpretationQueue.FailedGroupsHadThreeClaims | src/modules/backtest/backtest-ai-interpretation.service.ts:381-395 | a failed group was claimed exactly three times: none gives up early |
| InterpretationQueue.PendingGroupIsClaimedIffDue | src/modules/backtest/backtest-ai-interpretation.service.ts:328-366 | a free worker gets a pending group exactly when its retry time has come, and never earlier or later |
| InterpretationQueue.ThreeClaimsAreReached | src/modules/backtest/backtest-ai-interpretation.service.ts:327-396 | a run with claims at 0, 30 and 90 s, pending after the first two failures and failed after the third |
| InterpretationQueue.AtMostOneJobInFlight | src/modules/backtest/backtest-ai-interpretation.service.ts:348-366 | two workers never hold a job on the same run group |
| InterpretationQueue.StaleReadIsHarmless | src/modules/backtest/backtest-ai-interpretation.service.ts:336-368 | when the guarded claim succeeds, the attempt count read before it is still the stored one, so the attempt number the worker goes on with is right |
| InterpretationQueue.CompletedMeansInterpreted | src/modules/backtest/backtest.service.ts:442-453 | a completed group has no run without an interpretation, whoever completed it |
| InterpretationQueue.CompletedIsFinalIffNoJobInFlight | src/modules/backtest/backtest-ai-interpretation.service.ts:369-395 | `completed` is final exactly when no worker still holds a job on the group |
| InterpretationQueue.CompletedCanRevert | src/modules/backtest/backtest-ai-interpretation.service.ts:381-395 | a concrete run in which the late failure write turns a completed group back to pending |
| InterpretationQueue.OrphanedGroupIsStuck | src/modules/backtest/backtest-ai-interpretation.service.ts:329-366 | a group in processing that nobody works on stays as it is, unclaimed, until a write-back comes: nothing recovers it |
| InterpretationQueue.CanStillEndIffNotOrphaned | src/modules/backtest/backtest-ai-interpretation.service.ts:327-396 | without a write-back a group can still be completed or failed exactly when it is not in processing with nobody working on it |
| InterpretationQueue.CrashOrphansAGroup | src/modules/backtest/backtest-ai-interpretation.service.ts:348-371 | a claimed group whose worker dies is in that state |
| InterpretationQueue.RunKeepsInv | src/modules/backtest/backtest-ai-interpretation.service.ts:151-396 | the invariant behind these results holds in every reachable state |
| InterpretationQueue.InterpretationService.CreateGroup | src/modules/backtest/backtest.service.ts:1463-1617 | the group row is inserted in its first interpretation state |
| InterpretationQueue.InterpretationService.PickCandidate | src/modules/backtest/backtest-ai-interpretation.service.ts:328-346 | the candidate read, as one step of the machine |
| InterpretationQueue.InterpretationService.ClaimCandidate | src/modules/backtest/backtest-ai-interpretation.service.ts:348-368 | the guarded claim: what it writes when its condition still holds, and that it writes nothing otherwise |
| InterpretationQueue.InterpretationService.OpenDetail | src/modules/backtest/backtest.service.ts:1710-1731 | a reader decides to hydrate from the row it loaded |
| InterpretationQueue.InterpretationService.LoadMissingRuns | src/modules/backtest/backtest-ai-interpretation.service.ts:64-88 | collects the runs that still lack an interpretation |
| InterpretationQueue.InterpretationService.PersistInterpretations | src/modules/backtest/backtest-ai-interpretation.service.ts:133-149 | writes a record for every collected run in one step |
| InterpretationQueue.InterpretationService.FinishJob | src/modules/backtest/backtest.service.ts:442-453 | the unguarded completion write |
| InterpretationQueue.InterpretationService.FailJob | src/modules/backtest/backtest-ai-interpretation.service.ts:381-395 | the unguarded failure write: pending with a retry 30 s or 60 s ahead after the first or second attempt, failed after the third |
| InterpretationQueue.InterpretationService.WriteBackFromAgent | src/modules/backtest/backtest-ai-interpretation.service.ts:151-242 | the Agent write-back transaction over runs and group |
| AnalysisTaskQueue.EveryTaskRowIsWellFormed | src/common/worker/task-worker.service.ts:683-729 | for any number of workers: at most one claim per task; completed and failed rows have completedAt, pending and processing rows do not |
| AnalysisTaskQueue.AtMostOneActivePerOwnerAndStock | scripts/apply-postgres-constraints.ts:24-26 | with the partial unique index there is at most one active task per owner and stock; rows without an owner are not covered |
| AnalysisTaskQueue.UniqueInEveryRunIffIndexed | scripts/apply-postgres-constraints.ts:24-26 | active tasks are unique per owner and stock in every run exactly when the index is in place |
| AnalysisTaskQueue.SubmitKeepsUniqueIff | src/modules/analysis/analysis.service.ts:590-605 | one insert of a checked request keeps them unique exactly if the index is there or the check would still pass |
| AnalysisTaskQueue.StepChangesRowsAsAllowed | src/common/worker/task-worker.service.ts:146-222 | one statement changes a row only in the allowed ways: no return to pending, a completed row stays, a failed row is replaced only by its claimer's last write |
| AnalysisTaskQueue.ClaimedTasksOnlyMoveForward | src/common/worker/task-worker.service.ts:683-729 | over any continuation: no second claim, no return to pending, no change after completion |
| AnalysisTaskQueue.FailedIsFinalIffNobodyRuns | src/common/worker/task-worker.service.ts:802-813 | `failed` is final exactly when no worker is still running the task |
| AnalysisTaskQueue.ClaimersOutcomeStands | src/common/worker/task-worker.service.ts:802-874 | in every run the last write of the worker that claimed a task decides it for good: completed after success, failed after an error, ended at the clock of that write |
| AnalysisTaskQueue.CompletedIffItsClaimerSucceeded | src/common/worker/task-worker.service.ts:802-813 | a task is completed exactly when the worker that claimed it reported success |
| AnalysisTaskQueue.OnlyTheseFail | src/common/worker/task-worker.service.ts:146-222 | a task becomes failed only by its claimer, by a sweep when it was started at least the timeout ago, or by being created so |
| AnalysisTaskQueue.NewRowsAreAsSubmitted | src/modules/analysis/analysis.service.ts:434-516 | every row begins pending, unclaimed and without times, or failed with its end time, under the owner and stock it was submitted for |
| AnalysisTaskQueue.SweptTaskCanComplete | src/common/worker/task-worker.service.ts:802-813 | a run in which a swept task is completed by its claimer after all |
| AnalysisTaskQueue.DuplicateCheckAloneIsNotEnough | src/modules/analysis/analysis.service.ts:583-605 | without the index two requests that are both checked before either inserts create two active tasks |
| AnalysisTaskQueue.SweepRecoversTheTable | src/common/worker/task-worker.service.ts:146-222 | the row-by-row recovery sweep, from any listing of the stale rows, equals failing exactly the stale rows at once |
| AnalysisTaskQueue.SweepCanRecoverIff | src/common/worker/task-worker.service.ts:146-222 | of all rows in processing that nobody works on, however they came there, exactly those with a start time and no end time can ever be recovered |
| AnalysisTaskQueue.RecoveredKeepsInv | src/common/worker/task-worker.service.ts:146-222 | failing the stale rows keeps the queue's invariant |
| AnalysisTaskQueue.TaskWorkerService.CheckForDuplicate | src/modules/analysis/analysis.service.ts:258-297 | finds an active task of the owner and stock if there is one, and otherwise lets the request go on |
| AnalysisTaskQueue.TaskWorkerService.CreatePendingTask | src/modules/analysis/analysis.service.ts:434-468 | the insert of a checked request, refused by the index if there is one |
| AnalysisTaskQueue.TaskWorkerService.CreateFailedTask | src/modules/analysis/analysis.service.ts:470-516 | a task created as failed carries its end time |
| AnalysisTaskQueue.TaskWorkerService.PickCandidate | src/common/worker/task-worker.service.ts:683-701 | the candidate read |
| AnalysisTaskQueue.TaskWorkerService.ClaimCandidate | src/common/worker/task-worker.service.ts:703-718 | the guarded claim, all fields it writes, and nothing on a lost race |
| AnalysisTaskQueue.TaskWorkerService.WriteOutcome | src/common/worker/task-worker.service.ts:802-874 | the claimer's last write, without a guard: completed on success, failed from the catch branch, ended now |
| AnalysisTaskQueue.TaskWorkerService.RecoverStaleProcessingTasks | src/common/worker/task-worker.service.ts:146-222 | a whole sweep: exactly the stale rows fail, and it says whether there were any |
| AnalysisTaskQueue.TaskWorkerService.FailStaleRows | src/common/worker/task-worker.service.ts:176-221 | its loop of guarded updates |
| ScheduleClaims.SuccessiveFiringsAreSpaced | src/modules/analysis/analysis-scheduler.service.ts:410-443 | under racing workers two successive firings without a re-arming edit are an interval apart, by their stored trigger times |
| ScheduleClaims.ClaimInstantsLoseOnlyTheFirstWait | src/modules/analysis/analysis-scheduler.service.ts:410-443 | by the instants of the claims the gap can fall short only by what the first claimer waited between read and claim |
| ScheduleClaims.ClaimGapIsGuaranteedIffNoWait | src/modules/analysis/analysis-scheduler.service.ts:410-443 | after a claim the interval to the next claim is guaranteed exactly when that claimer did not wait |
| ScheduleClaims.WaitShortensTheNextGap | src/modules/analysis/analysis-scheduler.service.ts:410-443 | a claim after a minute of waiting is followed by one four minutes later at an interval of five |
| ScheduleClaims.FiringsInWindowAreBounded | src/modules/analysis/analysis-scheduler.service.ts:56-58 | in any closed window at most floor(length / interval) + 1 firings, plus one for each re-arming edit: missed slots never cause a burst |
| ScheduleClaims.UneditedScheduleFiresOncePerInterval | src/modules/analysis/analysis-scheduler.service.ts:410-443 | without edits, at most floor((t - s) / interval) + 1 firings in [s, t] |
| ScheduleClaims.OnlyADueScheduleFires | src/modules/analysis/analysis-scheduler.service.ts:410-443 | in every run only an enabled schedule that is due fires, and it is next due one interval after the time the claimer had read |
| ScheduleClaims.FreeWorkerFiresIffDue | src/modules/analysis/analysis-scheduler.service.ts:410-443 | a free worker that comes by fires it exactly if it is enabled and due |
| ScheduleClaims.PausedScheduleNeverFires | src/modules/analysis/analysis-scheduler.service.ts:429-443 | a paused schedule never fires, though workers had read it while due, until an edit resumes it |
| ScheduleClaims.AnalysisSchedulerService.CreateSchedule | src/modules/analysis/analysis-scheduler.service.ts:256-288 | a new schedule is enabled and due at once |
| ScheduleClaims.AnalysisSchedulerService.ReadDueCandidate | src/modules/analysis/analysis-scheduler.service.ts:410-427 | the candidate read |
| ScheduleClaims.AnalysisSchedulerService.ClaimDueSchedule | src/modules/analysis/analysis-scheduler.service.ts:429-443 | the guarded claim on the next run time that was read |
| ScheduleClaims.AnalysisSchedulerService.UpdateSchedule | src/modules/analysis/analysis-scheduler.service.ts:313-364 | which edits re-arm the schedule, and which are refused |
| ScheduleSync.LastStatusIsExactIff | src/common/worker/task-worker.service.ts:246-268 | whenever the worker owes no update, a schedule shows idle, `skipped`, or exactly the status of the task it names, exactly unless the last status write for that task was lost |
| ScheduleSync.LastStatusIsExact | src/common/worker/task-worker.service.ts:105-114 | with every write delivered, all schedules are exact at each loop boundary |
| ScheduleSync.LagIsRepairedByTheNextWrite | src/common/worker/task-worker.service.ts:212-218 | an inexact schedule lags behind a lost write or is the one whose update is owed, and that update repairs it |
| ScheduleSync.LagStaysUntilTheNextFiring | src/common/worker/task-worker.service.ts:257-267 | once the task has ended, what the schedule shows stays until it fires again or is deleted |
| ScheduleSync.LostWriteLags | src/common/worker/task-worker.service.ts:257-267 | a run whose swallowed write error leaves a completed task shown as processing |
| ScheduleSync.NewerFiringIsNotOverwritten | src/modules/analysis/analysis-scheduler.service.ts:383-408 | a status write does not reach a schedule that has moved on to another task |
| ScheduleSync.TaskWorker.RecordScheduleTaskState | src/modules/analysis/analysis-scheduler.service.ts:383-408 | updates the schedule only while it still names the task |
| ScheduleSync.TaskWorker.SyncScheduleState | src/common/worker/task-worker.service.ts:246-268 | the write owed after a task write, delivered or lost |
| ScheduleSync.TaskWorker.RecoverNextListed | src/common/worker/task-worker.service.ts:176-219 | one round of the recovery loop |
| ScheduleSync.TaskWorker.FireSchedule | src/modules/analysis/analysis-scheduler.service.ts:445-523 | the firing transaction: skip onto the active task, or create a pending or a failed one |
| ScheduleSync.TaskWorker.ClaimTask | src/common/worker/task-worker.service.ts:703-726 | the guarded claim as the schedule sees it |
| ScheduleSync.TaskWorker.WriteTaskOutcome | src/common/worker/task-worker.service.ts:801-820 | the last task write as the schedule sees it |
| ScheduleSync.TaskWorker.RemoveSchedule | src/modules/analysis/analysis-scheduler.service.ts:366-381 | deleting a schedule detaches its tasks |
| BacktestItems.BatchAccounts | src/modules/backtest/backtest.service.ts:801-927 | completed + insufficient + errors = reported errors + items + failed saves, and saved = items - rejected - failed saves |
| BacktestItems.FoldFromTotals | src/modules/backtest/backtest.service.ts:725-738 | folding into running totals equals folding from zero and merging, touched keys included |
| BacktestItems.FoldConcat | src/modules/backtest/backtest.service.ts:801-927 | folding two item lists after each other is folding them joined |
| BacktestItems.EchoedFoldIsCovered | src/modules/backtest/backtest.service.ts:827-836 | whatever a batch changes lies under a touched owner and code, before and after, if the stored rows carry their history row's owner and code |
| BacktestItems.LastSavesStandInAFold | src/modules/backtest/backtest.service.ts:801-927 | the last writer wins: each result holds the evaluation of the last item saved on it, under that item's owner and code or else its candidate's; every other result is as before |
| BacktestItems.FoldTallies | src/modules/backtest/backtest.service.ts:801-927 | the four totals count the items by kind: saved, completed, insufficient, and as errors those without a candidate, not saved, or of another status |
| BacktestItems.FoldTouchesExactly | src/modules/backtest/backtest.service.ts:827-836 | touched are exactly the owner and code of every item that names a candidate, saved or not |
| RecomputeBatches.AboveCursor | src/modules/backtest/backtest.service.ts:1055-1074 | the id cursor left after some rows selects exactly the remaining ones |
| RecomputeBatches.NextAbove | src/modules/backtest/backtest.service.ts:1055-1098 | moving the cursor to the last row of a batch leaves exactly the rows behind it |
| RecomputeBatches.BatchesAreCovered | src/modules/backtest/backtest.service.ts:1047-1098 | all batches of a recomputation change only rows under touched keys |
| RecomputeBatches.NothingSavedInAnyBatch | src/modules/backtest/backtest.service.ts:1100-1102 | if nothing was saved nothing changed, so skipping the summaries is right |
| RecomputeBatches.BatchesLeaveLastSaves | src/modules/backtest/backtest.service.ts:1047-1098 | after all batches each result holds the last item saved on it in the reply to its own batch, and what no batch saved on is as before |
| RecomputeBatches.BatchSizeDoesNotMatter | src/modules/backtest/backtest.service.ts:1047-1098 | with an Agent that answers row by row, results, totals and touched keys are those of one single fold, whatever the batch size |
| BacktestSummaries.ResummarisingRestoresAgreement | src/modules/backtest/backtest.service.ts:661-723 | recomputing the touched summaries makes every stored row's overall and per-stock summary the summary of exactly the matching rows |
| BacktestSummaries.AgreementMeans | src/modules/backtest/backtest.service.ts:551-723 | agreement is: every stored result has an overall and a per-stock summary that the Agent computed from exactly the payloads of the rows with this owner, configuration and, for a stock, code |
| BacktestAgreement.DeletionKeepsAgreement | src/modules/backtest/backtest.service.ts:1032-1046 | deleting results and summaries of a configuration for one scope keeps all other agreements |
| BacktestAgreement.RunsKeepAgreementIffNothingStrands | src/modules/backtest/backtest.service.ts:929-1010 | for all honest Agents: a run of given candidates keeps the summaries of its configuration right exactly when no candidate's stored row, taking its history row's owner and code, leaves a summary another row needs |
| BacktestAgreement.UnforcedRunsKeepAgreement | src/modules/backtest/backtest.service.ts:950-964 | without force the candidates have no stored rows, so such a run always keeps agreement |
| BacktestAgreement.StrandingBreaksAgreement | src/modules/backtest/backtest.service.ts:999-1001 | the run that shows it: the summary left behind counts one row too many |
| BacktestAgreement.StrandingTableIsReached | src/modules/backtest/backtest.service.ts:827-836 | two runs from empty tables: a reply that names another owner ends in agreement with such a table, and an honest forced run of that row then breaks the agreement |
| BacktestAgreement.UnstrandedRun | src/modules/backtest/backtest.service.ts:929-1010 | the positive half, from the batch of any honest Agent |
| BacktestAgreement.RunKeepsOtherConfigs | src/modules/backtest/backtest.service.ts:929-1010 | the summaries of every other configuration stay right |
| BacktestAgreement.RecomputationsAgreeIffNothingStrands | src/modules/backtest/backtest.service.ts:1012-1111 | for all honest Agents and batch sizes: a recomputation ends in agreement exactly when no row kept outside its scope would be left behind; over all owners always, from any tables |
| BacktestAgreement.StrandingBreaksRecomputation | src/modules/backtest/backtest.service.ts:1032-1102 | the recomputation for one owner that shows it |
| BacktestAgreement.UnstrandedRecomputation | src/modules/backtest/backtest.service.ts:1032-1102 | the positive half, over all batches of any honest Agent |
| BacktestAgreement.CoherentRowsStrandNothing | src/modules/backtest/backtest.service.ts:827-836 | rows that carry their history row's owner and code meet the condition |
| BacktestBrokenOff.BrokenOffAgreementIff | src/modules/backtest/backtest.service.ts:661-723 | where no row strands, a refresh that breaks off leaves only touched summaries it did not reach wrong; agreement holds exactly when those are right already |
| BacktestBrokenOff.BrokenOffRun | src/modules/backtest/backtest.service.ts:929-1010 | so it is for a run of any echoing Agent whose summary call fails after the rows were saved |
| BacktestBrokenOff.BrokenOffRunCanDisagree | src/modules/backtest/backtest.service.ts:999-1001 | it happens: a first run saves its row, the first summary call fails, and the needed summary is missing |
| BacktestBrokenOff.MissedSummaryStaysUntilTouched | src/modules/backtest/backtest.service.ts:929-1010 | over any sequence of runs that do not touch a needed summary, completed or broken off, it stays right or wrong as it was |
| BacktestBrokenOff.LastTouchDecides | src/modules/backtest/backtest.service.ts:929-1010 | over any sequence of runs a needed summary is as the last run that touched it left it, and right if that run completed |
| BacktestBrokenOff.BrokenOffRecomputation | src/modules/backtest/backtest.service.ts:1032-1102 | a recomputation whose refresh breaks off ends in agreement exactly when it had reached all needed touched summaries; over all owners every needed one is touched |
| BacktestService.RecomputationSettles | src/modules/backtest/backtest.service.ts:1032-1102 | over all owners from any tables, over one owner from coherent rows in agreement: coherent rows in agreement |
| BacktestService.BacktestService.Run | src/modules/backtest/backtest.service.ts:929-1010 | its whole new state for any Agent, with a summary call failing or not: the last item saved on a result stands, and a completed run leaves every result it saved with both its summaries; under an echoing Agent it keeps agreement without force always and with it under the exact condition, and for all other configurations; its totals add up |
| BacktestService.BacktestService.RecomputeAll | src/modules/backtest/backtest.service.ts:1012-1111 | terminates, sends every eligible row once in id order, and leaves beside what it does not clear exactly the last saves of its batches; under an echoing Agent it ends in agreement over all owners, and over one owner under the exact condition; if its refresh breaks off, exactly when that had reached every needed summary |
| BacktestService.BacktestService.RunBatches | src/modules/backtest/backtest.service.ts:1047-1098 | the cursor loop equals the batches of the eligible rows |
| BacktestService.BacktestService.RunBatch | src/modules/backtest/backtest.service.ts:1080-1097 | one round adds a batch to the totals |
| BacktestService.BacktestService.ExecuteBacktestCandidates | src/modules/backtest/backtest.service.ts:740-927 | one Agent call and one upsert per item: each result holds the last item saved on it, all others stay, the totals count the items by kind, and exactly the owners and codes of known items are touched |
| BacktestService.BacktestService.RecomputeSummaries | src/modules/backtest/backtest.service.ts:661-723 | exactly the touched summaries become the summary of the matching rows, or those reached before a call failed; all others stay |
| BacktestService.BacktestService.RecomputeOwner | src/modules/backtest/backtest.service.ts:661-723 | one owner: the overall summary, then each touched code, until a call fails |
| BacktestService.BacktestService.RefreshSummary | src/modules/backtest/backtest.service.ts:551-659 | one summary is stored under the key it was computed for, or nothing if the call fails |
| MergedHistory.PageIsThePageOfTheWholeList | src/modules/history/history.service.ts:200-229 | page p built from the first p * limit rows of each source is page p of the stable sort of both in full |
| MergedHistory.PagesTileTheWholeList | src/modules/history/history.service.ts:162-230 | the pages joined are the whole list: no gap, no duplicate, every row once, and `total` counts them |
| MergedHistory.PageShowsRowsNewestFirst | src/modules/history/history.service.ts:114-229 | every merged page, whatever the order of the queries: each item is a row under its own time (createdAt; for a failed row completedAt, else createdAt), status and id, no row twice, later times first and ties in source order |
| MergedHistory.PagesShowAllRowsInOrder | src/modules/history/history.service.ts:200-229 | with the queries in displayed order the k-th item of page p is row (p - 1) * limit + k of all rows in displayed order |
| MergedHistory.SinglePagesShowTheirSource | src/modules/history/history.service.ts:170-198 | with one status the page is that stretch of its source, and `total` counts the rows of the chosen kinds |
| MergedHistory.NewerCompletedRowIsFirst | src/modules/history/history.service.ts:216-229 | a completed row of time 20 is page 1, a failed one that ended at 10 is page 2 |
| MergedHistory.PagesAreExactIffFailedTimesDescend | src/modules/history/history.service.ts:209-223 | every page is right beside every completed history exactly when the failed rows' displayed times descend |
| MergedHistory.EndTimesMakeTheOrderRight | src/modules/history/history.service.ts:138-160 | with completedAt present the database order is the displayed order |
| MergedHistory.HistoryOfTheQueuePagesExactly | src/modules/history/history.service.ts:138-229 | rows written by the task queue page exactly, in every run of the queue |
| MergedHistory.MissingEndTimeBreaksAPage | src/modules/history/history.service.ts:158 | a failed row without completedAt can push a newer row off the first page |
| MergedHistory.TaskListIsExactIff | src/modules/analysis/analysis.service.ts:642-671 | for the given running and terminal rows: the list is the newest `limit` rows exactly when every row a query cuts off is displayed behind at least `limit` rows that are kept |
| MergedHistory.CutsByTimeIff | src/modules/analysis/analysis.service.ts:642-671 | both queries cut by displayed time exactly when the list is exact with both kinds present and with either alone |
| MergedHistory.RunningCutDecides | src/modules/analysis/analysis.service.ts:642-653 | for running rows: exact beside all terminal rows cut by time exactly when their own cut is; always with at most `limit` running |
| MergedHistory.TerminalCutDecides | src/modules/analysis/analysis.service.ts:654-669 | for terminal rows likewise |
| MergedHistory.TaskListShowsTasksNewestFirst | src/modules/analysis/analysis.service.ts:642-671 | the list shows min(limit, all) different tasks, each under its own time (end, else start, else creation), status and id, later times first |
| MergedHistory.ExactTaskListIsTheFirstOfAll | src/modules/analysis/analysis.service.ts:669-671 | when it is exact, these are the first of all tasks in displayed order |
| MergedHistory.EndTimesMakeTheCutRight | src/modules/analysis/analysis.service.ts:250-256 | terminal rows with end times are cut by time at every limit |
| MergedHistory.TaskListOfTheQueueIsExact | src/modules/analysis/analysis.service.ts:642-671 | with at most `limit` tasks running and terminal rows the queue wrote, the list is exact |
| MergedHistory.ManyRunningTasksCanHideTheNewest | src/modules/analysis/analysis.service.ts:642-653 | two running tasks and a limit of one: the one started last is missing |
| MergedHistory.MissingEndTimeCanHideTheNewest | src/modules/analysis/analysis.service.ts:654-669 | a terminal row without an end time is listed last but displayed by its creation time, and is missing |
| StableSort.SortIsStable | src/modules/history/history.service.ts:216-223 | the sort model is descending and keeps equal times in order |
| StableSort.StableSortIsUnique | src/modules/history/history.service.ts:216-223 | those two properties leave no other result |
| StableSort.SortListsThePlaces | src/modules/history/history.service.ts:216-223 | the sort lists every place of the input once, by descending time and then by place |
| StableSort.SortConcatIsMerge | src/modules/history/history.service.ts:216-223 | sorting two lists joined is merging their sorts, ties to the first |
| StableSort.MergePrefix | src/modules/history/history.service.ts:200-223 | the first n items of a merge need only the first n of each list |
| StableSort.WindowOfTwoLists | src/modules/analysis/analysis.service.ts:642-671 | with both cuts by time the first n of two lists sorted together need only the first n of each |
| StableSort.SortWithItem | src/modules/analysis/analysis.service.ts:669-671 | sorting with an item and without it differ by that item at its rank: behind earlier items not older and later items newer |
| StableSort.RankedCutIsExact | src/modules/analysis/analysis.service.ts:642-671 | leaving out items that rank behind n kept ones does not change the first n |
| StableSort.ExactCutRanks | src/modules/analysis/analysis.service.ts:642-671 | and only such items can be left out |
| StableSort.WindowOfOneList | src/modules/analysis/analysis.service.ts:642-671 | sorting only the first n items gives the first n of the sort exactly when none of them is older than the rest |
| Migration.MigrationScript.Migrate | scripts/migrate-sqlite-to-postgres.ts:294-335 | one start of the script, killed after any number of writes, leaves a state to resume from; if it finishes, the table is what one insert of the whole source gives |
| Migration.MigrationScript.MigrateWithRestarts | scripts/migrate-sqlite-to-postgres.ts:294-335 | any sequence of kills and restarts ends in that same table once one start is left alone long enough: nothing but valid legacy rows with their values added, and all of them if none collide |
| Migration.Redo | scripts/migrate-sqlite-to-postgres.ts:300-329 | inserting a stretch again over a longer prefix changes nothing in it |
| Migration.InsertingTheNextBatch | scripts/migrate-sqlite-to-postgres.ts:294-335 | each batch keeps the resume invariant on both sides of the checkpoint write, and there is less left above the checkpoint |
| Migration.BatchIsTheNextStretch | scripts/migrate-sqlite-to-postgres.ts:81-84 | the batch query reads exactly the next rows in id order, and is empty only at the end |
| Migration.FreshStartIsResumable | scripts/migrate-sqlite-to-postgres.ts:65-70 | a missing checkpoint reads as zero and starts from the beginning |
| Migration.OnlyImagesAreAdded | scripts/migrate-sqlite-to-postgres.ts:300-329 | nothing stored is lost or changed, nothing is invented, the unique index holds |
| Migration.EveryValidRowArrivesIffNoConflicts | scripts/migrate-sqlite-to-postgres.ts:294-335 | every valid legacy row arrives with its image exactly when no two valid rows and no existing row collide on id or key |
| Migration.InsertAllMigratesOnly | scripts/migrate-sqlite-to-postgres.ts:294-335 | rows that were there stay; every other row holds the stock, the status and, for a task, the id of the legacy row with its id, unknown task statuses as pending |
| Migration.EveryValidRowIsDeliveredIff | scripts/migrate-sqlite-to-postgres.ts:294-335 | every legacy row with the required texts arrives with its values exactly when no two of them and no existing row collide on id or task id |
| LoginRateLimit.TenFailuresSpanMoreThanTheWindow | src/modules/auth/auth.service.ts:717-778 | in a serialized run without a success any ten consecutive failures take more than 300 s |
| LoginRateLimit.AtMostNineFailuresInAnyWindow | src/modules/auth/auth.service.ts:717-778 | at most 2 * 5 - 1 recorded failures in any closed interval of 300 s |
| LoginRateLimit.WindowFillsUp | src/modules/auth/auth.service.ts:739-778 | one window never holds more than 5: the next failure after the fifth lies beyond it |
| LoginRateLimit.NineFailuresAreReached | src/modules/auth/auth.service.ts:717-778 | nine is reached |
| LoginRateLimit.AuthService.CheckRateLimit | src/modules/auth/auth.service.ts:717-736 | its answer, and that it drops exactly an expired row of this key |
| LoginRateLimit.AuthService.RecordFailure | src/modules/auth/auth.service.ts:739-778 | starts or continues the window of this key only |
| LoginRateLimit.AuthService.ClearRateLimit | src/modules/auth/auth.service.ts:780-787 | removes this key's row only |
| LoginRateLimit.AuthService.Login | src/modules/auth/auth.controller.ts:77-96 | check, then clear or record, is one attempt of the run |
| TradingSession.NextOpenIsTheFirstOpening | src/common/utils/trading-session.ts:148-178 | when blocked, the search finds the first later minute that is in session, at most three days ahead, with nothing in session before it |
| TradingSession.InSessionMeans | src/common/utils/trading-session.ts:180-242 | in session is: Monday to Friday, at or after the start of a usable window and before its end |
| TradingSession.BlockedUntilTheFirstOpening | src/common/utils/trading-session.ts:148-178 | with windows as configured listed by start, the search names the first minute at which one is open |
| TradingSession.SearchIsRightIffWellOrdered | src/common/utils/trading-session.ts:148-178 | it is right at every blocked minute exactly when the listed windows are well ordered |
| TradingSession.SortedWindowsAreWellOrdered | src/common/utils/trading-session.ts:50-68 | windows in ascending start order, starting within the day, are well ordered |
| TradingSession.UnsortedWindowsSkipAnOpening | src/common/utils/trading-session.ts:50-68 | with the afternoon listed first the next morning is skipped |
| TradingSession.ParseTradingSessions | src/common/utils/trading-session.ts:50-68 | keeps exactly the numeric windows with start >= 0 and end after start |
| TradingSession.TwoOffsetsNeedThreeAttempts | src/common/utils/trading-session.ts:118-136 | in a zone with two offsets the loop finds an instant showing the local time exactly when one exists, within three attempts |
| TradingSession.TwoOffsetsNearbyAreEnough | src/common/utils/trading-session.ts:118-136 | the same from the offsets at three instants: the sought one, the local time read as an instant, and the first correction |
| TradingSession.OneOffsetNeedsTwoAttempts | src/common/utils/trading-session.ts:118-136 | with a constant offset two attempts do |
| TradingSession.SkippedLocalTimesAreOffByTheChange | src/common/utils/trading-session.ts:118-136 | a local time skipped by the clock change is answered off by exactly the change |
| TradingSession.ThreeOffsetsCanMiss | src/common/utils/trading-session.ts:118-136 | with three offsets within an hour the loop can miss an existing instant |
| TradingSession.BuildUtcDateForLocalTime | src/common/utils/trading-session.ts:118-136 | the loop returns the first of four guesses that shows the local time, else the fifth |
| TradingSession.FirstHitOrTheFifthGuess | src/common/utils/trading-session.ts:118-136 | the specification of that loop |
| TradingSession.ResolveNextOpenAt | src/common/utils/trading-session.ts:148-178 | the day loop equals the search |
| TradingSession.EvaluateTradingSessionGuard | src/common/utils/trading-session.ts:180-242 | allowed exactly when not enforced, without a usable window, or from Monday to Friday within one, its end excluded; blocked always names the next opening, the first minute at which a window is open if they are listed by start |
| TradingSession.TwoOffsetsClosedForm | src/common/utils/trading-session.ts:118-136 | with two offsets the loop returns the local time minus the offset at its first correction, for skipped times too |
| TradingSession.AnnouncedOpening | src/common/utils/trading-session.ts:227-241 | in any zone with two offsets the announced instant shows the first opening exactly when that local time exists; it is not after now exactly when the other offset exceeds the current one by at least the wait and the zone, read at three known instants, makes the loop settle on it |
| TradingSession.OpeningCanLieInThePast | src/common/utils/trading-session.ts:118-136 | an autumn clock change for which the announced instant is already gone |
| TradingSession.SkippedOpeningCanLieInThePast | src/common/utils/trading-session.ts:118-136 | a spring change that skips the opening, for which it is gone as well |
| AgentBacktestGroups.GroupsAreRefinedAtMostOnce | src/modules/backtest/agent-backtest.service.ts:1460-1605 | every group is in one of five states, refined at most once, by one worker at a time |
| AgentBacktestGroups.EveryGroupStateOccurs | src/modules/backtest/agent-backtest.service.ts:1250-1312 | each of the five states is reached |
| AgentBacktestGroups.VersionsAreWrittenOnce | src/modules/backtest/agent-backtest.service.ts:839-934 | a stored result version never changes, in any continuation |
| AgentBacktestGroups.ReadersSeeOneCompleteResult | src/modules/backtest/agent-backtest.service.ts:1443-1448 | a reader that loads group, steps, trades and equity in separate statements holds exactly one stored result |
| AgentBacktestGroups.ReadersSeeTheActiveResult | src/modules/backtest/agent-backtest.service.ts:1428-1448 | from any reachable state: a reader holds the complete result of the version that was active when it loaded the group, whatever is stored or activated between its reads |
| AgentBacktestGroups.ReadersGetTheRefinedResult | src/modules/backtest/agent-backtest.service.ts:1548-1578 | whoever opens a group at any time after its refinement was committed reads exactly the refined result |
| AgentBacktestGroups.ReadersGetTheFastResult | src/modules/backtest/agent-backtest.service.ts:1250-1312 | whoever opens it while version 1 is active reads exactly the fast result it was stored with |
| AgentBacktestGroups.OneGroupPerRequestHash | src/modules/backtest/agent-backtest.service.ts:739-762 | racing requests get the same group exactly when their hashes are equal |
| AgentBacktestGroups.ChoicesAreKeptIffAllAgree | src/modules/backtest/agent-backtest.service.ts:465-488 | in any run every answer for a hash was stored under the refinement choice it asked for exactly when all answers for that hash asked for the same |
| AgentBacktestGroups.AnswersStayAsGiven | src/modules/backtest/agent-backtest.service.ts:1160-1330 | whether an answer kept its choice is settled once and for all, in every continuation |
| AgentBacktestGroups.AnswerKeepsChoiceIff | src/modules/backtest/agent-backtest.service.ts:1185-1197 | at the end of any later run a request whose hash was stored already has got its choice exactly if the group had been stored under it |
| AgentBacktestGroups.StoredAnswerKeepsChoiceIff | src/modules/backtest/agent-backtest.service.ts:1250-1281 | likewise one that computed a result and stores it or loses the race |
| AgentBacktestGroups.UnaskedRefinementHappens | src/modules/backtest/agent-backtest.service.ts:1160-1197 | a request without refinement is given a group being refined |
| AgentBacktestGroups.AskedRefinementCanBeMissed | src/modules/backtest/agent-backtest.service.ts:1160-1197 | a request with refinement is given a group that never will be |
| AgentBacktestGroups.OrphanedGroupStaysRefining | src/modules/backtest/agent-backtest.service.ts:1479-1489 | a group whose worker died in mid-refinement is never finished by anyone |
| AgentBacktestGroups.CanStillFinishIffNotOrphaned | src/modules/backtest/agent-backtest.service.ts:1460-1605 | and only such a group: every other one can still become final |
| AgentBacktestGroups.AgentBacktestService.FindRunGroup | src/modules/backtest/agent-backtest.service.ts:490-507 | the lookup by request hash |
| AgentBacktestGroups.AgentBacktestService.PersistResultVersion | src/modules/backtest/agent-backtest.service.ts:821-934 | clears and rewrites the three row sets of one version |
| AgentBacktestGroups.AgentBacktestService.StoreFastResult | src/modules/backtest/agent-backtest.service.ts:1250-1312 | the storing transaction: a new group with version 1, or the group that won the race |
| AgentBacktestGroups.AgentBacktestService.InsertRunGroup | src/modules/backtest/agent-backtest.service.ts:686-763 | the inserting branch: the group row, version 1, and the answer |
| AgentBacktestGroups.AgentBacktestService.PickCandidate | src/modules/backtest/agent-backtest.service.ts:1465-1477 | the candidate read |
| AgentBacktestGroups.AgentBacktestService.LockCandidate | src/modules/backtest/agent-backtest.service.ts:1479-1489 | the guarded lock |
| AgentBacktestGroups.AgentBacktestService.CommitRefinedResult | src/modules/backtest/agent-backtest.service.ts:1548-1578 | version 2 and the completed group in one transaction |
| AgentBacktestGroups.AgentBacktestService.MarkFailed | src/modules/backtest/agent-backtest.service.ts:1585-1603 | the failure write |
| AgentBacktestGroups.AgentBacktestService.LoadGroupRow | src/modules/backtest/agent-backtest.service.ts:1428-1443 | the reader goes on with the version that is active now |
| AgentBacktestGroups.AgentBacktestService.LoadDailySteps | src/modules/backtest/agent-backtest.service.ts:1444-1448 | reads the steps of the version decided on before |
| AgentBacktestGroups.AgentBacktestService.LoadTradeRows | src/modules/backtest/agent-backtest.service.ts:1444-1448 | likewise its trades |
| AgentBacktestGroups.AgentBacktestService.LoadEquityPoints | src/modules/backtest/agent-backtest.service.ts:1444-1448 | likewise its equity points |
| AgentRunBridge.AgentRunBridgeService.RunViaAsyncTask | src/common/agent/agent-run-bridge.service.ts:33-65 | success only after the task was last seen completed with a run id, whose run was read; `poll_attempts` is the number of task reads; every error names its cause |
| AgentRunBridge.AgentRunBridgeService.PollUntilFinished | src/common/agent/agent-run-bridge.service.ts:68-114 | stops at the first reply that can stop it and answers by that reply, after at most floor(timeout / interval) + 1 reads |
| AgentRunBridge.AgentRunBridgeService.GetRunWithRetry | src/common/agent/agent-run-bridge.service.ts:117-133 | equals the run-read specification, backoffs included |
| AgentRunBridge.ReadsAreBounded | src/common/agent/agent-run-bridge.service.ts:69-75 | no more than floor(timeout / interval) + 1 task reads, whatever the replies and delays |
| AgentRunBridge.NetworkErrorIffTooManyInARow | src/common/agent/agent-run-bridge.service.ts:76-90 | polling ends in a network error exactly when the last maxRetries + 1 replies were retryable errors |
| AgentRunBridge.VerdictMeans | src/common/agent/agent-run-bridge.service.ts:76-114 | the verdict by the reply that stops polling: completed with or without a run id, failed, fatal, too many retryable errors in a row, or else the timeout |
| AgentRunBridge.LastStatusIsTheLastTasks | src/common/agent/agent-run-bridge.service.ts:89-92 | the reported status is that of the last reply that was a task, or of the created task |
| AgentRunBridge.ErrorsAreWaitedOut | src/common/agent/agent-run-bridge.service.ts:70-90 | three retryable errors at an interval of 200 ms and a base of 100 ms take 1300 ms; three run reads 300 ms |
| AgentRunBridge.RunReadsStopAtTheFirstAnswer | src/common/agent/agent-run-bridge.service.ts:117-133 | at most maxRetries + 1 run reads; the first reply that is not retryable decides; a network error means there was none |
| AgentRunBridge.BackoffDoublesUpToTheCap | src/common/agent/agent-run-bridge.service.ts:144-147 | the delay starts at the base, doubles per attempt and is capped at ten seconds |
| LastAdmin.RunKeepsSafe | src/modules/admin-users/admin-users.service.ts:132-183 | every serial run of user and role operations keeps an active administrator |
| LastAdmin.AnAdminAlwaysRemainsIff | src/modules/admin-roles/admin-roles.service.ts:215-245 | no run ever locks everyone out exactly when no user is an administrator by an old role code alone |
| LastAdmin.UserOperationLeavesAnAdmin | src/modules/admin-users/admin-users.service.ts:151-183 | a user change leaves the user an active administrator, did not start from one, or leaves another |
| LastAdmin.RoleOperationKeepsAdminRoles | src/modules/admin-roles/admin-roles.service.ts:215-296 | no role operation touches the administrator role or makes another role one |
| LastAdmin.OperationMeans | src/modules/admin-users/admin-users.service.ts:250-466 | every operation on users and roles by what it leaves in the three tables, or by the first reason against it and its error |
| LastAdmin.ActiveAdminMeans | src/modules/admin-users/admin-users.service.ts:132-149 | an active administrator is a live active user with a live role of the present or the old administrator code |
| LastAdmin.KeptAdminsMeans | src/modules/auth/auth.service.ts:91-271 | after seeding every live user has one live role: the administrator's if it was one before or has the fixed name, else the user's |
| LastAdmin.AdminServices.Seed | src/modules/auth/auth.service.ts:91-271 | leaves both built-in roles live, no old code live, and every live user with exactly one built-in role; administrators are then those who had a live administrator role once the built-in ones are live again, the user named surper1, and the initial one of an empty installation |
| LastAdmin.SeededIsSafeIffAdmin | src/modules/auth/auth.service.ts:91-271 | in seeded roles the condition for keeping an administrator is just to have one |
| LastAdmin.AdminServices.Create | src/modules/admin-users/admin-users.service.ts:250-306 | creates the user with its one role, or refuses and changes nothing |
| LastAdmin.AdminServices.Update | src/modules/admin-users/admin-users.service.ts:308-385 | changes name, status and role, or refuses with the first failing check and changes nothing |
| LastAdmin.AdminServices.SetStatus | src/modules/admin-users/admin-users.service.ts:387-420 | likewise for the status |
| LastAdmin.AdminServices.SoftDelete | src/modules/admin-users/admin-users.service.ts:434-466 | likewise for deletion, never of the operator |
| LastAdmin.AdminServices.AddRole | src/modules/admin-roles/admin-roles.service.ts:168-213 | a new role never takes an existing or an old code |
| LastAdmin.AdminServices.ChangeRole | src/modules/admin-roles/admin-roles.service.ts:215-268 | a renamed role never takes another's code, and the administrator role is never renamed |
| LastAdmin.AdminServices.RemoveRole | src/modules/admin-roles/admin-roles.service.ts:270-296 | deletes only unassigned roles, never the administrator's |
| LastAdmin.GuardRefusesIff | src/modules/admin-users/admin-users.service.ts:151-183 | a change of an active administrator is refused exactly when nobody would remain; any other change takes no active administrator away, and is refused needlessly exactly for a disabled administrator who does not become active beside at most one active one |
| LastAdmin.NeedlessRefusalHappens | src/modules/admin-users/admin-users.service.ts:151-183 | beside one active administrator a disabled one can be neither deleted nor renamed |
| LastAdmin.AdminServices.EnsureNotLastAdmin | src/modules/admin-users/admin-users.service.ts:151-183 | refuses an active administrator who gives up exactly if there is no other, and a disabled one also beside a single active one |
| Rsi.ComputeRsi14At | src/common/utils/indicators.ts:59-100 | none for the first 14 bars or a missing close; otherwise the rounded index of the closes so far, within [0, 100], 100 if they never fell and 0 if they only fell |
| Rsi.IndexIsTheShareOfGains | src/common/utils/indicators.ts:94-99 | before rounding the index is the share of gains in all movement, within [0, 100] |
| Rsi.AverageIsAWeightedMean | src/common/utils/indicators.ts:74-92 | Wilder's recurrence is a weighted mean of all changes with weights that add up to one |
| Rsi.ScalingPricesKeepsTheIndex | src/common/utils/indicators.ts:74-99 | scaling all prices leaves the index unchanged |
| Rsi.MirroringComplementsTheIndexIff | src/common/utils/indicators.ts:94-99 | mirroring the prices gives 100 - index exactly when the averages are not both zero |
| Rsi.ExtremesTellTheDirection | src/common/utils/indicators.ts:94-99 | the index is 100 exactly when the price never fell, and 0 exactly when it never rose but fell |
| Rsi.OneFallAfterFourteenRises | src/common/utils/indicators.ts:74-99 | fourteen rises by one and a fall by fourteen give averages 13/14 and 1 and the index 1300/27 |
| AutoOrder.AutoOrderService.MaybeAutoPlaceOrder | src/common/worker/task-worker.service.ts:595-680 | places one order or none, within signal, caps and account; with a whole quantity cap exactly when all gates are open and the largest quantity within the caps is at least one and affordable |
| AutoOrder.WholeCapGivesTheLargest | src/common/worker/task-worker.service.ts:499-508 | with a whole quantity cap the quantity is the largest integer within the signal, the quantity cap and the notional cap |
| AutoOrder.OrdersAreWholeIffTheCapIs | src/common/worker/task-worker.service.ts:499-508 | that holds for every signal exactly when the configured cap is a whole number |
| AutoOrder.LimitsHold | src/common/worker/task-worker.service.ts:499-508 | the caps hold for every configuration |
| AutoOrder.BuyCostIsBounded | src/common/worker/task-worker.service.ts:532-537 | a buy never costs more than the notional cap plus its slippage and commission |
| AutoOrder.CapsMean | src/common/worker/task-worker.service.ts:499-508 | the caps by the configured numbers: at most max(1, maxQty) shares and max(1000, maxNotional) in value |
| AutoOrder.AffordableMeans | src/common/worker/task-worker.service.ts:517-581 | affordable: cash for price with slippage times quantity with commission, with defaults 2 bps and 0.03 %, or enough whole shares in the first position of the stock |
| AutoOrder.ResolveAutoOrderCandidate | src/common/worker/task-worker.service.ts:457-497 | a candidate exists exactly for a buy or sell with positive quantity and price |
| AutoOrder.AutoOrderService.RunAutoOrderPrecheck | src/common/worker/task-worker.service.ts:539-581 | passes exactly an affordable order, and otherwise says what is missing |
| AutoOrder.AutoOrderService.ResolvePrecheckAvailableQty | src/common/worker/task-worker.service.ts:517-530 | the first position of the stock decides |

## Left out

- HTTP controllers, validation, event streams, module wiring and startup.
- The Agent, broker and database clients: the Agent is an arbitrary function of replies, delays and errors.
- Passwords, cookies, encryption and hashes; request hashes are taken as injective keys.
- Heartbeats, log messages and message texts; progress percentages.
- Isolation anomalies of the database below one statement or transaction, and commits whose outcome is unknown to the client.
- Floating-point rounding: prices are reals, times and offsets are integers; environment values are taken as valid numbers.
- The `cancelled` task status, which nothing writes.
- InterpretationQueue: which candidate the read prefers is left open; any ready one may be picked.
- AnalysisTaskQueue: likewise; an uninterrupted sweep is one method, an interrupted one is a sequence of events.
- AnalysisTaskQueue.EveryTaskRowIsWellFormed: of copied rows only pending ones; the copy also writes rows in processing without a start time, and ended ones that may lack an end time, of which SweepCanRecoverIff says what becomes of them.
- ScheduleClaims: an edit is one step, though the service reads and writes the row in two.
- ScheduleSync: one worker, and schedule ids that are never reused.
- BacktestService: the Agent is assumed to restate the summary keys it is given, and its calls for batches do not fail; agreement is promised for Agents whose items carry the candidate's owner and code or leave them out.
- BacktestService.BacktestService.Run: the candidate query beyond its force filter, so any order and number of history rows is allowed; another run storing a result between the query and the save.
- MergedHistory: filters are applied before; equal times keep one order across page requests. Migrated failed tasks can lack an end time, so HistoryOfTheQueuePagesExactly and TaskListOfTheQueueIsExact speak of rows the queue wrote.
- MergedHistory.TaskListIsExactIff: the branches for only running or only terminal statuses, which are one ordered query each.
- Migration: the values copied column by column beyond id, key, stock code and status, and creation times filled in with the time of the copy; the tables beside history and tasks follow the same loop.
- LoginRateLimit: the clock is read once per recorded failure, and attempts for one key are serialized; concurrent attempts can all pass the check.
- TradingSession: the text of a window is not parsed, only its numbers; seconds of the current time only matter through its minute.
- AgentRunBridge: error texts; intervals and delays are whole milliseconds.
- AgentBacktestGroups: signal snapshots and interpretations of a group, and who may see it.
- LastAdmin: permissions, sessions, password and user name formats; a user name or role code held by a deleted row is refused as a conflict, where the database refuses it.
- Rsi: the other indicators; an index beyond the last bar.
- AutoOrder: which field of the run carries quantity and price, and the order's way through the trading account with its idempotency key.
