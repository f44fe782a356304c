# Pipelines, runs and deliveries: a verified model

The system validates a pipeline (jobs with `needs`, grouped in stages), plans it, and runs it through an asynchronous
loop of orchestrator, broker, worker and callback. This project models that core in Dafny and proves what the parts
promise each other. `dafny verify dfyconfig.toml` checks all of it.

| module | what it holds |
|---|---|
| `Strings` | trimming and blank names |
| `Models`, `Needs` | pipeline and plan records; what needs lists, cycles, ranks and closed sets mean, independently of any algorithm |
| `Verifier` | the checks on a parsed pipeline, with the depth-first cycle search as a class over its two maps |
| `Waves`, `Planner` | first-in-first-out lines, Kahn's algorithm and the plans built from it; agreement with the verifier |
| `Stage` | `stageState` with its incremental counters, and the simple definition they refine |
| `Scheduler` | one run as a state machine: start dispatch, finished callbacks, acknowledgements, failing writes and publishes |
| `SchedulerInvariant`, `SchedulerTheorems`, `SchedulerFaults` | what every state of every run satisfies |
| `Callbacks`, `Rows` | what each step publishes and writes, and the rows of jobs, stages and run as determined by the steps so far |
| `Progress`, `Handovers`, `Unearned` | exactly when a run can still succeed, and exactly which pipelines let it succeed over a disallowed failure |
| `Stranded` | exactly when a live run can be left with nothing in flight, and which pipelines have such runs |
| `Configurations`, `Unverified` | which pipelines can be run at all, verified or not, and what the verifier's verdict is worth to a run |
| `Orchestrator`, `Initialization` | the run controller as a class that updates its state in place, proved to follow the machine; how a run is set up |
| `PublisherPool` | reference-counted, generation-numbered publisher sets under every interleaving |
| `Publishing` | the two nested publish retry loops |
| `Delivery` | the worker's report loop, and broker and consumers with acknowledgement, redelivery and crashes |
| `EndToEnd`, `Realization` | the run machine and the delivery machine joined: every joint history is a run, and every run is part of a joint history |
| `RunStore` | run numbers and in-flight deduplication under concurrent transactions |
| `ValidationCache` | cache keys and cache-aside responses |

## How the parts fit

A pipeline that `Verifier.Verify` accepts is `WellFormed`; `Planner` shows that its plan is complete. The run theorems
need less: distinct names and a need-free job in every stage (`Configurations.RunnableIsValid`), because validation may
have answered for other content; `Unverified.DeclaredAllGoodIff` says what verification adds. The methods of
`RunController` compute exactly the transition functions of `Scheduler`, so the theorems over runs speak about them.
`inflight` in a run is what `Delivery` conserves. `EndToEnd` joins the two machines and proves that every joint history is
a scheduler run, and `Realization` that every scheduler run is part of a joint history. A rebuild of a publisher set comes
only from a caller that holds it (`Publishing.EnqueueBound`), as `PublisherPool` assumes.

What a step function does is said a second time without it: over runs where that is possible (`Rows.JobRowLaw`,
`Rows.RunRowLaw`, `PublisherPool.CurrentLaw`, `RunStore.NextCounts`), and for single steps by small lemmas next to the
function (as `Rows.SendSends`, `PublisherPool.ReleaseDecides`, `RunStore.CallsEnd`, `ValidationCache.ServeAnswers`).

In a run, `lost` are the jobs marked queued whose publish failed or was skipped after a failure, and `terminal` are the
jobs that a disallowed failure completed without releasing their dependents. While the runtime is live, both are
non-empty only after a fault.

## Findings

- A disallowed failure whose stage or run row cannot be written leaves its job counted as completed
  (internal/services/orchestrator/callbacks.go:63-73). The run can then end as success although that job failed
  (`Unearned.UnrecordedFailureEndsInSuccess`). Recording every such failure rules this out (`RecordedRunsAreExact`), and
  it can happen to a pipeline exactly when no name is blank and some job that may not fail is needed by no job and shares
  its stage (`Unearned.UnearnedSuccessIff`, for sets of jobs `SuccessWithoutIff`). Starting a later stage over such a job
  is settled in the same way (`Unearned.OvertakenIff`).
- Blank names pass the verifier, and every callback for them is refused
  (internal/services/orchestrator/callbacks.go:26-28), so such a run never ends as success
  (`Unverified.BlankJobNeverSucceeds`, exactly: `VerifiedCanSucceedIff`).
- A failed publish is not repeated: the retried callback finds its jobs marked queued
  (internal/services/orchestrator/service.go:217-219), is accepted, and the run stays live with nothing in flight
  (`Stranded.LostPublishStrandsRun`). Without blank names, a live run can still end as success if and only if nothing was
  lost and no job needs one that was cut off (`Progress.SuccessIsReachableIff`), otherwise it can be left with nothing in
  flight (`Stranded.StuckIsReachableIff`), and a pipeline has such runs exactly when it has more than one stage or a job
  with needs (`Stranded.StrandableIff`).
- A publisher set can be closed more than once, never while held. Two different interleavings do it
  (`PublisherPool.ClosedTwice`, `ClosedTwiceByClose`), because the lock section of a release
  (internal/services/orchestrator/publisher.go:82-84) does not look at `stale`; `HowOftenClosed` gives the exact number.
- The lookup after a duplicate key (internal/store/write.go:78) always misses when all reads since the first lookup see
  one snapshot (`RunStore.SnapshotReselectMisses`), and that lookup is reached (`DuplicateUnderSnapshot`). With a newer
  read it misses exactly when the run it collided with was finished in between (`RereadMissesIffFinished`, without
  restriction on updates `RereadMissesIff`).
- The orchestrator validates without path and commit, so all its requests share one cache entry
  (`ValidationCache.OrchestratorRequestsCollide`), and a pipeline that was never verified can be run. A stage counts as
  complete when its planned jobs are (internal/services/orchestrator/service.go:236-238), so such a run can end as success
  with a declared job never enqueued (`Unverified.UnverifiedCanSucceed`); exactly the verified pipelines exclude it
  (`Unverified.DeclaredAllGoodIff`).

## Assumptions

- Each finished callback is one atomic step, and so is the part of start dispatch before its first publish. The Go code
  locks the runtimes map only (internal/services/orchestrator/service.go:254-258), not the stage maps.
- One run is modelled at a time; `Initialization.RuntimesAreSeparate` shows that runs do not share a runtime.
- A store write that returns an error did not happen; a publish that returns an error was not delivered. Which calls
  fail is an input of every step.
- In the run machine, callbacks arrive only for jobs whose message was sent, any number of times, in any order, with any
  status; `EndToEnd.ReportsAreCallbacks` derives this for workers that report what they received.
- A Go `map[string]bool` is the set of the keys it maps to true (the completed and queued maps never store false);
  ranging over a map is an arbitrary choice.
- In the publisher manager each atomic operation and each lock section is one step.
- A delivery is acknowledged, rejected, lost with its channel or requeued by the broker at any time; a copy of a message
  has its own identity.
- The reads of a store transaction see some table that was committed while the transaction was open; the sequence row is
  locked from the bump to the end of the transaction; the unique indexes of migrations/004_add_pipeline_run_request_key.sql
  and migrations/001_report_store_schema.sql are enforced.
- Encoding and decoding of cached responses are inverse to each other. What parser, verifier and planner may answer for a
  content is a relation, since maps are ranged over in any order.

## Model

| member | source | states |
|---|---|---|
| `Verifier.CycleSearch.Dfs` | internal/common/verifier/validation_checks.go:180-206 | terminates on every needs map; a list returned as found is a simple cycle of the graph; otherwise everything reached has been explored, is ranked above all it needs, and the recursion stack is as before |
| `Verifier.CycleSearch.Enter` | internal/common/verifier/validation_checks.go:180-184 | opening a call keeps the path a chain of needs and marks the job visited and on the stack |
| `Verifier.CycleSearch.Leave` | internal/common/verifier/validation_checks.go:203-205 | once all its needs are ranked, a job can be ranked above them and taken off the stack |
| `Verifier.FirstIndex` | internal/common/verifier/validation_checks.go:191-198 | the first position of the repeated job on the path, so the reported list starts there |
| `Verifier.BuildGraph` | internal/common/verifier/validation_checks.go:168-173 | the adjacency list, where a repeated job name keeps its last needs |
| `Verifier.CheckNoCycles` | internal/common/verifier/validation_checks.go:166-223 | a reported list is a real simple cycle; something is reported if and only if no topological rank exists, for every order in which the map of roots is ranged over |
| `Verifier.CheckUniqueStageNames` | internal/common/verifier/validation_checks.go:22-37 | exactly the repeated positions are reported, each once and in order; silence if and only if all stage names are distinct |
| `Verifier.CheckUniqueJobNames` | internal/common/verifier/validation_checks.go:49-64 | exactly the repeated positions are reported, each once and in order; silence if and only if all job names are distinct |
| `Verifier.CheckJobStagesExist` | internal/common/verifier/validation_checks.go:67-86 | exactly the jobs with an undeclared stage are reported, each once and in order |
| `Verifier.CheckNoEmptyStages` | internal/common/verifier/validation_checks.go:89-108 | exactly the stages without a job are reported, each once and in order |
| `Verifier.CheckNeedsReferences` | internal/common/verifier/validation_checks.go:111-132 | a need that names no job is reported as often as its job lists it, no other pair is reported, and job positions never fall along the list |
| `Verifier.CheckNeedsStageConsistency` | internal/common/verifier/validation_checks.go:135-163 | the same for needs that cross a stage boundary, by the stage of the last job so named |
| `Verifier.NeedsChecksMeanInStage` | internal/common/verifier/validation_checks.go:111-163 | with distinct names the two checks on needs pass if and only if every need names a job of the same stage |
| `Verifier.AllNeedErrorsMeaning` | internal/common/verifier/validation_checks.go:120-160 | one list of the loop over jobs and needs: each bad pair as often as the job lists the need, nothing else, by job position |
| `Verifier.KeepMeaning` | internal/common/verifier/validation_checks.go:121-128 | the bad needs of a job are kept in their order and number |
| `Verifier.StageOfNameLastWins` | internal/common/verifier/validation_checks.go:138-142 | a repeated job name counts for the stage of its last declaration |
| `Verifier.CheckShape` | internal/common/verifier/verifier.go:51-69 | each due error about stages, job names and the assignment of jobs to stages is reported once, nothing else is, and the checks and positions come in order |
| `Verifier.CheckContent` | internal/common/verifier/verifier.go:51-81 | every error is reported exactly as often as it is due, with the checks in the order of the source and positions in order inside a check; a reported cycle is real, comes last, and there is one if and only if the graph has no rank; no error if and only if the pipeline is well formed |
| `Verifier.Verify` | internal/common/verifier/verifier.go:28-82 | no errors if and only if there is no YAML type or format error and the pipeline is well formed; a critical type error suppresses the other checks, and otherwise type errors, format errors and a list as CheckContent gives follow one another |
| `Planner.CollectDependents` | internal/common/planner/planner.go:41-45 | for every need, the jobs that list it, once per listing, in declaration order; missing keys included |
| `Planner.IndexJobs` | internal/common/planner/planner.go:66-79 | name to job and to number of needs, the last declaration of a repeated name winning |
| `Planner.InitialQueue` | internal/common/planner/planner.go:80-85 | the jobs without needs, each once, in any order |
| `Planner.ReleaseDependents` | internal/common/planner/planner.go:91-96 | counters fall by the multiplicity of each entry, and exactly the jobs that reach zero join the queue, once and at its end |
| `Planner.ScheduleJobsInStage` | internal/common/planner/planner.go:62-99 | for distinct names, and with cycles allowed: no job twice, every need before its dependent even when needs repeat, in waves (no job stands before one whose longest chain of needs is shorter), and exactly the least set of jobs closed under having all needs in it; for any list: terminates with distinct jobs of the stage |
| `Planner.KahnNextLine` | internal/common/planner/planner.go:87-97 | result and queue stay one line in waves when the front is taken and the jobs that waited for it join |
| `Waves.NextLine` | internal/common/planner/planner.go:87-97 | first in, first out: a line that each job joins when its last need is taken from the front never falls in level |
| `Planner.JobsForStage` | internal/common/planner/planner.go:101-113 | the jobs of the stage in declaration order |
| `Models.JobsForStagePositions` | internal/common/planner/planner.go:101-113 | they are the jobs at increasing positions of the pipeline, none missing |
| `Planner.BuildStagePlan` | internal/common/planner/planner.go:23-58 | the static graph: jobs in schedule order with name, image and script, needs, dependents with multiplicity and in-degrees that agree with the stage's jobs |
| `Planner.GenerateExecutionPlan` | internal/common/planner/planner.go:11-20 | one stage plan per declared stage, in declared order, each a schedule of the stage's jobs |
| `Planner.ScheduleIsTotal` | internal/common/planner/planner.go:62-99 | a schedule misses no job if and only if every job can be reached by finishing jobs whose needs are finished |
| `Planner.VerifierAndPlannerAgree` | internal/common/verifier/validation_checks.go:166-223 | with distinct names and needs inside the stage, the whole graph has a rank if and only if every stage is scheduled completely: depth-first search and Kahn's algorithm decide the same question |
| `Planner.SearchAndPlanAgree` | internal/common/planner/planner.go:11-20 | stated of the outputs: the cycle search finds nothing if and only if the generated plan has as many jobs in every stage as were declared |
| `Planner.StageOrderComplete` | internal/common/planner/planner.go:62-99 | the schedule of a stage of a verified pipeline contains exactly the jobs of the stage |
| `Planner.VerifiedIsFullyPlanned` | internal/common/planner/planner.go:115-129 | verified implies fully planned: stages in declared order, every job exactly once, under its own stage and with its own name, image and script, every need before its dependent |
| `Needs.PendingStep` | internal/services/orchestrator/service.go:222-226 | finishing one job discharges all its occurrences in a needs list at once |
| `Needs.DependentsCount` | internal/common/planner/planner.go:41-45 | with distinct names a job is listed among the dependents of a need as often as it lists the need |
| `Needs.DependentsInOrder` | internal/common/planner/planner.go:41-45 | dependents are listed in the order of their positions in the pipeline |
| `Needs.NeedsGraphLastWins` | internal/common/verifier/validation_checks.go:168-173 | the graph has the needs of the last declaration of each name |
| `Needs.OrderedInsideClosed` | internal/common/planner/planner.go:62-99 | a needs-first order lies inside every closed set, so Kahn's output is the least one |
| `Needs.CycleExcludesRank` | internal/common/verifier/validation_checks.go:186-200 | a reported cycle refutes every topological rank |
| `Needs.RankOrStuck` | internal/common/verifier/validation_checks.go:166-223 | ranks can be extended until every job left waits for another job left |
| `Stage.StageState.constructor` | internal/services/orchestrator/service.go:180-193 | counters start at the in-degrees, nothing queued or completed |
| `Stage.StageState.GetReadyJobs` | internal/services/orchestrator/service.go:204-213 | marks and returns the ready jobs, as specified by ScanReady |
| `Stage.StageState.MarkJobTerminal` | internal/services/orchestrator/service.go:199-201 | the job is completed, and nothing else changes |
| `Stage.StageState.MarkJobSucceeded` | internal/services/orchestrator/service.go:216-234 | the count-down over dependents, as specified by MarkSucceeded; the returned entries are the planned ones |
| `Stage.StageState.StageComplete` | internal/services/orchestrator/service.go:236-238 | on a valid plan, whatever has been released, the count is right exactly when every planned job is completed |
| `Stage.ScanReadyMeaning` | internal/services/orchestrator/service.go:204-213 | a scan returns exactly the ready jobs of the plan, each once, and marks exactly those |
| `Stage.ScanReadyOrder` | internal/services/orchestrator/service.go:204-213 | in the order of the plan |
| `Stage.StartStage` | internal/services/orchestrator/service.go:204-213 | the first scan of a stage returns exactly the need-free jobs, and there is one |
| `Stage.RescanIsIdle` | internal/services/orchestrator/service.go:204-213 | scanning a started stage again changes nothing and returns nothing |
| `Stage.ReleaseMeaning` | internal/services/orchestrator/service.go:222-232 | the count-down loop lowers each counter by its multiplicity and queues each job that reaches zero once |
| `Stage.ReleaseCounts` | internal/services/orchestrator/service.go:222-226 | for any state with counters that are not negative: every counter falls by the number of its entries, but not below zero |
| `Stage.ReleaseExact` | internal/services/orchestrator/service.go:227-231 | exactly the entries that end at zero and were neither queued nor completed are released, once, in the order in which they are listed |
| `Stage.SuccessRefines` | internal/services/orchestrator/service.go:216-234 | the incremental counters refine the simple definition: remainingNeeds is the number of uncompleted needs with multiplicity, queued is exactly the jobs whose needs are all completed, and the call returns exactly the newly enabled jobs |
| `Stage.CompleteMeansAll` | internal/services/orchestrator/service.go:236-238 | the size comparison holds if and only if every planned job of the stage is completed |
| `Stage.StageProgress` | internal/services/orchestrator/service.go:204-238 | an incomplete stage in which no job needs one that was completed without being released has a queued, uncompleted job |
| `Stage.FreshCompletionShrinks` | internal/services/orchestrator/service.go:216-234 | each fresh completion leaves strictly fewer jobs to complete; a repeated one changes nothing |
| `Stage.PlannedStageIsValid` | internal/common/planner/planner.go:23-58 | the planner's graph of a stage with distinct names, some of them scheduled, satisfies everything the stage state relies on; jobs left out wait for other jobs left out |
| `Stage.EntriesAreNamed` | internal/services/orchestrator/service.go:228-231 | a planned job is published under its own name |
| `Orchestrator.RunController.constructor` | internal/services/orchestrator/service.go:353-362 | a run starts in the initial state of the machine |
| `Orchestrator.RunController.EnqueueReadyJobs` | internal/services/orchestrator/dispatch.go:77-85 | publishes in order and stops at the first failure; what is left is marked queued and never sent |
| `Orchestrator.RunController.NextStageName` | internal/services/orchestrator/service.go:291-298 | the stage after the current one, if there is one |
| `Orchestrator.RunController.FailPipeline` | internal/services/orchestrator/callbacks.go:63-73 | a disallowed failure completes the job without releasing its dependents, then closes stage and run row as far as the writes succeed |
| `Orchestrator.RunController.FinishJob` | internal/services/orchestrator/callbacks.go:57-86 | a success or an allowed failure releases dependents and advances a completed stage |
| `Orchestrator.RunController.AdvanceStage` | internal/services/orchestrator/callbacks.go:83-116 | closes the stage, then ends the run or starts the next stage |
| `Orchestrator.RunController.StartNextStage` | internal/services/orchestrator/callbacks.go:100-116 | takes and publishes the ready jobs of the next stage |
| `Orchestrator.RunController.HandleJobFinished` | internal/services/orchestrator/callbacks.go:25-116 | the whole new state and the verdict are those of the transition function, for every pattern of failing writes and publishes; what that function does is stated by the laws in Rows: JobRowLaw, RunRowLaw, StageRowLaw, FailureIsWritten, CompletionIsWritten, ReportsLaw |
| `Orchestrator.RunController.StartDispatch` | internal/services/orchestrator/dispatch.go:89-120 | scans the stages in order and takes the ready jobs of the first stage that has any |
| `Orchestrator.RunController.SendNextJob` | internal/services/orchestrator/dispatch.go:110-116 | one publish of start dispatch; a failure drops the rest and gives the run up, as Rows.SendSends and Rows.FailedSendIsWritten say |
| `Orchestrator.RunController.GiveUpDispatch` | internal/services/orchestrator/dispatch.go:131-135 | the run row becomes failed if it can be written (Rows.FailedDispatchIsWritten); the runtime goes in any case |
| `Callbacks.EnqueueAllExact` | internal/services/orchestrator/dispatch.go:77-85 | with enough publishes succeeding, every job is enqueued once, in order, and sent |
| `Callbacks.EnqueueSomeExact` | internal/services/orchestrator/dispatch.go:77-85 | otherwise those before the first failure are sent, the failed one is enqueued last, and it and all after it are lost |
| `Callbacks.ReadyIsReleased` | internal/services/orchestrator/service.go:216-234 | what a completion publishes are the unqueued jobs whose needs are all released afterwards; none if it completes the stage |
| `Callbacks.ScannedIsFree` | internal/services/orchestrator/callbacks.go:100-108 | what a handed-over stage begins with are its need-free jobs, and nothing if it was complete already |
| `Callbacks.AdvanceLaw` | internal/services/orchestrator/callbacks.go:83-116 | a completed stage gets the row success, the last one closes the run as success, any other publishes the next stage, whose row is closed too if it is complete already; verdict and messages are determined by which calls fail |
| `Callbacks.ScanStops` | internal/services/orchestrator/dispatch.go:89-120 | for any pipeline state: the scan of start dispatch passes exactly the stages with nothing ready, closing the rows of the empty ones as success, and stops at the first ready stage or the first row it cannot write |
| `Rows.FailureIsWritten` | internal/services/orchestrator/callbacks.go:63-73 | a disallowed failure closes stage and run row as failed, is accepted exactly if both were written, and publishes nothing |
| `Rows.CompletionIsWritten` | internal/services/orchestrator/callbacks.go:57-116 | a success or an allowed failure: the verdict, all three kinds of rows, the end of the run and the messages sent, for every pattern of failing calls |
| `Rows.JobRowStep` | internal/services/orchestrator/callbacks.go:36-43 | only a callback that is let in writes a job row: its own, success for a success and failed for a failure |
| `Rows.JobRowLaw` | internal/services/orchestrator/callbacks.go:36-43 | in every state of every run: a planned job's row is queued if and only if no callback has written it, and otherwise success exactly when the last one that did reported success, failed exactly when it reported failure |
| `Rows.StageRowLaw` | internal/services/orchestrator/callbacks.go:63-98 | in every state of every run: a stage row says success only of a complete stage, and failed only after a disallowed failure of one of its jobs |
| `Rows.HandedOverRowsAreClosed` | internal/services/orchestrator/callbacks.go:63-98 | in runs with recorded failures: a success has closed every stage row as success, a live run has closed those of the stages handed over and none as failed |
| `Rows.RunRowLaw` | internal/services/orchestrator/dispatch.go:131-135 | in every state of every run: the run row is failed if and only if a publish of start dispatch failed or a disallowed failure was recorded while the run was live and the row could be written; it is success if and only if the last stage was completed with both rows written; and the run is over with its row still queued if and only if a publish of start dispatch failed while it was live and the row could not be written |
| `Rows.FailedDispatchIsWritten` | internal/services/orchestrator/dispatch.go:131-135 | over runs: start dispatch that has failed after a step whose run write succeeds leaves the run row failed |
| `Rows.StartTouchesNoRow` | internal/services/orchestrator/dispatch.go:89-120 | with a plan for every stage, taking the first ready jobs writes no row |
| `Rows.ReportsLaw` | internal/services/orchestrator/callbacks.go:44-62 | in every state of every run: the log has the callbacks that a live runtime handled, in the order in which they came, and the completed jobs are exactly those of them |
| `SchedulerInvariant.InitHolds` | internal/services/orchestrator/service.go:301-371 | the invariant holds of a new run |
| `SchedulerInvariant.EnqueueKeeps` | internal/services/orchestrator/dispatch.go:77-85 | publishing ready jobs keeps the invariant, wherever it stops |
| `SchedulerInvariant.CallbackKeeps` | internal/services/orchestrator/callbacks.go:25-116 | a finished callback keeps the invariant: any status, any duplicate, any failing writes and publishes |
| `SchedulerInvariant.StepKeeps` | internal/services/orchestrator/callbacks.go:25-116 | every step of the machine keeps the invariant |
| `SchedulerTheorems.InvariantThroughout` | internal/services/orchestrator/callbacks.go:25-116 | the invariant holds in every state of every run |
| `SchedulerTheorems.EnqueuedAtMostOnce` | internal/services/orchestrator/callbacks.go:57-108 | each (stage, job) is passed to enqueueJob at most once per run, however callbacks are duplicated, reordered or retried |
| `SchedulerTheorems.EnqueuedInOrder` | internal/services/orchestrator/callbacks.go:57-108 | when a job is enqueued, all its needs have reported success or an allowed failure, and so has every job of every earlier stage, except those cut off by a failure that could not be recorded |
| `SchedulerTheorems.NoStuckRun` | internal/services/orchestrator/callbacks.go:44-108 | in every reachable state with a live runtime, start dispatch is pending or a job message is in flight, unless a publish was lost or a job needs one that was cut off |
| `SchedulerTheorems.OutstandingReport` | internal/services/orchestrator/callbacks.go:44-108 | in such a state some sent job has no accepted report yet |
| `SchedulerTheorems.DispatchStartsFirstStage` | internal/services/orchestrator/dispatch.go:89-120 | dispatch begins with exactly the need-free jobs of the first stage, each once |
| `SchedulerTheorems.FinalStatusIsEarned` | internal/services/orchestrator/callbacks.go:44-98 | success only if every job reported success or an allowed failure (or was cut off); failed only after a disallowed failure or a failed start dispatch |
| `SchedulerTheorems.FinalStatusIsStable` | internal/services/orchestrator/callbacks.go:44-98 | no later step changes a terminal run status |
| `SchedulerFaults.RecordedRunsAreExact` | internal/services/orchestrator/callbacks.go:63-73 | if every disallowed failure that is handled is also recorded, the exceptions of the theorems on order, status and progress disappear; which pipelines have such exceptions at all is settled by Unearned.UnearnedSuccessIff and Unearned.OvertakenIff |
| `Progress.RunReaches` | internal/services/orchestrator/callbacks.go:44-108 | from every live state in which nothing was lost and no job needs a cut-off one, finitely many reports for jobs of the stages up to a given one, whose names are not blank, hand that stage over, with no good report of any job in a set of spare ones |
| `Progress.RunCanFinishWithout` | internal/services/orchestrator/callbacks.go:44-108 | without blank names, the run can be ended as success in this way |
| `Progress.RunCanFinish` | internal/services/orchestrator/callbacks.go:44-108 | without blank names, finitely many successful reports end such a run as success |
| `Progress.LiveRunCanFinish` | internal/services/orchestrator/callbacks.go:44-108 | the same for every reachable state of every run |
| `Progress.SuccessNeedsCompletable` | internal/services/orchestrator/service.go:216-234 | a lost job, one that needs a cut-off job, or a blank name keeps every later state from being a success |
| `Progress.SuccessIsReachableIff` | internal/services/orchestrator/callbacks.go:25-108 | exact condition: a live run can still end as success if and only if no publish was lost, no job needs one that was cut off by an unrecorded failure, and no name is blank |
| `Progress.BlankNameNeverSucceeds` | internal/services/orchestrator/callbacks.go:26-28 | with a blank pipeline name, or a blank name of a planned job or its stage, no run ever ends as success |
| `Strings.BlankMeaning` | internal/services/orchestrator/callbacks.go:26-28 | a name is blank exactly when it consists of white space |
| `Strings.TrimSpaceMeaning` | internal/cache/keys.go:22-34 | trimming gives the part from the first to the last character that is not white space |
| `Stranded.CompletableIsNotStranded` | internal/services/orchestrator/callbacks.go:44-108 | successful reports and acknowledgements never leave a completable run with nothing in flight |
| `Stranded.StuckIsReachableIff` | internal/services/orchestrator/service.go:217-219 | exact condition, without blank names: from a live state with start dispatch over, successful reports whose callbacks return no error, and acknowledgements, can leave nothing in flight if and only if the run cannot be completed |
| `Stranded.LosesLaterThroughout` | internal/services/orchestrator/dispatch.go:131-135 | what a live run has lost was to be published by a callback, not by start dispatch |
| `Stranded.StrandableIff` | internal/services/orchestrator/service.go:217-219 | exact condition, without blank names: some run of the pipeline gets stuck if and only if it has more than one stage or a job with needs |
| `Stranded.LostPublishStrandsRun` | internal/services/orchestrator/service.go:217-219 | witness: one job needs the other, and its publish fails |
| `Handovers.StepHanded` | internal/services/orchestrator/callbacks.go:83-108 | every step keeps this: the next stage is started, and the run ends as success, only after a good report of some job of the stage handed over; cut-off jobs are never allowed failures |
| `Handovers.HandedThroughout` | internal/services/orchestrator/callbacks.go:83-108 | the same in every state of every run |
| `Unearned.SuccessWithoutIff` | internal/services/orchestrator/callbacks.go:57-98 | exact condition, for every set of jobs: some run ends as success with none of them good if and only if none of them is allowed to fail or needed by another job, every stage has a job outside the set, and no name is blank |
| `Unearned.UnearnedSuccessIff` | internal/services/orchestrator/callbacks.go:63-73 | exact condition: some run of the pipeline ends as success over a disallowed failure if and only if no name is blank and some job that may not fail is needed by none and is not alone in its stage |
| `Unearned.OvertakenIff` | internal/services/orchestrator/callbacks.go:83-108 | exact condition: some run enqueues a job of a later stage while an earlier one was neither good nor allowed to fail if and only if there is such a job outside the last stage, and no name in the stages up to its own is blank |
| `Unearned.UnrecordedFailureEndsInSuccess` | internal/services/orchestrator/callbacks.go:63-73 | witness: two independent jobs that may not fail, one of them cut off |
| `Unverified.OnlyPlannedJobsRun` | internal/common/planner/planner.go:62-99 | a declared job that is not planned is never enqueued and never reported |
| `Unverified.DeclaredAllGoodIff` | internal/common/verifier/verifier.go:28-82 | exact condition: a successful run with recorded failures has every declared job good if and only if the pipeline is one the verifier accepts |
| `Unverified.UnverifiedCanSucceed` | internal/services/orchestrator/service.go:236-238 | every other runnable pipeline without blank names has a run that ends as success with a declared job never enqueued |
| `Unverified.AddressableIffNamed` | internal/services/orchestrator/callbacks.go:26-28 | for a verified pipeline, callbacks are admitted exactly when neither the pipeline nor any declared stage or job has a blank name |
| `Unverified.VerifiedCanSucceedIff` | internal/services/orchestrator/callbacks.go:26-28 | exact condition: a verified pipeline has a run that ends as success if and only if no name is blank |
| `Unverified.BlankJobNeverSucceeds` | internal/services/orchestrator/callbacks.go:26-28 | witness: a pipeline whose only job is named with a space is verified, and none of its runs ever ends as success |
| `Configurations.BuildJobConfigs` | internal/services/orchestrator/service.go:424-438 | one entry per (stage, name), carrying the settings of the last such job |
| `Configurations.AllowedAsDeclared` | internal/services/orchestrator/service.go:424-438 | with distinct names the entries that allow failures are the jobs declared so |
| `Configurations.RunnableIsValid` | internal/services/orchestrator/service.go:301-371 | the run theorems apply to every pipeline with distinct names and a need-free job in every stage, verified or not |
| `Configurations.VerifiedIsRunnable` | internal/common/verifier/verifier.go:28-82 | every verified pipeline is such a pipeline |
| `Configurations.AllPlannedIffVerified` | internal/common/planner/planner.go:23-58 | of these pipelines, the verifier accepts exactly those of which every declared job is planned |
| `Initialization.StartJobs` | internal/services/orchestrator/service.go:336-346 | succeeds exactly when the row of every planned job of the stage can be created, and tries them in plan order up to the first that fails |
| `Initialization.PlannedRows` | internal/services/orchestrator/service.go:322-348 | the rows written along the plan of a verified pipeline are the rows of exactly the declared jobs |
| `Initialization.VerifiedRows` | internal/services/orchestrator/service.go:322-348 | for a verified pipeline, the rows along the plan can be created exactly when the rows of all declared stages and jobs can |
| `Initialization.StartStages` | internal/services/orchestrator/service.go:322-348 | succeeds exactly when no stage is declared twice and every stage and job row along the plan can be created, with a fresh record for each stage; otherwise says where it failed; the writes are those of the plan in order, up to the one that failed |
| `Initialization.InitializePipelineRuntime` | internal/services/orchestrator/service.go:301-371 | for every pipeline: a request in flight is answered with the existing run and nothing is written; a new run is registered, in the initial state and configured from the pipeline, exactly when no stage is declared twice and every row can be created, and is abandoned otherwise, closing as failed the stage row if a job row failed and then the run row; without stages it ends as success at once if the run row can be written; the writes tried are listed in order, with each job's allow_failure |
| `Initialization.DecimalInjective` | internal/services/orchestrator/service.go:241-243 | decimal run numbers are distinct |
| `Initialization.DecimalIsRight` | internal/services/orchestrator/service.go:241-243 | the digits read back are the number, without leading zero |
| `Initialization.RuntimesAreSeparate` | internal/services/orchestrator/service.go:241-243 | two runs never share a runtime key, whatever characters the pipeline name contains |
| `PublisherPool.StepKeeps` | internal/services/orchestrator/publisher.go:72-148 | every atomic step and lock section keeps the invariant |
| `PublisherPool.InvariantThroughout` | internal/services/orchestrator/publisher.go:72-148 | the invariant holds in every state of every interleaving |
| `PublisherPool.NeverClosedWhileHeld` | internal/services/orchestrator/publisher.go:72-87 | a set is never closed while a caller that acquired it has not released it |
| `PublisherPool.NothingLeaks` | internal/services/orchestrator/publisher.go:77-148 | with no release or Close midway, stale is exactly the retired sets still referenced, and every other retired set has been closed |
| `PublisherPool.LateDeleteIsHarmless` | internal/services/orchestrator/publisher.go:82-85 | generations are unique, so a late delete removes its own set or nothing |
| `PublisherPool.CurrentLaw` | internal/services/orchestrator/publisher.go:105-122 | in every interleaving: there is a current set if and only if Close has not been called, it is the newest, and there are as many sets as rebuilds that dialled for a holder of the current set, plus the first |
| `PublisherPool.IdleRebuild` | internal/services/orchestrator/publisher.go:108-115 | a rebuild whose dial fails, or by a holder of a set that is no longer current, changes nothing |
| `PublisherPool.ShutdownDrains` | internal/services/orchestrator/publisher.go:132-148 | Close retires the current set, leaves the referenced sets in stale and takes out exactly the others to close |
| `PublisherPool.TotalIsFixed` | internal/services/orchestrator/publisher.go:77-148 | once a retired, unreferenced set has left stale, the closes done and the closes still to come add up to the same number in every later state |
| `PublisherPool.HowOftenClosed` | internal/services/orchestrator/publisher.go:77-148 | exact count: once nobody is midway with a set, it has been closed once for leaving stale and once more for each release that had seen zero by then and not looked again; so exactly once if and only if there was no such release |
| `PublisherPool.ClosedHasLeft` | internal/services/orchestrator/publisher.go:82-84 | every set that has been closed left stale in some step, so the count applies to it |
| `PublisherPool.ClosedTwice` | internal/services/orchestrator/publisher.go:77-86 | witness: the second release had seen zero before the set was retired |
| `PublisherPool.ClosedTwiceByClose` | internal/services/orchestrator/publisher.go:124-148 | witness: the release had seen zero after the set was retired, and Close took the set out before it got the lock |
| `Publishing.Publish` | internal/mq/rabbitmq_cli.go:208-245 | the retry loop refines PublishFrom |
| `Publishing.PublishBound` | internal/mq/rabbitmq_cli.go:213-244 | one to three publishOnce calls, at most two when giving up on a closed connection; nil if and only if the last call was confirmed, and no earlier one was |
| `Publishing.PublishStops` | internal/mq/rabbitmq_cli.go:213-244 | exactly how many calls: each one that was not confirmed, not the third, whose reconnect did not say closed and whose pause was not cut short is followed by another, and no other is; the last one decides the result |
| `Publishing.EnqueueRound` | internal/services/orchestrator/dispatch.go:44-71 | one round of the outer loop, with its acquire, rebuild and release |
| `Publishing.EnqueueJob` | internal/services/orchestrator/dispatch.go:33-74 | the outer retry loop, with its acquire, rebuild and release actions, refines EnqueueFrom |
| `Publishing.EnqueueBound` | internal/services/orchestrator/dispatch.go:43-73 | at most seven publishOnce calls; nil if and only if the last one was confirmed; nothing is published after a confirmation; every acquired set is released exactly once, after at most one rebuild by its holder |
| `Publishing.EnqueueStops` | internal/services/orchestrator/dispatch.go:43-73 | exactly how many rounds: each one before the third that ends with a closed connection and a successful rebuild is followed by another if a set can be acquired, and no other is; the actions are those of the rounds in order, and the last round decides the result |
| `Publishing.SevenIsReached` | internal/services/orchestrator/dispatch.go:43-73 | the bound is tight |
| `Delivery.ReportUntilSuccess` | internal/services/worker/service.go:170-202 | stops at the first accepted callback, or when the context ends after none was accepted; the pauses are those of the doubling rule |
| `Delivery.DelaysGrowToCap` | internal/services/worker/service.go:170-202 | the pauses are positive, never shrink and never exceed the cap or the start value |
| `Delivery.DelayIs` | internal/services/worker/service.go:195-200 | closed form: the start value doubled as often as calls failed, cut off at thirty seconds; a larger start value is kept, and one that is not positive counts as one second |
| `Delivery.HandleJobMessage` | internal/services/worker/service.go:110-168 | nil if and only if the start callback and Docker worked and some finished callback was accepted; every finished callback carries the status of the execution; calls stop at the first accepted one and otherwise go on until the context ends |
| `Delivery.HandlerReturns` | internal/services/worker/service.go:110-168 | a consumer of the delivery machine that runs the handler comes back as the method says, acknowledging exactly if a report was accepted |
| `Delivery.ConservedStep` | internal/mq/rabbitmq_cli.go:121-183 | every published copy is in exactly one place: the queue, one unacknowledged delivery, or gone |
| `Delivery.NackRequeues` | internal/mq/rabbitmq_cli.go:153-160 | a nack on a live tag puts the copy back in the queue; a lost one, or one on a dead tag, leaves the broker as it was |
| `Delivery.InvariantThroughout` | internal/mq/rabbitmq_cli.go:121-183 | conservation, tag discipline and honest reports hold in every state of every run |
| `Delivery.LeavesOnlyAfterAcceptedReport` | internal/mq/rabbitmq_cli.go:153-174 | a copy leaves the broker only after a finished callback with the status of its execution was accepted |
| `Delivery.GoneForGood` | internal/mq/rabbitmq_cli.go:166-174 | an acknowledged copy never comes back |
| `Delivery.OnlyReportedJobLeaves` | internal/mq/rabbitmq_cli.go:166-174 | in one step, a job stops being in flight only by the acknowledgement of a copy whose report had been accepted |
| `Delivery.OnlyReportedJobsLeave` | internal/mq/rabbitmq_cli.go:166-174 | the same in every run, which is what the run machine's Ack step assumes |
| `EndToEnd.TransportAcks` | internal/mq/rabbitmq_cli.go:121-183 | whatever broker and consumers do leaves the run as it is, or is the acknowledgement of the last copy of a job whose report was accepted |
| `EndToEnd.SoundThroughout` | internal/mq/rabbitmq_cli.go:121-183 | in every history of orchestrator, broker and workers together: the invariants of both sides, and their agreement on what was sent, is in flight and was accepted |
| `EndToEnd.IsSchedulerRun` | internal/services/orchestrator/callbacks.go:25-116 | the orchestrator's part of every such history is a run of the scheduler, so all run theorems hold of it |
| `EndToEnd.ReportsAreCallbacks` | internal/services/worker/service.go:132-167 | a worker only ever reports jobs whose message was sent |
| `EndToEnd.NoStuckHistory` | internal/services/orchestrator/callbacks.go:44-108 | no stuck run, in terms of the broker: a live, completable run with start dispatch over has a copy in the queue or unacknowledged of a job without an accepted report |
| `Realization.CallbackSendsNew` | internal/services/orchestrator/callbacks.go:57-108 | a callback never sends a message that was sent before |
| `Realization.DispatchSendsNew` | internal/services/orchestrator/dispatch.go:89-120 | neither does start dispatch |
| `Realization.EveryRunHappens` | internal/mq/rabbitmq_cli.go:121-183 | without blank names, every run of the scheduler, whatever its faults, is the orchestrator's part of some history of orchestrator, broker and workers |
| `Realization.HistoriesAreRuns` | internal/mq/rabbitmq_cli.go:121-183 | so the states the orchestrator goes through in such histories are exactly the states of scheduler runs, and the exact conditions hold of the whole system |
| `RunStore.InvariantThroughout` | internal/store/write.go:44-130 | the invariant holds over every interleaving of create transactions and updates |
| `RunStore.AllocationIsSound` | internal/store/write.go:91-130 | next_run_no exceeds every stored number of its pipeline, numbers are committed in strictly increasing order, and at most one row per pipeline and request key is active; which numbers they are is RunStore.NextCounts and NewRunIsNext |
| `RunStore.NextCounts` | internal/store/write.go:78-108 | over every run: the next number of a pipeline is one plus the number of commits of new runs and of deduplicated calls after a duplicate key so far |
| `RunStore.NewRunIsNext` | internal/store/write.go:78-130 | so a new run gets one plus that number, with the status and key of its request, in a row that was not there, and nothing else is created |
| `RunStore.ViewWasCommitted` | internal/store/write.go:44-90 | what a transaction reads is a table that was committed while it was open |
| `RunStore.ReturnsNewOrActive` | internal/store/write.go:44-90 | a return without error names a row just created for the request, or the oldest one active for it when read |
| `RunStore.SnapshotReselectMisses` | internal/store/write.go:75-85 | if the reads from the first lookup on see one snapshot, the lookup after a duplicate key always finds nothing |
| `RunStore.DuplicateUnderSnapshot` | internal/store/write.go:72-85 | witness: two requests with one key reach that lookup without any newer read |
| `RunStore.ConflictIsActiveRow` | internal/store/write.go:72-74 | a duplicate key at the insert is always the one active row of the request, never a clash of run numbers |
| `RunStore.RowsWhileWaiting` | internal/store/write.go:72-90 | from the conflict until the call ends, the rows of the pipeline are those of the moment of the conflict, up to their last status update |
| `RunStore.RereadMissesIff` | internal/store/write.go:75-85 | exact condition: a lookup in a table committed since the conflict misses if and only if that row was last made inactive and no other row of the request was last made active |
| `RunStore.RereadMissesIffFinished` | internal/store/write.go:75-85 | where updates only finish runs, it misses if and only if the run it collided with was finished in between |
| `ValidationCache.KindsNeverCollide` | internal/cache/keys.go:13-34 | validate and dry-run entries never share a key |
| `ValidationCache.KeyDeterminesSource` | internal/cache/keys.go:22-34 | with colon-free commits a key determines the trimmed path and commit |
| `ValidationCache.KeyText` | internal/cache/keys.go:13-34 | the keys literally: the prefix if there is one, kind and version, commit and path, each trimmed, separated by colons |
| `ValidationCache.KeyIgnoresSpace` | internal/cache/keys.go:22-34 | white space around prefix, path and commit does not matter |
| `ValidationCache.ValidationService.ValidateYAML` | internal/services/validation/service.go:58-91 | a decodable hit is returned as it is; otherwise the computed response is returned and stored |
| `ValidationCache.ValidationService.DryRunYAML` | internal/services/validation/service.go:94-144 | the same, but only valid responses are stored |
| `ValidationCache.CacheThroughout` | internal/services/validation/service.go:58-144 | every entry, at every time, was computed for some request with its key |
| `ValidationCache.DryRunEntriesAreValid` | internal/services/validation/service.go:111-144 | in every run, every entry under a dry-run key is a valid response |
| `ValidationCache.TransparentIffKeysDetermine` | internal/services/validation/service.go:58-144 | over every request sequence with arbitrary expiry, each response is one a fresh computation could give, if and only if requests with equal keys have interchangeable answers |
| `ValidationCache.StaleAnswer` | internal/services/validation/service.go:58-91 | two requests with one key and different answers: the second can get the answer of the first |
| `ValidationCache.KnownSourcesAreTransparent` | internal/services/validation/service.go:58-144 | if trimmed path and commit determine the content and commits have no colon, the cache is transparent |
| `ValidationCache.OrchestratorRequestsCollide` | internal/services/orchestrator/validation.go:55-57 | requests without path and commit, as the orchestrator sends them, make the cache opaque as soon as two contents differ in their answers |

## Left out

- HTTP handlers, gateway, command line and `main` packages: no invariant of their own.
- Docker execution, workspace cloning and git access: an execution is an arbitrary success or failure.
- YAML decoding, type and format checks, error texts and line and column positions: their outcome is an input of `Verifier.Verify`.
- Pipeline path resolution: file-system library behaviour.
- The hashed request key: request keys are opaque strings.
- The other fields of a job message (repository, commit, workspace path): copied from the request.
- Time stamps, tracing, metrics, logging, timeouts, and the start times kept for metrics.
- Reporting service and store reads: straight mapping of rows.
- `CreateRun` without deduplication: the deduplicating call with an empty request key takes the same path.
- The job-started row update, and the round robin over the publishers of a set: they influence nothing modelled here.
- The classification of broker errors and the opening of channels: their outcome is an input of the retry loops.
- Helm charts, compose files, scripts, dashboards and load tests.
- Runs of pipelines with repeated job names, or with a stage in which every job has needs: their set-up is modelled, and nothing is claimed of how they go on.
- A callback with an unknown status or without a run number: it is refused, and no worker sends one.
- Orchestrator.RunController.HandleJobFinished: does not model two callbacks of one run interleaving inside the stage maps, which the Go code does not lock.
