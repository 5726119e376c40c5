# Verification model of the collaborative plan engine

This project models, in Dafny 4.11, the parts of the repository whose correctness depends on many functions at
once, and proves what they keep over all runs. Nothing here runs the original program.

| file | models |
|---|---|
| `ApprovalDesk.dfy` | write proposals, the user's decisions, and the gate every tool call passes |
| `PlanModel.dfy` | the plan, its steps and every transaction on them, as functions on the stored state |
| `PlanSafety.dfy`, `PlanRuns.dfy` | the invariant of a plan, and that every transaction keeps it |
| `PlanTheorems.dfy` | what holds in every reachable state and over every run |
| `PlanOutcomes.dfy` | what each transaction does to every row, told in the statuses the rows hold |
| `PlanSchedule.dfy` | the reference evaluator, and that scheduling and numbering cannot change the outcome |
| `PlanProgress.dfy` | when a pass makes progress |
| `PlanLimits.dfy`, `PlanExamples.dfy` | where the engine promises less than one might expect, exactly when, and short runs that show it |
| `PlanEngine.dfy` | the service functions in place, as a class over the rows of one plan, and the driving loop |
| `PlanGraph.dfy`, `PlanValidation.dfy` | validation of proposals: scope flow, size, graph and tools; dependency rows |
| `PlanFallback.dfy` | tool defaults, the fallback proposal, and when it passes |
| `PlanAdmission.dfy` | the way from a proposal to a driven plan |
| `ClientPlans.dfy`, `ClientJobs.dfy` | the browser's version-filtered stores |
| `MessagePages.dfy` | keyset pagination of a conversation |
| `RefreshFamilies.dfy`, `LoginLimiter.dfy` | refresh-token families and the login limiter |
| `Recurrence.dfy` | the RRULE subset of habits |
| `WorkRunner.dfy` | the bounded parallel runner and the shards of an analysis |
| `ToolRegistry.dfy` | the registry's two indexes and public tool names |
| `AnalysisScope.dfy` | the bookkeeping of follow-up analyses |
| `Results.dfy`, `Texts.dfy` | optional values, outcomes, and text helpers |

`dafny verify dfyconfig.toml` checks everything.

How to read the model:

- Each service function is one atomic transaction. A raised exception rolls all rows back; only the fact that an
  external provider was contacted remains.
- A run of a plan is any sequence of such transactions, by the scheduler, workers, the user, the watchdog, retries and
  other tasks on the same database, in any order. "Reachable" means reachable by such a run from a persisted plan.
- What a tool call, a model or a user will do is an oracle. The oracle of `PlanSchedule` may depend on the step and on
  how its parents ended.
- Steps are numbered by position, which is proposal order and need not be topological.
- A class method that changes rows is proved equal to the function that specifies it. What that function does is
  stated row by row in lemmas that name neither its helpers nor its parts (`PlanOutcomes`, and those named `...Tells`,
  `...Iff` and `...Outcome` elsewhere); the theorems over runs build on it. `Engine` holds the rows of one plan and shares a `Desk` with other tasks.
- Automatic induction is switched off (`{:induction false}`) wherever it would apply, so every inductive step is written
  out.

Where the code promises less than its documentation or its names suggest, the code is modelled as it is, and the
exact condition is proved:

- A pass can change the stored plan status without a new version, so browsers keep the old one
  (`QuietStatusChangeIff`, `QuietStatusChangeHappens`), and which of two statuses of one version a browser shows
  depends on their order (`StatusDependsOnOrder`, `DeliveriesAgreeIff`).
- Cancelling is not final, and the write of a cancelled step can still be committed (`CancelledPlanReopensIff`,
  `CancelledPlanReopens`, `CancelledWriteDecidableIff`, `CancelledWriteCanStillCommit`, `CancelledWriteCommits`).
- A stalled, retryable step can become impossible to retry (`PassForgetsStallIff`, `StrandedChangesIff`,
  `StrandedPlan`, `StrandedPlanHappens`).
- A write the user rejects may have reached its external provider before (`ContactWithoutCommitIff`,
  `RejectedWriteMayHaveReachedProvider`).
- An alias may shadow a tool name without a dot, and public names are not unique (`ManifestKeyResolvesIff`,
  `AliasMayShadowName`, `ShortNamesCollideIff`, `LongNamesCollideIff`,
  `ShortMeetsLongIff`, `ShortMeetsLong`, `DotsCollide`, `SeparatorIsAmbiguous`).
- A validated recurrence rule may raise or, if MONTHLY, starve; without an anchor INTERVAL has no effect
  (`ValidRuleRaisesIff`, `ValidRuleMayRaise`, `ValidMonthlyStarvesIff`, `ValidMonthlyMayStarve`,
  `UnanchoredIgnoresInterval`).
- What a browser shows of a job depends on the order of events and snapshots (`StatusAgreesIff`, `FieldAgreesIff`,
  `FixedFieldAgreesIff`, `ProgressDependsOnOrder`, `SnapshotHidesResult`), a late seed hides its newest status
  (`NewestStaysIff`, `SeedMayHideNewest`), and a cleared job can come back (`ClearedComesBackIff`).
- The fallback plan does not always pass (`SeedAcceptableIff`).
- An object listed in another spelling than the canonical one is analysed again and again, and can be completed and
  failed at once (`RespelledRemainsIff`, `RespelledIsAnalysedAgain`, `StaysApartIff`).

## Model

| member | source | states |
|---|---|---|
| PlanSchedule.ScheduleIndependence | backend/app/modules/agent/scheduler.py:272-373 | For every interleaving of passes, starts, executions and decisions, every cap and every order of steps, a finished plan without cancellation, stall or retry has exactly the step statuses of a recursive evaluator on the graph; plan and task are a success iff the evaluator has every step done, in full or in part, a failure iff none, and a partial success otherwise |
| PlanSchedule.AnyTwoSchedulesAgree | backend/app/modules/agent/scheduler.py:272-373 | Two finished runs of the same work, proposed in any two orders and scheduled in any two ways, give every step the same status, the plan and the task the same status, and the plan the same counts |
| PlanSchedule.PositionsDoNotMatter | backend/app/modules/agent/scheduler.py:56-63 | Renumbering the steps, acyclic graph and verdicts along a permutation renumbers the evaluator's result and changes nothing else |
| PlanSchedule.ActionAgrees | backend/app/modules/agent/scheduler.py:284-316 | Each single transaction keeps every ended step at the evaluator's status, although one pass may not propagate all blocking |
| PlanSchedule.FollowsIff | backend/app/modules/agent/scheduler.py:272-573 | What the runs of schedule independence leave out: cancelling, stalling, retrying, and workers or answers that do not do what the oracle foretells; nothing else |
| PlanRuns.PerformKeeps | backend/app/modules/agent/scheduler.py:272-573 | The whole invariant (dependency order, attempts, end of plan, links between steps and writes, log, attempt rows) is kept by every transaction, those of other tasks on the same database included |
| PlanRuns.RunInv | backend/app/modules/agent/scheduler.py:272-573 | Hence it holds in every state of every run from a persisted plan |
| PlanTheorems.DependencyOrder | backend/app/modules/agent/scheduler.py:284-316 | In every reachable state a step that was ever claimed or started has only parents that are done, in full or in part; a blocked step has a parent that failed or was blocked, skipped or cancelled; and no step has started more than twice |
| PlanTheorems.AttemptKeysUnique | backend/app/modules/agent/step_executor.py:216-221 | The (step, attempt number) keys of committed attempt rows never repeat in any reachable state, and no number exceeds two |
| PlanTheorems.NothingQueuedWhileWaiting | backend/app/modules/agent/scheduler.py:298-310 | A pass that sees a waiting confirmation queues nothing and returns no step |
| PlanTheorems.CapRespected | backend/app/modules/agent/scheduler.py:299-310 | Over every run the queued and running steps never outnumber the largest cap any pass was given |
| PlanTheorems.PassFillsRoom | backend/app/modules/agent/scheduler.py:299-316 | A pass is work-conserving: with no open confirmation a step that could run stays pending only when the cap is used up |
| PlanModel.ReadyFromTakesFirst | backend/app/modules/agent/scheduler.py:301-310 | Ready steps are claimed in position order, and one is left out only when all the room went to earlier ones |
| PlanSafety.BlockPassEffect | backend/app/modules/agent/scheduler.py:284-296 | One blocking loop blocks exactly the pending steps with a parent that was unusable before or became blocked earlier in the same loop; no other step changes |
| PlanOutcomes.PassRows | backend/app/modules/agent/scheduler.py:284-316 | A pass over an open plan blocks a pending step iff a parent had failed or been blocked, skipped or cancelled, or an earlier step became blocked in the same pass; it queues a pending step whose parents are all done iff nothing waits and the cap leaves room after the busy and the earlier such steps; every other row stays |
| PlanOutcomes.PassReturns | backend/app/modules/agent/scheduler.py:275-316 | The pass returns exactly the steps it queued, in position order, and leaves a finished or cancelled plan alone |
| PlanOutcomes.PassConcludes | backend/app/modules/agent/scheduler.py:183-203 | If then every step has ended, plan and task are a success iff all steps are done, in full or in part, failed iff none is, partial otherwise, with the counts of the rows, and the next version is published |
| PlanOutcomes.PassAnnounces | backend/app/modules/agent/scheduler.py:323-371 | Otherwise plan and task wait if a step waits, else are running if a step is queued or running, else keep their statuses; a version is published exactly when a row changed |
| PlanOutcomes.StartOutcome | backend/app/modules/agent/scheduler.py:376-394 | A queued step runs with one more attempt and the plan is running; a step in any other status changes nothing |
| PlanOutcomes.FinishOutcome | backend/app/modules/agent/step_executor.py:185-514 | A running step that finishes is done, in full or in part, on a new closed run, with its attempt on record; any other step changes nothing |
| PlanOutcomes.PreviewOutcome | backend/app/modules/agent/step_executor.py:386-405 | A running step that previews a write waits, with plan, task and a new run waiting too and one undecided write of its tool |
| PlanOutcomes.FailOutcome | backend/app/modules/agent/scheduler.py:397-460 | A failure is recorded unless the step is done or waits, and fails the step's run if that is running |
| PlanOutcomes.StrangerDecidesNothing | backend/app/modules/agent/service.py:481-485 | Whoever does not own the task is told that there is no such write, and desk and plan stay as they are |
| PlanOutcomes.DecisionSucceedsIff | backend/app/modules/agent/service.py:232-252 | In every reachable state a decision goes through iff the owner makes it, the task waits, the write is the task's and undecided, and, if it is approved, the tool answers |
| PlanOutcomes.DecisionOutcome | backend/app/modules/agent/service.py:400-432 | Then the waiting step behind the write is done or skipped as decided, the write is decided, its run closed and the task running; a cancelled step stays cancelled |
| PlanOutcomes.CancelOutcome | backend/app/modules/agent/planning_service.py:520-554 | Cancelling an open plan cancels its pending, queued and waiting steps and no other, counts the blocked, skipped and cancelled ones, and cancels plan and task |
| PlanOutcomes.ClosedPlanIsNotCancelled | backend/app/modules/agent/planning_service.py:520-527 | A finished plan refuses, a cancelled one agrees, and neither changes |
| PlanOutcomes.CancelledPlanIsClosed | backend/app/modules/agent/planning_service.py:529-536 | No reachable cancelled plan has a pending, queued or waiting step |
| PlanOutcomes.WatchdogOutcome | backend/app/modules/agent/scheduler.py:527-573 | The watchdog makes exactly the stale queued and running steps stalled and retryable, the plan stalled and the task failed; without such a step nothing changes |
| PlanOutcomes.RetrySucceedsIff | backend/app/modules/agent/scheduler.py:463-483 | A retry goes through iff the plan is failed, partial or stalled and some failed or stalled step is retryable with fewer than two attempts |
| PlanOutcomes.RetryOutcome | backend/app/modules/agent/scheduler.py:471-524 | Then every such step and every step on a path below one is pending, not retryable and without a run, and every other row stays; plan and task are pending and the counts zero; otherwise nothing changes |
| PlanExamples.RetryHappens | backend/app/modules/agent/scheduler.py:463-524 | A run from a persisted plan: start, fail retryably, finish, retry |
| PlanOutcomes.FinishedPlanTells | backend/app/modules/agent/scheduler.py:183-203 | In every reachable finished plan all steps have ended; plan and task are a success iff every step is done, in full or in part, failed iff none is, partial otherwise; the counts are those of the rows |
| PlanOutcomes.PlanMayAct | backend/app/modules/agent/scheduler.py:272-573 | The runs of the theorems are not narrowed: passes, decisions, cancellations, the watchdog, retries and announcements may come at any time, starts of any step, and failures of any that is queued, running or stalled |
| PlanOutcomes.OthersMayAct | backend/app/modules/agent/service.py:46-432 | Nor by other tasks: whatever they do on their own rows may come at any time |
| PlanTheorems.RetryExact | backend/app/modules/agent/scheduler.py:471-504 | In every reachable state a retry that succeeds resets exactly the roots and their descendants; a reset step that is no root had never started; every other row is untouched |
| PlanTheorems.FinishedWorkIsNeverRedone | backend/app/modules/agent/scheduler.py:471-504 | Over every run, through any number of retries, an accepted step and a step whose write was rejected keep their rows for ever |
| PlanSafety.RetrySparesFinishedWork | backend/app/modules/agent/scheduler.py:472-492 | No success, partial success, rejected, waiting or busy step is ever among the reset ones |
| PlanSafety.AffectedIsClosure | backend/app/modules/agent/scheduler.py:484-491 | The affected set, defined by paths in the graph, is the roots and the children of affected steps |
| PlanSafety.AffectedIsLeast | backend/app/modules/agent/scheduler.py:484-491 | Every set of steps that holds the roots and is closed under children contains the affected set |
| PlanTheorems.StalledIsRetryRoot | backend/app/modules/agent/scheduler.py:541-547 | A stalled step can be restarted by retry iff it has not used both attempts, and its parents are still accepted |
| PlanTheorems.FinishedPlanConserved | backend/app/modules/agent/scheduler.py:183-203 | A finished plan has only terminal steps, its three counts add up to the number of steps, and it is a success iff all steps were accepted and a failure iff none was |
| PlanTheorems.FinishedPlanStable | backend/app/modules/agent/scheduler.py:275-276 | Until it is retried no pass, worker, decision, cancellation or watchdog changes a finished plan; it can only be announced again as it stands |
| PlanTheorems.CancelledPlanReopensIff | backend/app/modules/agent/step_executor.py:401-405 | Cancelling is not final: a cancelled plan leaves that status exactly when a step that was already running previews a write or when the watchdog finds one stale |
| PlanExamples.CancelledPlanReopens | backend/app/modules/agent/step_executor.py:386-405 | A run in which a cancelled plan waits for the user again |
| PlanTheorems.LogFollowsPlan | backend/app/modules/agent/scheduler.py:367-371 | Published versions start at one and never fall, snapshots of one version show the same steps, every version up to the current one is published, and the last snapshot shows the steps and the version as stored, although a plan may be announced again at any time |
| PlanRuns.RepublishKeeps | backend/app/workers/tasks/agent.py:35-38 | Announcing a plan again at its unchanged version, as a redelivered task does, keeps the whole invariant |
| PlanTheorems.QuietStatusChangeIff | backend/app/modules/agent/scheduler.py:323-371 | A pass changes the plan's stored status without publishing it exactly when, on an open plan, no pending step has an unusable parent and either a step waits and the status says otherwise, or none waits, one is busy, the status is not running, and the cap is used up or no pending step has only accepted parents |
| PlanTheorems.PassUnchangedIff | backend/app/modules/agent/scheduler.py:284-316 | A pass changes no step exactly when none can be blocked and a confirmation is open, the cap is used up, or no pending step has only accepted parents |
| PlanTheorems.SameVersionSameSteps | backend/app/modules/agent/scheduler.py:369-371 | Over every run two stored states of the same version have the same steps, whatever their statuses |
| PlanTheorems.PublishedWasStored | backend/app/modules/agent/scheduler.py:369-371 | Every published snapshot shows the rows as some earlier state of the run stored them |
| PlanExamples.QuietStatusChangeHappens | backend/app/modules/agent/scheduler.py:323-339 | A run of two independent steps in which a pass silently moves the plan from stalled to running and retry, possible before, is refused |
| PlanTheorems.StepsAgreeWithWrites | backend/app/modules/agent/service.py:400-432 | In every reachable state a write of the plan was committed iff it was approved, never if its step was skipped, and it is undecided while its step waits; no run is able to write |
| PlanTheorems.WaitingStepIsDecidable | backend/app/modules/agent/service.py:242-252 | A waiting step is never lost: after one more pass its owner can reject its write, and can approve it exactly when the tool answers |
| PlanProgress.PassIsIdleIff | backend/app/modules/agent/scheduler.py:284-316 | On an idle plan without open confirmation a pass changes nothing exactly when every pending step is held by an undecided or stalled parent |
| PlanProgress.HeldLeadsToStalled | backend/app/modules/agent/scheduler.py:284-316 | On an acyclic graph, if all pending steps are held then some step is stalled |
| PlanProgress.IdlePlanProgresses | backend/app/modules/agent/planning_service.py:48-82 | Acyclicity gives progress: with nothing busy, waiting or stalled a pass blocks or queues some step, or all have ended |
| PlanLimits.PassForgetsStallIff | backend/app/modules/agent/scheduler.py:323-339 | A pass over a stalled plan with a stalled step leaves it stalled exactly when no confirmation is open, nothing is busy, and the cap is zero or no pending step has only accepted parents; otherwise retry is refused from then on |
| PlanLimits.StrandedPlan | backend/app/modules/agent/scheduler.py:463-478 | Over every run without a late failure report or a cancellation, and with any passes, starts, executions, decisions, watchdog, retries, announcements and other tasks, a stranded plan (nothing busy or waiting, all pending steps held, a stalled step, but not the status that retry asks for) keeps its rows, its log at most repeats them, and retry is refused |
| PlanLimits.StrandedChangesIff | backend/app/modules/agent/scheduler.py:272-573 | One transaction changes the rows of a stranded plan exactly when it is a late failure report or a cancellation |
| PlanExamples.StrandedPlanHappens | backend/app/modules/agent/scheduler.py:463-478 | A run that strands a plan whose stalled step was never retried |
| PlanLimits.CancelledWriteDecidableIff | backend/app/modules/agent/service.py:242-252 | The undecided write of a cancelled step can be approved exactly when the plan's task waits and the tool answers; the step stays cancelled |
| PlanLimits.CancelledWriteCanStillCommit | backend/app/modules/agent/step_executor.py:386-405 | So a cancelled step's write can still be committed: the preview of another running step reopens the task |
| PlanExamples.CancelledWriteCommits | backend/app/modules/agent/step_executor.py:386-405 | A run in which the write of a cancelled step is approved and committed |
| PlanEngine.Engine.constructor | backend/app/modules/agent/planning_service.py:401-436 | A persisted plan has all steps pending, version one and one announced snapshot |
| PlanEngine.Engine.CoordinatePlan | backend/app/modules/agent/scheduler.py:272-373 | The rows and the returned ids after the three loops are those of the specified pass |
| PlanEngine.Engine.StartStep | backend/app/modules/agent/scheduler.py:376-394 | Only a queued step starts, once, with the next attempt number and a published version |
| PlanEngine.Engine.ExecuteStep | backend/app/modules/agent/step_executor.py:185-514 | A running step ends accepted or with one undecided write on a new run; any other step is left alone |
| PlanEngine.Engine.FailStep | backend/app/modules/agent/scheduler.py:397-460 | A failure never overwrites an accepted or waiting step, and closes the step's running run |
| PlanEngine.Engine.DecidePendingWrite | backend/app/modules/agent/service.py:223-432 | A decision changes desk, step and plan together or, when refused, nothing but the record of contacted providers |
| PlanEngine.Engine.CancelPlan | backend/app/modules/agent/planning_service.py:507-554 | Only the owner cancels, with exactly the specified effect, which `PlanOutcomes.CancelOutcome` spells out |
| PlanEngine.Engine.RepairStalled | backend/app/modules/agent/scheduler.py:527-573 | Exactly the busy steps past the heartbeat become stalled and retryable; a plan without one is untouched |
| PlanEngine.Engine.GrowAffected | backend/app/modules/agent/scheduler.py:484-491 | Sweeping the dependency rows in any order until nothing is added yields exactly the roots and their descendants, and ends |
| PlanEngine.Engine.RetryFailedChain | backend/app/modules/agent/scheduler.py:463-524 | Only the owner retries; the retry succeeds iff the plan is failed, partial or stalled and some failed or stalled step is retryable with fewer than two attempts; else nothing changes |
| PlanEngine.Engine.ExecuteReady | backend/app/modules/agent/graph_runtime.py:58-72 | Whatever the interleaving of the workers' transactions, starts that fail included, every claimed step comes to rest, no other step changes, and all invariants hold |
| PlanEngine.Engine.RunAgentGraph | backend/app/modules/agent/graph_runtime.py:45-83 | Driven by one runner from an idle state, a reopened cancelled plan included, a plan of at most twelve steps stops within one dispatch more than it has pending steps; the guard of 32 can end the loop only if a step is stalled; if what had ended agreed with the evaluator, an ended plan has the evaluator's statuses |
| PlanEngine.StopsIff | backend/app/modules/agent/graph_runtime.py:75-83 | The loop goes on only while the plan is pending, running or stalled |
| PlanEngine.Engine.DriveToEnd | backend/app/modules/agent/router.py:177-191 | Liveness: if nothing stalls, the user answers every confirmation and the tools answer, running the plan again after each answer ends it after at most as many answers as it has open steps, whatever was cancelled or retried before; and with the evaluator's statuses if what had ended agreed with it |
| PlanEngine.AnswerEffect | backend/app/modules/agent/service.py:400-432 | In any state that agrees with the evaluator, the owner's answer to a waiting step is accepted and ends that step as the evaluator says |
| PlanEngine.DispatchEffect | backend/app/modules/agent/graph_runtime.py:45-55 | One dispatch over an idle plan claims exactly the steps it leaves busy, and uses up a pending step unless the loop stops or something is stalled |
| PlanGraph.ValidatePlanGraph | backend/app/modules/agent/planning_service.py:48-82 | A proposal is accepted iff every reference exists, the graph is acyclic and no chain is longer than the bound, whatever order the keys are visited in; a reference fault is that of the first faulty step, self-reference first; a cycle error means a cycle, a depth error a step whose longest chain exceeds the bound; the memo holds longest-chain lengths |
| PlanGraph.AdmissibleIff | backend/app/modules/agent/planning_service.py:48-82 | Admitted are exactly the proposals whose references exist, in which no chain of dependencies returns to its start, and none is longer than the bound |
| PlanGraph.FirstReferenceFaultIs | backend/app/modules/agent/planning_service.py:54-65 | The first step that refers to itself or to a missing step decides the error, self-reference first |
| PlanGraph.FirstScopeFaultIs | backend/app/modules/agent/planning_service.py:150-183 | The first step without an object scope for its analysis, or without an analysis upstream of its write, decides the error |
| PlanGraph.GraphValidator.Visit | backend/app/modules/agent/planning_service.py:67-79 | The recursion ends, memoised depths are longest-chain lengths within the bound, and a failure has found a cycle or a step that is too deep |
| PlanGraph.GraphValidator.VisitParents | backend/app/modules/agent/planning_service.py:73 | The maximum over the parents is attained by one of them, and is zero only without parents |
| PlanGraph.CyclesAreTooLong | backend/app/modules/agent/planning_service.py:67-79 | A graph with a cycle has chains of every length |
| PlanGraph.AdmittedPlanIsRanked | backend/app/modules/agent/planning_service.py:425-434 | The depths of an accepted proposal rank its stored dependency graph, which is therefore acyclic |
| PlanGraph.PersistRows | backend/app/modules/agent/planning_service.py:401-435 | The stored rows are exactly the dependency edges between the positions of the keys |
| PlanGraph.StoredParentsTell | backend/app/modules/agent/planning_service.py:425-434 | Position p is stored as a parent of position i iff the key at p is a dependency of the step at i, and every dependency of an accepted proposal is stored |
| PlanGraph.UpstreamTools | backend/app/modules/agent/planning_service.py:154-166 | The result is exactly the tools of the steps reached by one or more edges, on cyclic graphs and with missing references too; the recursion ends |
| PlanGraph.UpstreamFromParents | backend/app/modules/agent/planning_service.py:154-166 | Copying the visited set per path loses no reachable tool |
| PlanGraph.ValidateScopeFlow | backend/app/modules/agent/planning_service.py:150-183 | A proposal passes iff every analysis has an object scope in its context or upstream and every write has an analysis upstream; else the error is what the first faulty step lacks |
| PlanValidation.ValidateStepTool | backend/app/modules/agent/planning_service.py:102-132 | A step passes iff its tool is on offer, changes data iff the operation does, is confirmed iff it writes, and its arguments fit or come from a dependency; else the first of these that fails |
| PlanValidation.ValidatePlanProposal | backend/app/modules/agent/planning_service.py:135-147 | Size, then graph, then tools in step order: success iff all pass, else the first fault |
| PlanValidation.CheckProposal | backend/app/modules/agent/planning_service.py:358-360 | A proposal passes both validations iff every step's scope flows, the size and graph are within bounds and every tool fits; a scope fault is reported before one of size, graph or tool |
| PlanValidation.AcceptableIff | backend/app/modules/agent/planning_service.py:48-183 | A proposal passes iff every step has what it needs upstream, the steps are not too many, references exist, no chain returns to its start or is too long, and every step fits its tool |
| PlanValidation.ToolFaultTells | backend/app/modules/agent/planning_service.py:102-132 | A step fits its tool iff the tool is on offer, writes iff the operation is none of query and analyze, is confirmed iff it writes, and takes the arguments unless they come from a dependency; the first of these that fails names the error |
| PlanValidation.FirstToolFaultIs | backend/app/modules/agent/planning_service.py:135-147 | The first step that does not fit its tool decides the error |
| PlanFallback.SeedAcceptableIff | backend/app/modules/agent/planning_service.py:186-267 | The fallback passes both validations exactly when the tools it needs are on offer with their kinds, their schemas accept its arguments, the bounds allow its one to three steps, and the query or analysis it builds on can be had |
| PlanFallback.SeedProposalTells | backend/app/modules/agent/planning_service.py:186-267 | The tools, operations, confirmations and inputs of the fallback's steps in each of its four forms |
| PlanFallback.QueryArgumentsTell | backend/app/modules/agent/planning_service.py:294-298 | The query takes its tool's defaults, or a limit of ten without any, with the request's whole-number limit brought between 1 and 100 |
| PlanFallback.SeedArgumentsTell | backend/app/modules/agent/planning_service.py:301 | The request's own arguments win over the defaults of its tool |
| PlanFallback.CompletedTells | backend/app/modules/agent/planning_service.py:343-356 | A step keeps everything but its arguments, and of these its own win over the defaults of its tool |
| PlanFallback.LinearAdmissible | backend/app/modules/agent/planning_service.py:48-82 | A proposal whose steps each depend on the one before is admissible exactly when it has no more steps than the depth allows |
| PlanFallback.LinearUpstream | backend/app/modules/agent/planning_service.py:154-166 | In such a proposal the tools upstream of a step are exactly those of the steps before it |
| PlanFallback.ProposePlan | backend/app/modules/agent/planning_service.py:270-365 | Without the request's tool an error; else the model's proposal, or the fallback if the model failed, completed with the tools' defaults, if it passes; else the fallback as it is, exactly when the condition above holds; else the error is the fallback's |
| PlanAdmission.ProposeAndRun | backend/app/modules/agent/planning_service.py:270-365 | End to end: a plan is run iff the request's tool is on offer and the completed proposal passes both validations or the fallback is of use; however its steps are ordered, it is driven to its end or to a confirmation with the evaluator's statuses; a refusal changes nothing and explains what the fallback lacks |
| PlanAdmission.ProposeAndComplete | backend/app/modules/agent/router.py:177-191 | End to end with a user who answers: every chosen plan becomes a finished plan whose statuses are the evaluator's |
| PlanAdmission.Persist | backend/app/modules/agent/planning_service.py:368-436 | What is stored for a validated proposal is an initial plan on an acyclic graph, steady in the sense the driving loop needs |
| ApprovalDesk.ApprovedWritesConserved | backend/app/modules/agent/registry.py:196-243 | Over every history from an empty database, committed write calls correspond one to one with approved writes, and no run is left able to write |
| ApprovalDesk.DecisionsAreFinal | backend/app/modules/agent/service.py:242-246 | No write is decided twice: whatever follows, a decision stands, and a rejected write never has a committed call |
| ApprovalDesk.WriteCallRefused | backend/app/modules/agent/registry.py:196-232 | Between decisions every write call is refused without effect, whoever makes it and with whatever confirmation |
| ApprovalDesk.ApprovalSucceedsIff | backend/app/modules/agent/service.py:232-252 | An approval commits exactly when the caller owns the waiting task, the write on its waiting run is undecided and the tool answers; else all rows are as before |
| ApprovalDesk.RejectionSucceedsIff | backend/app/modules/agent/service.py:232-252 | A rejection goes through iff the caller owns the task, the task waits, the write is the task's and undecided, and its run is the task's and waits; else nothing changes |
| ApprovalDesk.StrangerIsRefused | backend/app/modules/agent/service.py:481-485 | Whoever does not own the task gets NotFound and changes nothing, whatever the choice |
| ApprovalDesk.OnlyOwnWrites | backend/app/modules/agent/service.py:235-241 | So does the owner about a write of another task or one that does not exist |
| ApprovalDesk.ClosedWriteConflicts | backend/app/modules/agent/service.py:242-252 | A write that is decided, or whose task or run does not wait, is a conflict |
| ApprovalDesk.UnknownChoiceFails | backend/app/modules/agent/service.py:232-233 | A choice that is neither is refused |
| ApprovalDesk.CommittedBy | backend/app/modules/agent/service.py:275-345 | A decision that goes through is the owner's; an approval commits its write once and reaches the provider if the tool is external, a rejection does neither |
| ApprovalDesk.ApprovalFailsFor | backend/app/modules/agent/registry.py:177-254 | Which error an approval meets once the write is open, and that the provider is reached exactly if an external tool is bound, available, granted and takes the arguments |
| ApprovalDesk.WriteCallCommitsIff | backend/app/modules/agent/registry.py:196-254 | On any desk a write call commits iff its run is the task's, may write and lists the tool, its confirmation is the approved one of that task and run, and the tool is available, granted and answers |
| ApprovalDesk.ReadCallSucceedsIff | backend/app/modules/agent/registry.py:177-195 | A read call never changes the desk, and succeeds iff the tool is available, granted and answers |
| ApprovalDesk.CallFailsFor | backend/app/modules/agent/registry.py:177-243 | Which error a call meets, in the order of the checks |
| ApprovalDesk.ProposingTells | backend/app/modules/agent/service.py:46-130 | A proposal is recorded iff its operation writes, its tool is a known, available write tool and its targets are accepted; then one undecided write is added, its task waits, and its run waits, is locked and lists the tool; nothing else changes |
| ApprovalDesk.DecisionEffect | backend/app/modules/agent/service.py:275-345 | A successful decision changes its write, its run and its task as the decision says and no other row |
| ApprovalDesk.UnlockedGateOpens | backend/app/modules/agent/registry.py:177-243 | During an approval the gate refuses only for availability, arguments or a missing grant |
| ApprovalDesk.ActionKeepsDesk | backend/app/modules/agent/service.py:89-119 | Every transaction keeps the correspondence of calls and approvals and changes a decision only from undecided, by deciding that write |
| ApprovalDesk.ContactWithoutCommitIff | backend/app/modules/agent/registry.py:243-253 | An external provider is reached without a committed write exactly when the owner approves an undecided write of a waiting task and run, its tool is bound, available, granted and takes the arguments, and the handler or its output check then fails |
| ApprovalDesk.RejectedWriteMayHaveReachedProvider | backend/app/db/session.py:65-75 | A history in which a finally rejected write has reached its provider, since a rollback does not undo the contact |
| ApprovalDesk.Desk.CreatePendingWrite | backend/app/modules/agent/service.py:46-130 | A valid proposal is recorded undecided and puts task and run on hold without write permission; an invalid one changes nothing |
| ApprovalDesk.Desk.Invoke | backend/app/modules/agent/registry.py:170-254 | A call's outcome and its effect on the rows are those of the gate |
| ApprovalDesk.Desk.DecidePendingWrite | backend/app/modules/agent/service.py:223-385 | The decision in place, with its rollback, has exactly the specified result |
| ClientPlans.DeliveryShowsNewest | frontend/src/stores/agentConversations.ts:78-90 | After any delivery of any snapshots the list is sorted, has one entry per plan, each a delivered snapshot of the plan's highest version, and misses no plan |
| ClientPlans.VersionsConverge | frontend/src/stores/agentConversations.ts:84-85 | Two browsers that received the same snapshots, in any orders and however often, hold the same version of every plan |
| ClientPlans.DeliveriesAgreeIff | frontend/src/stores/agentConversations.ts:78-90 | All deliveries of the same snapshots leave the same list exactly when each plan's highest version came with one content and the newest snapshots of different plans have different creation times |
| ClientPlans.MixedDeliveriesConverge | frontend/src/stores/agentConversations.ts:56-90 | Polled, published and repeated snapshots of a plan, mixed and in any order, leave the highest version received with the steps the database stored under it |
| ClientPlans.PublishedIsFromRun | backend/app/modules/agent/scheduler.py:369-371 | A published event is such a stored snapshot |
| ClientPlans.StatusDependsOnOrder | frontend/src/stores/agentConversations.ts:85 | Two reachable snapshots of one version with the same steps, one stalled and one running: the browser shows whichever arrives first |
| ClientPlans.PlanStore.ApplyPlan | frontend/src/stores/agentConversations.ts:78-90 | A plan of another conversation changes nothing; else the list becomes that of the version-filtered reducer |
| ClientPlans.PlanStore.ApplyPlans | frontend/src/stores/agentConversations.ts:73-76 | A batch is applied as its snapshots one after another, those of other conversations skipped; without an open conversation nothing is applied |
| ClientPlans.BelongsIff | frontend/src/stores/agentConversations.ts:79-83 | A plan that names a turn belongs to the conversation iff its message is on display or the first active turn of that id is one of the open conversation |
| ClientPlans.NoTurnNoPlace | frontend/src/stores/agentConversations.ts:79 | A plan without a turn never belongs |
| ClientPlans.BatchTells | frontend/src/stores/agentConversations.ts:73-76 | Of a batch what belongs is applied, in its order, and nothing else |
| ClientJobs.NewestEventWins | frontend/src/stores/jobs.ts:51-66 | From any deliveries, with several contents of one version too, a job is known iff an event of it arrived, and shows one of its newest events: version, status, step and every field that event carries |
| ClientJobs.DeliveryOrderIsIrrelevant | frontend/src/stores/jobs.ts:51-66 | Two deliveries of the same events and snapshots, in any order and multiplicity, know the same jobs at the same versions |
| ClientJobs.StatusAgreesIff | frontend/src/stores/jobs.ts:51-66 | All deliveries of the same events agree on a job's status and step exactly when its newest events do |
| ClientJobs.ProgressDependsOnOrder | frontend/src/stores/jobs.ts:64 | A pair of events whose order decides the progress shown |
| ClientJobs.FieldAgreesIff | frontend/src/stores/jobs.ts:58-80 | All deliveries of the same events agree on a field exactly when the job's newest events, taken alone, show one value in it, and either all of them carry it or no event of the job, taken alone, shows a different one |
| ClientJobs.FixedFieldAgreesIff | frontend/src/stores/jobs.ts:58-80 | So for every field but the creation time: its newest events carry it with one value, or every event that carries it carries the default |
| ClientJobs.SnapshotHidesResult | backend/app/modules/jobs/sse.py:102-129 | A snapshot and an event of one version: if the snapshot, which has no result, arrives first, the result is never shown |
| ClientJobs.FieldOfNewest | frontend/src/stores/jobs.ts:58-80 | A field shows the newest events' value whenever all of them carry that one value |
| ClientJobs.JobStore.ApplyJobEvent | frontend/src/stores/jobs.ts:51-80 | The two maps after an event are those of the version-filtered reducer, every field falling back to the record held and then to its default; an event without an id changes nothing |
| ClientJobs.JobStore.ApplySnapshot | frontend/src/stores/jobs.ts:86-90 | The jobs of a snapshot are applied as events one after another |
| ClientJobs.JobStore.RememberJob | frontend/src/stores/jobs.ts:47-49 | A seed is spread over the record; no version changes |
| ClientJobs.JobStore.RefreshFromRest | frontend/src/stores/jobs.ts:112-120 | Listed jobs fill what the records lack, one after another |
| ClientJobs.JobStore.ClearCompleted | frontend/src/stores/jobs.ts:122-133 | Exactly the completed jobs go, with their versions, and their number is returned |
| ClientJobs.EventIsAccepted | frontend/src/stores/jobs.ts:51-61 | An event is taken in iff it names its job and its version, 0 if it has none, is above all taken in before; no other job changes |
| ClientJobs.FieldAfterEvent | frontend/src/stores/jobs.ts:59-80 | Every field after an accepted event: what the event says, else what was held, else the field's own default; the priority is never taken from an event, a creation time may come from the update time |
| ClientJobs.ClearingTells | frontend/src/stores/jobs.ts:122-133 | Exactly the jobs shown as completed go, with their versions, and all others stay |
| ClientJobs.ReplayKeepsConsistent | frontend/src/stores/jobs.ts:47-133 | Over every history of events, seeds, refreshes and clearings a job with an accepted version has a record with every key |
| ClientJobs.RefreshNeverRollsBack | frontend/src/stores/jobs.ts:112-120 | A list response changes no version and no record of a job that an event has written |
| ClientJobs.NewestStaysIff | frontend/src/stores/jobs.ts:44-66 | After its newest event, whatever else is delivered, seeded or listed, a job keeps that version, and shows that status exactly when no later seed, or the last one, says otherwise |
| ClientJobs.SeedMayHideNewest | frontend/src/stores/jobs.ts:44-49 | A late seed hides a completed job's status, and delivering the event again does not help |
| ClientJobs.ClearedComesBackIff | frontend/src/stores/jobs.ts:122-133 | After a clearing an event no newer than what was accepted changes the table exactly when the job was cleared |
| MessagePages.ForwardPagingComplete | backend/app/modules/agent/conversation_service.py:430-455 | Following the cursor from the start shows the whole conversation in (created_at, id) order, each message once, for every limit, with no trailing empty page |
| MessagePages.BackwardPagingComplete | backend/app/modules/agent/conversation_service.py:458-489 | Loading earlier windows from the newest shows exactly the conversation as it was at the first window, each message once and in order, while newer messages arrive, and ends without an empty window |
| MessagePages.ForwardPageAt | backend/app/modules/agent/conversation_service.py:440-455 | A page read with the cursor at any position is the next slice of the ordered conversation, and names a cursor only if more follows |
| MessagePages.RecentPageAt | backend/app/modules/agent/conversation_service.py:472-489 | A window read at any position, from the first table or a grown one, is the slice that ends there |
| MessagePages.OrderedRows | backend/app/modules/agent/conversation_service.py:449 | Ordering by the key lists every row of the query once, in strictly increasing key order |
| MessagePages.ClampTells | backend/app/modules/agent/conversation_service.py:440 | The limit that applies is the one asked for, brought between 1 and 200 |
| MessagePages.ListConversationMessages | backend/app/modules/agent/conversation_service.py:430-455 | From one row more than the limit the function derives the page and its cursor |
| MessagePages.ListRecentConversationMessages | backend/app/modules/agent/conversation_service.py:458-489 | Likewise backward; a cursor that is not of the conversation is an error |
| RefreshFamilies.AtMostOneLiveToken | backend/app/modules/auth/service.py:206-245 | Over every history of logins, rotations, logouts and revocations a family has at most one token neither rotated nor revoked |
| RefreshFamilies.ReuseClosesFamily | backend/app/modules/auth/service.py:219-224 | Presenting any other token of a family revokes all of it, and whatever happens later no token of that family is accepted again |
| RefreshFamilies.RotationHandsOver | backend/app/modules/auth/service.py:206-245 | A rotation succeeds iff the token is live, unexpired and its user active; the new token is then the family's only live one; other failures but reuse change nothing |
| RefreshFamilies.ReplayKeeps | backend/app/modules/auth/service.py:248-286 | Over any further history tokens stay in their families and a closed family stays closed |
| RefreshFamilies.Sessions.RotateRefresh | backend/app/modules/auth/service.py:206-245 | The rows after a rotation, with its committed revocation and its rollback, are the specified ones |
| RefreshFamilies.Sessions.Logout | backend/app/modules/auth/service.py:261-272 | Logout in place has exactly the specified effect, which the lemmas below spell out |
| RefreshFamilies.LoginOpens | backend/app/modules/auth/service.py:148-204 | A login adds one live token in a family no other token has |
| RefreshFamilies.RotationOutcome | backend/app/modules/auth/service.py:206-245 | Every row after a rotation and its error: a rotated or revoked token revokes its user's tokens of the family, before its age is looked at; an expired one, an inactive user and an unknown token change nothing; else the token is rotated and one for the same user and family is added |
| RefreshFamilies.LogoutClosesFamily | backend/app/modules/auth/service.py:261-267 | Logging out with a stored token revokes every token of its family and changes no other |
| RefreshFamilies.LoggedOutForGood | backend/app/modules/auth/service.py:261-267 | After it no later history accepts any token of that family |
| RefreshFamilies.LogoutByFamily | backend/app/modules/auth/service.py:268-272 | Logging out by family alone revokes every token of that family and changes no other |
| RefreshFamilies.LogoutOfNothing | backend/app/modules/auth/service.py:261-272 | A token that is not stored, and neither token nor family, change nothing |
| RefreshFamilies.RevokeAllOutcome | backend/app/modules/auth/service.py:275-286 | Every token of the user outside the kept family is revoked and no other token changes |
| RefreshFamilies.Sessions.RevokeAllSessions | backend/app/modules/auth/service.py:275-286 | Every token of the user is revoked except those of the family to keep |
| LoginLimiter.BoundedPasses | backend/app/modules/auth/service.py:127-136 | With a non-decreasing clock, between two successes any window holds at most `login_max_attempts` attempts that passed, despite pruning and although refused attempts are not stored |
| LoginLimiter.RefusedForCause | backend/app/modules/auth/service.py:132-134 | A refused attempt finds the window really full of attempts that passed |
| LoginLimiter.StoredIsRecentlyPassed | backend/app/modules/auth/service.py:132-136 | What is stored is what passed, less entries already outside the window |
| LoginLimiter.Limiter.CheckLoginRate | backend/app/modules/auth/service.py:127-136 | The check in place agrees with its specification for the key of the lower-cased address and the IP, leaves other keys alone and stores nothing when it refuses |
| LoginLimiter.Limiter.ClearLoginRate | backend/app/modules/auth/service.py:139-141 | A success clears its own key and no other |
| LoginLimiter.SameKeyIff | backend/app/modules/auth/service.py:127-128 | An IP has no bar, so two pairs share their attempts iff the addresses differ in case only and the IPs are the same |
| LoginLimiter.SharedKeyIff | backend/app/modules/auth/service.py:127-128 | For all texts: two pairs share their attempts iff the addresses differ in case only and the IPs are the same, or a bar inside an address and one inside an IP make the joined texts the same |
| Texts.LowerTells | backend/app/modules/auth/service.py:129 | Lower-casing replaces each capital letter by the small one at its place in the alphabet and no other character |
| Texts.UpperTells | backend/app/modules/habits/recurrence.py:23 | Upper-casing the reverse |
| Texts.StripCuts | backend/app/modules/habits/recurrence.py:23 | Stripping takes the blanks off both ends and nothing else |
| Recurrence.DailyOncePerInterval | backend/app/modules/habits/recurrence.py:34-37 | Any n consecutive dates hold exactly one occurrence of a DAILY rule with interval n, before or after the anchor |
| Recurrence.WeeklyCount | backend/app/modules/habits/recurrence.py:39-49 | Any 7n consecutive dates hold exactly as many WEEKLY occurrences as distinct weekdays are named, seven if BYDAY is absent |
| Recurrence.NoStarvation | backend/app/modules/habits/recurrence.py:34-49 | No DAILY rule and no WEEKLY rule naming a weekday starves |
| Recurrence.MonthlyStarvesIff | backend/app/modules/habits/recurrence.py:51-56 | A MONTHLY rule never occurs exactly when it names days and none of them is a day of any month |
| Recurrence.MondayFirst | backend/app/modules/habits/recurrence.py:43 | 1 January 1970 is a Thursday, and the weekdays follow in order from Monday, 0, before and after it |
| Recurrence.DailyOccursIff | backend/app/modules/habits/recurrence.py:34-37 | A DAILY rule occurs exactly on the dates a multiple of INTERVAL away from the anchor, on either side; on all if INTERVAL is below two |
| Recurrence.WeeklyOccursIff | backend/app/modules/habits/recurrence.py:39-49 | A WEEKLY rule occurs exactly on its named weekdays, if any, of the weeks a multiple of INTERVAL away from the anchor's, on either side; of all weeks if INTERVAL is below two |
| Recurrence.OtherwiseOccursIff | backend/app/modules/habits/recurrence.py:51-58 | A MONTHLY rule occurs exactly on the days it names, or else on the anchor's day; any other frequency never |
| Recurrence.UnanchoredIgnoresInterval | backend/app/modules/habits/recurrence.py:32 | Without an anchor INTERVAL has no effect |
| Recurrence.ValidRuleNeverStarves | backend/app/modules/habits/recurrence.py:61-71 | A DAILY or WEEKLY rule that validation accepts and whose INTERVAL is numeric has an occurrence in every seven times its interval |
| Recurrence.ValidRuleRaisesIff | backend/app/modules/habits/recurrence.py:31 | A rule that validation accepts still raises exactly when its INTERVAL is present, not empty and no integer |
| Recurrence.ValidRuleMayRaise | backend/app/modules/habits/recurrence.py:31 | Such a rule: DAILY with INTERVAL=X |
| Recurrence.ValidMonthlyStarvesIff | backend/app/modules/habits/recurrence.py:51-71 | A MONTHLY rule that validation accepts, its INTERVAL numeric, never occurs exactly when BYMONTHDAY is present and names no number from 1 to 31 |
| Recurrence.ValidMonthlyMayStarve | backend/app/modules/habits/recurrence.py:51-71 | Such a rule: MONTHLY with BYMONTHDAY=0 |
| Recurrence.WrittenRuleParses | backend/app/modules/habits/recurrence.py:18-24 | Round trip: a rule written from plain parts parses back to them, later duplicates winning, with or without its prefix |
| Recurrence.RuleReads | backend/app/modules/habits/recurrence.py:30-54 | Round trip: from the parts written for a frequency, an interval, weekdays and days of the month, exactly these are read; an empty list is none |
| Recurrence.MissingParts | backend/app/modules/habits/recurrence.py:30-31 | A missing FREQ is DAILY, a missing or empty INTERVAL one, a missing or empty list none |
| Recurrence.DayNamed | backend/app/modules/habits/recurrence.py:15 | The seven two-letter names, Monday first, and no other text are weekdays |
| Recurrence.IntReads | backend/app/modules/habits/recurrence.py:31 | Round trip: an integer reads back from its decimal spelling with either sign |
| Recurrence.IntOfIff | backend/app/modules/habits/recurrence.py:31 | No other text is an integer than digits, possibly after one sign |
| Recurrence.ValidIff | backend/app/modules/habits/recurrence.py:61-71 | A rule is valid iff its frequency is one of three and every text between the commas of its lists is a weekday or a number |
| Recurrence.Parse | backend/app/modules/habits/recurrence.py:18-24 | The loop over the tokens builds the table of the parts in token order |
| WorkRunner.RunBounded | backend/app/modules/agent/runner.py:102-134 | For every completion order the results are those of running the items one after another in input order; the status is a success iff all succeeded and a failure iff there were items and none succeeded |
| WorkRunner.RunOne | backend/app/modules/agent/runner.py:69-99 | The loop ends after at most two attempts with the specified result |
| WorkRunner.AttemptsExact | backend/app/modules/agent/runner.py:87-96 | Two attempts are made exactly when the first failure was retryable and retrying is on; the item succeeds iff its last attempt did |
| WorkRunner.ResultTells | backend/app/modules/agent/runner.py:69-99 | A result is the item's own: under its key, with the value its last attempt returned, or the retryability that attempt raised |
| WorkRunner.ShardOf | backend/app/modules/agent/service.py:725-726 | Every id lies in the shard and place its index determines |
| WorkRunner.ShardsSplit | backend/app/modules/agent/service.py:725-726 | Distinct ids never share a place: the shards are disjoint |
| WorkRunner.ShardsBalanced | backend/app/modules/agent/service.py:725-726 | Shard sizes differ by at most one |
| WorkRunner.RunCountFitsShards | backend/app/modules/agent/service.py:709-722 | For the run count of an analysis no shard is empty and the cap is respected |
| WorkRunner.RunCountTells | backend/app/modules/agent/service.py:709-722 | No run without objects; from eight objects on as many as objects, below that one per selected agent if several, never more than the bound; else one |
| ToolRegistry.ReplayAgrees | backend/app/modules/agent/registry.py:114-159 | Over every history alias to name and name to alias are mutual inverses, no tool disappears and none that is not MCP-backed is replaced |
| ToolRegistry.RegisteringTells | backend/app/modules/agent/registry.py:114-135 | Registering succeeds iff the name has 1 to 160 characters and is new, the alias is nobody's, the time limit is positive and there is at most one retry; which error it meets otherwise; what is added, and that nothing else changes |
| ToolRegistry.ReplacingTells | backend/app/modules/agent/registry.py:137-159 | Replacing succeeds iff no built-in tool has the name, the name has 1 to 160 characters and the alias is no other tool's; the predecessor's alias goes and no other |
| ToolRegistry.SafeCharIff | backend/app/modules/agent/capability_snapshot_service.py:21 | The safe characters are the letters, the digits, the underscore and the dash |
| ToolRegistry.ManifestKeyResolvesIff | backend/app/modules/agent/registry.py:161-168 | Looking up a tool's manifest key finds that tool exactly when it has an alias or its name is nobody's alias |
| ToolRegistry.AliasMayShadowName | backend/app/modules/agent/registry.py:122-126 | A history in which an alias shadows the name of another tool |
| ToolRegistry.SafeNamesAreSafe | backend/app/modules/agent/capability_snapshot_service.py:24-30 | A public name has 1 to 64 safe characters, does not start with a dash or underscore, and has no dot |
| ToolRegistry.SafeNamesAreKept | backend/app/modules/agent/capability_snapshot_service.py:26-28 | A short name that is safe already is public as it stands |
| ToolRegistry.ShortNamesCollide | backend/app/modules/agent/capability_snapshot_service.py:26-28 | Exchanging one unsafe character of a short name for another leaves the public name as it is |
| ToolRegistry.ShortNamesCollideIff | backend/app/modules/agent/capability_snapshot_service.py:24-28 | Public names that need no shortening are equal exactly when the texts of namespace, dash and name, cut into safe characters and runs of unsafe ones and trimmed of dashes, underscores and unsafe runs, pair up piece by piece: the same safe character, or dashes and unsafe runs; nothing left counts as `tool` |
| ToolRegistry.LongNamesCollideIff | backend/app/modules/agent/capability_snapshot_service.py:29-30 | Shortened public names are equal exactly when digest and shortened text are |
| ToolRegistry.ShortMeetsLongIff | backend/app/modules/agent/capability_snapshot_service.py:24-30 | A public name that needs no shortening equals a shortened one exactly when its pieces pair up with the first 53 pieces of the other, less what is trimmed at their end, a dash and the digest |
| ToolRegistry.ShortMeetsLong | backend/app/modules/agent/capability_snapshot_service.py:26-30 | Every shortened public name is also the public name of a tool whose name needs no shortening |
| ToolRegistry.SeparatorIsAmbiguous | backend/app/modules/agent/capability_snapshot_service.py:24-28 | `a` with `b-c` and `a-b` with `c` have one public name |
| ToolRegistry.DotsCollide | backend/app/modules/agent/capability_snapshot_service.py:24-28 | `b.c` and `b..c` have one public name |
| ToolRegistry.SecondAliasRefused | backend/app/modules/agent/registry.py:114-159 | Once a tool has an alias, another tool with the same alias is refused by both ways of registering, and nothing changes |
| ToolRegistry.DottedNamesAlwaysResolve | backend/app/modules/agent/registry.py:78-91 | With safe names as aliases and dotted names elsewhere every manifest key resolves to its tool |
| ToolRegistry.Registry.Register | backend/app/modules/agent/registry.py:114-135 | Registration in place: the new index and the error are the specified ones |
| ToolRegistry.Registry.RegisterOrReplace | backend/app/modules/agent/registry.py:137-159 | Replacement in place: likewise, dropping the replaced entry's alias |
| ToolRegistry.Registry.Get | backend/app/modules/agent/registry.py:161-168 | Lookup goes through the alias if there is one |
| AnalysisScope.CompletedOnlyGrows | backend/app/modules/agent/service.py:1255-1269 | Over any chain of analyses and follow-ups the completed set only grows; if every listed id is in its canonical spelling it stays disjoint from the failed one |
| AnalysisScope.CompletedIsNeverAnalysedAgain | backend/app/modules/agent/service.py:501-506 | A completed text is never among the remaining ones again, and among canonical spellings its object is never analysed again |
| AnalysisScope.StaysApartIff | backend/app/modules/agent/service.py:1047-1049 | Whatever the analyzer does, one analysis keeps completed and failed objects apart exactly when no remaining text is another spelling of a completed object |
| AnalysisScope.RespelledRemainsIff | backend/app/modules/agent/service.py:1044-1055 | An object that was just completed remains to be done exactly when the scope lists it in another spelling than the canonical one |
| AnalysisScope.RespelledIsAnalysedAgain | backend/app/modules/agent/service.py:1044-1055 | Such a scope: one id in another spelling, whose successful analysis leaves the next one the same work |
| AnalysisScope.TodoAre | backend/app/modules/agent/service.py:1044-1049 | An object is analysed exactly when a remaining text spells it |
| AnalysisScope.CanonicalIds | backend/app/modules/agent/service.py:1047-1054 | All canonical spellings in order, or nothing if some text is no id |
| AnalysisScope.AnalysisSplits | backend/app/modules/agent/service.py:1099-1269 | Read off the results of the bounded runner over the readable objects: every object to be analysed is in exactly one of succeeded, failed and unprocessed, they hold nothing else, and their sizes add up |
| AnalysisScope.KeysAre | backend/app/modules/agent/service.py:1257-1258 | Every item has one result, under its own key: a key is among the successes, or the failures, exactly when it was an item and its own result says so |
| AnalysisScope.StatusTells | backend/app/modules/agent/service.py:1235-1238 | The task is a success iff every object succeeded, and a failure iff something remained and no object succeeded |
| AnalysisScope.GroupByRun | backend/app/modules/agent/service.py:1190-1193 | Grouping the results by the run of their object gives every run exactly the results of its shard, in order, and never misses |
| AnalysisScope.AssignRuns | backend/app/modules/agent/service.py:1120-1148 | Each object is assigned to the run of the one shard that holds it |
| AnalysisScope.AnalysisRecords | backend/app/modules/agent/service.py:1255-1269 | Afterwards an object is completed iff it was or just succeeded, and failed iff it was or just failed and did not just succeed |
| AnalysisScope.AnalysisCompletes | backend/app/modules/agent/service.py:1044-1055 | If every remaining id is spelled canonically, readable, and succeeds at the latest at its second attempt, one analysis leaves nothing to do |
| AnalysisScope.ScopeIds | backend/app/modules/agent/service.py:488-498 | From a list of texts and other entries the loop keeps the first occurrence of every stripped text that is not empty; what is no list gives none |
| AnalysisScope.AnalysisTask.Execute | backend/app/modules/agent/service.py:1025-1269 | For every order of completion the task's scope, status and results by run are the specified ones; a refused analysis (no scope, a text that is no id, too many objects) changes nothing |

## Left out

- PlanEngine.Engine.FailStep: proved equal to its specification for every step, but over runs a failure is reported only for a step that is queued, running or stalled; a worker that outlives a retry of its own step is not modelled.
- PlanEngine.Engine.ExecuteStep: artifacts, summaries and the durations of attempt rows are not modelled; a failed execution rolls back and is followed by `FailStep`.
- PlanEngine.Engine.RunAgentGraph: one runner; LangGraph's checkpoints and its own limit on graph steps are not modelled.
- PlanAdmission.ProposeAndRun: the model's answer, the tools on offer, their schemas and the bounds are parameters; an argument is a whole number or some other value, and the proposal schema's own bounds are preconditions.
- ClientPlans.PlanStore.ApplyPlan: creation times are integers, and turns, messages and plans have numeric ids.
- ClientJobs.JobStore.ApplyJobEvent: the counter that triggers a redraw of plans and the number of deletions the server reports are not modelled.
- LoginLimiter.Limiter.CheckLoginRate: lower-casing letters outside ASCII is not modelled.
- AnalysisScope.AnalysisTask.Execute: the reply, the execution records and a write proposed afterwards are not modelled; how ids are spelled canonically is a parameter.
- AnalysisScope.ScopeIds: white space outside ASCII is not modelled.
- Recurrence.Parse: letters outside ASCII, further white space, and the underscores and non-ASCII digits that Python's `int` and `isdigit` take are not modelled.
- ToolRegistry.SafeNamesAreSafe: the digest is any ten hexadecimal digits; hash collisions are not modelled.
- MessagePages.ListConversationMessages: the ownership check before the query is not modelled; the query is the ordered set of rows it selects.
- Row locks, lost updates and isolation levels: every service function is one atomic step.
- Jobs, the outbox, turns, phases, runtime state, timestamps, summaries and display strings: they do not influence the modelled state.
- The kind of a tool is fixed during a run of a plan; an MCP tool registered again with another type is not modelled.
- The turn row as a state machine.
- The model call of `propose_plan`, routing, the model gateway, MCP transport, JSON Schema validation, hashing, JWT and CSRF: facts and oracles.
- Passwords and the login path after the limiter: a login is the opening of a family.
