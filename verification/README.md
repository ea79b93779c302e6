# Verified model of the Hermes control plane

A local control plane hands jobs to workers.  It keeps them in a durable ledger, delegates them to a
native Kanban board, orders and schedules them, checks them against policies, drives a browser, reviews
itself over JSON-RPC, and reports what happened.  This project models the stateful algorithms behind
that in Dafny and proves what they guarantee.

How the model is laid out, module by module:

- **Ledger** (`LedgerModel`, `LedgerEffects`, `LedgerHistory`, `LedgerTheorems`, class `LedgerStore.Ledger`).  The jobs
  table and the append-only event log; each method runs under `BEGIN IMMEDIATE`, so it is one function
  from database to database that commits or returns the old database with an error.  The class mutates
  its fields step by step and is proved equal to those functions; its contracts also say in rows and
  events what each method does.
- **Dispatcher** (`DispatchModel`, classes in `DispatcherService`).  A call of `dispatch` or
  `coordinate_development` is a process whose steps are its single ledger transactions and adapter
  calls.  `DispatchSystem.RunSys` interleaves any number of processes with crashes and with other users
  of the ledger, who create, move and cancel jobs; callers and others only have envelopes that the
  contract accepts (`Contracts.Accepted`).  `DispatchModel.RunToEnd` runs one process alone.
  Both use the same step function, and the imperative class is proved to compute `RunToEnd`.
  `DispatchFamily` is about the ids and keys of the children of a coordination; `DispatchBoard`,
  `DispatchRaces` and `DispatchExact` about jobs and native tasks under interleaving, both ways;
  `DispatchInterleaved` about the chain of tasks under interleaving; `DispatchOutcomes` says in the fields
  of the envelope and the ledger what `dispatch` answers; `DispatchWorkflow`, `DispatchChain`
  and `DispatchProgress` about one call, its retries, its chain and whether it finishes.
- **Router** (`RouterService`): the recursive depth-first ordering with its mutable sets, in place.
- **Scheduler** (`SchedulerModel`, `SchedulerExact`, `SchedulerPlans`, `SchedulerLimits`,
  `SchedulerService`): greedy admission and exactly when it is the best one, pausing and resuming over runs
  of calls, and the limits of a plan in terms of configuration and snapshot.
- **Policy** (`PolicyModel`, `PolicyMeaning`, `PolicyService`): the two recursions over JSON trees with one
  shared set, and what they refuse in the fields of the documents.
- **Browser** (`BrowserModel`, `BrowserTheorems`, `BrowserService`): the run loop against an environment
  whose every answer is arbitrary, exceptions included; contracts speak of the trace of calls.
- **JSON-RPC** (`JsonRpcModel`, `JsonRpcService`): the stdio client over an arbitrary stream of lines
  and read failures (response correlation and notifications as in sections 4.1 and 5 of the JSON-RPC 2.0
  Specification).
- **Delivery** (`DeliveryModel`, `DeliveryService`): routing, roles and history of outbound messages.
- **Replay** (`ReplayModel`, `ReplayPaging`, `ReplayReports`, `ReplayLoops`, `ReplayService`): join and
  cursor paging, with cursors that may repeat.
- **Confirmations** (`ConfirmationModel`, `ConfirmationService`): single-use grants on a shared table.

`Common`, `Json` and `Contracts` hold shared datatypes.  SHA-256 and uuid5 are free constructors, that is,
injective functions; the digest of an envelope is taken of its canonical form, in which the order of keys
does not count.  An idempotency key is a text or the text of a uuid5 with a text behind it.  Clocks, `uuid4`, callbacks, adapters and streams are parameters, havoc or scripts.

Where the code differs from what one might assume, the model follows the code:

- `transition` never looks at `cancel_requested` (`LedgerTheorems.PendingCancelDoesNotBlock`).
- `architecture/state-machines.md` lists other states than the table in `ledger.py`; the table is modelled.
- `_ensure_job` does not compare the payload of a job that exists, so callers that disagree on the key of
  one job can get two native tasks: there is one task for each job in every run exactly if the calls that
  may be made agree on the key of each job they delegate, the children of coordinations included
  (`DispatchExact.OneTaskEachExactly`).
- A child key of more than 256 characters is replaced by a uuid5 text, which can be the parent's own key
  (`DispatchFamily.ChildKeyIsParentKey` says exactly when).
- `units` may be negative, and then the greedy selection need not be the greatest: on a given list it is
  exactly if no job refused for capacity could be paid for by jobs behind it
  (`SchedulerExact.GreedyIsGreatestExactly`), and a list is safe in any company and any room exactly if none
  of its jobs has negative units (`SchedulerExact.SafeExactlyWithoutNegativeUnits`).
- `delete` with a number, a boolean or null under it raises `TypeError`, not `PolicyDenied`; when it does is
  in the contract of `PolicyService.PolicyEngine.Evaluate`.
- A browser run cancelled between two steps reports no reviews, whatever it had asked for.
- `issue` with a job id that is no UUID raises after its row is committed
  (`ConfirmationModel.IssueFailsCleanlyExactly`).
- Nothing keeps replay cursors distinct, and any cursors can occur (`ReplayLoops.AnyCursorsOccur`).
  `ReplayLoops.PagingIsCompleteExactly` says when following them is complete, `ReplayLoops.NeverEndsExactly`
  when it never ends; for pages of one, valid cases and a cursor that repeats before the last one are enough
  (`ReplayLoops.RepeatedCursorLoops`), and `ReplayLoops.LoopingRecords` builds such records.
- A call that delegates a later child of a coordination by itself gets a task without a parent; the chain of
  tasks holds in every run exactly if no call does and no key is shared (`DispatchInterleaved.ChainsExactly`).

`dafny verify dfyconfig.toml` checks the whole project.

## Model

| member | source | states |
|---|---|---|
| LedgerTheorems.ProjectionRefinesLog | src/hermes_harness/control_plane/ledger.py:220-264 | in every reachable ledger a job's state column is the last state in its log, the log starts with QUEUED, and consecutive states are allowed transitions or cancel edges |
| LedgerTheorems.LaterLedgerEvolves | src/hermes_harness/control_plane/ledger.py:169-311 | between any two moments of a run the log only grows, rows and identity columns stay, the cancel flag is never cleared, an attached task is never replaced, terminal states absorb |
| LedgerTheorems.CancelledJobsCarryTheFlag | src/hermes_harness/control_plane/ledger.py:239-264 | a CANCELLED job has its cancel flag set, in every reachable ledger |
| LedgerTheorems.ReadBackPrecedesCancelled | src/hermes_harness/control_plane/ledger.py:294-311 | every verification event is immediately followed by the CANCELLED event of the same job |
| LedgerTheorems.AttachmentIsRecordedOnce | src/hermes_harness/control_plane/ledger.py:266-292 | a job's kanban_attached events are none, or exactly one with the id in its row |
| LedgerTheorems.PendingCancelDoesNotBlock | src/hermes_harness/control_plane/ledger.py:220-237 | an atomic cancel of any job that has not ended puts it into VERIFYING with the flag raised; from there exactly the transitions of VERIFYING are open, SUCCEEDED among them, none of them cancels it, and each keeps the flag |
| LedgerTheorems.OrdinaryCancelIsFinal | src/hermes_harness/control_plane/ledger.py:239-264 | after any run an ordinary cancel of a job that has not ended gives exactly its row with CANCELLED and the flag, and one event; whatever follows, the job stays cancelled with that history, and no transition or cancel of it is accepted |
| LedgerTheorems.TransitionsAre | src/hermes_harness/control_plane/ledger.py:47-66 | the table of transitions, pair by pair |
| LedgerTheorems.NoStateIsATrap | src/hermes_harness/control_plane/ledger.py:47-66 | from every state that is no end there is a way to SUCCEEDED, to FAILED_FINAL and to ROLLED_BACK, and from the ends there is none |
| LedgerEffects.CancelExactly | src/hermes_harness/control_plane/ledger.py:239-264 | errors, row, log and other rows after a cancel, ordinary or atomic, in rows and events alone |
| LedgerEffects.FinishExactly | src/hermes_harness/control_plane/ledger.py:294-311 | errors, row, log and other rows after the end of an atomic cancellation, in rows and events alone |
| LedgerTheorems.PathContainsLevels | src/hermes_harness/control_plane/ledger.py:47-66 | a history along the transition table alone contains the happy path up to the level of its last state |
| LedgerTheorems.SuccessWentThroughEveryStage | src/hermes_harness/control_plane/ledger.py:47-66 | a SUCCEEDED job nobody asked to cancel has QUEUED, ADMITTED, RUNNING, VERIFYING, SUCCEEDED as a subsequence of its log |
| LedgerTheorems.LegalPathCounts | src/hermes_harness/control_plane/ledger.py:47-66 | the counts of QUEUED, ADMITTED and FAILED_RETRYABLE along any legal history, sharpened by its last state |
| LedgerTheorems.AttemptsAreBounded | src/hermes_harness/control_plane/ledger.py:169-237 | QUEUED events are at most 1 + FAILED_RETRYABLE events, ADMITTED events at most QUEUED events |
| LedgerTheorems.IdentitiesAreUnique | src/hermes_harness/control_plane/ledger.py:115-119 | job ids and idempotency keys are unique over any run |
| LedgerTheorems.CreationIsIdempotent | src/hermes_harness/control_plane/ledger.py:179-188 | at any later time an envelope with the same key and digest returns the stored job, one with another digest conflicts, and neither changes the ledger |
| LedgerTheorems.ReorderedParametersAreTheSamePayload | src/hermes_harness/control_plane/ledger.py:169-175 | an envelope whose parameters list the same entries in another order has the same digest, so creating it again gives the stored job |
| LedgerTheorems.DigestsAgreeExactly | src/hermes_harness/control_plane/ledger.py:169-175 | two envelopes have one digest if and only if all fields but the parameters are equal and the parameters are the same up to the order of keys at every depth |
| LedgerTheorems.BlankInParts | src/hermes_harness/control_plane/ledger.py:267-268 | which texts are blank task ids |
| Json.CanonicalIsExact | src/hermes_harness/control_plane/ledger.py:170-175 | two documents have one canonical form if and only if they have the same keys, the same lists and the same leaves at every depth |
| Json.KeyOrderIsIrrelevant | src/hermes_harness/control_plane/ledger.py:170-175 | objects with the same entries have the same canonical form, in whatever order they list them |
| LedgerTheorems.FailureChangesNothing | src/hermes_harness/control_plane/ledger.py:182-187 | a transaction that raises leaves the database as it was |
| LedgerTheorems.ParentChainsEnd | src/hermes_harness/control_plane/ledger.py:115-119 | following parent_job_id reaches a root or self-parented job, never repeats a job, and takes at most as many steps as there are older rows |
| LedgerHistory.RunKeeps | src/hermes_harness/control_plane/ledger.py:169-311 | any run keeps the ledger invariant and everything an earlier database holds |
| LedgerHistory.CancelKeeps | src/hermes_harness/control_plane/ledger.py:239-264 | a cancellation keeps table and log consistent |
| LedgerHistory.FinishKeeps | src/hermes_harness/control_plane/ledger.py:294-311 | finishing an atomic cancellation keeps table and log consistent |
| LedgerHistory.ApplyEvolves | src/hermes_harness/control_plane/ledger.py:139-146 | no transaction changes or deletes an event, or takes back a flag, a task or a terminal state |
| LedgerStore.Ledger.GetJob | src/hermes_harness/control_plane/ledger.py:213-218 | the row, or KeyError |
| LedgerStore.Ledger.Events | src/hermes_harness/control_plane/ledger.py:313-327 | what is returned are the log's entries at strictly increasing positions, each is the job's, and no entry of the job is missing |
| LedgerStore.Ledger.CreateJob | src/hermes_harness/control_plane/ledger.py:169-211 | a known key gives the stored job if the digest agrees and a conflict otherwise; a new key with a used id or a missing parent is refused; any other envelope gets exactly one new row, queued, with every field the envelope's, and its QUEUED event; nothing else changes |
| LedgerStore.Ledger.Transition | src/hermes_harness/control_plane/ledger.py:220-237 | exactly when each error is raised; otherwise only the state of that row changes and its event is appended; an error changes nothing |
| LedgerStore.Ledger.RequestCancel | src/hermes_harness/control_plane/ledger.py:239-264 | KeyError exactly if the job is absent, InvalidTransition exactly if it has ended; otherwise the flag is raised and an ordinary cancel sets CANCELLED, an atomic one VERIFYING, with the event unless it was verifying already; nothing else changes |
| LedgerStore.Ledger.AttachKanbanTask | src/hermes_harness/control_plane/ledger.py:266-292 | exactly when each error is raised, a blank id and another task included; otherwise the row holds the task, and its event is appended only if it held none; nothing else changes |
| LedgerStore.Ledger.FinishAtomicAndCancel | src/hermes_harness/control_plane/ledger.py:294-311 | KeyError exactly if the job is absent, InvalidTransition exactly unless it is verifying with the flag raised; otherwise the read-back, then CANCELLED, and nothing else changes |
| LedgerStore.Ledger.AppendEvent | src/hermes_harness/control_plane/ledger.py:344-360 | one event at the end of the log, nothing else |
| LedgerStore.Ledger.SetState | src/hermes_harness/control_plane/ledger.py:362-367 | state column and state event together |
| DispatchSystem.AdvanceCommits | src/hermes_harness/dispatcher.py:285-292 | a step of a call changes the ledger by no more than its one transaction |
| DispatchSystem.SysKeeps | src/hermes_harness/dispatcher.py:102-212 | every interleaving of dispatchers, crashes and other ledger users keeps the ledger invariant and the reports of all calls |
| DispatchSystem.KanbanIdIsWrittenOnce | src/hermes_harness/dispatcher.py:153-164 | under any interleaving, with any adapter, a Kanban id once written never changes and exactly one event records it |
| DispatchSystem.ReportedTaskIsStored | src/hermes_harness/dispatcher.py:151-179 | every task id any call reports is the one in the job's row |
| DispatchBoard.OneNativeTaskPerJob | src/hermes_harness/integrations/hermes_kanban.py:82 | with keys honoured and calls that agree on the key of every job they delegate there is at most one native task per job after any interleaving, crash and retry |
| DispatchBoard.AttachedTaskIsTheJobsTask | src/hermes_harness/dispatcher.py:285-286 | with keys honoured and no key used for two jobs the task a row names is on the board and was requested for that very job |
| DispatchBoard.AttachNeverConflicts | src/hermes_harness/control_plane/ledger.py:277-280 | with keys honoured and agreed on, a pending attach, also after a crash and retry, always succeeds |
| DispatchExact.OneTaskEachExactly | src/hermes_harness/dispatcher.py:192-207 | on a board that honours keys no run leaves two native tasks for one job if and only if the calls that may be made agree on the key of every job they delegate, as parents or as children |
| DispatchExact.AttachesSucceedExactly | src/hermes_harness/control_plane/ledger.py:277-280 | on such a board no run brings a call to a conflicting attach if and only if the calls agree in that way |
| DispatchExact.TasksAreTheJobsExactly | src/hermes_harness/dispatcher.py:285-286 | on such a board every row names a task of its own job, in every run, if and only if no key is used for two jobs |
| DispatchWorkflow.SequentialCallIsARun | src/hermes_harness/dispatcher.py:102-212 | from any state of the system and under any configuration, a call run alone is a run of the interleaved system, the adapter honouring keys in the answers it gives if boards have to |
| DispatchWorkflow.WholeCallIsReachable | src/hermes_harness/dispatcher.py:102-212 | a whole call by any caller, started where some run has led, ends where some run leads, so what holds after every run holds after it |
| DispatchWorkflow.RunKeepsAll | src/hermes_harness/dispatcher.py:102-212 | a whole call only adds to ledger, board and report |
| DispatchWorkflow.DoneJobsAreSkipped | src/hermes_harness/dispatcher.py:192-211 | a call passes over jobs that have their tasks without touching ledger, board or adapter |
| DispatchWorkflow.CoordinationIsOk | src/hermes_harness/dispatcher.py:181-212 | a coordination ends, and reports its children in order with the tasks their rows hold |
| DispatchWorkflow.RetryExtends | src/hermes_harness/dispatcher.py:181-212 | a retry at any later time keeps the same first jobs and tasks and extends them; after a finished run it returns the same steps and changes nothing |
| DispatchChain.CoordinationBuildsAChain | src/hermes_harness/dispatcher.py:190-212 | over any stages with distinct names, step i has the child of stage i, which depends on exactly job i-1, and its native task hands over that child to the stage's assignee with task i-1 as its parent |
| DispatchFamily.DifferentStagesDifferentJobs | src/hermes_harness/dispatcher.py:341 | distinct stage names give distinct child job ids |
| DispatchFamily.DifferentStagesDifferentKeys | src/hermes_harness/dispatcher.py:334-338 | distinct stage names give distinct child keys, whether either is a text or a uuid5 |
| DispatchFamily.ChildKeyIsParentKey | src/hermes_harness/dispatcher.py:334-338 | exactly when a child's key is its parent's: the parent's key is the uuid5 minted for that very stage and the stage name makes the key too long |
| DispatchFamily.ChildKeysAgreeExactly | src/hermes_harness/dispatcher.py:334-338 | two coordinations of one job agree on the key of a child exactly if their own keys are equal or both are too long for the stage |
| DispatchFamily.StagesGiveDistinctWorks | src/hermes_harness/dispatcher.py:190-212 | distinct stage names are enough for the children of a coordination to have pairwise different jobs and keys |
| DispatchFamily.ShippedStagesAreDistinct | src/hermes_harness/dispatcher.py:82-85 | the shipped workflow has distinct stages, and none of its keys is ever the parent's |
| DispatchFamily.ChildrenAreAccepted | src/hermes_harness/control_plane/contracts.py:80-98 | the envelopes of all children of an accepted envelope are accepted, key length included, however long the coordinating key is |
| DispatchInterleaved.InterleavedCoordinationsChain | src/hermes_harness/dispatcher.py:190-212 | however many coordinations are interleaved with crashes and other calls, on a board that honours keys: if no call asks for a later child by itself and none shares its key with another job, a stored task of such a child was requested for it and has the task in the previous child's row as its parent |
| DispatchInterleaved.ChainsExactly | src/hermes_harness/dispatcher.py:190-212 | and these two conditions are exactly what it takes: the chain holds in every run if and only if both do |
| DispatchProgress.CoordinationFinishes | src/hermes_harness/dispatcher.py:181-212 | distinct stages, valid limitations, a willing adapter and a ledger where parent and children are there or can be created are enough for a coordination to return every stage, whatever part of it was done before |
| DispatchProgress.RetryFinishes | src/hermes_harness/dispatcher.py:181-212 | after a coordination that met any answers and failures, a retry with a willing adapter in any later ledger that puts nothing in its way returns every stage, beginning with the steps the first one reported |
| DispatchProgress.RetryAtOnceFinishes | src/hermes_harness/dispatcher.py:181-212 | a first attempt itself puts nothing in the way of a retry, however it ended |
| DispatchOutcomes.EnsurePath | src/hermes_harness/dispatcher.py:288-292 | reading, creating and reading back is one transaction as far as an uninterrupted call can tell |
| DispatcherService.Dispatcher.EnsureJob | src/hermes_harness/dispatcher.py:288-292 | carries the call on from reading its job, or ends it with the ledger's error |
| DispatcherService.Dispatcher.CreateAndAttach | src/hermes_harness/dispatcher.py:195-207 | carries the call on from asking the adapter to the attached task, or ends it with the exact failure |
| DispatcherService.Dispatcher.CoordinateStage | src/hermes_harness/dispatcher.py:190-211 | one round of the loop is the process's way from one child to the next |
| DispatcherService.Dispatcher.Dispatch | src/hermes_harness/dispatcher.py:102-179 | result, ledger, board and adapter calls are those of the process run to its end, for every intent; said in fields, for a job that is there or can be created: with `delegation_profile` absent or null on a specialist intent, and on every direct intent, the answer is direct and only the ledger may change; any other value but the specialist's name, or an intent in neither table, is NoRoute; with the name, the row's task is reported if it has one, a bad handoff is refused, and otherwise the board is asked once, for this job and this assignee, and the answer attached; a coordination that succeeds reports research, then the change that depends on it |
| DispatchOutcomes.DispatchAnswers | src/hermes_harness/dispatcher.py:102-179 | what is said of dispatch in fields holds of the process, whatever the workflow |
| DispatchOutcomes.OnlyDelegationsReachTheBoard | src/hermes_harness/dispatcher.py:118-164 | if a dispatch calls the adapter, changes the board or records an attachment, the parameters name the specialist of the intent and the row had no task |
| DispatchOutcomes.SpecialistsByArea | src/hermes_harness/dispatcher.py:28-60 | which specialist each intent has, which intents are direct, and that every other is the coordination |
| DispatchOutcomes.LimitationsAreMeant | src/hermes_harness/dispatcher.py:295-310 | a handoff is refused exactly unless `limitations` is absent or a list of texts none of which is blank |
| DispatchOutcomes.TasksAreMeant | src/hermes_harness/dispatcher.py:295-325 | the task and its handoff carry each field of the envelope, the assignee and the parent |
| DispatchOutcomes.ChildrenAreMeant | src/hermes_harness/dispatcher.py:327-355 | a child has its own id, key, intent and dependency and every other field of its parent |
| DispatchOutcomes.CoordinationAnswers | src/hermes_harness/dispatcher.py:102-110 | a dispatched coordination that succeeds reports research and the change, which depends on it, with the tasks of their rows |
| DispatcherService.Dispatcher.CoordinateDevelopment | src/hermes_harness/dispatcher.py:181-212 | refuses any other intent untouched; otherwise result, ledger, board and adapter calls are those of the coordination process over any stages |
| DispatcherService.Kanban.CreateTask | src/hermes_harness/integrations/hermes_kanban.py:82 | an adapter call uses up one answer, keeps every task on the board and adds at most the one answered, with the request as its content; failure after creation included |
| RouterService.Traversal.Visit | src/hermes_harness/control_plane/router.py:163-174 | terminates; fails only if there is a cycle; otherwise restores `visiting` and appends the item behind its dependencies, and only what is reachable from it |
| RouterService.Traversal.VisitDependencies | src/hermes_harness/control_plane/router.py:169-171 | after the loop every in-batch dependency is in the order, or there is a cycle |
| RouterService.Traversal.Enter | src/hermes_harness/control_plane/router.py:168 | marking an item shrinks the ids not yet visiting, the termination measure |
| RouterService.Traversal.Leave | src/hermes_harness/control_plane/router.py:172-174 | unmarks the item and appends it with all its dependencies before it |
| RouterService.OrderExcludesCycles | src/hermes_harness/control_plane/router.py:163-178 | a batch with a dependency order has no cycle, self-dependencies included |
| RouterService.IndexById | src/hermes_harness/control_plane/router.py:156-158 | the dictionary is as large as the batch if and only if job ids are distinct |
| RouterService.OrderBatch | src/hermes_harness/control_plane/router.py:155-177 | on distinct ids raises the cycle error if and only if there is a cycle; otherwise a permutation with every in-batch dependency first, pulling nothing forward without need, and the batch itself if it was in order |
| RouterService.OrderedOutputIsOrdered | src/hermes_harness/control_plane/router.py:176-178 | ordering the output again is the identity |
| RouterService.Router.RouteMany | src/hermes_harness/control_plane/router.py:155-178 | exactly when each of the three errors is raised; otherwise one decision for each item in such an order, with the envelope itself, the profile, tool and confirmation configured for its intent, and "none" exactly if no confirmation or that text is configured |
| RouterService.Router.Route | src/hermes_harness/control_plane/router.py:129-139 | refused exactly if the intent is not configured; otherwise profile, tool and confirmation are those configured for it |
| SchedulerModel.SortIsInOrder | src/hermes_harness/scheduler.py:109 | the sort puts no job behind one that (-priority, job_id) places after it |
| SchedulerModel.TextLessIsAnOrder | src/hermes_harness/scheduler.py:109 | the order on job ids is a strict total order |
| SchedulerModel.GreedyIsLexGreatest | src/hermes_harness/scheduler.py:119-134 | with non-negative units the loop's selection is feasible and lexicographically greatest among all feasible ones |
| SchedulerModel.NothingCanBeAdded | src/hermes_harness/scheduler.py:124-134 | no rejected job could be added to the selection |
| SchedulerExact.GreedyIsGreatestExactly | src/hermes_harness/scheduler.py:119-134 | for any units, negative ones included: the loop's selection is the greatest feasible one if and only if no job is refused for capacity that jobs behind it could give back |
| SchedulerExact.SafeExactlyWithoutNegativeUnits | src/hermes_harness/scheduler.py:129-133 | the selection is the greatest whatever other jobs stand around these and whatever the room if and only if none of these has negative units |
| SchedulerPlans.RejectionsAreJustified | src/hermes_harness/scheduler.py:124-130 | a job is rejected if and only if it is not taken, with the limit it violates next to the jobs taken before it |
| SchedulerPlans.TakenAndRejectedAddUp | src/hermes_harness/scheduler.py:121-134 | taken and rejected jobs together are all jobs |
| SchedulerPlans.InputOrderIsIrrelevant | src/hermes_harness/scheduler.py:108-151 | plans for permuted inputs with distinct ids are equal |
| SchedulerPlans.PlanTakesTheGreatest | src/hermes_harness/scheduler.py:109-134 | what a plan takes is the greatest feasible selection of its sorted input within the room it computed |
| SchedulerPlans.PauseAndResumeExclude | src/hermes_harness/scheduler.py:110-150 | with thresholds apart no call both newly pauses and resumes, and in the band between them the paused jobs stay |
| SchedulerPlans.PressureKeepsTrack | src/hermes_harness/scheduler.py:136-141 | under pressure every taken job ends up admitted as critical or paused |
| SchedulerPlans.PausesAreResumedInOrder | src/hermes_harness/scheduler.py:135-150 | over any run the ids newly paused are the ids resumed followed by the ids still paused, in that order |
| SchedulerPlans.PausesBalance | src/hermes_harness/scheduler.py:135-150 | for each id, new pauses are resumes plus one if it is still paused |
| SchedulerPlans.PausedStayDistinct | src/hermes_harness/scheduler.py:137-140 | no id is paused twice at once |
| SchedulerService.AdaptiveScheduler.Plan | src/hermes_harness/scheduler.py:108-151 | decision and new paused dictionary are those of the specification; said in configuration, snapshot and jobs, for some list of taken jobs: it keeps the units less the reserve, the job limit and the one browser, counting what is active; every other job is rejected for the limit it would break next to those before it; under strain the critical ones are admitted and the others paused, and all are resumed exactly when relaxed |
| SchedulerService.AdaptiveScheduler.Admit | src/hermes_harness/scheduler.py:119-134 | the loop admits the greedy selection and records each rejection with its reason; what it admits is within the limits of configuration and snapshot, and on jobs in order each rejection names the limit that would break |
| SchedulerService.AdaptiveScheduler.Pause | src/hermes_harness/scheduler.py:136-140 | pauses what is not critical and not yet paused, in order |
| SchedulerService.AdaptiveScheduler.Resume | src/hermes_harness/scheduler.py:147-150 | resumes everything in pause order and empties the dictionary |
| SchedulerLimits.PlanKeepsTheRules | src/hermes_harness/scheduler.py:108-151 | the limits, rejections, pauses and resumptions of a plan, in configuration, snapshot and jobs alone |
| SchedulerLimits.TakenIsWithinLimits | src/hermes_harness/scheduler.py:113-134 | with non-negative units, whenever anything is taken: its units, those in use and the reserve are within the capacity, jobs within max_jobs, browsers at most one, the active one included |
| SchedulerLimits.RefusalsAreExact | src/hermes_harness/scheduler.py:124-130 | a job is rejected exactly if it is not taken, and then for the first limit it breaks together with the taken jobs that were considered before it |
| SchedulerLimits.ThresholdsAreMeant | src/hermes_harness/scheduler.py:110-146 | pressure and relaxation in bytes, load and thresholds, an unknown maximum counting as full |
| SchedulerLimits.DefaultUnits | src/hermes_harness/scheduler.py:58-62 | the units of a job that names none: three for a browser, two for an engineer, one otherwise |
| SchedulerLimits.OrderIsMeant | src/hermes_harness/scheduler.py:109 | in order means by falling priority and, within one, by rising id |
| SchedulerLimits.TextLessIsMeant | src/hermes_harness/scheduler.py:109 | one id is before another exactly if it is a proper first part of it or has the smaller character where they first differ |
| PolicyModel.AllowedMeans | src/hermes_harness/control_plane/policy.py:93-148 | the nested recursion accepts a job if and only if it keeps the rules, its parameters are clean everywhere, and every nested job at every depth is an object that keeps the rules with its own profile |
| PolicyModel.NestedAddsNothing | src/hermes_harness/control_plane/policy.py:141-148 | recursing into a nested job adds no reason and no objection the walk over the outer parameters had not found |
| PolicyModel.PartsAreClean | src/hermes_harness/control_plane/policy.py:150-167 | cleanness passes to every part of a document, and a part's categories are among the whole's |
| PolicyModel.FirstFaultMeans | src/hermes_harness/control_plane/policy.py:150-167 | the first fault of a walk is that of the part with only faultless parts before it, and there is none exactly if every part is faultless |
| PolicyModel.CleanHasNoFault | src/hermes_harness/control_plane/policy.py:150-167 | a document is clean exactly if the walk over its parts, in the order of the recursion, meets no fault |
| PolicyService.PolicyEngine.InspectOperation | src/hermes_harness/control_plane/policy.py:150-167 | raises exactly the error of the first faulty part in walk order, and nothing exactly if no object in the tree names something protected under `delete`, alone or in a list, or has a number, boolean or null there; then it adds exactly the critical categories that objects in the tree list |
| PolicyService.PolicyEngine.EvaluateJob | src/hermes_harness/control_plane/policy.py:93-148 | accepts exactly the allowed jobs and leaves exactly the categories of the outer parameters in the shared set; raises TypeError exactly if the job keeps the rules and the first fault of its parameters is a malformed delete |
| PolicyService.PolicyEngine.EvaluateNested | src/hermes_harness/control_plane/policy.py:142-148 | the loop over nested jobs leaves the shared set as it found it and never raises TypeError |
| PolicyService.PolicyEngine.Evaluate | src/hermes_harness/control_plane/policy.py:55-91 | succeeds if and only if no reason for refusal speaks against any job at any depth and no object in the root parameters names something protected under `delete`, alone or in a list, or has a number, boolean or null there; the reasons are exactly the critical categories listed anywhere in them, and confirmation is required exactly if there are any; TypeError is raised if and only if the payload itself is not refused and the first fault of its parameters is such a malformed delete |
| PolicyMeaning.DeletionsAreMeant | src/hermes_harness/control_plane/policy.py:155-162 | an object deletes protected data exactly if `delete` holds a protected name or a list with one, and is malformed exactly with a number, boolean or null there |
| PolicyMeaning.CategoriesAreMeant | src/hermes_harness/control_plane/policy.py:151-154 | a category is a reason of an object exactly if it is critical and in the list under `change_categories` |
| PolicyMeaning.RulesAreMeant | src/hermes_harness/control_plane/policy.py:93-139 | a job keeps the rules exactly if none of the named refusals applies to it: model policy, provider, profile, model, effort, Sol and 900k models |
| PolicyMeaning.ProfileIsMeant | src/hermes_harness/control_plane/policy.py:108-113 | which profile a job is judged as |
| PolicyMeaning.NestingIsMeant | src/hermes_harness/control_plane/policy.py:141-148 | the nested jobs are those reached through `nested_jobs` of the parameters at any depth |
| PolicyMeaning.ContainsIsMeant | src/hermes_harness/control_plane/policy.py:118-132 | a model counts as Sol or 900k exactly if the word stands somewhere in its folded name |
| PolicyMeaning.TruthIsMeant | src/hermes_harness/control_plane/policy.py:109-138 | which values Python takes for false |
| PolicyMeaning.AcceptanceIsMeant | src/hermes_harness/control_plane/policy.py:55-91 | a payload is accepted exactly if it and every job below it are refused for nothing and its parameters have no fault |
| PolicyMeaning.ReasonsAreMeant | src/hermes_harness/control_plane/policy.py:151-154 | the reasons are the critical categories that some object in the parameters lists |
| PolicyMeaning.RaisingIsMeant | src/hermes_harness/control_plane/policy.py:155-162 | TypeError comes exactly if the payload is not refused and the first faulty object of the walk is malformed |
| BrowserService.BrowserRun.Prepare | src/hermes_harness/browser_operator.py:128-176 | goes on only from a page not started from before, with enough confidence and an accepted review where one is needed |
| BrowserService.BrowserRun.Carry | src/hermes_harness/browser_operator.py:177-193 | screenshot before the act, verification after it, a retry only of a reversible action |
| BrowserService.BrowserRun.Retry | src/hermes_harness/browser_operator.py:194-212 | exactly one more act, under the equivalent key, verified against the page before it |
| BrowserService.BrowserRun.Check | src/hermes_harness/browser_operator.py:181-184 | the adapter verifies exactly the pages seen before and after the act |
| BrowserService.BrowserRun.TakeStep | src/hermes_harness/browser_operator.py:128-212 | a step ends verified or with the reason its trace shows |
| BrowserService.BrowserRun.TakeSteps | src/hermes_harness/browser_operator.py:127-215 | completed steps come in order, each verified, from pairwise different start pages |
| BrowserService.BrowserRun.Run | src/hermes_harness/browser_operator.py:101-246 | verdict, stale references and review count as the trace says, and one delete attempt for each screenshot at the very end, on every exit and for every adapter |
| BrowserTheorems.RunsActSparingly | src/hermes_harness/browser_operator.py:179-212 | no run acts more often than once per step plus once per reversible step |
| BrowserTheorems.EveryActIsCleared | src/hermes_harness/browser_operator.py:128-212 | on every exit no step acts more than once, or twice if reversible, first the planned action and then the same name and risk under the equivalent key; before each act stand a cancel question answered no if there is a callback, the step's start page, sufficient confidence, an accepted review of that page if critical or conflicting, and a screenshot; reviews are asked for only where needed, and at most one |
| BrowserTheorems.SuccessActsOutEveryStep | src/hermes_harness/browser_operator.py:127-215 | SUCCEEDED means every step acted, with confidence, was verified last, and started from a page that differs from that of every earlier step in more than timestamp and screenshot |
| BrowserTheorems.CleanupIsExact | src/hermes_harness/browser_operator.py:226-236 | on every exit the deletes are exactly the screenshots taken, in order, and none comes before an act |
| BrowserTheorems.StopsExactly | src/hermes_harness/browser_operator.py:126-246 | a run fails exactly if some call raised and is cancelled exactly if some cancel question was answered yes, and that call is the last before the cleanup |
| BrowserTheorems.FingerprintsAgreeExactly | src/hermes_harness/browser_operator.py:82-85 | two pages count as one exactly if they differ at most in timestamp and screenshot |
| BrowserTheorems.StaleRefsAreExact | src/hermes_harness/browser_operator.py:179-202 | a reference is reported exactly if it was on the page seen last when some action succeeded |
| BrowserTheorems.LastPageIsExact | src/hermes_harness/browser_operator.py:133-204 | the page seen last is that of the last observation that succeeded |
| BrowserTheorems.ReviewsAreCounted | src/hermes_harness/browser_operator.py:167-168 | the reviews counted are the calls of the review callback |
| BrowserTheorems.ShotsAreExact | src/hermes_harness/browser_operator.py:177-178 | the screenshots kept for the cleanup are those taken |
| JsonRpcModel.EventsRoundTrip | src/hermes_harness/observability_review.py:130-166 | decoding gives well-formed events only, and gives back every well-formed event from its frame |
| JsonRpcModel.FramesAreMeant | src/hermes_harness/observability_review.py:130-166 | which frames are no events, which are exactly the given event, and which are invalid, in the fields of the frame |
| JsonRpcModel.GlobalEventsAre | src/hermes_harness/observability_review.py:35-48 | the kinds of events that belong to no session |
| JsonRpcModel.LinesAreMeant | src/hermes_harness/observability_review.py:120-128 | a line is a transport failure exactly if it cannot be read, and an invalid frame exactly if it does not name version 2.0; a frame taken for a reply is the one that was read |
| JsonRpcModel.CompletionsAreUnique | src/hermes_harness/observability_review.py:161-166 | over any run on any stream the completed sessions are those with a completion notification, and each has exactly one if and only if no call reported a second |
| JsonRpcModel.CalmRunsCompleteOnce | src/hermes_harness/observability_review.py:130-206 | while no call has raised every completed session has exactly one completion |
| JsonRpcModel.DecimalIsInjective | src/hermes_harness/observability_review.py:172 | different request numbers have different texts |
| JsonRpcModel.DecimalIsMeant | src/hermes_harness/observability_review.py:172 | the text of a number has the value of the number |
| JsonRpcModel.RequestIdsAreDistinct | src/hermes_harness/observability_review.py:171-173 | no two requests of a connection share an id |
| JsonRpcModel.RequestReturnsItsOwnAnswer | src/hermes_harness/observability_review.py:168-191 | a request returns a result if and only if the stream brings events and then its own answer; exactly those events are appended, in order, and nothing behind the answer is read |
| JsonRpcModel.ResponsesAreMeant | src/hermes_harness/observability_review.py:184-191 | a response is accepted exactly if it names the id, no error and an object as its result, and which error each other one gives |
| JsonRpcModel.RequestFailsFor | src/hermes_harness/observability_review.py:180-191 | a request that was sent and fails does so at the first read that is no new event, and for the reason found there |
| JsonRpcModel.StaleAnswersAreRefused | src/hermes_harness/observability_review.py:184-185 | the answer to an earlier request is never taken for that of a later one |
| JsonRpcModel.WaitReturnsTheOnlyCompletion | src/hermes_harness/observability_review.py:193-206 | a wait that returns gives the payload of the session's only completion, which is the last notification |
| JsonRpcModel.WaitReturnsExactly | src/hermes_harness/observability_review.py:193-206 | a wait for an open session returns a payload if and only if the stream brings new events only, up to the first that completes the session with that payload |
| JsonRpcModel.WaitFailsFor | src/hermes_harness/observability_review.py:193-206 | a wait that fails does so at the first read that is no new event, and for the reason found there: a response nobody waits for, a bad line, the end, or a second completion |
| JsonRpcService.JsonRpcStdioClient.ReadFrame | src/hermes_harness/observability_review.py:107-128 | one line off the stream; it succeeds exactly on a readable object that names version 2.0, and gives that object |
| JsonRpcService.JsonRpcStdioClient.RecordEvent | src/hermes_harness/observability_review.py:130-166 | the new buffers and the outcome, a second completion being buffered before it raises |
| JsonRpcService.JsonRpcStdioClient.Request | src/hermes_harness/observability_review.py:168-191 | outcome and whole new state of request; a process that has ended changes nothing, and a request that cannot be written only uses up its number |
| JsonRpcService.JsonRpcStdioClient.WaitForMessageComplete | src/hermes_harness/observability_review.py:193-206 | outcome and whole new state of wait_for_message_complete; an empty or completed session is refused and changes nothing |
| DeliveryModel.RouteInParts | src/hermes_harness/delivery.py:75-102 | routing xs + ys is routing xs and then ys, in messages and in state |
| DeliveryModel.RoutedEventsStaySilent | src/hermes_harness/delivery.py:78-81 | whatever happens after a batch was routed, routing its events again gives nothing and changes nothing |
| DeliveryModel.DuplicatesDoNotMatter | src/hermes_harness/delivery.py:78-81 | routing a batch is routing the first event for each key not seen before |
| DeliveryModel.RolesAlternate | src/hermes_harness/delivery.py:67-73 | over all calls the n-th message built for a target is the assistant's if and only if n is even |
| DeliveryModel.StatusRepeatsTheLastMessage | src/hermes_harness/delivery.py:104-109 | a status answer repeats the text routed last for the job, delivered or not, under its short id |
| DeliveryModel.ConnectedMessagesAreReturned | src/hermes_harness/delivery.py:87-102 | route returns exactly the messages it built whose target was connected, in order |
| DeliveryModel.KeysAgreeExactly | src/hermes_harness/delivery.py:78-80 | events with ids go by them; of two others, which agree in two of job, type and text, the keys are equal exactly if the third is |
| DeliveryModel.RoutedEventIsSent | src/hermes_harness/delivery.py:81-102 | an event with a new key is sent to its origin, and to the extra target if it is critical or blocked and from elsewhere, in that order, each as its text says; returned are those whose target is not disconnected; other jobs keep their history |
| DeliveryModel.DifferentTextsAreBothSent | src/hermes_harness/delivery.py:78-102 | two new events without ids that differ in their text are both sent |
| DeliveryService.DeliveryRouter.Route | src/hermes_harness/delivery.py:75-102 | messages and whole new state of route |
| DeliveryService.DeliveryRouter.SendToTargets | src/hermes_harness/delivery.py:82-101 | messages and state after sending one event to its targets, the extra one included |
| DeliveryService.DeliveryRouter.BuildMessage | src/hermes_harness/delivery.py:67-73 | the message and the advanced turn of its target |
| DeliveryService.DeliveryRouter.Status | src/hermes_harness/delivery.py:104-109 | the answer and the advanced turn, history untouched |
| DeliveryService.DeliveryRouter.SetConnected | src/hermes_harness/delivery.py:60-61 | only the connection of the target changes |
| ReplayModel.JoinIsExact | scripts/replay_routing.py:259-282 | the join succeeds if and only if ids are non-empty and unambiguous and every expectation agrees with an event; each expectation then gets, in order, the only event with its id |
| ReplayModel.IndexEventsIndexes | scripts/replay_routing.py:259-264 | indexing succeeds exactly on unambiguous events and holds exactly them |
| ReplayPaging.PagingIsComplete | scripts/replay_routing.py:284-331 | with distinct cursors and any limit of at least one, following next_cursor ends and collects exactly what the replay without a limit gives, errors included |
| ReplayLoops.PagingIsCompleteExactly | scripts/replay_routing.py:284-331 | for cursors that repeat and cases that may be invalid: following gives what the unpaged replay gives if and only if the records cannot be joined, or all cases are valid and no page but the last ends on an earlier cursor, or some case is invalid and no two pages begin at the same place |
| ReplayLoops.NeverEndsExactly | scripts/replay_routing.py:284-331 | for any limit: following never ends if and only if two of the first pages begin at the same place, which shows within one call more than there are records |
| ReplayLoops.AnyCursorsOccur | scripts/replay_routing.py:259-289 | every list of non-empty cursors is that of records that can be joined, repeated ones included, whatever other fields the records have |
| ReplayLoops.RepeatedCursorLoops | scripts/replay_routing.py:285-289 | for every judge and all records that can be joined: if all cases are valid and a cursor before the last occurs earlier, following pages of one never ends |
| ReplayLoops.PagesOfOneNeverEndExactly | scripts/replay_routing.py:284-331 | on valid cases following pages of one never ends if and only if a cursor before the last occurs earlier |
| ReplayLoops.LoopingRecords | scripts/replay_routing.py:259-309 | for any cursors with such a repetition and any judge that accepts one record for each: records with distinct ids, all valid, over which following pages of one never ends |
| ReplayPaging.JudgedInOrder | scripts/replay_routing.py:293-309 | one case for each pair, in expectation order |
| ReplayReports.ReportIsExact | scripts/replay_routing.py:256-331 | a limit below one is refused first, then records that cannot be joined, then a cursor that does not occur; a report covers exactly the pairs behind the first occurrence of the cursor up to the limit or the end, and its cursor and has_more say where it ends |
| ReplayReports.ViolationsInOrder | scripts/replay_routing.py:291-301 | the violations of each case stand in the report behind those of the cases before it |
| ReplayReports.JudgeOne | scripts/replay_routing.py:293-309 | one case gives its own outcome and violations, or fails the replay |
| ReplayReports.JoinFailsFor | scripts/replay_routing.py:259-282 | a join that fails names what is wrong with the first bad event, or else with the first expectation that cannot be joined |
| ReplayService.IndexById | scripts/replay_routing.py:259-264 | the loop builds the index or stops at the first bad event |
| ReplayService.MatchExpectations | scripts/replay_routing.py:266-282 | the loop pairs every expectation or stops at the first that cannot be paired |
| ReplayService.JudgeCases | scripts/replay_routing.py:293-309 | the loop collects cases and violations or stops at the first invalid case |
| ReplayService.Replay | scripts/replay_routing.py:245-331 | the report or the first error, for every cursor and limit |
| ConfirmationModel.ConsumeSucceedsExactly | src/hermes_harness/control_plane/confirmations.py:145-179 | consume succeeds if and only if the grant is there, unused and unexpired, the expected digest is its own and the operation is the issued one; a failed consume changes nothing |
| ConfirmationModel.IssueFailsCleanlyExactly | src/hermes_harness/control_plane/confirmations.py:98-135 | exactly which failing issues leave the table alone |
| ConfirmationModel.GrantsEvolve | src/hermes_harness/control_plane/confirmations.py:158-179 | over any interleaving no grant is lost and a used one never changes |
| ConfirmationModel.ConsumedAtMostOnce | src/hermes_harness/control_plane/confirmations.py:158-179 | under any interleaving of managers no grant is consumed twice |
| ConfirmationModel.UsedExactlyIfConsumed | src/hermes_harness/control_plane/confirmations.py:170-179 | used_at is set exactly by the call that consumed the grant, with its time |
| ConfirmationModel.ConsumedIsWhatWasIssued | src/hermes_harness/control_plane/confirmations.py:91-179 | a successful consume follows the one issue of that grant within thirty minutes and for the same operation |
| ConfirmationModel.UsedBeforeExpiry | src/hermes_harness/control_plane/confirmations.py:161-164 | used_at is earlier than expires_at, thirty minutes after issue |
| ConfirmationService.ConfirmationManager.Issue | src/hermes_harness/control_plane/confirmations.py:91-135 | exactly when each error is raised; a grant for the digest and the operation that expires thirty minutes later is in the table exactly after success and after a job id that is no UUID; the preview shows that digest and expiry |
| ConfirmationService.ConfirmationManager.Consume | src/hermes_harness/control_plane/confirmations.py:137-179 | exactly when each error is raised, in the order of the checks; success sets used_at of that grant alone, and a failure changes nothing |

## Left out

- SQLite itself: WAL, pragmas, file paths, busy timeouts, timestamps; tables are maps and sequences, each transaction one atomic step.
- `get_job` after the commit of `create_job`, `transition` and the others reads again in its own connection; the ledger functions return the committed row, except in the dispatcher, where the read back after a create is a step of its own.
- The foreign key of `confirmations.job_id` that holds when ledger and confirmations share one database file.
- SHA-256, uuid5 and JSON text: injective free constructors over documents up to key order. A key that begins with a uuid's text, 36 characters, is modelled as that uuid and the rest; JSON integers and equal floats are one number.
- Observability emission, `sanitize`, `_safe` and other regular-expression and URL processing: side effects that do not feed back into the modelled state.
- `Dispatcher.heartbeat`, `checkpoint`, `cancel`, `need_input`, `reclaim_stale`, `translate_event` and the `_sequences` and `_last_activity` dictionaries: counters and comparisons that would add easy members only.
- `HermesKanbanCLI` argv building and read-back: the board is an abstract store, honouring idempotency keys where a theorem says so.
- Python's recursion limit: a chain of about a thousand in-batch dependencies, or JSON nested that deep, raises RecursionError in `visit` and `_inspect_operation`, where the model gives an order or a verdict.
- The screening of envelopes for secret-shaped field names and text; `Contracts.Accepted` has the other constraints.
- YAML loading and readiness of router and policies, and pydantic validation: configuration and envelopes are well typed.
- Memory ratios and loads are reals, so floating-point rounding is not modelled; `admission_memory_ratio` and `admission_load` are stored but never read by `plan`, so they are left out.
- The decision's `reasons` are a set; the source sorts it into a tuple.
- The browser's `logs` and the unlinking of screenshot files; the environment records each delete attempt.
- Other users of the ledger that attach tasks: in the interleaved system they create, move and cancel jobs, and only dispatchers attach.
- `hmac.compare_digest` raising on text that is not ASCII; a foreign digest is a mismatch.
- Timeouts of the JSON-RPC client are read failures at arbitrary places in the stream; starting and closing the process and `execute_read_only` are not modelled.
- Reading JSONL files and judging one replay case (routing decision, violations) are a parameter; metrics and the log file are left out.
- `message_router.py`, `ChangePipeline`, `PhasePolicy`, `KillSwitch`, `find_contradictions`, the MCP bridge and the runner: tables, wrappers or easy members.
