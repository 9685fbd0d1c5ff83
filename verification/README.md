# Strongclaw operations: journal, devflow, policy, pins, env files and sidecars, in Dafny

A model of the parts of `clawops` that keep durable state or rewrite files, and proofs of what they keep.

- **Operation journal and leases.** `Leases` and `Operations` give the two tables as maps and every journal method as one
  step that changes nothing when it is refused; `OpJournal` is the journal object with its methods, tied to those steps by
  ghost histories. The lease theorems are about whole histories with a non-decreasing clock. The operation theorems are
  about any sequence of calls.
- **Dispatch.** `Dispatch` is a machine in which any number of workers make the journal calls of a worker-dispatch step, may
  stop between any two of them, and others may call the journal in between. `WorkerDispatch` is the step written against
  the journal object, and its ghost events show that it is a run of one worker of that machine. `Identities` and
  `AcpRunner` are the keys and the lock, lease, run, release bracket of a session.
- **Devflow.** `DevflowState` holds the rows and transactions of a run, `DevflowPlan` and `GitGates` the compiled stage
  workflow and its gates, and `DevflowMachine` the executor as steps with a crash, a cancel or a resume possible between any
  two. `DevflowHistory` states what every history keeps, which runs resume accepts and which cancels hold.
  `DevflowJournal` joins this machine with the dispatch machine: a joint history is a history of both, every stage goes
  through its own operation in the journal, and so it decides which interrupted runs can still succeed.
  `DevflowExecutor` is the store updated in place and the executor's loop, proved to be a run of the machine. `Workspaces`
  is the directory synchronization between stages.
- **Engines.** `DeepMerge` over `Documents` is the overlay merge, `PolicyEngine` the policy evaluation, `Pins`, `TextLines` and
  `SupplyChain` the pinned-version parser, printer and file rewriter, `EnvFiles` the KEY=VALUE files, and `Sidecars` the
  bring-up against an environment that decides every exit code, status reading and delay.

`Wrappers` and `Text` are shared helpers. `dafny verify dfyconfig.toml` checks everything.

## What the proofs bring out

- Two overlapping dispatches of a contract without approval can both call `run_session`, because running to running is
  accepted; run one after another they never do. A contract that needs approval runs at most once under any overlap.
- A resumed devflow stage is dispatched again under the terms it finds: its session identity holds the workspace's branch
  and its contract the hash of the prompt file. As long as these are the same, a stage whose worker failed, raised or was
  cut short cannot be run again: the operation is already running, succeeded or failed, and the marking call is refused
  every time. The same holds when the worker succeeded and a later gate failed, and for an approval-required stage whose
  operation is already approved. `platform/docs/DEVFLOW.md` (line 38) offers resume for failed runs; under unchanged terms
  such a run can succeed only if its last stage ended before its operation was marked running, or before it was approved
  if it needs approval.
- If a worker makes a branch in its workspace, or the prompt file is edited, the resumed stage gets a new operation and its
  session runs a second time. A stage runs at most once over every history exactly when its terms do not change.
- An approval given through the review calls cannot be picked up by a later approval-required dispatch: its marking call is
  refused for good. `platform/docs/POLICY_ENGINE_AND_WRAPPERS.md` describes such a pick-up for wrapper operations; for
  workflow dispatches the code does not do it.
- An `ingest_review` with a blank reviewer replaces the stamp of an approved operation by a blank one.
- A worker that raises leaves its lease active until somebody releases it or, after its expiry, sweeps it. A worker that outlives its lease can be joined by another
  session on the same lock; releasing the expired lease then leaves the other one active.
- A crash of the executor between two stages, before the first or after the last leaves a run that can never succeed:
  resume finds no incomplete stage. `platform/docs/DEVFLOW.md` (line 82) promises a restart from the first incomplete stage;
  the code knows only stages that have a row.
- A cancel holds exactly when no executor or resume is under way; otherwise the next transaction undoes it.
- A resumed mutable stage gets its own workspace as source. Unless it is the primary stage of a git repository, preparing it
  clears that workspace first and so wipes the unfinished work.
- An explicit allow rule grants nothing: without it every decision is the same.
- A refreshed pin keeps only a newline behind it; any other line end is dropped and the next line is glued on.
- One status reading of the sidecar bring-up is not guarded, so it can raise although wait failures are suppressed.

## Model

| member | source | states |
|---|---|---|
| OpJournal.OperationJournal.AcquireLease | src/clawops/op_journal.py:372-451 | sweeps expired rows of the lock, refuses on a still active one, inserts; a refused call leaves the table as it was |
| OpJournal.OperationJournal.ReleaseLease | src/clawops/op_journal.py:453-475 | writes the release columns of any existing row, again if called again; unknown leases are refused |
| Leases.HoldsNeverOverlap | src/clawops/op_journal.py:372-475 | over any history with a non-decreasing clock, two different leases never hold one lock at the same time, each holding from its grant to the earlier of first release and expiry |
| Leases.AtMostOneActiveRow | src/clawops/op_journal.py:89-93 | in every reachable table a row is active exactly when released_at is null, and no lock has two active rows |
| Leases.AcquireGrantedIffFree | src/clawops/op_journal.py:388-451 | with a positive ttl and a fresh id, acquire is granted exactly when no lease of the whole history holds the lock at that moment |
| Leases.GrantedIffFree | src/clawops/op_journal.py:388-451 | the same off the calls alone: granted exactly with a positive ttl and a new id when no earlier grant of the lock is within the ttl of its own call and not given back |
| Leases.HoldsByCalls | src/clawops/op_journal.py:372-475 | a lease holds from its acquire call to the ttl of that call or its first release, and its row says who took it, for what and how it ended, as the calls do |
| Leases.Handover | src/clawops/op_journal.py:394-475 | a grant makes the new lease the only active one of its lock, a refusal changes no row, and releasing a stale lease changes no lock's active lease |
| Leases.TakenOver | src/clawops/op_journal.py:372-475 | after any calls, whoever was granted the lock last and still has it is alone on it; with nobody, the holder from before is still active exactly when no accepted call released it or was granted the lock |
| Leases.HeldUntilExpiry | src/clawops/op_journal.py:394-451 | a lease that is not released is granted to nobody else before it expires |
| Leases.HistoryInvariant | src/clawops/op_journal.py:372-475 | the invariant behind these, kept by every acquire and release |
| OpJournal.OperationJournal.Begin | src/clawops/op_journal.py:488-572 | answers the row that already has the key, otherwise inserts a proposed row |
| OpJournal.OperationJournal.Transition | src/clawops/op_journal.py:582-749 | the validated move, the attempt counter and every column that was given, the request, decision and result columns included; nothing when the move is refused |
| OpJournal.OperationJournal.Approve | src/clawops/op_journal.py:751-805 | stamps and approves; an approval-required row has to be pending |
| OpJournal.OperationJournal.Reject | src/clawops/op_journal.py:817-862 | rejects and fills the review columns |
| OpJournal.OperationJournal.Delegate | src/clawops/op_journal.py:864-913 | fills the review columns of a pending row and keeps its status |
| OpJournal.OperationJournal.IngestReview | src/clawops/op_journal.py:915-968 | allow approves and stamps, deny rejects, any other decision is refused first |
| Operations.RowAfterConsistent | src/clawops/op_journal.py:574-968 | every accepted call follows an allowed edge and keeps the stamp pair, the stamp's statuses and the attempt rule |
| Operations.BeginLeaves | src/clawops/op_journal.py:499-572 | a new row holds the key, the trust zone and the clock of its call and nothing else |
| Operations.TransitionAcceptedIff | src/clawops/op_journal.py:574-622 | for each status the ones it can be set from: a transition is accepted exactly from these |
| Operations.ApprovalAcceptedIff | src/clawops/op_journal.py:751-805 | approve and allow are accepted exactly on pending rows, or on proposed and approved ones unless approve meets the approval flag |
| Operations.RejectionAcceptedIff | src/clawops/op_journal.py:817-968 | reject and deny are accepted exactly on proposed, pending and rejected rows |
| Operations.DelegationAcceptedIff | src/clawops/op_journal.py:864-913 | delegate is accepted exactly on pending rows, which stay pending |
| Operations.ReviewRecorded | src/clawops/op_journal.py:751-968 | every accepted review call leaves who, when, note, artifact and payload, and keeps a mode that is there |
| Operations.TransitionReadsBack | src/clawops/op_journal.py:582-749 | a transition given all columns of another row makes them the row's own, and one given none keeps every column |
| Operations.OperationStep | src/clawops/op_journal.py:185-194 | no call deletes an operation, leaves a terminal status, clears a stamp or touches another row |
| Operations.OperationPersists | src/clawops/op_journal.py:488-968 | over any continuation an operation stays, its status only advances, a terminal status is final and a stamp remains |
| Operations.BeginIsIdempotent | src/clawops/op_journal.py:499-517 | once a key has a row, begin answers that row in every later state and writes nothing |
| Operations.StatusHistory | src/clawops/op_journal.py:574-622 | at most four status changes in any history; attempt is 1 if the operation was ever running, otherwise 0 |
| Operations.StampIsLastReviewer | src/clawops/op_journal.py:751-968 | approved_by is exactly the reviewer of the last successful approve or allow |
| Dispatch.SessionRunsAtMostOnce | src/clawops/workflow_runner.py:650-705 | when dispatches run one after another, each free to stop anywhere and with any calls by others in between, run_session is called at most once per contract |
| Dispatch.ApprovedRunsAtMostOnce | src/clawops/op_journal.py:751-805 | under any overlap of dispatches, with stops and calls by others that leave the approval flag alone, a contract that needs approval is run at most once: only the first approval finds its operation pending |
| Dispatch.OverlapSafeIff | src/clawops/workflow_runner.py:650-705 | run_session is called at most once in every history with overlaps exactly when the contract needs approval |
| Dispatch.SessionsBoundedByRepeats | src/clawops/workflow_runner.py:650-705 | with any overlap, sessions exceed one by at most the passes of the gate by an already running row |
| Dispatch.OverlappingDispatchesRunTwice | src/clawops/workflow_runner.py:698-705 | for a contract without approval, a history of two overlapping dispatches that calls run_session twice |
| Dispatch.BothRun | src/clawops/op_journal.py:574-577 | from any state with two workers before the gate of an approved row both reach run_session |
| Dispatch.SessionIsApproved | src/clawops/workflow_runner.py:661-705 | an approval-required dispatch reaches run_session only on a stamped row; the stamp is the last approver's name, and not blank as long as nobody else stamps a blank one |
| Dispatch.ReviewedElsewhereNeverRuns | src/clawops/workflow_runner.py:661-680 | once an approval-required operation is past review with no worker beyond marking, no dispatch ever runs it |
| Dispatch.BlankStampAtSession | src/clawops/op_journal.py:934-964 | an allow with a blank reviewer between approval and gate lets an approval-required worker reach run_session under a blank stamp |
| Dispatch.BlankStampReached | src/clawops/workflow_runner.py:650-705 | a history from the empty journal that does so: a named approval, the blank allow, and the worker stands before run_session |
| WorkerDispatch.DispatchStep | src/clawops/workflow_runner.py:649-755 | one whole dispatch on the journal is a run of one worker of the machine; the session runs exactly when the contract is new or can still be marked and, with approval, the packet is written and an approver named; ok exactly when it ran and succeeded; the row holds contract, decision, approver and result |
| WorkerDispatch.DispatchPendingApproval | src/clawops/approval_dispatch.py:103-140 | registers the packet exactly when it could be written for a proposed or pending operation, under the path and review status found there or the default ones; a failure ends the dispatch |
| WorkerDispatch.MarkOperation | src/clawops/workflow_runner.py:650-696 | begin and mark, accepted exactly when the contract is new or can still be marked, up to the gate or the packet |
| WorkerDispatch.ReviewOperation | src/clawops/workflow_runner.py:661-687 | past a written packet exactly a non-blank approver of the step itself goes on, and its name is the stamp |
| WorkerDispatch.RunOperation | src/clawops/workflow_runner.py:698-755 | the gate lets approved and running rows pass; ok exactly when the session ran and succeeded, and its result is recorded; a raising session leaves the row running |
| WorkerDispatch.ApprovalGate | src/clawops/workflow_runner.py:1083-1118 | approves a pending operation when the step names somebody, writes nothing otherwise, and passes exactly when the status is the expected one; an unknown operation raises |
| Identities.ValidateToken | src/clawops/orchestration.py:68-75 | accepts exactly the non-empty texts of the allowed characters and returns them unchanged |
| Identities.IdentityInjective | src/clawops/orchestration.py:307-344 | accepted token tuples have equal identities exactly when they agree field by field |
| AcpRunner.SpecsShareKeys | src/clawops/acp_runner.py:63-83 | two sessions share a lease key, or a session identity, exactly when the five fields of that key agree |
| AcpRunner.RunSession | src/clawops/acp_runner.py:394-567 | with any lease calls by others while the worker runs: granted exactly when every check passes and the lock is free; afterwards another lease granted meanwhile and not released is alone on the lock; with none, the lock is free after a finished session, and after a raising worker exactly when its lease was released or swept, otherwise that lease is active; a refusal changes no lease |
| AcpRunner.SessionWithinTtl | src/clawops/acp_runner.py:394-567 | a session that ends before its lease expires, with nobody else releasing it, is alone on its lock throughout and leaves it free |
| GitGates.CaptureSnapshot | src/clawops/git_gates.py:103-120 | one hash per tracked path, a marker for a deleted one, nothing outside git |
| GitGates.CheckTrackedMutations | src/clawops/git_gates.py:134-153 | the mutated paths are exactly the differing ones, sorted without repeats; ok exactly when both are git checkouts with equal hashes |
| DevflowPlan.RunSteps | src/clawops/workflow_runner.py:1120-1153 | results follow the steps in order; with stop_on_failure the first failure is the last result; no failure exactly when every step passes |
| DevflowPlan.AllOkIff | src/clawops/devflow.py:199-250 | a stage has no failure exactly when its session succeeded, every required artifact is there, and a protected one has two git checkouts with equal files |
| DevflowPlan.WorkComesBeforeGates | src/clawops/devflow.py:185-250 | the stage is recorded first and the manifest written last, no step comes twice, and the artifacts are looked for behind the worker |
| DevflowPlan.ProtectedStageUnchanged | src/clawops/devflow.py:199-242 | a protected stage without failure took its snapshot before its worker, and the tracked files were the same at its gate |
| DevflowState.Position | src/clawops/devflow_state.py:255-258 | finds the first row of that stage name, if there is one |
| DevflowState.NextIncompleteIsFirst | src/clawops/devflow_state.py:116-123 | next_incomplete_stage is the first row that is not terminal or failed, and none exactly when there is none |
| DevflowState.EventsAlwaysAgree | src/clawops/devflow_state.py:239-405 | over any trace of transactions a stage row has retry_count plus one started events and retry_count retried events; a stage without row has neither |
| DevflowState.EventsTellStatuses | src/clawops/devflow_state.py:239-568 | over any trace of transactions the events alone tell every stage's status, and the run's status and current stage unless the run has succeeded |
| DevflowState.ColumnsTold | src/clawops/devflow_state.py:239-405 | index and role are those of a stage's first start, workspace, budget and clock those of its last, each path the one given last, and the resume token the one issued since the last start |
| DevflowMachine.StageSourceRoot | src/clawops/devflow.py:258-282 | the source's loop computes the source root function |
| DevflowMachine.ResumeSource | src/clawops/devflow.py:258-282 | resume computes for stage i the root an uninterrupted run carries into i, except that an unfinished mutable stage gets its own recorded workspace |
| DevflowMachine.StepKeeps | src/clawops/devflow.py:285-460 | every transaction, crash, cancel and resume keeps the invariant on rows, executor position and gates |
| DevflowHistory.RowsArePrefixOfPlan | src/clawops/devflow.py:303-460 | in every history the rows are a prefix of the plan, with its names, roles, budgets and workspaces and all but the last succeeded, and the run is marked succeeded only when every stage has succeeded |
| DevflowHistory.SourceAlongHistory | src/clawops/devflow.py:303-390 | whenever a stage is prepared or worked on, its source root is the one an uninterrupted run carries, or its own workspace when it is mutable and has a row |
| DevflowHistory.ProtectedStagesUnchanged | src/clawops/devflow.py:357-388 | in every history a protected stage recorded as succeeded had equal tracked files before its worker and at its gate |
| DevflowHistory.SucceededStagesPassed | src/clawops/devflow.py:357-388 | in every history a stage recorded as succeeded had a session that succeeded and every required artifact |
| DevflowHistory.AcceptedWereSeen | src/clawops/devflow.py:357-388 | what is remembered of it was seen by an executor that finished working on that stage without raising |
| DevflowHistory.UninterruptedCarries | src/clawops/devflow.py:303-390 | in every run without crash, cancel, resume, exception or failed gate the executor carries exactly that root into each stage |
| DevflowHistory.ResumeAcceptedIff | src/clawops/devflow_state.py:544-568 | resume is accepted exactly when the run is failed, planned or running and its last row is unfinished, and then picks that row |
| DevflowJournal.RunsTheMachine | src/clawops/devflow.py:285-460 | every history of executor and journal together is one of the executor machine, so all of its theorems hold of it |
| DevflowJournal.RunsDispatches | src/clawops/workflow_runner.py:649-735 | and its dispatches are dispatches run one after another |
| DevflowJournal.SucceededStagesRan | src/clawops/devflow.py:303-390 | over every history with failures, crashes, cancels, resumes and calls by others, a stage recorded as succeeded has an operation that succeeded and for which run_session was called |
| DevflowJournal.ContractRunsAtMostOnce | src/clawops/workflow_runner.py:650-705 | over every history with failures, crashes, cancels and resumes, run_session is called at most once per operation key |
| DevflowJournal.StageSessionsAre | src/clawops/devflow.py:208-228 | a stage's sessions are as many as the terms it has run under, so at most as many as the terms it is attempted under |
| DevflowJournal.ChangedTermsRunTwice | src/clawops/orchestration.py:228-247 | for any stage of any plan and any two terms, a history with a crash and a resume in which its session runs under both |
| DevflowJournal.StageRunsAtMostOnceIff | src/clawops/devflow.py:108-127 | run_session is called at most once for a stage in every history exactly when it may be attempted under one session identity and contract only |
| DevflowJournal.CanSucceedIff | src/clawops/devflow.py:285-460 | from any reachable interrupted state the run can still succeed exactly when resume accepts it and each stage from its last one on may be attempted under terms whose operation is absent or not past marking |
| DevflowJournal.ChangedTermsCanSucceedIff | src/clawops/op_journal.py:499-517 | when branches and prompts may change freely, an interrupted run can still succeed exactly when resume accepts it |
| DevflowJournal.InterruptedRunCanSucceedIff | src/clawops/devflow.py:588-608 | in a history where only the run begins its stages' operations, an interrupted run can still succeed exactly when resume accepts it and its last stage may be attempted under terms whose operation is absent or not past marking |
| DevflowJournal.UnchangedTermsCanSucceedIff | src/clawops/workflow_runner.py:650-696 | when each stage's later attempts are all under one session identity and contract, exactly when resume accepts it and that one operation of the last stage is absent, proposed or pending, or approved without needing approval |
| DevflowJournal.SpentStageNeverRunsAgain | src/clawops/op_journal.py:499-622 | once the operations of an unfinished stage have been running under all terms it may still be attempted under, no history runs its session again or lets the run succeed |
| DevflowHistory.CrashBetweenStagesStrands | src/clawops/devflow.py:376-390 | after a crash with no unfinished row the run never succeeds |
| DevflowHistory.CancelSticksIff | src/clawops/devflow_state.py:479-520 | a cancelled run stays cancelled in every continuation exactly when nobody is under way to write to it |
| DevflowExecutor.DevflowStore.BeginRun | src/clawops/devflow_state.py:172-236 | inserts a planned run unless the id exists |
| DevflowExecutor.DevflowStore.RecordStageStarted | src/clawops/devflow_state.py:239-338 | inserts the stage row or resets it and counts a retry, points the run at it and appends the events |
| DevflowExecutor.DevflowStore.RecordStageFinished | src/clawops/devflow_state.py:341-405 | writes the terminal status, keeps paths that are not given, and changes nothing without a row |
| DevflowExecutor.DevflowStore.MarkRunSucceeded | src/clawops/devflow_state.py:459-476 | marks an existing run succeeded |
| DevflowExecutor.DevflowStore.Cancel | src/clawops/devflow_state.py:479-520 | refused on terminal runs, otherwise cancels the run and each unfinished stage |
| DevflowExecutor.DevflowStore.ResumeRun | src/clawops/devflow_state.py:544-568 | writes the run exactly when a stage to resume at is found, and answers that stage |
| DevflowExecutor.DevflowStore.HandleException | src/clawops/devflow.py:391-428 | ends with the stage and run recorded as failed, starting the stage first unless its row is running |
| DevflowExecutor.DevflowStore.ExecutePlan | src/clawops/devflow.py:285-460 | whatever the environment does, every transaction of the loop is a step of the machine; ok exactly when the run ends succeeded, otherwise it ends failed |
| DevflowExecutor.DevflowStore.HandleResume | src/clawops/devflow.py:588-608 | refused without a write, or runs the plan from the unfinished stage, again as a run of the machine |
| DevflowExecutor.NextIncompleteStage | src/clawops/devflow_state.py:116-123 | the scan of the view computes that row |
| Workspaces.Disk.Clear | src/clawops/devflow_workspaces.py:75-83 | leaves only .git and .clawops |
| Workspaces.Disk.CopyTreeContents | src/clawops/devflow_workspaces.py:86-96 | clears, then copies: name by name the destination has its own metadata and exactly the source's other entries that are not ignored; a source that is the destination, or cannot be listed, leaves it cleared |
| Workspaces.Disk.Prepare | src/clawops/devflow_workspaces.py:99-212 | opens or creates the stage's workspace and synchronizes it, with the source's refusals; only a git primary that is its own source is left alone |
| Workspaces.RefusedIff | src/clawops/devflow_workspaces.py:99-138 | which places each refusal belongs to |
| Workspaces.PreparedHolds | src/clawops/devflow_workspaces.py:99-212 | a prepared workspace has exactly the metadata found there, a new worktree's included, and the source's entries that are not ignored; an early refusal changes nothing |
| Workspaces.SyncedAgain | src/clawops/devflow_workspaces.py:86-96 | a second synchronization changes nothing, and going through a workspace in between loses nothing |
| Workspaces.ResumeKeepsWorkIff | src/clawops/devflow_workspaces.py:189-212 | a resumed mutable stage keeps its unfinished work exactly when it is the primary of a git repository or there is nothing but metadata |
| Workspaces.WorkspacePathInjective | src/clawops/devflow_workspaces.py:149-155 | two stages share a workspace path only if name and mode agree |
| Workspaces.OtherWorkspacesKept | src/clawops/devflow_workspaces.py:157-212 | preparing one stage leaves every other stage's workspace alone |
| Workspaces.HandedOver | src/clawops/devflow_workspaces.py:189-212 | a stage whose source is another stage's workspace starts from exactly that stage's entries that are not ignored |
| DeepMerge.DeepMerge | src/clawops/common.py:101-117 | the loop over the overlay computes the merge |
| DeepMerge.GetMerge | src/clawops/common.py:101-117 | the value at every path: the overlay's merged onto the base's, nothing below a leaf of the overlay, the base's everywhere else |
| DeepMerge.LeafReadBack | src/clawops/common.py:110-117 | a value of the overlay that is no mapping is read back at its path |
| DeepMerge.UntouchedSurvives | src/clawops/common.py:107-117 | a path the overlay neither holds nor cuts keeps the base's value |
| DeepMerge.AbsorbsIff | src/clawops/common.py:101-117 | merging x under y leaves y as it is exactly when y has every key of x wherever both are mappings |
| DeepMerge.Idempotent | src/clawops/common.py:101-117 | merging a document onto itself changes nothing |
| DeepMerge.ReapplyChangesNothing | src/clawops/common.py:101-117 | re-applying an overlay changes nothing |
| DeepMerge.AssociativeIff | src/clawops/common.py:101-117 | the two groupings agree exactly when, wherever the middle document cuts a mapping of both outer ones, the last absorbs the first |
| DeepMerge.AssociativeWhereMiddleAgrees | src/clawops/common.py:101-117 | they agree wherever the middle document puts no non-mapping where both outer ones have mappings |
| DeepMerge.MergeDocuments | src/clawops/json_merge.py:12-17 | the loop over the overlays computes the fold |
| DeepMerge.LastOverlayReapplied | src/clawops/json_merge.py:12-17 | applying the last overlay again changes nothing |
| DeepMerge.LastWriterWins | src/clawops/json_merge.py:12-17 | a leaf of one overlay is read back when no later overlay holds or cuts its path, and so is a base value when none does |
| DeepMerge.PremergedIff | src/clawops/json_merge.py:12-17 | two overlays may be merged beforehand exactly when they associate with the base |
| PolicyEngine.MatchMapping | src/clawops/common.py:120-149 | the recursive loop computes satisfaction of a rule by a payload |
| PolicyEngine.LeafIs | src/clawops/common.py:137-149 | a list asks for one of its members, a text with a wildcard for a match, any other value for an equal one |
| Documents.EqualIff | src/clawops/common.py:137-149 | equality counts numbers and truth values by value and compares lists and mappings member by member |
| PolicyEngine.MatchesAtEveryPath | src/clawops/common.py:120-149 | a rule matches exactly when the payload satisfies it at every path the rule names |
| PolicyEngine.NoteRules | src/clawops/policy_engine.py:107-133 | the rule loop: matched ids and reasons in order, and the outcome that ends it |
| PolicyEngine.EvaluatePayload | src/clawops/policy_engine.py:70-159 | the evaluation with its early exits computes the decision function |
| PolicyEngine.GateIs | src/clawops/policy_engine.py:84-105 | read at their paths in the documents: the zone denies the action or category, the zone allows some and neither of these, or the kind of target has a list without the target; the first that holds gives the reason |
| PolicyEngine.MatrixIs | src/clawops/policy_engine.py:134-141 | the approval matrix names the action, or else the category, and that is the policy id |
| PolicyEngine.DecisionIs | src/clawops/policy_engine.py:70-159 | read off the documents: deny at a gate, else the outcome of the first rule met that denies or asks for approval, else approval by the matrix, else the default |
| PolicyEngine.AllowIff | src/clawops/policy_engine.py:70-159 | read off the documents: allow exactly when no gate denies, no rule met denies or asks for approval, the matrix names neither action nor category, and the default is allow |
| PolicyEngine.DecisionReports | src/clawops/policy_engine.py:107-159 | the rules met up to the one that decides are reported by id or number and by reason, and then what else decided |
| PolicyEngine.DecisionReview | src/clawops/policy_engine.py:161-205 | review metadata is there exactly when approval is asked for, and falls back on the last reason |
| PolicyEngine.ReviewNames | src/clawops/policy_engine.py:120-159 | it names the rule, the matrix entry or the default that asked |
| PolicyEngine.AddingRulesNeverAllows | src/clawops/policy_engine.py:107-133 | more rules, at any places and in any order, never turn another decision into allow |
| PolicyEngine.OnlyStoppersDecide | src/clawops/policy_engine.py:107-133 | two rule lists with the same stopping rules in the same order give the same decision |
| PolicyEngine.DeletingOthersKeepsDecision | src/clawops/policy_engine.py:107-133 | deleting any number of rules that do not match or have any other outcome never changes the decision |
| PolicyEngine.AllowRulesGrantNothing | src/clawops/policy_engine.py:120-133 | a rule with outcome allow can be left out without changing any decision |
| PolicyEngine.ResolveReviewConfig | src/clawops/policy_engine.py:207-232 | collects the three layers in order |
| PolicyEngine.ReviewPrecedence | src/clawops/policy_engine.py:207-232 | read at their paths: an action's override wins over the category's and that over the default, key by key |
| PolicyEngine.ReviewStated | src/clawops/policy_engine.py:161-205 | mode, target, delegate and reason are the configured texts without surrounding white space exactly where these are not blank, and otherwise manual, the delegate, none and the given reason |
| Pins.ParseIff | src/clawops/supply_chain.py:23-30 | a line parses to a pin exactly when it is that pin rendered with its own version, so parsing and rendering are inverse |
| Pins.Reparse | src/clawops/supply_chain.py:87-114 | a pin rendered with another well-formed version parses to the same pin at that version |
| Pins.TagIff | src/clawops/supply_chain.py:26 | the tag is exactly the first run of characters without white space behind the first hash |
| TextLines.JoinSplit | src/clawops/supply_chain.py:259-264 | joining the split lines gives the text back |
| TextLines.SplitJoin | src/clawops/supply_chain.py:259-264 | joining well-formed lines and splitting again gives the same lines |
| TextLines.BreaksSplit | src/clawops/supply_chain.py:259-264 | exactly ten characters end a line |
| TextLines.RewriteIsIdealIff | src/clawops/supply_chain.py:260-264 | replacing bodies keeps every line end exactly when no replaced line ends in anything but a newline |
| SupplyChain.Repository.ApplyLineUpdates | src/clawops/supply_chain.py:254-264 | the given lines replaced by number, keeping only a newline behind them, and no other file touched |
| SupplyChain.Repository.ListPins | src/clawops/supply_chain.py:134-182 | exactly the pinned lines of the files, by path and then by line |
| SupplyChain.Repository.Refresh | src/clawops/supply_chain.py:272-338 | reports every changed and skipped pin in order; applied, it refreshes every file; an unresolvable pin leaves all files alone |
| SupplyChain.VerdictIs | src/clawops/supply_chain.py:272-338 | an action is asked for under the tag its comment states, an image by name; a pin is updated exactly to a different answer, kept on the same, skipped exactly without a tag |
| SupplyChain.ReportedIff | src/clawops/supply_chain.py:281-318 | exactly the updated and the skipped pins are reported, with path, line, name, old and new version |
| SupplyChain.ReportsJoin | src/clawops/supply_chain.py:281-318 | in the order of the pins |
| SupplyChain.RefreshedLines | src/clawops/supply_chain.py:272-338 | the line count is unchanged, every line is as before or differs in its pin's version only, and none is behind any more |
| SupplyChain.SecondRefreshIsQuiet | src/clawops/supply_chain.py:272-338 | refreshing again with the same answers reports no updates and changes no file |
| SupplyChain.FormFeedSwallowed | src/clawops/supply_chain.py:260-264 | behind an updated pin a form feed is dropped and two lines become one |
| EnvFiles.EnvFile.Load | src/clawops/strongclaw_runtime.py:388-398 | the loop over the lines computes the dictionary, empty for a missing file |
| EnvFiles.AssignmentIff | src/clawops/strongclaw_runtime.py:392-397 | a line gives the pair around its first equals sign unless it starts with a hash |
| EnvFiles.LastAssignmentCounts | src/clawops/strongclaw_runtime.py:391-398 | for any text a key has the value of the last line that assigns it, whether a newline ends that line or not |
| EnvFiles.FirstAssignmentsInOrder | src/clawops/strongclaw_runtime.py:391-398 | keys stand in the order of their first assignments |
| EnvFiles.EnvFile.Store | src/clawops/strongclaw_runtime.py:401-405 | writes one line per pair in order |
| EnvFiles.RoundTripIff | src/clawops/strongclaw_runtime.py:388-405 | writing and reading back gives the same dictionary exactly when keys have no equals sign, break or leading hash and values no break |
| EnvFiles.ReadCarries | src/clawops/strongclaw_runtime.py:388-398 | every dictionary that was read meets this |
| EnvFiles.EnvFile.SetAssignment | src/clawops/strongclaw_runtime.py:700-704 | the file becomes the dictionary with that pair set |
| EnvFiles.SetReadsBackIff | src/clawops/strongclaw_runtime.py:700-704 | it reads back as the old dictionary with only that key changed exactly when a line can carry the pair |
| EnvFiles.EnvFile.MergeTemplate | src/clawops/strongclaw_runtime.py:712-728 | appends the missing template assignments in order, reports their keys, and writes only if there are any |
| EnvFiles.MergeTwice | src/clawops/strongclaw_runtime.py:712-728 | every target value is kept, exactly the missing keys are added with the template's values, and a second merge finds nothing missing |
| Sidecars.Environment.WaitForService | src/clawops/strongclaw_ops.py:329-397 | ends, because sleeping advances the clock; succeeds only on a matching reading and gives up only past the deadline, with a bounded number of readings |
| Sidecars.Environment.BringUpPostgres | src/clawops/strongclaw_ops.py:631-692 | goes on only after Postgres was seen running and healthy; recreates it only after 180 seconds without such a reading, and gives up only after as many again |
| Sidecars.Environment.StartServices | src/clawops/strongclaw_ops.py:694-751 | LiteLLM's two steps are taken exactly when the reading before them does not show it healthy, then the rest, up to a step that fails; a failed reading always raises, and besides only a command that raises does |
| Sidecars.Environment.AwaitTargets | src/clawops/strongclaw_ops.py:753-775 | goes on only when every required target was seen ready since the waits began, and gives up only after the full timeout of a required one |
| Sidecars.ReadinessEntries | src/clawops/strongclaw_ops.py:521-567 | entries of required and optional targets in order; ready exactly when every required entry is |
| Sidecars.EntriesFit | src/clawops/strongclaw_ops.py:521-567 | an entry shows the status that was read and is ready exactly when state and health are those asked for |
| Sidecars.SidecarsUp | src/clawops/strongclaw_ops.py:610-806 | for every environment: every step has its reason in the log before it, a failed step is the last, exit code zero exactly for complete steps and waits, with every required target then seen ready after the last step, ok exactly when the report's own reading shows all required targets ready besides |
| Sidecars.GuardedAt | src/clawops/strongclaw_ops.py:631-751 | that reason: dependent steps only after Postgres was seen healthy, recreation only after looking in vain, LiteLLM only behind a reading that does not show it healthy |
| Sidecars.RequiredTargets | src/clawops/strongclaw_ops.py:457-506 | with the profile's targets that means Postgres and LiteLLM healthy, Qdrant for either profile and Neo4j for hypermemory |
| Sidecars.TargetsByService | src/clawops/strongclaw_ops.py:457-506 | state, health, impact and timeout of every target, by its service and platform |

## Left out

- SQLite itself: each journal or devflow method is one atomic step, so a race of two processes inside one method, schema migration, retries and file permissions are not modelled; neither are lock waits.
- Hashes, JSON text, uuids and the clock: an operation's key stands for its hash, which is assumed injective; lease ids, operation ids, tokens and clock readings are parameters.
- OpJournal.OperationJournal.Transition: a status is one of the eight known ones, and JSON columns are texts.
- OpJournal.OperationJournal.AcquireLease: metadata is an opaque text.
- WorkerDispatch.DispatchStep: the context envelope, the contract's fields and the step's details are left out; the contract is part of the operation's key. `OrchestrationTask.to_contract` itself would only add a record copied field by field. Journal calls by others during the dispatch are covered by the machine `Dispatch`, not by this method.
- DevflowPlan.RunSteps: the handlers' answers are one record; a handler that raises, or an unknown step kind, is a raising step of the machine in `DevflowMachine`.
- DevflowJournal.CanSucceedIff: the terms of an attempt are one answer of the environment; how branch, prompt file and workspace kind make them is left out, and so is a plan file edited between attempts. One run and one executor at a time; others may call the journal.
- AcpRunner.RunSession: backend resolution, summaries and audit files are parameters or left out; the file lock is one answer.
- DevflowExecutor.DevflowStore.ExecutePlan: paths of summaries, audits and manifests, log files and `run.json` are left out, and a cancel by another process during the loop is covered by the machine, not by the method. Operation ids and session identities on stage rows are always null here.
- Stage ids of the form run and stage name joined by a colon, which could collide when names hold colons.
- DevflowHistory.RowsArePrefixOfPlan: like its companions, for one executor at a time and distinct stage names.
- DevflowMachine.StageSourceRoot: paths are taken as resolved, and a failed row of a stage outside the plan, which raises in the source, counts as not mutable; rows always belong to the plan here.
- Workspaces.Disk.Prepare: a failed copy, permissions and file times are left out, and source and destination are the same directory or disjoint apart from .git and .clawops; git is a set of answers.
- DeepMerge.DeepMerge: keys are strings, as in every JSON document; `str()` of other keys is left out.
- PolicyEngine.EvaluatePayload: `fnmatch` and `str()` of values that are not strings are parameters, numbers are exact, and keys are strings.
- SupplyChain.Repository.Refresh: a file's text is what `read_text` returns, so newline translation is not modelled; the network and docker are the resolver; file order is a parameter.
- EnvFiles.EnvFile.Store: file modes and directories are left out.
- Sidecars.SidecarsUp: how `docker compose ps` output is parsed, log lines and the remaining report fields are left out; profile flags arrive resolved.
- Bootstrap, doctor, services, model auth, platform verification, hypermemory, context index, recovery, the skill stages, snapshot diffs and the JavaScript plugin: shallow branching or engines outside these files.
