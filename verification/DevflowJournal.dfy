/**
 The devflow executor together with the operation journal it dispatches through. A joint step moves the executor, or one
 worker of the dispatch machine, or both at once; so a joint history is a history of either machine, and what is proved
 of each holds of it. What only the two together decide is which interrupted runs can still succeed.
 */
module DevflowJournal {
  import opened Wrappers
  import opened Text
  import O = Operations
  import D = Dispatch
  import opened DevflowPlan
  import opened DevflowState
  import M = DevflowMachine
  import H = DevflowHistory

  // --- The joint machine ---

  // What an attempt of a stage is dispatched under: the session identity, which names the workspace by path and branch,
  // and the task contract, which holds the hash of the prompt. Every attempt reads them afresh, so a branch made in the
  // workspace or an edited prompt file changes them although the plan and the path are the same.
  datatype Terms = Terms(session: string, contract: string)

  // The key an attempt begins its operation with.
  function KeyOf(plan: Plan, stage: StagePlan, terms: Terms): O.OpKey {
    O.OpKey(terms.session, "devflow-" + stage.name, WorkspacePath(plan, stage), terms.contract)
  }

  function TermsOf(key: O.OpKey): Terms {
    Terms(key.scope, key.inputs)
  }

  function TaskOf(plan: Plan, stage: StagePlan, terms: Terms): D.Task {
    D.Task(KeyOf(plan, stage, terms), stage.role, stage.approvalRequired, terms.contract, None)
  }

  // `sys` is the journal and the dispatch under way, as worker 0; `ended` is how a dispatch that is over went.
  datatype Joint = Joint(m: M.Machine, sys: D.System, approver: Option<string>, ended: Option<bool>)

  datatype Event =
    | Go(now: int, raises: bool, seen: Observations, token: string, input: D.Input, terms: Terms)
    | Crash
    | Cancel(now: int)
    | Resume(approver: Option<string>)
    | Outside(call: O.OpCall)

  function Started(created: int, approver: Option<string>): Joint {
    Joint(M.Created(created), D.START, approver, None)
  }

  predicate InStage(plan: Plan, m: M.Machine) {
    m.exec.AtStage? && m.exec.index < |plan.stages| && m.exec.phase == M.Working
  }

  function StageOf(plan: Plan, m: M.Machine): StagePlan
    requires InStage(plan, m)
  {
    plan.stages[m.exec.index]
  }

  // What a step of the worker means to the stage's workflow.
  datatype Turn = Continues | Ends(ok: bool) | Raises

  // A packet that cannot be registered, or that nobody approves, ends the dispatch as not ok; any other refused call,
  // and a session that raises, raises.
  ghost function TurnOf(sys: D.System, input: D.Input): Turn
    requires 0 in sys.workers
  {
    var w := sys.workers[0];
    if 0 in D.AdvanceWorker(sys, 0, input).workers then Continues
    else match w.phase
         case ToPacket => Ends(false)
         case ToFinish => if O.Answer(sys.ops, D.NextCall(w, input)).Ok? then Ends(w.summary.ok) else Raises
         case _ => Raises
  }

  ghost function DispatchEvent(plan: Plan, j: Joint, e: Event): Option<D.Event> {
    match e
    case Crash => Some(D.Stop(0))
    case Outside(call) => Some(D.Outside(call))
    case Go(_, raises, _, _, input, terms) =>
      if !InStage(plan, j.m) || j.ended.Some? then None
      else if 0 in j.sys.workers then Some(if raises then D.Stop(0) else D.Advance(0, input))
      else if raises then None
      else
        var stage := StageOf(plan, j.m);
        Some(D.Launch(0, TaskOf(plan, stage, terms), if stage.approvalRequired then j.approver else None))
    case _ => None
  }

  ghost function MachineEvent(plan: Plan, j: Joint, e: Event): Option<M.Event> {
    match e
    case Crash => Some(M.Crash)
    case Cancel(now) => Some(M.Cancel(now))
    case Resume(_) => Some(M.Resume)
    case Outside(_) => None
    case Go(now, raises, seen, token, input, _) =>
      if !InStage(plan, j.m) || raises then Some(M.Advance(now, raises, seen, token))
      else if j.ended.Some? then Some(M.Advance(now, false, seen.(dispatchOk := j.ended.value), token))
      else if 0 in j.sys.workers && TurnOf(j.sys, input).Raises? then Some(M.Advance(now, true, seen, token))
      else None
  }

  ghost function NextEnded(plan: Plan, j: Joint, e: Event): Option<bool> {
    if e.Crash? then None
    else if !e.Go? || !InStage(plan, j.m) then j.ended
    else if e.raises || j.ended.Some? || 0 !in j.sys.workers then None
    else
      var turn := TurnOf(j.sys, e.input);
      if turn.Ends? then Some(turn.ok) else None
  }

  ghost function Step(plan: Plan, j: Joint, e: Event): Joint {
    var me, de := MachineEvent(plan, j, e), DispatchEvent(plan, j, e);
    Joint(
      if me.Some? then M.Step(plan, j.m, me.value) else j.m,
      if de.Some? then D.Step(j.sys, de.value) else j.sys,
      if e.Resume? && j.m.exec.Idle? && ResumeStage(j.m.run).Some? then e.approver else j.approver,
      NextEnded(plan, j, e))
  }

  ghost function Stepper(plan: Plan): (Joint, Event) -> Joint {
    (j, e) => Step(plan, j, e)
  }

  ghost function RunFrom(plan: Plan, j: Joint, events: seq<Event>): Joint {
    Fold(Stepper(plan), j, events)
  }

  // --- What every joint history keeps ---

  ghost predicate WorkOk(plan: Plan, j: Joint) {
    && j.sys.workers.Keys <= {0}
    && (0 in j.sys.workers ==>
          && InStage(plan, j.m) && j.ended.None?
          && j.sys.workers[0].task == TaskOf(plan, StageOf(plan, j.m), TermsOf(j.sys.workers[0].task.key)))
    && (j.ended.Some? ==> InStage(plan, j.m))
  }

  ghost predicate Invariant(plan: Plan, j: Joint) {
    M.Invariant(plan, j.m) && D.OnceSoFar(j.sys) && WorkOk(plan, j)
  }

  lemma DispatchKeeps(plan: Plan, j: Joint, e: Event)
    requires D.OnceSoFar(j.sys) && WorkOk(plan, j)
    ensures D.OnceSoFar(Step(plan, j, e).sys)
  {
    var de := DispatchEvent(plan, j, e);
    if de.Some? {
      if de.value.Launch? {
        assert j.sys.workers.Keys == {};
      }
      D.StepOnce(j.sys, de.value);
    }
  }

  lemma WorkKeeps(plan: Plan, j: Joint, e: Event)
    requires WorkOk(plan, j)
    ensures WorkOk(plan, Step(plan, j, e))
  {
    if e.Go? && InStage(plan, j.m) && 0 in j.sys.workers && !e.raises {
      D.AdvanceAlone(j.sys, 0, e.input);
      D.AdvanceKeepsTask(j.sys, 0, e.input);
    }
  }

  lemma StepKeeps(plan: Plan, j: Joint, e: Event)
    requires DistinctNames(plan) && Invariant(plan, j)
    ensures Invariant(plan, Step(plan, j, e))
  {
    DispatchKeeps(plan, j, e);
    WorkKeeps(plan, j, e);
    var me := MachineEvent(plan, j, e);
    if me.Some? {
      M.StepKeeps(plan, j.m, me.value);
    }
  }

  lemma {:induction false} InvariantFrom(plan: Plan, j: Joint, events: seq<Event>)
    requires DistinctNames(plan) && Invariant(plan, j)
    ensures Invariant(plan, RunFrom(plan, j, events))
  {
    if events != [] {
      InvariantFrom(plan, j, Front(events));
      StepKeeps(plan, RunFrom(plan, j, Front(events)), Last(events));
    }
  }

  lemma StartedInvariant(plan: Plan, created: int, approver: Option<string>)
    requires DistinctNames(plan)
    ensures Invariant(plan, Started(created, approver))
  {
    M.InvariantFrom(plan, M.Created(created), []);
    D.OnceAlways([]);
  }

  // --- A joint history is a history of either machine ---

  ghost function MachineEvents(plan: Plan, j: Joint, events: seq<Event>): seq<M.Event> {
    if events == [] then []
    else
      var me := MachineEvent(plan, RunFrom(plan, j, Front(events)), Last(events));
      MachineEvents(plan, j, Front(events)) + if me.Some? then [me.value] else []
  }

  ghost function DispatchEvents(plan: Plan, j: Joint, events: seq<Event>): seq<D.Event> {
    if events == [] then []
    else
      var de := DispatchEvent(plan, RunFrom(plan, j, Front(events)), Last(events));
      DispatchEvents(plan, j, Front(events)) + if de.Some? then [de.value] else []
  }

  lemma MachineAppends(plan: Plan, j: Joint, e: Event, start: M.Machine, earlier: seq<M.Event>)
    requires j.m == M.RunFrom(plan, start, earlier)
    ensures var me := MachineEvent(plan, j, e);
            Step(plan, j, e).m == M.RunFrom(plan, start, earlier + if me.Some? then [me.value] else [])
  {
    var me := MachineEvent(plan, j, e);
    if me.Some? {
      FoldAppend(M.Stepper(plan), start, earlier, me.value);
    } else {
      assert earlier + [] == earlier;
    }
  }

  // So what is proved of every devflow history holds of every joint one.
  lemma {:induction false} RunsTheMachine(plan: Plan, j: Joint, events: seq<Event>)
    ensures RunFrom(plan, j, events).m == M.RunFrom(plan, j.m, MachineEvents(plan, j, events))
  {
    if events != [] {
      RunsTheMachine(plan, j, Front(events));
      MachineAppends(plan, RunFrom(plan, j, Front(events)), Last(events), j.m, MachineEvents(plan, j, Front(events)));
    }
  }

  lemma LaunchAlone(plan: Plan, j: Joint, e: Event)
    requires WorkOk(plan, j) && DispatchEvent(plan, j, e).Some? && DispatchEvent(plan, j, e).value.Launch?
    ensures j.sys.workers == map[]
  {
    assert j.sys.workers.Keys == {};
  }

  lemma DispatchAppends(plan: Plan, j: Joint, e: Event, earlier: seq<D.Event>)
    requires WorkOk(plan, j) && D.Sequential(earlier) && j.sys == D.Run(earlier)
    ensures var de := DispatchEvent(plan, j, e); var all := earlier + if de.Some? then [de.value] else [];
            D.Sequential(all) && Step(plan, j, e).sys == D.Run(all)
  {
    var de := DispatchEvent(plan, j, e);
    if de.Some? {
      if de.value.Launch? {
        LaunchAlone(plan, j, e);
      }
      D.SequentialAppend(earlier, de.value);
    } else {
      assert earlier + [] == earlier;
    }
  }

  // And what is proved of dispatches run one after another holds of the dispatches of a run.
  lemma {:induction false} RunsDispatches(plan: Plan, created: int, approver: Option<string>, events: seq<Event>)
    requires DistinctNames(plan)
    ensures var j := Started(created, approver); var dispatched := DispatchEvents(plan, j, events);
            D.Sequential(dispatched) && RunFrom(plan, j, events).sys == D.Run(dispatched)
  {
    if events != [] {
      var j := Started(created, approver);
      RunsDispatches(plan, created, approver, Front(events));
      StartedInvariant(plan, created, approver);
      InvariantFrom(plan, j, Front(events));
      DispatchAppends(plan, RunFrom(plan, j, Front(events)), Last(events), DispatchEvents(plan, j, Front(events)));
    }
  }

  // --- Attempts and sessions ---

  // The step starts an attempt of the stage the executor is at.
  predicate Attempts(plan: Plan, j: Joint, e: Event) {
    e.Go? && InStage(plan, j.m) && j.ended.None? && 0 !in j.sys.workers && !e.raises
  }

  // The terms under which the stage at an index may be attempted.
  type Allowed = (nat, Terms) -> bool

  ghost predicate Attemptable(may: Allowed, k: nat) {
    exists terms :: may(k, terms)
  }

  // Every attempt of the history was under terms allowed for its stage.
  ghost predicate Within(plan: Plan, j: Joint, events: seq<Event>, may: Allowed) {
    events == [] || (&& Within(plan, j, Front(events), may)
                     && WithinStep(plan, RunFrom(plan, j, Front(events)), Last(events), may))
  }

  predicate WithinStep(plan: Plan, j: Joint, e: Event, may: Allowed) {
    Attempts(plan, j, e) ==> may(j.m.exec.index, e.terms)
  }

  // The step is the call of run_session for stage k.
  predicate CallsSession(plan: Plan, j: Joint, e: Event, k: nat) {
    && e.Go? && !e.raises && InStage(plan, j.m) && j.m.exec.index == k && j.ended.None?
    && 0 in j.sys.workers && j.sys.workers[0].phase == D.ToSession
  }

  // How often run_session was called for stage k.
  ghost function StageSessions(plan: Plan, j: Joint, events: seq<Event>, k: nat): nat {
    if events == [] then 0
    else StageSessions(plan, j, Front(events), k)
         + if CallsSession(plan, RunFrom(plan, j, Front(events)), Last(events), k) then 1 else 0
  }

  lemma {:induction false} WithinCompose(plan: Plan, j: Joint, a: seq<Event>, b: seq<Event>, may: Allowed)
    ensures Within(plan, j, a + b, may) <==> Within(plan, j, a, may) && Within(plan, RunFrom(plan, j, a), b, may)
  {
    if b == [] {
      assert a + b == a;
    } else {
      assert Front(a + b) == a + Front(b);
      WithinCompose(plan, j, a, Front(b), may);
      FoldCompose(Stepper(plan), j, a, Front(b));
    }
  }

  ghost predicate WorkerWithin(plan: Plan, j: Joint, may: Allowed) {
    0 in j.sys.workers ==> j.m.exec.AtStage? && may(j.m.exec.index, TermsOf(j.sys.workers[0].task.key))
  }

  lemma WorkerWithinStep(plan: Plan, j: Joint, e: Event, may: Allowed)
    requires WorkOk(plan, j) && WorkerWithin(plan, j, may) && WithinStep(plan, j, e, may)
    ensures WorkerWithin(plan, Step(plan, j, e), may)
  {
    if e.Go? && InStage(plan, j.m) && 0 in j.sys.workers && !e.raises {
      D.AdvanceKeepsTask(j.sys, 0, e.input);
    }
  }

  lemma {:induction false} WorkerWithinFrom(plan: Plan, j: Joint, events: seq<Event>, may: Allowed)
    requires DistinctNames(plan) && Invariant(plan, j) && WorkerWithin(plan, j, may) && Within(plan, j, events, may)
    ensures WorkerWithin(plan, RunFrom(plan, j, events), may)
  {
    if events != [] {
      WorkerWithinFrom(plan, j, Front(events), may);
      InvariantFrom(plan, j, Front(events));
      WorkerWithinStep(plan, RunFrom(plan, j, Front(events)), Last(events), may);
    }
  }

  // --- How often a stage runs, over every history with failures, crashes and resumes ---

  lemma ContractRunsAtMostOnce(plan: Plan, created: int, approver: Option<string>, events: seq<Event>, key: O.OpKey)
    requires DistinctNames(plan)
    ensures RunFrom(plan, Started(created, approver), events).sys.sessions[key] <= 1
  {
    RunsDispatches(plan, created, approver, events);
    D.SessionRunsAtMostOnce(DispatchEvents(plan, Started(created, approver), events), key);
  }

  // Stage k is attempted under these terms only; other stages under any.
  function Only(k: nat, terms: set<Terms>): Allowed {
    (i, t) => i == k ==> t in terms
  }

  // The terms under which stage k has run.
  ghost function RunUnder(plan: Plan, sys: D.System, k: nat, terms: set<Terms>): set<Terms>
    requires k < |plan.stages|
  {
    set t | t in terms && sys.sessions[KeyOf(plan, plan.stages[k], t)] > 0
  }

  lemma KeysDistinct(plan: Plan, i: nat, k: nat, s: Terms, t: Terms)
    requires DistinctNames(plan) && i < |plan.stages| && k < |plan.stages| && i != k
    ensures KeyOf(plan, plan.stages[i], s) != KeyOf(plan, plan.stages[k], t)
  {
    var a, b := "devflow-" + plan.stages[i].name, "devflow-" + plan.stages[k].name;
    assert a[8..] == plan.stages[i].name && b[8..] == plan.stages[k].name;
  }

  // Only a worker at its session counts one, and only for its own contract.
  lemma SessionsElsewhere(sys: D.System, e: D.Event, key: O.OpKey)
    requires e.Advance? && e.pid in sys.workers ==>
        sys.workers[e.pid].phase != D.ToSession || sys.workers[e.pid].task.key != key
    ensures D.Step(sys, e).sessions[key] == sys.sessions[key]
  {
  }

  lemma OtherSteps(plan: Plan, j: Joint, e: Event, k: nat, t: Terms)
    requires DistinctNames(plan) && Invariant(plan, j) && k < |plan.stages|
    requires CallsSession(plan, j, e, k) ==> TermsOf(j.sys.workers[0].task.key) != t
    ensures var key := KeyOf(plan, plan.stages[k], t); Step(plan, j, e).sys.sessions[key] == j.sys.sessions[key]
  {
    var de := DispatchEvent(plan, j, e);
    if de.Some? {
      if InStage(plan, j.m) && j.m.exec.index != k && 0 in j.sys.workers {
        KeysDistinct(plan, j.m.exec.index, k, TermsOf(j.sys.workers[0].task.key), t);
      }
      SessionsElsewhere(j.sys, de.value, KeyOf(plan, plan.stages[k], t));
    }
  }

  // A call of run_session is the first under its terms.
  lemma SessionIsNew(plan: Plan, j: Joint, e: Event, k: nat, terms: set<Terms>)
    requires DistinctNames(plan) && Invariant(plan, j) && CallsSession(plan, j, e, k) && k < |plan.stages|
    requires TermsOf(j.sys.workers[0].task.key) in terms
    ensures var t := TermsOf(j.sys.workers[0].task.key);
            && t !in RunUnder(plan, j.sys, k, terms)
            && RunUnder(plan, Step(plan, j, e).sys, k, terms) == RunUnder(plan, j.sys, k, terms) + {t}
  {
    var t, after := TermsOf(j.sys.workers[0].task.key), Step(plan, j, e).sys;
    assert D.AtGate(j.sys, j.sys.workers[0]);
    assert after == D.SessionStep(j.sys, 0, e.input.result);
    forall s ensures s in RunUnder(plan, after, k, terms) <==> s in RunUnder(plan, j.sys, k, terms) + {t} {
      if s != t {
        OtherSteps(plan, j, e, k, s);
      }
    }
  }

  lemma NoSessionCounted(plan: Plan, j: Joint, e: Event, k: nat, terms: set<Terms>)
    requires DistinctNames(plan) && Invariant(plan, j) && k < |plan.stages| && !CallsSession(plan, j, e, k)
    ensures RunUnder(plan, Step(plan, j, e).sys, k, terms) == RunUnder(plan, j.sys, k, terms)
  {
    forall t ensures t in RunUnder(plan, Step(plan, j, e).sys, k, terms) <==> t in RunUnder(plan, j.sys, k, terms) {
      OtherSteps(plan, j, e, k, t);
    }
  }

  lemma SessionsCounted(plan: Plan, j: Joint, e: Event, k: nat, terms: set<Terms>)
    requires DistinctNames(plan) && Invariant(plan, j) && k < |plan.stages| && WorkerWithin(plan, j, Only(k, terms))
    ensures |RunUnder(plan, Step(plan, j, e).sys, k, terms)|
            == |RunUnder(plan, j.sys, k, terms)| + if CallsSession(plan, j, e, k) then 1 else 0
  {
    if CallsSession(plan, j, e, k) {
      SessionIsNew(plan, j, e, k, terms);
    } else {
      NoSessionCounted(plan, j, e, k, terms);
    }
  }

  // A stage runs once under each of its terms, at most.
  lemma {:induction false} StageSessionsAre(plan: Plan, created: int, approver: Option<string>, events: seq<Event>,
                                            k: nat, terms: set<Terms>)
    requires DistinctNames(plan) && k < |plan.stages|
    requires Within(plan, Started(created, approver), events, Only(k, terms))
    ensures var j := Started(created, approver);
            && StageSessions(plan, j, events, k) == |RunUnder(plan, RunFrom(plan, j, events).sys, k, terms)|
            && StageSessions(plan, j, events, k) <= |terms|
  {
    var j := Started(created, approver);
    if events == [] {
      assert RunUnder(plan, j.sys, k, terms) == {};
    } else {
      StageSessionsAre(plan, created, approver, Front(events), k, terms);
      StartedInvariant(plan, created, approver);
      InvariantFrom(plan, j, Front(events));
      WorkerWithinFrom(plan, j, Front(events), Only(k, terms));
      SessionsCounted(plan, RunFrom(plan, j, Front(events)), Last(events), k, terms);
    }
    SubsetSize(RunUnder(plan, RunFrom(plan, j, events).sys, k, terms), terms);
  }

  lemma {:induction false} SubsetSize(a: set<Terms>, b: set<Terms>)
    requires a <= b
    ensures |a| <= |b|
    decreases a
  {
    if t :| t in a {
      SubsetSize(a - {t}, b - {t});
    }
  }

  // --- A stage recorded as succeeded has run ---

  // An operation of stage k has succeeded, and run_session was called for it.
  ghost predicate Done(plan: Plan, sys: D.System, k: nat)
    requires k < |plan.stages|
  {
    exists id :: && id in sys.ops && sys.ops[id].key == KeyOf(plan, plan.stages[k], TermsOf(sys.ops[id].key))
                 && sys.ops[id].status == O.Succeeded && sys.sessions[sys.ops[id].key] > 0
  }

  // A worker that has a result to record has called run_session; a dispatch that ended well is done, and so is every
  // stage with a succeeded row.
  ghost predicate RunsRecorded(plan: Plan, j: Joint) {
    && (0 in j.sys.workers && j.sys.workers[0].phase == D.ToFinish ==> j.sys.sessions[j.sys.workers[0].task.key] > 0)
    && (j.ended == Some(true) ==> InStage(plan, j.m) && Done(plan, j.sys, j.m.exec.index))
    && (forall k :: 0 <= k < |plan.stages| && !RowOpen(j.m.run.stages, k) ==> Done(plan, j.sys, k))
  }

  predicate RowOpen(rows: seq<StageRow>, k: nat) {
    k < |rows| ==> rows[k].status != StageSucceeded
  }

  lemma RowStaysOpen(plan: Plan, m: M.Machine, e: M.Event, k: nat)
    requires DistinctNames(plan) && M.Invariant(plan, m) && k < |plan.stages| && RowOpen(m.run.stages, k)
    requires InStage(plan, m) && m.exec.index == k && e.Advance? && !e.raises ==> !e.seen.dispatchOk
    ensures RowOpen(M.Step(plan, m, e).run.stages, k)
  {
    if e.Cancel? {
    } else if e.Advance? && m.exec.AtStage? && m.exec.index < |plan.stages| {
      StageKeepsRowOpen(plan, m, e, k);
    }
  }

  lemma WorkKeepsRowOpen(plan: Plan, m: M.Machine, e: M.Event, k: nat)
    requires DistinctNames(plan) && M.Invariant(plan, m) && k < |plan.stages| && RowOpen(m.run.stages, k)
    requires e.Advance? && !e.raises && m.exec.AtStage? && m.exec.phase == M.Working
    requires m.exec.index == k ==> !e.seen.dispatchOk
    ensures RowOpen(M.WorkStep(plan, m, e).run.stages, k)
  {
    var i, stage := m.exec.index, plan.stages[m.exec.index];
    assert WorkerDispatch in CompileStage(stage);
    M.FinishRows(plan, m.run, e.now, i, if AllOk(stage, e.seen) then StageSucceeded else StageFailed);
  }

  lemma StageKeepsRowOpen(plan: Plan, m: M.Machine, e: M.Event, k: nat)
    requires DistinctNames(plan) && M.Invariant(plan, m) && k < |plan.stages| && RowOpen(m.run.stages, k)
    requires e.Advance? && m.exec.AtStage? && m.exec.index < |plan.stages|
    requires m.exec.phase == M.Working && m.exec.index == k && !e.raises ==> !e.seen.dispatchOk
    ensures RowOpen(M.StageStep(plan, m, e).run.stages, k)
  {
    var i := m.exec.index;
    match m.exec.phase {
      case Preparing => M.BeginRows(plan, m.run, e.now, i);
      case Restarting => M.BeginRows(plan, m.run, e.now, i);
      case Failing => M.FinishRows(plan, m.run, e.now, i, StageFailed);
      case Working =>
        if !e.raises {
          WorkKeepsRowOpen(plan, m, e, k);
        }
      case _ =>
    }
  }

  lemma DoneStays(plan: Plan, sys: D.System, e: D.Event, k: nat)
    requires D.Consistent(sys) && k < |plan.stages| && Done(plan, sys, k)
    ensures Done(plan, D.Step(sys, e), k)
  {
    var id :| && id in sys.ops && sys.ops[id].key == KeyOf(plan, plan.stages[k], TermsOf(sys.ops[id].key))
              && sys.ops[id].status == O.Succeeded && sys.sessions[sys.ops[id].key] > 0;
    D.StepKeepsSessions(sys, e, sys.ops[id].key);
    D.StepKeepsOperation(sys, e, id);
    assert D.Step(sys, e).ops[id].status == O.Succeeded;
  }

  // A dispatch ends well by recording a session that succeeded.
  lemma EndsDone(plan: Plan, j: Joint, input: D.Input)
    requires Invariant(plan, j) && RunsRecorded(plan, j) && 0 in j.sys.workers
    requires TurnOf(j.sys, input) == Ends(true)
    ensures Done(plan, D.AdvanceWorker(j.sys, 0, input), j.m.exec.index)
  {
    var w := j.sys.workers[0];
    assert D.WorkerConsistent(j.sys.ops, w);
    assert w.phase == D.ToFinish && w.summary.ok;
    D.ApplyCallKeepsOthers(j.sys, 0, D.NextCall(w, input));
    O.TransitionAcceptedIff(j.sys.ops, input.now, w.opId, O.Succeeded, D.FinishPatch(w.summary));
    var after := D.AdvanceWorker(j.sys, 0, input);
    assert w.opId in after.ops && after.ops[w.opId].status == O.Succeeded && after.ops[w.opId].key == w.task.key;
  }

  // A worker comes to a result only through its session.
  lemma ResultComesFromSession(j: Joint, input: D.Input)
    requires D.Consistent(j.sys) && 0 in j.sys.workers
    requires j.sys.workers[0].phase == D.ToFinish ==> j.sys.sessions[j.sys.workers[0].task.key] > 0
    ensures var after := D.AdvanceWorker(j.sys, 0, input);
            0 in after.workers && after.workers[0].phase == D.ToFinish ==>
              after.sessions[after.workers[0].task.key] > 0
  {
    var w := j.sys.workers[0];
    if w.phase != D.ToSession && O.Answer(j.sys.ops, D.NextCall(w, input)).Ok? {
      D.AnswerInTable(j.sys.ops, D.NextCall(w, input));
    }
  }

  lemma WorkerRecorded(plan: Plan, j: Joint, e: Event)
    requires Invariant(plan, j) && RunsRecorded(plan, j)
    ensures var after := Step(plan, j, e);
            0 in after.sys.workers && after.sys.workers[0].phase == D.ToFinish ==>
              after.sys.sessions[after.sys.workers[0].task.key] > 0
  {
    if e.Go? && InStage(plan, j.m) && 0 in j.sys.workers && !e.raises {
      ResultComesFromSession(j, e.input);
    }
  }

  // A dispatch that has ended well stays done until the executor takes note of it.
  lemma EndStays(plan: Plan, j: Joint, e: Event)
    requires Invariant(plan, j) && RunsRecorded(plan, j) && j.ended == Some(true) && !e.Crash? && !e.Go?
    ensures var after := Step(plan, j, e); InStage(plan, after.m) && Done(plan, after.sys, after.m.exec.index)
  {
    var de := DispatchEvent(plan, j, e);
    if de.Some? {
      DoneStays(plan, j.sys, de.value, j.m.exec.index);
    }
  }

  lemma EndRecorded(plan: Plan, j: Joint, e: Event)
    requires Invariant(plan, j) && RunsRecorded(plan, j) && Step(plan, j, e).ended == Some(true)
    ensures var after := Step(plan, j, e); InStage(plan, after.m) && Done(plan, after.sys, after.m.exec.index)
  {
    if e.Go? {
      EndsDone(plan, j, e.input);
    } else {
      EndStays(plan, j, e);
    }
  }

  lemma RowRecorded(plan: Plan, j: Joint, e: Event, k: nat)
    requires DistinctNames(plan) && Invariant(plan, j) && RunsRecorded(plan, j) && k < |plan.stages|
    requires !RowOpen(Step(plan, j, e).m.run.stages, k)
    ensures Done(plan, Step(plan, j, e).sys, k)
  {
    var me, de := MachineEvent(plan, j, e), DispatchEvent(plan, j, e);
    if RowOpen(j.m.run.stages, k) && !(InStage(plan, j.m) && j.m.exec.index == k && j.ended == Some(true)) {
      assert me.Some?;
      RowStaysOpen(plan, j.m, me.value, k);
      assert false;
    }
    if de.Some? {
      DoneStays(plan, j.sys, de.value, k);
    }
  }

  lemma {:induction false} RecordedFrom(plan: Plan, j: Joint, events: seq<Event>)
    requires DistinctNames(plan) && Invariant(plan, j) && RunsRecorded(plan, j)
    ensures Invariant(plan, RunFrom(plan, j, events)) && RunsRecorded(plan, RunFrom(plan, j, events))
  {
    if events != [] {
      RecordedFrom(plan, j, Front(events));
      var before, e := RunFrom(plan, j, Front(events)), Last(events);
      StepKeeps(plan, before, e);
      WorkerRecorded(plan, before, e);
      if Step(plan, before, e).ended == Some(true) {
        EndRecorded(plan, before, e);
      }
      forall k | 0 <= k < |plan.stages| && !RowOpen(Step(plan, before, e).m.run.stages, k)
        ensures Done(plan, Step(plan, before, e).sys, k)
      {
        RowRecorded(plan, before, e, k);
      }
    }
  }

  // Over every history with failures, crashes, cancels, resumes and calls by others, a stage recorded as succeeded has
  // an operation that has succeeded and for which run_session was called.
  lemma SucceededStagesRan(plan: Plan, created: int, approver: Option<string>, events: seq<Event>, k: nat)
    requires DistinctNames(plan)
    requires var rows := RunFrom(plan, Started(created, approver), events).m.run.stages;
             k < |rows| && k < |plan.stages| && rows[k].status == StageSucceeded
    ensures Done(plan, RunFrom(plan, Started(created, approver), events).sys, k)
  {
    StartedInvariant(plan, created, approver);
    RecordedFrom(plan, Started(created, approver), events);
    assert !RowOpen(RunFrom(plan, Started(created, approver), events).m.run.stages, k);
  }

  // --- When a stage can still be dispatched ---

  // The statuses the marking call accepts.
  predicate Markable(status: O.Status, approvalRequired: bool) {
    status in {O.Proposed, O.PendingApproval} || (status == O.Approved && !approvalRequired)
  }

  // Under these terms the stage has no operation yet, or one that can still be marked.
  ghost predicate Open(plan: Plan, ops: O.OpTable, stage: StagePlan, terms: Terms) {
    forall id :: id in ops && ops[id].key == KeyOf(plan, stage, terms) ==>
                   Markable(ops[id].status, stage.approvalRequired)
  }

  // The stage can be dispatched under some terms it may be attempted under.
  ghost predicate Available(plan: Plan, ops: O.OpTable, k: nat, may: Allowed)
    requires k < |plan.stages|
  {
    exists terms :: may(k, terms) && Open(plan, ops, plan.stages[k], terms)
  }

  lemma ClosedStays(plan: Plan, ops: O.OpTable, call: O.OpCall, stage: StagePlan, terms: Terms)
    requires O.TableConsistent(ops) && !Open(plan, ops, stage, terms)
    ensures !Open(plan, O.Step(ops, call), stage, terms)
  {
    var id :| id in ops && ops[id].key == KeyOf(plan, stage, terms)
              && !Markable(ops[id].status, stage.approvalRequired);
    O.OperationStep(ops, call, id);
    assert !Markable(O.Step(ops, call)[id].status, stage.approvalRequired);
  }

  lemma MarkRefused(plan: Plan, ops: O.OpTable, w: D.Worker, input: D.Input, stage: StagePlan, terms: Terms)
    requires O.TableConsistent(ops) && D.WorkerConsistent(ops, w) && !Open(plan, ops, stage, terms)
    requires w.phase == D.ToMark && w.task == TaskOf(plan, stage, terms)
    ensures O.Answer(ops, D.NextCall(w, input)).Err?
  {
    var id :| id in ops && ops[id].key == KeyOf(plan, stage, terms)
              && !Markable(ops[id].status, stage.approvalRequired);
    assert id == w.opId;
  }

  // --- A stage that cannot be dispatched any more never succeeds ---

  ghost predicate Blocked(plan: Plan, j: Joint, k: nat, may: Allowed) {
    && k < |plan.stages| && !Available(plan, j.sys.ops, k, may) && RowOpen(j.m.run.stages, k)
    && WorkerWithin(plan, j, may)
    && (InStage(plan, j.m) && j.m.exec.index == k ==>
          j.ended != Some(true) && (0 in j.sys.workers ==> j.sys.workers[0].phase in {D.ToBegin, D.ToMark}))
  }

  lemma ClosedAfter(plan: Plan, sys: D.System, e: D.Event, stage: StagePlan, terms: Terms)
    requires O.TableConsistent(sys.ops) && !Open(plan, sys.ops, stage, terms)
    ensures !Open(plan, D.Step(sys, e).ops, stage, terms)
  {
    match e {
      case Outside(call) => ClosedStays(plan, sys.ops, call, stage, terms);
      case Advance(pid, input) =>
        if pid in sys.workers && sys.workers[pid].phase != D.ToSession {
          ClosedStays(plan, sys.ops, D.NextCall(sys.workers[pid], input), stage, terms);
        }
      case _ =>
    }
  }

  lemma UnavailableAfter(plan: Plan, sys: D.System, e: D.Event, k: nat, may: Allowed)
    requires k < |plan.stages| && O.TableConsistent(sys.ops) && !Available(plan, sys.ops, k, may)
    ensures !Available(plan, D.Step(sys, e).ops, k, may)
  {
    forall terms | may(k, terms) ensures !Open(plan, D.Step(sys, e).ops, plan.stages[k], terms) {
      ClosedAfter(plan, sys, e, plan.stages[k], terms);
    }
  }

  // The worker of a blocked stage is turned away at its marking call.
  lemma BlockedWorker(plan: Plan, j: Joint, input: D.Input, k: nat, may: Allowed)
    requires Invariant(plan, j) && Blocked(plan, j, k, may) && InStage(plan, j.m) && j.m.exec.index == k
    requires 0 in j.sys.workers
    ensures !TurnOf(j.sys, input).Ends?
    ensures var after := D.AdvanceWorker(j.sys, 0, input);
            0 in after.workers ==> after.workers[0].phase in {D.ToBegin, D.ToMark}
  {
    var w := j.sys.workers[0];
    assert D.WorkerConsistent(j.sys.ops, w);
    if w.phase == D.ToMark {
      MarkRefused(plan, j.sys.ops, w, input, plan.stages[k], TermsOf(w.task.key));
    } else if O.Answer(j.sys.ops, D.NextCall(w, input)).Ok? {
      D.AnswerInTable(j.sys.ops, D.NextCall(w, input));
    }
  }

  lemma BlockedWork(plan: Plan, j: Joint, e: Event, k: nat, may: Allowed)
    requires Invariant(plan, j) && Blocked(plan, j, k, may)
    ensures var after := Step(plan, j, e);
            InStage(plan, after.m) && after.m.exec.index == k ==>
              && after.ended != Some(true)
              && (0 in after.sys.workers ==> after.sys.workers[0].phase in {D.ToBegin, D.ToMark})
  {
    if e.Go? && InStage(plan, j.m) && j.m.exec.index == k && 0 in j.sys.workers {
      BlockedWorker(plan, j, e.input, k, may);
    }
  }

  lemma BlockedStays(plan: Plan, j: Joint, e: Event, k: nat, may: Allowed)
    requires DistinctNames(plan) && Invariant(plan, j) && Blocked(plan, j, k, may) && WithinStep(plan, j, e, may)
    ensures Blocked(plan, Step(plan, j, e), k, may)
  {
    var me, de := MachineEvent(plan, j, e), DispatchEvent(plan, j, e);
    if de.Some? {
      UnavailableAfter(plan, j.sys, de.value, k, may);
    }
    if me.Some? {
      RowStaysOpen(plan, j.m, me.value, k);
    }
    BlockedWork(plan, j, e, k, may);
    WorkerWithinStep(plan, j, e, may);
  }

  // Nor does its session run.
  lemma {:induction false} BlockedNeverSucceeds(plan: Plan, j: Joint, events: seq<Event>, k: nat, may: Allowed)
    requires DistinctNames(plan) && Invariant(plan, j) && Blocked(plan, j, k, may) && Within(plan, j, events, may)
    ensures Blocked(plan, RunFrom(plan, j, events), k, may)
    ensures RunFrom(plan, j, events).m.run.status != Succeeded && StageSessions(plan, j, events, k) == 0
  {
    InvariantFrom(plan, j, events);
    if events != [] {
      BlockedNeverSucceeds(plan, j, Front(events), k, may);
      InvariantFrom(plan, j, Front(events));
      BlockedStays(plan, RunFrom(plan, j, Front(events)), Last(events), k, may);
    }
  }

  // --- An open stage can be dispatched to success ---

  const DONE := D.Summary(true, "", None)

  // A step of the executor that meets no trouble.
  function Smoothly(id: string, terms: Terms): Event {
    Go(0, false, H.CLEAN, "", SmoothInput(id), terms)
  }

  function SmoothInput(id: string): D.Input {
    D.Input(0, id, true, Some(DONE))
  }

  // Operations of other contracts are as before.
  ghost predicate OthersKept(before: O.OpTable, after: O.OpTable, key: O.OpKey) {
    forall id :: id in after && after[id].key != key ==> id in before && before[id] == after[id]
  }

  lemma CallKeepsOthers(ops: O.OpTable, w: D.Worker, input: D.Input)
    requires O.TableConsistent(ops) && D.WorkerConsistent(ops, w) && w.phase != D.ToSession
    ensures OthersKept(ops, O.Step(ops, D.NextCall(w, input)), w.task.key)
  {
    if w.phase != D.ToBegin && O.Answer(ops, D.NextCall(w, input)).Ok? {
      O.RowAfterConsistent(ops[w.opId], D.NextCall(w, input));
    }
  }

  // Worker 0 stands before a phase, its operation in a status.
  ghost predicate Stands(sys: D.System, phase: D.Phase, status: O.Status) {
    && D.Consistent(sys) && 0 in sys.workers && sys.workers[0].phase == phase
    && sys.workers[0].opId in sys.ops && sys.ops[sys.workers[0].opId].status == status
  }

  // The table holds nothing that would keep the worker's marking call from being accepted.
  ghost predicate Unspent(sys: D.System) {
    0 in sys.workers && forall id :: id in sys.ops && sys.ops[id].key == sys.workers[0].task.key ==>
      Markable(sys.ops[id].status, sys.workers[0].task.approvalRequired)
  }

  lemma BeginGoes(sys: D.System, id: string) returns (status: O.Status)
    requires D.Consistent(sys) && Unspent(sys) && sys.workers[0].phase == D.ToBegin && id !in sys.ops
    ensures Stands(D.AdvanceWorker(sys, 0, SmoothInput(id)), D.ToMark, status)
    ensures Markable(status, sys.workers[0].task.approvalRequired)
  {
    var w := sys.workers[0];
    var call := D.NextCall(w, SmoothInput(id));
    D.StepConsistently(sys, D.Advance(0, SmoothInput(id)));
    var after := D.AdvanceWorker(sys, 0, SmoothInput(id));
    assert O.Answer(sys.ops, call).Ok?;
    D.AnswerInTable(sys.ops, call);
    status := after.ops[after.workers[0].opId].status;
  }

  lemma MarkGoes(sys: D.System, id: string, status: O.Status)
    requires Stands(sys, D.ToMark, status) && Markable(status, sys.workers[0].task.approvalRequired)
    ensures var after := D.AdvanceWorker(sys, 0, SmoothInput(id));
            if sys.workers[0].task.approvalRequired then Stands(after, D.ToPacket, O.PendingApproval)
            else Stands(after, D.ToRun, O.Approved)
  {
    CallGoes(sys, id);
  }

  // A call whose row accepts it goes through.
  lemma CallGoes(sys: D.System, id: string)
    requires D.Consistent(sys) && 0 in sys.workers && sys.workers[0].phase !in {D.ToBegin, D.ToSession}
    requires sys.workers[0].opId in sys.ops
    requires O.RowAfter(sys.ops[sys.workers[0].opId], D.NextCall(sys.workers[0], SmoothInput(id))).Ok?
    ensures var w := sys.workers[0]; var call := D.NextCall(w, SmoothInput(id));
            var after, row := D.AdvanceWorker(sys, 0, SmoothInput(id)), O.RowAfter(sys.ops[w.opId], call).value;
            var next := D.NextWorker(w, w.opId, sys.ops[w.opId := row]);
            && after.ops == sys.ops[w.opId := row] && D.Consistent(after)
            && (0 in after.workers <==> next.Some?) && (next.Some? ==> after.workers[0] == next.value)
  {
    D.StepConsistently(sys, D.Advance(0, SmoothInput(id)));
    D.AnswerInTable(sys.ops, D.NextCall(sys.workers[0], SmoothInput(id)));
  }

  lemma PacketGoes(sys: D.System, id: string)
    requires Stands(sys, D.ToPacket, O.PendingApproval)
    requires sys.workers[0].approver.Some? && !IsBlank(sys.workers[0].approver.value)
    ensures Stands(D.AdvanceWorker(sys, 0, SmoothInput(id)), D.ToApprove, O.PendingApproval)
  {
    CallGoes(sys, id);
  }

  lemma ApproveGoes(sys: D.System, id: string)
    requires Stands(sys, D.ToApprove, O.PendingApproval)
    ensures Stands(D.AdvanceWorker(sys, 0, SmoothInput(id)), D.ToRun, O.Approved)
  {
    CallGoes(sys, id);
  }

  lemma RunGoes(sys: D.System, id: string)
    requires Stands(sys, D.ToRun, O.Approved)
    ensures Stands(D.AdvanceWorker(sys, 0, SmoothInput(id)), D.ToSession, O.Running)
  {
    CallGoes(sys, id);
  }

  lemma SessionGoes(sys: D.System, id: string)
    requires Stands(sys, D.ToSession, O.Running)
    ensures var after := D.AdvanceWorker(sys, 0, SmoothInput(id));
            && Stands(after, D.ToFinish, O.Running) && after.workers[0].summary == DONE
            && after.sessions[sys.workers[0].task.key] > 0
  {
    D.StepConsistently(sys, D.Advance(0, SmoothInput(id)));
  }

  lemma FinishGoes(sys: D.System, id: string)
    requires Stands(sys, D.ToFinish, O.Running) && sys.workers[0].summary == DONE
    ensures TurnOf(sys, SmoothInput(id)) == Ends(true)
  {
    CallGoes(sys, id);
  }

  // The executor has only moved the dispatch of its stage on since `start`, under these terms.
  ghost predicate Reached(plan: Plan, start: Joint, events: seq<Event>, j: Joint, terms: Terms, may: Allowed) {
    && RunFrom(plan, start, events) == j && Within(plan, start, events, may)
    && Invariant(plan, j) && InStage(plan, j.m) && j.m == start.m && j.approver == start.approver
    && OthersKept(start.sys.ops, j.sys.ops, KeyOf(plan, StageOf(plan, j.m), terms))
    && (0 in j.sys.workers ==> TermsOf(j.sys.workers[0].task.key) == terms)
  }

  lemma AdvanceKeepsOthers(sys: D.System, input: D.Input)
    requires D.Consistent(sys) && 0 in sys.workers
    ensures OthersKept(sys.ops, D.AdvanceWorker(sys, 0, input).ops, sys.workers[0].task.key)
  {
    assert D.WorkerConsistent(sys.ops, sys.workers[0]);
    if sys.workers[0].phase != D.ToSession {
      CallKeepsOthers(sys.ops, sys.workers[0], input);
    }
  }

  lemma WithinAppend(plan: Plan, j: Joint, events: seq<Event>, e: Event, may: Allowed)
    requires Within(plan, j, events, may) && WithinStep(plan, RunFrom(plan, j, events), e, may)
    ensures Within(plan, j, events + [e], may)
  {
    assert Front(events + [e]) == events;
  }

  lemma Follow(plan: Plan, start: Joint, events: seq<Event>, j: Joint, id: string, terms: Terms, may: Allowed)
    returns (more: seq<Event>, next: Joint)
    requires DistinctNames(plan) && Reached(plan, start, events, j, terms, may) && 0 in j.sys.workers
    requires !TurnOf(j.sys, SmoothInput(id)).Raises?
    ensures Reached(plan, start, more, next, terms, may) && next.sys == D.AdvanceWorker(j.sys, 0, SmoothInput(id))
    ensures next.ended == if TurnOf(j.sys, SmoothInput(id)).Ends? then Some(TurnOf(j.sys, SmoothInput(id)).ok) else None
    ensures 0 in next.sys.workers ==>
              && next.sys.workers[0].task == j.sys.workers[0].task
              && next.sys.workers[0].approver == j.sys.workers[0].approver
  {
    var e := Smoothly(id, terms);
    more, next := events + [e], Step(plan, j, e);
    FoldAppend(Stepper(plan), start, events, e);
    WithinAppend(plan, start, events, e, may);
    StepKeeps(plan, j, e);
    AdvanceKeepsOthers(j.sys, SmoothInput(id));
    D.AdvanceKeepsTask(j.sys, 0, SmoothInput(id));
  }

  // The executor stands before the dispatch of its stage, which these terms and the approver let through.
  ghost predicate Launchable(plan: Plan, start: Joint, id: string, terms: Terms, may: Allowed) {
    && DistinctNames(plan) && Invariant(plan, start) && InStage(plan, start.m)
    && start.ended.None? && 0 !in start.sys.workers && id !in start.sys.ops
    && may(start.m.exec.index, terms) && Open(plan, start.sys.ops, StageOf(plan, start.m), terms)
    && (StageOf(plan, start.m).approvalRequired ==> Named(start.approver))
  }

  predicate Named(approver: Option<string>) {
    approver.Some? && !IsBlank(approver.value)
  }

  lemma LaunchStep(plan: Plan, start: Joint, id: string, terms: Terms)
    requires InStage(plan, start.m) && start.ended.None? && 0 !in start.sys.workers
    ensures var stage := StageOf(plan, start.m);
            var launch := D.Launch(0, TaskOf(plan, stage, terms),
                                   if stage.approvalRequired then start.approver else None);
            Step(plan, start, Smoothly(id, terms)) == start.(sys := D.Step(start.sys, launch))
  {
  }

  lemma Launches(plan: Plan, start: Joint, id: string, terms: Terms, may: Allowed)
    returns (events: seq<Event>, next: Joint)
    requires Launchable(plan, start, id, terms, may)
    ensures Reached(plan, start, events, next, terms, may) && next.sys.ops == start.sys.ops && next.ended.None?
    ensures 0 in next.sys.workers && next.sys.workers[0].phase == D.ToBegin
    ensures var stage, w := StageOf(plan, start.m), next.sys.workers[0];
            && w.task == TaskOf(plan, stage, terms)
            && w.approver == if stage.approvalRequired then start.approver else None
  {
    var e := Smoothly(id, terms);
    events, next := [] + [e], Step(plan, start, e);
    FoldAppend(Stepper(plan), start, [], e);
    WithinAppend(plan, start, [], e, may);
    StepKeeps(plan, start, e);
    LaunchStep(plan, start, id, terms);
  }

  // From the launch to the gate.
  lemma ReachesGate(plan: Plan, start: Joint, id: string, terms: Terms, may: Allowed)
    returns (events: seq<Event>, j: Joint)
    requires Launchable(plan, start, id, terms, may)
    ensures Reached(plan, start, events, j, terms, may) && Stands(j.sys, D.ToRun, O.Approved) && j.ended.None?
    ensures j.sys.workers[0].task == TaskOf(plan, StageOf(plan, start.m), terms)
  {
    events, j := Launches(plan, start, id, terms, may);
    var status := BeginGoes(j.sys, id);
    events, j := Follow(plan, start, events, j, id, terms, may);
    MarkGoes(j.sys, id, status);
    events, j := Follow(plan, start, events, j, id, terms, may);
    if StageOf(plan, start.m).approvalRequired {
      PacketGoes(j.sys, id);
      events, j := Follow(plan, start, events, j, id, terms, may);
      ApproveGoes(j.sys, id);
      events, j := Follow(plan, start, events, j, id, terms, may);
    }
  }

  // Through the gate and run_session.
  lemma SessionRuns(plan: Plan, start: Joint, id: string, terms: Terms, may: Allowed)
    returns (events: seq<Event>, j: Joint)
    requires Launchable(plan, start, id, terms, may)
    ensures Reached(plan, start, events, j, terms, may) && Stands(j.sys, D.ToFinish, O.Running) && j.ended.None?
    ensures j.sys.workers[0].summary == DONE
    ensures j.sys.sessions[KeyOf(plan, StageOf(plan, start.m), terms)] > 0
  {
    events, j := ReachesGate(plan, start, id, terms, may);
    RunGoes(j.sys, id);
    events, j := Follow(plan, start, events, j, id, terms, may);
    SessionGoes(j.sys, id);
    events, j := Follow(plan, start, events, j, id, terms, may);
  }

  lemma DispatchSucceeds(plan: Plan, start: Joint, id: string, terms: Terms, may: Allowed)
    returns (events: seq<Event>, j: Joint)
    requires Launchable(plan, start, id, terms, may)
    ensures Reached(plan, start, events, j, terms, may) && j.ended == Some(true)
    ensures j.sys.sessions[KeyOf(plan, StageOf(plan, start.m), terms)] > 0
  {
    events, j := SessionRuns(plan, start, id, terms, may);
    FinishGoes(j.sys, id);
    var before := j;
    events, j := Follow(plan, start, events, j, id, terms, may);
    D.ApplyCallKeepsOthers(before.sys, 0, D.NextCall(before.sys.workers[0], SmoothInput(id)));
  }

  // --- From a resume to the end of the plan ---

  ghost predicate AvailableFrom(plan: Plan, ops: O.OpTable, i: nat, may: Allowed) {
    forall k :: i <= k < |plan.stages| ==> Available(plan, ops, k, may)
  }

  lemma AvailableKept(plan: Plan, before: O.OpTable, after: O.OpTable, i: nat, terms: Terms, may: Allowed)
    requires DistinctNames(plan) && i < |plan.stages| && AvailableFrom(plan, before, i, may)
    requires OthersKept(before, after, KeyOf(plan, plan.stages[i], terms))
    ensures AvailableFrom(plan, after, i + 1, may)
  {
    forall k | i + 1 <= k < |plan.stages| ensures Available(plan, after, k, may) {
      assert Available(plan, before, k, may);
      var t :| may(k, t) && Open(plan, before, plan.stages[k], t);
      KeysDistinct(plan, i, k, terms, t);
      assert Open(plan, after, plan.stages[k], t);
    }
  }

  lemma {:induction false} LongerThanAll(texts: set<string>) returns (n: nat)
    ensures forall text :: text in texts ==> |text| < n
    decreases texts
  {
    n := 0;
    if text :| text in texts {
      n := LongerThanAll(texts - {text});
      n := n + |text| + 1;
    }
  }

  lemma FreshId(ops: O.OpTable) returns (id: string)
    ensures id !in ops
  {
    var n := LongerThanAll(ops.Keys);
    id := seq(n, i => 'x');
  }

  lemma One(plan: Plan, j: Joint, e: Event)
    ensures RunFrom(plan, j, [e]) == Step(plan, j, e)
  {
    FoldAppend(Stepper(plan), j, [], e);
    assert [] + [e] == [e];
  }

  // Outside a stage's dispatch the executor moves as it does alone.
  lemma GoesAlone(plan: Plan, j: Joint)
    requires DistinctNames(plan) && Invariant(plan, j) && (!InStage(plan, j.m) || j.ended == Some(true))
    ensures var next := Step(plan, j, ALONE);
            && next == j.(m := M.Step(plan, j.m, H.GO), ended := None) && Invariant(plan, next)
    ensures !Attempts(plan, j, ALONE)
  {
    StepKeeps(plan, j, ALONE);
    assert H.CLEAN.(dispatchOk := true) == H.CLEAN;
  }

  const ALONE := Smoothly("", Terms("", ""))

  // One more step that starts no attempt.
  lemma Moves(plan: Plan, start: Joint, events: seq<Event>, e: Event, may: Allowed)
    requires Within(plan, start, events, may) && !Attempts(plan, RunFrom(plan, start, events), e)
    ensures RunFrom(plan, start, events + [e]) == Step(plan, RunFrom(plan, start, events), e)
    ensures Within(plan, start, events + [e], may)
  {
    FoldAppend(Stepper(plan), start, events, e);
    WithinAppend(plan, start, events, e, may);
  }

  // The executor comes to work on the stage.
  lemma StageBegins(plan: Plan, j: Joint, may: Allowed) returns (events: seq<Event>, working: Joint)
    requires DistinctNames(plan) && Invariant(plan, j) && j.m.exec.AtStage? && j.m.exec.phase == M.Preparing
    ensures RunFrom(plan, j, events) == working && Within(plan, j, events, may)
    ensures Invariant(plan, working) && InStage(plan, working.m) && working.m.exec.index == j.m.exec.index
    ensures working.sys == j.sys && working.approver == j.approver && working.ended.None?
    ensures 0 !in working.sys.workers && H.Resumable(working.m.run)
    ensures |working.m.run.stages| == j.m.exec.index + 1
  {
    GoesAlone(plan, j);
    H.GoStep(plan, j.m);
    M.BeginRows(plan, j.m.run, 0, j.m.exec.index);
    Moves(plan, j, [], ALONE, may);
    events, working := [] + [ALONE], Step(plan, j, ALONE);
  }

  lemma StagePasses(plan: Plan, j: Joint, terms: Terms, may: Allowed) returns (events: seq<Event>, next: Joint)
    requires DistinctNames(plan) && Invariant(plan, j) && j.m.exec.AtStage? && j.m.exec.phase == M.Preparing
    requires Named(j.approver) && may(j.m.exec.index, terms)
    requires Open(plan, j.sys.ops, plan.stages[j.m.exec.index], terms)
    ensures RunFrom(plan, j, events) == next && Within(plan, j, events, may)
    ensures Invariant(plan, next) && next.approver == j.approver
    ensures H.BeforeStage(plan, next.m.exec, j.m.exec.index + 1)
    ensures OthersKept(j.sys.ops, next.sys.ops, KeyOf(plan, plan.stages[j.m.exec.index], terms))
    ensures next.sys.sessions[KeyOf(plan, plan.stages[j.m.exec.index], terms)] > 0
  {
    var id := FreshId(j.sys.ops);
    var begin, working := StageBegins(plan, j, may);
    var dispatch, done := DispatchSucceeds(plan, working, id, terms, may);
    GoesAlone(plan, done);
    H.GoStep(plan, done.m);
    var completed := Step(plan, done, ALONE);
    GoesAlone(plan, completed);
    H.GoStep(plan, completed.m);
    next := Step(plan, completed, ALONE);
    FoldCompose(Stepper(plan), j, begin, dispatch);
    WithinCompose(plan, j, begin, dispatch, may);
    Moves(plan, j, begin + dispatch, ALONE, may);
    Moves(plan, j, begin + dispatch + [ALONE], ALONE, may);
    events := begin + dispatch + [ALONE] + [ALONE];
  }

  lemma FinishFrom(plan: Plan, j: Joint, may: Allowed) returns (events: seq<Event>)
    requires DistinctNames(plan) && Invariant(plan, j) && Named(j.approver)
    requires j.m.exec.Finishing? || (&& j.m.exec.AtStage? && j.m.exec.phase == M.Preparing
                                     && AvailableFrom(plan, j.sys.ops, j.m.exec.index, may))
    ensures RunFrom(plan, j, events).m.run.status == Succeeded && Within(plan, j, events, may)
    decreases if j.m.exec.AtStage? then |plan.stages| - j.m.exec.index else 0
  {
    if j.m.exec.Finishing? {
      GoesAlone(plan, j);
      Moves(plan, j, [], ALONE, may);
      events := [] + [ALONE];
    } else {
      assert Available(plan, j.sys.ops, j.m.exec.index, may);
      var terms :| may(j.m.exec.index, terms) && Open(plan, j.sys.ops, plan.stages[j.m.exec.index], terms);
      var stage, next := StagePasses(plan, j, terms, may);
      AvailableKept(plan, j.sys.ops, next.sys.ops, j.m.exec.index, terms, may);
      var rest := FinishFrom(plan, next, may);
      events := stage + rest;
      FoldCompose(Stepper(plan), j, stage, rest);
      WithinCompose(plan, j, stage, rest, may);
    }
  }

  const OPERATOR := Some("operator")

  lemma OperatorIsNamed()
    ensures Named(OPERATOR)
  {
    assert !IsSpace("operator"[0]);
  }

  lemma AcceptedResume(plan: Plan, j: Joint)
    requires DistinctNames(plan) && Invariant(plan, j) && j.m.exec.Idle? && H.Resumable(j.m.run)
    ensures var resumed := Step(plan, j, Resume(OPERATOR));
            && resumed == j.(m := M.Step(plan, j.m, M.Resume), approver := OPERATOR)
            && Invariant(plan, resumed)
  {
    StepKeeps(plan, j, Resume(OPERATOR));
    H.ResumeAcceptedIff(plan, j.m.run);
  }

  // An accepted resume brings the executor to the last stage.
  lemma ResumeReaches(plan: Plan, j: Joint, may: Allowed) returns (events: seq<Event>, next: Joint)
    requires DistinctNames(plan) && Invariant(plan, j) && j.m.exec.Idle? && H.Resumable(j.m.run)
    ensures RunFrom(plan, j, events) == next && Within(plan, j, events, may)
    ensures Invariant(plan, next) && Named(next.approver) && next.sys == j.sys
    ensures H.BeforeStage(plan, next.m.exec, |j.m.run.stages| - 1)
  {
    H.ResumeReaches(plan, j.m);
    AcceptedResume(plan, j);
    OperatorIsNamed();
    var s1 := Step(plan, j, Resume(OPERATOR));
    GoesAlone(plan, s1);
    var s2 := Step(plan, s1, ALONE);
    GoesAlone(plan, s2);
    var s3 := Step(plan, s2, ALONE);
    GoesAlone(plan, s3);
    next := Step(plan, s3, ALONE);
    Moves(plan, j, [], Resume(OPERATOR), may);
    Moves(plan, j, [] + [Resume(OPERATOR)], ALONE, may);
    Moves(plan, j, [] + [Resume(OPERATOR)] + [ALONE], ALONE, may);
    Moves(plan, j, [] + [Resume(OPERATOR)] + [ALONE] + [ALONE], ALONE, may);
    events := [] + [Resume(OPERATOR)] + [ALONE] + [ALONE] + [ALONE];
  }

  // --- Main result: which interrupted runs can still succeed ---

  lemma UnresumableNeverSucceeds(plan: Plan, j: Joint, events: seq<Event>)
    requires DistinctNames(plan) && Invariant(plan, j) && j.m.exec.Idle? && j.m.run.status != Succeeded
    requires !H.Resumable(j.m.run)
    ensures RunFrom(plan, j, events).m.run.status != Succeeded
  {
    RunsTheMachine(plan, j, events);
    H.StrandedStays(plan, j.m, MachineEvents(plan, j, events));
  }

  lemma ResumeAndFinish(plan: Plan, j: Joint, may: Allowed) returns (events: seq<Event>)
    requires DistinctNames(plan) && Invariant(plan, j) && j.m.exec.Idle? && H.Resumable(j.m.run)
    requires AvailableFrom(plan, j.sys.ops, |j.m.run.stages| - 1, may)
    ensures RunFrom(plan, j, events).m.run.status == Succeeded && Within(plan, j, events, may)
  {
    var resume, next := ResumeReaches(plan, j, may);
    var rest := FinishFrom(plan, next, may);
    FoldCompose(Stepper(plan), j, resume, rest);
    WithinCompose(plan, j, resume, rest, may);
    events := resume + rest;
  }

  // An interrupted run blocks at every stage from its last that is not available any more.
  lemma UnavailableIsBlocked(plan: Plan, j: Joint, k: nat, may: Allowed)
    requires Invariant(plan, j) && j.m.exec.Idle? && H.Resumable(j.m.run)
    requires |j.m.run.stages| - 1 <= k < |plan.stages| && !Available(plan, j.sys.ops, k, may)
    ensures Blocked(plan, j, k, may)
  {
  }

  lemma UnavailableNeverSucceeds(plan: Plan, j: Joint, events: seq<Event>, may: Allowed)
    requires DistinctNames(plan) && Invariant(plan, j) && j.m.exec.Idle? && H.Resumable(j.m.run)
    requires !AvailableFrom(plan, j.sys.ops, |j.m.run.stages| - 1, may) && Within(plan, j, events, may)
    ensures RunFrom(plan, j, events).m.run.status != Succeeded
  {
    var k: nat :| |j.m.run.stages| - 1 <= k < |plan.stages| && !Available(plan, j.sys.ops, k, may);
    UnavailableIsBlocked(plan, j, k, may);
    BlockedNeverSucceeds(plan, j, events, k, may);
  }

  // An interrupted run can still succeed, by attempts under the terms allowed, exactly when resume would accept it and
  // its last stage and every later one may be attempted under terms whose operation is absent or not past marking. An
  // operation is past marking when it has run - whether its session failed, raised, was cut short, or succeeded before
  // a gate failed - or, when approval is required, when it is already approved.
  lemma CanSucceedIff(plan: Plan, j: Joint, may: Allowed)
    requires DistinctNames(plan) && Invariant(plan, j) && j.m.exec.Idle? && j.m.run.status != Succeeded
    ensures (exists events :: Within(plan, j, events, may) && RunFrom(plan, j, events).m.run.status == Succeeded) <==>
              H.Resumable(j.m.run) && AvailableFrom(plan, j.sys.ops, |j.m.run.stages| - 1, may)
  {
    if !H.Resumable(j.m.run) {
      forall events ensures RunFrom(plan, j, events).m.run.status != Succeeded {
        UnresumableNeverSucceeds(plan, j, events);
      }
    } else if AvailableFrom(plan, j.sys.ops, |j.m.run.stages| - 1, may) {
      var events := ResumeAndFinish(plan, j, may);
    } else {
      forall events | Within(plan, j, events, may) ensures RunFrom(plan, j, events).m.run.status != Succeeded {
        UnavailableNeverSucceeds(plan, j, events, may);
      }
    }
  }

  // There are always terms nothing has been begun under, such as a new branch.
  lemma NewTerms(plan: Plan, ops: O.OpTable, stage: StagePlan) returns (terms: Terms)
    ensures Open(plan, ops, stage, terms)
  {
    var n := LongerThanAll(set id | id in ops :: ops[id].key.scope);
    terms := Terms(seq(n, i => 'x'), "");
  }

  function Anything(): Allowed {
    (k, terms) => true
  }

  // So when branches and prompts may change, every run that resume accepts can succeed.
  lemma ChangedTermsCanSucceedIff(plan: Plan, j: Joint)
    requires DistinctNames(plan) && Invariant(plan, j) && j.m.exec.Idle? && j.m.run.status != Succeeded
    ensures (exists events :: RunFrom(plan, j, events).m.run.status == Succeeded) <==> H.Resumable(j.m.run)
  {
    CanSucceedIff(plan, j, Anything());
    forall k | 0 <= k < |plan.stages| ensures Available(plan, j.sys.ops, k, Anything()) {
      var terms := NewTerms(plan, j.sys.ops, plan.stages[k]);
      assert Anything()(k, terms);
    }
    forall events ensures Within(plan, j, events, Anything()) {
      AllWithin(plan, j, events);
    }
  }

  lemma {:induction false} AllWithin(plan: Plan, j: Joint, events: seq<Event>)
    ensures Within(plan, j, events, Anything())
  {
    if events != [] {
      AllWithin(plan, j, Front(events));
    }
  }

  // --- In a history where nobody else begins the operations of the plan's stages ---

  predicate LeavesStagesAlone(plan: Plan, e: Event) {
    e.Outside? && e.call.Begin? ==>
      forall k :: 0 <= k < |plan.stages| ==> e.call.key != KeyOf(plan, plan.stages[k], TermsOf(e.call.key))
  }

  predicate StagesLeftAlone(plan: Plan, events: seq<Event>) {
    forall i :: 0 <= i < |events| ==> LeavesStagesAlone(plan, events[i])
  }

  // Stages without a row have no operation.
  ghost predicate NothingAhead(plan: Plan, j: Joint) {
    forall k, id :: |j.m.run.stages| <= k < |plan.stages| && id in j.sys.ops ==>
        j.sys.ops[id].key != KeyOf(plan, plan.stages[k], TermsOf(j.sys.ops[id].key))
  }

  lemma RowsNeverShrink(plan: Plan, m: M.Machine, e: M.Event)
    ensures |M.Step(plan, m, e).run.stages| >= |m.run.stages|
  {
    if e.Advance? && m.exec.AtStage? && m.exec.index < |plan.stages| {
      match m.exec.phase {
        case Working =>
        case _ =>
      }
    }
  }

  lemma DispatchStepAlone(plan: Plan, j: Joint, input: D.Input, k: nat, id: string)
    requires DistinctNames(plan) && Invariant(plan, j) && NothingAhead(plan, j) && 0 in j.sys.workers
    requires |j.m.run.stages| <= k < |plan.stages| && id in D.AdvanceWorker(j.sys, 0, input).ops
    ensures var key := D.AdvanceWorker(j.sys, 0, input).ops[id].key; key != KeyOf(plan, plan.stages[k], TermsOf(key))
  {
    AdvanceKeepsOthers(j.sys, input);
    var own := j.sys.workers[0].task.key;
    KeysDistinct(plan, j.m.exec.index, k, TermsOf(own), TermsOf(own));
  }

  lemma OpsStepAlone(plan: Plan, j: Joint, e: Event, k: nat, id: string)
    requires DistinctNames(plan) && Invariant(plan, j) && NothingAhead(plan, j) && LeavesStagesAlone(plan, e)
    requires |j.m.run.stages| <= k < |plan.stages| && id in Step(plan, j, e).sys.ops
    ensures var key := Step(plan, j, e).sys.ops[id].key; key != KeyOf(plan, plan.stages[k], TermsOf(key))
  {
    match e {
      case Outside(call) =>
        if id in j.sys.ops {
          O.OperationStep(j.sys.ops, call, id);
        }
      case Go(_, raises, _, _, input, _) =>
        if 0 in j.sys.workers && !raises {
          DispatchStepAlone(plan, j, input, k, id);
        }
      case _ =>
    }
  }

  lemma {:induction false} NothingAheadFrom(plan: Plan, created: int, approver: Option<string>, events: seq<Event>)
    requires DistinctNames(plan) && StagesLeftAlone(plan, events)
    ensures var j := RunFrom(plan, Started(created, approver), events); Invariant(plan, j) && NothingAhead(plan, j)
  {
    StartedInvariant(plan, created, approver);
    InvariantFrom(plan, Started(created, approver), events);
    if events != [] {
      var e, before := Last(events), RunFrom(plan, Started(created, approver), Front(events));
      NothingAheadFrom(plan, created, approver, Front(events));
      var me := MachineEvent(plan, before, e);
      if me.Some? {
        RowsNeverShrink(plan, before.m, me.value);
      }
      var after := Step(plan, before, e);
      forall k, id | |after.m.run.stages| <= k < |plan.stages| && id in after.sys.ops
        ensures after.sys.ops[id].key != KeyOf(plan, plan.stages[k], TermsOf(after.sys.ops[id].key))
      {
        OpsStepAlone(plan, before, e, k, id);
      }
    }
  }

  lemma LastStageDecides(plan: Plan, j: Joint, may: Allowed)
    requires NothingAhead(plan, j) && 0 < |j.m.run.stages| <= |plan.stages|
    requires forall k :: 0 <= k < |plan.stages| ==> Attemptable(may, k)
    ensures AvailableFrom(plan, j.sys.ops, |j.m.run.stages| - 1, may)
            <==> Available(plan, j.sys.ops, |j.m.run.stages| - 1, may)
  {
    forall k | |j.m.run.stages| <= k < |plan.stages| ensures Available(plan, j.sys.ops, k, may) {
      assert Attemptable(may, k);
      var terms :| may(k, terms);
      assert Open(plan, j.sys.ops, plan.stages[k], terms);
    }
  }

  // There the run's last stage decides: an interrupted run can still succeed exactly when resume would accept it and
  // its last stage may be attempted under terms whose operation is absent or can still be marked.
  lemma InterruptedRunCanSucceedIff(plan: Plan, created: int, approver: Option<string>, events: seq<Event>,
                                    may: Allowed)
    requires DistinctNames(plan) && StagesLeftAlone(plan, events)
    requires forall k :: 0 <= k < |plan.stages| ==> Attemptable(may, k)
    requires var j := RunFrom(plan, Started(created, approver), events); j.m.exec.Idle? && j.m.run.status != Succeeded
    ensures var j := RunFrom(plan, Started(created, approver), events); var rows := j.m.run.stages;
            && |rows| <= |plan.stages|
            && ((exists more :: Within(plan, j, more, may) && RunFrom(plan, j, more).m.run.status == Succeeded) <==>
                  H.Resumable(j.m.run) && Available(plan, j.sys.ops, |rows| - 1, may))
  {
    var j := RunFrom(plan, Started(created, approver), events);
    NothingAheadFrom(plan, created, approver, events);
    CanSucceedIff(plan, j, may);
    if j.m.run.stages != [] {
      LastStageDecides(plan, j, may);
    }
  }

  // Every stage is attempted under the same terms each time: no branch is made and no prompt edited.
  function Always(terms: nat -> Terms): Allowed {
    (k: nat, t) => t == terms(k)
  }

  // Then it is the one operation of the last stage that decides.
  lemma UnchangedTermsCanSucceedIff(plan: Plan, created: int, approver: Option<string>, events: seq<Event>,
                                    terms: nat -> Terms)
    requires DistinctNames(plan) && StagesLeftAlone(plan, events)
    requires var j := RunFrom(plan, Started(created, approver), events); j.m.exec.Idle? && j.m.run.status != Succeeded
    ensures var j := RunFrom(plan, Started(created, approver), events); var rows := j.m.run.stages;
            && |rows| <= |plan.stages|
            && ((exists more :: Within(plan, j, more, Always(terms))
                                && RunFrom(plan, j, more).m.run.status == Succeeded) <==>
                  H.Resumable(j.m.run) && Open(plan, j.sys.ops, plan.stages[|rows| - 1], terms(|rows| - 1)))
  {
    forall k | 0 <= k < |plan.stages| ensures Attemptable(Always(terms), k) {
      assert Always(terms)(k, terms(k));
    }
    InterruptedRunCanSucceedIff(plan, created, approver, events, Always(terms));
    var j := RunFrom(plan, Started(created, approver), events);
    if H.Resumable(j.m.run) {
      AlwaysAvailableIff(plan, j.sys.ops, |j.m.run.stages| - 1, terms);
    }
  }

  lemma AlwaysAvailableIff(plan: Plan, ops: O.OpTable, k: nat, terms: nat -> Terms)
    requires k < |plan.stages|
    ensures Available(plan, ops, k, Always(terms)) <==> Open(plan, ops, plan.stages[k], terms(k))
  {
    assert Always(terms)(k, terms(k));
  }

  // --- Resuming after a session has run ---

  // The operation of the stage under these terms has got as far as running.
  ghost predicate HasRun(plan: Plan, ops: O.OpTable, stage: StagePlan, terms: Terms) {
    exists id :: id in ops && ops[id].key == KeyOf(plan, stage, terms) && O.Rank(ops[id].status) >= 3
  }

  // It has so under all terms the stage may still be attempted under, and the stage's row has not succeeded.
  ghost predicate Spent(plan: Plan, j: Joint, k: nat, may: Allowed) {
    && k < |plan.stages| && RowOpen(j.m.run.stages, k) && j.m.exec.Idle?
    && forall terms :: may(k, terms) ==> HasRun(plan, j.sys.ops, plan.stages[k], terms)
  }

  // Then every later attempt is turned away at the marking call: no session of the stage, and no success, ever again.
  lemma SpentStageNeverRunsAgain(plan: Plan, j: Joint, events: seq<Event>, k: nat, may: Allowed)
    requires DistinctNames(plan) && Invariant(plan, j) && Spent(plan, j, k, may) && Within(plan, j, events, may)
    ensures RunFrom(plan, j, events).m.run.status != Succeeded
    ensures StageSessions(plan, j, events, k) == 0
  {
    forall terms | may(k, terms) ensures !Open(plan, j.sys.ops, plan.stages[k], terms) {
      assert HasRun(plan, j.sys.ops, plan.stages[k], terms);
    }
    BlockedNeverSucceeds(plan, j, events, k, may);
  }

  // --- A stage whose terms change runs again ---

  lemma {:induction false} SessionsGrow(plan: Plan, j: Joint, events: seq<Event>, key: O.OpKey)
    ensures RunFrom(plan, j, events).sys.sessions[key] >= j.sys.sessions[key]
  {
    if events != [] {
      var before, e := RunFrom(plan, j, Front(events)), Last(events);
      SessionsGrow(plan, j, Front(events), key);
      var de := DispatchEvent(plan, before, e);
      if de.Some? {
        D.StepKeepsSessions(before.sys, de.value, key);
      }
    }
  }

  // No stage from i on has been begun.
  ghost predicate Untouched(plan: Plan, ops: O.OpTable, i: nat) {
    forall k, terms :: i <= k < |plan.stages| ==> Open(plan, ops, plan.stages[k], terms)
  }

  lemma UntouchedKept(plan: Plan, before: O.OpTable, after: O.OpTable, i: nat, terms: Terms)
    requires DistinctNames(plan) && i < |plan.stages| && Untouched(plan, before, i)
    requires OthersKept(before, after, KeyOf(plan, plan.stages[i], terms))
    ensures Untouched(plan, after, i + 1)
    ensures forall t :: t != terms ==> Open(plan, after, plan.stages[i], t)
  {
    forall k, t | i <= k < |plan.stages| && (k > i || t != terms) ensures Open(plan, after, plan.stages[k], t) {
      if k > i {
        KeysDistinct(plan, i, k, terms, t);
      }
      assert Open(plan, before, plan.stages[k], t);
    }
  }

  // From the start the executor comes to any stage with its operations untouched.
  lemma {:induction false} ComesToStage(plan: Plan, k: nat, may: Allowed) returns (events: seq<Event>, j: Joint)
    requires DistinctNames(plan) && k < |plan.stages|
    requires forall i :: 0 <= i < k ==> Attemptable(may, i)
    ensures RunFrom(plan, Started(0, OPERATOR), events) == j && Within(plan, Started(0, OPERATOR), events, may)
    ensures Invariant(plan, j) && Named(j.approver) && Untouched(plan, j.sys.ops, k)
    ensures H.BeforeStage(plan, j.m.exec, k)
  {
    var start := Started(0, OPERATOR);
    if k == 0 {
      StartedInvariant(plan, 0, OPERATOR);
      OperatorIsNamed();
      GoesAlone(plan, start);
      Moves(plan, start, [], ALONE, may);
      events, j := [] + [ALONE], Step(plan, start, ALONE);
    } else {
      var before, there := ComesToStage(plan, k - 1, may);
      assert Attemptable(may, k - 1);
      var terms :| may(k - 1, terms);
      assert Open(plan, there.sys.ops, plan.stages[k - 1], terms);
      var stage, next := StagePasses(plan, there, terms, may);
      UntouchedKept(plan, there.sys.ops, next.sys.ops, k - 1, terms);
      FoldCompose(Stepper(plan), start, before, stage);
      WithinCompose(plan, start, before, stage, may);
      events, j := before + stage, next;
    }
  }

  // The stage is worked on until its session has returned.
  lemma RunsStage(plan: Plan, j: Joint, terms: Terms, may: Allowed) returns (events: seq<Event>, ran: Joint)
    requires DistinctNames(plan) && Invariant(plan, j) && j.m.exec.AtStage? && j.m.exec.phase == M.Preparing
    requires Named(j.approver) && may(j.m.exec.index, terms)
    requires Open(plan, j.sys.ops, plan.stages[j.m.exec.index], terms)
    ensures RunFrom(plan, j, events) == ran && Within(plan, j, events, may)
    ensures Invariant(plan, ran) && H.Resumable(ran.m.run) && |ran.m.run.stages| == j.m.exec.index + 1
    ensures ran.sys.sessions[KeyOf(plan, plan.stages[j.m.exec.index], terms)] > 0
    ensures OthersKept(j.sys.ops, ran.sys.ops, KeyOf(plan, plan.stages[j.m.exec.index], terms))
  {
    var id := FreshId(j.sys.ops);
    var begin, working := StageBegins(plan, j, may);
    var dispatch;
    dispatch, ran := SessionRuns(plan, working, id, terms, may);
    FoldCompose(Stepper(plan), j, begin, dispatch);
    WithinCompose(plan, j, begin, dispatch, may);
    events := begin + dispatch;
  }

  lemma CrashStep(plan: Plan, j: Joint)
    ensures var next := Step(plan, j, Crash);
            && next.m == j.m.(exec := M.Idle)
            && next.sys.ops == j.sys.ops && next.sys.sessions == j.sys.sessions
  {
  }

  // A crash after the session leaves a run that resume accepts.
  lemma RunsAndCrashes(plan: Plan, j: Joint, terms: Terms, may: Allowed) returns (events: seq<Event>, next: Joint)
    requires DistinctNames(plan) && Invariant(plan, j) && j.m.exec.AtStage? && j.m.exec.phase == M.Preparing
    requires Named(j.approver) && Untouched(plan, j.sys.ops, j.m.exec.index) && may(j.m.exec.index, terms)
    ensures RunFrom(plan, j, events) == next && Within(plan, j, events, may)
    ensures Invariant(plan, next) && next.m.exec.Idle? && H.Resumable(next.m.run)
    ensures |next.m.run.stages| == j.m.exec.index + 1
    ensures next.sys.sessions[KeyOf(plan, plan.stages[j.m.exec.index], terms)] > 0
    ensures forall t :: t != terms ==> Open(plan, next.sys.ops, plan.stages[j.m.exec.index], t)
  {
    assert Open(plan, j.sys.ops, plan.stages[j.m.exec.index], terms);
    var work, ran := RunsStage(plan, j, terms, may);
    UntouchedKept(plan, j.sys.ops, ran.sys.ops, j.m.exec.index, terms);
    StepKeeps(plan, ran, Crash);
    CrashStep(plan, ran);
    Moves(plan, j, work, Crash, may);
    events, next := work + [Crash], Step(plan, ran, Crash);
  }

  // Resumed under other terms, the stage runs a second time.
  lemma RunsAgain(plan: Plan, j: Joint, terms: Terms, may: Allowed) returns (events: seq<Event>, next: Joint)
    requires DistinctNames(plan) && Invariant(plan, j) && j.m.exec.Idle? && H.Resumable(j.m.run)
    requires |j.m.run.stages| <= |plan.stages| && may(|j.m.run.stages| - 1, terms)
    requires Open(plan, j.sys.ops, plan.stages[|j.m.run.stages| - 1], terms)
    ensures RunFrom(plan, j, events) == next && Within(plan, j, events, may)
    ensures next.sys.sessions[KeyOf(plan, plan.stages[|j.m.run.stages| - 1], terms)] > 0
  {
    var resume, there := ResumeReaches(plan, j, may);
    var stage;
    stage, next := StagePasses(plan, there, terms, may);
    FoldCompose(Stepper(plan), j, resume, stage);
    WithinCompose(plan, j, resume, stage, may);
    events := resume + stage;
  }

  lemma RunsUnderBoth(plan: Plan, k: nat, a: Terms, b: Terms, may: Allowed) returns (events: seq<Event>)
    requires DistinctNames(plan) && k < |plan.stages| && a != b && may(k, a) && may(k, b)
    requires forall i :: 0 <= i < k ==> Attemptable(may, i)
    ensures Within(plan, Started(0, OPERATOR), events, may)
    ensures var sessions := RunFrom(plan, Started(0, OPERATOR), events).sys.sessions;
            sessions[KeyOf(plan, plan.stages[k], a)] > 0 && sessions[KeyOf(plan, plan.stages[k], b)] > 0
  {
    var start := Started(0, OPERATOR);
    var before, there := ComesToStage(plan, k, may);
    var first, crashed := RunsAndCrashes(plan, there, a, may);
    var second, after := RunsAgain(plan, crashed, b, may);
    SessionsGrow(plan, crashed, second, KeyOf(plan, plan.stages[k], a));
    FoldCompose(Stepper(plan), there, first, second);
    WithinCompose(plan, there, first, second, may);
    FoldCompose(Stepper(plan), start, before, first + second);
    WithinCompose(plan, start, before, first + second, may);
    events := before + (first + second);
  }

  // A crash behind the session and a resume under other terms: run_session is called under both.
  lemma ChangedTermsRunTwice(plan: Plan, k: nat, a: Terms, b: Terms, terms: set<Terms>) returns (events: seq<Event>)
    requires DistinctNames(plan) && k < |plan.stages| && a != b && a in terms && b in terms
    ensures var start := Started(0, OPERATOR);
            Within(plan, start, events, Only(k, terms)) && StageSessions(plan, start, events, k) >= 2
  {
    forall i | 0 <= i < k ensures Attemptable(Only(k, terms), i) {
      assert Only(k, terms)(i, a);
    }
    events := RunsUnderBoth(plan, k, a, b, Only(k, terms));
    StageSessionsAre(plan, 0, OPERATOR, events, k, terms);
    SubsetSize({a, b}, RunUnder(plan, RunFrom(plan, Started(0, OPERATOR), events).sys, k, terms));
  }

  // Over every history a stage runs at most once exactly when it is not attempted under different terms.
  lemma StageRunsAtMostOnceIff(plan: Plan, k: nat, terms: set<Terms>)
    requires DistinctNames(plan) && k < |plan.stages|
    ensures |terms| <= 1 <==>
        forall created, approver, events :: Within(plan, Started(created, approver), events, Only(k, terms)) ==>
                                                StageSessions(plan, Started(created, approver), events, k) <= 1
  {
    if |terms| <= 1 {
      forall created, approver, events | Within(plan, Started(created, approver), events, Only(k, terms))
        ensures StageSessions(plan, Started(created, approver), events, k) <= 1
      {
        StageSessionsAre(plan, created, approver, events, k, terms);
      }
    } else {
      var a :| a in terms;
      assert |terms - {a}| > 0;
      var b :| b in terms - {a};
      var events := ChangedTermsRunTwice(plan, k, a, b, terms);
    }
  }
}
