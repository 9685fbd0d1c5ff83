/** What every history of a devflow run keeps, and what a crash, a resume and a cancel can still lead to. */
module DevflowHistory {
  import opened Wrappers
  import opened GitGates
  import opened DevflowPlan
  import opened DevflowState
  import opened DevflowMachine

  lemma History(plan: Plan, created: int, events: seq<Event>)
    requires DistinctNames(plan)
    ensures Invariant(plan, RunFrom(plan, Created(created), events))
  {
    InvariantFrom(plan, Created(created), events);
  }

  // --- Main results over every history of execute, fail, crash, resume and cancel ---

  // The stage rows are a prefix of the plan with all but the last succeeded; the run is being marked succeeded, or is,
  // only when every stage of the plan has succeeded.
  lemma RowsArePrefixOfPlan(plan: Plan, created: int, events: seq<Event>)
    requires DistinctNames(plan)
    ensures var m := RunFrom(plan, Created(created), events); var rows := m.run.stages;
            && |rows| <= |plan.stages|
            && (forall k :: 0 <= k < |rows| ==>
                  && rows[k].name == plan.stages[k].name && rows[k].index == k && rows[k].role == plan.stages[k].role
                  && rows[k].retryBudget == plan.stages[k].retryBudget
                  && rows[k].workspace == plan.runRoot + "/workspaces/" + plan.stages[k].name + "-"
                                          + ModeName(plan.stages[k].mode))
            && (forall k :: 0 <= k < |rows| - 1 ==> rows[k].status == StageSucceeded)
            && (m.exec.Finishing? || m.run.status == Succeeded ==>
                  |rows| == |plan.stages| && forall k :: 0 <= k < |rows| ==> rows[k].status == StageSucceeded)
  {
    History(plan, created, events);
    var rows := RunFrom(plan, Created(created), events).run.stages;
    assert forall k :: 0 <= k < |rows| ==> RowMatches(plan, rows[k], k);
  }

  // Whenever the executor prepares or works on stage i - first time, retried or resumed - its source root is the one
  // an uninterrupted run carries into i, or the own workspace of a mutable stage that already has a row.
  lemma SourceAlongHistory(plan: Plan, created: int, events: seq<Event>)
    requires DistinctNames(plan)
    ensures var m := RunFrom(plan, Created(created), events);
            m.exec.AtStage? ==>
              && m.exec.index < |plan.stages|
              && (m.exec.source == Carry(plan, m.exec.index)
                  || (m.exec.source == WorkspacePath(plan, plan.stages[m.exec.index])
                      && Mutable(plan.stages[m.exec.index].mode)
                      && |m.run.stages| == m.exec.index + 1
                      && m.run.stages[m.exec.index].workspace == m.exec.source))
  {
    History(plan, created, events);
    var m := RunFrom(plan, Created(created), events);
    if m.exec.AtStage? && |m.run.stages| == m.exec.index + 1 {
      assert RowMatches(plan, m.run.stages[m.exec.index], m.exec.index);
    }
  }

  // A protected stage recorded as succeeded had the same tracked files before its worker ran and at its gate.
  lemma ProtectedStagesUnchanged(plan: Plan, created: int, events: seq<Event>, k: nat)
    requires DistinctNames(plan)
    requires k < |RunFrom(plan, Created(created), events).run.stages| && k < |plan.stages|
    requires RunFrom(plan, Created(created), events).run.stages[k].status == StageSucceeded
    requires Protected(plan.stages[k].mode)
    ensures var accepted := RunFrom(plan, Created(created), events).accepted;
            && k in accepted
            && accepted[k].before.gitRoot.Some? && accepted[k].after.gitRoot.Some?
            && accepted[k].before.files == accepted[k].after.files
  {
    History(plan, created, events);
    ProtectedStageUnchanged(plan.stages[k], RunFrom(plan, Created(created), events).accepted[k]);
  }

  // A stage recorded as succeeded had, at the attempt that was recorded, a session that succeeded and every required
  // artifact.
  lemma SucceededStagesPassed(plan: Plan, created: int, events: seq<Event>, k: nat)
    requires DistinctNames(plan)
    requires k < |RunFrom(plan, Created(created), events).run.stages| && k < |plan.stages|
    requires RunFrom(plan, Created(created), events).run.stages[k].status == StageSucceeded
    ensures var accepted := RunFrom(plan, Created(created), events).accepted;
            k in accepted && accepted[k].dispatchOk && accepted[k].artifactsReady
  {
    History(plan, created, events);
    AllOkIff(plan.stages[k], RunFrom(plan, Created(created), events).accepted[k]);
  }

  // The observations of every stage that has been recorded as succeeded are ones that an executor saw when it finished
  // working on the stage, in a step that did not raise.
  lemma {:induction false} AcceptedWereSeen(plan: Plan, created: int, events: seq<Event>, k: int)
    requires k in RunFrom(plan, Created(created), events).accepted
    ensures exists n :: 0 <= n < |events| && SawAt(plan, created, events, n, k)
              && events[n].seen == RunFrom(plan, Created(created), events).accepted[k]
  {
    var before, e := RunFrom(plan, Created(created), Front(events)), Last(events);
    if k in before.accepted && RunFrom(plan, Created(created), events).accepted[k] == before.accepted[k] {
      AcceptedWereSeen(plan, created, Front(events), k);
      var n :| 0 <= n < |events| - 1 && SawAt(plan, created, Front(events), n, k)
               && Front(events)[n].seen == before.accepted[k];
      assert Front(events)[..n] == events[..n] && Front(events)[n] == events[n];
      assert SawAt(plan, created, events, n, k);
    } else {
      assert events[..|events| - 1] == Front(events);
      assert SawAt(plan, created, events, |events| - 1, k);
    }
  }

  // At that step the executor was finishing its work on the stage, and nothing raised.
  predicate SawAt(plan: Plan, created: int, events: seq<Event>, n: int, k: int)
    requires 0 <= n < |events|
  {
    var m := RunFrom(plan, Created(created), events[..n]);
    events[n].Advance? && !events[n].raises && m.exec.AtStage? && m.exec.phase == Working && m.exec.index == k
  }

  // --- Uninterrupted runs ---

  predicate Smooth(plan: Plan, m: Machine, e: Event) {
    e.Advance? && !e.raises
    && (m.exec.AtStage? && m.exec.index < |plan.stages| && m.exec.phase == Working ==>
          AllOk(plan.stages[m.exec.index], e.seen))
  }

  ghost predicate OnCourse(plan: Plan, m: Machine) {
    match m.exec
    case Idle => true
    case Starting(i) => i == 0 && m.run.stages == []
    case Finishing => true
    case AtStage(i, source, phase) =>
      && i < |plan.stages| && source == Carry(plan, i) && phase in {Preparing, Working, Completed}
      && |m.run.stages| == (if phase == Preparing then i else i + 1)
    case _ => false
  }

  lemma UninterruptedBegin(plan: Plan, m: Machine, e: Event)
    requires DistinctNames(plan) && RowsMatch(plan, m.run.stages) && OnCourse(plan, m) && Smooth(plan, m, e)
    requires m.exec.AtStage? && m.exec.phase == Preparing && Fresh(m.run.stages, m.exec.index)
    ensures OnCourse(plan, Step(plan, m, e))
  {
    BeginRows(plan, m.run, e.now, m.exec.index);
  }

  lemma UninterruptedWork(plan: Plan, m: Machine, e: Event)
    requires DistinctNames(plan) && RowsMatch(plan, m.run.stages) && OnCourse(plan, m) && Smooth(plan, m, e)
    requires m.exec.AtStage? && m.exec.phase == Working
    ensures OnCourse(plan, Step(plan, m, e))
  {
    FinishRows(plan, m.run, e.now, m.exec.index, StageSucceeded);
  }

  lemma UninterruptedCompleted(plan: Plan, m: Machine, e: Event)
    requires OnCourse(plan, m) && Smooth(plan, m, e) && m.exec.AtStage? && m.exec.phase == Completed
    ensures OnCourse(plan, Step(plan, m, e))
  {
    CompletedStep(plan, m, e);
  }

  lemma UninterruptedStep(plan: Plan, m: Machine, e: Event)
    requires DistinctNames(plan) && RowsMatch(plan, m.run.stages) && OnCourse(plan, m) && Smooth(plan, m, e)
    requires m.exec.AtStage? && m.exec.phase == Preparing ==> Fresh(m.run.stages, m.exec.index)
    ensures OnCourse(plan, Step(plan, m, e))
  {
    match m.exec {
      case AtStage(_, _, phase) =>
        if phase == Preparing {
          UninterruptedBegin(plan, m, e);
        } else if phase == Working {
          UninterruptedWork(plan, m, e);
        } else {
          UninterruptedCompleted(plan, m, e);
        }
      case Starting(_) => ResumeSource(plan, m.run.stages, 0);
      case _ =>
    }
  }

  // A run that has met no trouble so far: no crash, cancel, resume or exception, and every gate passed.
  predicate SmoothRun(plan: Plan, created: int, events: seq<Event>) {
    events == [] || (&& SmoothRun(plan, created, Front(events))
                     && Smooth(plan, RunFrom(plan, Created(created), Front(events)), Last(events)))
  }

  // `Carry` is what such a run does carry from stage to stage.
  lemma {:induction false} UninterruptedCarries(plan: Plan, created: int, events: seq<Event>)
    requires DistinctNames(plan) && SmoothRun(plan, created, events)
    ensures var m := RunFrom(plan, Created(created), events);
            && OnCourse(plan, m)
            && (m.exec.AtStage? ==> m.exec.index < |plan.stages| && m.exec.source == Carry(plan, m.exec.index))
  {
    if events != [] {
      UninterruptedCarries(plan, created, Front(events));
      History(plan, created, Front(events));
      UninterruptedStep(plan, RunFrom(plan, Created(created), Front(events)), Last(events));
    }
  }

  // --- Which interrupted runs can still succeed ---

  // The run's last stage row is unfinished and its status lets it be resumed.
  predicate Resumable(run: Run) {
    run.status in {Failed, Planned, Running} && run.stages != [] && Incomplete(Last(run.stages))
  }

  // Resume is accepted exactly then, and picks that last stage.
  lemma ResumeAcceptedIff(plan: Plan, run: Run)
    requires RowsMatch(plan, run.stages)
    ensures ResumeStage(run) == if Resumable(run) then Some(Last(run.stages)) else None
  {
    RowsOrdered(plan, run.stages);
    if run.stages != [] {
      NextIncompleteIsLast(run.stages);
    }
  }

  const CLEAN := Observations(Snapshot(Some(""), map[]), true, true, Snapshot(Some(""), map[]))
  const GO := Advance(0, false, CLEAN, "")
  const TROUBLE := Advance(0, true, CLEAN, "")

  lemma RunOne(plan: Plan, m: Machine, e: Event)
    ensures RunFrom(plan, m, [e]) == Step(plan, m, e)
  {
    FoldAppend(Stepper(plan), m, [], e);
    assert [] + [e] == [e];
  }

  lemma RunThen(plan: Plan, m: Machine, e: Event, events: seq<Event>)
    ensures RunFrom(plan, m, [e] + events) == RunFrom(plan, Step(plan, m, e), events)
  {
    FoldCompose(Stepper(plan), m, [e], events);
    RunOne(plan, m, e);
  }

  predicate BeforeStage(plan: Plan, exec: Exec, i: nat) {
    if i < |plan.stages| then exec.AtStage? && exec.index == i && exec.phase == Preparing else exec.Finishing?
  }

  lemma GoStep(plan: Plan, m: Machine)
    requires DistinctNames(plan) && Invariant(plan, m) && m.exec.AtStage?
    requires m.exec.phase in {Preparing, Working, Completed}
    ensures Invariant(plan, Step(plan, m, GO))
    ensures m.exec.phase == Preparing ==> Step(plan, m, GO).exec == m.exec.(phase := Working)
    ensures m.exec.phase == Working ==> Step(plan, m, GO).exec == m.exec.(phase := Completed)
    ensures m.exec.phase == Completed ==> BeforeStage(plan, Step(plan, m, GO).exec, m.exec.index + 1)
  {
    StepKeeps(plan, m, GO);
    if m.exec.phase == Working {
      FinishRows(plan, m.run, 0, m.exec.index, StageSucceeded);
      assert AllOk(plan.stages[m.exec.index], CLEAN);
    }
  }

  // A resume that is accepted and meets no trouble brings the executor to the run's last stage.
  lemma ResumeReaches(plan: Plan, m: Machine)
    requires DistinctNames(plan) && Invariant(plan, m) && m.exec.Idle? && Resumable(m.run)
    ensures var resumed := Step(plan, Step(plan, Step(plan, m, Resume), GO), GO);
            && Invariant(plan, resumed) && resumed.exec == Starting(|m.run.stages| - 1)
            && BeforeStage(plan, Step(plan, resumed, GO).exec, |m.run.stages| - 1)
  {
    ResumeAcceptedIff(plan, m.run);
    RowsOrdered(plan, m.run.stages);
    assert RowMatches(plan, Last(m.run.stages), |m.run.stages| - 1);
    NextIncompleteIsLast(m.run.stages);
    var s1 := Step(plan, m, Resume);
    StepKeeps(plan, m, Resume);
    var s2 := Step(plan, s1, GO);
    StepKeeps(plan, s1, GO);
    StepKeeps(plan, s2, GO);
  }

  // Nobody is under way, resume would refuse the run, and it has not succeeded.
  ghost predicate Stranded(plan: Plan, m: Machine) {
    RowsMatch(plan, m.run.stages) && m.exec.Idle? && !Resumable(m.run) && m.run.status != Succeeded
  }

  lemma StrandedStep(plan: Plan, m: Machine, e: Event)
    requires Stranded(plan, m)
    ensures Stranded(plan, Step(plan, m, e))
  {
    ResumeAcceptedIff(plan, m.run);
    if e.Cancel? {
      var rows, later := m.run.stages, Step(plan, m, e).run.stages;
      assert forall k :: 0 <= k < |rows| ==> RowMatches(plan, rows[k], k);
      assert forall k :: 0 <= k < |rows| ==> RowMatches(plan, later[k], k);
    }
  }

  lemma {:induction false} StrandedStays(plan: Plan, m: Machine, events: seq<Event>)
    requires Stranded(plan, m)
    ensures Stranded(plan, RunFrom(plan, m, events))
  {
    if events != [] {
      StrandedStays(plan, m, Front(events));
      StrandedStep(plan, RunFrom(plan, m, Front(events)), Last(events));
    }
  }

  // The moments at which a crash strands the run although nothing has failed: no stage row is unfinished.
  lemma CrashBetweenStagesStrands(plan: Plan, m: Machine, events: seq<Event>)
    requires DistinctNames(plan) && Invariant(plan, m) && m.run.status != Succeeded
    requires || m.exec.Finishing?
             || (m.exec.Starting? && |m.run.stages| == m.exec.index)
             || (m.exec.AtStage? && m.exec.phase == Completed)
             || (m.exec.AtStage? && m.exec.phase == Preparing && |m.run.stages| == m.exec.index)
    ensures RunFrom(plan, Step(plan, m, Crash), events).run.status != Succeeded
  {
    assert m.run.stages != [] ==> Last(m.run.stages).status == StageSucceeded;
    StrandedStays(plan, Step(plan, m, Crash), events);
  }

  // --- Which cancels hold ---

  // No executor is under way that could still write.
  predicate NobodyWrites(m: Machine) {
    m.exec.Idle? || (m.exec.Resumed? && NextIncomplete(OrderByIndex(m.run.stages)).None?)
  }

  lemma {:induction false} CancelHolds(plan: Plan, m: Machine, events: seq<Event>)
    requires m.run.status == Cancelled && NobodyWrites(m)
    ensures RunFrom(plan, m, events).run == m.run && NobodyWrites(RunFrom(plan, m, events))
  {
    if events != [] {
      CancelHolds(plan, m, Front(events));
    }
  }

  lemma OverrideAtStage(plan: Plan, m: Machine) returns (events: seq<Event>)
    requires DistinctNames(plan) && Invariant(plan, m) && m.run.status == Cancelled
    requires m.exec.AtStage? || m.exec.Finishing?
    ensures RunFrom(plan, m, events).run.status != Cancelled
  {
    events := [GO];
    RunOne(plan, m, GO);
    if m.exec.AtStage? {
      var i := m.exec.index;
      match m.exec.phase {
        case Preparing => BeginRows(plan, m.run, 0, i);
        case Restarting => BeginRows(plan, m.run, 0, i);
        case Working =>
          var next := Step(plan, m, TROUBLE);
          StepKeeps(plan, m, TROUBLE);
          var rest := OverrideHandling(plan, next);
          events := [TROUBLE] + rest;
          RunThen(plan, m, TROUBLE, rest);
        case Failing => FinishRows(plan, m.run, 0, i, StageFailed);
        case Handling => events := OverrideHandling(plan, m);
        case Completed =>
          var next := Step(plan, m, GO);
          StepKeeps(plan, m, GO);
          events := [GO] + [GO];
          RunThen(plan, m, GO, [GO]);
          RunOne(plan, next, GO);
          if next.exec.AtStage? {
            BeginRows(plan, next.run, 0, next.exec.index);
          }
        case _ =>
      }
    }
  }

  lemma OverrideHandling(plan: Plan, m: Machine) returns (events: seq<Event>)
    requires DistinctNames(plan) && Invariant(plan, m) && m.exec.AtStage? && m.exec.phase == Handling
    ensures RunFrom(plan, m, events).run.status != Cancelled
  {
    StepKeeps(plan, m, GO);
    var rest := OverrideHandler(plan, Step(plan, m, GO));
    events := [GO] + rest;
    RunThen(plan, m, GO, rest);
  }

  lemma OverrideHandler(plan: Plan, m: Machine) returns (events: seq<Event>)
    requires DistinctNames(plan) && Invariant(plan, m) && m.exec.AtStage? && m.exec.phase in {Restarting, Failing}
    ensures RunFrom(plan, m, events).run.status != Cancelled
  {
    events := [GO];
    RunOne(plan, m, GO);
    if m.exec.phase == Restarting {
      BeginRows(plan, m.run, 0, m.exec.index);
    } else {
      FinishRows(plan, m.run, 0, m.exec.index, StageFailed);
    }
  }

  // An executor, or a resume, that is still under way undoes the cancel by its next transaction.
  lemma CancelOverridden(plan: Plan, m: Machine) returns (events: seq<Event>)
    requires DistinctNames(plan) && Invariant(plan, m) && m.run.status == Cancelled && !NobodyWrites(m)
    ensures RunFrom(plan, m, events).run.status != Cancelled
  {
    match m.exec {
      case Resuming(_) =>
        events := [GO];
        RunOne(plan, m, GO);
      case Resumed =>
        var started := Step(plan, m, GO);
        StepKeeps(plan, m, GO);
        RowsOrdered(plan, m.run.stages);
        NextIncompleteIsLast(m.run.stages);
        assert RowMatches(plan, Last(m.run.stages), |m.run.stages| - 1);
        StepKeeps(plan, started, GO);
        var rest := OverrideAtStage(plan, Step(plan, started, GO));
        events := [GO] + ([GO] + rest);
        RunThen(plan, m, GO, [GO] + rest);
        RunThen(plan, started, GO, rest);
      case Starting(_) =>
        StepKeeps(plan, m, GO);
        var rest := OverrideAtStage(plan, Step(plan, m, GO));
        events := [GO] + rest;
        RunThen(plan, m, GO, rest);
      case _ => events := OverrideAtStage(plan, m);
    }
  }

  // A cancelled run stays cancelled exactly when nobody is under way to write to it.
  lemma CancelSticksIff(plan: Plan, m: Machine)
    requires DistinctNames(plan) && Invariant(plan, m) && m.run.status == Cancelled
    ensures (forall events :: RunFrom(plan, m, events).run.status == Cancelled) <==> NobodyWrites(m)
  {
    if NobodyWrites(m) {
      forall events ensures RunFrom(plan, m, events).run.status == Cancelled {
        CancelHolds(plan, m, events);
      }
    } else {
      var events := CancelOverridden(plan, m);
    }
  }
}
