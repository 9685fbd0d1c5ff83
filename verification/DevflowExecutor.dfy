/**
 The devflow tables updated in place, one method per transaction, and the executor's loop over the plan. The ghost
 trail ties every transaction of the loop to one step of the machine whose histories are reasoned about.
 */
module DevflowExecutor {
  import opened Wrappers
  import opened DevflowPlan
  import opened DevflowState
  import opened DevflowMachine

  // What the executor meets at one of its steps: the clock, whether the step raises, what the stage's workflow sees,
  // and the token it draws.
  datatype Moment = Moment(now: int, raises: bool, seen: Observations, token: string)

  type Script = nat -> Moment

  datatype StageEnd = Done(source: string) | Stopped

  // A machine state and the events that led to it.
  datatype Trail = Trail(m: Machine, events: seq<Event>)

  ghost predicate Sound(plan: Plan, origin: Machine) {
    DistinctNames(plan) && Invariant(plan, origin)
  }

  ghost predicate Follows(plan: Plan, origin: Machine, trail: Trail) {
    RunFrom(plan, origin, trail.events) == trail.m
  }

  // The executor is at stage `index` of the run whose rows are `run`.
  ghost predicate At(plan: Plan, run: Run, index: nat, origin: Machine, trail: Trail) {
    && Follows(plan, origin, trail) && trail.m.run == run
    && trail.m.exec.AtStage? && trail.m.exec.index == index < |plan.stages|
  }

  ghost method Extend(plan: Plan, origin: Machine, trail: Trail, moment: Moment) returns (r: Trail)
    requires Sound(plan, origin) && Follows(plan, origin, trail)
    ensures Follows(plan, origin, r) && Invariant(plan, trail.m) && Invariant(plan, r.m)
    ensures r.m == Step(plan, trail.m, Advance(moment.now, moment.raises, moment.seen, moment.token))
  {
    var e := Advance(moment.now, moment.raises, moment.seen, moment.token);
    r := Trail(Step(plan, trail.m, e), trail.events + [e]);
    FoldAppend(Stepper(plan), origin, trail.events, e);
    InvariantFrom(plan, origin, trail.events);
    InvariantFrom(plan, origin, r.events);
  }

  ghost method Raise(plan: Plan, index: nat, origin: Machine, trail: Trail, moment: Moment) returns (r: Trail)
    requires Sound(plan, origin) && At(plan, trail.m.run, index, origin, trail) && moment.raises
    requires trail.m.exec.phase in {Preparing, Working, Completed, FailedToken, FailedNoted}
    ensures At(plan, trail.m.run, index, origin, r) && r.m.exec.phase == Handling
  {
    r := Extend(plan, origin, trail, moment);
  }

  ghost method Launch(plan: Plan, start: nat, origin: Machine, moment: Moment) returns (r: Trail)
    requires Sound(plan, origin) && origin.exec == Starting(start)
    ensures Follows(plan, origin, r) && r.m.run == origin.run
    ensures r.m.exec == NextStage(plan, start, SourceRoot(plan, OrderByIndex(origin.run.stages), start))
  {
    r := Extend(plan, origin, Trail(origin, []), moment);
  }

  // An accepted resume writes the run row, reads it back and starts the executor at the unfinished stage.
  ghost method Resumption(plan: Plan, origin: Machine, stage: StageRow, first: Moment, second: Moment)
    returns (r: Trail)
    requires Sound(plan, origin) && origin.exec.Idle? && ResumeStage(origin.run) == Some(stage)
    ensures Follows(plan, origin, r) && stage.index >= 0
    ensures var run := MarkResumed(origin.run, first.now, stage.name);
            && NextIncomplete(OrderByIndex(run.stages)) == Some(stage)
            && r.m == Machine(run, Starting(stage.index), origin.accepted) && Sound(plan, r.m)
  {
    RowsOrdered(plan, origin.run.stages);
    NextIncompleteIsLast(origin.run.stages);
    assert RowMatches(plan, Last(origin.run.stages), |origin.run.stages| - 1);
    FoldAppend(Stepper(plan), origin, [], Resume);
    r := Trail(Step(plan, origin, Resume), [] + [Resume]);
    r := Extend(plan, origin, r, first);
    r := Extend(plan, origin, r, second);
  }

  ghost function Joined(plan: Plan, origin: Machine, head: Trail, tail: Trail): (r: Trail)
    requires Follows(plan, origin, head) && Follows(plan, head.m, tail)
    ensures Follows(plan, origin, r) && r.m == tail.m
  {
    FoldCompose(Stepper(plan), origin, head.events, tail.events);
    Trail(tail.m, head.events + tail.events)
  }

  // The bookkeeping after a success moves on to the next stage; after a failure it ends the executor.
  ghost method PassOn(plan: Plan, index: nat, origin: Machine, trail: Trail, moment: Moment) returns (r: Trail)
    requires Sound(plan, origin) && At(plan, trail.m.run, index, origin, trail) && !moment.raises
    requires trail.m.exec.phase in {Completed, FailedNoted}
    ensures Follows(plan, origin, r) && r.m.run == trail.m.run
    ensures var stage := plan.stages[index];
            r.m.exec == if trail.m.exec.phase == FailedNoted then Idle
                        else NextStage(plan, index + 1,
                                       if Mutable(stage.mode) then WorkspacePath(plan, stage) else trail.m.exec.source)
  {
    r := Extend(plan, origin, trail, moment);
  }

  ghost method Handle(plan: Plan, index: nat, origin: Machine, trail: Trail, moment: Moment) returns (r: Trail)
    requires Sound(plan, origin) && At(plan, trail.m.run, index, origin, trail) && trail.m.exec.phase == Handling
    ensures At(plan, trail.m.run, index, origin, r)
    ensures r.m.exec.phase == Handler(trail.m.run, plan.stages[index].name)
  {
    r := Extend(plan, origin, trail, moment);
  }

  // DevflowRunView.next_incomplete_stage, as its loop.
  method NextIncompleteStage(view: seq<StageRow>) returns (next: Option<StageRow>)
    ensures next == NextIncomplete(view)
  {
    for k := 0 to |view|
      invariant NextIncomplete(view[k..]) == NextIncomplete(view)
    {
      assert view[k..][0] == view[k] && view[k..][1..] == view[k + 1..];
      if view[k].status !in {StageSucceeded, StageFailed, StageCancelled} || view[k].status == StageFailed {
        return Some(view[k]);
      }
    }
    return None;
  }

  class DevflowStore {
    var runs: map<string, Run>

    constructor ()
      ensures runs == map[]
    {
      runs := map[];
    }

    // The run id is the primary key.
    method BeginRun(id: string, now: int) returns (ok: bool)
      modifies this
      ensures ok <==> id !in old(runs)
      ensures runs == if ok then old(runs)[id := NewRun(now)] else old(runs)
    {
      ok := id !in runs;
      if ok {
        runs := runs[id := Run(Planned, None, None, now, [], [])];
      }
    }

    // Upsert the stage row, point the run at it, append the events; a row of an unknown run breaks a foreign key.
    method RecordStageStarted(id: string, now: int, name: string, index: int, role: string, workspace: string,
                              budget: int)
      returns (ok: bool)
      modifies this
      ensures ok <==> id in old(runs)
      ensures runs == if ok then old(runs)[id := StartStage(old(runs)[id], now, name, index, role, workspace, budget)]
                      else old(runs)
    {
      if id !in runs {
        return false;
      }
      var stages, events := runs[id].stages, runs[id].events + [StageEvent(name, Started)];
      var k := Position(stages, name);
      if k < |stages| {
        stages := stages[k := stages[k].(workspace := workspace, status := StageRunning, retryBudget := budget,
                                         retryCount := stages[k].retryCount + 1, startedAt := now, finishedAt := None)];
        events := events + [StageEvent(name, Retried)];
        assert events == runs[id].events + [StageEvent(name, Started), StageEvent(name, Retried)];
      } else {
        var added := StageRow(name, index, role, workspace, StageRunning, budget, 0, None, None, None, now, None);
        stages := stages + [added];
      }
      runs := runs[id := Run(Running, Some(name), None, now, stages, events)];
      return true;
    }

    // A stage or run without a row raises at the end, which rolls everything back.
    method RecordStageFinished(id: string, now: int, name: string, status: StageStatus, paths: Paths) returns (ok: bool)
      requires status in {StageSucceeded, StageFailed, StageCancelled}
      modifies this
      ensures ok <==> id in old(runs) && HasStage(old(runs)[id].stages, name)
      ensures ok ==> runs == old(runs)[id := FinishStage(old(runs)[id], now, name, status, paths).value]
      ensures !ok ==> runs == old(runs)
    {
      if id !in runs {
        return false;
      }
      var run := runs[id];
      var k := Position(run.stages, name);
      if k == |run.stages| {
        return false;
      }
      var row := run.stages[k].(status := status, finishedAt := Some(now));
      if paths.summary.Some? { row := row.(summary := paths.summary); }
      if paths.audit.Some? { row := row.(audit := paths.audit); }
      if paths.manifest.Some? { row := row.(manifest := paths.manifest); }
      var runStatus := match status case StageSucceeded => Running case StageFailed => Failed case _ => Cancelled;
      runs := runs[id := run.(updatedAt := now, status := runStatus, currentStage := Some(name),
                              stages := run.stages[k := row],
                              events := run.events + [StageEvent(name, Finished(status))])];
      return true;
    }

    method IssueResumeToken(id: string, now: int, token: string)
      requires id in runs
      modifies this
      ensures runs == old(runs)[id := IssueToken(old(runs)[id], now, token)]
    {
      runs := runs[id := runs[id].(resumeToken := Some(token), updatedAt := now)];
    }

    method MarkRunSucceeded(id: string, now: int) returns (ok: bool)
      modifies this
      ensures ok <==> id in old(runs)
      ensures runs == if ok then old(runs)[id := MarkSucceeded(old(runs)[id], now)] else old(runs)
    {
      ok := id in runs;
      if ok {
        runs := runs[id := runs[id].(status := Succeeded, updatedAt := now, currentStage := None)];
      }
    }

    // Cancels the run and each of its unfinished stages.
    method Cancel(id: string, now: int) returns (ok: bool)
      modifies this
      ensures ok <==> id in old(runs) && old(runs)[id].status !in {Succeeded, Failed, Cancelled}
      ensures ok ==> CancelRun(old(runs)[id], now).Some? && runs == old(runs)[id := CancelRun(old(runs)[id], now).value]
      ensures !ok ==> runs == old(runs)
    {
      if id !in runs || runs[id].status in {Succeeded, Failed, Cancelled} {
        return false;
      }
      var run := runs[id];
      var stages := run.stages;
      for k := 0 to |stages|
        invariant |stages| == |run.stages|
        invariant forall j :: 0 <= j < |stages| ==>
            stages[j] == if j < k then CancelRow(run.stages[j], now) else run.stages[j]
      {
        if stages[k].status !in {StageSucceeded, StageFailed, StageCancelled} {
          stages := stages[k := CancelRow(stages[k], now)];
        }
      }
      var stage := if run.currentStage.Some? && run.currentStage.value != "" then run.currentStage.value else "run";
      assert stages == CancelRun(run, now).value.stages;
      runs := runs[id := run.(status := Cancelled, updatedAt := now, stages := stages,
                              events := run.events + [StageEvent(stage, RunCancelled)])];
      return true;
    }

    // Reads, refuses or writes, reads again.
    method ResumeRun(id: string, now: int) returns (next: Option<StageRow>)
      modifies this
      ensures next == if id in old(runs) then ResumeStage(old(runs)[id]) else None
      ensures runs == if next.Some? then old(runs)[id := MarkResumed(old(runs)[id], now, next.value.name)]
        else old(runs)
    {
      if id !in runs || runs[id].status !in {Failed, Planned, Running} {
        return None;
      }
      next := NextIncompleteStage(OrderByIndex(runs[id].stages));
      if next.Some? {
        var run := runs[id];
        runs := runs[id := run.(status := Running, updatedAt := now, currentStage := Some(next.value.name),
                                events := run.events + [StageEvent(next.value.name, RunResumed)])];
      }
    }

    // --- The executor ---

    // The three stage transactions, each as one step of the machine.
    method StartStep(id: string, plan: Plan, index: nat, moment: Moment, ghost origin: Machine, ghost trail: Trail)
      returns (ghost after: Trail)
      requires Sound(plan, origin) && id in runs && At(plan, runs[id], index, origin, trail)
      requires trail.m.exec.phase == Restarting || (trail.m.exec.phase == Preparing && !moment.raises)
      modifies this
      ensures id in runs && runs == old(runs)[id := runs[id]] && At(plan, runs[id], index, origin, after)
      ensures after.m.exec == trail.m.exec.(phase := if trail.m.exec.phase == Preparing then Working else Failing)
    {
      var stage := plan.stages[index];
      after := Extend(plan, origin, trail, moment);
      var ok := RecordStageStarted(id, moment.now, stage.name, index, stage.role, WorkspacePath(plan, stage),
                                   stage.retryBudget);
    }

    method FinishStep(id: string, plan: Plan, index: nat, moment: Moment, succeeded: bool, ghost origin: Machine,
                      ghost trail: Trail)
      returns (ghost after: Trail)
      requires Sound(plan, origin) && id in runs && At(plan, runs[id], index, origin, trail)
      requires || (trail.m.exec.phase == Failing && !succeeded)
               || (trail.m.exec.phase == Working && !moment.raises
                   && succeeded == AllOk(plan.stages[index], moment.seen))
      modifies this
      ensures id in runs && runs == old(runs)[id := runs[id]] && At(plan, runs[id], index, origin, after)
      ensures after.m.exec == trail.m.exec.(phase := if succeeded then Completed else
                                                    if trail.m.exec.phase == Working then FailedToken else HandlerToken)
    {
      after := Extend(plan, origin, trail, moment);
      PositionIs(plan, runs[id].stages, index);
      var ok := RecordStageFinished(id, moment.now, plan.stages[index].name,
                                    if succeeded then StageSucceeded else StageFailed, NO_PATHS);
    }

    method TokenStep(id: string, plan: Plan, index: nat, moment: Moment, ghost origin: Machine, ghost trail: Trail)
      returns (ghost after: Trail)
      requires Sound(plan, origin) && id in runs && At(plan, runs[id], index, origin, trail)
      requires trail.m.exec.phase == HandlerToken || (trail.m.exec.phase == FailedToken && !moment.raises)
      modifies this
      ensures id in runs && runs == old(runs)[id := runs[id]]
      ensures Follows(plan, origin, after) && after.m.run == runs[id] && runs[id].status == Failed
      ensures after.m.exec == if trail.m.exec.phase == HandlerToken then Idle else trail.m.exec.(phase := FailedNoted)
    {
      after := Extend(plan, origin, trail, moment);
      IssueResumeToken(id, moment.now, moment.token);
    }

    method SucceedStep(id: string, plan: Plan, moment: Moment, ghost origin: Machine, ghost trail: Trail)
      returns (ghost after: Trail)
      requires Sound(plan, origin) && id in runs && Follows(plan, origin, trail) && trail.m.run == runs[id]
      requires trail.m.exec.Finishing?
      modifies this
      ensures id in runs && runs == old(runs)[id := runs[id]]
      ensures Follows(plan, origin, after) && after.m.run == runs[id] && after.m.exec.Idle?
      ensures runs[id].status == Succeeded
    {
      after := Extend(plan, origin, trail, moment);
      var ok := MarkRunSucceeded(id, moment.now);
    }

    // record_stage_failed is two transactions.
    method RecordFailure(id: string, plan: Plan, index: nat, first: Moment, second: Moment, ghost origin: Machine,
                         ghost trail: Trail)
      returns (ghost after: Trail)
      requires Sound(plan, origin) && id in runs && At(plan, runs[id], index, origin, trail)
      requires trail.m.exec.phase == Failing
      modifies this
      ensures id in runs && runs == old(runs)[id := runs[id]]
      ensures Follows(plan, origin, after) && after.m.run == runs[id]
      ensures after.m.exec.Idle? && runs[id].status == Failed
    {
      after := FinishStep(id, plan, index, first, false, origin, trail);
      after := TokenStep(id, plan, index, second, origin, after);
    }

    // The except branch: start the stage unless its row is running, then record the failure.
    method HandleException(id: string, plan: Plan, index: nat, script: Script, used: nat, ghost origin: Machine,
                           ghost trail: Trail)
      returns (next: nat, ghost after: Trail)
      requires Sound(plan, origin) && id in runs && At(plan, runs[id], index, origin, trail)
      requires trail.m.exec.phase == Handling
      modifies this
      ensures id in runs && runs == old(runs)[id := runs[id]]
      ensures Follows(plan, origin, after) && after.m.run == runs[id]
      ensures after.m.exec.Idle? && runs[id].status == Failed
    {
      next := used + 1;
      var row := RowOf(runs[id], plan.stages[index].name);
      after := Handle(plan, index, origin, trail, script(used));
      if row.None? || row.value.status != StageRunning {
        after := StartStep(id, plan, index, script(next), origin, after);
        next := next + 1;
      }
      after := RecordFailure(id, plan, index, script(next), script(next + 1), origin, after);
      next := next + 2;
    }

    // The failure is recorded; its resume token and the bookkeeping remain.
    method EndFailedStage(id: string, plan: Plan, index: nat, script: Script, used: nat, ghost origin: Machine,
                          ghost trail: Trail)
      returns (next: nat, ghost after: Trail)
      requires Sound(plan, origin) && id in runs && At(plan, runs[id], index, origin, trail)
      requires trail.m.exec.phase == FailedToken
      modifies this
      ensures id in runs && runs == old(runs)[id := runs[id]]
      ensures Follows(plan, origin, after) && after.m.run == runs[id]
      ensures after.m.exec.Idle? && runs[id].status == Failed
    {
      next, after := used, trail;
      if !script(next).raises {
        after := TokenStep(id, plan, index, script(next), origin, after);
        next := next + 1;
        if !script(next).raises {
          after := PassOn(plan, index, origin, after, script(next));
          return next + 1, after;
        }
      }
      after := Raise(plan, index, origin, after, script(next));
      next, after := HandleException(id, plan, index, script, next + 1, origin, after);
    }

    // The workflow has ended without an exception.
    method EndStage(id: string, plan: Plan, index: nat, source: string, script: Script, used: nat,
                       ghost origin: Machine, ghost trail: Trail)
      returns (end: StageEnd, next: nat, ghost after: Trail)
      requires Sound(plan, origin) && id in runs && At(plan, runs[id], index, origin, trail)
      requires trail.m.exec == AtStage(index, source, Working) && !script(used).raises
      modifies this
      ensures id in runs && runs == old(runs)[id := runs[id]]
      ensures Follows(plan, origin, after) && after.m.run == runs[id]
      ensures end.Done? ==> after.m.exec == NextStage(plan, index + 1, end.source)
      ensures end.Stopped? ==> after.m.exec.Idle? && runs[id].status == Failed
    {
      var stage := plan.stages[index];
      var results := RunSteps(CompileStage(stage), script(used).seen, false);
      var succeeded := forall i :: 0 <= i < |results| ==> results[i].1;
      after := FinishStep(id, plan, index, script(used), succeeded, origin, trail);
      next := used + 1;
      if succeeded {
        if !script(next).raises {
          after := PassOn(plan, index, origin, after, script(next));
          return Done(if Mutable(stage.mode) then WorkspacePath(plan, stage) else source), next + 1, after;
        }
        after := Raise(plan, index, origin, after, script(next));
        next, after := HandleException(id, plan, index, script, next + 1, origin, after);
      } else {
        next, after := EndFailedStage(id, plan, index, script, next, origin, after);
      }
      end := Stopped;
    }

    // One stage: prepare, run the workflow, record the result. Any exception goes to the handler.
    method RunStage(id: string, plan: Plan, index: nat, source: string, script: Script, used: nat,
                    ghost origin: Machine, ghost trail: Trail)
      returns (end: StageEnd, next: nat, ghost after: Trail)
      requires Sound(plan, origin) && id in runs && At(plan, runs[id], index, origin, trail)
      requires trail.m.exec == AtStage(index, source, Preparing)
      modifies this
      ensures id in runs && runs == old(runs)[id := runs[id]]
      ensures Follows(plan, origin, after) && after.m.run == runs[id]
      ensures end.Done? ==> after.m.exec == NextStage(plan, index + 1, end.source)
      ensures end.Stopped? ==> after.m.exec.Idle? && runs[id].status == Failed
    {
      after, next := trail, used;
      if !script(next).raises {
        after := StartStep(id, plan, index, script(next), origin, after);
        next := next + 1;
        if !script(next).raises {
          end, next, after := EndStage(id, plan, index, source, script, next, origin, after);
          return;
        }
      }
      after := Raise(plan, index, origin, after, script(next));
      next, after := HandleException(id, plan, index, script, next + 1, origin, after);
      end := Stopped;
    }

    // Runs the plan from `start`: every transaction is one step of the machine, whatever the environment does.
    method ExecutePlan(id: string, plan: Plan, start: nat, script: Script, ghost accepted: map<int, Observations>)
      returns (ok: bool, ghost after: Trail)
      requires DistinctNames(plan) && id in runs && Invariant(plan, Machine(runs[id], Starting(start), accepted))
      modifies this
      ensures id in runs && runs == old(runs)[id := runs[id]]
      ensures Follows(plan, Machine(old(runs)[id], Starting(start), accepted), after)
      ensures after.m.run == runs[id] && after.m.exec.Idle?
      ensures runs[id].status == if ok then Succeeded else Failed
    {
      ghost var origin := Machine(runs[id], Starting(start), accepted);
      var view := OrderByIndex(runs[id].stages);
      var source := StageSourceRoot(plan, view, start);
      after := Launch(plan, start, origin, script(0));
      var index, used := start, 1;
      while index < |plan.stages|
        invariant start <= index <= |plan.stages|
        invariant id in runs && runs == old(runs)[id := runs[id]]
        invariant Follows(plan, origin, after) && after.m.run == runs[id]
        invariant after.m.exec == NextStage(plan, index, source)
      {
        var end;
        end, used, after := RunStage(id, plan, index, source, script, used, origin, after);
        if end.Stopped? {
          return false, after;
        }
        source, index := end.source, index + 1;
      }
      after := SucceedStep(id, plan, script(used), origin, after);
      return true, after;
    }

    // Resume is refused, or runs the plan from the unfinished stage; `None` is the refusal.
    method HandleResume(id: string, plan: Plan, script: Script, ghost accepted: map<int, Observations>)
      returns (ok: Option<bool>, ghost after: Trail)
      requires id in runs && Sound(plan, Machine(runs[id], Idle, accepted))
      modifies this
      ensures id in runs && runs == old(runs)[id := runs[id]]
      ensures ok.Some? <==> ResumeStage(old(runs)[id]).Some?
      ensures ok.None? ==> runs == old(runs)
      ensures ok.Some? ==> runs[id].status == if ok.value then Succeeded else Failed
      ensures Follows(plan, Machine(old(runs)[id], Idle, accepted), after) && after.m.run == runs[id]
      ensures after.m.exec.Idle?
    {
      ghost var origin := Machine(runs[id], Idle, accepted);
      var next := ResumeRun(id, script(0).now);
      if next.None? {
        return None, Trail(origin, []);
      }
      ghost var head := Resumption(plan, origin, next.value, script(0), script(1));
      var again := NextIncompleteStage(OrderByIndex(runs[id].stages));
      var done, tail := ExecutePlan(id, plan, again.value.index, (n: nat) => script(n + 2), accepted);
      return Some(done), Joined(plan, origin, head, tail);
    }
  }
}
