/**
 The devflow executor as a machine: one step per transaction or per read of the run, with a crash or a cancel possible
 between any two, and resume once no executor is under way. One executor at a time.
 */
module DevflowMachine {
  import opened Wrappers
  import opened DevflowPlan
  import opened DevflowState

  // Where the executor stands in a stage. The last two end with the failed row's resume token.
  datatype Phase =
    | Preparing      // workspace and workflow; ends with the stage-start transaction
    | Working        // the stage's row is running and its steps are under way
    | Completed      // recorded as succeeded; bookkeeping remains
    | FailedToken    // recorded as failed; resume token next
    | FailedNoted    // token issued; bookkeeping remains
    | Handling       // an exception was caught; the handler reads the run next
    | Restarting     // the handler saw no running row; it starts the stage next
    | Failing        // the handler records the failure next
    | HandlerToken   // the handler issues the token next

  datatype Exec =
    | Idle
    | Resuming(stage: string)   // resume was accepted by its read and has yet to write
    | Resumed                   // resume has written and has yet to read its start stage
    | Starting(index: nat)      // the executor has yet to read its source root
    | AtStage(index: nat, source: string, phase: Phase)
    | Finishing                 // every stage is done; the run is marked succeeded next

  // `accepted` remembers, per stage index, what the steps saw when the stage was last recorded as succeeded.
  datatype Machine = Machine(run: Run, exec: Exec, accepted: map<int, Observations>)

  // `raises` says that the step raises before its transaction; `seen` is what the stage's steps observed.
  datatype Event =
    | Advance(now: int, raises: bool, seen: Observations, token: string)
    | Crash
    | Cancel(now: int)
    | Resume

  const NO_PATHS := Paths(None, None, None)

  function Created(now: int): Machine {
    Machine(NewRun(now), Starting(0), map[])
  }

  // --- Source roots ---

  function PlanOf(plan: Plan, name: string): Option<StagePlan> {
    PlanIn(plan.stages, name)
  }

  // The last stage of that name, as in a dictionary built over the stages.
  function PlanIn(stages: seq<StagePlan>, name: string): Option<StagePlan> {
    if stages == [] then None
    else if Last(stages).name == name then Some(Last(stages))
    else PlanIn(Front(stages), name)
  }

  // The root the recorded stages before `start` leave, in view order.
  function RecordedRoot(plan: Plan, view: seq<StageRow>, start: int, root: string): string {
    if view == [] then root
    else
      var stage := PlanOf(plan, view[0].name);
      if stage.None? then RecordedRoot(plan, view[1..], start, root)
      else if view[0].index >= start then root
      else if view[0].status == StageSucceeded && Mutable(stage.value.mode)
      then RecordedRoot(plan, view[1..], start, view[0].workspace)
      else RecordedRoot(plan, view[1..], start, root)
  }

  function SourceRoot(plan: Plan, view: seq<StageRow>, start: int): string {
    var root := RecordedRoot(plan, view, start, plan.repoRoot);
    var failed := NextIncomplete(view);
    if failed.Some? && failed.value.index == start && failed.value.workspace != ""
       && PlanOf(plan, failed.value.name).Some? && Mutable(PlanOf(plan, failed.value.name).value.mode)
    then failed.value.workspace else root
  }

  // The loop of the source, over the ordered view.
  method StageSourceRoot(plan: Plan, view: seq<StageRow>, start: int) returns (root: string)
    ensures root == SourceRoot(plan, view, start)
  {
    root := plan.repoRoot;
    var k := 0;
    while k < |view|
      invariant 0 <= k <= |view|
      invariant RecordedRoot(plan, view[k..], start, root) == RecordedRoot(plan, view, start, plan.repoRoot)
    {
      assert view[k..][0] == view[k] && view[k..][1..] == view[k + 1..];
      var stage := PlanOf(plan, view[k].name);
      if stage.Some? {
        if view[k].index >= start {
          break;
        }
        if view[k].status == StageSucceeded && Mutable(stage.value.mode) {
          root := view[k].workspace;
        }
      }
      k := k + 1;
    }
    var failed := NextIncomplete(view);
    if failed.Some? && failed.value.index == start && failed.value.workspace != "" {
      var stage := PlanOf(plan, failed.value.name);
      if stage.Some? && Mutable(stage.value.mode) {
        root := failed.value.workspace;
      }
    }
  }

  // The root an uninterrupted run carries into stage i.
  function Carry(plan: Plan, i: nat): string
    requires i <= |plan.stages|
  {
    if i == 0 then plan.repoRoot
    else if Mutable(plan.stages[i - 1].mode) then WorkspacePath(plan, plan.stages[i - 1])
    else Carry(plan, i - 1)
  }

  // --- Steps ---

  function Begin(plan: Plan, run: Run, now: int, index: nat): Run
    requires index < |plan.stages|
  {
    var stage := plan.stages[index];
    StartStage(run, now, stage.name, index, stage.role, WorkspacePath(plan, stage), stage.retryBudget)
  }

  function RowOf(run: Run, name: string): Option<StageRow> {
    var k := Position(run.stages, name);
    if k < |run.stages| then Some(run.stages[k]) else None
  }

  // The handler starts the stage afresh unless its row is running.
  function Handler(run: Run, name: string): Phase {
    var row := RowOf(run, name);
    if row.Some? && row.value.status == StageRunning then Failing else Restarting
  }

  function NextStage(plan: Plan, index: nat, source: string): Exec {
    if index < |plan.stages| then AtStage(index, source, Preparing) else Finishing
  }

  function WorkStep(plan: Plan, m: Machine, e: Event): Machine
    requires m.exec.AtStage? && m.exec.index < |plan.stages| && e.Advance?
  {
    var i, stage := m.exec.index, plan.stages[m.exec.index];
    var ok := AllOk(stage, e.seen);
    var finished := FinishStage(m.run, e.now, stage.name, if ok then StageSucceeded else StageFailed, NO_PATHS);
    if finished.None? then m.(exec := m.exec.(phase := Handling))
    else if ok then Machine(finished.value, m.exec.(phase := Completed), m.accepted[i := e.seen])
    else m.(run := finished.value, exec := m.exec.(phase := FailedToken))
  }

  function StageStep(plan: Plan, m: Machine, e: Event): Machine
    requires m.exec.AtStage? && m.exec.index < |plan.stages| && e.Advance?
  {
    var i, stage := m.exec.index, plan.stages[m.exec.index];
    var handling := m.(exec := m.exec.(phase := Handling));
    match m.exec.phase
    case Preparing =>
      if e.raises then handling else m.(run := Begin(plan, m.run, e.now, i), exec := m.exec.(phase := Working))
    case Working => if e.raises then handling else WorkStep(plan, m, e)
    case Completed =>
      if e.raises then handling
      else m.(exec := NextStage(plan, i + 1, if Mutable(stage.mode) then WorkspacePath(plan, stage) else m.exec.source))
    case FailedToken =>
      if e.raises then handling
      else m.(run := IssueToken(m.run, e.now, e.token), exec := m.exec.(phase := FailedNoted))
    case FailedNoted => if e.raises then handling else m.(exec := Idle)
    case Handling => m.(exec := m.exec.(phase := Handler(m.run, stage.name)))
    case Restarting => m.(run := Begin(plan, m.run, e.now, i), exec := m.exec.(phase := Failing))
    case Failing =>
      var finished := FinishStage(m.run, e.now, stage.name, StageFailed, NO_PATHS);
      if finished.None? then m.(exec := Idle) else m.(run := finished.value, exec := m.exec.(phase := HandlerToken))
    case HandlerToken => m.(run := IssueToken(m.run, e.now, e.token), exec := Idle)
  }

  function Step(plan: Plan, m: Machine, e: Event): Machine {
    match e
    case Crash => m.(exec := Idle)
    case Cancel(now) => m.(run := OrKeep(CancelRun(m.run, now), m.run))
    case Resume =>
      var stage := ResumeStage(m.run);
      if m.exec.Idle? && stage.Some? then m.(exec := Resuming(stage.value.name)) else m
    case Advance(now, _, _, _) =>
      match m.exec
      case Idle => m
      case Resuming(stage) => m.(run := MarkResumed(m.run, now, stage), exec := Resumed)
      case Resumed =>
        var next := NextIncomplete(OrderByIndex(m.run.stages));
        m.(exec := if next.Some? && next.value.index >= 0 then Starting(next.value.index) else Idle)
      case Starting(i) =>
        m.(exec := NextStage(plan, i, SourceRoot(plan, OrderByIndex(m.run.stages), i)))
      case AtStage(i, _, _) => if i < |plan.stages| then StageStep(plan, m, e) else m
      case Finishing => m.(run := MarkSucceeded(m.run, now), exec := Idle)
  }

  function Stepper(plan: Plan): (Machine, Event) -> Machine {
    (m, e) => Step(plan, m, e)
  }

  function RunFrom(plan: Plan, m: Machine, events: seq<Event>): Machine {
    Fold(Stepper(plan), m, events)
  }

  // --- The invariant ---

  // Row k is what the plan says of stage k, and all rows but the last have succeeded.
  ghost predicate RowsMatch(plan: Plan, rows: seq<StageRow>) {
    && |rows| <= |plan.stages|
    && (forall k :: 0 <= k < |rows| ==> RowMatches(plan, rows[k], k))
    && (forall k :: 0 <= k < |rows| - 1 ==> rows[k].status == StageSucceeded)
  }

  ghost predicate RowMatches(plan: Plan, row: StageRow, k: nat)
    requires k < |plan.stages|
  {
    && row.name == plan.stages[k].name && row.index == k && row.role == plan.stages[k].role
    && row.workspace == WorkspacePath(plan, plan.stages[k]) && row.retryBudget == plan.stages[k].retryBudget
  }

  ghost predicate AllSucceeded(rows: seq<StageRow>) {
    forall k :: 0 <= k < |rows| ==> rows[k].status == StageSucceeded
  }

  // Stage i is about to be worked on: every earlier stage has succeeded, and i has no row yet or an unfinished one.
  ghost predicate Reached(rows: seq<StageRow>, i: nat) {
    (|rows| == i && AllSucceeded(rows)) || |rows| == i + 1
  }

  ghost predicate Fresh(rows: seq<StageRow>, i: nat) {
    (|rows| == i && AllSucceeded(rows)) || (|rows| == i + 1 && rows[i].status != StageSucceeded)
  }

  // The source root is the one an uninterrupted run would carry, or the own workspace of a mutable stage with a row.
  ghost predicate SourceFits(plan: Plan, rows: seq<StageRow>, i: nat, source: string)
    requires i <= |plan.stages|
  {
    source == Carry(plan, i)
    || (i < |plan.stages| && Mutable(plan.stages[i].mode) && source == WorkspacePath(plan, plan.stages[i])
        && |rows| == i + 1)
  }

  ghost predicate StageOk(plan: Plan, run: Run, i: nat, source: string, phase: Phase) {
    && i < |plan.stages| && SourceFits(plan, run.stages, i, source)
    && match phase
       case Preparing => Fresh(run.stages, i)
       case Working => |run.stages| == i + 1
       case Completed => |run.stages| == i + 1 && run.stages[i].status == StageSucceeded
       case FailedToken => |run.stages| == i + 1 && run.status == Failed
       case FailedNoted => |run.stages| == i + 1 && run.status == Failed
       case Handling => Reached(run.stages, i)
       case Restarting => Reached(run.stages, i)
       case Failing => |run.stages| == i + 1
       case HandlerToken => |run.stages| == i + 1 && run.status == Failed
  }

  ghost predicate ExecOk(plan: Plan, run: Run, exec: Exec) {
    match exec
    case Starting(i) => i <= |plan.stages| && Fresh(run.stages, i)
    case AtStage(i, source, phase) => StageOk(plan, run, i, source, phase)
    case Finishing => |run.stages| == |plan.stages| && AllSucceeded(run.stages)
    case _ => true
  }

  ghost predicate GatesPassed(plan: Plan, m: Machine) {
    forall k :: 0 <= k < |m.run.stages| && k < |plan.stages| && m.run.stages[k].status == StageSucceeded ==>
      k in m.accepted && AllOk(plan.stages[k], m.accepted[k])
  }

  ghost predicate Invariant(plan: Plan, m: Machine) {
    && RowsMatch(plan, m.run.stages)
    && ExecOk(plan, m.run, m.exec)
    && GatesPassed(plan, m)
    && (m.run.status == Succeeded ==> m.exec.Idle? && |m.run.stages| == |plan.stages| && AllSucceeded(m.run.stages))
  }

  // --- Each transaction keeps the invariant ---

  lemma RowsOrdered(plan: Plan, rows: seq<StageRow>)
    requires RowsMatch(plan, rows)
    ensures OrderByIndex(rows) == rows
  {
    assert forall k :: 0 <= k < |rows| ==> RowMatches(plan, rows[k], k);
    SortedIsOrdered(rows);
  }

  lemma PositionIs(plan: Plan, rows: seq<StageRow>, i: nat)
    requires DistinctNames(plan) && RowsMatch(plan, rows) && i < |plan.stages|
    ensures Position(rows, plan.stages[i].name) == if i < |rows| then i else |rows|
  {
    assert forall k :: 0 <= k < |rows| ==> RowMatches(plan, rows[k], k);
    var p := Position(rows, plan.stages[i].name);
    if i < |rows| {
      assert rows[i].name == plan.stages[i].name;
    }
    if p < |rows| {
      assert rows[p].name == plan.stages[p].name == plan.stages[i].name;
    }
  }

  lemma BeginRows(plan: Plan, run: Run, now: int, i: nat)
    requires DistinctNames(plan) && RowsMatch(plan, run.stages) && i < |plan.stages| && Reached(run.stages, i)
    ensures var after := Begin(plan, run, now, i);
            && RowsMatch(plan, after.stages) && |after.stages| == i + 1
            && after.stages[i].status == StageRunning && after.status == Running
            && forall k :: 0 <= k < i ==> after.stages[k] == run.stages[k]
  {
    PositionIs(plan, run.stages, i);
    var after := Begin(plan, run, now, i);
    forall k | 0 <= k < |after.stages| ensures RowMatches(plan, after.stages[k], k) {
      assert k < |run.stages| ==> RowMatches(plan, run.stages[k], k);
    }
  }

  lemma FinishRows(plan: Plan, run: Run, now: int, i: nat, status: StageStatus)
    requires DistinctNames(plan) && RowsMatch(plan, run.stages) && i < |plan.stages| && |run.stages| == i + 1
    requires status in {StageSucceeded, StageFailed}
    ensures var finished := FinishStage(run, now, plan.stages[i].name, status, NO_PATHS);
            && finished.Some?
            && var after := finished.value;
            && RowsMatch(plan, after.stages) && |after.stages| == i + 1 && after.stages[i].status == status
            && after.status == (if status == StageSucceeded then Running else Failed)
            && forall k :: 0 <= k < i ==> after.stages[k] == run.stages[k]
  {
    PositionIs(plan, run.stages, i);
    var after := FinishStage(run, now, plan.stages[i].name, status, NO_PATHS).value;
    forall k | 0 <= k < |after.stages| ensures RowMatches(plan, after.stages[k], k) {
      assert RowMatches(plan, run.stages[k], k);
    }
  }

  // A cancel touches unfinished rows only, so it keeps the rows' shape and every succeeded row.
  lemma CancelKeeps(plan: Plan, m: Machine, now: int)
    requires Invariant(plan, m)
    ensures Invariant(plan, Step(plan, m, Cancel(now)))
  {
    var after := Step(plan, m, Cancel(now));
    assert forall k :: 0 <= k < |m.run.stages| ==> RowMatches(plan, m.run.stages[k], k);
    assert |after.run.stages| == |m.run.stages|;
    assert forall k :: 0 <= k < |m.run.stages| ==>
        (after.run.stages[k].status == StageSucceeded <==> m.run.stages[k].status == StageSucceeded);
  }

  // --- Source roots at resume ---

  lemma {:induction false} PlanInIs(stages: seq<StagePlan>, k: nat)
    requires k < |stages| && forall i, j :: 0 <= i < j < |stages| ==> stages[i].name != stages[j].name
    ensures PlanIn(stages, stages[k].name) == Some(stages[k])
  {
    if k < |stages| - 1 {
      assert Last(stages).name != stages[k].name;
      PlanInIs(Front(stages), k);
      assert Front(stages)[k] == stages[k];
    }
  }

  lemma RecordedRootStep(plan: Plan, rows: seq<StageRow>, j: nat, i: nat, root: string)
    requires DistinctNames(plan) && RowsMatch(plan, rows) && j < |rows|
    ensures RecordedRoot(plan, rows[j..], i, root) ==
            if j >= i then root
            else RecordedRoot(plan, rows[j + 1..], i,
                              if rows[j].status == StageSucceeded && Mutable(plan.stages[j].mode)
                              then WorkspacePath(plan, plan.stages[j]) else root)
  {
    assert rows[j..][0] == rows[j] && rows[j..][1..] == rows[j + 1..] && RowMatches(plan, rows[j], j);
    PlanInIs(plan.stages, j);
  }

  lemma CarryStep(plan: Plan, j: nat)
    requires j < |plan.stages|
    ensures Carry(plan, j + 1) ==
            if Mutable(plan.stages[j].mode) then WorkspacePath(plan, plan.stages[j]) else Carry(plan, j)
  {
  }

  lemma RootStepCarries(plan: Plan, rows: seq<StageRow>, j: nat, i: nat)
    requires DistinctNames(plan) && RowsMatch(plan, rows) && j < i <= |rows| && rows[j].status == StageSucceeded
    requires RecordedRoot(plan, rows[j + 1..], i, Carry(plan, j + 1)) == Carry(plan, i)
    ensures RecordedRoot(plan, rows[j..], i, Carry(plan, j)) == Carry(plan, i)
  {
    RecordedRootStep(plan, rows, j, i, Carry(plan, j));
    CarryStep(plan, j);
  }

  lemma RootStops(plan: Plan, rows: seq<StageRow>, i: nat)
    requires DistinctNames(plan) && RowsMatch(plan, rows) && i <= |rows|
    ensures RecordedRoot(plan, rows[i..], i, Carry(plan, i)) == Carry(plan, i)
  {
    if i < |rows| {
      RecordedRootStep(plan, rows, i, i, Carry(plan, i));
    }
  }

  lemma {:induction false} RecordedRootIsCarry(plan: Plan, rows: seq<StageRow>, j: nat, i: nat)
    requires DistinctNames(plan) && RowsMatch(plan, rows) && j <= i <= |rows|
    requires forall k :: 0 <= k < i ==> rows[k].status == StageSucceeded
    ensures RecordedRoot(plan, rows[j..], i, Carry(plan, j)) == Carry(plan, i)
    decreases i - j
  {
    if j < i {
      RecordedRootIsCarry(plan, rows, j + 1, i);
      RootStepCarries(plan, rows, j, i);
    } else {
      RootStops(plan, rows, i);
    }
  }

  // Only the last row can be incomplete, and it belongs to the plan's stage of that index.
  lemma {:induction false} UnfinishedRow(plan: Plan, rows: seq<StageRow>)
    requires DistinctNames(plan) && RowsMatch(plan, rows) && rows != []
    requires forall k :: 0 <= k < |rows| - 1 ==> rows[k].status == StageSucceeded
    ensures var last := Last(rows); var stage := plan.stages[|rows| - 1];
            && NextIncomplete(rows) == (if Incomplete(last) then Some(last) else None)
            && last.index == |rows| - 1 && last.workspace == WorkspacePath(plan, stage) != ""
            && PlanOf(plan, last.name) == Some(stage)
  {
    NextIncompleteIsLast(rows);
    assert RowMatches(plan, Last(rows), |rows| - 1);
    PlanInIs(plan.stages, |rows| - 1);
  }

  // What resume computes for stage i: the root an uninterrupted run would carry into i, except that an unfinished
  // mutable stage restarts from its own recorded workspace.
  lemma ResumeSource(plan: Plan, rows: seq<StageRow>, i: nat)
    requires DistinctNames(plan) && RowsMatch(plan, rows) && Fresh(rows, i) && i <= |plan.stages|
    ensures SourceRoot(plan, OrderByIndex(rows), i) ==
            if |rows| == i + 1 && Incomplete(rows[i]) && Mutable(plan.stages[i].mode)
            then WorkspacePath(plan, plan.stages[i]) else Carry(plan, i)
  {
    RowsOrdered(plan, rows);
    RecordedRootIsCarry(plan, rows, 0, i);
    assert rows[0..] == rows;
    if rows != [] {
      UnfinishedRow(plan, rows);
    }
  }

  lemma StartKeeps(plan: Plan, m: Machine, e: Event)
    requires DistinctNames(plan) && Invariant(plan, m) && m.exec.Starting? && e.Advance?
    ensures Invariant(plan, Step(plan, m, e))
  {
    ResumeSource(plan, m.run.stages, m.exec.index);
  }

  lemma ResumedKeeps(plan: Plan, m: Machine, e: Event)
    requires DistinctNames(plan) && Invariant(plan, m) && m.exec.Resumed? && e.Advance?
    ensures Invariant(plan, Step(plan, m, e))
  {
    var rows := m.run.stages;
    RowsOrdered(plan, rows);
    if rows != [] {
      NextIncompleteIsLast(rows);
      assert RowMatches(plan, Last(rows), |rows| - 1);
    }
  }

  lemma BeginKeeps(plan: Plan, m: Machine, now: int, phase: Phase)
    requires DistinctNames(plan) && Invariant(plan, m) && m.exec.AtStage? && Reached(m.run.stages, m.exec.index)
    requires phase in {Working, Failing}
    ensures Invariant(plan, m.(run := Begin(plan, m.run, now, m.exec.index), exec := m.exec.(phase := phase)))
  {
    var i := m.exec.index;
    BeginRows(plan, m.run, now, i);
    var after := m.(run := Begin(plan, m.run, now, i), exec := m.exec.(phase := phase));
    assert GatesPassed(plan, after);
  }

  lemma FinishKeeps(plan: Plan, m: Machine, now: int, status: StageStatus, phase: Phase,
                    accepted: map<int, Observations>)
    requires DistinctNames(plan) && Invariant(plan, m) && m.exec.AtStage? && |m.run.stages| == m.exec.index + 1
    requires status == StageFailed ==> phase in {FailedToken, HandlerToken} && accepted == m.accepted
    requires status == StageSucceeded ==>
      phase == Completed && m.exec.index in accepted && AllOk(plan.stages[m.exec.index], accepted[m.exec.index])
      && accepted == m.accepted[m.exec.index := accepted[m.exec.index]]
    requires status in {StageSucceeded, StageFailed}
    ensures var finished := FinishStage(m.run, now, plan.stages[m.exec.index].name, status, NO_PATHS);
            finished.Some? && Invariant(plan, Machine(finished.value, m.exec.(phase := phase), accepted))
  {
    var i := m.exec.index;
    FinishRows(plan, m.run, now, i, status);
  }

  // What a succeeded stage leaves: the next stage, with the root it carries, or the end of the plan.
  lemma NextStageOk(plan: Plan, run: Run, i: nat, source: string)
    requires i < |plan.stages| && |run.stages| == i + 1 && AllSucceeded(run.stages)
    requires SourceFits(plan, run.stages, i, source)
    ensures ExecOk(plan, run, NextStage(plan, i + 1,
                     if Mutable(plan.stages[i].mode) then WorkspacePath(plan, plan.stages[i]) else source))
  {
  }

  lemma CompletedStep(plan: Plan, m: Machine, e: Event)
    requires m.exec.AtStage? && m.exec.index < |plan.stages| && m.exec.phase == Completed && e.Advance?
    ensures StageStep(plan, m, e) ==
            if e.raises then m.(exec := m.exec.(phase := Handling))
            else m.(exec := NextStage(plan, m.exec.index + 1, if Mutable(plan.stages[m.exec.index].mode)
                                      then WorkspacePath(plan, plan.stages[m.exec.index]) else m.exec.source))
  {
  }

  lemma RaisedKeeps(plan: Plan, m: Machine)
    requires Invariant(plan, m) && m.exec.AtStage? && m.exec.phase == Completed
    ensures Invariant(plan, m.(exec := m.exec.(phase := Handling)))
  {
  }

  lemma PassedKeeps(plan: Plan, m: Machine)
    requires Invariant(plan, m) && m.exec.AtStage? && m.exec.phase == Completed
    ensures Invariant(plan, m.(exec := NextStage(plan, m.exec.index + 1, if Mutable(plan.stages[m.exec.index].mode)
                                       then WorkspacePath(plan, plan.stages[m.exec.index]) else m.exec.source)))
  {
    NextStageOk(plan, m.run, m.exec.index, m.exec.source);
  }

  lemma CompletedKeeps(plan: Plan, m: Machine, e: Event)
    requires Invariant(plan, m) && m.exec.AtStage? && m.exec.phase == Completed && e.Advance?
    ensures Invariant(plan, StageStep(plan, m, e))
  {
    CompletedStep(plan, m, e);
    if e.raises {
      RaisedKeeps(plan, m);
    } else {
      PassedKeeps(plan, m);
    }
  }

  lemma WorkKeeps(plan: Plan, m: Machine, e: Event)
    requires DistinctNames(plan) && Invariant(plan, m) && m.exec.AtStage? && m.exec.phase == Working && e.Advance?
    ensures Invariant(plan, StageStep(plan, m, e))
  {
    if !e.raises {
      if AllOk(plan.stages[m.exec.index], e.seen) {
        FinishKeeps(plan, m, e.now, StageSucceeded, Completed, m.accepted[m.exec.index := e.seen]);
      } else {
        FinishKeeps(plan, m, e.now, StageFailed, FailedToken, m.accepted);
      }
    }
  }

  // The handler starts the stage unless its row is running; only then is there a row to fail.
  lemma HandlingKeeps(plan: Plan, m: Machine, e: Event)
    requires DistinctNames(plan) && Invariant(plan, m) && m.exec.AtStage? && m.exec.phase == Handling && e.Advance?
    ensures Invariant(plan, StageStep(plan, m, e))
  {
    PositionIs(plan, m.run.stages, m.exec.index);
  }

  lemma HandlerKeeps(plan: Plan, m: Machine, e: Event)
    requires DistinctNames(plan) && Invariant(plan, m) && m.exec.AtStage? && e.Advance?
    requires m.exec.phase in {Restarting, Failing, HandlerToken}
    ensures Invariant(plan, StageStep(plan, m, e))
  {
    match m.exec.phase {
      case Restarting => BeginKeeps(plan, m, e.now, Failing);
      case Failing => FinishKeeps(plan, m, e.now, StageFailed, HandlerToken, m.accepted);
      case HandlerToken =>
    }
  }

  lemma StageStepKeeps(plan: Plan, m: Machine, e: Event)
    requires DistinctNames(plan) && Invariant(plan, m) && m.exec.AtStage? && e.Advance?
    ensures Invariant(plan, StageStep(plan, m, e))
  {
    match m.exec.phase {
      case Preparing =>
        if !e.raises {
          BeginKeeps(plan, m, e.now, Working);
        }
      case Working => WorkKeeps(plan, m, e);
      case Completed => CompletedKeeps(plan, m, e);
      case FailedToken =>
      case FailedNoted =>
      case Handling => HandlingKeeps(plan, m, e);
      case _ => HandlerKeeps(plan, m, e);
    }
  }

  lemma StepKeeps(plan: Plan, m: Machine, e: Event)
    requires DistinctNames(plan) && Invariant(plan, m)
    ensures Invariant(plan, Step(plan, m, e))
  {
    match e {
      case Cancel(now) => CancelKeeps(plan, m, now);
      case Crash =>
      case Resume =>
      case Advance(_, _, _, _) =>
        match m.exec {
          case Starting(_) => StartKeeps(plan, m, e);
          case Resumed => ResumedKeeps(plan, m, e);
          case AtStage(_, _, _) => StageStepKeeps(plan, m, e);
          case _ =>
        }
    }
  }

  lemma {:induction false} InvariantFrom(plan: Plan, m: Machine, events: seq<Event>)
    requires DistinctNames(plan) && Invariant(plan, m)
    ensures Invariant(plan, RunFrom(plan, m, events))
  {
    if events != [] {
      InvariantFrom(plan, m, Front(events));
      StepKeeps(plan, RunFrom(plan, m, Front(events)), Last(events));
    }
  }
}
