/**
 The durable rows of a devflow run - its run row, stage rows and event rows - and the transactions on them.
 A transaction that raises rolls back, which is `None` here.
 */
module DevflowState {
  import opened Wrappers

  datatype RunStatus = Planned | Running | Succeeded | Failed | Cancelled
  datatype StageStatus = StagePending | StageRunning | StageSucceeded | StageFailed | StageCancelled

  datatype StageRow = StageRow(
    name: string, index: int, role: string, workspace: string, status: StageStatus,
    retryBudget: int, retryCount: int,
    summary: Option<string>, audit: Option<string>, manifest: Option<string>,
    startedAt: int, finishedAt: Option<int>)

  datatype EventKind = Started | Retried | Finished(status: StageStatus) | RunCancelled | RunResumed
  datatype StageEvent = StageEvent(stage: string, kind: EventKind)

  // Stage rows in the order they were inserted.
  datatype Run = Run(
    status: RunStatus, currentStage: Option<string>, resumeToken: Option<string>, updatedAt: int,
    stages: seq<StageRow>, events: seq<StageEvent>)

  datatype Paths = Paths(summary: Option<string>, audit: Option<string>, manifest: Option<string>)

  function NewRun(now: int): Run {
    Run(Planned, None, None, now, [], [])
  }

  predicate HasStage(stages: seq<StageRow>, name: string) {
    exists k :: 0 <= k < |stages| && stages[k].name == name
  }

  // The position of a stage's row, or the length when there is none.
  function Position(stages: seq<StageRow>, name: string): (k: nat)
    ensures k <= |stages| && (k < |stages| <==> HasStage(stages, name))
    ensures k < |stages| ==> stages[k].name == name
    ensures forall j :: 0 <= j < k ==> stages[j].name != name
  {
    if stages == [] then 0
    else if stages[0].name == name then 0
    else
      assert forall j :: 0 < j < |stages| ==> stages[j] == stages[1..][j - 1];
      1 + Position(stages[1..], name)
  }

  function Coalesce(value: Option<string>, current: Option<string>): Option<string> {
    if value.Some? then value else current
  }

  // Insert the row, or reset it in place and count a retry.
  function StartStage(run: Run, now: int, name: string, index: int, role: string, workspace: string, budget: int): Run {
    var k := Position(run.stages, name);
    var started := StageEvent(name, Started);
    if k == |run.stages| then
      var row := StageRow(name, index, role, workspace, StageRunning, budget, 0, None, None, None, now, None);
      run.(status := Running, currentStage := Some(name), updatedAt := now, resumeToken := None,
           stages := run.stages + [row], events := run.events + [started])
    else
      var row := run.stages[k].(workspace := workspace, status := StageRunning, retryBudget := budget,
                                retryCount := run.stages[k].retryCount + 1, startedAt := now, finishedAt := None);
      run.(status := Running, currentStage := Some(name), updatedAt := now, resumeToken := None,
           stages := run.stages[k := row], events := run.events + [started, StageEvent(name, Retried)])
  }

  // Whatever the row's status was.
  function FinishStage(run: Run, now: int, name: string, status: StageStatus, paths: Paths): Option<Run>
    requires status in {StageSucceeded, StageFailed, StageCancelled}
  {
    var k := Position(run.stages, name);
    if k == |run.stages| then None
    else
      var row := run.stages[k].(status := status, finishedAt := Some(now),
                                summary := Coalesce(paths.summary, run.stages[k].summary),
                                audit := Coalesce(paths.audit, run.stages[k].audit),
                                manifest := Coalesce(paths.manifest, run.stages[k].manifest));
      var runStatus := match status case StageSucceeded => Running case StageFailed => Failed case _ => Cancelled;
      Some(run.(updatedAt := now, status := runStatus, currentStage := Some(name),
                stages := run.stages[k := row], events := run.events + [StageEvent(name, Finished(status))]))
  }

  function IssueToken(run: Run, now: int, token: string): Run {
    run.(resumeToken := Some(token), updatedAt := now)
  }

  function MarkSucceeded(run: Run, now: int): Run {
    run.(status := Succeeded, updatedAt := now, currentStage := None)
  }

  predicate StageTerminal(status: StageStatus) {
    status in {StageSucceeded, StageFailed, StageCancelled}
  }

  function CancelRow(row: StageRow, now: int): StageRow {
    if StageTerminal(row.status) then row
    else row.(status := StageCancelled, finishedAt := if row.finishedAt.Some? then row.finishedAt else Some(now))
  }

  // Refused on a terminal run.
  function CancelRun(run: Run, now: int): Option<Run> {
    if run.status in {Succeeded, Failed, Cancelled} then None
    else
      var stage := if run.currentStage.Some? && run.currentStage.value != "" then run.currentStage.value else "run";
      Some(run.(status := Cancelled, updatedAt := now,
                stages := seq(|run.stages|, k requires 0 <= k < |run.stages| => CancelRow(run.stages[k], now)),
                events := run.events + [StageEvent(stage, RunCancelled)]))
  }

  function MarkResumed(run: Run, now: int, stage: string): Run {
    run.(status := Running, updatedAt := now, currentStage := Some(stage),
         events := run.events + [StageEvent(stage, RunResumed)])
  }

  // --- Reading a run back: rows ordered by stage index ---

  function InsertByIndex(row: StageRow, rows: seq<StageRow>): seq<StageRow> {
    if rows == [] || rows[0].index > row.index then [row] + rows else [rows[0]] + InsertByIndex(row, rows[1..])
  }

  function OrderByIndex(rows: seq<StageRow>): seq<StageRow> {
    if rows == [] then [] else InsertByIndex(Last(rows), OrderByIndex(Front(rows)))
  }

  predicate IndexSorted(rows: seq<StageRow>) {
    forall j, k :: 0 <= j < k < |rows| ==> rows[j].index <= rows[k].index
  }

  lemma {:induction false} InsertLast(row: StageRow, rows: seq<StageRow>)
    requires forall k :: 0 <= k < |rows| ==> rows[k].index <= row.index
    ensures InsertByIndex(row, rows) == rows + [row]
  {
    if rows != [] {
      InsertLast(row, rows[1..]);
      assert rows == [rows[0]] + rows[1..];
    }
  }

  lemma {:induction false} SortedIsOrdered(rows: seq<StageRow>)
    requires IndexSorted(rows)
    ensures OrderByIndex(rows) == rows
  {
    if rows != [] {
      SortedIsOrdered(Front(rows));
      InsertLast(Last(rows), Front(rows));
      assert rows == Front(rows) + [Last(rows)];
    }
  }

  predicate Incomplete(row: StageRow) {
    !StageTerminal(row.status) || row.status == StageFailed
  }

  function NextIncomplete(rows: seq<StageRow>): Option<StageRow> {
    if rows == [] then None
    else if Incomplete(rows[0]) then Some(rows[0])
    else NextIncomplete(rows[1..])
  }

  ghost predicate FirstIncomplete(rows: seq<StageRow>, k: int) {
    0 <= k < |rows| && Incomplete(rows[k]) && forall j :: 0 <= j < k ==> !Incomplete(rows[j])
  }

  // The first incomplete row, if there is one.
  lemma {:induction false} NextIncompleteIsFirst(rows: seq<StageRow>)
    ensures NextIncomplete(rows).None? ==> forall k :: 0 <= k < |rows| ==> !Incomplete(rows[k])
    ensures NextIncomplete(rows).Some? ==> exists k :: FirstIncomplete(rows, k) && NextIncomplete(rows) == Some(rows[k])
  {
    if rows != [] && Incomplete(rows[0]) {
      assert FirstIncomplete(rows, 0);
    } else if rows != [] {
      NextIncompleteIsFirst(rows[1..]);
      assert forall k :: 0 < k < |rows| ==> rows[k] == rows[1..][k - 1];
      if NextIncomplete(rows).Some? {
        var k :| FirstIncomplete(rows[1..], k) && NextIncomplete(rows) == Some(rows[1..][k]);
        assert FirstIncomplete(rows, k + 1);
      }
    }
  }

  lemma {:induction false} NextIncompleteIsLast(rows: seq<StageRow>)
    requires rows != [] && forall k :: 0 <= k < |rows| - 1 ==> rows[k].status == StageSucceeded
    ensures NextIncomplete(rows) == if Incomplete(Last(rows)) then Some(Last(rows)) else None
  {
    if |rows| > 1 {
      assert forall k :: 0 <= k < |rows| - 2 ==> rows[1..][k] == rows[k + 1];
      NextIncompleteIsLast(rows[1..]);
    }
  }

  // The read half of resume: the stage to resume at, or None when it is refused.
  function ResumeStage(run: Run): Option<StageRow> {
    if run.status in {Failed, Planned, Running} then NextIncomplete(OrderByIndex(run.stages)) else None
  }

  // --- Event counts over any trace of transactions on one run ---

  datatype StoreCall =
    | StartCall(now: int, name: string, index: int, role: string, workspace: string, budget: int)
    | FinishCall(now: int, name: string, succeeded: bool, paths: Paths)
    | TokenCall(now: int, token: string)
    | SucceedCall(now: int)
    | CancelCall(now: int)
    | ResumeCall(now: int, stage: string)

  function OrKeep(next: Option<Run>, run: Run): Run {
    if next.Some? then next.value else run
  }

  function Apply(run: Run, call: StoreCall): Run {
    match call
    case StartCall(now, name, index, role, workspace, budget) =>
      StartStage(run, now, name, index, role, workspace, budget)
    case FinishCall(now, name, succeeded, paths) =>
      OrKeep(FinishStage(run, now, name, if succeeded then StageSucceeded else StageFailed, paths), run)
    case TokenCall(now, token) => IssueToken(run, now, token)
    case SucceedCall(now) => MarkSucceeded(run, now)
    case CancelCall(now) => OrKeep(CancelRun(run, now), run)
    case ResumeCall(now, stage) => MarkResumed(run, now, stage)
  }

  function Count(events: seq<StageEvent>, event: StageEvent): nat {
    multiset(events)[event]
  }

  ghost predicate NamesDistinct(stages: seq<StageRow>) {
    forall j, k :: 0 <= j < k < |stages| ==> stages[j].name != stages[k].name
  }

  // What the events say of one stage agrees with its row.
  ghost predicate EventsAgree(run: Run, name: string) {
    var k := Position(run.stages, name);
    if k == |run.stages| then
      Count(run.events, StageEvent(name, Started)) == 0 && Count(run.events, StageEvent(name, Retried)) == 0
    else
      Count(run.events, StageEvent(name, Started)) == run.stages[k].retryCount + 1
      && Count(run.events, StageEvent(name, Retried)) == run.stages[k].retryCount
  }

  lemma PositionSame(stages: seq<StageRow>, later: seq<StageRow>, name: string)
    requires |stages| == |later| && forall k :: 0 <= k < |stages| ==> later[k].name == stages[k].name
    ensures Position(later, name) == Position(stages, name)
  {
  }

  lemma CountAppend(events: seq<StageEvent>, event: StageEvent, counted: StageEvent)
    ensures Count(events + [event], counted) == Count(events, counted) + (if event == counted then 1 else 0)
  {
    assert multiset(events + [event]) == multiset(events) + multiset{event};
  }

  // A transaction that starts nothing keeps the counts.
  lemma QuietAgrees(run: Run, after: Run, name: string)
    requires NamesDistinct(run.stages) && EventsAgree(run, name)
    requires |after.stages| == |run.stages|
    requires forall k :: 0 <= k < |run.stages| ==>
      after.stages[k].name == run.stages[k].name && after.stages[k].retryCount == run.stages[k].retryCount
    requires after.events == run.events ||
             (after.events != [] && Front(after.events) == run.events && !Last(after.events).kind.Started?
              && !Last(after.events).kind.Retried?)
    ensures NamesDistinct(after.stages) && EventsAgree(after, name)
  {
    PositionSame(run.stages, after.stages, name);
    if after.events != run.events {
      assert after.events == run.events + [Last(after.events)];
      CountAppend(run.events, Last(after.events), StageEvent(name, Started));
      CountAppend(run.events, Last(after.events), StageEvent(name, Retried));
    }
  }

  lemma PositionAppend(stages: seq<StageRow>, row: StageRow, name: string)
    requires !HasStage(stages, row.name)
    ensures Position(stages + [row], name) ==
            if name == row.name then |stages|
            else if HasStage(stages, name) then Position(stages, name) else |stages| + 1
  {
    var later := stages + [row];
    assert forall j :: 0 <= j < |stages| ==> later[j] == stages[j];
    assert later[|stages|] == row;
    var k := Position(later, name);
    if HasStage(stages, name) {
      assert later[Position(stages, name)].name == name;
    }
  }

  lemma FirstStartAgrees(run: Run, call: StoreCall, name: string)
    requires call.StartCall? && NamesDistinct(run.stages) && EventsAgree(run, name) && !HasStage(run.stages, call.name)
    ensures NamesDistinct(Apply(run, call).stages) && EventsAgree(Apply(run, call), name)
  {
    var after := Apply(run, call);
    var started := StageEvent(call.name, Started);
    CountAppend(run.events, started, StageEvent(name, Started));
    CountAppend(run.events, started, StageEvent(name, Retried));
    PositionAppend(run.stages, Last(after.stages), name);
  }

  lemma RetryAgrees(run: Run, call: StoreCall, name: string)
    requires call.StartCall? && NamesDistinct(run.stages) && EventsAgree(run, name) && HasStage(run.stages, call.name)
    ensures NamesDistinct(Apply(run, call).stages) && EventsAgree(Apply(run, call), name)
  {
    var after := Apply(run, call);
    var started, retried := StageEvent(call.name, Started), StageEvent(call.name, Retried);
    CountAppend(run.events, started, StageEvent(name, Started));
    CountAppend(run.events, started, StageEvent(name, Retried));
    assert after.events == (run.events + [started]) + [retried];
    CountAppend(run.events + [started], retried, StageEvent(name, Started));
    CountAppend(run.events + [started], retried, StageEvent(name, Retried));
    PositionSame(run.stages, after.stages, name);
  }

  lemma FinishAgrees(run: Run, call: StoreCall, name: string)
    requires call.FinishCall? && NamesDistinct(run.stages) && EventsAgree(run, name)
    ensures NamesDistinct(Apply(run, call).stages) && EventsAgree(Apply(run, call), name)
  {
    var after := Apply(run, call);
    if HasStage(run.stages, call.name) {
      assert Front(after.events) == run.events;
    }
    QuietAgrees(run, after, name);
  }

  lemma CancelAgrees(run: Run, call: StoreCall, name: string)
    requires call.CancelCall? && NamesDistinct(run.stages) && EventsAgree(run, name)
    ensures NamesDistinct(Apply(run, call).stages) && EventsAgree(Apply(run, call), name)
  {
    var after := Apply(run, call);
    if CancelRun(run, call.now).Some? {
      assert Front(after.events) == run.events;
    }
    QuietAgrees(run, after, name);
  }

  lemma ApplyAgrees(run: Run, call: StoreCall, name: string)
    requires NamesDistinct(run.stages) && EventsAgree(run, name)
    ensures NamesDistinct(Apply(run, call).stages) && EventsAgree(Apply(run, call), name)
  {
    match call {
      case StartCall(_, stage, _, _, _, _) =>
        if HasStage(run.stages, stage) {
          RetryAgrees(run, call, name);
        } else {
          FirstStartAgrees(run, call, name);
        }
      case FinishCall(_, _, _, _) => FinishAgrees(run, call, name);
      case CancelCall(_) => CancelAgrees(run, call, name);
      case ResumeCall(_, _) =>
        assert Front(Apply(run, call).events) == run.events;
        QuietAgrees(run, Apply(run, call), name);
      case _ =>
    }
  }

  // A stage row has one started event per start and one retried event per retry; a stage without a row has neither.
  lemma {:induction false} EventsAlwaysAgree(calls: seq<StoreCall>, created: int, name: string)
    ensures var run := Fold(Apply, NewRun(created), calls); NamesDistinct(run.stages) && EventsAgree(run, name)
  {
    if calls != [] {
      EventsAlwaysAgree(Front(calls), created, name);
      ApplyAgrees(Fold(Apply, NewRun(created), Front(calls)), Last(calls), name);
    }
  }

  // --- The rows read off the events alone ---

  // What the events say of a stage: its last start or end, or the cancel of the run while it was running.
  function StageLogged(events: seq<StageEvent>, name: string): Option<StageStatus> {
    if events == [] then None
    else
      var before, own := StageLogged(Front(events), name), Last(events).stage == name;
      match Last(events).kind
      case Started => if own then Some(StageRunning) else before
      case Finished(status) => if own then Some(status) else before
      case RunCancelled => if before == Some(StageRunning) then Some(StageCancelled) else before
      case _ => before
  }

  // What they say of the run, and the stage it is at.
  function RunLogged(events: seq<StageEvent>): RunStatus {
    if events == [] then Planned
    else
      match Last(events).kind
      case Started => Running
      case Finished(status) =>
        if status == StageFailed then Failed else if status == StageCancelled then Cancelled else Running
      case RunCancelled => Cancelled
      case RunResumed => Running
      case Retried => RunLogged(Front(events))
  }

  function CurrentLogged(events: seq<StageEvent>): Option<string> {
    if events == [] then None
    else match Last(events).kind
         case Started => Some(Last(events).stage)
         case Finished(_) => Some(Last(events).stage)
         case RunResumed => Some(Last(events).stage)
         case _ => CurrentLogged(Front(events))
  }

  // The rows say what the events say; a stage has an end exactly when it is not running. Only the success of the whole
  // run leaves no event.
  ghost predicate Logged(run: Run, name: string) {
    var k := Position(run.stages, name);
    && (if k == |run.stages| then StageLogged(run.events, name) == None
        else && StageLogged(run.events, name) == Some(run.stages[k].status)
             && run.stages[k].status != StagePending
             && (run.stages[k].finishedAt.None? <==> run.stages[k].status == StageRunning))
    && (run.status != Succeeded ==>
          run.status == RunLogged(run.events) && run.currentStage == CurrentLogged(run.events))
  }

  lemma StartLogged(run: Run, call: StoreCall, name: string)
    requires call.StartCall? && NamesDistinct(run.stages) && Logged(run, name)
    ensures Logged(Apply(run, call), name)
  {
    var after := Apply(run, call);
    var started := run.events + [StageEvent(call.name, Started)];
    assert Front(started) == run.events;
    if HasStage(run.stages, call.name) {
      assert Front(after.events) == started;
      PositionSame(run.stages, after.stages, name);
    } else {
      PositionAppend(run.stages, Last(after.stages), name);
    }
  }

  // An end keeps the place of every row.
  lemma FinishPosition(run: Run, now: int, ended: string, status: StageStatus, paths: Paths, name: string)
    requires status in {StageSucceeded, StageFailed} && HasStage(run.stages, ended)
    ensures FinishStage(run, now, ended, status, paths).Some?
    ensures var after := FinishStage(run, now, ended, status, paths).value; var k := Position(run.stages, name);
            && Position(after.stages, name) == k && |after.stages| == |run.stages|
            && (k < |run.stages| ==>
                  if name == ended
                  then after.stages[k] == run.stages[k].(
                         status := status, finishedAt := Some(now),
                         summary := Coalesce(paths.summary, run.stages[k].summary),
                         audit := Coalesce(paths.audit, run.stages[k].audit),
                         manifest := Coalesce(paths.manifest, run.stages[k].manifest))
                  else after.stages[k] == run.stages[k])
            && after.events == run.events + [StageEvent(ended, Finished(status))] && Front(after.events) == run.events
            && after.currentStage == Some(ended) && after.status == if status == StageFailed then Failed else Running
  {
    PositionSame(run.stages, FinishStage(run, now, ended, status, paths).value.stages, name);
  }

  lemma FinishLogged(run: Run, call: StoreCall, name: string)
    requires call.FinishCall? && Logged(run, name)
    ensures Logged(Apply(run, call), name)
  {
    if HasStage(run.stages, call.name) {
      var status := if call.succeeded then StageSucceeded else StageFailed;
      FinishPosition(run, call.now, call.name, status, call.paths, name);
    }
  }

  // A cancel keeps the place of every row.
  lemma CancelPosition(run: Run, now: int, name: string)
    requires CancelRun(run, now).Some?
    ensures var after := CancelRun(run, now).value; var k := Position(run.stages, name);
            && Position(after.stages, name) == k && |after.stages| == |run.stages|
            && (k < |run.stages| ==> after.stages[k] == CancelRow(run.stages[k], now))
            && after.events != [] && Front(after.events) == run.events && Last(after.events).kind == RunCancelled
            && after.status == Cancelled && after.currentStage == run.currentStage
  {
    PositionSame(run.stages, CancelRun(run, now).value.stages, name);
    assert Front(CancelRun(run, now).value.events) == run.events;
  }

  lemma CancelledLogged(run: Run, after: Run, now: int, name: string)
    requires Logged(run, name) && |after.stages| == |run.stages|
    requires Position(after.stages, name) == Position(run.stages, name)
    requires var k := Position(run.stages, name); k < |run.stages| ==> after.stages[k] == CancelRow(run.stages[k], now)
    requires after.events != [] && Front(after.events) == run.events && Last(after.events).kind == RunCancelled
    requires after.status == Cancelled && after.currentStage == run.currentStage && run.status != Succeeded
    ensures Logged(after, name)
  {
  }

  lemma CancelLogged(run: Run, call: StoreCall, name: string)
    requires call.CancelCall? && Logged(run, name)
    ensures Logged(Apply(run, call), name)
  {
    if CancelRun(run, call.now).Some? {
      CancelPosition(run, call.now, name);
      CancelledLogged(run, CancelRun(run, call.now).value, call.now, name);
    }
  }

  lemma ApplyLogged(run: Run, call: StoreCall, name: string)
    requires NamesDistinct(run.stages) && Logged(run, name)
    ensures Logged(Apply(run, call), name)
  {
    match call {
      case StartCall(_, _, _, _, _, _) => StartLogged(run, call, name);
      case FinishCall(_, _, _, _) => FinishLogged(run, call, name);
      case CancelCall(_) => CancelLogged(run, call, name);
      case ResumeCall(_, _) => assert Front(Apply(run, call).events) == run.events;
      case _ =>
    }
  }

  // Over any trace of transactions the events tell every stage's status, and the run's and its stage unless it has
  // succeeded.
  lemma {:induction false} EventsTellStatuses(calls: seq<StoreCall>, created: int, name: string)
    ensures Logged(Fold(Apply, NewRun(created), calls), name)
  {
    if calls != [] {
      EventsTellStatuses(Front(calls), created, name);
      EventsAlwaysAgree(Front(calls), created, name);
      ApplyLogged(Fold(Apply, NewRun(created), Front(calls)), Last(calls), name);
    }
  }

  // --- The other columns read off the calls ---

  // The first and the last call that started the stage.
  function FirstStart(calls: seq<StoreCall>, name: string): (start: Option<StoreCall>)
    ensures start.Some? ==> start.value.StartCall?
  {
    if calls == [] then None
    else
      var before := FirstStart(Front(calls), name);
      if before.None? && Last(calls).StartCall? && Last(calls).name == name then Some(Last(calls)) else before
  }

  function LastStart(calls: seq<StoreCall>, name: string): (start: Option<StoreCall>)
    ensures start.Some? ==> start.value.StartCall?
  {
    if calls == [] then None
    else if Last(calls).StartCall? && Last(calls).name == name then Some(Last(calls)) else LastStart(Front(calls), name)
  }

  // The token issued last, unless a stage has been started since.
  function LastToken(calls: seq<StoreCall>): Option<string> {
    if calls == [] then None
    else match Last(calls)
         case TokenCall(_, token) => Some(token)
         case StartCall(_, _, _, _, _, _) => None
         case _ => LastToken(Front(calls))
  }

  // The path most recently given at an end of the stage.
  function LastPath(calls: seq<StoreCall>, name: string, pick: Paths -> Option<string>): Option<string> {
    if calls == [] then None
    else if Last(calls).FinishCall? && Last(calls).name == name && pick(Last(calls).paths).Some?
            && FirstStart(Front(calls), name).Some?
    then pick(Last(calls).paths) else LastPath(Front(calls), name, pick)
  }

  function Summary(): Paths -> Option<string> {
    (paths: Paths) => paths.summary
  }

  function Audit(): Paths -> Option<string> {
    (paths: Paths) => paths.audit
  }

  function Manifest(): Paths -> Option<string> {
    (paths: Paths) => paths.manifest
  }

  ghost predicate ColumnsByCalls(calls: seq<StoreCall>, run: Run, name: string) {
    var k := Position(run.stages, name);
    && (k < |run.stages| <==> FirstStart(calls, name).Some?)
    && (FirstStart(calls, name).Some? <==> LastStart(calls, name).Some?)
    && (k < |run.stages| ==>
          var row, first, last := run.stages[k], FirstStart(calls, name).value, LastStart(calls, name).value;
          && row.index == first.index && row.role == first.role
          && row.workspace == last.workspace && row.retryBudget == last.budget && row.startedAt == last.now
          && row.summary == LastPath(calls, name, Summary())
          && row.audit == LastPath(calls, name, Audit())
          && row.manifest == LastPath(calls, name, Manifest()))
  }

  lemma RestartColumns(calls: seq<StoreCall>, run: Run, name: string)
    requires calls != [] && Last(calls).StartCall? && HasStage(run.stages, Last(calls).name)
    requires ColumnsByCalls(Front(calls), run, name)
    ensures ColumnsByCalls(calls, Apply(run, Last(calls)), name)
  {
    PositionSame(run.stages, Apply(run, Last(calls)).stages, name);
  }

  lemma FirstColumns(calls: seq<StoreCall>, run: Run, name: string)
    requires calls != [] && Last(calls).StartCall? && !HasStage(run.stages, Last(calls).name)
    requires ColumnsByCalls(Front(calls), run, name)
    ensures ColumnsByCalls(calls, Apply(run, Last(calls)), name)
  {
    PositionAppend(run.stages, Last(Apply(run, Last(calls)).stages), name);
    NoPaths(Front(calls), name);
  }

  lemma StartColumns(calls: seq<StoreCall>, run: Run, name: string)
    requires calls != [] && Last(calls).StartCall? && ColumnsByCalls(Front(calls), run, name)
    ensures ColumnsByCalls(calls, Apply(run, Last(calls)), name)
  {
    if HasStage(run.stages, Last(calls).name) {
      RestartColumns(calls, run, name);
    } else {
      FirstColumns(calls, run, name);
    }
  }

  lemma FinishedColumns(calls: seq<StoreCall>, run: Run, after: Run, name: string)
    requires calls != [] && Last(calls).FinishCall? && ColumnsByCalls(Front(calls), run, name)
    requires HasStage(run.stages, Last(calls).name)
    requires |after.stages| == |run.stages| && Position(after.stages, name) == Position(run.stages, name)
    requires var k, paths := Position(run.stages, name), Last(calls).paths;
             k < |run.stages| ==>
               after.stages[k].index == run.stages[k].index && after.stages[k].role == run.stages[k].role
               && after.stages[k].workspace == run.stages[k].workspace
               && after.stages[k].retryBudget == run.stages[k].retryBudget
               && after.stages[k].startedAt == run.stages[k].startedAt
               && if name != Last(calls).name then after.stages[k] == run.stages[k]
                  else && after.stages[k].summary == Coalesce(paths.summary, run.stages[k].summary)
                       && after.stages[k].audit == Coalesce(paths.audit, run.stages[k].audit)
                       && after.stages[k].manifest == Coalesce(paths.manifest, run.stages[k].manifest)
    ensures ColumnsByCalls(calls, after, name)
  {
  }

  lemma FinishColumns(calls: seq<StoreCall>, run: Run, name: string)
    requires calls != [] && Last(calls).FinishCall? && NamesDistinct(run.stages)
    requires ColumnsByCalls(Front(calls), run, name)
    ensures ColumnsByCalls(calls, Apply(run, Last(calls)), name)
  {
    var call := Last(calls);
    if HasStage(run.stages, call.name) {
      var status := if call.succeeded then StageSucceeded else StageFailed;
      FinishPosition(run, call.now, call.name, status, call.paths, name);
      FinishedColumns(calls, run, FinishStage(run, call.now, call.name, status, call.paths).value, name);
    }
  }

  lemma CancelColumns(calls: seq<StoreCall>, run: Run, name: string)
    requires calls != [] && Last(calls).CancelCall? && ColumnsByCalls(Front(calls), run, name)
    ensures ColumnsByCalls(calls, Apply(run, Last(calls)), name)
  {
    if CancelRun(run, Last(calls).now).Some? {
      CancelPosition(run, Last(calls).now, name);
    }
  }

  lemma ColumnsStep(calls: seq<StoreCall>, run: Run, name: string)
    requires calls != [] && NamesDistinct(run.stages) && ColumnsByCalls(Front(calls), run, name)
    ensures ColumnsByCalls(calls, Apply(run, Last(calls)), name)
  {
    match Last(calls) {
      case StartCall(_, _, _, _, _, _) => StartColumns(calls, run, name);
      case FinishCall(_, _, _, _) => FinishColumns(calls, run, name);
      case CancelCall(_) => CancelColumns(calls, run, name);
      case _ =>
    }
  }

  lemma {:induction false} NoPaths(calls: seq<StoreCall>, name: string)
    ensures FirstStart(calls, name).None? ==> forall pick :: LastPath(calls, name, pick) == None
  {
    if calls != [] {
      NoPaths(Front(calls), name);
    }
  }

  // A transaction leaves its clock in the run row, or is refused and changes nothing.
  lemma ApplyTouches(run: Run, call: StoreCall)
    ensures Apply(run, call) == run || Apply(run, call).updatedAt == call.now
    ensures Apply(run, call) == run ==> call.FinishCall? || call.CancelCall? || call.now == run.updatedAt
  {
  }

  // Index and role are those of the first start, workspace, budget and clock those of the last, and each path is the
  // one given last.
  lemma {:induction false} ColumnsTold(calls: seq<StoreCall>, created: int, name: string)
    ensures ColumnsByCalls(calls, Fold(Apply, NewRun(created), calls), name)
    ensures Fold(Apply, NewRun(created), calls).resumeToken == LastToken(calls)
  {
    if calls != [] {
      ColumnsTold(Front(calls), created, name);
      EventsAlwaysAgree(Front(calls), created, name);
      ColumnsStep(calls, Fold(Apply, NewRun(created), Front(calls)), name);
    }
  }
}
