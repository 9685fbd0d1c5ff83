/** The worker-dispatch step of the workflow runner, written against the journal object. */
module WorkerDispatch {
  import opened Wrappers
  import opened Text
  import opened Operations
  import opened Dispatch
  import opened OpJournal

  function Entering(task: Task, approver: Option<string>): Worker {
    Worker(task, approver, ToBegin, "", (None, None), Summary(false, "", None))
  }

  ghost function Alone(ops: OpTable, trace: seq<OpCall>, w: Worker): System {
    System(ops, trace, map[0 := w], multiset{}, multiset{}, multiset{})
  }

  // The machine has run `events` from `start`, worker 0 stands at `w`, and run_session was not called.
  ghost predicate At(start: System, events: seq<Event>, w: Worker, ops: OpTable, trace: seq<OpCall>) {
    && (forall e :: e in events ==> e.Advance? && e.pid == 0)
    && RunFrom(start, events) == start.(ops := ops, trace := trace, workers := map[0 := w],
                                        passes := RunFrom(start, events).passes,
                                        repeats := RunFrom(start, events).repeats)
    && start.sessions == multiset{}
  }

  // The machine has run `events` from `start` and worker 0 is gone.
  ghost predicate Over(start: System, events: seq<Event>, ops: OpTable, trace: seq<OpCall>, sessions: multiset<OpKey>) {
    && (forall e :: e in events ==> e.Advance? && e.pid == 0)
    && var end := RunFrom(start, events);
    end.ops == ops && end.trace == trace && end.workers == map[] && end.sessions == sessions
  }

  // The machine has run `events` from `start`, and run_session was called once.
  ghost predicate HasRun(start: System, events: seq<Event>, workers: map<nat, Worker>, ops: OpTable,
                         trace: seq<OpCall>, key: OpKey) {
    && (forall e :: e in events ==> e.Advance? && e.pid == 0)
    && var end := RunFrom(start, events);
    end.ops == ops && end.trace == trace && end.workers == workers && end.sessions == multiset{key}
  }

  // The only worker makes a journal call.
  lemma AloneCalls(sys: System, w: Worker, input: Input) returns (next: Option<Worker>)
    requires sys.workers == map[0 := w] && w.phase != ToSession && (w.phase == ToPacket ==> input.packetWritten)
    ensures var call := NextCall(w, input); var ops := Operations.Step(sys.ops, call);
            var after := Dispatch.Step(sys, Advance(0, input));
            && after.ops == ops && after.trace == sys.trace + [call] && after.sessions == sys.sessions
            && after.workers == (if next.Some? then map[0 := next.value] else map[])
            && (Answer(sys.ops, call).Err? ==> next.None?)
            && (Answer(sys.ops, call).Ok? ==>
                  Answer(sys.ops, call).value in ops && next == NextWorker(w, Answer(sys.ops, call).value, ops))
  {
    var call := NextCall(w, input);
    next := None;
    if Answer(sys.ops, call).Ok? {
      AnswerInTable(sys.ops, call);
      next := NextWorker(w, Answer(sys.ops, call).value, Operations.Step(sys.ops, call));
    }
    assert map[0 := w] - {0} == map[];
  }

  // Worker 0 makes its next journal call.
  lemma CallMade(start: System, events: seq<Event>, w: Worker, ops: OpTable, trace: seq<OpCall>, input: Input)
    returns (more: seq<Event>, next: Option<Worker>)
    requires At(start, events, w, ops, trace) && w.phase != ToSession && (w.phase == ToPacket ==> input.packetWritten)
    ensures var call := NextCall(w, input);
            var after := Operations.Step(ops, call);
            && (Answer(ops, call).Err? ==> next.None?)
            && (Answer(ops, call).Ok? ==> Answer(ops, call).value in after
                                          && next == NextWorker(w, Answer(ops, call).value, after))
            && (next.Some? ==> At(start, more, next.value, after, trace + [call]))
            && (next.None? ==> Over(start, more, after, trace + [call], multiset{}))
  {
    more := events + [Advance(0, input)];
    RunAppend(start, events, Advance(0, input));
    next := AloneCalls(RunFrom(start, events), w, input);
  }

  lemma SessionMade(start: System, events: seq<Event>, w: Worker, ops: OpTable, trace: seq<OpCall>, input: Input)
    returns (more: seq<Event>)
    requires At(start, events, w, ops, trace) && w.phase == ToSession
    ensures HasRun(start, more,
                   if input.result.None? then map[] else map[0 := w.(phase := ToFinish, summary := input.result.value)],
                   ops, trace, w.task.key)
    ensures input.result.None? ==> Over(start, more, ops, trace, multiset{w.task.key})
  {
    more := events + [Advance(0, input)];
    RunAppend(start, events, Advance(0, input));
    assert map[0 := w] - {0} == map[];
  }

  lemma PacketLost(start: System, events: seq<Event>, w: Worker, ops: OpTable, trace: seq<OpCall>, input: Input)
    returns (more: seq<Event>)
    requires At(start, events, w, ops, trace) && w.phase == ToPacket && !input.packetWritten
    ensures Over(start, more, ops, trace, multiset{})
  {
    more := events + [Advance(0, input)];
    RunAppend(start, events, Advance(0, input));
    assert map[0 := w] - {0} == map[];
  }

  lemma FinishMade(start: System, events: seq<Event>, w: Worker, ops: OpTable, trace: seq<OpCall>, input: Input)
    returns (more: seq<Event>)
    requires HasRun(start, events, map[0 := w], ops, trace, w.task.key)
    requires w.phase == ToFinish
    ensures var call := Transition(input.now, w.opId, if w.summary.ok then Succeeded else Failed,
                                   FinishPatch(w.summary));
            Over(start, more, Operations.Step(ops, call), trace + [call], multiset{w.task.key})
  {
    more := events + [Advance(0, input)];
    RunAppend(start, events, Advance(0, input));
    assert map[0 := w] - {0} == map[];
    assert RunFrom(start, more) == ApplyCall(RunFrom(start, events), 0, NextCall(w, input));
    if Answer(ops, NextCall(w, input)).Ok? {
      AnswerInTable(ops, NextCall(w, input));
    }
  }

  ghost function StatusOf(ops: OpTable, key: OpKey): Status
    requires HasKey(ops, key)
  {
    ops[IdOf(ops, key)].status
  }

  // The contract has no operation yet and the id is fresh, or its operation can still be marked.
  ghost predicate Dispatchable(ops: OpTable, task: Task, freshId: string) {
    if HasKey(ops, task.key)
    then StatusOf(ops, task.key) in {Proposed, PendingApproval}
         || (StatusOf(ops, task.key) == Approved && !task.approvalRequired)
    else freshId !in ops
  }

  predicate Named(approver: Option<string>) {
    approver.Some? && !IsBlank(approver.value)
  }

  // What the marking call leaves in a row, and every later call of the dispatch keeps.
  predicate Marked(row: Operation, task: Task) {
    && row.key == task.key && row.contract == Some(task.contract) && row.contractVersion == Some(1)
    && row.policyDecision == Some(if task.approvalRequired then "require_approval" else "allow")
    && (task.approvalRequired ==> row.approvalRequired)
  }

  // The result of a session as it is recorded.
  predicate Recorded(row: Operation, summary: Summary) {
    && row.status == (if summary.ok then Succeeded else Failed)
    && row.result.ok == Some(summary.ok) && row.result.statusCode == summary.returncode
    && row.result.bodyExcerpt == Some(summary.message)
    && row.lastError == (if summary.ok then None else Some(summary.message))
  }

  // Begin: the contract's operation, new or already there.
  method BeginOperation(journal: OperationJournal, task: Task, approver: Option<string>, env: Phase -> Input)
    returns (begun: bool, opId: string, ghost events: seq<Event>)
    requires journal.Valid()
    modifies journal`ops, journal`opTrace
    ensures journal.Valid()
    ensures var start := Alone(old(journal.ops), old(journal.opTrace), Entering(task, approver));
            if begun then At(start, events, Entering(task, approver).(phase := ToMark, opId := opId), journal.ops,
                             journal.opTrace)
            else Over(start, events, journal.ops, journal.opTrace, multiset{})
    ensures begun <==> HasKey(old(journal.ops), task.key) || env(ToBegin).freshId !in old(journal.ops)
    ensures begun ==> opId in journal.ops && journal.ops[opId].key == task.key
    ensures begun && !HasKey(old(journal.ops), task.key) ==> journal.ops[opId].trustZone == task.role
    ensures begun ==> journal.ops[opId].status == if HasKey(old(journal.ops), task.key)
                                                  then StatusOf(old(journal.ops), task.key) else Proposed
  {
    ghost var w := Entering(task, approver);
    ghost var start := Alone(journal.ops, journal.opTrace, w);
    assert At(start, [], w, journal.ops, journal.opTrace);
    var answer := journal.Begin(env(ToBegin).now, env(ToBegin).freshId, task.key, task.role);
    ghost var next;
    events, next := CallMade(start, [], w, start.ops, start.trace, env(ToBegin));
    return answer.Ok?, if answer.Ok? then answer.value else "", events;
  }

  lemma MarkLeaves(ops: OpTable, opId: string, now: int, task: Task)
    requires opId in ops && ops[opId].key == task.key
    ensures var status := if task.approvalRequired then PendingApproval else Approved;
            var call := Transition(now, opId, status, MarkPatch(task));
            && (Answer(ops, call).Ok? <==> ops[opId].status in {Proposed, PendingApproval}
                                           || (ops[opId].status == Approved && !task.approvalRequired))
            && (Answer(ops, call).Ok? ==>
                  var after := Operations.Step(ops, call);
                  opId in after && after[opId].status == status && Marked(after[opId], task))
  {
  }

  lemma MarkMade(start: System, before: seq<Event>, begun: Worker, ops: OpTable, trace: seq<OpCall>, input: Input)
    returns (events: seq<Event>, w: Worker)
    requires At(start, before, begun, ops, trace) && begun.phase == ToMark && begun.opId in ops
    ensures var status := if begun.task.approvalRequired then PendingApproval else Approved;
            var call := Transition(input.now, begun.opId, status, MarkPatch(begun.task));
            var after := Operations.Step(ops, call);
            if Answer(ops, call).Ok? then
              && At(start, events, w, after, trace + [call]) && begun.opId in after
              && w == begun.(phase := if begun.task.approvalRequired then ToPacket else ToRun,
                             pending := (after[begun.opId].review.status, after[begun.opId].review.artifact))
            else Over(start, events, after, trace + [call], multiset{})
  {
    var next;
    events, next := CallMade(start, before, begun, ops, trace, input);
    w := if next.Some? then next.value else begun;
  }

  // The marking call: to the review packet when approval is required, otherwise to the running gate.
  method MarkBegun(journal: OperationJournal, opId: string, task: Task, env: Phase -> Input,
                   ghost start: System, ghost before: seq<Event>, ghost begun: Worker)
    returns (marked: bool, ghost events: seq<Event>, ghost w: Worker)
    requires journal.Valid() && opId in journal.ops && journal.ops[opId].key == task.key
    requires At(start, before, begun, journal.ops, journal.opTrace)
    requires begun.phase == ToMark && begun.opId == opId && begun.task == task
    modifies journal`ops, journal`opTrace
    ensures journal.Valid()
    ensures if marked then At(start, events, w, journal.ops, journal.opTrace)
              else Over(start, events, journal.ops, journal.opTrace, multiset{})
    ensures marked <==> old(journal.ops[opId].status) in {Proposed, PendingApproval}
                        || (old(journal.ops[opId].status) == Approved && !task.approvalRequired)
    ensures marked ==>
              && opId in journal.ops && Marked(journal.ops[opId], task)
              && journal.ops[opId].status == (if task.approvalRequired then PendingApproval else Approved)
              && w == begun.(phase := if task.approvalRequired then ToPacket else ToRun, pending := w.pending)
              && w.pending == (journal.ops[opId].review.status, journal.ops[opId].review.artifact)
  {
    ghost var ops, trace := journal.ops, journal.opTrace;
    var status := if task.approvalRequired then PendingApproval else Approved;
    MarkLeaves(ops, opId, env(ToMark).now, task);
    var answer := journal.Transition(env(ToMark).now, opId, status, MarkPatch(task));
    events, w := MarkMade(start, before, begun, ops, trace, env(ToMark));
    return answer.Ok?, events, w;
  }

  // Begin and mark: the worker is then before the running gate, or before the review packet when approval is required.
  method MarkOperation(journal: OperationJournal, task: Task, approver: Option<string>, env: Phase -> Input)
    returns (marked: bool, opId: string, ghost events: seq<Event>, ghost w: Worker)
    requires journal.Valid()
    modifies journal`ops, journal`opTrace
    ensures journal.Valid()
    ensures var start := Alone(old(journal.ops), old(journal.opTrace), Entering(task, approver));
            if marked then At(start, events, w, journal.ops, journal.opTrace)
              else Over(start, events, journal.ops, journal.opTrace, multiset{})
    ensures marked <==> Dispatchable(old(journal.ops), task, env(ToBegin).freshId)
    ensures marked ==>
              && opId in journal.ops && Marked(journal.ops[opId], task)
              && journal.ops[opId].status == (if task.approvalRequired then PendingApproval else Approved)
              && w.task == task && w.approver == approver && w.opId == opId
              && w.phase == (if task.approvalRequired then ToPacket else ToRun)
              && w.pending == (journal.ops[opId].review.status, journal.ops[opId].review.artifact)
  {
    ghost var start := Alone(journal.ops, journal.opTrace, Entering(task, approver));
    marked, opId, events := BeginOperation(journal, task, approver, env);
    w := Entering(task, approver).(phase := ToMark, opId := opId);
    if marked {
      marked, events, w := MarkBegun(journal, opId, task, env, start, events, w);
    }
  }

  // Where the packet goes: where the row says, or to a place of its own.
  function PacketPlace(row: Operation, opId: string): string {
    var artifact := row.review.artifact;
    if artifact.Some? && artifact.value != "" then artifact.value else "reviews/" + opId + ".json"
  }

  function PacketPatch(row: Operation, opId: string): Patch {
    NO_PATCH.(reviewArtifact := Set(Some(PacketPlace(row, opId))),
              reviewStatus := Set(OrElse(row.review.status, "pending")))
  }

  lemma PacketLeaves(ops: OpTable, opId: string, now: int)
    requires opId in ops
    ensures var call := Transition(now, opId, PendingApproval, PacketPatch(ops[opId], opId));
            && (Answer(ops, call).Ok? <==> ops[opId].status in {Proposed, PendingApproval})
            && var after := Operations.Step(ops, call);
               && opId in after && after[opId].key == ops[opId].key
               && (forall task :: Marked(ops[opId], task) ==> Marked(after[opId], task))
               && (Answer(ops, call).Ok? ==>
                     && after[opId].status == PendingApproval
                     && after[opId].review == ops[opId].review.(artifact := Some(PacketPlace(ops[opId], opId)),
                                                                status := OrElse(ops[opId].review.status, "pending")))
  {
  }

  lemma PacketMade(start: System, before: seq<Event>, waiting: Worker, ops: OpTable, trace: seq<OpCall>, input: Input)
    returns (events: seq<Event>)
    requires At(start, before, waiting, ops, trace) && waiting.phase == ToPacket && waiting.opId in ops
    requires waiting.pending == (ops[waiting.opId].review.status, ops[waiting.opId].review.artifact)
    requires input.packetWritten
    ensures var call := Transition(input.now, waiting.opId, PendingApproval,
                                   PacketPatch(ops[waiting.opId], waiting.opId));
            if Answer(ops, call).Ok? && Named(waiting.approver)
            then At(start, events, waiting.(phase := ToApprove), Operations.Step(ops, call), trace + [call])
            else Over(start, events, Operations.Step(ops, call), trace + [call], multiset{})
  {
    var next;
    events, next := CallMade(start, before, waiting, ops, trace, input);
  }

  // Write the review packet and register it; a packet that cannot be written leaves the operation as it is.
  method DispatchPendingApproval(journal: OperationJournal, opId: string, env: Phase -> Input,
                                 ghost start: System, ghost before: seq<Event>, ghost waiting: Worker)
    returns (dispatched: bool, ghost events: seq<Event>)
    requires journal.Valid() && opId in journal.ops
    requires At(start, before, waiting, journal.ops, journal.opTrace) && waiting.phase == ToPacket
    requires waiting.opId == opId
    requires waiting.pending == (journal.ops[opId].review.status, journal.ops[opId].review.artifact)
    modifies journal`ops, journal`opTrace
    ensures journal.Valid() && opId in journal.ops && journal.ops[opId].key == old(journal.ops[opId].key)
    ensures dispatched <==> env(ToPacket).packetWritten && old(journal.ops[opId].status) in {Proposed, PendingApproval}
    ensures dispatched ==>
              && journal.ops[opId].status == PendingApproval
              && var prior, review := old(journal.ops[opId].review), journal.ops[opId].review;
              && review == prior.(artifact := review.artifact, status := review.status)
              && (if prior.artifact.Some? && prior.artifact.value != "" then review.artifact == prior.artifact
                  else review.artifact == Some("reviews/" + opId + ".json"))
              && (if prior.status.Some? && prior.status.value != "" then review.status == prior.status
                  else review.status == Some("pending"))
    ensures forall task :: Marked(old(journal.ops[opId]), task) ==> Marked(journal.ops[opId], task)
    ensures if dispatched && Named(waiting.approver)
            then At(start, events, waiting.(phase := ToApprove), journal.ops, journal.opTrace)
            else Over(start, events, journal.ops, journal.opTrace, multiset{})
  {
    ghost var ops, trace := journal.ops, journal.opTrace;
    if !env(ToPacket).packetWritten {
      events := PacketLost(start, before, waiting, ops, trace, env(ToPacket));
      return false, events;
    }
    var packet := PacketPatch(journal.ops[opId], opId);
    PacketLeaves(ops, opId, env(ToPacket).now);
    var answer := journal.Transition(env(ToPacket).now, opId, PendingApproval, packet);
    events := PacketMade(start, before, waiting, ops, trace, env(ToPacket));
    return answer.Ok?, events;
  }

  // The packet, then the dispatch's own approver, if it has one.
  method ReviewOperation(journal: OperationJournal, opId: string, task: Task, approver: Option<string>,
                         env: Phase -> Input,
                         ghost start: System, ghost before: seq<Event>, ghost waiting: Worker)
    returns (approved: bool, ghost events: seq<Event>, ghost w: Worker)
    requires journal.Valid() && opId in journal.ops
    requires At(start, before, waiting, journal.ops, journal.opTrace) && waiting.phase == ToPacket
    requires waiting.opId == opId && waiting.approver == approver && waiting.task == task
    requires waiting.pending == (journal.ops[opId].review.status, journal.ops[opId].review.artifact)
    modifies journal`ops, journal`opTrace
    ensures journal.Valid()
    ensures if approved then At(start, events, w, journal.ops, journal.opTrace) && w == waiting.(phase := ToRun)
            else Over(start, events, journal.ops, journal.opTrace, multiset{})
    ensures approved <==> env(ToPacket).packetWritten && Named(approver)
                          && old(journal.ops[opId].status) in {Proposed, PendingApproval}
    ensures approved ==>
              && opId in journal.ops && (Marked(old(journal.ops[opId]), task) ==> Marked(journal.ops[opId], task))
              && journal.ops[opId].status == Approved && journal.ops[opId].approvedBy == approver
              && journal.ops[opId].approvalNote == task.approvalNote
  {
    approved, w := false, waiting;
    var dispatched;
    dispatched, events := DispatchPendingApproval(journal, opId, env, start, before, waiting);
    if !dispatched || !Named(approver) {
      return;
    }
    ghost var next: Option<Worker>;
    ghost var ops, trace := journal.ops, journal.opTrace;
    var answer := journal.Approve(env(ToApprove).now, opId, approver.value, task.approvalNote, None, map[]);
    events, next := CallMade(start, events, waiting.(phase := ToApprove), ops, trace, env(ToApprove));
    if answer.Err? {
      return;
    }
    approved, w := true, next.value;
  }

  // Pass the running gate.
  method EnterRunning(journal: OperationJournal, opId: string, env: Phase -> Input,
                      ghost start: System, ghost before: seq<Event>, ghost atGate: Worker)
    returns (entered: bool, ghost events: seq<Event>)
    requires journal.Valid() && opId in journal.ops && journal.ops[opId].key == atGate.task.key
    requires At(start, before, atGate, journal.ops, journal.opTrace) && atGate.phase == ToRun && atGate.opId == opId
    modifies journal`ops, journal`opTrace
    ensures journal.Valid()
    ensures if entered then At(start, events, atGate.(phase := ToSession), journal.ops, journal.opTrace)
            else Over(start, events, journal.ops, journal.opTrace, multiset{})
    ensures entered <==> old(journal.ops[opId].status) in {Approved, Running}
    ensures entered ==>
              && opId in journal.ops && journal.ops[opId].status == Running
              && journal.ops[opId].key == atGate.task.key
              && (Marked(old(journal.ops[opId]), atGate.task) ==> Marked(journal.ops[opId], atGate.task))
              && journal.ops[opId].approvedBy == old(journal.ops[opId].approvedBy)
  {
    ghost var ops, trace, next := journal.ops, journal.opTrace, None;
    var answer := journal.Transition(env(ToRun).now, opId, Running, NO_PATCH);
    TransitionAcceptedIff(ops, env(ToRun).now, opId, Running, NO_PATCH);
    events, next := CallMade(start, before, atGate, ops, trace, env(ToRun));
    return answer.Ok?, events;
  }

  lemma FinishAccepted(ops: OpTable, opId: string, now: int, summary: Summary)
    requires opId in ops && ops[opId].status == Running
    ensures var status := if summary.ok then Succeeded else Failed;
            var after := Operations.Step(ops, Transition(now, opId, status, FinishPatch(summary)));
            && opId in after && after[opId].key == ops[opId].key && Recorded(after[opId], summary)
            && after[opId].approvedBy == ops[opId].approvedBy
            && forall task :: Marked(ops[opId], task) ==> Marked(after[opId], task)
  {
  }

  // Record the result of the session.
  method FinishOperation(journal: OperationJournal, opId: string, env: Phase -> Input, summary: Summary,
                         ghost start: System, ghost before: seq<Event>, ghost w: Worker)
    returns (ghost events: seq<Event>)
    requires journal.Valid() && opId in journal.ops && journal.ops[opId].status == Running
    requires HasRun(start, before, map[0 := w], journal.ops, journal.opTrace, w.task.key)
    requires w.phase == ToFinish && w.opId == opId && w.summary == summary
    modifies journal`ops, journal`opTrace
    ensures journal.Valid() && Over(start, events, journal.ops, journal.opTrace, multiset{w.task.key})
    ensures opId in journal.ops && Recorded(journal.ops[opId], summary)
    ensures Marked(old(journal.ops[opId]), w.task) ==> Marked(journal.ops[opId], w.task)
    ensures journal.ops[opId].key == old(journal.ops[opId].key)
    ensures journal.ops[opId].approvedBy == old(journal.ops[opId].approvedBy)
  {
    ghost var ops, trace := journal.ops, journal.opTrace;
    var finished := journal.Transition(env(ToFinish).now, opId, if summary.ok then Succeeded else Failed,
                                       FinishPatch(summary));
    FinishAccepted(ops, opId, env(ToFinish).now, summary);
    events := FinishMade(start, before, w, ops, trace, env(ToFinish));
  }

  // Pass the running gate, call run_session, and record how it went.
  method RunOperation(journal: OperationJournal, opId: string, env: Phase -> Input,
                      ghost start: System, ghost before: seq<Event>, ghost atGate: Worker)
    returns (ok: bool, ran: bool, ghost events: seq<Event>)
    requires journal.Valid() && opId in journal.ops && journal.ops[opId].key == atGate.task.key
    requires At(start, before, atGate, journal.ops, journal.opTrace) && atGate.phase == ToRun && atGate.opId == opId
    modifies journal`ops, journal`opTrace
    ensures journal.Valid()
    ensures Over(start, events, journal.ops, journal.opTrace, if ran then multiset{atGate.task.key} else multiset{})
    ensures ran <==> old(journal.ops[opId].status) in {Approved, Running}
    ensures ok <==> ran && env(ToSession).result.Some? && env(ToSession).result.value.ok
    ensures ran ==>
              && opId in journal.ops && journal.ops[opId].key == atGate.task.key
              && (Marked(old(journal.ops[opId]), atGate.task) ==> Marked(journal.ops[opId], atGate.task))
              && journal.ops[opId].approvedBy == old(journal.ops[opId].approvedBy)
              && var result := env(ToSession).result;
                 if result.None? then journal.ops[opId].status == Running
                 else Recorded(journal.ops[opId], result.value)
  {
    ok := false;
    ran, events := EnterRunning(journal, opId, env, start, before, atGate);
    if !ran {
      return;
    }
    var result := env(ToSession).result;
    ghost var inSession := atGate.(phase := ToSession);
    events := SessionMade(start, events, inSession, journal.ops, journal.opTrace, env(ToSession));
    if result.None? {
      return;
    }
    ok := result.value.ok;
    events := FinishOperation(journal, opId, env, result.value, start, events,
                              inSession.(phase := ToFinish, summary := result.value));
  }

  // The approval gate: approves a pending operation when the step names somebody, and then compares the status. An
  // unknown operation raises, which is `None`.
  method ApprovalGate(journal: OperationJournal, now: int, opId: string, approver: Option<string>, note: Option<string>,
                      expected: Status)
    returns (ok: Option<bool>)
    requires journal.Valid()
    modifies journal`ops, journal`opTrace
    ensures journal.Valid()
    ensures ok.Some? <==> opId in old(journal.ops)
    ensures ok.None? ==> journal.ops == old(journal.ops)
    ensures ok.Some? ==>
              && opId in journal.ops && ok.value == (journal.ops[opId].status == expected)
              && (if old(journal.ops)[opId].status == PendingApproval && approver.Some? && !IsBlank(approver.value)
                  then journal.ops[opId].status == Approved && journal.ops[opId].approvedBy == approver
                       && journal.ops[opId].approvalNote == note
                       && journal.ops == old(journal.ops)[opId := journal.ops[opId]]
                  else journal.ops == old(journal.ops))
  {
    if opId !in journal.ops {
      return None;
    }
    if journal.ops[opId].status == PendingApproval && approver.Some? && !IsBlank(approver.value) {
      var answer := journal.Approve(now, opId, approver.value, note, None, map[]);
    }
    return Some(journal.ops[opId].status == expected);
  }

  // Runs one dispatch to its end, `env` supplying clock, id, packet writing and session result for each phase.
  // The ghost `events` show that what it does to the journal is a run of one worker of the dispatch machine, and
  // `ran` counts its call of run_session.
  method DispatchStep(journal: OperationJournal, task: Task, approver: Option<string>, env: Phase -> Input)
    returns (ok: bool, ran: bool, ghost events: seq<Event>)
    requires journal.Valid()
    modifies journal`ops, journal`opTrace
    ensures journal.Valid()
    ensures Over(Alone(old(journal.ops), old(journal.opTrace), Entering(task, approver)), events, journal.ops,
                 journal.opTrace,
                 if ran then multiset{task.key} else multiset{})
    ensures ran <==> Dispatchable(old(journal.ops), task, env(ToBegin).freshId)
                     && (task.approvalRequired ==> env(ToPacket).packetWritten && Named(approver))
    ensures ok <==> ran && env(ToSession).result.Some? && env(ToSession).result.value.ok
    ensures ran ==>
              && HasKey(journal.ops, task.key)
              && var row, result := journal.ops[IdOf(journal.ops, task.key)], env(ToSession).result;
                 && Marked(row, task) && (task.approvalRequired ==> row.approvedBy == approver)
                 && (if result.None? then row.status == Running else Recorded(row, result.value))
  {
    ghost var start := Alone(journal.ops, journal.opTrace, Entering(task, approver));
    ok, ran := false, false;
    var reached, opId;
    ghost var w;
    reached, opId, events, w := MarkOperation(journal, task, approver, env);
    if reached && task.approvalRequired {
      reached, events, w := ReviewOperation(journal, opId, task, approver, env, start, events, w);
    }
    if !reached {
      return;
    }
    ok, ran, events := RunOperation(journal, opId, env, start, events, w);
    if ran {
      AlwaysConsistent(journal.opTrace);
      KeyIs(journal.ops, opId);
    }
  }
}
