/**
 Worker dispatch: the journal calls one dispatch makes around `run_session`, as a machine in which any number of
 workers may be under way, any of them may stop between two journal calls, and anybody may call the journal in between.
 */
module Dispatch {
  import opened Wrappers
  import opened Text
  import opened Operations

  datatype Task = Task(key: OpKey, role: string, approvalRequired: bool, contract: string, approvalNote: Option<string>)

  datatype Phase = ToBegin | ToMark | ToPacket | ToApprove | ToRun | ToSession | ToFinish

  // `opId` and `pending` (the review status and artifact path the marking call returned) are filled in on the way.
  datatype Worker = Worker(
    task: Task, approver: Option<string>, phase: Phase, opId: string, pending: (Option<string>, Option<string>),
    summary: Summary)

  datatype Summary = Summary(ok: bool, message: string, returncode: Option<int>)

  // The operation table and the history of journal calls that made it, the workers under way, and per contract:
  // how often run_session was called, how often the running gate was passed, and how often it was passed by a row
  // that was already running.
  datatype System = System(
    ops: OpTable, trace: seq<OpCall>, workers: map<nat, Worker>,
    sessions: multiset<OpKey>, passes: multiset<OpKey>, repeats: multiset<OpKey>)

  const START := System(map[], [], map[], multiset{}, multiset{}, multiset{})

  // What the environment supplies to one step of a worker: clock, fresh id, whether the review packet could be
  // written, and what the session returned (None: it raised).
  datatype Input = Input(now: int, freshId: string, packetWritten: bool, result: Option<Summary>)

  datatype Event =
    | Launch(pid: nat, task: Task, approver: Option<string>)
    | Advance(pid: nat, input: Input)
    | Stop(pid: nat)
    | Outside(call: OpCall)

  function MarkPatch(task: Task): Patch {
    var patch := NO_PATCH.(policyDecision := Set(Some(if task.approvalRequired then "require_approval" else "allow")),
                           contractVersion := Set(Some(1)), contract := Set(Some(task.contract)));
    if task.approvalRequired then patch.(approvalRequired := Set(true)) else patch
  }

  function PacketPath(w: Worker): string {
    if w.pending.1.Some? && w.pending.1.value != "" then w.pending.1.value else "reviews/" + w.opId + ".json"
  }

  function FinishPatch(summary: Summary): Patch {
    NO_PATCH.(error := Set(if summary.ok then None else Some(summary.message)),
              resultOk := Set(Some(summary.ok)), resultStatusCode := Set(summary.returncode),
              resultBody := Set(Some(summary.message)))
  }

  // The journal call a worker makes next; at ToSession it makes none.
  function NextCall(w: Worker, input: Input): OpCall
    requires w.phase != ToSession
  {
    match w.phase
    case ToBegin => Begin(input.now, input.freshId, w.task.key, w.task.role)
    case ToMark =>
      Transition(input.now, w.opId, if w.task.approvalRequired then PendingApproval else Approved, MarkPatch(w.task))
    case ToPacket =>
      Transition(input.now, w.opId, PendingApproval,
                 NO_PATCH.(reviewArtifact := Set(Some(PacketPath(w))),
                           reviewStatus := Set(OrElse(w.pending.0, "pending"))))
    case ToApprove =>
      Approve(input.now, w.opId, if w.approver.Some? then w.approver.value else "", w.task.approvalNote, None, map[])
    case ToRun => Transition(input.now, w.opId, Running, NO_PATCH)
    case ToFinish =>
      Transition(input.now, w.opId, if w.summary.ok then Succeeded else Failed, FinishPatch(w.summary))
  }

  // Where a worker goes after its call was accepted (`ops` is the table the call left); None when it is done.
  ghost function NextWorker(w: Worker, opId: string, ops: OpTable): Option<Worker>
    requires opId in ops
  {
    match w.phase
    case ToBegin => Some(w.(phase := ToMark, opId := opId))
    case ToMark =>
      var seen := (ops[opId].review.status, ops[opId].review.artifact);
      Some(w.(phase := if w.task.approvalRequired then ToPacket else ToRun, pending := seen))
    case ToPacket =>
      if w.approver.Some? && !IsBlank(w.approver.value) then Some(w.(phase := ToApprove)) else None
    case ToApprove => Some(w.(phase := ToRun))
    case ToRun => Some(w.(phase := ToSession))
    case _ => None
  }

  // The table and the history after one more journal call.
  ghost function Called(sys: System, call: OpCall): System {
    sys.(ops := Operations.Step(sys.ops, call), trace := sys.trace + [call])
  }

  // The accepted call has been made and the worker is where `next` says; a worker past the gate is counted.
  ghost function Moved(sys: System, pid: nat, call: OpCall, next: Option<Worker>): System
    requires pid in sys.workers
  {
    var w := sys.workers[pid];
    var workers := if next.None? then sys.workers - {pid} else sys.workers[pid := next.value];
    var moved := Called(sys, call).(workers := workers);
    if w.phase != ToRun then moved
    else moved.(passes := sys.passes + multiset{w.task.key},
                repeats := if w.opId in sys.ops && sys.ops[w.opId].status == Running
                           then sys.repeats + multiset{w.task.key} else sys.repeats)
  }

  // A worker's step that makes a journal call; a refused call ends the worker.
  ghost function ApplyCall(sys: System, pid: nat, call: OpCall): System
    requires pid in sys.workers
  {
    if Answer(sys.ops, call).Err? then Called(sys, call).(workers := sys.workers - {pid})
    else
      AnswerInTable(sys.ops, call);
      var next := NextWorker(sys.workers[pid], Answer(sys.ops, call).value, Operations.Step(sys.ops, call));
      Moved(sys, pid, call, next)
  }

  ghost function SessionStep(sys: System, pid: nat, result: Option<Summary>): System
    requires pid in sys.workers
  {
    var w := sys.workers[pid];
    sys.(sessions := sys.sessions + multiset{w.task.key},
         workers := if result.None? then sys.workers - {pid}
                    else sys.workers[pid := w.(phase := ToFinish, summary := result.value)])
  }

  ghost function AdvanceWorker(sys: System, pid: nat, input: Input): System
    requires pid in sys.workers
  {
    var w := sys.workers[pid];
    if w.phase == ToSession then SessionStep(sys, pid, input.result)
    else if w.phase == ToPacket && !input.packetWritten then sys.(workers := sys.workers - {pid})
    else ApplyCall(sys, pid, NextCall(w, input))
  }

  // What the next call of a worker is about, whatever its phase.
  ghost predicate CallOf(w: Worker, call: OpCall) {
    && (call.Begin? <==> w.phase == ToBegin)
    && (call.Begin? ==> call.key == w.task.key)
    && (!call.Begin? ==> call.opId == w.opId)
    && (w.phase == ToApprove <==> call.Approve?)
    && (call.Approve? && w.approver.Some? ==> call.reviewer == w.approver.value)
    && !call.IngestReview?
    && (w.phase == ToRun <==> EntersRunning(call))
    && (w.phase == ToMark ==>
          call.Transition? && call.status == if w.task.approvalRequired then PendingApproval else Approved)
  }

  lemma NextCallOf(w: Worker, input: Input)
    requires w.phase != ToSession
    ensures CallOf(w, NextCall(w, input))
  {
  }

  predicate EntersRunning(call: OpCall) {
    call.Transition? && call.status == Running
  }

  lemma AnswerInTable(ops: OpTable, call: OpCall)
    requires Answer(ops, call).Ok?
    ensures Answer(ops, call).value in Operations.Step(ops, call)
    ensures !call.Begin? ==> Answer(ops, call).value == call.opId && call.opId in ops
  {
  }

  ghost function Step(sys: System, event: Event): System {
    match event
    case Launch(pid, task, approver) =>
      if pid in sys.workers then sys
      else sys.(workers := sys.workers[pid := Worker(task, approver, ToBegin, "", (None, None),
                                                     Summary(false, "", None))])
    case Advance(pid, input) => if pid in sys.workers then AdvanceWorker(sys, pid, input) else sys
    case Stop(pid) => sys.(workers := sys.workers - {pid})
    case Outside(call) => Called(sys, call)
  }

  ghost function RunFrom(sys: System, events: seq<Event>): System {
    Fold(Step, sys, events)
  }

  ghost function Run(events: seq<Event>): System {
    RunFrom(START, events)
  }

  // Dispatches run one after another: a worker is launched only when none is under way.
  ghost predicate Sequential(events: seq<Event>) {
    events == [] ||
    (Sequential(Front(events)) && (Last(events).Launch? ==> Run(Front(events)).workers == map[]))
  }

  // --- What every history keeps ---

  ghost predicate WorkerConsistent(ops: OpTable, w: Worker) {
    && (w.phase != ToBegin ==> w.opId in ops && ops[w.opId].key == w.task.key)
    && (w.phase in {ToRun, ToSession} && w.task.approvalRequired ==> ops[w.opId].approvedBy.Some?)
  }

  ghost predicate Consistent(sys: System) {
    && TableConsistent(sys.ops)
    && (forall pid :: pid in sys.workers ==> WorkerConsistent(sys.ops, sys.workers[pid]))
  }

  // One more journal call, by whoever, changes nothing a worker relies on.
  lemma CallKeepsWorker(ops: OpTable, call: OpCall, w: Worker)
    requires TableConsistent(ops) && WorkerConsistent(ops, w)
    ensures WorkerConsistent(Operations.Step(ops, call), w)
  {
    if w.phase != ToBegin {
      OperationStep(ops, call, w.opId);
    }
  }

  lemma CalledConsistent(sys: System, call: OpCall)
    requires Consistent(sys)
    ensures Consistent(Called(sys, call))
  {
    StepConsistent(sys.ops, call);
    forall pid | pid in sys.workers ensures WorkerConsistent(Called(sys, call).ops, sys.workers[pid]) {
      CallKeepsWorker(sys.ops, call, sys.workers[pid]);
    }
  }

  lemma NextWorkerConsistent(ops: OpTable, w: Worker, call: OpCall)
    requires TableConsistent(ops) && WorkerConsistent(ops, w) && w.phase != ToSession && CallOf(w, call)
    requires Answer(ops, call).Ok?
    ensures Answer(ops, call).value in Operations.Step(ops, call)
    ensures var next := NextWorker(w, Answer(ops, call).value, Operations.Step(ops, call));
            next.Some? ==> WorkerConsistent(Operations.Step(ops, call), next.value)
  {
    AnswerInTable(ops, call);
    CallKeepsWorker(ops, call, w);
    if w.phase == ToApprove {
      assert RowAfter(ops[w.opId], call).value.approvedBy.Some?;
    }
  }

  lemma ApplyCallConsistent(sys: System, pid: nat, call: OpCall)
    requires Consistent(sys) && pid in sys.workers && sys.workers[pid].phase != ToSession
    requires CallOf(sys.workers[pid], call)
    ensures Consistent(ApplyCall(sys, pid, call))
  {
    CalledConsistent(sys, call);
    assert WorkerConsistent(sys.ops, sys.workers[pid]);
    if Answer(sys.ops, call).Ok? {
      NextWorkerConsistent(sys.ops, sys.workers[pid], call);
    }
    var after := ApplyCall(sys, pid, call);
    forall q | q in after.workers ensures WorkerConsistent(after.ops, after.workers[q]) {
      if q != pid {
        assert WorkerConsistent(Called(sys, call).ops, sys.workers[q]);
      }
    }
  }

  lemma StepConsistently(sys: System, event: Event)
    requires Consistent(sys)
    ensures Consistent(Step(sys, event))
  {
    match event {
      case Outside(call) => CalledConsistent(sys, call);
      case Launch(_, _, _) =>
      case Stop(_) =>
      case Advance(pid, input) =>
        if pid in sys.workers {
          assert WorkerConsistent(sys.ops, sys.workers[pid]);
          if sys.workers[pid].phase != ToSession {
            NextCallOf(sys.workers[pid], input);
            ApplyCallConsistent(sys, pid, NextCall(sys.workers[pid], input));
          }
        }
    }
  }

  lemma {:induction false} AlwaysSound(events: seq<Event>)
    ensures Consistent(Run(events)) && Run(events).ops == After(Run(events).trace)
  {
    if events != [] {
      AlwaysSound(Front(events));
      StepConsistently(Run(Front(events)), Last(events));
      StepTraced(Run(Front(events)), Last(events));
    }
  }

  lemma StepTraced(sys: System, event: Event)
    requires sys.ops == After(sys.trace)
    ensures Step(sys, event).ops == After(Step(sys, event).trace)
  {
    if event.Outside? {
      AfterAppend(sys.trace, event.call);
    } else if event.Advance? && event.pid in sys.workers && sys.workers[event.pid].phase != ToSession {
      AfterAppend(sys.trace, NextCall(sys.workers[event.pid], event.input));
    }
  }

  // --- At most one session for one contract ---

  // Whether the contract's operation has ever got as far as running.
  ghost predicate Started(ops: OpTable, key: OpKey) {
    HasKey(ops, key) && Rank(ops[IdOf(ops, key)].status) >= 3
  }

  ghost predicate AtGate(sys: System, w: Worker) {
    && (w.phase in {ToRun, ToSession} ==> sys.sessions[w.task.key] == 0)
    && (w.phase == ToSession ==> Started(sys.ops, w.task.key))
  }

  ghost predicate SessionsStarted(sys: System) {
    forall key :: sys.sessions[key] <= 1 && (sys.sessions[key] == 1 ==> Started(sys.ops, key))
  }

  ghost predicate OnceSoFar(sys: System) {
    && Consistent(sys)
    && (forall p, q :: p in sys.workers && q in sys.workers ==> p == q)
    && SessionsStarted(sys)
    && (forall pid :: pid in sys.workers ==> AtGate(sys, sys.workers[pid]))
  }

  lemma KeyIs(ops: OpTable, id: string)
    requires TableConsistent(ops) && id in ops
    ensures HasKey(ops, ops[id].key) && IdOf(ops, ops[id].key) == id
  {
    assert HasKey(ops, ops[id].key);
  }

  lemma StartedStays(ops: OpTable, call: OpCall)
    requires TableConsistent(ops)
    ensures forall key :: Started(ops, key) ==> Started(Operations.Step(ops, call), key)
  {
    StepConsistent(ops, call);
    forall key | Started(ops, key) ensures Started(Operations.Step(ops, call), key) {
      OperationStep(ops, call, IdOf(ops, key));
      KeyIs(Operations.Step(ops, call), IdOf(ops, key));
    }
  }

  // The call that leads to the running gate is refused once the operation has started.
  lemma GateClosedOnceStarted(ops: OpTable, w: Worker, call: OpCall)
    requires TableConsistent(ops) && WorkerConsistent(ops, w) && CallOf(w, call) && Started(ops, w.task.key)
    requires w.phase == ToApprove || (w.phase == ToMark && !w.task.approvalRequired)
    ensures Answer(ops, call).Err?
  {
    KeyIs(ops, w.opId);
  }

  lemma RunningIsStarted(ops: OpTable, w: Worker, call: OpCall)
    requires TableConsistent(ops) && WorkerConsistent(ops, w) && CallOf(w, call) && w.phase == ToRun
    requires Answer(ops, call).Ok?
    ensures Started(Operations.Step(ops, call), w.task.key)
  {
    StepConsistent(ops, call);
    OperationStep(ops, call, w.opId);
    KeyIs(Operations.Step(ops, call), w.opId);
  }

  lemma MovedKeepsOthers(sys: System, pid: nat, call: OpCall, next: Option<Worker>)
    requires pid in sys.workers
    ensures var after := Moved(sys, pid, call, next);
            && after.ops == Operations.Step(sys.ops, call) && after.sessions == sys.sessions
            && (forall q :: q != pid ==> (q in sys.workers <==> q in after.workers))
            && (forall q :: q != pid && q in sys.workers ==> after.workers[q] == sys.workers[q])
  {
  }

  lemma ApplyCallKeepsOthers(sys: System, pid: nat, call: OpCall)
    requires pid in sys.workers
    ensures var after := ApplyCall(sys, pid, call);
            && after.ops == Operations.Step(sys.ops, call) && after.sessions == sys.sessions
            && (forall q :: q != pid ==> (q in sys.workers <==> q in after.workers))
            && (forall q :: q != pid && q in sys.workers ==> after.workers[q] == sys.workers[q])
  {
    if Answer(sys.ops, call).Ok? {
      AnswerInTable(sys.ops, call);
      MovedKeepsOthers(sys, pid, call,
                       NextWorker(sys.workers[pid], Answer(sys.ops, call).value, Operations.Step(sys.ops, call)));
    }
  }

  lemma ApplyCallStarts(sys: System, pid: nat, call: OpCall)
    requires OnceSoFar(sys) && pid in sys.workers
    ensures SessionsStarted(ApplyCall(sys, pid, call))
  {
    StartedStays(sys.ops, call);
    ApplyCallKeepsOthers(sys, pid, call);
  }

  // An accepted call leads to the running gate only before the operation has started, and through it only afterwards.
  lemma NextWorkerAtGate(ops: OpTable, w: Worker, call: OpCall)
    requires TableConsistent(ops) && WorkerConsistent(ops, w) && CallOf(w, call) && w.phase != ToSession
    requires Answer(ops, call).Ok?
    ensures var after := Operations.Step(ops, call); var opId := Answer(ops, call).value;
            && opId in after
            && var next := NextWorker(w, opId, after);
               next.Some? ==>
                 && next.value.task == w.task
                 && (next.value.phase == ToRun ==> !Started(ops, w.task.key))
                 && (next.value.phase == ToSession ==> w.phase == ToRun && Started(after, w.task.key))
  {
    AnswerInTable(ops, call);
    if w.phase == ToApprove || (w.phase == ToMark && !w.task.approvalRequired) {
      if Started(ops, w.task.key) {
        GateClosedOnceStarted(ops, w, call);
      }
    } else if w.phase == ToRun {
      RunningIsStarted(ops, w, call);
    }
  }

  lemma ApplyCallOnce(sys: System, pid: nat, call: OpCall)
    requires OnceSoFar(sys) && pid in sys.workers && sys.workers[pid].phase != ToSession
    requires CallOf(sys.workers[pid], call)
    ensures SessionsStarted(ApplyCall(sys, pid, call))
    ensures pid in ApplyCall(sys, pid, call).workers ==>
              AtGate(ApplyCall(sys, pid, call), ApplyCall(sys, pid, call).workers[pid])
  {
    ApplyCallStarts(sys, pid, call);
    assert WorkerConsistent(sys.ops, sys.workers[pid]) && AtGate(sys, sys.workers[pid]);
    if Answer(sys.ops, call).Ok? {
      NextWorkerAtGate(sys.ops, sys.workers[pid], call);
    }
  }

  lemma SessionStepOnce(sys: System, pid: nat, result: Option<Summary>)
    requires OnceSoFar(sys) && pid in sys.workers && sys.workers[pid].phase == ToSession
    ensures SessionsStarted(SessionStep(sys, pid, result))
  {
    assert AtGate(sys, sys.workers[pid]);
  }

  lemma AdvanceOnce(sys: System, pid: nat, input: Input)
    requires OnceSoFar(sys) && pid in sys.workers
    ensures var after := AdvanceWorker(sys, pid, input);
            && SessionsStarted(after)
            && (pid in after.workers ==> AtGate(after, after.workers[pid]))
  {
    if sys.workers[pid].phase == ToSession {
      SessionStepOnce(sys, pid, input.result);
    } else if !(sys.workers[pid].phase == ToPacket && !input.packetWritten) {
      NextCallOf(sys.workers[pid], input);
      ApplyCallOnce(sys, pid, NextCall(sys.workers[pid], input));
    }
  }

  lemma AdvanceAlone(sys: System, pid: nat, input: Input)
    requires sys.workers.Keys == {pid}
    ensures AdvanceWorker(sys, pid, input).workers.Keys <= {pid}
  {
  }

  lemma NextWorkerKeepsTask(w: Worker, opId: string, ops: OpTable)
    requires opId in ops
    ensures NextWorker(w, opId, ops).Some? ==>
              NextWorker(w, opId, ops).value.task == w.task && NextWorker(w, opId, ops).value.approver == w.approver
  {
  }

  lemma ApplyCallKeepsTask(sys: System, pid: nat, call: OpCall)
    requires pid in sys.workers
    ensures var after := ApplyCall(sys, pid, call);
            pid in after.workers ==>
              && after.workers[pid].task == sys.workers[pid].task
              && after.workers[pid].approver == sys.workers[pid].approver
  {
    if Answer(sys.ops, call).Ok? {
      AnswerInTable(sys.ops, call);
      NextWorkerKeepsTask(sys.workers[pid], Answer(sys.ops, call).value, Operations.Step(sys.ops, call));
      assert ApplyCall(sys, pid, call).workers ==
             var next := NextWorker(sys.workers[pid], Answer(sys.ops, call).value, Operations.Step(sys.ops, call));
             if next.None? then sys.workers - {pid} else sys.workers[pid := next.value];
    }
  }

  lemma AdvanceKeepsTask(sys: System, pid: nat, input: Input)
    requires pid in sys.workers
    ensures var after := AdvanceWorker(sys, pid, input);
            pid in after.workers ==>
              && after.workers[pid].task == sys.workers[pid].task
              && after.workers[pid].approver == sys.workers[pid].approver
  {
    if sys.workers[pid].phase != ToSession {
      ApplyCallKeepsTask(sys, pid, NextCall(sys.workers[pid], input));
    }
  }

  lemma StepOnce(sys: System, event: Event)
    requires OnceSoFar(sys) && (event.Launch? ==> sys.workers == map[])
    ensures OnceSoFar(Step(sys, event))
  {
    StepConsistently(sys, event);
    match event {
      case Outside(call) =>
        StartedStays(sys.ops, call);
        forall q | q in sys.workers ensures AtGate(Called(sys, call), sys.workers[q]) {
          assert AtGate(sys, sys.workers[q]);
        }
      case Advance(pid, input) =>
        if pid in sys.workers {
          AdvanceOnce(sys, pid, input);
          AdvanceAlone(sys, pid, input);
        }
      case Launch(pid, _, _) => assert Step(sys, event).workers.Keys == {pid};
      case Stop(pid) =>
        forall q | q in sys.workers && q != pid ensures AtGate(Step(sys, event), sys.workers[q]) {
          assert AtGate(sys, sys.workers[q]);
        }
    }
  }

  lemma {:induction false} OnceAlways(events: seq<Event>)
    requires Sequential(events)
    ensures OnceSoFar(Run(events))
  {
    if events != [] {
      OnceAlways(Front(events));
      StepOnce(Run(Front(events)), Last(events));
    }
  }

  lemma StepKeepsSessions(sys: System, event: Event, key: OpKey)
    ensures Step(sys, event).sessions[key] >= sys.sessions[key]
  {
    if event.Advance? && event.pid in sys.workers && sys.workers[event.pid].phase != ToSession {
      ApplyCallKeepsOthers(sys, event.pid, NextCall(sys.workers[event.pid], event.input));
    }
  }

  // No step deletes an operation, changes its key or leaves a terminal status.
  lemma StepKeepsOperation(sys: System, event: Event, id: string)
    requires TableConsistent(sys.ops) && id in sys.ops
    ensures var after := Step(sys, event).ops;
            && id in after && after[id].key == sys.ops[id].key
            && (Terminal(sys.ops[id].status) ==> after[id].status == sys.ops[id].status)
  {
    match event {
      case Outside(call) => OperationStep(sys.ops, call, id);
      case Advance(pid, input) =>
        if pid in sys.workers && sys.workers[pid].phase != ToSession {
          OperationStep(sys.ops, NextCall(sys.workers[pid], input), id);
          ApplyCallKeepsOthers(sys, pid, NextCall(sys.workers[pid], input));
        }
      case _ =>
    }
  }

  // Main result: when dispatches run one after another - each free to stop anywhere, with any journal calls by
  // others in between - run_session is called at most once per contract in the whole history.
  lemma SessionRunsAtMostOnce(events: seq<Event>, key: OpKey)
    requires Sequential(events)
    ensures Run(events).sessions[key] <= 1
  {
    OnceAlways(events);
  }

  lemma RunAppend(sys: System, events: seq<Event>, event: Event)
    ensures RunFrom(sys, events + [event]) == Step(RunFrom(sys, events), event)
  {
    FoldAppend(Step, sys, events, event);
  }

  lemma SequentialAppend(events: seq<Event>, event: Event)
    requires Sequential(events) && (event.Launch? ==> Run(events).workers == map[])
    ensures Sequential(events + [event]) && Run(events + [event]) == Step(Run(events), event)
  {
    RunAppend(START, events, event);
    assert Front(events + [event]) == events;
  }

  // --- Overlapping dispatches: exactly what goes wrong ---

  ghost function Attempt(ops: OpTable, key: OpKey): int {
    if HasKey(ops, key) then ops[IdOf(ops, key)].attempt else 0
  }

  lemma AttemptStep(ops: OpTable, call: OpCall, key: OpKey)
    requires TableConsistent(ops)
    ensures var after := Operations.Step(ops, call);
            && 0 <= Attempt(ops, key) <= Attempt(after, key) <= 1
            && (EntersRunning(call) && Answer(ops, call).Ok? && ops[call.opId].key == key ==>
                  Attempt(after, key) == 1 && Attempt(ops, key) == (if ops[call.opId].status == Running then 1 else 0))
            && (!(EntersRunning(call) && Answer(ops, call).Ok? && ops[call.opId].key == key) ==>
                  Attempt(after, key) == Attempt(ops, key))
  {
    StepConsistent(ops, call);
    var after := Operations.Step(ops, call);
    if HasKey(ops, key) {
      var id := IdOf(ops, key);
      RankStep(ops, call, id);
      OperationStep(ops, call, id);
      KeyIs(after, id);
      assert RowConsistent(ops[id]) && RowConsistent(after[id]);
    } else if HasKey(after, key) {
      var id := IdOf(after, key);
      if id in ops {
        OperationStep(ops, call, id);
        assert HasKey(ops, key);
      }
      assert after[id] == NewOperation(call);
    }
  }

  ghost function AtSession(sys: System, key: OpKey): set<nat> {
    set pid | pid in sys.workers && sys.workers[pid].phase == ToSession && sys.workers[pid].task.key == key
  }

  ghost predicate Accounted(sys: System, key: OpKey) {
    && sys.passes[key] <= Attempt(sys.ops, key) + sys.repeats[key]
    && sys.sessions[key] + |AtSession(sys, key)| <= sys.passes[key]
    && (sys.repeats[key] > 0 ==> Attempt(sys.ops, key) == 1)
  }

  ghost predicate Exact(sys: System, key: OpKey) {
    sys.passes[key] == Attempt(sys.ops, key) + sys.repeats[key]
  }

  lemma CountWithout(a: set<nat>, b: set<nat>, x: nat)
    requires a - {x} == b - {x}
    ensures |a| - (if x in a then 1 else 0) == |b| - (if x in b then 1 else 0)
  {
    assert |a - {x}| == |a| - (if x in a then 1 else 0);
    assert |b - {x}| == |b| - (if x in b then 1 else 0);
  }

  // Only worker `pid` leaves, arrives or changes.
  lemma AtSessionChange(sys: System, after: System, pid: nat, key: OpKey)
    requires forall q :: q != pid ==> (q in sys.workers <==> q in after.workers)
    requires forall q :: q != pid && q in sys.workers ==> after.workers[q] == sys.workers[q]
    ensures |AtSession(after, key)| == |AtSession(sys, key)| - (if pid in AtSession(sys, key) then 1 else 0)
                                       + (if pid in AtSession(after, key) then 1 else 0)
  {
    CountWithout(AtSession(sys, key), AtSession(after, key), pid);
  }

  // Whether worker `pid` is before its session afterwards.
  lemma ApplyCallAtSession(sys: System, pid: nat, call: OpCall, key: OpKey)
    requires pid in sys.workers && sys.workers[pid].phase != ToSession && CallOf(sys.workers[pid], call)
    ensures var w := sys.workers[pid]; var passed := w.phase == ToRun && w.task.key == key && Answer(sys.ops, call).Ok?;
            |AtSession(ApplyCall(sys, pid, call), key)| == |AtSession(sys, key)| + (if passed then 1 else 0)
  {
    if Answer(sys.ops, call).Ok? {
      AnswerInTable(sys.ops, call);
    }
    AtSessionChange(sys, ApplyCall(sys, pid, call), pid, key);
    assert pid !in AtSession(sys, key);
  }

  lemma ApplyCallAccounted(sys: System, pid: nat, call: OpCall, key: OpKey)
    requires Consistent(sys) && pid in sys.workers && sys.workers[pid].phase != ToSession
    requires CallOf(sys.workers[pid], call) && Accounted(sys, key)
    ensures Accounted(ApplyCall(sys, pid, call), key)
    ensures Exact(sys, key) ==> Exact(ApplyCall(sys, pid, call), key)
  {
    assert WorkerConsistent(sys.ops, sys.workers[pid]);
    AttemptStep(sys.ops, call, key);
    ApplyCallAtSession(sys, pid, call, key);
    if Answer(sys.ops, call).Ok? {
      AnswerInTable(sys.ops, call);
    }
  }

  lemma SessionStepAccounted(sys: System, pid: nat, result: Option<Summary>, key: OpKey)
    requires pid in sys.workers && sys.workers[pid].phase == ToSession && Accounted(sys, key)
    ensures Accounted(SessionStep(sys, pid, result), key)
  {
    AtSessionChange(sys, SessionStep(sys, pid, result), pid, key);
  }

  lemma CalledAccounted(sys: System, call: OpCall, key: OpKey)
    requires Consistent(sys) && Accounted(sys, key)
    ensures Accounted(Called(sys, call), key)
    ensures Exact(sys, key) && !EntersRunning(call) ==> Exact(Called(sys, call), key)
  {
    AttemptStep(sys.ops, call, key);
    assert AtSession(Called(sys, call), key) == AtSession(sys, key);
  }

  lemma StepAccounted(sys: System, event: Event, key: OpKey)
    requires Consistent(sys) && Accounted(sys, key)
    ensures Accounted(Step(sys, event), key)
    ensures Exact(sys, key) && !(event.Outside? && EntersRunning(event.call)) ==> Exact(Step(sys, event), key)
  {
    match event {
      case Launch(pid, _, _) => AtSessionChange(sys, Step(sys, event), pid, key);
      case Stop(pid) => AtSessionChange(sys, Step(sys, event), pid, key);
      case Outside(call) => CalledAccounted(sys, call, key);
      case Advance(pid, input) =>
        if pid in sys.workers {
          if sys.workers[pid].phase == ToSession {
            SessionStepAccounted(sys, pid, input.result, key);
          } else if sys.workers[pid].phase == ToPacket && !input.packetWritten {
            AtSessionChange(sys, Step(sys, event), pid, key);
          } else {
            NextCallOf(sys.workers[pid], input);
            ApplyCallAccounted(sys, pid, NextCall(sys.workers[pid], input), key);
          }
        }
    }
  }

  predicate OnlyWorkersRun(events: seq<Event>) {
    forall i :: 0 <= i < |events| ==> !(events[i].Outside? && EntersRunning(events[i].call))
  }

  lemma {:induction false} AlwaysAccounted(events: seq<Event>, key: OpKey)
    ensures Accounted(Run(events), key)
    ensures OnlyWorkersRun(events) ==> Exact(Run(events), key)
  {
    if events != [] {
      AlwaysAccounted(Front(events), key);
      AlwaysSound(Front(events));
      StepAccounted(Run(Front(events)), Last(events), key);
    }
  }

  // In every history, overlapping dispatches included, a contract's sessions exceed one by at most the number of
  // times the running gate was passed by an operation already running. When only workers move operations to running,
  // the gate is passed at most once exactly when no such pass was made.
  lemma SessionsBoundedByRepeats(events: seq<Event>, key: OpKey)
    ensures Run(events).sessions[key] <= 1 + Run(events).repeats[key]
    ensures OnlyWorkersRun(events) ==> (Run(events).passes[key] <= 1 <==> Run(events).repeats[key] == 0)
  {
    AlwaysAccounted(events, key);
    AlwaysSound(events);
    AttemptStep(Run(events).ops, Transition(0, "", Failed, NO_PATCH), key);
  }

  // --- Approval before the session ---

  predicate Stamps(call: OpCall) {
    call.Approve? || (call.IngestReview? && call.decision == "allow")
  }

  predicate NamesReviewer(call: OpCall) {
    Stamps(call) ==> !IsBlank(call.reviewer)
  }

  lemma {:induction false} LastStampNamed(trace: seq<OpCall>, id: string)
    requires forall call :: call in trace ==> NamesReviewer(call)
    ensures LastStamp(trace, id).Some? ==> !IsBlank(LastStamp(trace, id).value)
  {
    if trace != [] {
      assert Last(trace) in trace && forall call :: call in Front(trace) ==> call in trace;
      LastStampNamed(Front(trace), id);
    }
  }

  // A worker that is about to approve carries a name that is not blank.
  ghost predicate ApproverNamed(w: Worker) {
    w.phase == ToApprove ==> w.approver.Some? && !IsBlank(w.approver.value)
  }

  ghost predicate AllNamed(sys: System) {
    && (forall call :: call in sys.trace ==> NamesReviewer(call))
    && (forall pid :: pid in sys.workers ==> ApproverNamed(sys.workers[pid]))
  }

  lemma ApplyCallNamed(sys: System, pid: nat, call: OpCall)
    requires AllNamed(sys) && pid in sys.workers && CallOf(sys.workers[pid], call)
    ensures AllNamed(ApplyCall(sys, pid, call))
  {
    assert ApproverNamed(sys.workers[pid]);
    var after := ApplyCall(sys, pid, call);
    forall q | q in after.workers ensures ApproverNamed(after.workers[q]) {
      if q != pid {
        assert after.workers[q] == sys.workers[q];
      } else {
        AnswerInTable(sys.ops, call);
      }
    }
  }

  lemma StepNamed(sys: System, event: Event)
    requires AllNamed(sys) && (event.Outside? ==> NamesReviewer(event.call))
    ensures AllNamed(Step(sys, event))
  {
    match event {
      case Outside(call) =>
      case Launch(_, _, _) =>
      case Stop(_) =>
      case Advance(pid, input) =>
        if pid in sys.workers && sys.workers[pid].phase != ToSession {
          NextCallOf(sys.workers[pid], input);
          ApplyCallNamed(sys, pid, NextCall(sys.workers[pid], input));
        }
    }
  }

  predicate OthersNameReviewers(events: seq<Event>) {
    forall i :: 0 <= i < |events| ==> events[i].Outside? ==> NamesReviewer(events[i].call)
  }

  // Workers name their approver themselves, so only calls by others can leave a blank name.
  lemma {:induction false} TraceNamed(events: seq<Event>)
    requires OthersNameReviewers(events)
    ensures AllNamed(Run(events))
  {
    if events != [] {
      TraceNamed(Front(events));
      StepNamed(Run(Front(events)), Last(events));
    }
  }

  // When an approval-required dispatch reaches run_session, its operation is stamped, and the stamp is the reviewer of
  // the last successful approve or allow: not blank as long as nobody else's stamping call carries a blank name.
  lemma SessionIsApproved(events: seq<Event>, pid: nat)
    requires pid in Run(events).workers
    requires Run(events).workers[pid].phase == ToSession && Run(events).workers[pid].task.approvalRequired
    ensures var sys := Run(events); var w := sys.workers[pid];
            && w.opId in sys.ops && sys.ops[w.opId].key == w.task.key
            && var stamp := sys.ops[w.opId].approvedBy;
            && stamp.Some? && stamp == LastStamp(sys.trace, w.opId)
            && (OthersNameReviewers(events) ==> !IsBlank(stamp.value))
  {
    AlwaysSound(events);
    var sys := Run(events);
    assert WorkerConsistent(sys.ops, sys.workers[pid]);
    StampIsLastReviewer(sys.trace, sys.workers[pid].opId);
    if OthersNameReviewers(events) {
      TraceNamed(events);
      LastStampNamed(sys.trace, sys.workers[pid].opId);
    }
  }

  // --- Approval given outside the dispatch ---

  ghost predicate Reviewed(ops: OpTable, key: OpKey) {
    HasKey(ops, key) && Rank(ops[IdOf(ops, key)].status) >= 2
  }

  // The contract's operation is past review, and every worker on it still has its marking call to make.
  ghost predicate PastReview(sys: System, key: OpKey) {
    && Reviewed(sys.ops, key)
    && forall pid :: pid in sys.workers && sys.workers[pid].task.key == key ==>
         sys.workers[pid].task.approvalRequired && sys.workers[pid].phase in {ToBegin, ToMark}
  }

  lemma ReviewedStays(ops: OpTable, call: OpCall, key: OpKey)
    requires TableConsistent(ops) && Reviewed(ops, key)
    ensures Reviewed(Operations.Step(ops, call), key)
  {
    StepConsistent(ops, call);
    OperationStep(ops, call, IdOf(ops, key));
    KeyIs(Operations.Step(ops, call), IdOf(ops, key));
  }

  // The marking call of an approval-required dispatch is refused once the operation is past review.
  lemma MarkRefused(ops: OpTable, w: Worker, call: OpCall)
    requires TableConsistent(ops) && WorkerConsistent(ops, w) && CallOf(w, call)
    requires w.phase == ToMark && w.task.approvalRequired && Reviewed(ops, w.task.key)
    ensures Answer(ops, call).Err?
  {
    KeyIs(ops, w.opId);
  }

  lemma PastReviewCall(sys: System, pid: nat, call: OpCall, key: OpKey)
    requires Consistent(sys) && PastReview(sys, key)
    requires pid in sys.workers && sys.workers[pid].phase != ToSession && CallOf(sys.workers[pid], call)
    ensures PastReview(ApplyCall(sys, pid, call), key)
  {
    var w := sys.workers[pid];
    ReviewedStays(sys.ops, call, key);
    assert WorkerConsistent(sys.ops, w);
    if w.task.key == key && w.phase == ToMark {
      MarkRefused(sys.ops, w, call);
    }
    var after := ApplyCall(sys, pid, call);
    if Answer(sys.ops, call).Ok? {
      AnswerInTable(sys.ops, call);
    }
    forall q | q in after.workers && after.workers[q].task.key == key
      ensures after.workers[q].task.approvalRequired && after.workers[q].phase in {ToBegin, ToMark}
    {
      if q != pid {
        assert after.workers[q] == sys.workers[q];
      } else {
        assert w.task == after.workers[q].task;
      }
    }
  }

  lemma PastReviewStep(sys: System, event: Event, key: OpKey)
    requires Consistent(sys) && PastReview(sys, key)
    requires event.Launch? && event.task.key == key ==> event.task.approvalRequired
    ensures PastReview(Step(sys, event), key)
    ensures Step(sys, event).sessions[key] == sys.sessions[key]
  {
    if event.Outside? {
      ReviewedStays(sys.ops, event.call, key);
    } else if event.Advance? && event.pid in sys.workers && sys.workers[event.pid].phase != ToSession {
      NextCallOf(sys.workers[event.pid], event.input);
      PastReviewCall(sys, event.pid, NextCall(sys.workers[event.pid], event.input), key);
    }
  }

  predicate LaunchesNeedApproval(events: seq<Event>, key: OpKey) {
    forall i :: 0 <= i < |events| ==> events[i].Launch? && events[i].task.key == key ==> events[i].task.approvalRequired
  }

  // An approval given through the review calls cannot be picked up by a later dispatch: from the moment an
  // approval-required operation is past review with no worker beyond its marking call, run_session is never called
  // for the contract again.
  lemma {:induction false} ReviewedElsewhereNeverRuns(events: seq<Event>, more: seq<Event>, key: OpKey)
    requires PastReview(Run(events), key) && LaunchesNeedApproval(more, key)
    ensures Run(events + more).sessions[key] == Run(events).sessions[key]
    ensures PastReview(Run(events + more), key)
  {
    if more == [] {
      assert events + more == events;
    } else {
      ReviewedElsewhereNeverRuns(events, Front(more), key);
      assert events + more == (events + Front(more)) + [Last(more)];
      RunAppend(START, events + Front(more), Last(more));
      AlwaysSound(events + Front(more));
      PastReviewStep(Run(events + Front(more)), Last(more), key);
    }
  }

  // --- Overlapping dispatches of a contract that needs approval ---

  // The workers of a contract that are past its approval and have not called run_session.
  ghost function PastApproval(sys: System, key: OpKey): set<nat> {
    set pid | pid in sys.workers && sys.workers[pid].phase in {ToRun, ToSession} && sys.workers[pid].task.key == key
  }

  ghost predicate WorkerWaits(ops: OpTable, w: Worker) {
    && w.task.approvalRequired
    && (w.phase in {ToPacket, ToApprove} ==> w.opId in ops && ops[w.opId].approvalRequired)
  }

  // At most one worker has ever got past the approval, and then the operation is no longer pending.
  ghost predicate OneApproval(sys: System, key: OpKey) {
    && sys.sessions[key] + |PastApproval(sys, key)| <= 1
    && (sys.sessions[key] + |PastApproval(sys, key)| == 1 ==> Reviewed(sys.ops, key))
    && (forall pid :: pid in sys.workers && sys.workers[pid].task.key == key ==>
          WorkerWaits(sys.ops, sys.workers[pid]))
  }

  // The call does not take the approval requirement off an operation.
  predicate KeepsFlag(call: OpCall) {
    call.Transition? ==> call.patch.approvalRequired != Set(false)
  }

  lemma FlagStays(ops: OpTable, call: OpCall, id: string)
    requires TableConsistent(ops) && id in ops && ops[id].approvalRequired && KeepsFlag(call)
    ensures id in Operations.Step(ops, call) && Operations.Step(ops, call)[id].approvalRequired
  {
    OperationStep(ops, call, id);
  }

  lemma NextCallKeepsFlag(w: Worker, input: Input)
    requires w.phase != ToSession
    ensures KeepsFlag(NextCall(w, input))
  {
  }

  lemma PastApprovalChange(sys: System, after: System, pid: nat, key: OpKey)
    requires forall q :: q != pid ==> (q in sys.workers <==> q in after.workers)
    requires forall q :: q != pid && q in sys.workers ==> after.workers[q] == sys.workers[q]
    ensures |PastApproval(after, key)| == |PastApproval(sys, key)| - (if pid in PastApproval(sys, key) then 1 else 0)
                                          + (if pid in PastApproval(after, key) then 1 else 0)
  {
    CountWithout(PastApproval(sys, key), PastApproval(after, key), pid);
  }

  // An approval by a waiting worker finds the operation pending: nobody has got past it yet.
  lemma ApprovalIsFirst(ops: OpTable, w: Worker, call: OpCall)
    requires TableConsistent(ops) && WorkerConsistent(ops, w) && CallOf(w, call) && w.phase == ToApprove
    requires ops[w.opId].approvalRequired && Answer(ops, call).Ok?
    ensures !Reviewed(ops, w.task.key) && Reviewed(Operations.Step(ops, call), w.task.key)
  {
    StepConsistent(ops, call);
    KeyIs(ops, w.opId);
    OperationStep(ops, call, w.opId);
    KeyIs(Operations.Step(ops, call), w.opId);
  }

  // The marking call leaves the requirement on the row.
  lemma MarkSetsFlag(ops: OpTable, w: Worker, input: Input)
    requires TableConsistent(ops) && WorkerConsistent(ops, w) && w.phase == ToMark && w.task.approvalRequired
    requires Answer(ops, NextCall(w, input)).Ok?
    ensures w.opId in Operations.Step(ops, NextCall(w, input))
    ensures Operations.Step(ops, NextCall(w, input))[w.opId].approvalRequired
  {
  }

  lemma OthersWait(ops: OpTable, call: OpCall, w: Worker)
    requires TableConsistent(ops) && WorkerWaits(ops, w) && KeepsFlag(call)
    ensures WorkerWaits(Operations.Step(ops, call), w)
  {
    if w.phase in {ToPacket, ToApprove} {
      FlagStays(ops, call, w.opId);
    }
  }

  // Where an accepted call leaves the worker: still waiting, and past the approval only as the first.
  lemma NextWorkerWaits(ops: OpTable, w: Worker, input: Input)
    requires TableConsistent(ops) && WorkerConsistent(ops, w) && WorkerWaits(ops, w) && w.phase != ToSession
    requires Answer(ops, NextCall(w, input)).Ok?
    ensures var after := Operations.Step(ops, NextCall(w, input)); var opId := Answer(ops, NextCall(w, input)).value;
            && opId in after
            && var next := NextWorker(w, opId, after);
               next.Some? ==>
                 && next.value.task == w.task && WorkerWaits(after, next.value)
                 && (next.value.phase in {ToRun, ToSession} && w.phase != ToRun ==>
                       !Reviewed(ops, w.task.key) && Reviewed(after, w.task.key))
  {
    var call := NextCall(w, input);
    NextCallOf(w, input);
    NextCallKeepsFlag(w, input);
    AnswerInTable(ops, call);
    match w.phase {
      case ToMark => MarkSetsFlag(ops, w, input);
      case ToPacket => FlagStays(ops, call, w.opId);
      case ToApprove => ApprovalIsFirst(ops, w, call);
      case _ =>
    }
  }

  // The same of the whole state.
  lemma OwnCall(sys: System, pid: nat, input: Input, key: OpKey)
    requires Consistent(sys) && OneApproval(sys, key) && pid in sys.workers && sys.workers[pid].phase != ToSession
    requires sys.workers[pid].task.key == key
    ensures var after := ApplyCall(sys, pid, NextCall(sys.workers[pid], input));
            && (pid in after.workers ==>
                  after.workers[pid].task == sys.workers[pid].task && WorkerWaits(after.ops, after.workers[pid]))
            && (pid in PastApproval(after, key) && pid !in PastApproval(sys, key) ==>
                  !Reviewed(sys.ops, key) && Reviewed(after.ops, key))
  {
    var w := sys.workers[pid];
    assert WorkerConsistent(sys.ops, w) && WorkerWaits(sys.ops, w);
    if Answer(sys.ops, NextCall(w, input)).Ok? {
      NextWorkerWaits(sys.ops, w, input);
    }
  }

  lemma OtherWorkersWait(sys: System, after: System, pid: nat, call: OpCall, key: OpKey)
    requires Consistent(sys) && OneApproval(sys, key) && KeepsFlag(call) && after.ops == Operations.Step(sys.ops, call)
    requires forall q :: q != pid && q in after.workers ==> q in sys.workers && after.workers[q] == sys.workers[q]
    ensures forall q :: q != pid && q in after.workers && after.workers[q].task.key == key ==>
        WorkerWaits(after.ops, after.workers[q])
  {
    forall q | q != pid && q in after.workers && after.workers[q].task.key == key
      ensures WorkerWaits(after.ops, after.workers[q])
    {
      OthersWait(sys.ops, call, sys.workers[q]);
    }
  }

  lemma PastApprovalGrows(sys: System, after: System, pid: nat, key: OpKey)
    requires forall q :: q != pid ==> (q in sys.workers <==> q in after.workers)
    requires forall q :: q != pid && q in sys.workers ==> after.workers[q] == sys.workers[q]
    requires pid in PastApproval(after, key) && pid !in PastApproval(sys, key) ==>
               !Reviewed(sys.ops, key) && Reviewed(after.ops, key)
    ensures |PastApproval(after, key)| <= |PastApproval(sys, key)| + (if Reviewed(sys.ops, key) then 0 else 1)
    ensures |PastApproval(after, key)| > |PastApproval(sys, key)| ==> Reviewed(after.ops, key)
  {
    PastApprovalChange(sys, after, pid, key);
  }

  // How many are past the approval after the worker's call.
  lemma ApplyCallCounts(sys: System, pid: nat, input: Input, key: OpKey)
    requires Consistent(sys) && OneApproval(sys, key) && pid in sys.workers && sys.workers[pid].phase != ToSession
    ensures var after := ApplyCall(sys, pid, NextCall(sys.workers[pid], input));
            && after.sessions == sys.sessions
            && |PastApproval(after, key)| <= |PastApproval(sys, key)| + (if Reviewed(sys.ops, key) then 0 else 1)
            && (|PastApproval(after, key)| > |PastApproval(sys, key)| ==> Reviewed(after.ops, key))
  {
    var call := NextCall(sys.workers[pid], input);
    ApplyCallKeepsOthers(sys, pid, call);
    if sys.workers[pid].task.key == key {
      OwnCall(sys, pid, input, key);
    } else {
      ApplyCallKeepsTask(sys, pid, call);
    }
    PastApprovalGrows(sys, ApplyCall(sys, pid, call), pid, key);
  }

  lemma ApplyCallWaits(sys: System, pid: nat, input: Input, key: OpKey)
    requires Consistent(sys) && OneApproval(sys, key) && pid in sys.workers && sys.workers[pid].phase != ToSession
    ensures var after := ApplyCall(sys, pid, NextCall(sys.workers[pid], input));
            forall q :: q in after.workers && after.workers[q].task.key == key ==>
                WorkerWaits(after.ops, after.workers[q])
  {
    var call := NextCall(sys.workers[pid], input);
    NextCallKeepsFlag(sys.workers[pid], input);
    OtherWorkersWait(sys, ApplyCall(sys, pid, call), pid, call, key);
    if sys.workers[pid].task.key == key {
      OwnCall(sys, pid, input, key);
    } else {
      ApplyCallKeepsTask(sys, pid, call);
    }
  }

  lemma ApplyCallOneApproval(sys: System, pid: nat, input: Input, key: OpKey)
    requires Consistent(sys) && OneApproval(sys, key) && pid in sys.workers && sys.workers[pid].phase != ToSession
    ensures OneApproval(ApplyCall(sys, pid, NextCall(sys.workers[pid], input)), key)
  {
    ApplyCallCounts(sys, pid, input, key);
    ApplyCallWaits(sys, pid, input, key);
    if Reviewed(sys.ops, key) {
      ReviewedStays(sys.ops, NextCall(sys.workers[pid], input), key);
    }
  }

  lemma SessionStepOneApproval(sys: System, pid: nat, result: Option<Summary>, key: OpKey)
    requires OneApproval(sys, key) && pid in sys.workers && sys.workers[pid].phase == ToSession
    ensures OneApproval(SessionStep(sys, pid, result), key)
  {
    PastApprovalChange(sys, SessionStep(sys, pid, result), pid, key);
  }

  lemma StepOneApproval(sys: System, event: Event, key: OpKey)
    requires Consistent(sys) && OneApproval(sys, key)
    requires event.Launch? && event.task.key == key ==> event.task.approvalRequired
    requires event.Outside? ==> KeepsFlag(event.call)
    ensures OneApproval(Step(sys, event), key)
  {
    match event {
      case Launch(pid, _, _) => PastApprovalChange(sys, Step(sys, event), pid, key);
      case Stop(pid) => PastApprovalChange(sys, Step(sys, event), pid, key);
      case Outside(call) => OutsideOneApproval(sys, call, key);
      case Advance(pid, input) =>
        if pid in sys.workers {
          if sys.workers[pid].phase == ToSession {
            SessionStepOneApproval(sys, pid, input.result, key);
          } else if sys.workers[pid].phase == ToPacket && !input.packetWritten {
            PastApprovalChange(sys, Step(sys, event), pid, key);
          } else {
            ApplyCallOneApproval(sys, pid, input, key);
          }
        }
    }
  }

  lemma OutsideOneApproval(sys: System, call: OpCall, key: OpKey)
    requires Consistent(sys) && OneApproval(sys, key) && KeepsFlag(call)
    ensures OneApproval(Called(sys, call), key)
  {
    assert PastApproval(Called(sys, call), key) == PastApproval(sys, key);
    if Reviewed(sys.ops, key) {
      ReviewedStays(sys.ops, call, key);
    }
    forall pid | pid in sys.workers && sys.workers[pid].task.key == key
      ensures WorkerWaits(Called(sys, call).ops, sys.workers[pid])
    {
      OthersWait(sys.ops, call, sys.workers[pid]);
    }
  }

  predicate FlagKept(events: seq<Event>) {
    forall i :: 0 <= i < |events| && events[i].Outside? ==> KeepsFlag(events[i].call)
  }

  // Any number of overlapping dispatches of a contract that needs approval call run_session at most once, because only
  // the first approval finds the operation pending.
  lemma {:induction false} ApprovedRunsAtMostOnce(events: seq<Event>, key: OpKey)
    requires LaunchesNeedApproval(events, key) && FlagKept(events)
    ensures OneApproval(Run(events), key) && Run(events).sessions[key] <= 1
  {
    if events == [] {
      assert PastApproval(START, key) == {};
    } else {
      ApprovedRunsAtMostOnce(Front(events), key);
      AlwaysSound(Front(events));
      StepOneApproval(Run(Front(events)), Last(events), key);
    }
  }

  // --- Where the promises stop ---

  // Two workers of one contract stand before the running gate, and its operation is approved.
  ghost predicate BothAtGate(sys: System, p: nat, q: nat, key: OpKey) {
    && p != q && p in sys.workers && q in sys.workers
    && sys.workers[p].phase == sys.workers[q].phase == ToRun
    && sys.workers[p].task.key == sys.workers[q].task.key == key
    && sys.workers[p].opId == sys.workers[q].opId && sys.workers[p].opId in sys.ops
    && sys.ops[sys.workers[p].opId].status == Approved
  }

  const ENTRY := Input(0, "op", true, None)

  lemma PassGate(sys: System, pid: nat)
    requires pid in sys.workers && sys.workers[pid].phase == ToRun && sys.workers[pid].opId in sys.ops
    requires sys.ops[sys.workers[pid].opId].status in {Approved, Running}
    ensures var w := sys.workers[pid]; var after := Step(sys, Advance(pid, ENTRY));
            && after.workers == sys.workers[pid := w.(phase := ToSession)] && after.sessions == sys.sessions
            && w.opId in after.ops && after.ops[w.opId].status == Running
            && after.repeats == sys.repeats
               + (if sys.ops[w.opId].status == Running then multiset{w.task.key} else multiset{})
  {
    var w := sys.workers[pid];
    assert Answer(sys.ops, NextCall(w, ENTRY)) == Ok(w.opId);
  }

  // Both then pass it - running -> running is accepted - and both call run_session.
  lemma BothRun(sys: System, p: nat, q: nat, key: OpKey)
    requires BothAtGate(sys, p, q, key)
    ensures var after := RunFrom(sys, [Advance(p, ENTRY), Advance(q, ENTRY), Advance(p, ENTRY), Advance(q, ENTRY)]);
            after.sessions[key] == sys.sessions[key] + 2 && after.repeats[key] == sys.repeats[key] + 1
  {
    PassGate(sys, p);
    var s1 := Step(sys, Advance(p, ENTRY));
    PassGate(s1, q);
    var s2 := Step(s1, Advance(q, ENTRY));
    FourEvents(sys, Advance(p, ENTRY), Advance(q, ENTRY), Advance(p, ENTRY), Advance(q, ENTRY));
    assert Step(s2, Advance(p, ENTRY)) == SessionStep(s2, p, None);
    assert Step(SessionStep(s2, p, None), Advance(q, ENTRY)) == SessionStep(SessionStep(s2, p, None), q, None);
  }

  lemma TwoEvents(sys: System, a: Event, b: Event)
    ensures RunFrom(sys, [a, b]) == Step(Step(sys, a), b)
  {
    RunAppend(sys, [], a);
    RunAppend(sys, [a], b);
    assert [] + [a] == [a] && [a] + [b] == [a, b];
  }

  lemma FourEvents(sys: System, a: Event, b: Event, c: Event, d: Event)
    ensures RunFrom(sys, [a, b, c, d]) == Step(Step(Step(Step(sys, a), b), c), d)
  {
    FoldCompose(Step, sys, [a, b], [c, d]);
    assert [a, b] + [c, d] == [a, b, c, d];
    TwoEvents(sys, a, b);
    TwoEvents(Step(Step(sys, a), b), c, d);
  }

  // The journal is empty or holds only the row "op" of the contract, proposed or approved.
  ghost predicate AtMostOp(ops: OpTable, key: OpKey) {
    ops == map[] || (ops.Keys == {"op"} && ops["op"].key == key && ops["op"].status in {Proposed, Approved})
  }

  lemma BeginStep(sys: System, pid: nat, key: OpKey)
    requires pid in sys.workers && sys.workers[pid].phase == ToBegin && sys.workers[pid].task.key == key
    requires AtMostOp(sys.ops, key)
    ensures var after := Step(sys, Advance(pid, ENTRY));
            && after.workers == sys.workers[pid := sys.workers[pid].(phase := ToMark, opId := "op")]
            && after.sessions == sys.sessions && after.repeats == sys.repeats
            && AtMostOp(after.ops, key) && "op" in after.ops
  {
    var ops := sys.ops;
    if ops != map[] {
      assert ops["op"].key == key;
      assert HasKey(ops, key) && IdOf(ops, key) == "op";
    } else {
      assert !HasKey(ops, key);
    }
    assert Answer(ops, NextCall(sys.workers[pid], ENTRY)) == Ok("op");
  }

  lemma MarkStep(sys: System, pid: nat, key: OpKey)
    requires pid in sys.workers && sys.workers[pid].phase == ToMark && sys.workers[pid].task.key == key
    requires sys.workers[pid].opId == "op" && !sys.workers[pid].task.approvalRequired
    requires AtMostOp(sys.ops, key) && "op" in sys.ops
    ensures var after := Step(sys, Advance(pid, ENTRY));
            && pid in after.workers && after.workers == sys.workers[pid := after.workers[pid]]
            && after.workers[pid].phase == ToRun && after.workers[pid].opId == "op"
               && after.workers[pid].task.key == key
            && after.sessions == sys.sessions && after.repeats == sys.repeats
            && AtMostOp(after.ops, key) && "op" in after.ops && after.ops["op"].status == Approved
  {
    assert Answer(sys.ops, NextCall(sys.workers[pid], ENTRY)) == Ok("op");
  }

  lemma ToTheGate(sys: System, pid: nat, key: OpKey)
    requires pid in sys.workers && sys.workers[pid].phase == ToBegin && sys.workers[pid].task.key == key
    requires !sys.workers[pid].task.approvalRequired && AtMostOp(sys.ops, key)
    ensures var after := RunFrom(sys, [Advance(pid, ENTRY), Advance(pid, ENTRY)]);
            && pid in after.workers && after.workers == sys.workers[pid := after.workers[pid]]
            && after.workers[pid].phase == ToRun && after.workers[pid].opId == "op"
               && after.workers[pid].task.key == key
            && after.sessions == sys.sessions && after.repeats == sys.repeats
            && AtMostOp(after.ops, key) && "op" in after.ops && after.ops["op"].status == Approved
  {
    TwoEvents(sys, Advance(pid, ENTRY), Advance(pid, ENTRY));
    BeginStep(sys, pid, key);
    MarkStep(Step(sys, Advance(pid, ENTRY)), pid, key);
  }

  // The flag is part of the contract, so all its dispatches agree on it.
  predicate LaunchesAgree(events: seq<Event>, key: OpKey, approvalRequired: bool) {
    forall i :: 0 <= i < |events| ==> events[i].Launch? && events[i].task.key == key ==>
      events[i].task.approvalRequired == approvalRequired
  }

  function Unapproved(key: OpKey): Task {
    Task(key, "developer", false, "", None)
  }

  // Two dispatches that go hand in hand: both reach the gate, both pass it, and both call run_session.
  function Overlap(key: OpKey): seq<Event> {
    (([Launch(0, Unapproved(key), None), Launch(1, Unapproved(key), None)]
      + [Advance(0, ENTRY), Advance(0, ENTRY)]) + [Advance(1, ENTRY), Advance(1, ENTRY)])
    + [Advance(0, ENTRY), Advance(1, ENTRY), Advance(0, ENTRY), Advance(1, ENTRY)]
  }

  lemma OverlapLaunches(key: OpKey)
    ensures LaunchesAgree(Overlap(key), key, false) && FlagKept(Overlap(key))
  {
  }

  lemma LaunchBoth(key: OpKey)
    ensures var entering := Worker(Unapproved(key), None, ToBegin, "", (None, None), Summary(false, "", None));
            Run([Launch(0, Unapproved(key), None), Launch(1, Unapproved(key), None)])
            == START.(workers := map[0 := entering, 1 := entering])
  {
    TwoEvents(START, Launch(0, Unapproved(key), None), Launch(1, Unapproved(key), None));
  }

  // So in a contract without approval two overlapping dispatches can both call run_session.
  lemma OverlappingDispatchesRunTwice(key: OpKey)
    ensures Run(Overlap(key)).sessions[key] == 2 && Run(Overlap(key)).repeats[key] == 1
  {
    var launches := [Launch(0, Unapproved(key), None), Launch(1, Unapproved(key), None)];
    var p, q: seq<Event> := [Advance(0, ENTRY), Advance(0, ENTRY)], [Advance(1, ENTRY), Advance(1, ENTRY)];
    var r: seq<Event> := [Advance(0, ENTRY), Advance(1, ENTRY), Advance(0, ENTRY), Advance(1, ENTRY)];
    LaunchBoth(key);
    var s0 := Run(launches);
    ToTheGate(s0, 0, key);
    FoldCompose(Step, START, launches, p);
    var s1 := RunFrom(s0, p);
    ToTheGate(s1, 1, key);
    FoldCompose(Step, START, launches + p, q);
    var s2 := RunFrom(s1, q);
    assert BothAtGate(s2, 0, 1, key);
    BothRun(s2, 0, 1, key);
    FoldCompose(Step, START, launches + p + q, r);
  }

  // Overlapping dispatches of a contract are safe exactly when it needs approval.
  lemma OverlapSafeIff(key: OpKey, approvalRequired: bool)
    ensures approvalRequired <==>
        forall events :: LaunchesAgree(events, key, approvalRequired) && FlagKept(events) ==>
                           Run(events).sessions[key] <= 1
  {
    if approvalRequired {
      forall events | LaunchesAgree(events, key, approvalRequired) && FlagKept(events)
        ensures Run(events).sessions[key] <= 1
      {
        ApprovedRunsAtMostOnce(events, key);
      }
    } else {
      OverlappingDispatchesRunTwice(key);
      OverlapLaunches(key);
    }
  }

  // The stamp a session runs under can be blank: when an allow is ingested with a blank reviewer after the dispatch's
  // own approval, the worker passes the gate and stands before run_session with that stamp.
  lemma BlankStampAtSession(sys: System, pid: nat, now: int)
    requires pid in sys.workers && sys.workers[pid].phase == ToRun && sys.workers[pid].task.approvalRequired
    requires sys.workers[pid].opId in sys.ops && sys.ops[sys.workers[pid].opId].status == Approved
    ensures var w := sys.workers[pid];
            var restamp := Outside(IngestReview(now, w.opId, "", "allow", None, None, map[]));
            var after := RunFrom(sys, [restamp, Advance(pid, ENTRY)]);
            && pid in after.workers && after.workers[pid] == w.(phase := ToSession)
            && after.ops[w.opId].status == Running && after.ops[w.opId].approvedBy == Some("")
  {
    var w := sys.workers[pid];
    var restamp := Outside(IngestReview(now, w.opId, "", "allow", None, None, map[]));
    var stamped := Step(sys, restamp);
    assert stamped.ops[w.opId].status == Approved && stamped.ops[w.opId].approvedBy == Some("");
    PassGate(stamped, pid);
    TwoEvents(sys, restamp, Advance(pid, ENTRY));
    assert Operations.Step(stamped.ops, NextCall(w, ENTRY))[w.opId].approvedBy == Some("");
  }

  function Approving(key: OpKey): Task {
    Task(key, "developer", true, "", None)
  }

  const RESTAMP := [Outside(IngestReview(0, "op", "", "allow", None, None, map[])), Advance(0, ENTRY)]

  // A dispatch is approved by its named approver, and then an allow with a blank reviewer is ingested.
  function BlankStamp(key: OpKey): seq<Event> {
    [Launch(0, Approving(key), Some("operator"))]
    + [Advance(0, ENTRY), Advance(0, ENTRY), Advance(0, ENTRY), Advance(0, ENTRY)]
    + RESTAMP
  }

  // The only worker, an approved one, stands before a phase with its operation in a status.
  ghost predicate Approver(sys: System, key: OpKey, phase: Phase, status: Status) {
    && 0 in sys.workers && sys.workers[0].task == Approving(key) && sys.workers[0].approver == Some("operator")
    && sys.workers[0].phase == phase && sys.workers[0].opId == "op"
    && "op" in sys.ops && sys.ops["op"].status == status
  }

  lemma ApproverMarks(sys: System, key: OpKey)
    requires Approver(sys, key, ToMark, Proposed)
    ensures Approver(Step(sys, Advance(0, ENTRY)), key, ToPacket, PendingApproval)
  {
    assert Answer(sys.ops, NextCall(sys.workers[0], ENTRY)) == Ok("op");
  }

  lemma ApproverWrites(sys: System, key: OpKey)
    requires Approver(sys, key, ToPacket, PendingApproval)
    ensures Approver(Step(sys, Advance(0, ENTRY)), key, ToApprove, PendingApproval)
  {
    assert !IsSpace("operator"[0]);
    assert Answer(sys.ops, NextCall(sys.workers[0], ENTRY)) == Ok("op");
  }

  lemma ApproverStamps(sys: System, key: OpKey)
    requires Approver(sys, key, ToApprove, PendingApproval)
    ensures Approver(Step(sys, Advance(0, ENTRY)), key, ToRun, Approved)
  {
    assert Answer(sys.ops, NextCall(sys.workers[0], ENTRY)) == Ok("op");
  }

  lemma ApproverBegins(key: OpKey)
    ensures Approver(Step(Run([Launch(0, Approving(key), Some("operator"))]), Advance(0, ENTRY)), key, ToMark, Proposed)
  {
    var launch := Launch(0, Approving(key), Some("operator"));
    RunAppend(START, [], launch);
    assert [] + [launch] == [launch];
    BeginStep(Run([launch]), 0, key);
  }

  lemma ApprovedAtTheGate(key: OpKey)
    ensures var a := Advance(0, ENTRY);
            Approver(RunFrom(Run([Launch(0, Approving(key), Some("operator"))]), [a, a, a, a]), key, ToRun, Approved)
  {
    var a, sys := Advance(0, ENTRY), Run([Launch(0, Approving(key), Some("operator"))]);
    FourEvents(sys, a, a, a, a);
    ApproverBegins(key);
    ApproverMarks(Step(sys, a), key);
    ApproverWrites(Step(Step(sys, a), a), key);
    ApproverStamps(Step(Step(Step(sys, a), a), a), key);
  }

  ghost predicate UnderBlankStamp(sys: System, key: OpKey) {
    && 0 in sys.workers && sys.workers[0].phase == ToSession && sys.workers[0].opId == "op"
    && sys.workers[0].task == Approving(key)
    && "op" in sys.ops && sys.ops["op"].status == Running && sys.ops["op"].approvedBy == Some("")
  }

  lemma Restamps(sys: System, key: OpKey)
    requires Approver(sys, key, ToRun, Approved)
    ensures UnderBlankStamp(RunFrom(sys, RESTAMP), key)
  {
    BlankStampAtSession(sys, 0, 0);
  }

  // So a history from the empty journal leads an approval-required worker to run_session under a blank stamp.
  lemma BlankStampReached(key: OpKey)
    ensures UnderBlankStamp(Run(BlankStamp(key)), key)
  {
    var launch := [Launch(0, Approving(key), Some("operator"))];
    var approve := [Advance(0, ENTRY), Advance(0, ENTRY), Advance(0, ENTRY), Advance(0, ENTRY)];
    ApprovedAtTheGate(key);
    FoldCompose(Step, START, launch, approve);
    Restamps(RunFrom(Run(launch), approve), key);
    FoldCompose(Step, START, launch + approve, RESTAMP);
  }
}
