/**
 The operation table of the journal: a status machine with approval, delegation and external review,
 an attempt counter and an idempotency key. Every call is one transaction that rolls back when refused.
 */
module Operations {
  import opened Wrappers

  datatype Status = Proposed | PendingApproval | Approved | Running | Succeeded | Failed | Cancelled | Rejected

  function AllowedTransitions(status: Status): set<Status> {
    match status
    case Proposed => {Failed, PendingApproval, Approved, Cancelled, Rejected}
    case PendingApproval => {Approved, Failed, Cancelled, Rejected}
    case Approved => {Running, Failed, Cancelled}
    case Running => {Succeeded, Failed, Cancelled}
    case _ => {}
  }

  predicate ValidTransition(current: Status, next: Status) {
    current == next || next in AllowedTransitions(current)
  }

  // What the idempotency hash is taken of; the hash is assumed injective, so this is the key itself.
  datatype OpKey = OpKey(scope: string, kind: string, target: string, inputs: string)

  // An empty payload is stored as NULL.
  datatype Review = Review(
    mode: Option<string>, target: Option<string>, status: Option<string>, reviewer: Option<string>, at: Option<int>,
    note: Option<string>, artifact: Option<string>, payload: map<string, string>)

  datatype RequestColumns = RequestColumns(
    errorType: Option<string>, errorRetryable: Option<bool>, verb: Option<string>, url: Option<string>,
    attempts: Option<int>, id: Option<string>, retryAfter: Option<real>)

  datatype ResultColumns = ResultColumns(
    ok: Option<bool>, statusCode: Option<int>, bodyExcerpt: Option<string>, request: RequestColumns)

  const NO_RESULT := ResultColumns(None, None, None, RequestColumns(None, None, None, None, None, None, None))

  datatype Operation = Operation(
    key: OpKey, trustZone: string, createdAt: int, updatedAt: int, status: Status, attempt: int,
    lastError: Option<string>, policyDecision: Option<string>, policyDecisionJson: Option<string>,
    contractVersion: Option<int>, contract: Option<string>,
    approvalRequired: bool, approvedBy: Option<string>, approvedAt: Option<int>, approvalNote: Option<string>,
    review: Review, result: ResultColumns)

  type OpTable = map<string, Operation>

  datatype OpError =
    | DuplicateOpId | UnknownOperation | InvalidTransition | ApprovalNotPending | DelegateNotPending | InvalidDecision

  // An argument of `transition` that may be left out.
  datatype Update<T> = Keep | Set(value: T)

  function Patched<T>(update: Update<T>, prior: T): T {
    if update.Keep? then prior else update.value
  }

  datatype RequestPatch = RequestPatch(
    errorType: Update<Option<string>>, errorRetryable: Update<Option<bool>>, verb: Update<Option<string>>,
    url: Update<Option<string>>, attempts: Update<Option<int>>, id: Update<Option<string>>,
    retryAfter: Update<Option<real>>)

  datatype Patch = Patch(
    error: Update<Option<string>>, policyDecision: Update<Option<string>>, policyDecisionJson: Update<Option<string>>,
    contractVersion: Update<Option<int>>, contract: Update<Option<string>>, approvalRequired: Update<bool>,
    reviewMode: Update<Option<string>>, reviewTarget: Update<Option<string>>, reviewStatus: Update<Option<string>>,
    reviewedBy: Update<Option<string>>, reviewedAt: Update<Option<int>>, reviewNote: Update<Option<string>>,
    reviewArtifact: Update<Option<string>>, reviewPayload: Update<map<string, string>>,
    resultOk: Update<Option<bool>>, resultStatusCode: Update<Option<int>>, resultBody: Update<Option<string>>,
    request: RequestPatch)

  const NO_PATCH :=
    Patch(Keep, Keep, Keep, Keep, Keep, Keep, Keep, Keep, Keep, Keep, Keep, Keep, Keep, Keep, Keep, Keep, Keep,
          RequestPatch(Keep, Keep, Keep, Keep, Keep, Keep, Keep))

  datatype OpCall =
    | Begin(now: int, opId: string, key: OpKey, trustZone: string)
    | Transition(now: int, opId: string, status: Status, patch: Patch)
    | Approve(now: int, opId: string, reviewer: string, note: Option<string>, artifact: Option<string>,
              payload: map<string, string>)
    | Reject(now: int, opId: string, reviewer: string, note: Option<string>, artifact: Option<string>,
             payload: map<string, string>)
    | Delegate(now: int, opId: string, reviewer: string, delegateTo: string, note: Option<string>,
               artifact: Option<string>, payload: map<string, string>)
    | IngestReview(now: int, opId: string, reviewer: string, decision: string, note: Option<string>,
                   artifact: Option<string>, payload: map<string, string>)

  // Python's `value or fallback` on an optional text.
  function OrElse(value: Option<string>, fallback: string): Option<string> {
    if value.Some? && value.value != "" then value else Some(fallback)
  }

  function NewOperation(call: OpCall): Operation
    requires call.Begin?
  {
    Operation(call.key, call.trustZone, call.now, call.now, Proposed, 0, None, None, None, None, None,
              false, None, None, None,
              Review(None, None, None, None, None, None, None, map[]), NO_RESULT)
  }

  function PatchedRequest(patch: RequestPatch, prior: RequestColumns): RequestColumns {
    RequestColumns(
      Patched(patch.errorType, prior.errorType), Patched(patch.errorRetryable, prior.errorRetryable),
      Patched(patch.verb, prior.verb), Patched(patch.url, prior.url), Patched(patch.attempts, prior.attempts),
      Patched(patch.id, prior.id), Patched(patch.retryAfter, prior.retryAfter))
  }

  function TransitionRow(row: Operation, now: int, status: Status, patch: Patch): Operation {
    row.(updatedAt := now, status := status,
         attempt := row.attempt + (if status == Running && row.status != Running then 1 else 0),
         lastError := Patched(patch.error, row.lastError),
         policyDecision := Patched(patch.policyDecision, row.policyDecision),
         policyDecisionJson := Patched(patch.policyDecisionJson, row.policyDecisionJson),
         contractVersion := Patched(patch.contractVersion, row.contractVersion),
         contract := Patched(patch.contract, row.contract),
         approvalRequired := Patched(patch.approvalRequired, row.approvalRequired),
         review := Review(
           Patched(patch.reviewMode, row.review.mode), Patched(patch.reviewTarget, row.review.target),
           Patched(patch.reviewStatus, row.review.status), Patched(patch.reviewedBy, row.review.reviewer),
           Patched(patch.reviewedAt, row.review.at), Patched(patch.reviewNote, row.review.note),
           Patched(patch.reviewArtifact, row.review.artifact), Patched(patch.reviewPayload, row.review.payload)),
         result := ResultColumns(
           Patched(patch.resultOk, row.result.ok), Patched(patch.resultStatusCode, row.result.statusCode),
           Patched(patch.resultBody, row.result.bodyExcerpt),
           PatchedRequest(patch.request, row.result.request)))
  }

  // The review columns that approve, reject and ingest_review write.
  function Reviewed(row: Operation, call: OpCall, status: string, extra: map<string, string>): Review
    requires call.Approve? || call.Reject? || call.IngestReview?
  {
    Review(OrElse(row.review.mode, "manual"), row.review.target, Some(status), Some(call.reviewer), Some(call.now),
           call.note, call.artifact, row.review.payload + call.payload + extra)
  }

  // The row one call other than begin writes over `row`, or why it is refused.
  function RowAfter(row: Operation, call: OpCall): Result<Operation, OpError>
    requires !call.Begin?
  {
    match call
    case Transition(now, _, status, patch) =>
      if !ValidTransition(row.status, status) then Err(InvalidTransition)
      else Ok(TransitionRow(row, now, status, patch))
    case Approve(now, _, reviewer, note, _, _) =>
      if row.approvalRequired && row.status != PendingApproval then Err(ApprovalNotPending)
      else if !ValidTransition(row.status, Approved) then Err(InvalidTransition)
      else Ok(row.(updatedAt := now, status := Approved, approvedBy := Some(reviewer), approvedAt := Some(now),
                   approvalNote := note, lastError := None, review := Reviewed(row, call, "approved", map[])))
    case Reject(now, _, reviewer, note, _, _) =>
      if !ValidTransition(row.status, Rejected) then Err(InvalidTransition)
      else Ok(row.(updatedAt := now, status := Rejected, lastError := OrElse(note, "review rejected"),
                   review := Reviewed(row, call, "rejected", map[])))
    case Delegate(now, _, reviewer, delegateTo, note, artifact, payload) =>
      if row.status != PendingApproval then Err(DelegateNotPending)
      else Ok(row.(updatedAt := now,
                   review := Review(OrElse(row.review.mode, "delegate_recommend"), Some(delegateTo), Some("delegated"),
                                    Some(reviewer), Some(now), note, artifact,
                                    row.review.payload + payload + map["delegate_to" := delegateTo])))
    case IngestReview(now, _, reviewer, decision, note, _, _) =>
      var allow := decision == "allow";
      var target := if allow then Approved else Rejected;
      if decision != "allow" && decision != "deny" then Err(InvalidDecision)
      else if !ValidTransition(row.status, target) then Err(InvalidTransition)
      else Ok(row.(updatedAt := now, status := target,
                   lastError := if allow then None else OrElse(note, "review rejected"),
                   approvedBy := if allow then Some(reviewer) else None,
                   approvedAt := if allow then Some(now) else None,
                   approvalNote := if allow then note else row.approvalNote,
                   review := Reviewed(row, call, if allow then "approved" else "rejected",
                                      map["review_decision" := decision])))
  }

  ghost predicate HasKey(ops: OpTable, key: OpKey) {
    exists id :: id in ops && ops[id].key == key
  }

  ghost function IdOf(ops: OpTable, key: OpKey): (id: string)
    requires HasKey(ops, key)
    ensures id in ops && ops[id].key == key
  {
    var id :| id in ops && ops[id].key == key; id
  }

  // What a call answers: the id of the operation it concerns, or why it is refused.
  ghost function Answer(ops: OpTable, call: OpCall): Result<string, OpError> {
    if call.Begin? then
      if HasKey(ops, call.key) then Ok(IdOf(ops, call.key))
      else if call.opId in ops then Err(DuplicateOpId) else Ok(call.opId)
    else if call.opId !in ops then
      if call.IngestReview? && call.decision != "allow" && call.decision != "deny" then Err(InvalidDecision)
      else Err(UnknownOperation)
    else
      var row := RowAfter(ops[call.opId], call);
      if row.Err? then Err(row.error) else Ok(call.opId)
  }

  ghost function Step(ops: OpTable, call: OpCall): OpTable {
    if Answer(ops, call).Err? then ops
    else if call.Begin? then
      if HasKey(ops, call.key) then ops else ops[call.opId := NewOperation(call)]
    else ops[call.opId := RowAfter(ops[call.opId], call).value]
  }

  ghost function After(trace: seq<OpCall>): OpTable {
    if trace == [] then map[] else Step(After(Front(trace)), Last(trace))
  }

  // --- What every call keeps ---

  function Rank(status: Status): nat {
    match status
    case Proposed => 0
    case PendingApproval => 1
    case Approved => 2
    case Running => 3
    case _ => 4
  }

  predicate Terminal(status: Status) {
    AllowedTransitions(status) == {}
  }

  predicate StampAllowed(status: Status) {
    status in {Approved, Running, Succeeded, Failed, Cancelled}
  }

  ghost predicate RowConsistent(row: Operation) {
    && (row.approvedBy.Some? <==> row.approvedAt.Some?)
    && (row.approvedBy.Some? ==> StampAllowed(row.status))
    && (row.status in {Running, Succeeded} ==> row.attempt == 1)
    && (row.status in {Proposed, PendingApproval, Approved, Rejected} ==> row.attempt == 0)
    && row.attempt in {0, 1}
  }

  ghost predicate KeysUnique(ops: OpTable) {
    forall a, b :: a in ops && b in ops && a != b ==> ops[a].key != ops[b].key
  }

  ghost predicate TableConsistent(ops: OpTable) {
    KeysUnique(ops) && forall id :: id in ops ==> RowConsistent(ops[id])
  }

  lemma RowAfterConsistent(row: Operation, call: OpCall)
    requires !call.Begin? && RowConsistent(row) && RowAfter(row, call).Ok?
    ensures RowConsistent(RowAfter(row, call).value)
    ensures RowAfter(row, call).value.key == row.key
    ensures ValidTransition(row.status, RowAfter(row, call).value.status)
    ensures row.approvedBy.Some? ==> RowAfter(row, call).value.approvedBy.Some?
  {
  }

  // --- Which calls are accepted, by the status they meet ---

  // The statuses from which an operation can be given this one.
  function ComesFrom(status: Status): set<Status> {
    match status
    case Proposed => {Proposed}
    case PendingApproval => {Proposed, PendingApproval}
    case Approved => {Proposed, PendingApproval, Approved}
    case Running => {Approved, Running}
    case Succeeded => {Running, Succeeded}
    case Failed => {Proposed, PendingApproval, Approved, Running, Failed}
    case Cancelled => {Proposed, PendingApproval, Approved, Running, Cancelled}
    case Rejected => {Proposed, PendingApproval, Rejected}
  }

  // Begin answers the row that has the key, or inserts one that holds nothing but what it was called with.
  lemma BeginLeaves(ops: OpTable, call: OpCall)
    requires call.Begin?
    ensures Answer(ops, call).Ok? <==> HasKey(ops, call.key) || call.opId !in ops
    ensures HasKey(ops, call.key) ==> Step(ops, call) == ops
    ensures Answer(ops, call).Ok? && !HasKey(ops, call.key) ==>
              && Step(ops, call) == ops[call.opId := Step(ops, call)[call.opId]]
              && var row := Step(ops, call)[call.opId];
              && row.key == call.key && row.trustZone == call.trustZone && row.status == Proposed && row.attempt == 0
              && row.createdAt == row.updatedAt == call.now && !row.approvalRequired
              && PatchOf(row) == PatchOf(row).(
                   error := Set(None), policyDecision := Set(None), policyDecisionJson := Set(None),
                   contractVersion := Set(None), contract := Set(None), reviewMode := Set(None),
                   reviewTarget := Set(None), reviewStatus := Set(None), reviewedBy := Set(None),
                   reviewedAt := Set(None), reviewNote := Set(None), reviewArtifact := Set(None),
                   reviewPayload := Set(map[]), resultOk := Set(None), resultStatusCode := Set(None),
                   resultBody := Set(None),
                   request := RequestPatch(Set(None), Set(None), Set(None), Set(None), Set(None), Set(None), Set(None)))
              && row.approvedBy.None? && row.approvedAt.None? && row.approvalNote.None?
  {
  }

  lemma TransitionAcceptedIff(ops: OpTable, now: int, id: string, status: Status, patch: Patch)
    ensures var call := Transition(now, id, status, patch);
            && (Answer(ops, call).Ok? <==> id in ops && ops[id].status in ComesFrom(status))
            && (Answer(ops, call).Ok? ==> id in Step(ops, call) && Step(ops, call)[id].status == status
                                          && Step(ops, call)[id].key == ops[id].key)
  {
  }

  lemma ApprovalAcceptedIff(ops: OpTable, call: OpCall)
    requires call.Approve? || (call.IngestReview? && call.decision == "allow")
    ensures Answer(ops, call).Ok? <==>
              && call.opId in ops
              && (ops[call.opId].status == PendingApproval
                  || (ops[call.opId].status in {Proposed, Approved}
                      && !(call.Approve? && ops[call.opId].approvalRequired)))
    ensures Answer(ops, call).Ok? ==> call.opId in Step(ops, call) && Step(ops, call)[call.opId].status == Approved
  {
  }

  lemma RejectionAcceptedIff(ops: OpTable, call: OpCall)
    requires call.Reject? || (call.IngestReview? && call.decision != "allow")
    ensures Answer(ops, call).Ok? <==>
              && call.opId in ops && ops[call.opId].status in {Proposed, PendingApproval, Rejected}
              && (call.IngestReview? ==> call.decision == "deny")
    ensures Answer(ops, call).Ok? ==> call.opId in Step(ops, call) && Step(ops, call)[call.opId].status == Rejected
  {
    assert "deny"[0] != "allow"[0];
  }

  lemma DelegationAcceptedIff(ops: OpTable, call: OpCall)
    requires call.Delegate?
    ensures Answer(ops, call).Ok? <==> call.opId in ops && ops[call.opId].status == PendingApproval
    ensures Answer(ops, call).Ok? ==>
              call.opId in Step(ops, call) && Step(ops, call)[call.opId].status == PendingApproval
  {
  }

  // What every accepted review call leaves in the review columns: who, when and with which note, artifact and payload;
  // a mode that is there stays.
  lemma ReviewRecorded(ops: OpTable, call: OpCall)
    requires !call.Begin? && !call.Transition? && Answer(ops, call).Ok?
    ensures var prior, row := ops[call.opId], Step(ops, call)[call.opId]; var review := row.review;
            && review.reviewer == Some(call.reviewer) && review.at == Some(call.now) && row.updatedAt == call.now
            && review.note == call.note && review.artifact == call.artifact
            && review.status == Some(match row.status case Approved => "approved" case Rejected => "rejected"
                                                      case _ => "delegated")
            && review.target == (if call.Delegate? then Some(call.delegateTo) else prior.review.target)
            && review.mode == (if prior.review.mode.Some? && prior.review.mode.value != "" then prior.review.mode
                               else Some(if call.Delegate? then "delegate_recommend" else "manual"))
    ensures var prior, row := ops[call.opId], Step(ops, call)[call.opId];
            forall key :: key in row.review.payload ==>
              row.review.payload[key] ==
              if call.Delegate? && key == "delegate_to" then call.delegateTo
              else if call.IngestReview? && key == "review_decision" then call.decision
              else if key in call.payload then call.payload[key]
              else if key in prior.review.payload then prior.review.payload[key] else ""
    ensures var prior, row := ops[call.opId], Step(ops, call)[call.opId];
            prior.review.payload.Keys + call.payload.Keys <= row.review.payload.Keys
    ensures var prior, row := ops[call.opId], Step(ops, call)[call.opId];
            && row.approvalNote == (if row.status == Approved then call.note else prior.approvalNote)
            && row.lastError == match row.status
                                case Approved => None
                                case Rejected =>
                                  if call.note.Some? && call.note.value != "" then call.note
                                  else Some("review rejected")
                                case _ => prior.lastError
  {
  }

  // The arguments that would write every column a transition can write as it stands in the row.
  function PatchOf(row: Operation): Patch {
    var review, result, request := row.review, row.result, row.result.request;
    Patch(
      Set(row.lastError), Set(row.policyDecision), Set(row.policyDecisionJson), Set(row.contractVersion),
      Set(row.contract), Set(row.approvalRequired), Set(review.mode), Set(review.target), Set(review.status),
      Set(review.reviewer), Set(review.at), Set(review.note), Set(review.artifact), Set(review.payload),
      Set(result.ok), Set(result.statusCode), Set(result.bodyExcerpt),
      RequestPatch(Set(request.errorType), Set(request.errorRetryable), Set(request.verb), Set(request.url),
                   Set(request.attempts), Set(request.id), Set(request.retryAfter)))
  }

  // The columns of both rows that transition never writes are those of the first, all others those of the second.
  function Mixed(first: Operation, second: Operation): Operation {
    second.(key := first.key, trustZone := first.trustZone, createdAt := first.createdAt, attempt := first.attempt,
            approvedBy := first.approvedBy, approvedAt := first.approvedAt, approvalNote := first.approvalNote)
  }

  // A transition writes what it is given and keeps what it is not given: one row's columns are read back from another,
  // and without arguments only the status, the clock and the attempt counter change.
  lemma TransitionReadsBack(row: Operation, other: Operation)
    ensures other.status == Running && row.status != Running ==>
              TransitionRow(row, other.updatedAt, other.status, PatchOf(other))
              == Mixed(row, other).(attempt := row.attempt + 1)
    ensures other.status != Running || row.status == Running ==>
              TransitionRow(row, other.updatedAt, other.status, PatchOf(other)) == Mixed(row, other)
    ensures var kept := TransitionRow(row, other.updatedAt, other.status, NO_PATCH);
            kept == row.(updatedAt := other.updatedAt, status := other.status, attempt := kept.attempt)
  {
  }

  lemma StepConsistent(ops: OpTable, call: OpCall)
    requires TableConsistent(ops)
    ensures TableConsistent(Step(ops, call))
  {
    if !call.Begin? && Answer(ops, call).Ok? {
      RowAfterConsistent(ops[call.opId], call);
    }
  }

  lemma {:induction false} AlwaysConsistent(trace: seq<OpCall>)
    ensures TableConsistent(After(trace))
  {
    if trace != [] {
      AlwaysConsistent(Front(trace));
      StepConsistent(After(Front(trace)), Last(trace));
    }
  }

  // An operation is never deleted; its status stays put or follows an allowed edge, and a stamp is never cleared.
  lemma OperationStep(ops: OpTable, call: OpCall, id: string)
    requires TableConsistent(ops) && id in ops
    ensures id in Step(ops, call)
    ensures var before := ops[id]; var after := Step(ops, call)[id];
            && after.key == before.key
            && ValidTransition(before.status, after.status)
            && (Terminal(before.status) ==> after.status == before.status)
            && (before.approvedBy.Some? ==> after.approvedBy.Some?)
            && (after.approvedBy.Some? <==> after.approvedAt.Some?)
            && (after.approvedBy.Some? ==> StampAllowed(after.status))
            && (call.Begin? || call.opId != id ==> after == before)
  {
    if !call.Begin? && Answer(ops, call).Ok? {
      RowAfterConsistent(ops[call.opId], call);
    } else if call.Begin? && Answer(ops, call).Ok? && !HasKey(ops, call.key) {
      assert call.opId != id;
    }
  }

  lemma AfterAppend(trace: seq<OpCall>, call: OpCall)
    ensures After(trace + [call]) == Step(After(trace), call)
  {
    assert Front(trace + [call]) == trace;
  }

  // --- Main results over whole histories ---

  // What holds of an operation at some moment still holds at every later one.
  lemma {:induction false} OperationPersists(trace: seq<OpCall>, more: seq<OpCall>, id: string)
    requires id in After(trace)
    ensures id in After(trace + more)
    ensures var before := After(trace)[id]; var later := After(trace + more)[id];
            && later.key == before.key
            && Rank(before.status) <= Rank(later.status)
            && (Terminal(before.status) ==> later.status == before.status)
            && (before.approvedBy.Some? ==> later.approvedBy.Some?)
  {
    if more == [] {
      assert trace + more == trace;
    } else {
      OperationPersists(trace, Front(more), id);
      assert trace + more == (trace + Front(more)) + [Last(more)];
      AfterAppend(trace + Front(more), Last(more));
      AlwaysConsistent(trace + Front(more));
      OperationStep(After(trace + Front(more)), Last(more), id);
    }
  }

  // Deduplication: once a key has a row, begin answers that row in every later state and writes nothing.
  lemma BeginIsIdempotent(trace: seq<OpCall>, more: seq<OpCall>, begin: OpCall)
    requires begin.Begin? && HasKey(After(trace), begin.key)
    ensures Answer(After(trace + more), begin) == Ok(IdOf(After(trace), begin.key))
    ensures Step(After(trace + more), begin) == After(trace + more)
  {
    var id := IdOf(After(trace), begin.key);
    OperationPersists(trace, more, id);
    AlwaysConsistent(trace + more);
  }

  ghost function StatusChanges(trace: seq<OpCall>, id: string): nat {
    if trace == [] then 0
    else
      var before := After(Front(trace));
      StatusChanges(Front(trace), id) +
      (if id in before && id in After(trace) && before[id].status != After(trace)[id].status then 1 else 0)
  }

  ghost predicate EverRan(trace: seq<OpCall>, id: string) {
    trace != [] && ((id in After(trace) && After(trace)[id].status == Running) || EverRan(Front(trace), id))
  }

  lemma {:induction false} NothingBeforeBegin(trace: seq<OpCall>, id: string)
    requires id !in After(trace)
    ensures StatusChanges(trace, id) == 0 && !EverRan(trace, id) && LastStamp(trace, id).None?
  {
    if trace != [] {
      var init := Front(trace);
      if id in After(init) {
        AlwaysConsistent(init);
        OperationStep(After(init), Last(trace), id);
      }
      NothingBeforeBegin(init, id);
    }
  }

  lemma RankStep(ops: OpTable, call: OpCall, id: string)
    requires TableConsistent(ops) && id in ops
    ensures id in Step(ops, call)
    ensures Step(ops, call)[id].status == ops[id].status || Rank(ops[id].status) < Rank(Step(ops, call)[id].status)
    ensures ops[id].attempt <= Step(ops, call)[id].attempt
    ensures ops[id].attempt < Step(ops, call)[id].attempt ==> Step(ops, call)[id].status == Running
  {
    OperationStep(ops, call, id);
    if !call.Begin? && Answer(ops, call).Ok? && call.opId == id {
      assert Step(ops, call)[id] == RowAfter(ops[id], call).value;
    }
  }

  // At most four status changes over any history, and the attempt counter says whether it ever ran.
  lemma {:induction false} StatusHistory(trace: seq<OpCall>, id: string)
    requires id in After(trace)
    ensures StatusChanges(trace, id) <= Rank(After(trace)[id].status) <= 4
    ensures After(trace)[id].attempt == if EverRan(trace, id) then 1 else 0
  {
    var init, call := Front(trace), Last(trace);
    AlwaysConsistent(init);
    AlwaysConsistent(trace);
    assert RowConsistent(After(trace)[id]);
    if id in After(init) {
      StatusHistory(init, id);
      RankStep(After(init), call, id);
    } else {
      NothingBeforeBegin(init, id);
      assert After(trace)[id] == NewOperation(call);
    }
  }

  // The reviewer named by the last successful approve or allow on the operation.
  ghost function LastStamp(trace: seq<OpCall>, id: string): Option<string> {
    if trace == [] then None
    else
      var call := Last(trace);
      if (call.Approve? || (call.IngestReview? && call.decision == "allow")) && call.opId == id
         && Answer(After(Front(trace)), call).Ok?
      then Some(call.reviewer) else LastStamp(Front(trace), id)
  }

  // The stamp is exactly that reviewer: nothing else writes it and nothing clears it.
  lemma {:induction false} StampIsLastReviewer(trace: seq<OpCall>, id: string)
    requires id in After(trace)
    ensures After(trace)[id].approvedBy == LastStamp(trace, id)
  {
    var init, call := Front(trace), Last(trace);
    if id in After(init) {
      StampIsLastReviewer(init, id);
      AlwaysConsistent(init);
      OperationStep(After(init), call, id);
    } else {
      NothingBeforeBegin(init, id);
      assert After(trace)[id] == NewOperation(call);
    }
  }
}
