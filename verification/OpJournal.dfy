/**
 The journal object: the operation table and the lease table, updated in place by one method per transaction.
 The ghost histories tie the two tables to the specification functions the theorems are about.
 */
module OpJournal {
  import opened Wrappers
  import Leases
  import Ops = Operations

  // The review columns a resolved review writes.
  function Resolved(review: Ops.Review, now: int, status: string, reviewer: string, note: Option<string>,
                    artifact: Option<string>, payload: map<string, string>): Ops.Review
  {
    review.(mode := Ops.OrElse(review.mode, "manual"), status := Some(status),
            reviewer := Some(reviewer), at := Some(now),
            note := note, artifact := artifact, payload := review.payload + payload)
  }

  class OperationJournal {
    var ops: Ops.OpTable
    var leases: Leases.LeaseTable
    ghost var opTrace: seq<Ops.OpCall>
    ghost var leaseTrace: seq<Leases.LeaseCall>

    ghost predicate Valid()
      reads this
    {
      ops == Ops.After(opTrace) && leases == Leases.After(leaseTrace)
    }

    constructor ()
      ensures Valid() && opTrace == [] && leaseTrace == []
    {
      ops, leases := map[], map[];
      opTrace, leaseTrace := [], [];
    }

    // Sweep first, then look for a lease that is still active, then insert; a conflict rolls the sweep back.
    method AcquireLease(now: int, leaseId: string, lock: string, session: string, columns: Leases.LeaseColumns,
                        ttlSeconds: int)
      returns (r: Result<Leases.Lease, Leases.LeaseError>)
      requires Valid()
      modifies this`leases, this`leaseTrace
      ensures Valid()
      ensures leaseTrace == old(leaseTrace) + [Leases.Acquire(now, leaseId, lock, session, columns, ttlSeconds)]
      ensures r == Leases.Answer(old(leases), Last(leaseTrace))
      ensures leases == Leases.Step(old(leases), Last(leaseTrace))
    {
      ghost var call := Leases.Acquire(now, leaseId, lock, session, columns, ttlSeconds);
      leaseTrace := leaseTrace + [call];
      assert Front(leaseTrace) == old(leaseTrace);
      if ttlSeconds <= 0 {
        return Err(Leases.InvalidTtl);
      }
      var swept := Leases.Sweep(leases, lock, session, now);
      if id :| id in swept && Leases.Unreleased(swept[id], lock) {
        assert Leases.Unreleased(leases[id], lock) && now < leases[id].expiresAt;
        return Err(Leases.LeaseConflict);
      }
      assert forall id :: id in leases && Leases.Unreleased(leases[id], lock) && now < leases[id].expiresAt ==>
          Leases.Unreleased(swept[id], lock);
      if leaseId in swept {
        return Err(Leases.DuplicateLeaseId);
      }
      var lease := Leases.Lease(lock, session, columns, now, now, now + ttlSeconds * 1000, None, None, Leases.Active);
      leases := swept[leaseId := lease];
      return Ok(lease);
    }

    method ReleaseLease(now: int, leaseId: string, releasedBy: string)
      returns (r: Result<Leases.Lease, Leases.LeaseError>)
      requires Valid()
      modifies this`leases, this`leaseTrace
      ensures Valid()
      ensures leaseTrace == old(leaseTrace) + [Leases.Release(now, leaseId, releasedBy)]
      ensures r == Leases.Answer(old(leases), Last(leaseTrace))
      ensures leases == Leases.Step(old(leases), Last(leaseTrace))
    {
      leaseTrace := leaseTrace + [Leases.Release(now, leaseId, releasedBy)];
      assert Front(leaseTrace) == old(leaseTrace);
      if leaseId !in leases {
        return Err(Leases.UnknownLease);
      }
      var lease := leases[leaseId].(updatedAt := now, releasedAt := Some(now), releasedBy := Some(releasedBy),
                                    status := Leases.Released);
      leases := leases[leaseId := lease];
      return Ok(lease);
    }

    method Begin(now: int, opId: string, key: Ops.OpKey, trustZone: string) returns (r: Result<string, Ops.OpError>)
      requires Valid()
      modifies this`ops, this`opTrace
      ensures Valid()
      ensures opTrace == old(opTrace) + [Ops.Begin(now, opId, key, trustZone)]
      ensures r == Ops.Answer(old(ops), Last(opTrace))
      ensures ops == Ops.Step(old(ops), Last(opTrace))
    {
      Ops.AlwaysConsistent(opTrace);
      ghost var call := Ops.Begin(now, opId, key, trustZone);
      opTrace := opTrace + [call];
      assert Front(opTrace) == old(opTrace);
      if existing :| existing in ops && ops[existing].key == key {
        assert Ops.HasKey(ops, key) && existing == Ops.IdOf(ops, key);
        return Ok(existing);
      }
      if opId in ops {
        return Err(Ops.DuplicateOpId);
      }
      ops := ops[opId := Ops.NewOperation(Ops.Begin(now, opId, key, trustZone))];
      return Ok(opId);
    }

    // The end of a call that writes its row, and of one that is rolled back.
    method Commit(ghost call: Ops.OpCall, opId: string, row: Ops.Operation)
      requires Valid() && !call.Begin? && call.opId == opId && opId in ops && Ops.RowAfter(ops[opId], call) == Ok(row)
      modifies this`ops, this`opTrace
      ensures Valid() && opTrace == old(opTrace) + [call]
      ensures ops == old(ops)[opId := row] == Ops.Step(old(ops), call) && Ops.Answer(old(ops), call) == Ok(opId)
    {
      ops, opTrace := ops[opId := row], opTrace + [call];
      assert Front(opTrace) == old(opTrace);
    }

    ghost method Refuse(call: Ops.OpCall)
      requires Valid() && Ops.Answer(ops, call).Err?
      modifies this`opTrace
      ensures Valid() && opTrace == old(opTrace) + [call]
    {
      opTrace := opTrace + [call];
      assert Front(opTrace) == old(opTrace);
    }

    // A validated move along the status machine; every column not given keeps its value.
    method Transition(now: int, opId: string, status: Ops.Status, patch: Ops.Patch)
      returns (r: Result<string, Ops.OpError>)
      requires Valid()
      modifies this`ops, this`opTrace
      ensures Valid()
      ensures opTrace == old(opTrace) + [Ops.Transition(now, opId, status, patch)]
      ensures r == Ops.Answer(old(ops), Last(opTrace))
      ensures ops == Ops.Step(old(ops), Last(opTrace))
      ensures r.Ok? ==> opId in ops
    {
      ghost var call := Ops.Transition(now, opId, status, patch);
      if opId !in ops {
        Refuse(call);
        return Err(Ops.UnknownOperation);
      }
      var row := ops[opId];
      if row.status != status && status !in Ops.AllowedTransitions(row.status) {
        Refuse(call);
        return Err(Ops.InvalidTransition);
      }
      if status == Ops.Running && row.status != Ops.Running {
        row := row.(attempt := row.attempt + 1);
      }
      row := row.(updatedAt := now, status := status);
      row := row.(lastError := Ops.Patched(patch.error, row.lastError),
                  policyDecision := Ops.Patched(patch.policyDecision, row.policyDecision),
                  policyDecisionJson := Ops.Patched(patch.policyDecisionJson, row.policyDecisionJson),
                  contractVersion := Ops.Patched(patch.contractVersion, row.contractVersion),
                  contract := Ops.Patched(patch.contract, row.contract),
                  approvalRequired := Ops.Patched(patch.approvalRequired, row.approvalRequired));
      var review := row.review;
      review := review.(mode := Ops.Patched(patch.reviewMode, review.mode),
                        target := Ops.Patched(patch.reviewTarget, review.target),
                        status := Ops.Patched(patch.reviewStatus, review.status),
                        reviewer := Ops.Patched(patch.reviewedBy, review.reviewer),
                        at := Ops.Patched(patch.reviewedAt, review.at),
                        note := Ops.Patched(patch.reviewNote, review.note),
                        artifact := Ops.Patched(patch.reviewArtifact, review.artifact),
                        payload := Ops.Patched(patch.reviewPayload, review.payload));
      var result := row.result;
      result := result.(ok := Ops.Patched(patch.resultOk, result.ok),
                        statusCode := Ops.Patched(patch.resultStatusCode, result.statusCode),
                        bodyExcerpt := Ops.Patched(patch.resultBody, result.bodyExcerpt),
                        request := Ops.PatchedRequest(patch.request, result.request));
      Commit(call, opId, row.(review := review, result := result));
      return Ok(opId);
    }

    // An approval-required operation has to be pending.
    method Approve(now: int, opId: string, reviewer: string, note: Option<string>, artifact: Option<string>,
                   payload: map<string, string>)
      returns (r: Result<string, Ops.OpError>)
      requires Valid()
      modifies this`ops, this`opTrace
      ensures Valid()
      ensures opTrace == old(opTrace) + [Ops.Approve(now, opId, reviewer, note, artifact, payload)]
      ensures r == Ops.Answer(old(ops), Last(opTrace))
      ensures ops == Ops.Step(old(ops), Last(opTrace))
      ensures r.Ok? ==> opId in ops
    {
      ghost var call := Ops.Approve(now, opId, reviewer, note, artifact, payload);
      if opId !in ops {
        Refuse(call);
        return Err(Ops.UnknownOperation);
      }
      var row := ops[opId];
      if row.approvalRequired && row.status != Ops.PendingApproval {
        Refuse(call);
        return Err(Ops.ApprovalNotPending);
      }
      if row.status != Ops.Approved && Ops.Approved !in Ops.AllowedTransitions(row.status) {
        Refuse(call);
        return Err(Ops.InvalidTransition);
      }
      row := row.(updatedAt := now, status := Ops.Approved, approvedBy := Some(reviewer), approvedAt := Some(now),
                  approvalNote := note, lastError := None);
      var review := Resolved(row.review, now, "approved", reviewer, note, artifact, payload);
      assert review.payload == ops[opId].review.payload + payload + map[];
      Commit(call, opId, row.(review := review));
      return Ok(opId);
    }

    method Reject(now: int, opId: string, reviewer: string, note: Option<string>, artifact: Option<string>,
                  payload: map<string, string>)
      returns (r: Result<string, Ops.OpError>)
      requires Valid()
      modifies this`ops, this`opTrace
      ensures Valid()
      ensures opTrace == old(opTrace) + [Ops.Reject(now, opId, reviewer, note, artifact, payload)]
      ensures r == Ops.Answer(old(ops), Last(opTrace))
      ensures ops == Ops.Step(old(ops), Last(opTrace))
      ensures r.Ok? ==> opId in ops
    {
      ghost var call := Ops.Reject(now, opId, reviewer, note, artifact, payload);
      if opId !in ops {
        Refuse(call);
        return Err(Ops.UnknownOperation);
      }
      var row := ops[opId];
      if row.status != Ops.Rejected && Ops.Rejected !in Ops.AllowedTransitions(row.status) {
        Refuse(call);
        return Err(Ops.InvalidTransition);
      }
      row := row.(updatedAt := now, status := Ops.Rejected, lastError := Ops.OrElse(note, "review rejected"));
      var review := Resolved(row.review, now, "rejected", reviewer, note, artifact, payload);
      assert review.payload == ops[opId].review.payload + payload + map[];
      Commit(call, opId, row.(review := review));
      return Ok(opId);
    }

    method Delegate(now: int, opId: string, reviewer: string, delegateTo: string, note: Option<string>,
                    artifact: Option<string>,
                    payload: map<string, string>)
      returns (r: Result<string, Ops.OpError>)
      requires Valid()
      modifies this`ops, this`opTrace
      ensures Valid()
      ensures opTrace == old(opTrace) + [Ops.Delegate(now, opId, reviewer, delegateTo, note, artifact, payload)]
      ensures r == Ops.Answer(old(ops), Last(opTrace))
      ensures ops == Ops.Step(old(ops), Last(opTrace))
      ensures r.Ok? ==> opId in ops
    {
      ghost var call := Ops.Delegate(now, opId, reviewer, delegateTo, note, artifact, payload);
      if opId !in ops {
        Refuse(call);
        return Err(Ops.UnknownOperation);
      }
      var row := ops[opId];
      if row.status != Ops.PendingApproval {
        Refuse(call);
        return Err(Ops.DelegateNotPending);
      }
      var extra := payload["delegate_to" := delegateTo];
      var review := row.review.(mode := Ops.OrElse(row.review.mode, "delegate_recommend"), target := Some(delegateTo),
                                status := Some("delegated"), reviewer := Some(reviewer), at := Some(now), note := note,
                                artifact := artifact, payload := row.review.payload + extra);
      assert review.payload == row.review.payload + payload + map["delegate_to" := delegateTo];
      Commit(call, opId, row.(updatedAt := now, review := review));
      return Ok(opId);
    }

    // A denial clears the approval columns, which are empty whenever a rejection is allowed.
    method IngestReview(now: int, opId: string, reviewer: string, decision: string, note: Option<string>,
                        artifact: Option<string>, payload: map<string, string>)
      returns (r: Result<string, Ops.OpError>)
      requires Valid()
      modifies this`ops, this`opTrace
      ensures Valid()
      ensures opTrace == old(opTrace) + [Ops.IngestReview(now, opId, reviewer, decision, note, artifact, payload)]
      ensures r == Ops.Answer(old(ops), Last(opTrace))
      ensures ops == Ops.Step(old(ops), Last(opTrace))
      ensures r.Ok? ==> opId in ops
    {
      ghost var call := Ops.IngestReview(now, opId, reviewer, decision, note, artifact, payload);
      if decision != "allow" && decision != "deny" {
        Refuse(call);
        return Err(Ops.InvalidDecision);
      }
      if opId !in ops {
        Refuse(call);
        return Err(Ops.UnknownOperation);
      }
      var row := ops[opId];
      var target := if decision == "allow" then Ops.Approved else Ops.Rejected;
      if row.status != target && target !in Ops.AllowedTransitions(row.status) {
        Refuse(call);
        return Err(Ops.InvalidTransition);
      }
      var extra := payload["review_decision" := decision];
      assert row.review.payload + extra == row.review.payload + payload + map["review_decision" := decision];
      if decision == "allow" {
        row := row.(updatedAt := now, status := target, lastError := None,
                    approvedBy := Some(reviewer), approvedAt := Some(now),
                    approvalNote := note,
                    review := Resolved(row.review, now, "approved", reviewer, note, artifact, extra));
      } else {
        row := row.(updatedAt := now, status := target, lastError := Ops.OrElse(note, "review rejected"),
                    approvedBy := None, approvedAt := None,
                    review := Resolved(row.review, now, "rejected", reviewer, note, artifact, extra));
      }
      assert Ops.RowAfter(ops[opId], call) == Ok(row);
      Commit(call, opId, row);
      return Ok(opId);
    }
  }
}
