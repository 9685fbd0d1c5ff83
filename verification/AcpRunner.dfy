/** ACP sessions: what identifies one, and the lock, lease, run, release bracket around the worker. */
module AcpRunner {
  import opened Wrappers
  import opened Identities
  import Leases
  import opened OpJournal

  datatype SessionSpec = SessionSpec(
    backend: string, projectId: string, workspaceId: string, lane: string, role: string, operationKind: string,
    holder: string, metadata: Option<string>, ttlSeconds: int)

  function SessionIdentity(spec: SessionSpec): Result<string, DescriptorError> {
    BuildIdentity([spec.backend, spec.projectId, spec.workspaceId, spec.lane, spec.role])
  }

  function LockIdentity(spec: SessionSpec): Result<string, DescriptorError> {
    BuildIdentity([spec.projectId, spec.workspaceId, spec.lane, spec.role, spec.operationKind])
  }

  // Two specs share a lease key exactly when their five lock fields agree, and a session identity exactly when
  // their five session fields do.
  lemma SpecsShareKeys(s: SessionSpec, t: SessionSpec)
    requires SessionIdentity(s).Ok? && SessionIdentity(t).Ok? && LockIdentity(s).Ok? && LockIdentity(t).Ok?
    ensures LockIdentity(s) == LockIdentity(t) <==>
            s.projectId == t.projectId && s.workspaceId == t.workspaceId && s.lane == t.lane && s.role == t.role
            && s.operationKind == t.operationKind
    ensures SessionIdentity(s) == SessionIdentity(t) <==>
            s.backend == t.backend && s.projectId == t.projectId && s.workspaceId == t.workspaceId && s.lane == t.lane
            && s.role == t.role
  {
    var ls := [s.projectId, s.workspaceId, s.lane, s.role, s.operationKind];
    var lt := [t.projectId, t.workspaceId, t.lane, t.role, t.operationKind];
    IdentityInjective(ls, lt);
    assert ls == lt <==> (ls[0] == lt[0] && ls[1] == lt[1] && ls[2] == lt[2] && ls[3] == lt[3] && ls[4] == lt[4]);
    var ss := [s.backend, s.projectId, s.workspaceId, s.lane, s.role];
    var st := [t.backend, t.projectId, t.workspaceId, t.lane, t.role];
    IdentityInjective(ss, st);
    assert ss == st <==> (ss[0] == st[0] && ss[1] == st[1] && ss[2] == st[2] && ss[3] == st[3] && ss[4] == st[4]);
  }

  // What the backend process did: it returned a summary, or running it raised.
  datatype WorkerOutcome = Returned(ok: bool) | WorkerRaised

  datatype SessionResult =
    | InvalidDescriptor | PreflightFailed | LockConflict | JournalRaised | Finished(ok: bool) | Escaped

  // Other processes' lease calls while the worker runs.
  method Meanwhile(journal: OperationJournal, calls: seq<Leases.LeaseCall>)
    requires journal.Valid()
    modifies journal`leases, journal`leaseTrace
    ensures journal.Valid() && journal.leases == Leases.AfterFrom(old(journal.leases), calls)
  {
    for n := 0 to |calls|
      invariant journal.Valid() && journal.leases == Leases.AfterFrom(old(journal.leases), calls[..n])
    {
      FoldAppend(Leases.Step, old(journal.leases), calls[..n], calls[n]);
      assert calls[..n + 1] == calls[..n] + [calls[n]];
      match calls[n] {
        case Acquire(now, leaseId, lock, session, columns, ttlSeconds) =>
          var answer := journal.AcquireLease(now, leaseId, lock, session, columns, ttlSeconds);
        case Release(now, leaseId, releasedBy) =>
          var answer := journal.ReleaseLease(now, leaseId, releasedBy);
      }
    }
    assert calls[..|calls|] == calls;
  }

  function LeaseColumnsOf(spec: SessionSpec): Leases.LeaseColumns {
    Leases.LeaseColumns(spec.backend, spec.projectId, spec.workspaceId, spec.lane, spec.role, spec.operationKind,
                        spec.holder, spec.metadata)
  }

  // The acquire call of a session.
  function LeaseCallOf(spec: SessionSpec, leaseId: string, startedAt: int): Leases.LeaseCall
    requires SessionIdentity(spec).Ok? && LockIdentity(spec).Ok?
  {
    Leases.Acquire(startedAt, leaseId, LockIdentity(spec).value, SessionIdentity(spec).value, LeaseColumnsOf(spec),
                   spec.ttlSeconds)
  }

  // The row says whose session holds the lock, and for what.
  predicate RowNames(row: Leases.Lease, spec: SessionSpec) {
    && row.lock == spec.projectId + ":" + spec.workspaceId + ":" + spec.lane + ":" + spec.role + ":"
                   + spec.operationKind
    && row.session == spec.backend + ":" + spec.projectId + ":" + spec.workspaceId + ":" + spec.lane + ":" + spec.role
    && row.columns.backend == spec.backend && row.columns.projectId == spec.projectId
    && row.columns.workspaceId == spec.workspaceId && row.columns.lane == spec.lane && row.columns.role == spec.role
    && row.columns.operationKind == spec.operationKind && row.columns.holder == spec.holder
    && row.columns.metadata == spec.metadata
  }

  lemma GrantNames(table: Leases.LeaseTable, spec: SessionSpec, leaseId: string, startedAt: int)
    requires SessionIdentity(spec).Ok? && LockIdentity(spec).Ok?
    requires Leases.Answer(table, LeaseCallOf(spec, leaseId, startedAt)).Ok?
    ensures var granted := Leases.Step(table, LeaseCallOf(spec, leaseId, startedAt));
            && leaseId in granted && RowNames(granted[leaseId], spec)
            && granted[leaseId].expiresAt == startedAt + 1000 * spec.ttlSeconds
  {
    JoinFive(spec.projectId, spec.workspaceId, spec.lane, spec.role, spec.operationKind);
    JoinFive(spec.backend, spec.projectId, spec.workspaceId, spec.lane, spec.role);
  }

  // Runs one session, with any lease calls by others while the worker runs. Refused, it leaves all leases as they
  // were. Otherwise the lease is granted, the others' calls follow, and a worker that returns has its lease released;
  // a worker that raises skips the release. So if somebody else was granted the lock in between and still has it, that
  // lease is alone on it; if not, the lock is free, unless a raising worker's lease was neither released nor swept.
  method RunSession(journal: OperationJournal, spec: SessionSpec, preflightOk: bool, fileLockFree: bool,
                    leaseId: string, startedAt: int, others: seq<Leases.LeaseCall>,
                    worker: WorkerOutcome, finishedAt: int)
    returns (result: SessionResult)
    requires journal.Valid()
    modifies journal`leases, journal`leaseTrace
    ensures journal.Valid()
    ensures result.Finished? || result.Escaped? <==>
            SessionIdentity(spec).Ok? && LockIdentity(spec).Ok? && preflightOk && fileLockFree
            && spec.ttlSeconds > 0 && leaseId !in old(journal.leases)
            && !Leases.Blocked(old(journal.leases), LockIdentity(spec).value, startedAt)
    ensures result.Finished? ==> worker == Returned(result.ok)
    ensures result.Escaped? ==> worker.WorkerRaised?
    ensures !result.Finished? && !result.Escaped? ==> journal.leases == old(journal.leases)
    ensures result.Finished? || result.Escaped? ==>
              var lock := LockIdentity(spec).value;
              var granted := Leases.Step(old(journal.leases), LeaseCallOf(spec, leaseId, startedAt));
              var during := Leases.AfterFrom(granted, others);
              var active, other := Leases.ActiveOn(journal.leases, lock), Leases.LastGrant(granted, others, lock);
              && leaseId in granted && Leases.ActiveOn(granted, lock) == {leaseId}
              && RowNames(granted[leaseId], spec) && granted[leaseId].expiresAt == startedAt + 1000 * spec.ttlSeconds
              && journal.leases == (if result.Finished?
                                    then Leases.Step(during,
                                                     Leases.Release(finishedAt, leaseId, SessionIdentity(spec).value))
                                    else during)
              && (other.Some? ==> active == {other.value} && other.value != leaseId)
              && (other.None? ==>
                    active == if result.Escaped? && Leases.LeftAlone(granted, others, lock, leaseId)
                              then {leaseId} else {})
  {
    var session, lock := SessionIdentity(spec), LockIdentity(spec);
    if session.Err? || lock.Err? {
      return InvalidDescriptor;
    }
    if !preflightOk {
      return PreflightFailed;
    }
    if !fileLockFree {
      return LockConflict;
    }
    ghost var before := journal.leases;
    var lease := journal.AcquireLease(startedAt, leaseId, lock.value, session.value, LeaseColumnsOf(spec),
                                      spec.ttlSeconds);
    Leases.Handover(before, LeaseCallOf(spec, leaseId, startedAt), lock.value);
    if lease.Err? {
      return if lease.error.LeaseConflict? then LockConflict else JournalRaised;
    }
    ghost var granted := journal.leases;
    GrantNames(before, spec, leaseId, startedAt);
    Meanwhile(journal, others);
    Leases.TakenOver(granted, others, lock.value, leaseId);
    if worker.WorkerRaised? {
      return Escaped;
    }
    ghost var during := journal.leases;
    var released := journal.ReleaseLease(finishedAt, leaseId, session.value);
    Leases.Handover(during, Leases.Release(finishedAt, leaseId, session.value), lock.value);
    return Finished(worker.ok);
  }

  // A worker that ends before its lease expires, with nobody else releasing it, is never joined by another session, and
  // leaves the lock free; one that raises leaves it blocked until then.
  lemma {:induction false} SessionWithinTtl(table: Leases.LeaseTable, spec: SessionSpec, leaseId: string,
                                            startedAt: int, others: seq<Leases.LeaseCall>, finishedAt: int)
    requires SessionIdentity(spec).Ok? && LockIdentity(spec).Ok?
    requires Leases.Answer(table, LeaseCallOf(spec, leaseId, startedAt)).Ok?
    requires forall call :: call in others ==>
        call.now < startedAt + spec.ttlSeconds * 1000 && !(call.Release? && call.leaseId == leaseId)
    ensures var lock := LockIdentity(spec).value;
            var granted := Leases.Step(table, LeaseCallOf(spec, leaseId, startedAt));
            var during := Leases.AfterFrom(granted, others);
            && Leases.LastGrant(granted, others, lock).None?
            && Leases.ActiveOn(during, lock) == {leaseId}
            && Leases.ActiveOn(Leases.Step(during, Leases.Release(finishedAt, leaseId, SessionIdentity(spec).value)),
                               lock) == {}
  {
    var lock := LockIdentity(spec).value;
    var granted := Leases.Step(table, LeaseCallOf(spec, leaseId, startedAt));
    Leases.Handover(table, LeaseCallOf(spec, leaseId, startedAt), lock);
    Leases.HeldUntilExpiry(granted, others, lock, leaseId);
    Leases.TakenOver(granted, others, lock, leaseId);
    var during := Leases.AfterFrom(granted, others);
    assert leaseId in Leases.ActiveOn(during, lock);
    Leases.Handover(during, Leases.Release(finishedAt, leaseId, SessionIdentity(spec).value), lock);
  }
}
