/**
 Session leases: time-bounded mutual exclusion on a lock identity.
 A lease table is a map from lease id to row; every call is one transaction that rolls back when refused.
 */
module Leases {
  import opened Wrappers

  datatype LeaseStatus = Active | Expired | Released

  // The columns a lease only carries along.
  datatype LeaseColumns = LeaseColumns(
    backend: string, projectId: string, workspaceId: string, lane: string, role: string,
    operationKind: string, holder: string, metadata: Option<string>)

  datatype Lease = Lease(
    lock: string, session: string, columns: LeaseColumns,
    createdAt: int, updatedAt: int, expiresAt: int,
    releasedAt: Option<int>, releasedBy: Option<string>, status: LeaseStatus)

  type LeaseTable = map<string, Lease>

  datatype LeaseError = InvalidTtl | LeaseConflict | DuplicateLeaseId | UnknownLease

  // `now` is the clock reading of the call; the id of an acquired lease is chosen by the caller's hash.
  datatype LeaseCall =
    | Acquire(now: int, leaseId: string, lock: string, session: string, columns: LeaseColumns, ttlSeconds: int)
    | Release(now: int, leaseId: string, releasedBy: string)

  predicate Unreleased(lease: Lease, lock: string) {
    lease.lock == lock && lease.releasedAt.None?
  }

  // Whether an unreleased lease on the lock expires after `now`.
  predicate Blocked(table: LeaseTable, lock: string, now: int) {
    exists id :: id in table && Unreleased(table[id], lock) && now < table[id].expiresAt
  }

  function ExpireLease(lease: Lease, session: string, now: int): Lease {
    lease.(updatedAt := now, releasedAt := Some(now), releasedBy := Some(session), status := Expired)
  }

  // The expiry sweep that runs inside acquire.
  function Sweep(table: LeaseTable, lock: string, session: string, now: int): LeaseTable {
    map id | id in table ::
      if Unreleased(table[id], lock) && table[id].expiresAt <= now
      then ExpireLease(table[id], session, now) else table[id]
  }

  function NewLease(call: LeaseCall): Lease
    requires call.Acquire?
  {
    Lease(call.lock, call.session, call.columns, call.now, call.now, call.now + call.ttlSeconds * 1000,
          None, None, Active)
  }

  // What a call answers.
  function Answer(table: LeaseTable, call: LeaseCall): Result<Lease, LeaseError> {
    match call
    case Acquire(now, id, lock, _, _, ttl) =>
      if ttl <= 0 then Err(InvalidTtl)
      else if Blocked(table, lock, now) then Err(LeaseConflict)
      else if id in table then Err(DuplicateLeaseId)
      else Ok(NewLease(call))
    case Release(now, id, releasedBy) =>
      if id !in table then Err(UnknownLease)
      else Ok(table[id].(updatedAt := now, releasedAt := Some(now), releasedBy := Some(releasedBy), status := Released))
  }

  // The table a call leaves behind: a refused call leaves it as it was.
  function Step(table: LeaseTable, call: LeaseCall): LeaseTable {
    var answer := Answer(table, call);
    if answer.Err? then table
    else if call.Acquire? then Sweep(table, call.lock, call.session, call.now)[call.leaseId := answer.value]
    else table[call.leaseId := answer.value]
  }

  function After(trace: seq<LeaseCall>): LeaseTable {
    if trace == [] then map[] else Step(After(Front(trace)), Last(trace))
  }

  predicate ClockMonotone(trace: seq<LeaseCall>) {
    forall i, j :: 0 <= i <= j < |trace| ==> trace[i].now <= trace[j].now
  }

  // --- Hold intervals, read off the history rather than off the columns ---

  // When the lease was first seen released. A later release overwrites the column but not this.
  function FirstRelease(trace: seq<LeaseCall>, id: string): Option<int> {
    if trace == [] then None
    else
      var before := FirstRelease(Front(trace), id);
      if before.Some? then before
      else if id in After(trace) && After(trace)[id].releasedAt.Some? then Some(Last(trace).now)
      else None
  }

  function HoldEnd(trace: seq<LeaseCall>, id: string): int
    requires id in After(trace)
  {
    var expiry := After(trace)[id].expiresAt;
    var first := FirstRelease(trace, id);
    if first.Some? && first.value < expiry then first.value else expiry
  }

  // The lease holds its lock at time t: from its grant to the earlier of first release and expiry.
  predicate HoldsAt(trace: seq<LeaseCall>, id: string, t: int) {
    id in After(trace) && After(trace)[id].createdAt <= t < HoldEnd(trace, id)
  }

  ghost predicate RowsConsistent(trace: seq<LeaseCall>) {
    forall id :: id in After(trace) ==>
      var row := After(trace)[id];
      && (row.releasedAt.Some? <==> FirstRelease(trace, id).Some?)
      && (row.status.Active? <==> row.releasedAt.None?)
      && trace != []
      && row.createdAt <= Last(trace).now
      && row.createdAt < row.expiresAt
      && (FirstRelease(trace, id).Some? ==> FirstRelease(trace, id).value <= Last(trace).now)
  }

  ghost predicate OneUnreleased(table: LeaseTable) {
    forall a, b :: a in table && b in table && a != b && table[a].releasedAt.None? && table[b].releasedAt.None?
                   ==> table[a].lock != table[b].lock
  }

  // Of two leases on one lock, one stops holding no later than the other starts.
  ghost predicate Disjoint(trace: seq<LeaseCall>) {
    forall a, b :: a in After(trace) && b in After(trace) && a != b && After(trace)[a].lock == After(trace)[b].lock ==>
      HoldEnd(trace, a) <= After(trace)[b].createdAt || HoldEnd(trace, b) <= After(trace)[a].createdAt
  }

  // One call keeps every row's lock, grant and expiry, and never takes a release back.
  lemma StepKeepsRow(table: LeaseTable, call: LeaseCall, id: string)
    requires id in table
    ensures id in Step(table, call)
    ensures var prior := table[id]; var next := Step(table, call)[id];
            && next.lock == prior.lock && next.createdAt == prior.createdAt && next.expiresAt == prior.expiresAt
            && (prior.releasedAt.Some? ==> next.releasedAt.Some?)
            && ((prior.status.Active? <==> prior.releasedAt.None?) ==> (next.status.Active? <==> next.releasedAt.None?))
  {
    var answer := Answer(table, call);
    if answer.Ok? && call.Acquire? {
      assert id != call.leaseId;
    }
  }

  // Along a history, a row's hold never grows and its first release is fixed once seen.
  lemma OldRowsKept(trace: seq<LeaseCall>, id: string)
    requires trace != [] && ClockMonotone(trace) && RowsConsistent(Front(trace))
    requires id in After(Front(trace))
    ensures id in After(trace)
    ensures var prior := After(Front(trace))[id]; var next := After(trace)[id];
            next.lock == prior.lock && next.createdAt == prior.createdAt && next.expiresAt == prior.expiresAt
            && (prior.releasedAt.Some? ==> next.releasedAt.Some?)
            && (next.status.Active? <==> next.releasedAt.None?)
    ensures HoldEnd(trace, id) <= HoldEnd(Front(trace), id)
    ensures FirstRelease(Front(trace), id).Some? ==> FirstRelease(trace, id) == FirstRelease(Front(trace), id)
  {
    assert After(trace) == Step(After(Front(trace)), Last(trace));
    StepKeepsRow(After(Front(trace)), Last(trace), id);
  }

  // A granted lease finds every earlier lease on its lock already over.
  lemma GrantAfterHolds(trace: seq<LeaseCall>, id: string)
    requires trace != [] && ClockMonotone(trace) && RowsConsistent(Front(trace))
    requires Last(trace).Acquire? && Answer(After(Front(trace)), Last(trace)).Ok?
    requires id in After(Front(trace)) && After(Front(trace))[id].lock == Last(trace).lock
    ensures After(trace)[id].releasedAt.Some? && HoldEnd(trace, id) <= Last(trace).now
  {
    OldRowsKept(trace, id);
    var row := After(Front(trace))[id];
    assert !Blocked(After(Front(trace)), Last(trace).lock, Last(trace).now);
    assert !(Unreleased(row, Last(trace).lock) && Last(trace).now < row.expiresAt);
    if row.releasedAt.Some? {
      assert Last(Front(trace)).now == trace[|trace| - 2].now <= Last(trace).now;
    }
  }

  // Of two leases on one lock, the one just granted finds the other over.
  lemma GrantIsAlone(trace: seq<LeaseCall>, granted: string, other: string)
    requires trace != [] && ClockMonotone(trace) && RowsConsistent(Front(trace))
    requires granted in After(trace) && other in After(trace) && granted != other
    requires granted !in After(Front(trace)) && After(trace)[granted].lock == After(trace)[other].lock
    ensures After(trace)[other].releasedAt.Some? && HoldEnd(trace, other) <= After(trace)[granted].createdAt
  {
    assert After(trace) == Step(After(Front(trace)), Last(trace));
    assert Last(trace).Acquire? && granted == Last(trace).leaseId;
    StepKeepsRow(After(Front(trace)), Last(trace), other);
    GrantAfterHolds(trace, other);
  }

  lemma PairUnreleased(trace: seq<LeaseCall>, a: string, b: string)
    requires trace != [] && ClockMonotone(trace) && RowsConsistent(Front(trace))
    requires OneUnreleased(After(Front(trace)))
    requires a in After(trace) && b in After(trace) && a != b && After(trace)[a].lock == After(trace)[b].lock
    ensures After(trace)[a].releasedAt.Some? || After(trace)[b].releasedAt.Some?
  {
    if a !in After(Front(trace)) {
      GrantIsAlone(trace, a, b);
    } else if b !in After(Front(trace)) {
      GrantIsAlone(trace, b, a);
    } else {
      OldRowsKept(trace, a);
      OldRowsKept(trace, b);
    }
  }

  lemma StaysOneUnreleased(trace: seq<LeaseCall>)
    requires trace != [] && ClockMonotone(trace) && RowsConsistent(Front(trace))
    requires OneUnreleased(After(Front(trace)))
    ensures OneUnreleased(After(trace))
  {
    forall a, b | a in After(trace) && b in After(trace) && a != b && After(trace)[a].lock == After(trace)[b].lock
      ensures After(trace)[a].releasedAt.Some? || After(trace)[b].releasedAt.Some?
    {
      PairUnreleased(trace, a, b);
    }
  }

  lemma PairDisjoint(trace: seq<LeaseCall>, a: string, b: string)
    requires trace != [] && ClockMonotone(trace) && RowsConsistent(Front(trace)) && Disjoint(Front(trace))
    requires a in After(trace) && b in After(trace) && a != b && After(trace)[a].lock == After(trace)[b].lock
    ensures HoldEnd(trace, a) <= After(trace)[b].createdAt || HoldEnd(trace, b) <= After(trace)[a].createdAt
  {
    if a !in After(Front(trace)) {
      GrantIsAlone(trace, a, b);
    } else if b !in After(Front(trace)) {
      GrantIsAlone(trace, b, a);
    } else {
      OldRowsKept(trace, a);
      OldRowsKept(trace, b);
    }
  }

  lemma StaysDisjoint(trace: seq<LeaseCall>)
    requires trace != [] && ClockMonotone(trace) && RowsConsistent(Front(trace)) && Disjoint(Front(trace))
    ensures Disjoint(trace)
  {
    forall a, b | a in After(trace) && b in After(trace) && a != b && After(trace)[a].lock == After(trace)[b].lock
      ensures HoldEnd(trace, a) <= After(trace)[b].createdAt || HoldEnd(trace, b) <= After(trace)[a].createdAt
    {
      PairDisjoint(trace, a, b);
    }
  }

  lemma RowsStayConsistent(trace: seq<LeaseCall>)
    requires trace != [] && ClockMonotone(trace) && RowsConsistent(Front(trace))
    ensures RowsConsistent(trace)
  {
    forall id | id in After(trace)
      ensures var row := After(trace)[id];
              && (row.releasedAt.Some? <==> FirstRelease(trace, id).Some?)
              && (row.status.Active? <==> row.releasedAt.None?)
              && row.createdAt <= Last(trace).now && row.createdAt < row.expiresAt
              && (FirstRelease(trace, id).Some? ==> FirstRelease(trace, id).value <= Last(trace).now)
    {
      if id in After(Front(trace)) {
        OldRowsKept(trace, id);
        assert Last(Front(trace)).now == trace[|trace| - 2].now <= Last(trace).now;
      } else {
        NeverReleasedBefore(Front(trace), id);
      }
    }
  }

  lemma {:induction false} HistoryInvariant(trace: seq<LeaseCall>)
    requires ClockMonotone(trace)
    ensures RowsConsistent(trace) && OneUnreleased(After(trace)) && Disjoint(trace)
  {
    if trace != [] {
      HistoryInvariant(Front(trace));
      RowsStayConsistent(trace);
      StaysOneUnreleased(trace);
      StaysDisjoint(trace);
    }
  }

  lemma {:induction false} NeverReleasedBefore(trace: seq<LeaseCall>, id: string)
    requires id !in After(trace)
    ensures FirstRelease(trace, id).None?
  {
    if trace != [] {
      NeverReleasedBefore(Front(trace), id);
    }
  }

  // --- Main results ---

  // Mutual exclusion over any history with a non-decreasing clock.
  lemma {:induction false} HoldsNeverOverlap(trace: seq<LeaseCall>, a: string, b: string, t: int)
    requires ClockMonotone(trace) && a != b
    requires HoldsAt(trace, a, t) && HoldsAt(trace, b, t)
    ensures After(trace)[a].lock != After(trace)[b].lock
  {
    HistoryInvariant(trace);
  }

  lemma {:induction false} AtMostOneActiveRow(trace: seq<LeaseCall>, a: string, b: string)
    requires ClockMonotone(trace) && a in After(trace) && b in After(trace) && a != b
    ensures After(trace)[a].status.Active? <==> After(trace)[a].releasedAt.None?
    ensures After(trace)[a].status.Active? && After(trace)[b].status.Active? ==>
              After(trace)[a].lock != After(trace)[b].lock
  {
    HistoryInvariant(trace);
  }

  // Availability: acquire is granted exactly when no lease in the whole history holds the lock at that moment.
  lemma {:induction false} AcquireGrantedIffFree(trace: seq<LeaseCall>, call: LeaseCall)
    requires ClockMonotone(trace + [call]) && call.Acquire? && call.leaseId !in After(trace)
    ensures Answer(After(trace), call).Ok? <==>
            call.ttlSeconds > 0 &&
            forall id :: id in After(trace) && After(trace)[id].lock == call.lock ==> !HoldsAt(trace, id, call.now)
  {
    assert ClockMonotone(trace) by {
      assert forall i :: 0 <= i < |trace| ==> (trace + [call])[i] == trace[i];
    }
    HistoryInvariant(trace);
    assert trace != [] ==> (trace + [call])[|trace| - 1] == Last(trace) && (trace + [call])[|trace|] == call;
    forall id | id in After(trace) && After(trace)[id].lock == call.lock
      ensures HoldsAt(trace, id, call.now) <==>
              Unreleased(After(trace)[id], call.lock) && call.now < After(trace)[id].expiresAt
    {
    }
  }

  // --- The same read off the calls alone, without the table ---

  // The acquire call that got the lease.
  ghost function GrantedBy(trace: seq<LeaseCall>, id: string): (grant: Option<LeaseCall>)
    ensures grant.Some? ==> grant.value.Acquire? && grant.value.leaseId == id
    decreases |trace|, 0
  {
    if trace == [] then None
    else if Last(trace).Acquire? && Last(trace).leaseId == id && Free(Front(trace), Last(trace)) then Some(Last(trace))
    else GrantedBy(Front(trace), id)
  }

  // The first and the last call that gave the lease back.
  ghost function FreedFirst(trace: seq<LeaseCall>, id: string): (release: Option<LeaseCall>)
    ensures release.Some? ==> release.value.Release?
    decreases |trace|, 1
  {
    if trace == [] then None
    else
      var before := FreedFirst(Front(trace), id);
      if before.Some? then before else if Frees(trace, id) then Some(Last(trace)) else None
  }

  ghost function FreedLast(trace: seq<LeaseCall>, id: string): (release: Option<LeaseCall>)
    ensures release.Some? ==> release.value.Release?
    decreases |trace|, 1
  {
    if trace == [] then None
    else if Frees(trace, id) then Some(Last(trace)) else FreedLast(Front(trace), id)
  }

  // The first acquire granted on its lock while nobody had given the lease back: it finds the lease expired.
  ghost function SweptBy(trace: seq<LeaseCall>, id: string): (sweep: Option<LeaseCall>)
    ensures sweep.Some? ==> sweep.value.Acquire?
    decreases |trace|, 1
  {
    if trace == [] then None
    else
      var before := SweptBy(Front(trace), id);
      if before.Some? then before
      else if && Last(trace).Acquire? && Free(Front(trace), Last(trace)) && FreedFirst(Front(trace), id).None?
              && GrantedBy(Front(trace), id).Some? && GrantedBy(Front(trace), id).value.lock == Last(trace).lock
      then Some(Last(trace)) else None
  }

  ghost predicate Frees(trace: seq<LeaseCall>, id: string)
    requires trace != []
    decreases |trace|, 0
  {
    Last(trace).Release? && Last(trace).leaseId == id && GrantedBy(Front(trace), id).Some?
  }

  // The lease is within the ttl of its own acquire call and has not been given back.
  ghost predicate Has(trace: seq<LeaseCall>, id: string, t: int)
    decreases |trace|, 2
  {
    && GrantedBy(trace, id).Some?
    && var grant := GrantedBy(trace, id).value;
    && grant.now <= t < grant.now + 1000 * grant.ttlSeconds
    && (FreedFirst(trace, id).Some? ==> t < FreedFirst(trace, id).value.now)
  }

  // The call asks for a positive time, under a new id, for a lock that nobody has.
  ghost predicate Free(trace: seq<LeaseCall>, call: LeaseCall)
    requires call.Acquire?
    decreases |trace|, 3
  {
    && call.ttlSeconds > 0 && GrantedBy(trace, call.leaseId).None?
    && forall id :: Has(trace, id, call.now) ==> GrantedBy(trace, id).value.lock != call.lock
  }

  // What the table holds of a lease, by the calls of its history.
  ghost predicate RowByCalls(trace: seq<LeaseCall>, id: string) {
    && (id in After(trace) <==> GrantedBy(trace, id).Some?)
    && (id in After(trace) ==>
          var row, grant := After(trace)[id], GrantedBy(trace, id).value;
          && row.lock == grant.lock && row.session == grant.session && row.columns == grant.columns
          && row.createdAt == grant.now && row.expiresAt == grant.now + 1000 * grant.ttlSeconds
          && (row.status.Released? <==> FreedFirst(trace, id).Some?))
    && (FreedFirst(trace, id).Some? <==> FreedLast(trace, id).Some?)
    && (id in After(trace) && FreedLast(trace, id).None? ==>
          var row, sweep := After(trace)[id], SweptBy(trace, id);
          if sweep.None? then row.status.Active? && row.releasedBy.None? && row.updatedAt == row.createdAt
          else row.status.Expired? && row.releasedAt == Some(sweep.value.now) == Some(row.updatedAt)
               && row.releasedBy == Some(sweep.value.session))
    && (SweptBy(trace, id).Some? ==> id in After(trace) && After(trace)[id].releasedAt.Some?)
    && (FreedLast(trace, id).Some? ==>
          && id in After(trace)
          && var row, last := After(trace)[id], FreedLast(trace, id).value;
          row.releasedAt == Some(last.now) && row.releasedBy == Some(last.releasedBy) && row.updatedAt == last.now)
  }

  // A sweep comes at the expiry at the earliest, so it ends no hold.
  ghost predicate EndByCalls(trace: seq<LeaseCall>, id: string) {
    && (FreedFirst(trace, id).Some? ==>
          FirstRelease(trace, id).Some? && FirstRelease(trace, id).value <= FreedFirst(trace, id).value.now)
    && (FirstRelease(trace, id).Some? ==>
          && id in After(trace)
          && (FirstRelease(trace, id).value >= After(trace)[id].expiresAt
              || (FreedFirst(trace, id).Some? && FreedFirst(trace, id).value.now == FirstRelease(trace, id).value)))
  }

  lemma FrontMonotone(trace: seq<LeaseCall>)
    requires trace != [] && ClockMonotone(trace)
    ensures ClockMonotone(Front(trace)) && ClockMonotone(Front(trace) + [Last(trace)])
  {
    assert Front(trace) + [Last(trace)] == trace;
  }

  // One more call: what the lease's row says.
  lemma RowStays(trace: seq<LeaseCall>, id: string)
    requires trace != [] && RowByCalls(Front(trace), id)
    requires Last(trace).Acquire? ==>
               (Answer(After(Front(trace)), Last(trace)).Ok? <==> Free(Front(trace), Last(trace)))
    requires forall other :: other in After(Front(trace)) ==>
               (After(Front(trace))[other].status.Active? <==> After(Front(trace))[other].releasedAt.None?)
    ensures RowByCalls(trace, id)
  {
    assert After(trace) == Step(After(Front(trace)), Last(trace));
  }

  // And when its hold ends.
  lemma EndStays(trace: seq<LeaseCall>, id: string)
    requires trace != [] && RowByCalls(Front(trace), id) && RowByCalls(trace, id) && EndByCalls(Front(trace), id)
    requires forall other :: other in After(Front(trace)) ==>
               (After(Front(trace))[other].releasedAt.Some? <==> FirstRelease(Front(trace), other).Some?)
    requires FirstRelease(Front(trace), id).Some? ==> FirstRelease(Front(trace), id).value <= Last(trace).now
    ensures EndByCalls(trace, id)
  {
    assert After(trace) == Step(After(Front(trace)), Last(trace));
    if id !in After(Front(trace)) {
      NeverReleasedBefore(Front(trace), id);
    }
  }

  // The holds read off the table's columns are those read off the calls.
  lemma {:induction false} HoldsByCalls(trace: seq<LeaseCall>, id: string, t: int)
    requires ClockMonotone(trace)
    ensures HoldsAt(trace, id, t) <==> Has(trace, id, t)
    ensures RowByCalls(trace, id) && EndByCalls(trace, id)
    decreases |trace|, 0
  {
    if trace != [] {
      FrontMonotone(trace);
      HoldsByCalls(Front(trace), id, t);
      if Last(trace).Acquire? {
        GrantedIffFree(Front(trace), Last(trace));
      }
      HistoryInvariant(Front(trace));
      RowStays(trace, id);
      EndStays(trace, id);
    }
  }

  // Availability off the calls: acquire is granted exactly when it asks for a positive time under a new id and no
  // earlier grant of the lock is within its own ttl and not given back.
  lemma {:induction false} GrantedIffFree(trace: seq<LeaseCall>, call: LeaseCall)
    requires ClockMonotone(trace + [call]) && call.Acquire?
    ensures Answer(After(trace), call).Ok? <==> Free(trace, call)
    decreases |trace|, 1
  {
    assert ClockMonotone(trace) by {
      assert forall i :: 0 <= i < |trace| ==> (trace + [call])[i] == trace[i];
    }
    forall id
      ensures HoldsAt(trace, id, call.now) <==> Has(trace, id, call.now)
      ensures RowByCalls(trace, id)
    {
      HoldsByCalls(trace, id, call.now);
    }
    assert RowByCalls(trace, call.leaseId);
    if call.leaseId !in After(trace) {
      AcquireGrantedIffFree(trace, call);
    }
  }

  function ActiveOn(table: LeaseTable, lock: string): set<string> {
    set id | id in table && Unreleased(table[id], lock)
  }

  // Who is active on each lock after a call: a grant makes the new lease the only one, a refusal changes no row,
  // and a release - of a live lease or of one already swept - takes away its own lease only.
  lemma Handover(table: LeaseTable, call: LeaseCall, lock: string)
    ensures var after := Step(table, call);
            match Answer(table, call)
            case Err(_) => after == table
            case Ok(_) =>
              if call.Release? then
                ActiveOn(after, lock) == ActiveOn(table, lock) - {call.leaseId}
                && (call.leaseId !in ActiveOn(table, table[call.leaseId].lock) ==>
                      ActiveOn(after, lock) == ActiveOn(table, lock))
              else if lock == call.lock then ActiveOn(after, lock) == {call.leaseId}
              else ActiveOn(after, lock) == ActiveOn(table, lock)
  {
    if call.Acquire? && Answer(table, call).Ok? {
      assert forall id :: id in table && Unreleased(table[id], call.lock) ==> table[id].expiresAt <= call.now;
    }
  }

  // --- While a lease is held, others may call too ---

  function AfterFrom(table: LeaseTable, calls: seq<LeaseCall>): LeaseTable {
    Fold(Step, table, calls)
  }

  // The lease most recently granted on the lock by these calls, unless they have released it since.
  function LastGrant(table: LeaseTable, calls: seq<LeaseCall>, lock: string): Option<string> {
    if calls == [] then None
    else
      var call, earlier := Last(calls), LastGrant(table, Front(calls), lock);
      if Answer(AfterFrom(table, Front(calls)), call).Err? then earlier
      else if call.Acquire? then (if call.lock == lock then Some(call.leaseId) else earlier)
      else if earlier == Some(call.leaseId) then None else earlier
  }

  // None of these calls releases the lease, or is granted its lock and so sweeps it.
  predicate LeftAlone(table: LeaseTable, calls: seq<LeaseCall>, lock: string, own: string) {
    forall n :: 0 <= n < |calls| ==>
      Answer(AfterFrom(table, calls[..n]), calls[n]).Err?
      || (if calls[n].Acquire? then calls[n].lock != lock else calls[n].leaseId != own)
  }

  lemma LeftAloneFront(table: LeaseTable, calls: seq<LeaseCall>, lock: string, own: string)
    requires calls != []
    ensures LeftAlone(table, calls, lock, own) <==>
            LeftAlone(table, Front(calls), lock, own)
            && (|| Answer(AfterFrom(table, Front(calls)), Last(calls)).Err?
                || (if Last(calls).Acquire? then Last(calls).lock != lock else Last(calls).leaseId != own))
  {
    assert forall n :: 0 <= n < |calls| - 1 ==> Front(calls)[..n] == calls[..n] && Front(calls)[n] == calls[n];
    assert calls[..|calls| - 1] == Front(calls);
  }

  // Whoever was granted the lock last is alone on it; with nobody, the holder from before is, exactly when it was
  // neither released nor swept meanwhile.
  lemma {:induction false} TakenOver(table: LeaseTable, calls: seq<LeaseCall>, lock: string, own: string)
    requires own in table && ActiveOn(table, lock) <= {own}
    ensures own in AfterFrom(table, calls)
    ensures var active, granted := ActiveOn(AfterFrom(table, calls), lock), LastGrant(table, calls, lock);
            if granted.Some? then active == {granted.value} && granted.value != own
            else active == if LeftAlone(table, calls, lock, own) then ActiveOn(table, lock) else {}
    ensures LeftAlone(table, calls, lock, own) ==> LastGrant(table, calls, lock).None?
  {
    if calls != [] {
      var before, call := AfterFrom(table, Front(calls)), Last(calls);
      TakenOver(table, Front(calls), lock, own);
      LeftAloneFront(table, calls, lock, own);
      Handover(before, call, lock);
      StepKeepsRow(before, call, own);
    }
  }

  // A lease that nobody else releases cannot be taken over before it expires.
  lemma {:induction false} HeldUntilExpiry(table: LeaseTable, calls: seq<LeaseCall>, lock: string, own: string)
    requires own in table && Unreleased(table[own], lock)
    requires forall call :: call in calls ==> call.now < table[own].expiresAt && !(call.Release? && call.leaseId == own)
    ensures var after := AfterFrom(table, calls);
            own in after && Unreleased(after[own], lock) && after[own].expiresAt == table[own].expiresAt
    ensures LastGrant(table, calls, lock).None?
  {
    if calls != [] {
      var before, call := AfterFrom(table, Front(calls)), Last(calls);
      assert call in calls && forall other :: other in Front(calls) ==> other in calls;
      HeldUntilExpiry(table, Front(calls), lock, own);
      if call.Acquire? && call.lock == lock {
        assert Blocked(before, lock, call.now);
      }
    }
  }
}
