/** The store itself: four tables updated in place, each method one transaction.
    Every method is proved to do exactly the ledger step of the same name. */
module BudgetStore {
  import opened Wrappers
  import opened BudgetLedger
  import opened BudgetRuns
  import L = BudgetLedger

  class SqliteProviderBudgetCommandStore {
    var commands: map<Id, Command>
    var attempts: map<Id, seq<Attempt>>
    var locks: map<Target, Lock>
    var quarantines: map<Target, Quarantine>

    ghost function Db(): Ledger
      reads this
    {
      Ledger(commands, attempts, locks, quarantines)
    }

    ghost predicate Valid()
      reads this
    {
      TablesOk(Db())
    }

    constructor ()
      ensures Valid() && Db() == EMPTY
    {
      commands, attempts, locks, quarantines := map[], map[], map[], map[];
    }

    method CreateOrReplay(id: Id, request: Request, key: Text, requestHash: Text, previewHash: Text, now: Time)
      returns (r: Result<Submission, LedgerError>)
      requires Valid()
      modifies this
      ensures Valid()
      ensures (Db(), r) == L.CreateOrReplay(old(Db()), id, request, key, requestHash, previewHash, now)
    {
      CreateTables(Db(), id, request, key, requestHash, previewHash, now);
      if prior :| (prior in commands && commands[prior].request.clientId == request.clientId
                   && commands[prior].key == key) {
        assert HasKey(Db(), prior, request.clientId, key);
        return if commands[prior].requestHash == requestHash then Ok(Submission(prior, true))
          else Err(IdempotencyConflict);
      }
      assert forall other :: !HasKey(Db(), other, request.clientId, key);
      if prior :| prior in commands && commands[prior].previewHash == previewHash {
        assert HasPreview(Db(), prior, previewHash);
        return Err(PreviewConsumed);
      }
      assert forall other :: !HasPreview(Db(), other, previewHash);
      if request.target in quarantines {
        return Err(TargetQuarantined);
      }
      if id in commands {
        return Err(ConstraintViolation);
      }
      commands := commands[id := NewCommand(request, key, requestHash, previewHash, now)];
      return Ok(Submission(id, false));
    }

    method ClaimQueued(id: Id, now: Time) returns (r: Result<Command, LedgerError>)
      requires Valid()
      modifies this
      ensures Valid() && (Db(), r) == L.ClaimQueued(old(Db()), id, now)
    {
      ClaimTables(Db(), id, now);
      r := UpdateQueued(id, now);
    }

    /** UPDATE ... WHERE id=? AND status='queued', and the errors if no row was updated. */
    method UpdateQueued(id: Id, now: Time) returns (r: Result<Command, LedgerError>)
      modifies this`commands
      ensures (Db(), r) == L.ClaimQueued(old(Db()), id, now)
    {
      if id in commands && commands[id].status == Queued {
        var c := commands[id];
        commands := commands[id := c.(status := InProgress, attemptCount := c.attemptCount + 1, updatedAt := now)];
        return Ok(commands[id]);
      }
      return Err(if id !in commands then CommandNotFound else NotExecutable(commands[id].status));
    }

    method InsertAttempt(id: Id, attempt: Attempt) returns (ok: bool)
      modifies this`attempts
      ensures ok == AttemptInsertable(old(Db()), id, attempt)
      ensures Db() == if ok then WithAttempt(old(Db()), id, attempt) else old(Db())
    {
      var earlier := if id in attempts then attempts[id] else [];
      ok := attempt.number > 0 && (IsTerminal(attempt.outcome) || attempt.outcome == Unknown);
      for i := 0 to |earlier|
        invariant ok == (attempt.number > 0 && (IsTerminal(attempt.outcome) || attempt.outcome == Unknown)
                         && forall a :: a in earlier[..i] ==> a.number != attempt.number)
      {
        assert earlier[..i + 1] == earlier[..i] + [earlier[i]];
        if earlier[i].number == attempt.number {
          ok := false;
        }
      }
      assert earlier[..|earlier|] == earlier;
      if ok {
        attempts := attempts[id := earlier + [attempt]];
      }
    }

    method UpsertTargetQuarantine(t: Target, id: Id, now: Time)
      modifies this`quarantines
      ensures Db() == UpsertQuarantine(old(Db()), t, id, now)
    {
      if t !in quarantines {
        quarantines := quarantines[t := Quarantine(id, now, now)];
      } else if quarantines[t].commandId == id {
        quarantines := quarantines[t := quarantines[t].(updatedAt := now)];
      }
    }

    method DeleteTargetQuarantine(t: Target, id: Id)
      modifies this`quarantines
      ensures Db() == DropQuarantine(old(Db()), t, id)
    {
      if t in quarantines && quarantines[t].commandId == id {
        quarantines := quarantines - {t};
      }
    }

    method FinishExecution(id: Id, report: Report, now: Time) returns (r: Result<Command, LedgerError>)
      requires Valid()
      modifies this
      ensures Valid() && (Db(), r) == L.FinishExecution(old(Db()), id, report, now)
    {
      FinishTables(Db(), id, report, now);
      r := WriteOutcome(id, report, now);
    }

    method WriteOutcome(id: Id, report: Report, now: Time) returns (r: Result<Command, LedgerError>)
      modifies this
      ensures (Db(), r) == L.FinishExecution(old(Db()), id, report, now)
    {
      if !IsTerminal(report.status) && report.status != Unknown {
        return Err(InvalidTransition);
      }
      if id !in commands || commands[id].status != InProgress {
        return Err(NotInProgress);
      }
      var row := commands[id];
      var inserted := InsertAttempt(id, report.attempt);
      if !inserted {
        return Err(ConstraintViolation);
      }
      commands := commands[id := Settled(row, report, now)];
      if report.status == Unknown {
        UpsertTargetQuarantine(row.request.target, id, now);
      }
      return Ok(commands[id]);
    }

    method RecordReconciliation(id: Id, report: Report, now: Time) returns (r: Result<Command, LedgerError>)
      requires Valid()
      modifies this
      ensures Valid() && (Db(), r) == L.RecordReconciliation(old(Db()), id, report, now)
    {
      ReconcileTables(Db(), id, report, now);
      r := WriteReconciliation(id, report, now);
    }

    method WriteReconciliation(id: Id, report: Report, now: Time) returns (r: Result<Command, LedgerError>)
      modifies this
      ensures (Db(), r) == L.RecordReconciliation(old(Db()), id, report, now)
    {
      if report.status != Applied && report.status != Conflict && report.status != Unknown {
        return Err(InvalidReconciliation);
      }
      if id !in commands || commands[id].status != Unknown {
        return Err(NotReconcilable);
      }
      var row := commands[id];
      var inserted := InsertAttempt(id, report.attempt);
      if !inserted {
        return Err(ConstraintViolation);
      }
      commands := commands[id := Reconciled(row, report, now)];
      var t := row.request.target;
      if report.status == Unknown {
        UpsertTargetQuarantine(t, id, now);
      } else {
        DeleteTargetQuarantine(t, id);
      }
      return Ok(commands[id]);
    }

    method AcquireTargetLock(id: Id, allowQuarantined: bool, token: Text, now: Time) returns (r: Option<Text>)
      requires Valid()
      modifies this`locks
      ensures Valid() && (Db(), r) == AcquireLock(old(Db()), id, allowQuarantined, token, now)
    {
      LockTables(Db(), id, allowQuarantined, token, now);
      if id !in commands {
        return None;
      }
      var t := commands[id].request.target;
      if t in quarantines && !(allowQuarantined && quarantines[t].commandId == id) {
        return None;
      }
      if flight :| flight in commands && commands[flight].request.target == t && commands[flight].status == InProgress {
        assert OnTarget(Db(), flight, t) && InFlight(Db(), flight);
        return None;
      }
      assert !TargetInFlight(Db(), t);
      if t in locks && locks[t].leaseUntil > now {
        assert OnTarget(Db(), locks[t].commandId, t);
        return None;
      }
      assert t in locks ==> OnTarget(Db(), locks[t].commandId, t) && !InFlight(Db(), locks[t].commandId);
      locks := locks[t := Lock(id, token, now + LEASE_SECONDS, now)];
      return Some(token);
    }

    method RenewTargetLock(id: Id, token: Text, now: Time) returns (ok: bool)
      requires Valid()
      modifies this`locks, this`commands
      ensures Valid() && (Db(), ok) == RenewLock(old(Db()), id, token, now)
    {
      RenewTables(Db(), id, token, now);
      ok := UpdateLease(id, token, now);
    }

    method UpdateLease(id: Id, token: Text, now: Time) returns (ok: bool)
      modifies this`locks, this`commands
      ensures (Db(), ok) == RenewLock(old(Db()), id, token, now)
    {
      ok := false;
      if id in commands && HasRow(id, token) {
        var t := commands[id].request.target;
        if commands[id].status == InProgress && t !in quarantines {
          locks := locks[t := locks[t].(leaseUntil := now + LEASE_SECONDS, updatedAt := now)];
          commands := commands[id := commands[id].(updatedAt := now)];
          ok := true;
        }
      }
    }

    predicate HasRow(id: Id, token: Text)
      requires id in commands
      reads this
    {
      var t := commands[id].request.target;
      t in locks && locks[t].commandId == id && locks[t].token == token
    }

    method ReleaseTargetLock(id: Id, token: Text)
      requires Valid()
      modifies this`locks
      ensures Valid() && Db() == ReleaseLock(old(Db()), id, token)
    {
      LockTables(Db(), id, true, token, 0);
      if id in commands && HasRow(id, token) && commands[id].status != InProgress {
        locks := locks - {commands[id].request.target};
      }
    }

    lemma OldestExists(ids: set<Id>)
      requires ids != {} && ids <= commands.Keys
      ensures exists id :: id in ids && forall other :: other in ids ==>
              commands[id].updatedAt <= commands[other].updatedAt
    {
      var id :| id in ids;
      if ids != {id} {
        OldestExists(ids - {id});
        var least :| least in ids - {id} && forall other :: other in ids - {id} ==>
            commands[least].updatedAt <= commands[other].updatedAt;
        var winner := if commands[id].updatedAt <= commands[least].updatedAt then id else least;
        assert forall other :: other in ids ==> other == id || other in ids - {id};
        assert winner in ids && forall other :: other in ids ==>
            commands[winner].updatedAt <= commands[other].updatedAt;
      }
    }

    /** SELECT ... WHERE status='in_progress' ORDER BY updated_at. */
    method SelectInProgress() returns (order: seq<Id>)
      ensures IsRecoveryOrder(Db(), order)
    {
      order := [];
      var rest := set id | id in commands && commands[id].status == InProgress;
      while rest != {}
        invariant forall id :: id in rest ==> InFlight(Db(), id)
        invariant forall id :: InFlight(Db(), id) <==> id in order || id in rest
        invariant forall i :: 0 <= i < |order| ==> order[i] !in rest && order[i] in commands
        invariant forall i, j :: 0 <= i < j < |order| ==>
                    order[i] != order[j] && commands[order[i]].updatedAt <= commands[order[j]].updatedAt
        invariant forall i, id :: 0 <= i < |order| && id in rest ==>
                  commands[order[i]].updatedAt <= commands[id].updatedAt
        decreases rest
      {
        OldestExists(rest);
        var id :| id in rest && forall other :: other in rest ==> commands[id].updatedAt <= commands[other].updatedAt;
        order, rest := order + [id], rest - {id};
      }
    }

    /** The body of the recovery loop: attempt, command, quarantine and lock row of one command. */
    method RecoverRow(id: Id, now: Time)
      requires id in commands
      modifies this
      ensures Db() == RecoverOne(old(Db()), id, now)
    {
      var row := commands[id];
      var earlier := if id in attempts then attempts[id] else [];
      var number := MaxNumber(earlier) + 1;
      if row.attemptCount > number {
        number := row.attemptCount;
      }
      attempts := attempts[id := earlier + [Attempt(number, row.updatedAt, now, Unknown, Some(INTERRUPTED), false)]];
      commands := commands[id := Interrupted(row, number, now)];
      UpsertTargetQuarantine(row.request.target, id, now);
      locks := LocksWithout(locks, id);
    }

    lemma RecoverNext(s: Ledger, order: seq<Id>, k: nat, now: Time)
      requires k < |order| && forall id :: id in order ==> id in s.commands
      ensures forall id :: id in order[..k + 1] ==> id in s.commands
      ensures order[k] in s.commands
      ensures RecoverRows(s, order[..k + 1], now) == RecoverOne(RecoverRows(s, order[..k], now), order[k], now)
    {
      assert order[..k + 1][..k] == order[..k];
    }

    method RecoverOrder(order: seq<Id>, now: Time)
      requires forall id :: id in order ==> id in commands
      modifies this
      ensures Db() == RecoverRows(old(Db()), order, now)
    {
      var recovered := 0;
      while recovered < |order|
        invariant 0 <= recovered <= |order|
        invariant forall id :: id in order[..recovered] ==> id in old(commands)
        invariant Db() == RecoverRows(old(Db()), order[..recovered], now)
      {
        RecoverNext(old(Db()), order, recovered, now);
        RecoverRow(order[recovered], now);
        recovered := recovered + 1;
      }
      assert order[..recovered] == order;
    }

    method RecoverInterruptedInProgressOffline(allApiInstancesStopped: bool, now: Time)
      returns (r: Result<nat, LedgerError>)
      requires Valid()
      modifies this
      ensures Valid()
      ensures !allApiInstancesStopped ==> r == Err(OfflineProofMissing) && Db() == old(Db())
      ensures allApiInstancesStopped ==> exists order ::
                IsRecoveryOrder(old(Db()), order) && Db() == RecoverRows(old(Db()), order, now) && r == Ok(|order|)
    {
      if !allApiInstancesStopped {
        return Err(OfflineProofMissing);
      }
      var order := SelectInProgress();
      RecoverTables(Db(), order, now);
      assert forall id :: id in order ==> InFlight(Db(), id);
      RecoverOrder(order, now);
      return Ok(|order|);
    }
  }
}
