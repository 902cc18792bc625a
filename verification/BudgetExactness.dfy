/** When the quarantine table is exactly the set of unknown commands. */
module BudgetExactness {
  import opened Wrappers
  import opened BudgetLedger
  import opened BudgetRecovery
  import opened BudgetRuns
  import opened BudgetSafety

  predicate OwnsQuarantine(s: Ledger, id: Id) {
    id in s.commands && s.commands[id].request.target in s.quarantines
    && s.quarantines[s.commands[id].request.target].commandId == id
  }

  ghost predicate Exact(s: Ledger) {
    forall id :: IsUnknown(s, id) ==> OwnsQuarantine(s, id)
  }

  predicate SameTarget(s: Ledger, a: Id, b: Id) {
    a in s.commands && b in s.commands && s.commands[a].request.target == s.commands[b].request.target
  }

  ghost predicate OneFlight(s: Ledger) {
    forall a, b :: InFlight(s, a) && InFlight(s, b) && SameTarget(s, a, b) ==> a == b
  }

  predicate Quarantined(s: Ledger, id: Id) {
    id in s.commands && s.commands[id].request.target in s.quarantines
  }

  ghost predicate Apart(s: Ledger) {
    forall id :: InFlight(s, id) ==> !Quarantined(s, id)
  }

  predicate IsQueued(s: Ledger, id: Id) {
    id in s.commands && s.commands[id].status == Queued
  }

  /** A command that waits and owns its target's lock row. */
  predicate Waits(s: Ledger, id: Id) {
    IsQueued(s, id) && OwnsLock(s, id)
  }

  /** The four facts about one or two commands: an unknown command owns its quarantine, one
      write in flight per target, none on a quarantined target, and a locked target whose
      command still waits has neither a write in flight nor a quarantine. */
  predicate CleanAt(s: Ledger, a: Id, b: Id) {
    && (IsUnknown(s, a) ==> OwnsQuarantine(s, a))
    && (InFlight(s, a) && InFlight(s, b) && SameTarget(s, a, b) ==> a == b)
    && (InFlight(s, a) || Waits(s, a) ==> !Quarantined(s, a))
    && (Waits(s, a) && InFlight(s, b) ==> !SameTarget(s, a, b))
  }

  ghost predicate Clean(s: Ledger) {
    forall a, b :: CleanAt(s, a, b)
  }

  lemma CleanMeans(s: Ledger)
    requires Clean(s)
    ensures Exact(s) && OneFlight(s) && Apart(s)
  {
    forall id
      ensures IsUnknown(s, id) ==> OwnsQuarantine(s, id)
      ensures InFlight(s, id) ==> !Quarantined(s, id)
    {
      assert CleanAt(s, id, id);
    }
    forall a, b | InFlight(s, a) && InFlight(s, b) && SameTarget(s, a, b)
      ensures a == b
    {
      assert CleanAt(s, a, b);
    }
  }

  /** The discipline of a worker that did not stall: it claims while the lock row is its own. */
  predicate LockedClaim(s: Ledger, c: Call) {
    c.Claim? && IsQueued(s, c.id) ==> OwnsLock(s, c.id)
  }

  ghost predicate Disciplined(calls: seq<Call>) {
    forall i :: 0 <= i < |calls| ==> LockedClaim(Run(calls[..i]).db, calls[i])
  }

  /** Everything a step may need to know about a, b and the command it is called for. */
  predicate CleanAround(s: Ledger, id: Id, a: Id, b: Id) {
    && CleanAt(s, a, b) && CleanAt(s, b, a) && CleanAt(s, a, id) && CleanAt(s, id, a)
    && CleanAt(s, b, id) && CleanAt(s, id, b) && CleanAt(s, id, id)
  }

  lemma CleanHere(s: Ledger, id: Id, a: Id, b: Id)
    requires Clean(s)
    ensures CleanAround(s, id, a, b)
  {
  }

  lemma CreateClean(s: Ledger, id: Id, request: Request, key: Text, requestHash: Text, previewHash: Text, now: Time,
                    a: Id, b: Id)
    requires TablesOk(s) && CleanAround(s, id, a, b)
    ensures CleanAt(CreateOrReplay(s, id, request, key, requestHash, previewHash, now).0, a, b)
  {
  }

  lemma ClaimClean(s: Ledger, id: Id, now: Time, a: Id, b: Id)
    requires TablesOk(s) && CleanAround(s, id, a, b)
    requires IsQueued(s, id) ==> OwnsLock(s, id)
    ensures CleanAt(ClaimQueued(s, id, now).0, a, b)
  {
  }

  lemma FinishClean(s: Ledger, id: Id, report: Report, now: Time, a: Id, b: Id)
    requires TablesOk(s) && CleanAround(s, id, a, b)
    ensures CleanAt(FinishExecution(s, id, report, now).0, a, b)
  {
  }

  lemma ReconcileClean(s: Ledger, id: Id, report: Report, now: Time, a: Id, b: Id)
    requires TablesOk(s) && CleanAround(s, id, a, b)
    ensures CleanAt(RecordReconciliation(s, id, report, now).0, a, b)
  {
  }

  lemma AcquireClean(s: Ledger, id: Id, allow: bool, token: Text, now: Time, a: Id, b: Id)
    requires TablesOk(s) && CleanAround(s, id, a, b)
    ensures CleanAt(AcquireLock(s, id, allow, token, now).0, a, b)
  {
    if id in s.commands && InFlight(s, b) {
      assert OnTarget(s, b, s.commands[b].request.target);
    }
  }

  lemma RenewClean(s: Ledger, id: Id, token: Text, now: Time, a: Id, b: Id)
    requires TablesOk(s) && CleanAround(s, id, a, b)
    ensures CleanAt(RenewLock(s, id, token, now).0, a, b)
  {
  }

  lemma ReleaseClean(s: Ledger, id: Id, token: Text, a: Id, b: Id)
    requires TablesOk(s) && CleanAround(s, id, a, b)
    ensures CleanAt(ReleaseLock(s, id, token), a, b)
  {
  }

  lemma RecoverClean(s: Ledger, order: seq<Id>, now: Time, a: Id, b: Id)
    requires TablesOk(s) && Clean(s) && IsRecoveryOrder(s, order)
    ensures CleanAt(RecoverRows(s, order, now), a, b)
  {
    CleanMeans(s);
    RecoverCommand(s, order, now, a);
    var r := RecoverRows(s, order, now);
    assert !InFlight(r, a);
    if a in s.commands {
      RecoveredQuarantineOwner(s, order, now, a);
      RecoverLock(s, order, now, s.commands[a].request.target);
      if Waits(r, a) {
        assert CleanAt(s, a, a) && Waits(s, a);
        assert forall x :: InFlight(s, x) ==> CleanAt(s, a, x) && !SameTarget(s, a, x);
        RecoverCommand(s, order, now, b);
      }
    }
  }

  /** In a state with one write in flight per target, none on a quarantined target, the recovery
      quarantines exactly the targets of its commands, each for that very command. */
  lemma RecoveredQuarantineOwner(s: Ledger, order: seq<Id>, now: Time, a: Id)
    requires OneFlight(s) && Apart(s) && IsRecoveryOrder(s, order) && a in s.commands
    ensures var r := RecoverRows(s, order, now);
            && (InFlight(s, a) ==> OwnsQuarantine(r, a))
            && (OwnsQuarantine(s, a) ==> OwnsQuarantine(r, a))
            && (Quarantined(r, a) && !Quarantined(s, a) ==> exists b :: InFlight(s, b) && SameTarget(s, a, b))
  {
    var t := s.commands[a].request.target;
    RecoverQuarantine(s, order, now, t);
    RecoverCommand(s, order, now, a);
    var i := FirstOn(s, order, t);
    if i < |order| {
      assert InFlight(s, order[i]) by { assert order[i] in order; }
      assert SameTarget(s, a, order[i]);
    }
    if InFlight(s, a) {
      var k :| 0 <= k < |order| && order[k] == a;
      assert OnTarget(s, order[k], t);
    }
  }

  lemma StepClean(w: World, c: Call)
    requires Inv(w) && Clean(w.db) && LockedClaim(w.db, c)
    ensures Clean(Next(w, c).db)
  {
    forall a, b
      ensures CleanAt(Next(w, c).db, a, b)
    {
      if !c.Recover? {
        CleanHere(w.db, c.id, a, b);
      }
      match c
      case Create(id, request, key, requestHash, previewHash, now) =>
        CreateClean(w.db, id, request, key, requestHash, previewHash, now, a, b);
      case Claim(id, now) => ClaimClean(w.db, id, now, a, b);
      case Finish(id, report, now) => FinishClean(w.db, id, report, now, a, b);
      case Reconcile(id, report, now) => ReconcileClean(w.db, id, report, now, a, b);
      case Acquire(id, allow, token, now) => AcquireClean(w.db, id, allow, token, now, a, b);
      case Renew(id, token, now) => RenewClean(w.db, id, token, now, a, b);
      case Release(id, token) => ReleaseClean(w.db, id, token, a, b);
      case Recover(order, now) =>
        if IsRecoveryOrder(w.db, order) {
          RecoverClean(w.db, order, now, a, b);
        }
    }
  }

  lemma {:induction false} RunClean(calls: seq<Call>)
    requires Disciplined(calls)
    ensures Clean(Run(calls).db)
  {
    if calls != [] {
      var rest := calls[..|calls| - 1];
      forall i | 0 <= i < |rest|
        ensures LockedClaim(Run(rest[..i]).db, rest[i])
      {
        assert rest[..i] == calls[..i];
      }
      RunClean(rest);
      RunKeeps(rest);
      StepClean(Run(rest), calls[|calls| - 1]);
    }
  }

  /** In every run whose claims are made under the claimer's own lock row: a command is unknown
      exactly when it owns its target's quarantine row, at most one command per target is in
      progress, and no target is both quarantined and in progress. */
  lemma QuarantineExactness(calls: seq<Call>, a: Id, b: Id)
    requires Disciplined(calls)
    ensures var s := Run(calls).db;
            && (IsUnknown(s, a) <==> OwnsQuarantine(s, a))
            && (InFlight(s, a) && InFlight(s, b) && SameTarget(s, a, b) ==> a == b)
            && (InFlight(s, a) ==> !Quarantined(s, a))
  {
    RunClean(calls);
    RunKeeps(calls);
    assert CleanAt(Run(calls).db, a, b);
  }

  // ---------- where exactness fails without the discipline ----------

  /** A claim keeps "one write per target, none on a quarantined target" exactly when, at the
      claim, no other command of the target is in progress and the target is not quarantined. */
  lemma ClaimKeepsOneFlightIff(s: Ledger, id: Id, now: Time)
    requires OneFlight(s) && Apart(s) && IsQueued(s, id)
    ensures var r := ClaimQueued(s, id, now).0;
            OneFlight(r) && Apart(r) <==> !TargetInFlight(s, s.commands[id].request.target) && !Quarantined(s, id)
  {
    var r := ClaimQueued(s, id, now).0;
    var t := s.commands[id].request.target;
    assert InFlight(r, id);
    if TargetInFlight(s, t) {
      var other :| OnTarget(s, other, t) && InFlight(s, other);
      assert InFlight(r, other) && SameTarget(r, id, other);
    } else if !Quarantined(s, id) {
      forall a, b | InFlight(r, a) && InFlight(r, b) && SameTarget(r, a, b)
        ensures a == b
      {
        assert a != id ==> InFlight(s, a) && (OnTarget(s, a, t) ==> false);
        assert b != id ==> InFlight(s, b) && (OnTarget(s, b, t) ==> false);
      }
      assert forall x :: InFlight(r, x) && x != id ==> InFlight(s, x);
    }
  }

  /** The offline recovery keeps exactness exactly when no target has two commands in progress
      and none in progress is already quarantined: a target has one quarantine row to give. */
  lemma RecoverKeepsExactIff(s: Ledger, order: seq<Id>, now: Time)
    requires TablesOk(s) && Exact(s) && IsRecoveryOrder(s, order)
    ensures Exact(RecoverRows(s, order, now)) <==> OneFlight(s) && Apart(s)
  {
    var r := RecoverRows(s, order, now);
    RecoverAll(s, order, now);
    if OneFlight(s) && Apart(s) {
      forall id | IsUnknown(r, id)
        ensures OwnsQuarantine(r, id)
      {
        assert !InFlight(s, id) ==> WasLeftAlone(s, r, id);
        assert InFlight(s, id) || OwnsQuarantine(s, id);
        RecoveredQuarantineOwner(s, order, now, id);
      }
    }
    if Exact(r) {
      forall a, b | InFlight(s, a) && InFlight(s, b) && SameTarget(s, a, b)
        ensures a == b
      {
        assert WasRecovered(s, r, a, now) && WasRecovered(s, r, b, now);
        assert OwnsQuarantine(r, a) && OwnsQuarantine(r, b);
      }
      forall a | InFlight(s, a)
        ensures !Quarantined(s, a)
      {
        assert WasRecovered(s, r, a, now);
        assert OwnsQuarantine(r, a);
        RecoverQuarantine(s, order, now, s.commands[a].request.target);
      }
    }
  }
}
