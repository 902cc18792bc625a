/** Safety of the budget ledger over every run. */
module BudgetSafety {
  import opened Wrappers
  import opened BudgetLedger
  import opened BudgetRecovery
  import opened BudgetRuns

  lemma RunAppend(calls: seq<Call>, c: Call)
    ensures Run(calls + [c]) == Next(Run(calls), c)
  {
    assert (calls + [c])[..|calls|] == calls;
  }

  // ---------- the write fence ----------

  /** In every run at most one command per target is past the gate and unsettled,
      and the target's lock row is its own. */
  lemma WriteFence(calls: seq<Call>, a: Id, b: Id)
    requires Fenced(Run(calls), a) && Fenced(Run(calls), b)
    requires Run(calls).db.commands[a].request.target == Run(calls).db.commands[b].request.target
    ensures a == b && OwnsLock(Run(calls).db, a)
  {
    RunKeeps(calls);
  }

  /** The lock token in the command's own row. */
  function OwnToken(s: Ledger, id: Id): Text
    requires OwnsLock(s, id)
  {
    s.locks[s.commands[id].request.target].token
  }

  /** The command still runs and keeps its lock row under the same token, or the call ended it. */
  predicate RowIsStable(s: Ledger, c: Call, r: Ledger, id: Id)
    requires OwnsLock(s, id)
  {
    if InFlight(r, id) then OwnsLock(r, id) && OwnToken(r, id) == OwnToken(s, id)
    else (c.Finish? && c.id == id) || c.Recover?
  }

  lemma AcquireLeavesFlights(s: Ledger, id: Id, allow: bool, token: Text, now: Time, flight: Id)
    requires InFlight(s, flight)
    ensures var r := AcquireLock(s, id, allow, token, now).0; var t := s.commands[flight].request.target;
            && r.commands == s.commands
            && (t in r.locks <==> t in s.locks) && (t in s.locks ==> r.locks[t] == s.locks[t])
  {
    assert OnTarget(s, flight, s.commands[flight].request.target);
  }

  /** The row is the same, and so is what the owner sees of the lock table. */
  predicate SameHold(s: Ledger, r: Ledger, id: Id)
    requires OwnsLock(s, id)
  {
    && id in r.commands && r.commands[id].request == s.commands[id].request
    && (InFlight(r, id) ==> OwnsLock(r, id) && OwnToken(r, id) == OwnToken(s, id))
  }

  lemma SettlingHolds(s: Ledger, c: Id, report: Report, now: Time, id: Id)
    requires InFlight(s, id) && OwnsLock(s, id)
    ensures SameHold(s, FinishExecution(s, c, report, now).0, id)
    ensures !InFlight(FinishExecution(s, c, report, now).0, id) ==> c == id
    ensures SameHold(s, RecordReconciliation(s, c, report, now).0, id)
    ensures InFlight(RecordReconciliation(s, c, report, now).0, id)
  {
    var f, r := FinishExecution(s, c, report, now).0, RecordReconciliation(s, c, report, now).0;
    assert f.locks == s.locks && r.locks == s.locks;
  }

  lemma LockingHolds(s: Ledger, c: Id, allow: bool, token: Text, now: Time, id: Id)
    requires InFlight(s, id) && OwnsLock(s, id)
    ensures SameHold(s, AcquireLock(s, c, allow, token, now).0, id)
    ensures InFlight(AcquireLock(s, c, allow, token, now).0, id)
    ensures SameHold(s, RenewLock(s, c, token, now).0, id) && InFlight(RenewLock(s, c, token, now).0, id)
    ensures SameHold(s, ReleaseLock(s, c, token), id) && InFlight(ReleaseLock(s, c, token), id)
  {
    AcquireLeavesFlights(s, c, allow, token, now, id);
  }

  lemma StartingHolds(s: Ledger, c: Id, request: Request, key: Text, requestHash: Text, previewHash: Text, now: Time,
                      id: Id)
    requires InFlight(s, id) && OwnsLock(s, id)
    ensures var r := CreateOrReplay(s, c, request, key, requestHash, previewHash, now).0;
            SameHold(s, r, id) && InFlight(r, id)
    ensures SameHold(s, ClaimQueued(s, c, now).0, id) && InFlight(ClaimQueued(s, c, now).0, id)
  {
  }

  lemma OwnedRowIsStable(w: World, c: Call, id: Id)
    requires InFlight(w.db, id) && OwnsLock(w.db, id)
    ensures RowIsStable(w.db, c, Next(w, c).db, id)
  {
    match c
    case Create(x, request, key, requestHash, previewHash, now) =>
      StartingHolds(w.db, x, request, key, requestHash, previewHash, now, id);
    case Claim(x, now) => StartingHolds(w.db, x, w.db.commands[id].request, 0, 0, 0, now, id);
    case Finish(x, report, now) => SettlingHolds(w.db, x, report, now, id);
    case Reconcile(x, report, now) => SettlingHolds(w.db, x, report, now, id);
    case Acquire(x, allow, token, now) => LockingHolds(w.db, x, allow, token, now, id);
    case Renew(x, token, now) => LockingHolds(w.db, x, true, token, now, id);
    case Release(x, token) => LockingHolds(w.db, x, true, token, 0, id);
    case Recover(order, now) =>
      if IsRecoveryOrder(w.db, order) {
        RecoverCommand(w.db, order, now, id);
      }
  }

  /** Whatever call comes next in whatever run, a fenced command keeps its lock row under the
      same token until it leaves in_progress, by its own finish or by the offline recovery. */
  lemma FencedRowIsStable(calls: seq<Call>, c: Call, id: Id)
    requires Fenced(Run(calls), id)
    ensures OwnsLock(Run(calls).db, id) && RowIsStable(Run(calls).db, c, Next(Run(calls), c).db, id)
  {
    RunKeeps(calls);
    OwnedRowIsStable(Run(calls), c, id);
  }

  // ---------- at most once ----------

  /** One command per idempotency key and per preview, at most one claim of each command,
      and a completion time exactly in the terminal states. */
  lemma AtMostOnce(calls: seq<Call>, a: Id, b: Id)
    ensures var w := Run(calls);
            && w.claims[a] <= 1
            && (a in w.db.commands ==>
                  (w.db.commands[a].completedAt.Some? <==> IsTerminal(w.db.commands[a].status)))
            && (a in w.db.commands && b in w.db.commands && a != b ==>
                  && w.db.commands[a].previewHash != w.db.commands[b].previewHash
                  && (w.db.commands[a].key == w.db.commands[b].key ==>
                        w.db.commands[a].request.clientId != w.db.commands[b].request.clientId))
  {
    RunKeeps(calls);
    assert Run(calls).claims[a] <= 1;
  }

  /** Submitting a key again changes no table, and answers with the first command
      exactly when the request hash is the same. */
  lemma ReplayIsReadOnly(calls: seq<Call>, first: Id, id: Id, request: Request, requestHash: Text, previewHash: Text,
                         now: Time)
    requires var s := Run(calls).db; first in s.commands && s.commands[first].request.clientId == request.clientId
    ensures var s := Run(calls).db;
            CreateOrReplay(s, id, request, s.commands[first].key, requestHash, previewHash, now) ==
            (s, if s.commands[first].requestHash == requestHash then Ok(Submission(first, true))
                else Err(IdempotencyConflict))
  {
    RunKeeps(calls);
    var s := Run(calls).db;
    assert HasKey(s, first, request.clientId, s.commands[first].key);
  }

  predicate SameCommand(s: Ledger, r: Ledger, id: Id)
    requires id in s.commands
  {
    id in r.commands && r.commands[id] == s.commands[id]
  }

  lemma SettlingLeaves(s: Ledger, c: Id, report: Report, now: Time, id: Id)
    requires id in s.commands && IsTerminal(s.commands[id].status)
    ensures SameCommand(s, FinishExecution(s, c, report, now).0, id)
    ensures SameCommand(s, RecordReconciliation(s, c, report, now).0, id)
  {
  }

  lemma LockingLeaves(s: Ledger, c: Id, allow: bool, token: Text, now: Time, id: Id)
    requires id in s.commands && IsTerminal(s.commands[id].status)
    ensures SameCommand(s, AcquireLock(s, c, allow, token, now).0, id)
    ensures SameCommand(s, RenewLock(s, c, token, now).0, id) && SameCommand(s, ReleaseLock(s, c, token), id)
  {
  }

  lemma TerminalStep(w: World, c: Call, id: Id)
    requires id in w.db.commands && IsTerminal(w.db.commands[id].status)
    ensures SameCommand(w.db, Next(w, c).db, id)
  {
    match c
    case Create(_, _, _, _, _, _) =>
    case Claim(_, _) =>
    case Finish(x, report, now) => SettlingLeaves(w.db, x, report, now, id);
    case Reconcile(x, report, now) => SettlingLeaves(w.db, x, report, now, id);
    case Acquire(x, allow, token, now) => LockingLeaves(w.db, x, allow, token, now, id);
    case Renew(x, token, now) => LockingLeaves(w.db, x, true, token, now, id);
    case Release(x, token) => LockingLeaves(w.db, x, true, token, 0, id);
    case Recover(order, now) =>
      if IsRecoveryOrder(w.db, order) {
        RecoverCommand(w.db, order, now, id);
      }
  }

  /** Applied, conflict and failed are final: the whole row is frozen, however the run goes on. */
  lemma {:induction false} TerminalIsFinal(calls: seq<Call>, more: seq<Call>, id: Id)
    requires id in Run(calls).db.commands && IsTerminal(Run(calls).db.commands[id].status)
    ensures id in Run(calls + more).db.commands
    ensures Run(calls + more).db.commands[id] == Run(calls).db.commands[id]
  {
    if more == [] {
      assert calls + more == calls;
    } else {
      var rest := more[..|more| - 1];
      TerminalIsFinal(calls, rest, id);
      assert calls + more == (calls + rest) + [more[|more| - 1]];
      RunAppend(calls + rest, more[|more| - 1]);
      TerminalStep(Run(calls + rest), more[|more| - 1], id);
    }
  }
}
