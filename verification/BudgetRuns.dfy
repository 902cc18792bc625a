/** Runs of the budget ledger: any number of workers and the recovery operator interleave
    store calls in any order, with any arguments, clock readings and lease expiries. */
module BudgetRuns {
  import opened Wrappers
  import opened BudgetLedger
  import opened BudgetRecovery

  datatype Call =
    | Create(id: Id, request: Request, key: Text, requestHash: Text, previewHash: Text, now: Time)
    | Claim(id: Id, now: Time)
    | Finish(id: Id, report: Report, now: Time)
    | Reconcile(id: Id, report: Report, now: Time)
    | Acquire(id: Id, allowQuarantined: bool, token: Text, now: Time)
    | Renew(id: Id, token: Text, now: Time)
    | Release(id: Id, token: Text)
    | Recover(order: seq<Id>, now: Time)

  /** The tables, and two facts about the past: which commands passed a renewal
      (the gate before the provider write) and how often each was claimed. */
  datatype World = World(db: Ledger, renewed: set<Id>, claims: multiset<Id>)

  const START := World(EMPTY, {}, multiset{})

  ghost function Next(w: World, c: Call): World {
    match c
    case Create(id, request, key, requestHash, previewHash, now) =>
      w.(db := CreateOrReplay(w.db, id, request, key, requestHash, previewHash, now).0)
    case Claim(id, now) =>
      var (db, r) := ClaimQueued(w.db, id, now);
      w.(db := db, claims := if r.Ok? then w.claims + multiset{id} else w.claims)
    case Finish(id, report, now) => w.(db := FinishExecution(w.db, id, report, now).0)
    case Reconcile(id, report, now) => w.(db := RecordReconciliation(w.db, id, report, now).0)
    case Acquire(id, allow, token, now) => w.(db := AcquireLock(w.db, id, allow, token, now).0)
    case Renew(id, token, now) =>
      var (db, ok) := RenewLock(w.db, id, token, now);
      w.(db := db, renewed := if ok then w.renewed + {id} else w.renewed)
    case Release(id, token) => w.(db := ReleaseLock(w.db, id, token))
    case Recover(order, now) =>
      if IsRecoveryOrder(w.db, order) then w.(db := RecoverRows(w.db, order, now)) else w
  }

  ghost function Run(calls: seq<Call>): World {
    if calls == [] then START else Next(Run(calls[..|calls| - 1]), calls[|calls| - 1])
  }

  // ---------- the invariant of every run ----------

  /** Rows refer to existing commands of their own target. */
  ghost predicate Linked(s: Ledger) {
    && (forall t :: t in s.locks ==> OnTarget(s, s.locks[t].commandId, t))
    && (forall t :: t in s.quarantines ==> OnTarget(s, s.quarantines[t].commandId, t))
  }

  type Commands = map<Id, Command>

  /** One command per (client, idempotency key), and one per preview. */
  ghost predicate UniqueKeys(commands: Commands) {
    forall a, b :: a in commands && b in commands && a != b ==>
      && (commands[a].request.clientId != commands[b].request.clientId || commands[a].key != commands[b].key)
      && commands[a].previewHash != commands[b].previewHash
  }

  /** The immutable columns: no step but a creation changes them. */
  predicate SameIdentity(c: Command, d: Command) {
    c.request == d.request && c.key == d.key && c.requestHash == d.requestHash
    && c.previewHash == d.previewHash && c.createdAt == d.createdAt
  }

  ghost predicate SameIdentities(s: Commands, r: Commands) {
    && s.Keys == r.Keys
    && forall id :: id in s ==> SameIdentity(s[id], r[id])
  }

  ghost predicate Completed(commands: Commands) {
    forall id :: id in commands ==> (commands[id].completedAt.Some? <==> IsTerminal(commands[id].status))
  }

  ghost predicate QuarantinesAreUnknown(s: Ledger) {
    forall t :: t in s.quarantines ==> IsUnknown(s, s.quarantines[t].commandId)
  }

  predicate Started(s: Ledger, id: Id) {
    id in s.commands && s.commands[id].status != Queued
  }

  ghost predicate ClaimsCounted(w: World) {
    forall id :: w.claims[id] == if Started(w.db, id) then 1 else 0
  }

  /** Past the gate and not yet settled: the provider write of this command may be under way. */
  predicate Fenced(w: World, id: Id) {
    id in w.renewed && InFlight(w.db, id)
  }

  predicate OwnsLock(s: Ledger, id: Id) {
    id in s.commands && s.commands[id].request.target in s.locks
    && s.locks[s.commands[id].request.target].commandId == id
  }

  ghost predicate Fence(w: World) {
    && (forall id :: id in w.renewed ==> Started(w.db, id))
    && (forall id :: Fenced(w, id) ==> OwnsLock(w.db, id))
  }

  ghost predicate TablesOk(s: Ledger) {
    Linked(s) && UniqueKeys(s.commands) && Completed(s.commands) && QuarantinesAreUnknown(s)
  }

  ghost predicate Inv(w: World) {
    TablesOk(w.db) && ClaimsCounted(w) && Fence(w)
  }

  lemma UniqueKept(s: Commands, r: Commands)
    requires UniqueKeys(s) && SameIdentities(s, r)
    ensures UniqueKeys(r)
  {
  }

  lemma UniqueGrows(s: Commands, id: Id, c: Command)
    requires UniqueKeys(s) && id !in s
    requires forall a :: a in s ==>
               && (s[a].request.clientId != c.request.clientId || s[a].key != c.key)
               && s[a].previewHash != c.previewHash
    ensures UniqueKeys(s[id := c])
  {
  }

  lemma NewRowTables(s: Ledger, id: Id, c: Command)
    requires TablesOk(s) && id !in s.commands && UniqueKeys(s.commands[id := c])
    requires c.completedAt.None? && c.status == Queued
    ensures TablesOk(s.(commands := s.commands[id := c]))
  {
  }

  lemma CreateTables(s: Ledger, id: Id, request: Request, key: Text, requestHash: Text, previewHash: Text, now: Time)
    requires TablesOk(s)
    ensures TablesOk(CreateOrReplay(s, id, request, key, requestHash, previewHash, now).0)
  {
    if CreateOrReplay(s, id, request, key, requestHash, previewHash, now).0 != s {
      forall a | a in s.commands
        ensures !HasKey(s, a, request.clientId, key) && !HasPreview(s, a, previewHash)
      {
      }
      var c := NewCommand(request, key, requestHash, previewHash, now);
      UniqueGrows(s.commands, id, c);
      NewRowTables(s, id, c);
    }
  }

  /** Rewriting the mutable columns of one command row. */
  lemma RowUpdateKeeps(s: Ledger, r: Ledger, id: Id, c: Command)
    requires TablesOk(s) && id in s.commands && SameIdentity(s.commands[id], c)
    requires c.completedAt.Some? <==> IsTerminal(c.status)
    requires r.commands == s.commands[id := c] && r.locks == s.locks && r.quarantines == s.quarantines
    requires c.status != Unknown ==> forall t :: t in s.quarantines ==> s.quarantines[t].commandId != id
    ensures TablesOk(r) && SameIdentities(s.commands, r.commands)
  {
    assert SameIdentities(s.commands, r.commands);
    UniqueKept(s.commands, r.commands);
  }

  lemma UpsertKeeps(s: Ledger, t: Target, id: Id, now: Time)
    requires TablesOk(s) && OnTarget(s, id, t) && IsUnknown(s, id)
    ensures TablesOk(UpsertQuarantine(s, t, id, now))
    ensures UpsertQuarantine(s, t, id, now).commands == s.commands
  {
  }

  lemma DropKeeps(s: Ledger, t: Target, id: Id)
    requires TablesOk(s) && OnTarget(s, id, t)
    ensures var r := DropQuarantine(s, t, id);
            TablesOk(r) && r.commands == s.commands && forall u :: u in r.quarantines ==>
                r.quarantines[u].commandId != id
  {
  }

  lemma ClaimTables(s: Ledger, id: Id, now: Time)
    requires TablesOk(s)
    ensures TablesOk(ClaimQueued(s, id, now).0) && SameIdentities(s.commands, ClaimQueued(s, id, now).0.commands)
  {
    var (r, claimed) := ClaimQueued(s, id, now);
    if claimed.Ok? {
      RowUpdateKeeps(s, r, id, claimed.value);
    }
  }

  lemma FinishTables(s: Ledger, id: Id, report: Report, now: Time)
    requires TablesOk(s)
    ensures TablesOk(FinishExecution(s, id, report, now).0)
            && SameIdentities(s.commands, FinishExecution(s, id, report, now).0.commands)
  {
    var (r, done) := FinishExecution(s, id, report, now);
    if done.Ok? {
      var settled := WithAttempt(s, id, report.attempt).(commands := s.commands[id := done.value]);
      RowUpdateKeeps(s, settled, id, done.value);
      if report.status == Unknown {
        UpsertKeeps(settled, s.commands[id].request.target, id, now);
      }
    }
  }

  lemma ReconcileTables(s: Ledger, id: Id, report: Report, now: Time)
    requires TablesOk(s)
    ensures var r := RecordReconciliation(s, id, report, now).0;
            TablesOk(r) && SameIdentities(s.commands, r.commands)
  {
    var (r, done) := RecordReconciliation(s, id, report, now);
    if done.Ok? {
      if report.status == Unknown {
        StillUnknownTables(s, id, report, now);
      } else {
        ResolvedTables(s, id, report, now);
      }
    }
  }

  lemma StillUnknownTables(s: Ledger, id: Id, report: Report, now: Time)
    requires TablesOk(s) && IsUnknown(s, id) && report.status == Unknown
    ensures var c := s.commands[id];
            var after := WithAttempt(s, id, report.attempt).(commands := s.commands[id := Reconciled(c, report, now)]);
            var r := UpsertQuarantine(after, c.request.target, id, now);
            TablesOk(r) && SameIdentities(s.commands, r.commands)
  {
    var c := s.commands[id];
    var after := WithAttempt(s, id, report.attempt).(commands := s.commands[id := Reconciled(c, report, now)]);
    RowUpdateKeeps(s, after, id, Reconciled(c, report, now));
    UpsertKeeps(after, c.request.target, id, now);
  }

  lemma ResolvedTables(s: Ledger, id: Id, report: Report, now: Time)
    requires TablesOk(s) && IsUnknown(s, id) && IsTerminal(report.status)
    ensures var c := s.commands[id];
            var after := WithAttempt(s, id, report.attempt).(commands := s.commands[id := Reconciled(c, report, now)]);
            var r := DropQuarantine(after, c.request.target, id);
            TablesOk(r) && SameIdentities(s.commands, r.commands)
  {
    var c := s.commands[id];
    var after := WithAttempt(s, id, report.attempt).(commands := s.commands[id := Reconciled(c, report, now)]);
    var r := DropQuarantine(after, c.request.target, id);
    var dropped := DropQuarantine(s, c.request.target, id);
    DropKeeps(s, c.request.target, id);
    RowUpdateKeeps(dropped, r, id, Reconciled(c, report, now));
  }

  lemma LockTables(s: Ledger, id: Id, allow: bool, token: Text, now: Time)
    requires TablesOk(s)
    ensures TablesOk(AcquireLock(s, id, allow, token, now).0)
    ensures TablesOk(ReleaseLock(s, id, token))
  {
  }

  lemma RenewTables(s: Ledger, id: Id, token: Text, now: Time)
    requires TablesOk(s)
    ensures TablesOk(RenewLock(s, id, token, now).0)
            && SameIdentities(s.commands, RenewLock(s, id, token, now).0.commands)
  {
    var (r, ok) := RenewLock(s, id, token, now);
    if ok {
      assert TablesOk(s.(locks := r.locks));
      RowUpdateKeeps(s.(locks := r.locks), r, id, r.commands[id]);
    }
  }

  lemma RecoverTables(s: Ledger, order: seq<Id>, now: Time)
    requires TablesOk(s) && IsRecoveryOrder(s, order)
    ensures TablesOk(RecoverRows(s, order, now)) && SameIdentities(s.commands, RecoverRows(s, order, now).commands)
  {
    var r := RecoverRows(s, order, now);
    RecoverAll(s, order, now);
    forall id | id in s.commands
      ensures SameIdentity(s.commands[id], r.commands[id])
      ensures r.commands[id].completedAt.Some? <==> IsTerminal(r.commands[id].status)
    {
      assert InFlight(s, id) ==> WasRecovered(s, r, id, now);
      assert !InFlight(s, id) ==> WasLeftAlone(s, r, id);
    }
    UniqueKept(s.commands, r.commands);
    RecoverLinks(s, order, now);
  }

  lemma RecoverLinks(s: Ledger, order: seq<Id>, now: Time)
    requires Linked(s) && QuarantinesAreUnknown(s) && IsRecoveryOrder(s, order)
    ensures Linked(RecoverRows(s, order, now)) && QuarantinesAreUnknown(RecoverRows(s, order, now))
  {
    var r := RecoverRows(s, order, now);
    forall t | t in r.quarantines
      ensures OnTarget(r, r.quarantines[t].commandId, t) && IsUnknown(r, r.quarantines[t].commandId)
    {
      RecoverQuarantine(s, order, now, t);
      RecoverCommand(s, order, now, r.quarantines[t].commandId);
    }
    forall t | t in r.locks
      ensures OnTarget(r, r.locks[t].commandId, t)
    {
      RecoverLock(s, order, now, t);
      RecoverCommand(s, order, now, r.locks[t].commandId);
    }
  }

  // ---------- the history part of the invariant ----------

  /** No step but a claim puts a command in progress, and nothing returns to the queue. */
  ghost predicate NoNewStart(s: Ledger, r: Ledger) {
    forall id :: (Started(s, id) <==> Started(r, id)) && (InFlight(r, id) ==> InFlight(s, id))
  }

  ghost predicate LocksOfFlightsKept(s: Ledger, r: Ledger) {
    forall id :: InFlight(r, id) && OwnsLock(s, id) ==> OwnsLock(r, id)
  }

  lemma HistoryKept(w: World, r: Ledger)
    requires ClaimsCounted(w) && Fence(w)
    requires NoNewStart(w.db, r) && LocksOfFlightsKept(w.db, r)
    ensures ClaimsCounted(w.(db := r)) && Fence(w.(db := r))
  {
    forall id | Fenced(w.(db := r), id)
      ensures OwnsLock(r, id)
    {
      assert Fenced(w, id);
    }
  }

  lemma CreateHistory(s: Ledger, id: Id, request: Request, key: Text, requestHash: Text, previewHash: Text, now: Time)
    ensures var r := CreateOrReplay(s, id, request, key, requestHash, previewHash, now).0;
            NoNewStart(s, r) && LocksOfFlightsKept(s, r)
  {
  }

  lemma FinishHistory(s: Ledger, id: Id, report: Report, now: Time)
    ensures var r := FinishExecution(s, id, report, now).0; NoNewStart(s, r) && LocksOfFlightsKept(s, r)
  {
  }

  lemma ReconcileHistory(s: Ledger, id: Id, report: Report, now: Time)
    ensures var r := RecordReconciliation(s, id, report, now).0; NoNewStart(s, r) && LocksOfFlightsKept(s, r)
  {
  }

  lemma AcquireHistory(s: Ledger, id: Id, allow: bool, token: Text, now: Time)
    ensures var r := AcquireLock(s, id, allow, token, now).0; NoNewStart(s, r) && LocksOfFlightsKept(s, r)
  {
    var r := AcquireLock(s, id, allow, token, now).0;
    forall other | InFlight(r, other) && OwnsLock(s, other)
      ensures OwnsLock(r, other)
    {
      assert OnTarget(s, other, s.commands[other].request.target);
    }
  }

  lemma RenewHistory(s: Ledger, id: Id, token: Text, now: Time)
    ensures var r := RenewLock(s, id, token, now).0; NoNewStart(s, r) && LocksOfFlightsKept(s, r)
  {
  }

  lemma ReleaseHistory(s: Ledger, id: Id, token: Text)
    ensures var r := ReleaseLock(s, id, token); NoNewStart(s, r) && LocksOfFlightsKept(s, r)
  {
  }

  lemma RecoverHistory(s: Ledger, order: seq<Id>, now: Time)
    requires IsRecoveryOrder(s, order)
    ensures var r := RecoverRows(s, order, now); NoNewStart(s, r) && LocksOfFlightsKept(s, r)
  {
    RecoverAll(s, order, now);
    var r := RecoverRows(s, order, now);
    forall id
      ensures (Started(s, id) <==> Started(r, id)) && !InFlight(r, id)
    {
      assert InFlight(s, id) ==> WasRecovered(s, r, id, now);
      assert !InFlight(s, id) ==> WasLeftAlone(s, r, id);
    }
  }

  lemma ClaimHistory(w: World, id: Id, now: Time)
    requires ClaimsCounted(w) && Fence(w)
    ensures ClaimsCounted(Next(w, Claim(id, now))) && Fence(Next(w, Claim(id, now)))
  {
    var (r, claimed) := ClaimQueued(w.db, id, now);
    if claimed.Ok? {
      var v := World(r, w.renewed, w.claims + multiset{id});
      forall other
        ensures v.claims[other] == if Started(r, other) then 1 else 0
        ensures Fenced(v, other) ==> OwnsLock(r, other)
      {
        assert Fenced(v, other) ==> Fenced(w, other);
      }
    }
  }

  lemma CreateKeeps(w: World, id: Id, request: Request, key: Text, requestHash: Text, previewHash: Text, now: Time)
    requires Inv(w)
    ensures Inv(w.(db := CreateOrReplay(w.db, id, request, key, requestHash, previewHash, now).0))
  {
    CreateTables(w.db, id, request, key, requestHash, previewHash, now);
    CreateHistory(w.db, id, request, key, requestHash, previewHash, now);
    HistoryKept(w, CreateOrReplay(w.db, id, request, key, requestHash, previewHash, now).0);
  }

  lemma FinishKeeps(w: World, id: Id, report: Report, now: Time)
    requires Inv(w)
    ensures Inv(w.(db := FinishExecution(w.db, id, report, now).0))
  {
    FinishTables(w.db, id, report, now);
    FinishHistory(w.db, id, report, now);
    HistoryKept(w, FinishExecution(w.db, id, report, now).0);
  }

  lemma ReconcileKeeps(w: World, id: Id, report: Report, now: Time)
    requires Inv(w)
    ensures Inv(w.(db := RecordReconciliation(w.db, id, report, now).0))
  {
    ReconcileTables(w.db, id, report, now);
    ReconcileHistory(w.db, id, report, now);
    HistoryKept(w, RecordReconciliation(w.db, id, report, now).0);
  }

  lemma AcquireKeeps(w: World, id: Id, allow: bool, token: Text, now: Time)
    requires Inv(w)
    ensures Inv(w.(db := AcquireLock(w.db, id, allow, token, now).0))
  {
    LockTables(w.db, id, allow, token, now);
    AcquireHistory(w.db, id, allow, token, now);
    HistoryKept(w, AcquireLock(w.db, id, allow, token, now).0);
  }

  /** A successful renewal passes the gate: the command is in progress and owns the lock row. */
  lemma RenewKeeps(w: World, id: Id, token: Text, now: Time)
    requires Inv(w)
    ensures Inv(Next(w, Renew(id, token, now)))
  {
    var (r, ok) := RenewLock(w.db, id, token, now);
    RenewTables(w.db, id, token, now);
    RenewHistory(w.db, id, token, now);
    HistoryKept(w, r);
    if ok {
      GatePassed(w.(db := r), id);
    }
  }

  lemma GatePassed(w: World, id: Id)
    requires ClaimsCounted(w) && Fence(w) && InFlight(w.db, id) && OwnsLock(w.db, id)
    ensures var v := w.(renewed := w.renewed + {id}); ClaimsCounted(v) && Fence(v)
  {
    var v := w.(renewed := w.renewed + {id});
    forall other | Fenced(v, other)
      ensures OwnsLock(v.db, other)
    {
      assert other != id ==> Fenced(w, other);
    }
  }

  lemma ReleaseKeeps(w: World, id: Id, token: Text)
    requires Inv(w)
    ensures Inv(w.(db := ReleaseLock(w.db, id, token)))
  {
    LockTables(w.db, id, true, token, 0);
    ReleaseHistory(w.db, id, token);
    HistoryKept(w, ReleaseLock(w.db, id, token));
  }

  lemma RecoverKeeps(w: World, order: seq<Id>, now: Time)
    requires Inv(w) && IsRecoveryOrder(w.db, order)
    ensures Inv(w.(db := RecoverRows(w.db, order, now)))
  {
    RecoverTables(w.db, order, now);
    RecoverHistory(w.db, order, now);
    HistoryKept(w, RecoverRows(w.db, order, now));
  }

  lemma StepKeeps(w: World, c: Call)
    requires Inv(w)
    ensures Inv(Next(w, c))
  {
    match c
    case Create(id, request, key, requestHash, previewHash, now) =>
      CreateKeeps(w, id, request, key, requestHash, previewHash, now);
    case Claim(id, now) =>
      ClaimTables(w.db, id, now);
      ClaimHistory(w, id, now);
    case Finish(id, report, now) => FinishKeeps(w, id, report, now);
    case Reconcile(id, report, now) => ReconcileKeeps(w, id, report, now);
    case Acquire(id, allow, token, now) => AcquireKeeps(w, id, allow, token, now);
    case Renew(id, token, now) => RenewKeeps(w, id, token, now);
    case Release(id, token) => ReleaseKeeps(w, id, token);
    case Recover(order, now) =>
      if IsRecoveryOrder(w.db, order) {
        RecoverKeeps(w, order, now);
      }
  }

  /** Every state of every run satisfies the invariant. */
  lemma {:induction false} RunKeeps(calls: seq<Call>)
    ensures Inv(Run(calls))
  {
    if calls != [] {
      RunKeeps(calls[..|calls| - 1]);
      StepKeeps(Run(calls[..|calls| - 1]), calls[|calls| - 1]);
    }
  }
}
