/** The resumable identity migration: one transaction per manifest row, with a checkpoint row
    in the audit table. SHA-256 is taken as injective: a hash is modelled by what it hashes. */
module IdentityMigration {
  import opened Wrappers

  type Id = nat
  type Text = nat

  datatype Principal = Principal(issuer: Text, subject: Text)
  datatype Row = Row(user: Id, principal: Principal, provenance: Text, validation: Text)
  datatype Manifest = Manifest(runId: Id, operator: Text, rows: seq<Row>)

  datatype Action = Linked | Confirmed
  datatype Audit = Audit(manifest: Manifest, rowHash: (Text, Row), user: Id, principal: Principal, action: Action)

  /** users maps a user to "is active"; audit is keyed by run and row number, from 1. */
  datatype Db = Db(users: map<Id, bool>, principals: map<Id, Principal>, audit: map<(Id, nat), Audit>)

  datatype Outcome = Checked | Applied | Unchanged

  datatype MigrationError =
    | RunManifestConflict | ActiveUserRequired | BindingConflict | CheckpointConflict | DatabaseUnavailable
    | ExistingDatabaseRequired

  // ---------- one row ----------

  ghost predicate RunConflict(s: Db, m: Manifest) {
    exists n: nat :: (m.runId, n) in s.audit && s.audit[(m.runId, n)].manifest != m
  }

  predicate Binds(s: Db, user: Id, row: Row) {
    user in s.principals && (user == row.user || s.principals[user] == row.principal)
  }

  /** The one binding that touches the row is the row's own. */
  ghost predicate Exact(s: Db, row: Row) {
    && row.user in s.principals && s.principals[row.user] == row.principal
    && forall user :: Binds(s, user, row) ==> user == row.user
  }

  ghost predicate AnyBinding(s: Db, row: Row) {
    exists user :: Binds(s, user, row)
  }

  function RowHash(m: Manifest, n: nat): (Text, Row)
    requires 1 <= n <= |m.rows|
  {
    (m.operator, m.rows[n - 1])
  }

  predicate CheckpointFits(a: Audit, m: Manifest, n: nat)
    requires 1 <= n <= |m.rows|
  {
    a.rowHash == RowHash(m, n) && a.user == m.rows[n - 1].user && a.principal == m.rows[n - 1].principal
  }

  /** UNIQUE(run_id, user_id) and UNIQUE(run_id, issuer, subject) of the audit table. */
  ghost predicate AuditTaken(s: Db, run: Id, row: Row) {
    exists n: nat :: (run, n) in s.audit
        && (s.audit[(run, n)].user == row.user || s.audit[(run, n)].principal == row.principal)
  }

  ghost function ProcessRow(s: Db, m: Manifest, n: nat, apply: bool): (Db, Result<(Outcome, bool), MigrationError>)
    requires 1 <= n <= |m.rows|
  {
    var row := m.rows[n - 1];
    if RunConflict(s, m) then (s, Err(RunManifestConflict))
    else if row.user !in s.users || !s.users[row.user] then (s, Err(ActiveUserRequired))
    else if AnyBinding(s, row) && !Exact(s, row) then (s, Err(BindingConflict))
    else if (m.runId, n) in s.audit then
      (s, if CheckpointFits(s.audit[(m.runId, n)], m, n) && Exact(s, row) then Ok((Unchanged, true))
          else Err(CheckpointConflict))
    else if !apply then (s, Ok((if Exact(s, row) then Unchanged else Checked, false)))
    else if AuditTaken(s, m.runId, row) then (s, Err(DatabaseUnavailable))
    else
      (s.(principals := s.principals[row.user := row.principal],
          audit := s.audit[(m.runId, n) :=
            Audit(m, RowHash(m, n), row.user, row.principal, if Exact(s, row) then Confirmed else Linked)]),
       Ok((if Exact(s, row) then Unchanged else Applied, true)))
  }

  // ---------- a run ----------

  datatype Report = Report(checked: nat, applied: nat, same: nat, checkpointRows: nat,
                           failure: Option<(nat, MigrationError)>)

  function CountOutcome(r: Report, outcome: Outcome, checkpointed: bool): Report {
    var c := r.(checkpointRows := r.checkpointRows + if checkpointed then 1 else 0);
    match outcome
    case Checked => c.(checked := c.checked + 1)
    case Applied => c.(applied := c.applied + 1)
    case Unchanged => c.(same := c.same + 1)
  }

  datatype Progress = Progress(db: Db, report: Report)

  const ZERO := Report(0, 0, 0, 0, None)

  /** Row k in a run that is still going; a failed run stays as it is. */
  ghost function Advance(p: Progress, m: Manifest, apply: bool, k: nat): Progress
    requires 1 <= k <= |m.rows|
  {
    if p.report.failure.Some? then p
    else
      var (u, outcome) := ProcessRow(p.db, m, k, apply);
      Progress(u, if outcome.Err? then p.report.(failure := Some((k, outcome.error)))
                  else CountOutcome(p.report, outcome.value.0, outcome.value.1))
  }

  /** Tables and report after the first k rows; the run stops at the first row that fails. */
  ghost function Steps(s: Db, m: Manifest, apply: bool, k: nat): Progress
    requires k <= |m.rows|
  {
    if k == 0 then Progress(s, ZERO) else Advance(Steps(s, m, apply, k - 1), m, apply, k)
  }

  // ---------- bindings are only added, one to one ----------

  ghost predicate OneToOne(s: Db) {
    forall a, b :: a in s.principals && b in s.principals && s.principals[a] == s.principals[b] ==> a == b
  }

  /** Each audit row records the row of its manifest that its number names. */
  ghost predicate AuditOk(s: Db) {
    forall run: Id, n: nat :: (run, n) in s.audit ==>
      var a := s.audit[(run, n)];
      a.manifest.runId == run && 1 <= n <= |a.manifest.rows| && CheckpointFits(a, a.manifest, n)
  }

  ghost predicate OnlyAdds(s: Db, t: Db) {
    && t.users == s.users
    && (forall u :: u in s.principals ==> u in t.principals && t.principals[u] == s.principals[u])
    && (forall key :: key in s.audit ==> key in t.audit && t.audit[key] == s.audit[key])
  }

  /** Any row transaction, of any manifest: nothing is overwritten or removed, and users and
      (issuer, subject) pairs stay one to one. */
  lemma RowOnlyAdds(s: Db, m: Manifest, n: nat, apply: bool)
    requires 1 <= n <= |m.rows| && OneToOne(s) && AuditOk(s)
    ensures var t := ProcessRow(s, m, n, apply).0; OnlyAdds(s, t) && OneToOne(t) && AuditOk(t)
  {
    var row := m.rows[n - 1];
    var t := ProcessRow(s, m, n, apply).0;
    if t != s {
      assert row.user in s.principals ==> Binds(s, row.user, row);
      forall u | u in s.principals && s.principals[u] == row.principal
        ensures u == row.user
      {
        assert Binds(s, u, row);
      }
    }
  }

  /** A whole run of any manifest keeps both. */
  lemma {:induction false} RunOnlyAdds(s: Db, m: Manifest, apply: bool, k: nat)
    requires k <= |m.rows| && OneToOne(s) && AuditOk(s)
    ensures var t := Steps(s, m, apply, k).db; OnlyAdds(s, t) && OneToOne(t) && AuditOk(t)
  {
    if k > 0 {
      RunOnlyAdds(s, m, apply, k - 1);
      RowOnlyAdds(Steps(s, m, apply, k - 1).db, m, k, apply);
    }
  }

  // ---------- crash and resume ----------

  /** Row n has its checkpoint and its binding. */
  ghost predicate Done(s: Db, m: Manifest, n: nat)
    requires 1 <= n <= |m.rows|
  {
    && (m.runId, n) in s.audit && CheckpointFits(s.audit[(m.runId, n)], m, n)
    && Exact(s, m.rows[n - 1])
    && m.rows[n - 1].user in s.users && s.users[m.rows[n - 1].user]
    && !RunConflict(s, m)
  }

  lemma ProcessedIsDone(s: Db, m: Manifest, n: nat)
    requires 1 <= n <= |m.rows| && ProcessRow(s, m, n, true).1.Ok?
    ensures Done(ProcessRow(s, m, n, true).0, m, n)
  {
    var row := m.rows[n - 1];
    var t := ProcessRow(s, m, n, true).0;
    if t != s {
      forall user | Binds(t, user, row)
        ensures user == row.user
      {
        assert user != row.user ==> Binds(s, user, row);
      }
    }
  }

  lemma DoneIsIdle(s: Db, m: Manifest, n: nat)
    requires 1 <= n <= |m.rows| && Done(s, m, n)
    ensures ProcessRow(s, m, n, true) == (s, Ok((Unchanged, true)))
  {
  }

  lemma DoneIsKept(s: Db, m: Manifest, n: nat, i: nat)
    requires 1 <= n <= |m.rows| && 1 <= i <= |m.rows| && Done(s, m, i)
    ensures Done(ProcessRow(s, m, n, true).0, m, i)
  {
    var t := ProcessRow(s, m, n, true).0;
    var row, done := m.rows[n - 1], m.rows[i - 1];
    if t != s {
      assert (m.runId, i) in s.audit;
      assert Binds(s, done.user, row) ==> Exact(s, row);
      forall user | Binds(t, user, done)
        ensures user == done.user
      {
        assert user != row.user ==> Binds(s, user, done);
      }
    }
  }

  lemma {:induction false} RowsAreDone(s: Db, m: Manifest, k: nat, i: nat)
    requires 1 <= i <= k <= |m.rows| && Steps(s, m, true, k).report.failure.None?
    ensures Done(Steps(s, m, true, k).db, m, i)
  {
    var t := Steps(s, m, true, k - 1).db;
    if i < k {
      RowsAreDone(s, m, k - 1, i);
      DoneIsKept(t, m, k, i);
    } else {
      ProcessedIsDone(t, m, k);
    }
  }

  lemma {:induction false} FailureStops(s: Db, m: Manifest, apply: bool, k: nat, j: nat)
    requires k <= j <= |m.rows| && Steps(s, m, apply, k).report.failure.Some?
    ensures Steps(s, m, apply, j) == Steps(s, m, apply, k)
    decreases j
  {
    if k < j {
      FailureStops(s, m, apply, k, j - 1);
    }
  }

  /** A failed run is where it was before the failing row, and that row fails there again. */
  lemma {:induction false} FailurePoint(s: Db, m: Manifest, k: nat)
    requires k <= |m.rows| && Steps(s, m, true, k).report.failure.Some?
    ensures var (n, e) := Steps(s, m, true, k).report.failure.value;
            && 1 <= n <= k
            && Steps(s, m, true, n - 1).report.failure.None?
            && Steps(s, m, true, n - 1).db == Steps(s, m, true, k).db
            && Steps(s, m, true, n - 1).report.applied == Steps(s, m, true, k).report.applied
            && ProcessRow(Steps(s, m, true, n - 1).db, m, n, true) == (Steps(s, m, true, k).db, Err(e))
  {
    if Steps(s, m, true, k - 1).report.failure.Some? {
      FailurePoint(s, m, k - 1);
    }
  }

  /** Rows that are done are idle when the manifest runs again. */
  lemma {:induction false} RedoIsIdle(t: Db, m: Manifest, j: nat)
    requires j <= |m.rows| && forall i :: 1 <= i <= j ==> Done(t, m, i)
    ensures Steps(t, m, true, j) == Progress(t, Report(0, 0, j, j, None))
  {
    if j > 0 {
      RedoIsIdle(t, m, j - 1);
      DoneIsIdle(t, m, j);
    }
  }

  /** The second run has got as far as the uninterrupted one: same tables, same failure, and what
      both parts applied adds up. */
  predicate CaughtUp(applied: nat, whole: Progress, again: Progress) {
    again.db == whole.db && again.report.failure == whole.report.failure
    && applied + again.report.applied == whole.report.applied
  }

  /** Resuming after k clean rows catches up with the uninterrupted run, row by row. */
  lemma {:induction false} ResumeCatchesUp(s: Db, m: Manifest, k: nat, j: nat)
    requires k <= j <= |m.rows| && Steps(s, m, true, k).report.failure.None?
    ensures var t := Steps(s, m, true, k); CaughtUp(t.report.applied, Steps(s, m, true, j), Steps(t.db, m, true, j))
    decreases j
  {
    var t := Steps(s, m, true, k);
    if j == k {
      ResumeIsIdle(s, m, k);
    } else {
      ResumeCatchesUp(s, m, k, j - 1);
      SameNextRow(t.report.applied, Steps(s, m, true, j - 1), Steps(t.db, m, true, j - 1), m, j);
    }
  }

  /** The rows before the interruption are all found done. */
  lemma ResumeIsIdle(s: Db, m: Manifest, k: nat)
    requires k <= |m.rows| && Steps(s, m, true, k).report.failure.None?
    ensures var t := Steps(s, m, true, k).db; Steps(t, m, true, k) == Progress(t, Report(0, 0, k, k, None))
  {
    forall i | 1 <= i <= k
      ensures Done(Steps(s, m, true, k).db, m, i)
    {
      RowsAreDone(s, m, k, i);
    }
    RedoIsIdle(Steps(s, m, true, k).db, m, k);
  }

  lemma SameNextRow(applied: nat, p: Progress, q: Progress, m: Manifest, n: nat)
    requires 1 <= n <= |m.rows| && CaughtUp(applied, p, q)
    ensures CaughtUp(applied, Advance(p, m, true, n), Advance(q, m, true, n))
  {
  }

  /** Stopping after any number k of row transactions and running the same manifest again gives
      the same principals and audit rows, and the same failing row if there is one, as a run
      that was never stopped. */
  lemma CrashAndResume(s: Db, m: Manifest, k: nat)
    requires k <= |m.rows|
    ensures var whole := Steps(s, m, true, |m.rows|);
            var again := Steps(Steps(s, m, true, k).db, m, true, |m.rows|);
            && again.db == whole.db && again.report.failure == whole.report.failure
            && Steps(s, m, true, k).report.applied + again.report.applied == whole.report.applied
  {
    var end := |m.rows|;
    if Steps(s, m, true, k).report.failure.Some? {
      FailurePoint(s, m, k);
      FailureStops(s, m, true, k, end);
      var n := Steps(s, m, true, k).report.failure.value.0;
      ResumeCatchesUp(s, m, n - 1, end);
    } else {
      ResumeCatchesUp(s, m, k, end);
    }
  }

  /** Any number of interruptions, each at any row. */
  ghost function Interrupted(s: Db, m: Manifest, stops: seq<nat>): Db
    requires forall i :: 0 <= i < |stops| ==> stops[i] <= |m.rows|
  {
    if stops == [] then s else Steps(Interrupted(s, m, stops[..|stops| - 1]), m, true, stops[|stops| - 1]).db
  }

  lemma {:induction false} ManyCrashes(s: Db, m: Manifest, stops: seq<nat>)
    requires forall i :: 0 <= i < |stops| ==> stops[i] <= |m.rows|
    ensures Steps(Interrupted(s, m, stops), m, true, |m.rows|).db == Steps(s, m, true, |m.rows|).db
  {
    if stops != [] {
      ManyCrashes(s, m, stops[..|stops| - 1]);
      CrashAndResume(Interrupted(s, m, stops[..|stops| - 1]), m, stops[|stops| - 1]);
    }
  }

  // ---------- a dry run predicts the apply ----------

  /** What validation promises: no user and no principal appears twice. */
  ghost predicate NoDuplicates(m: Manifest) {
    forall i, j :: 0 <= i < j < |m.rows| ==>
      m.rows[i].user != m.rows[j].user && m.rows[i].principal != m.rows[j].principal
  }

  /** t is s plus bindings and checkpoints of the first k rows of m. */
  ghost predicate Ahead(s: Db, t: Db, m: Manifest, k: nat)
    requires k <= |m.rows|
  {
    && t.users == s.users
    && (forall u :: u in s.principals ==> u in t.principals && t.principals[u] == s.principals[u])
    && (forall u :: u in t.principals && u !in s.principals ==>
          exists i :: 0 <= i < k && u == m.rows[i].user && t.principals[u] == m.rows[i].principal)
    && (forall key :: key in s.audit ==> key in t.audit && t.audit[key] == s.audit[key])
    && (forall run: Id, n: nat :: (run, n) in t.audit && (run, n) !in s.audit ==>
          run == m.runId && 1 <= n <= k && t.audit[(run, n)].manifest == m)
  }

  lemma SameBindings(s: Db, t: Db, m: Manifest, n: nat, user: Id)
    requires 1 <= n <= |m.rows| && NoDuplicates(m) && Ahead(s, t, m, n - 1)
    ensures Binds(s, user, m.rows[n - 1]) <==> Binds(t, user, m.rows[n - 1])
  {
  }

  lemma SameConflict(s: Db, t: Db, m: Manifest, k: nat)
    requires k <= |m.rows| && Ahead(s, t, m, k)
    ensures RunConflict(s, m) <==> RunConflict(t, m)
  {
    if RunConflict(s, m) {
      var n: nat :| (m.runId, n) in s.audit && s.audit[(m.runId, n)].manifest != m;
      assert (m.runId, n) in t.audit;
    }
  }

  /** The unique constraints of the audit table are never hit by a valid manifest. */
  lemma AuditIsFree(t: Db, m: Manifest, n: nat)
    requires 1 <= n <= |m.rows| && NoDuplicates(m) && AuditOk(t) && !RunConflict(t, m) && (m.runId, n) !in t.audit
    ensures !AuditTaken(t, m.runId, m.rows[n - 1])
  {
  }

  lemma AheadStep(s: Db, t: Db, m: Manifest, n: nat)
    requires 1 <= n <= |m.rows| && Ahead(s, t, m, n - 1)
    ensures Ahead(s, ProcessRow(t, m, n, true).0, m, n)
  {
    var row := m.rows[n - 1];
    var u := ProcessRow(t, m, n, true).0;
    if u != t {
      assert row.user in t.principals ==> Binds(t, row.user, row);
      assert (m.runId, n) !in t.audit;
      forall x | x in u.principals && x !in s.principals
        ensures exists i :: 0 <= i < n && x == m.rows[i].user && u.principals[x] == m.rows[i].principal
      {
        if x in t.principals {
          var i :| 0 <= i < n - 1 && x == m.rows[i].user && t.principals[x] == m.rows[i].principal;
        }
      }
    }
  }

  /** Row n gets the same verdict in the apply's tables as the dry run saw in the first ones. */
  lemma SameVerdict(s: Db, t: Db, m: Manifest, n: nat)
    requires 1 <= n <= |m.rows| && NoDuplicates(m) && AuditOk(t) && Ahead(s, t, m, n - 1)
    ensures var dry, app := ProcessRow(s, m, n, false).1, ProcessRow(t, m, n, true).1;
            && (dry.Err? || app.Err? ==> dry == app)
            && (dry.Ok? ==> app.value.0 == if dry.value.0 == Checked then Applied else Unchanged)
  {
    var row := m.rows[n - 1];
    SameConflict(s, t, m, n - 1);
    forall user
      ensures Binds(s, user, row) <==> Binds(t, user, row)
    {
      SameBindings(s, t, m, n, user);
    }
    assert Exact(s, row) <==> Exact(t, row) by {
      assert Binds(s, row.user, row) <==> Binds(t, row.user, row);
    }
    assert (m.runId, n) in s.audit <==> (m.runId, n) in t.audit;
    if !RunConflict(t, m) && (m.runId, n) !in t.audit {
      AuditIsFree(t, m, n);
    }
  }

  /** The dry run wrote nothing, and the two reports agree with "checked" read as "applied". */
  ghost predicate Predicts(s: Db, dry: Progress, app: Progress, m: Manifest, k: nat)
    requires k <= |m.rows|
  {
    && dry.db == s
    && dry.report.failure == app.report.failure
    && dry.report.checked == app.report.applied && dry.report.applied == 0 && app.report.checked == 0
    && dry.report.same == app.report.same
    && (app.report.failure.None? ==> Ahead(s, app.db, m, k))
  }

  lemma PredictsNext(s: Db, dry: Progress, app: Progress, m: Manifest, k: nat)
    requires 1 <= k <= |m.rows| && NoDuplicates(m) && AuditOk(app.db)
    requires Predicts(s, dry, app, m, k - 1)
    ensures Predicts(s, Advance(dry, m, false, k), Advance(app, m, true, k), m, k)
  {
    if app.report.failure.None? {
      SameVerdict(s, app.db, m, k);
      AheadStep(s, app.db, m, k);
    }
  }

  /** With nobody else writing, a dry run foretells the apply of a valid manifest: it writes
      nothing, the apply stops at the same row with the same error or not at all, applies what
      the dry run had checked and finds the same rows unchanged. */
  lemma {:induction false} DryRunPredictsApply(s: Db, m: Manifest, k: nat)
    requires k <= |m.rows| && NoDuplicates(m) && OneToOne(s) && AuditOk(s)
    ensures Predicts(s, Steps(s, m, false, k), Steps(s, m, true, k), m, k)
  {
    if k > 0 {
      DryRunPredictsApply(s, m, k - 1);
      RunOnlyAdds(s, m, true, k - 1);
      PredictsNext(s, Steps(s, m, false, k - 1), Steps(s, m, true, k - 1), m, k);
    }
  }
}
