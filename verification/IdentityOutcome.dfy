/** When a migration succeeds, and what is there afterwards. */
module IdentityOutcome {
  import opened Wrappers
  import opened IdentityMigration

  /** The row's user is active, and whatever is bound to the user or to the principal is this binding. */
  ghost predicate Bindable(s: Db, row: Row) {
    && row.user in s.users && s.users[row.user]
    && (forall u :: u in s.principals ==> (u == row.user <==> s.principals[u] == row.principal))
  }

  /** All that can be asked of the tables for row n: the run belongs to this manifest, the row can be
      bound, and if it has a checkpoint, it still is bound. */
  ghost predicate RowReady(s: Db, m: Manifest, n: nat)
    requires 1 <= n <= |m.rows|
  {
    && Bindable(s, m.rows[n - 1])
    && ((m.runId, n) in s.audit ==> m.rows[n - 1].user in s.principals)
  }

  lemma BindableIff(s: Db, row: Row)
    ensures (forall u :: u in s.principals ==> (u == row.user <==> s.principals[u] == row.principal))
            <==> (AnyBinding(s, row) ==> Exact(s, row))
    ensures Exact(s, row) ==> row.user in s.principals
  {
    if AnyBinding(s, row) && Exact(s, row) {
      assert forall u :: u in s.principals && (u == row.user || s.principals[u] == row.principal) ==> Binds(s, u, row);
    }
    if !AnyBinding(s, row) {
      assert forall u :: u in s.principals ==> !Binds(s, u, row);
    }
    if (forall u :: u in s.principals ==> (u == row.user <==> s.principals[u] == row.principal)) && AnyBinding(s, row) {
      var u :| Binds(s, u, row);
      assert u == row.user;
    }
  }

  lemma CheckedIff(s: Db, m: Manifest, n: nat)
    requires 1 <= n <= |m.rows| && AuditOk(s) && !RunConflict(s, m)
    ensures ProcessRow(s, m, n, false).1.Ok? <==> RowReady(s, m, n)
  {
    var row := m.rows[n - 1];
    BindableIff(s, row);
    if (m.runId, n) in s.audit {
      assert s.audit[(m.runId, n)].manifest == m;
      if row.user in s.principals && Bindable(s, row) {
        assert Binds(s, row.user, row);
      }
    }
  }

  /** The first rows of a dry run all pass exactly when each of them is ready. */
  lemma {:induction false} DryPassesIff(s: Db, m: Manifest, k: nat)
    requires k <= |m.rows| && NoDuplicates(m) && OneToOne(s) && AuditOk(s) && !RunConflict(s, m)
    ensures Steps(s, m, false, k).report.failure.None? <==> forall n :: 1 <= n <= k ==> RowReady(s, m, n)
  {
    if k > 0 {
      DryPassesIff(s, m, k - 1);
      DryRunPredictsApply(s, m, k - 1);
      DryNextIff(s, m, Steps(s, m, false, k - 1), k);
      assert Steps(s, m, false, k) == Advance(Steps(s, m, false, k - 1), m, false, k);
    }
  }

  lemma DryNextIff(s: Db, m: Manifest, before: Progress, k: nat)
    requires 1 <= k <= |m.rows| && AuditOk(s) && !RunConflict(s, m) && before.db == s
    ensures Advance(before, m, false, k).report.failure.None? <==> before.report.failure.None? && RowReady(s, m, k)
  {
    CheckedIff(s, m, k);
  }

  lemma ConflictFails(s: Db, m: Manifest, k: nat)
    requires 1 <= k <= |m.rows| && RunConflict(s, m)
    ensures Steps(s, m, true, k).report.failure.Some?
  {
    assert Steps(s, m, true, 0) == Progress(s, ZERO);
    assert Steps(s, m, true, 1) == Advance(Steps(s, m, true, 0), m, true, 1);
    FailureStops(s, m, true, 1, k);
  }

  /** An apply of a valid manifest succeeds exactly when the run's checkpoints are of this manifest, every
      user is active, no binding of a listed user or principal is another one, and no checkpointed
      binding is missing. */
  lemma ApplySucceedsIff(s: Db, m: Manifest)
    requires m.rows != [] && NoDuplicates(m) && OneToOne(s) && AuditOk(s)
    ensures Steps(s, m, true, |m.rows|).report.failure.None? <==>
              && (forall n: nat :: (m.runId, n) in s.audit ==> s.audit[(m.runId, n)].manifest == m)
              && (forall n :: 1 <= n <= |m.rows| ==> RowReady(s, m, n))
  {
    if RunConflict(s, m) {
      ConflictFails(s, m, |m.rows|);
    } else {
      DryPassesIff(s, m, |m.rows|);
      DryRunPredictsApply(s, m, |m.rows|);
    }
  }

  /** Afterwards every row of the manifest is bound and checkpointed, and nothing else has come in. */
  lemma AppliedIsBound(s: Db, m: Manifest, n: nat, u: Id)
    requires NoDuplicates(m) && OneToOne(s) && AuditOk(s) && 1 <= n <= |m.rows|
    requires Steps(s, m, true, |m.rows|).report.failure.None?
    ensures var t := Steps(s, m, true, |m.rows|).db; var row := m.rows[n - 1];
            && row.user in t.principals && t.principals[row.user] == row.principal && (m.runId, n) in t.audit
            && (u in s.principals ==> u in t.principals && t.principals[u] == s.principals[u])
            && (u in t.principals && u !in s.principals ==>
                  exists i :: 0 <= i < |m.rows| && u == m.rows[i].user && t.principals[u] == m.rows[i].principal)
            && t.users == s.users
  {
    RowsAreDone(s, m, |m.rows|, n);
    DryRunPredictsApply(s, m, |m.rows|);
  }

  /** How many of the first k rows were bound before. */
  ghost function BoundBefore(s: Db, m: Manifest, k: nat): nat
    requires k <= |m.rows|
  {
    if k == 0 then 0 else BoundBefore(s, m, k - 1) + if m.rows[k - 1].user in s.principals then 1 else 0
  }

  lemma VerdictTells(s: Db, m: Manifest, n: nat)
    requires 1 <= n <= |m.rows| && AuditOk(s) && ProcessRow(s, m, n, false).1.Ok?
    ensures var (outcome, checkpointed) := ProcessRow(s, m, n, false).1.value;
            && outcome == (if m.rows[n - 1].user in s.principals then Unchanged else Checked)
            && (checkpointed <==> (m.runId, n) in s.audit)
  {
    var row := m.rows[n - 1];
    if row.user in s.principals {
      assert Binds(s, row.user, row);
    }
  }

  predicate Counted(r: Report, unchanging: nat, others: nat) {
    r.same == unchanging && r.checked == others && r.failure.None?
  }

  lemma CountNext(s: Db, m: Manifest, r: Report, k: nat, unchanging: nat, others: nat)
    requires 1 <= k <= |m.rows| && AuditOk(s) && Counted(r, unchanging, others)
    requires Advance(Progress(s, r), m, false, k).report.failure.None?
    ensures var here := if m.rows[k - 1].user in s.principals then 1 else 0;
            Counted(Advance(Progress(s, r), m, false, k).report, unchanging + here, others + 1 - here)
  {
    VerdictTells(s, m, k);
  }

  lemma {:induction false} DryCounters(s: Db, m: Manifest, k: nat)
    requires k <= |m.rows| && NoDuplicates(m) && OneToOne(s) && AuditOk(s)
    requires Steps(s, m, false, k).report.failure.None?
    ensures BoundBefore(s, m, k) <= k
    ensures Counted(Steps(s, m, false, k).report, BoundBefore(s, m, k), k - BoundBefore(s, m, k))
  {
    if k > 0 {
      var before := Steps(s, m, false, k - 1);
      assert Steps(s, m, false, k) == Advance(before, m, false, k);
      DryCounters(s, m, k - 1);
      DryRunPredictsApply(s, m, k - 1);
      var n := BoundBefore(s, m, k - 1);
      CountNext(s, m, before.report, k, n, k - 1 - n);
    }
  }

  /** The counters of a dry run that passes, and so those of the apply: the rows bound before are
      unchanged, the others checked, or applied. */
  lemma CountersTell(s: Db, m: Manifest, k: nat)
    requires k <= |m.rows| && NoDuplicates(m) && OneToOne(s) && AuditOk(s)
    requires Steps(s, m, true, k).report.failure.None?
    ensures var dry, app := Steps(s, m, false, k).report, Steps(s, m, true, k).report;
            && dry.same == app.same == BoundBefore(s, m, k)
            && dry.checked == app.applied == k - BoundBefore(s, m, k)
  {
    DryRunPredictsApply(s, m, k);
    DryCounters(s, m, k);
  }

  /** The audit row of an applied row tells the manifest, the row, and whether its binding is new. */
  lemma AuditTells(s: Db, m: Manifest, n: nat)
    requires 1 <= n <= |m.rows| && ProcessRow(s, m, n, true).1.Ok? && (m.runId, n) !in s.audit
    ensures var t := ProcessRow(s, m, n, true).0; var row := m.rows[n - 1];
            && (m.runId, n) in t.audit
            && var a := t.audit[(m.runId, n)];
            && a.manifest == m && a.user == row.user && a.principal == row.principal
            && a.rowHash == (m.operator, row)
            && a.action == (if row.user in s.principals then Confirmed else Linked)
  {
    if m.rows[n - 1].user in s.principals {
      assert Binds(s, m.rows[n - 1].user, m.rows[n - 1]);
    }
  }
}
