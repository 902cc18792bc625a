/** The migration in place: manifest validation, the row transaction and the run loop. */
module IdentityMigrator {
  import opened Wrappers
  import opened IdentityMigration
  import M = IdentityMigration

  // ---------- validate_manifest ----------

  const MAX_ROWS := 10000

  /** A row as it comes in: what the shape, identity and reference checks say, and its values. */
  datatype RawRow = RawRow(shapeOk: bool, identityOk: bool, referencesOk: bool, row: Row)
  datatype RawManifest = RawManifest(shapeOk: bool, contractOk: bool, runIdOk: bool, operatorOk: bool,
                                     runId: Id, operator: Text, rows: seq<RawRow>)

  datatype ManifestError =
    | InvalidShape | UnsupportedContract | InvalidRunId | InvalidReference
    | InvalidRows | InvalidIdentity | DuplicateMapping

  predicate RowOk(r: RawRow) {
    r.shapeOk && r.identityOk && r.referencesOk
  }

  function CleanRows(rows: seq<RawRow>): seq<Row> {
    seq(|rows|, i requires 0 <= i < |rows| => rows[i].row)
  }

  predicate HeaderOk(v: RawManifest) {
    v.shapeOk && v.contractOk && v.runIdOk && v.operatorOk && 1 <= |v.rows| <= MAX_ROWS
  }

  ghost predicate Distinct(rows: seq<Row>) {
    forall i, j :: 0 <= i < j < |rows| ==> rows[i].user != rows[j].user && rows[i].principal != rows[j].principal
  }

  method ValidateRows(rows: seq<RawRow>) returns (r: Result<seq<Row>, ManifestError>)
    ensures r.Ok? <==> (forall x :: x in rows ==> RowOk(x)) && Distinct(CleanRows(rows))
    ensures r.Ok? ==> r.value == CleanRows(rows)
  {
    var users: set<Id>, principals: set<Principal> := {}, {};
    var clean: seq<Row> := [];
    for k := 0 to |rows|
      invariant |clean| == k && forall i :: 0 <= i < k ==> clean[i] == rows[i].row && RowOk(rows[i])
      invariant forall u :: u in users <==> exists i :: 0 <= i < k && clean[i].user == u
      invariant forall p :: p in principals <==> exists i :: 0 <= i < k && clean[i].principal == p
      invariant Distinct(clean)
    {
      var x := rows[k];
      assert x in rows;
      if !x.shapeOk { return Err(InvalidShape); }
      if !x.identityOk { return Err(InvalidIdentity); }
      if !x.referencesOk { return Err(InvalidReference); }
      if x.row.user in users || x.row.principal in principals {
        var i :| 0 <= i < k && (clean[i].user == x.row.user || clean[i].principal == x.row.principal);
        assert CleanRows(rows)[k] == x.row && CleanRows(rows)[i] == clean[i];
        return Err(DuplicateMapping);
      }
      users, principals := users + {x.row.user}, principals + {x.row.principal};
      clean := clean + [x.row];
    }
    assert clean == CleanRows(rows);
    return Ok(clean);
  }

  /** A manifest is accepted exactly when its header and every row are well formed and no user
      and no principal appears twice; what is accepted has no duplicates. */
  method ValidateManifest(v: RawManifest) returns (r: Result<Manifest, ManifestError>)
    ensures r.Ok? <==> HeaderOk(v) && (forall x :: x in v.rows ==> RowOk(x)) && Distinct(CleanRows(v.rows))
    ensures r.Ok? ==> r.value == Manifest(v.runId, v.operator, CleanRows(v.rows)) && NoDuplicates(r.value)
  {
    if !v.shapeOk { return Err(InvalidShape); }
    if !v.contractOk { return Err(UnsupportedContract); }
    if !v.runIdOk { return Err(InvalidRunId); }
    if !v.operatorOk { return Err(InvalidReference); }
    if !(1 <= |v.rows| <= MAX_ROWS) { return Err(InvalidRows); }
    var rows := ValidateRows(v.rows);
    return if rows.Ok? then Ok(Manifest(v.runId, v.operator, rows.value)) else Err(rows.error);
  }

  // ---------- the database-backed run ----------

  class Migrator {
    var users: map<Id, bool>
    var principals: map<Id, Principal>
    var audit: map<(Id, nat), Audit>

    ghost function Tables(): Db
      reads this
    {
      Db(users, principals, audit)
    }

    ghost predicate Valid()
      reads this
    {
      OneToOne(Tables()) && AuditOk(Tables())
    }

    constructor (users: map<Id, bool>)
      ensures Valid() && Tables() == Db(users, map[], map[])
    {
      this.users, principals, audit := users, map[], map[];
    }

    method RunHasOtherManifest(m: Manifest) returns (conflict: bool)
      ensures conflict <==> RunConflict(Tables(), m)
    {
      conflict := exists key :: key in audit && key.0 == m.runId && audit[key].manifest != m;
      if conflict {
        var key :| key in audit && key.0 == m.runId && audit[key].manifest != m;
        assert key == (m.runId, key.1);
      }
    }

    /** The bindings of the row's user or of its principal. */
    method FindBindings(row: Row) returns (any: bool, exact: bool)
      ensures any <==> AnyBinding(Tables(), row)
      ensures exact <==> Exact(Tables(), row)
    {
      var bindings := set u | u in principals && (u == row.user || principals[u] == row.principal);
      any := bindings != {};
      exact := bindings == {row.user} && principals[row.user] == row.principal;
      assert forall u :: u in bindings <==> Binds(Tables(), u, row);
      if Exact(Tables(), row) {
        assert Binds(Tables(), row.user, row);
      }
    }

    /** The unique constraints of the audit table. */
    method AuditConstraintHit(run: Id, row: Row) returns (hit: bool)
      ensures hit <==> AuditTaken(Tables(), run, row)
    {
      hit := exists key :: key in audit && key.0 == run
                           && (audit[key].user == row.user || audit[key].principal == row.principal);
      if hit {
        var key :| key in audit && key.0 == run
            && (audit[key].user == row.user || audit[key].principal == row.principal);
        assert key == (run, key.1);
      }
    }

    method RowTransaction(m: Manifest, n: nat, apply: bool) returns (r: Result<(Outcome, bool), MigrationError>)
      requires Valid() && 1 <= n <= |m.rows|
      modifies this
      ensures Valid() && (Tables(), r) == M.ProcessRow(old(Tables()), m, n, apply)
    {
      RowOnlyAdds(Tables(), m, n, apply);
      var row := m.rows[n - 1];
      var conflict := RunHasOtherManifest(m);
      if conflict {
        return Err(RunManifestConflict);
      }
      if row.user !in users || !users[row.user] {
        return Err(ActiveUserRequired);
      }
      var any, exact := FindBindings(row);
      if any && !exact {
        return Err(BindingConflict);
      }
      if (m.runId, n) in audit {
        var fits := CheckpointFits(audit[(m.runId, n)], m, n) && exact;
        return if fits then Ok((Unchanged, true)) else Err(CheckpointConflict);
      }
      if !apply {
        return Ok((if exact then Unchanged else Checked, false));
      }
      var hit := AuditConstraintHit(m.runId, row);
      if hit {
        return Err(DatabaseUnavailable);
      }
      if !exact {
        principals := principals[row.user := row.principal];
      }
      assert principals == old(principals)[row.user := row.principal];
      var action := if exact then Confirmed else Linked;
      audit := audit[(m.runId, n) := Audit(m, RowHash(m, n), row.user, row.principal, action)];
      return Ok((if exact then Unchanged else Applied, true));
    }

    /** One row of a run that is still going, and its place in the report. */
    method NextRow(m: Manifest, n: nat, apply: bool, r: Report) returns (counted: Report)
      requires Valid() && 1 <= n <= |m.rows| && r.failure.None?
      modifies this
      ensures Valid() && Progress(Tables(), counted) == Advance(Progress(old(Tables()), r), m, apply, n)
      ensures counted.failure.Some? ==> counted.failure.value.0 == n
    {
      var outcome := RowTransaction(m, n, apply);
      counted := if outcome.Err? then r.(failure := Some((n, outcome.error)))
                 else CountOutcome(r, outcome.value.0, outcome.value.1);
    }

    /** The whole run: the check that the database is there (preflight, None if it is), then the rows
        in order, one transaction each, until the end or the first failure. The next row to run is the
        failing one, the first one, or none. */
    method Run(m: Manifest, apply: bool, preflight: Option<MigrationError>) returns (r: Report, nextRow: Option<nat>)
      requires Valid()
      modifies this
      ensures Valid()
      ensures preflight.None? ==> Progress(Tables(), r) == Steps(old(Tables()), m, apply, |m.rows|)
      ensures preflight.Some? ==> Tables() == old(Tables()) && r == ZERO.(failure := Some((1, preflight.value)))
      ensures nextRow == if r.failure.Some? then Some(r.failure.value.0) else None
    {
      r := ZERO;
      if preflight.Some? {
        r := r.(failure := Some((1, preflight.value)));
        return r, Some(1);
      }
      for k := 0 to |m.rows|
        invariant Valid() && r.failure.None?
        invariant Progress(Tables(), r) == Steps(old(Tables()), m, apply, k)
      {
        var counted := NextRow(m, k + 1, apply, r);
        StepsNext(old(Tables()), m, apply, k);
        r := counted;
        if r.failure.Some? {
          FailureStops(old(Tables()), m, apply, k + 1, |m.rows|);
          return r, Some(k + 1);
        }
      }
      return r, None;
    }
  }

  lemma StepsNext(s: Db, m: Manifest, apply: bool, k: nat)
    requires k < |m.rows|
    ensures Steps(s, m, apply, k + 1) == Advance(Steps(s, m, apply, k), m, apply, k + 1)
  {
  }
}
