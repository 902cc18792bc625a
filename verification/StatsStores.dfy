/** Both statistics stores: the loops over the rows of a request, proved to ingest as StatsIngest says. */
module StatsStores {
  import opened Wrappers
  import opened StatsIngest

  /** The table-backed store: writes become visible only when the transaction commits. */
  class SqliteAdStatsStore {
    var items: Items
    var saved: map<Id, Saved>

    ghost function Table(): State
      reads this
    {
      State(items, saved)
    }

    constructor ()
      ensures Table() == State(map[], map[])
    {
      items, saved := map[], map[];
    }

    method Ingest(accounts: Accounts, rows: seq<Row>, key: Option<Id>, now: Time)
      returns (r: Result<Response, IngestError>)
      modifies this
      ensures (Table(), r) == StatsIngest.Ingest(old(Table()), accounts, rows, key, Once(now), false)
    {
      var digest := Canonical(rows);
      if key.Some? && key.value in saved {
        if saved[key.value].digest != digest {
          return Err(KeyReused);
        }
        return Ok(Response(saved[key.value].counts, true));
      }
      var work := items;
      var inserted, updated := 0, 0;
      for i := 0 to |rows|
        invariant work == Merge(items, rows[..i], Once(now))
        invariant Counts(inserted, updated) == Tally(items, rows[..i], Once(now))
        invariant ValidPrefix(accounts, rows[..i]) == i
        invariant Table() == old(Table())
      {
        Prefixes(rows, i);
        var error := RowError(accounts, rows[i]);
        if error.Some? {
          FirstBad(accounts, rows, i);
          return Err(error.value);
        }
        if rows[i].key in work {
          updated := updated + 1;
        } else {
          inserted := inserted + 1;
        }
        work := Upsert(work, rows[i], now);
      }
      assert rows[..|rows|] == rows;
      items := work;
      if key.Some? {
        saved := saved[key.value := Saved(digest, Counts(inserted, updated))];
      }
      r := Ok(Response(Counts(inserted, updated), false));
    }
  }

  /** The in-memory store writes each row as it comes to it. */
  class InMemoryAdStatsStore {
    var items: Items
    var idempotency: map<Id, Saved>

    ghost function Table(): State
      reads this
    {
      State(items, idempotency)
    }

    constructor ()
      ensures Table() == State(map[], map[])
    {
      items, idempotency := map[], map[];
    }

    method Ingest(accounts: Accounts, rows: seq<Row>, key: Option<Id>, clock: Clock)
      returns (r: Result<Response, IngestError>)
      modifies this
      ensures (Table(), r) == StatsIngest.Ingest(old(Table()), accounts, rows, key, clock, true)
    {
      var digest := Canonical(rows);
      if key.Some? && key.value in idempotency {
        if idempotency[key.value].digest != digest {
          return Err(KeyReused);
        }
        return Ok(Response(idempotency[key.value].counts, true));
      }
      var inserted, updated := 0, 0;
      for i := 0 to |rows|
        invariant items == Merge(old(items), rows[..i], clock)
        invariant Counts(inserted, updated) == Tally(old(items), rows[..i], clock)
        invariant ValidPrefix(accounts, rows[..i]) == i
        invariant idempotency == old(idempotency)
      {
        Prefixes(rows, i);
        var error := RowError(accounts, rows[i]);
        if error.Some? {
          FirstBad(accounts, rows, i);
          return Err(error.value);
        }
        if rows[i].key in items {
          updated := updated + 1;
        } else {
          inserted := inserted + 1;
        }
        items := Upsert(items, rows[i], clock(i));
      }
      assert rows[..|rows|] == rows;
      if key.Some? {
        idempotency := idempotency[key.value := Saved(digest, Counts(inserted, updated))];
      }
      r := Ok(Response(Counts(inserted, updated), false));
    }
  }

  lemma Prefixes(rows: seq<Row>, i: nat)
    requires i < |rows|
    ensures rows[..i + 1][..i] == rows[..i] && rows[..i + 1][i] == rows[i]
  {
  }

  /** The first bad row ends the valid prefix of the whole request. */
  lemma FirstBad(accounts: Accounts, rows: seq<Row>, i: nat)
    requires i < |rows| && ValidPrefix(accounts, rows[..i]) == i && RowError(accounts, rows[i]).Some?
    ensures ValidPrefix(accounts, rows) == i
  {
    forall j | 0 <= j < i
      ensures RowError(accounts, rows[j]).None?
    {
      assert rows[..i][j] == rows[j];
    }
  }
}
