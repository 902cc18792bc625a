/** Ingesting daily statistics: an upsert per row, remembered under an idempotency key together with
    a digest of the sorted rows. */
module StatsIngest {
  import opened Wrappers

  type Id = nat
  type Time = int

  datatype Key = Key(account: Id, day: int, platform: Id)
  /** An amount as a request gives it: its value in hundredths, the precision a request may have, and
      how it is spelled, for 1.0 and 1.00 are one value and two texts. */
  datatype Amount = Amount(hundredths: nat, spelling: nat)
  datatype Given = Given(impressions: nat, clicks: nat, spend: Amount, conversions: Option<Amount>)
  datatype Row = Row(key: Key, given: Given)

  datatype Metrics = Metrics(impressions: nat, clicks: nat, spend: nat, conversions: Option<nat>)
  datatype Stat = Stat(metrics: Metrics, createdAt: Time, updatedAt: Time)
  type Items = map<Key, Stat>

  datatype Counts = Counts(inserted: nat, updated: nat)

  /** The clock readings, one for each row; the table-backed store reads the clock once. */
  type Clock = nat -> Time

  function Once(now: Time): Clock {
    i => now
  }

  /** What is stored: amounts in two decimals, however they were spelled. */
  function Stored(g: Given): Metrics {
    Metrics(g.impressions, g.clicks, g.spend.hundredths,
            if g.conversions.Some? then Some(g.conversions.value.hundredths) else None)
  }

  // ---------- one upsert after the other ----------

  function Upsert(items: Items, row: Row, now: Time): Items {
    items[row.key := Stat(Stored(row.given), if row.key in items then items[row.key].createdAt else now, now)]
  }

  function Count(items: Items, row: Row, n: Counts): Counts {
    if row.key in items then n.(updated := n.updated + 1) else n.(inserted := n.inserted + 1)
  }

  function Merge(items: Items, rows: seq<Row>, clock: Clock): Items {
    if rows == [] then items
    else
      var last := |rows| - 1;
      Upsert(Merge(items, rows[..last], clock), rows[last], clock(last))
  }

  function Tally(items: Items, rows: seq<Row>, clock: Clock): Counts {
    if rows == [] then Counts(0, 0)
    else
      var last := |rows| - 1;
      Count(Merge(items, rows[..last], clock), rows[last], Tally(items, rows[..last], clock))
  }

  function KeysOf(rows: seq<Row>): set<Key> {
    set r | r in rows :: r.key
  }

  /** The rows of one key, in order. */
  function Only(rows: seq<Row>, k: Key): (s: seq<Row>)
    ensures forall r :: r in s <==> r in rows && r.key == k
  {
    if rows == [] then []
    else Only(rows[..|rows| - 1], k) + (if rows[|rows| - 1].key == k then [rows[|rows| - 1]] else [])
  }

  /** Where the rows of a key begin and end. */
  function FirstOf(rows: seq<Row>, k: Key): (i: nat)
    requires Only(rows, k) != []
    ensures i < |rows|
  {
    var rest := rows[..|rows| - 1];
    if Only(rest, k) != [] then FirstOf(rest, k) else |rest|
  }

  function LastOf(rows: seq<Row>, k: Key): (i: nat)
    requires Only(rows, k) != []
    ensures i < |rows|
  {
    if rows[|rows| - 1].key == k then |rows| - 1 else LastOf(rows[..|rows| - 1], k)
  }

  lemma NoRowOf(rows: seq<Row>, k: Key)
    requires Only(rows, k) == []
    ensures forall j :: 0 <= j < |rows| ==> rows[j].key != k
  {
    forall j | 0 <= j < |rows|
      ensures rows[j].key != k
    {
      assert rows[j] in rows;
    }
  }

  lemma {:induction false} FirstIsFirst(rows: seq<Row>, k: Key)
    requires Only(rows, k) != []
    ensures var f := FirstOf(rows, k); rows[f].key == k && forall j :: 0 <= j < f ==> rows[j].key != k
  {
    var n := |rows| - 1;
    var rest := rows[..n];
    if Only(rest, k) != [] {
      FirstIsFirst(rest, k);
      var f := FirstOf(rest, k);
      assert forall j :: 0 <= j <= f ==> rest[j] == rows[j];
    } else {
      NoRowOf(rest, k);
      assert forall j :: 0 <= j < n ==> rest[j] == rows[j];
    }
  }

  lemma {:induction false} LastIsLast(rows: seq<Row>, k: Key)
    requires Only(rows, k) != []
    ensures var l := LastOf(rows, k); rows[l].key == k && forall j :: l < j < |rows| ==> rows[j].key != k
    ensures rows[LastOf(rows, k)] == Only(rows, k)[|Only(rows, k)| - 1]
  {
    var n := |rows| - 1;
    if rows[n].key != k {
      var rest := rows[..n];
      LastIsLast(rest, k);
      assert forall j :: 0 <= j < n ==> rest[j] == rows[j];
    }
  }

  /** The merged map, key by key: the last row of a key sets the metrics and the update time, its
      first row the creation time unless the key was there before, and a key without rows is not
      touched. */
  lemma {:induction false} MergeAt(items: Items, rows: seq<Row>, clock: Clock, k: Key)
    ensures var m := Merge(items, rows, clock);
            if Only(rows, k) == [] then (k in m <==> k in items) && (k in items ==> m[k] == items[k])
            else k in m && m[k] == Latest(items, rows, clock, k)
  {
    if rows != [] {
      var n := |rows| - 1;
      MergeAt(items, rows[..n], clock, k);
      if rows[n].key == k {
        LatestHere(items, rows, clock, k);
      } else {
        LatestBefore(items, rows, clock, k);
      }
    }
  }

  function Latest(items: Items, rows: seq<Row>, clock: Clock, k: Key): Stat
    requires Only(rows, k) != []
  {
    var own := Only(rows, k);
    Stat(Stored(own[|own| - 1].given), if k in items then items[k].createdAt else clock(FirstOf(rows, k)),
         clock(LastOf(rows, k)))
  }

  lemma LatestBefore(items: Items, rows: seq<Row>, clock: Clock, k: Key)
    requires rows != [] && rows[|rows| - 1].key != k
    ensures var rest := rows[..|rows| - 1];
            Only(rows, k) == Only(rest, k)
            && (Only(rest, k) != [] ==> Latest(items, rows, clock, k) == Latest(items, rest, clock, k))
  {
  }

  lemma LatestHere(items: Items, rows: seq<Row>, clock: Clock, k: Key)
    requires rows != [] && rows[|rows| - 1].key == k
    ensures var n := |rows| - 1; var rest := rows[..n];
            && Only(rows, k) != []
            && Latest(items, rows, clock, k) ==
               Stat(Stored(rows[n].given),
                    if k in items then items[k].createdAt
                    else if Only(rest, k) != [] then Latest(items, rest, clock, k).createdAt else clock(n),
                    clock(n))
  {
  }

  lemma {:induction false} MergedKeys(items: Items, rows: seq<Row>, clock: Clock)
    ensures Merge(items, rows, clock).Keys == items.Keys + KeysOf(rows)
  {
    if rows != [] {
      var rest := rows[..|rows| - 1];
      MergedKeys(items, rest, clock);
      LastKey(rows);
    }
  }

  lemma LastKey(rows: seq<Row>)
    requires rows != []
    ensures KeysOf(rows) == KeysOf(rows[..|rows| - 1]) + {rows[|rows| - 1].key}
  {
    var rest := rows[..|rows| - 1];
    assert rows == rest + [rows[|rows| - 1]];
  }

  /** inserted counts the distinct new keys, and every row is counted once. */
  lemma {:induction false} TallyCounts(items: Items, rows: seq<Row>, clock: Clock)
    ensures Tally(items, rows, clock).inserted == |KeysOf(rows) - items.Keys|
    ensures Tally(items, rows, clock).inserted + Tally(items, rows, clock).updated == |rows|
  {
    if rows != [] {
      var rest, last := rows[..|rows| - 1], rows[|rows| - 1];
      TallyCounts(items, rest, clock);
      MergedKeys(items, rest, clock);
      LastKey(rows);
      OneMoreKey(items.Keys, KeysOf(rest), last.key);
    } else {
      assert KeysOf(rows) - items.Keys == {};
    }
  }

  lemma OneMoreKey(known: set<Key>, keys: set<Key>, k: Key)
    ensures |keys + {k} - known| == |keys - known| + (if k in known || k in keys then 0 else 1)
  {
    if k in known || k in keys {
      assert keys + {k} - known == keys - known;
    } else {
      assert keys + {k} - known == (keys - known) + {k};
    }
  }

  // ---------- the digest ----------

  predicate Before(a: Key, b: Key) {
    a.account < b.account
    || (a.account == b.account && (a.day < b.day || (a.day == b.day && a.platform < b.platform)))
  }

  /** After every row that is not behind it, as in a stable sort. */
  function Insert(sorted: seq<Row>, row: Row): seq<Row> {
    if sorted != [] && Before(row.key, sorted[|sorted| - 1].key) then
      Insert(sorted[..|sorted| - 1], row) + [sorted[|sorted| - 1]]
    else sorted + [row]
  }

  /** The canonical rows of a request; the digest over them is taken to be injective. */
  function Canonical(rows: seq<Row>): seq<Row> {
    if rows == [] then [] else Insert(Canonical(rows[..|rows| - 1]), rows[|rows| - 1])
  }

  ghost predicate IsSorted(rows: seq<Row>) {
    forall i, j :: 0 <= i < j < |rows| ==> !Before(rows[j].key, rows[i].key)
  }

  lemma OnlyAppend(rows: seq<Row>, row: Row, k: Key)
    ensures Only(rows + [row], k) == Only(rows, k) + If(row, k)
  {
    assert (rows + [row])[..|rows|] == rows;
  }

  lemma {:induction false} InsertHas(sorted: seq<Row>, row: Row)
    ensures forall r :: r in Insert(sorted, row) <==> r in sorted || r == row
    decreases |sorted|
  {
    if sorted != [] && Before(row.key, sorted[|sorted| - 1].key) {
      var rest := sorted[..|sorted| - 1];
      assert sorted == rest + [sorted[|sorted| - 1]];
      InsertHas(rest, row);
    }
  }

  /** No row of the sequence is ahead of this one. */
  ghost predicate AllUpTo(rows: seq<Row>, last: Row) {
    forall r :: r in rows ==> !Before(last.key, r.key)
  }

  lemma SortedAppend(rows: seq<Row>, last: Row)
    ensures IsSorted(rows + [last]) <==> IsSorted(rows) && AllUpTo(rows, last)
  {
    var all := rows + [last];
    if IsSorted(all) {
      forall i, j | 0 <= i < j < |rows|
        ensures !Before(rows[j].key, rows[i].key)
      {
        assert all[i] == rows[i] && all[j] == rows[j];
      }
      forall r | r in rows
        ensures !Before(last.key, r.key)
      {
        var i :| 0 <= i < |rows| && rows[i] == r;
        assert all[i] == r && all[|rows|] == last;
      }
    }
  }

  lemma {:induction false} InsertIsSorted(sorted: seq<Row>, row: Row)
    requires IsSorted(sorted)
    ensures IsSorted(Insert(sorted, row))
    decreases |sorted|
  {
    if sorted == [] {
    } else {
      var rest, last := sorted[..|sorted| - 1], sorted[|sorted| - 1];
      assert sorted == rest + [last];
      SortedAppend(rest, last);
      if Before(row.key, last.key) {
        InsertIsSorted(rest, row);
        InsertHas(rest, row);
        SortedAppend(Insert(rest, row), last);
      } else {
        SortedAppend(sorted, row);
      }
    }
  }

  function If(row: Row, k: Key): seq<Row> {
    if row.key == k then [row] else []
  }

  lemma {:induction false} InsertIsStable(sorted: seq<Row>, row: Row, k: Key)
    ensures Only(Insert(sorted, row), k) == Only(sorted, k) + If(row, k)
    decreases |sorted|
  {
    if sorted != [] && Before(row.key, sorted[|sorted| - 1].key) {
      var rest, last := sorted[..|sorted| - 1], sorted[|sorted| - 1];
      InsertIsStable(rest, row, k);
      OnlyAppend(Insert(rest, row), last, k);
      OnlyFront(sorted, k);
      Swap(Only(rest, k), row, last, k);
    } else {
      OnlyAppend(sorted, row, k);
    }
  }

  lemma OnlyFront(rows: seq<Row>, k: Key)
    requires rows != []
    ensures Only(rows, k) == Only(rows[..|rows| - 1], k) + If(rows[|rows| - 1], k)
  {
  }

  /** Of two rows with different keys at most one belongs to k, so their order does not matter. */
  lemma Swap(s: seq<Row>, a: Row, b: Row, k: Key)
    requires a.key != b.key
    ensures (s + If(a, k)) + If(b, k) == (s + If(b, k)) + If(a, k)
  {
  }

  lemma {:induction false} CanonicalIsStable(rows: seq<Row>, k: Key)
    ensures IsSorted(Canonical(rows)) && Only(Canonical(rows), k) == Only(rows, k)
  {
    if rows != [] {
      CanonicalIsStable(rows[..|rows| - 1], k);
      InsertIsSorted(Canonical(rows[..|rows| - 1]), rows[|rows| - 1]);
      InsertIsStable(Canonical(rows[..|rows| - 1]), rows[|rows| - 1], k);
    }
  }

  ghost predicate SameByKey(a: seq<Row>, b: seq<Row>) {
    forall k :: Only(a, k) == Only(b, k)
  }

  lemma LastIsThere(rows: seq<Row>)
    requires rows != []
    ensures var last := rows[|rows| - 1]; var own := Only(rows, last.key);
            own != [] && own[|own| - 1] == last
  {
  }

  /** Two sorted sequences with the same rows key by key end in the same row. */
  lemma SameLast(a: seq<Row>, b: seq<Row>)
    requires IsSorted(a) && IsSorted(b) && SameByKey(a, b) && a != [] && b != []
    ensures a[|a| - 1] == b[|b| - 1]
  {
    var last, other := a[|a| - 1], b[|b| - 1];
    LastIsThere(a);
    LastIsThere(b);
    var ofLast, ofOther := Only(b, last.key), Only(a, other.key);
    assert ofLast[|ofLast| - 1] == last && ofOther[|ofOther| - 1] == other;
    assert last in ofLast && other in ofOther;
    LastIsGreatest(a, other);
    LastIsGreatest(b, last);
    assert last.key == other.key;
  }

  lemma LastIsGreatest(rows: seq<Row>, r: Row)
    requires IsSorted(rows) && r in rows
    ensures !Before(rows[|rows| - 1].key, r.key)
  {
  }

  lemma SameRest(a: seq<Row>, b: seq<Row>, last: Row)
    requires SameByKey(a + [last], b + [last])
    ensures SameByKey(a, b)
  {
    forall k
      ensures Only(a, k) == Only(b, k)
    {
      OnlyAppend(a, last, k);
      OnlyAppend(b, last, k);
      SameFront(Only(a, k), Only(b, k), If(last, k));
    }
  }

  lemma SameFront(a: seq<Row>, b: seq<Row>, tail: seq<Row>)
    requires a + tail == b + tail
    ensures a == b
  {
    assert |a| == |a + tail| - |tail| == |b|;
    assert a == (a + tail)[..|a|];
    assert b == (b + tail)[..|b|];
  }

  /** Sorted rows are determined by their rows key by key. */
  lemma {:induction false} SortedIsDetermined(a: seq<Row>, b: seq<Row>)
    requires IsSorted(a) && IsSorted(b) && SameByKey(a, b)
    ensures a == b
    decreases |a|
  {
    if a == [] {
      if b != [] {
        LastIsThere(b);
      }
    } else {
      LastIsThere(a);
      assert Only(b, a[|a| - 1].key) != [];
      SameLast(a, b);
      SameWithoutLast(a, b);
      SortedIsDetermined(a[..|a| - 1], b[..|b| - 1]);
      assert a == a[..|a| - 1] + [a[|a| - 1]] && b == b[..|b| - 1] + [b[|b| - 1]];
    }
  }

  lemma SameWithoutLast(a: seq<Row>, b: seq<Row>)
    requires IsSorted(a) && IsSorted(b) && SameByKey(a, b) && a != [] && b != []
    requires a[|a| - 1] == b[|b| - 1]
    ensures IsSorted(a[..|a| - 1]) && IsSorted(b[..|b| - 1]) && SameByKey(a[..|a| - 1], b[..|b| - 1])
  {
    var ra, rb, last := a[..|a| - 1], b[..|b| - 1], a[|a| - 1];
    assert a == ra + [last] && b == rb + [last];
    SameRest(ra, rb, last);
  }

  /** Two requests have the same digest exactly when each key has the same rows in the same order. */
  lemma SameDigestIff(a: seq<Row>, b: seq<Row>)
    ensures Canonical(a) == Canonical(b) <==> SameByKey(a, b)
  {
    forall k
      ensures Only(Canonical(a), k) == Only(a, k) && Only(Canonical(b), k) == Only(b, k)
    {
      CanonicalIsStable(a, k);
      CanonicalIsStable(b, k);
    }
    if SameByKey(a, b) {
      CanonicalIsStable(a, Key(0, 0, 0));
      CanonicalIsStable(b, Key(0, 0, 0));
      SortedIsDetermined(Canonical(a), Canonical(b));
    }
  }

  /** What a table shows apart from the times. */
  function Shown(items: Items): map<Key, Metrics> {
    map k | k in items :: items[k].metrics
  }

  lemma SameShown(items: Items, a: seq<Row>, b: seq<Row>, clock: Clock, other: Clock, k: Key)
    requires Only(a, k) == Only(b, k)
    ensures k in Merge(items, a, clock) <==> k in Merge(items, b, other)
    ensures k in Merge(items, a, clock) ==> Merge(items, a, clock)[k].metrics == Merge(items, b, other)[k].metrics
    ensures forall now :: clock == other == Once(now) && k in Merge(items, a, clock) ==>
              Merge(items, a, clock)[k] == Merge(items, b, other)[k]
  {
    MergeAt(items, a, clock, k);
    MergeAt(items, b, other, k);
  }

  /** A request that the digest cannot tell apart has the same counts and shows the same metrics on
      every table, whenever its rows are stored, so answering it with the first response is right. */
  lemma SameDigestSameEffect(items: Items, a: seq<Row>, b: seq<Row>, clock: Clock, other: Clock)
    requires Canonical(a) == Canonical(b)
    ensures Shown(Merge(items, a, clock)) == Shown(Merge(items, b, other))
    ensures Tally(items, a, clock) == Tally(items, b, other)
  {
    SameDigestIff(a, b);
    forall k
      ensures k in Merge(items, a, clock) <==> k in Merge(items, b, other)
      ensures k in Merge(items, a, clock) ==> Merge(items, a, clock)[k].metrics == Merge(items, b, other)[k].metrics
    {
      SameShown(items, a, b, clock, other, k);
    }
    SameCounts(items, a, b, clock, other);
  }

  lemma SameCounts(items: Items, a: seq<Row>, b: seq<Row>, clock: Clock, other: Clock)
    requires SameByKey(a, b) && Canonical(a) == Canonical(b)
    ensures Tally(items, a, clock) == Tally(items, b, other)
  {
    TallyCounts(items, a, clock);
    TallyCounts(items, b, other);
    SameKeys(a, b);
    CanonicalLength(a);
    CanonicalLength(b);
  }

  /** In the table-backed store, which reads the clock once, even the times are the same. */
  lemma SameDigestSameTable(items: Items, a: seq<Row>, b: seq<Row>, now: Time)
    requires Canonical(a) == Canonical(b)
    ensures Merge(items, a, Once(now)) == Merge(items, b, Once(now))
  {
    SameDigestIff(a, b);
    forall k
      ensures k in Merge(items, a, Once(now)) <==> k in Merge(items, b, Once(now))
      ensures k in Merge(items, a, Once(now)) ==> Merge(items, a, Once(now))[k] == Merge(items, b, Once(now))[k]
    {
      SameShown(items, a, b, Once(now), Once(now), k);
    }
  }

  // ---------- spelling ----------

  predicate SameValues(a: seq<Row>, b: seq<Row>) {
    |a| == |b| && forall i :: 0 <= i < |a| ==> a[i].key == b[i].key && Stored(a[i].given) == Stored(b[i].given)
  }

  /** Respelled amounts change nothing in the table or in the counts. */
  lemma {:induction false} RespelledSameEffect(items: Items, a: seq<Row>, b: seq<Row>, clock: Clock)
    requires SameValues(a, b)
    ensures Merge(items, a, clock) == Merge(items, b, clock) && Tally(items, a, clock) == Tally(items, b, clock)
  {
    if a != [] {
      RespelledSameEffect(items, a[..|a| - 1], b[..|b| - 1], clock);
    }
  }

  /** But the digest sees them: of two requests with one row of the same values, the digests agree
      exactly when the amounts are spelled alike. */
  lemma RespelledDigestIff(a: Row, b: Row)
    requires a.key == b.key && Stored(a.given) == Stored(b.given)
    ensures Canonical([a]) == Canonical([b]) <==>
              a.given.spend.spelling == b.given.spend.spelling
              && (a.given.conversions.Some? ==>
                    a.given.conversions.value.spelling == b.given.conversions.value.spelling)
  {
    assert [a][..0] == [] && [b][..0] == [];
    assert Canonical([a]) == [a] && Canonical([b]) == [b];
    assert [a][0] == a && [b][0] == b;
    assert [a] == [b] <==> a == b;
  }

  lemma SameKeys(a: seq<Row>, b: seq<Row>)
    requires SameByKey(a, b)
    ensures KeysOf(a) == KeysOf(b)
  {
    forall k
      ensures k in KeysOf(a) <==> k in KeysOf(b)
    {
      if k in KeysOf(a) {
        var r :| r in a && r.key == k;
        assert r in Only(a, k);
        assert r in Only(b, k);
      }
      if k in KeysOf(b) {
        var r :| r in b && r.key == k;
        assert r in Only(b, k);
        assert r in Only(a, k);
      }
    }
  }

  lemma {:induction false} CanonicalLength(rows: seq<Row>)
    ensures |Canonical(rows)| == |rows|
  {
    if rows != [] {
      CanonicalLength(rows[..|rows| - 1]);
      InsertLength(Canonical(rows[..|rows| - 1]), rows[|rows| - 1]);
    }
  }

  lemma {:induction false} InsertLength(sorted: seq<Row>, row: Row)
    ensures |Insert(sorted, row)| == |sorted| + 1
    decreases |sorted|
  {
    if sorted != [] && Before(row.key, sorted[|sorted| - 1].key) {
      InsertLength(sorted[..|sorted| - 1], row);
    }
  }

  ghost predicate DistinctKeys(rows: seq<Row>) {
    forall i, j :: 0 <= i < j < |rows| ==> rows[i].key != rows[j].key
  }

  lemma {:induction false} OnlyDistinct(rows: seq<Row>, k: Key)
    requires DistinctKeys(rows)
    ensures |Only(rows, k)| <= 1
  {
    if rows != [] {
      var rest, last := rows[..|rows| - 1], rows[|rows| - 1];
      OnlyDistinct(rest, k);
      if Only(rest, k) != [] {
        assert Only(rest, k)[0] in rest;
        assert last.key != k;
      }
    }
  }

  /** Rows with distinct keys may come in any order: same digest, same map, same counts. */
  lemma AnyOrder(items: Items, a: seq<Row>, b: seq<Row>, now: Time)
    requires DistinctKeys(a) && DistinctKeys(b) && multiset(a) == multiset(b)
    ensures Canonical(a) == Canonical(b)
    ensures Merge(items, a, Once(now)) == Merge(items, b, Once(now))
    ensures Tally(items, a, Once(now)) == Tally(items, b, Once(now))
  {
    forall k
      ensures Only(a, k) == Only(b, k)
    {
      assert forall r :: r in a <==> r in multiset(a);
      assert forall r :: r in b <==> r in multiset(b);
      OnlyDistinct(a, k);
      OnlyDistinct(b, k);
      AtMostTheSame(Only(a, k), Only(b, k));
    }
    SameDigestIff(a, b);
    SameDigestSameTable(items, a, b, now);
    SameDigestSameEffect(items, a, b, Once(now), Once(now));
  }

  lemma AtMostTheSame(a: seq<Row>, b: seq<Row>)
    requires |a| <= 1 && |b| <= 1 && (forall r :: r in a <==> r in b)
    ensures a == b
  {
    if a != [] {
      assert a[0] in a;
    }
    if b != [] {
      assert b[0] in b;
    }
  }

  // ---------- the two stores ----------

  datatype Saved = Saved(digest: seq<Row>, counts: Counts)
  datatype State = State(items: Items, saved: map<Id, Saved>)
  datatype Response = Response(counts: Counts, replayed: bool)
  datatype IngestError = KeyReused | AccountNotFound | PlatformMismatch

  /** The platform of each account, normalised. */
  type Accounts = map<Id, Id>

  function RowError(accounts: Accounts, row: Row): Option<IngestError> {
    if row.key.account !in accounts then Some(AccountNotFound)
    else if accounts[row.key.account] != row.key.platform then Some(PlatformMismatch)
    else None
  }

  /** How many rows come before the first one that does not validate. */
  function ValidPrefix(accounts: Accounts, rows: seq<Row>): (n: nat)
    ensures n <= |rows|
    ensures forall i :: 0 <= i < n ==> RowError(accounts, rows[i]).None?
    ensures n < |rows| ==> RowError(accounts, rows[n]).Some?
  {
    if rows == [] then 0
    else
      var n := ValidPrefix(accounts, rows[..|rows| - 1]);
      if n < |rows| - 1 || RowError(accounts, rows[|rows| - 1]).Some? then n else |rows|
  }

  function Replay(s: State, rows: seq<Row>, key: Id): Result<Response, IngestError>
    requires key in s.saved
  {
    if s.saved[key].digest != Canonical(rows) then Err(KeyReused) else Ok(Response(s.saved[key].counts, true))
  }

  function Saves(s: State, rows: seq<Row>, key: Option<Id>, counts: Counts): map<Id, Saved> {
    if key.Some? then s.saved[key.value := Saved(Canonical(rows), counts)] else s.saved
  }

  /** keep: what a refused request leaves in the table. The database rolls back, the in-memory store
      keeps the rows before the bad one. */
  function Ingest(s: State, accounts: Accounts, rows: seq<Row>, key: Option<Id>, clock: Clock, keep: bool)
    : (State, Result<Response, IngestError>)
  {
    if key.Some? && key.value in s.saved then (s, Replay(s, rows, key.value))
    else
      var n := ValidPrefix(accounts, rows);
      if n < |rows| then
        (if keep then s.(items := Merge(s.items, rows[..n], clock)) else s, Err(RowError(accounts, rows[n]).value))
      else
        var counts := Tally(s.items, rows, clock);
        (State(Merge(s.items, rows, clock), Saves(s, rows, key, counts)), Ok(Response(counts, false)))
  }

  datatype Call = Call(accounts: Accounts, rows: seq<Row>, key: Option<Id>, clock: Clock)

  function Run(s: State, calls: seq<Call>, keep: bool): State {
    if calls == [] then s
    else
      var c := calls[|calls| - 1];
      Ingest(Run(s, calls[..|calls| - 1], keep), c.accounts, c.rows, c.key, c.clock, keep).0
  }

  lemma {:induction false} SavedStays(s: State, calls: seq<Call>, keep: bool, key: Id)
    requires key in s.saved
    ensures key in Run(s, calls, keep).saved && Run(s, calls, keep).saved[key] == s.saved[key]
  {
    if calls != [] {
      SavedStays(s, calls[..|calls| - 1], keep, key);
    }
  }

  /** Once a keyed request has gone through, after any further requests the key answers with the
      first counts to the same rows key by key, with a conflict to all others, and changes nothing. */
  lemma KeyAnswersForever(s: State, first: Call, calls: seq<Call>, again: Call, keep: bool)
    requires first.key.Some? && again.key == first.key
    requires first.key.value !in s.saved
    requires Ingest(s, first.accounts, first.rows, first.key, first.clock, keep).1.Ok?
    ensures var (t, r) := Ingest(s, first.accounts, first.rows, first.key, first.clock, keep);
            var u := Run(t, calls, keep);
            Ingest(u, again.accounts, again.rows, again.key, again.clock, keep)
            == (u, if SameByKey(first.rows, again.rows) then Ok(Response(r.value.counts, true)) else Err(KeyReused))
  {
    var t := Ingest(s, first.accounts, first.rows, first.key, first.clock, keep).0;
    SavedStays(t, calls, keep, first.key.value);
    SameDigestIff(first.rows, again.rows);
  }

  /** A refused request leaves no trace in the in-memory store exactly when it is refused for its key
      or its very first row is bad. */
  lemma RefusalLeavesNoTraceIff(s: State, accounts: Accounts, rows: seq<Row>, key: Option<Id>, clock: Clock)
    requires Ingest(s, accounts, rows, key, clock, true).1.Err?
    requires forall k, i: nat :: k in s.items ==> s.items[k].updatedAt < clock(i)
    ensures Ingest(s, accounts, rows, key, clock, true).0 == s
            <==> (key.Some? && key.value in s.saved) || RowError(accounts, rows[0]).Some?
    ensures Ingest(s, accounts, rows, key, clock, false).0 == s
  {
    if !(key.Some? && key.value in s.saved) {
      var n := ValidPrefix(accounts, rows);
      var kept := rows[..n];
      if n > 0 {
        MergeAt(s.items, kept, clock, rows[0].key);
        assert kept[0] in Only(kept, rows[0].key);
      }
    }
  }

  // ---------- fields and acceptance ----------

  /** Each given field is stored in its own metric, by its value. */
  lemma StoredFields(items: Items, row: Row, now: Time)
    ensures var m := Upsert(items, row, now)[row.key].metrics; var g := row.given;
            && m.impressions == g.impressions && m.clicks == g.clicks && m.spend == g.spend.hundredths
            && (m.conversions.Some? <==> g.conversions.Some?)
            && (g.conversions.Some? ==> m.conversions.value == g.conversions.value.hundredths)
  {
  }

  /** A request under an unused key goes through exactly when every row names an existing account on its
      own platform; then the key is remembered, and no other key changes. */
  lemma AcceptedIff(s: State, accounts: Accounts, rows: seq<Row>, key: Option<Id>, clock: Clock, keep: bool, other: Id)
    requires key.Some? ==> key.value !in s.saved
    ensures var (t, r) := Ingest(s, accounts, rows, key, clock, keep);
            && (r.Ok? <==> forall row :: row in rows ==>
                  row.key.account in accounts && accounts[row.key.account] == row.key.platform)
            && (r.Ok? ==> !r.value.replayed && t.items == Merge(s.items, rows, clock))
            && (r.Ok? && key.Some? ==> key.value in t.saved)
            && (key != Some(other) ==> (other in t.saved <==> other in s.saved))
            && (key != Some(other) && other in s.saved ==> t.saved[other] == s.saved[other])
  {
    var n := ValidPrefix(accounts, rows);
    if n < |rows| {
      assert rows[n] in rows;
    } else {
      forall row | row in rows
        ensures RowError(accounts, row).None?
      {
        var i :| 0 <= i < |rows| && rows[i] == row;
      }
    }
  }
}
