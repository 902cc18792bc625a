/** The date windows of an account's syncs: which days each run asks the provider for,
    and why a sequence of successful runs leaves no day out. Dates are day numbers. */
module SyncWindows {
  import opened Wrappers

  type Date = int

  // ---------- validating the provider's rows ----------

  /** One of the four date fields of a provider row. */
  datatype DateField = Absent | NotText | NotIso | NotCalendar | Day(date: Date)

  datatype RowError =
    | NotAnObject | NonStringDate | InvalidIsoDate | InvalidCalendarDate | MissingDate | ConflictingDates
    | OutsideRange | InvalidMetric

  /** A metric field: faulty if it is missing where it is required, null, or not a count or amount. */
  datatype MetricField = Readable | Faulty

  /** A row's date fields in the order they are read (date, date_start, day, stat_time_day) and its
      metric fields. */
  datatype ProviderRow = NotObject | Fields(dates: seq<DateField>, metrics: seq<MetricField>)

  function FieldError(f: DateField): Option<RowError> {
    match f
    case Absent => None
    case Day(_) => None
    case NotText => Some(NonStringDate)
    case NotIso => Some(InvalidIsoDate)
    case NotCalendar => Some(InvalidCalendarDate)
  }

  /** The row states the day d, in one field or in several that agree, and nothing malformed. */
  predicate States(row: ProviderRow, d: Date) {
    && row.Fields? && Day(d) in row.dates
    && (forall f :: f in row.dates ==> f == Absent || f == Day(d))
    && Faulty !in row.metrics
  }

  /** The day a row contributes to a window, if the row is acceptable. */
  ghost function DayOf(row: ProviderRow, w: Window): (r: Option<Date>)
    ensures r.Some? ==> States(row, r.value) && w.from <= r.value <= w.to
  {
    if exists d :: States(row, d) && w.from <= d <= w.to then
      var d :| States(row, d) && w.from <= d <= w.to;
      Some(d)
    else None
  }

  /** All rows or none. */
  ghost function Validated(rows: seq<ProviderRow>, w: Window): (r: Option<seq<Date>>)
    ensures r.Some? ==> RowsInside(r.value, w) && |r.value| == |rows|
  {
    if rows == [] then Some([])
    else
      var rest, day := Validated(rows[..|rows| - 1], w), DayOf(rows[|rows| - 1], w);
      if rest.Some? && day.Some? then Some(rest.value + [day.value]) else None
  }

  lemma {:induction false} RejectedRow(rows: seq<ProviderRow>, w: Window, i: nat)
    requires i < |rows| && DayOf(rows[i], w).None?
    ensures Validated(rows, w).None?
    decreases |rows|
  {
    if i < |rows| - 1 {
      RejectedRow(rows[..|rows| - 1], w, i);
    }
  }

  /** The days a row's date fields give, if none of them is malformed. */
  method ParseDates(fields: seq<DateField>) returns (r: Result<seq<Date>, RowError>)
    ensures r.Ok? <==> forall f :: f in fields ==> f == Absent || f.Day?
    ensures r.Ok? ==> forall d :: d in r.value <==> Day(d) in fields
  {
    var parsed: seq<Date> := [];
    for i := 0 to |fields|
      invariant forall d :: d in parsed <==> Day(d) in fields[..i]
      invariant forall f :: f in fields[..i] ==> f == Absent || f.Day?
    {
      assert fields[..i + 1] == fields[..i] + [fields[i]];
      var error := FieldError(fields[i]);
      if error.Some? {
        assert fields[i] in fields;
        return Err(error.value);
      }
      if fields[i].Day? {
        parsed := parsed + [fields[i].date];
      }
    }
    assert fields[..|fields|] == fields;
    r := Ok(parsed);
  }

  method ParseRow(row: ProviderRow, w: Window) returns (r: Result<Date, RowError>)
    ensures DayOf(row, w) == if r.Ok? then Some(r.value) else None
  {
    if row.NotObject? {
      return Err(NotAnObject);
    }
    var dates := ParseDates(row.dates);
    if dates.Err? {
      return Err(dates.error);
    }
    var parsed := dates.value;
    if parsed == [] {
      assert forall d :: !States(row, d);
      return Err(MissingDate);
    }
    var rowDate := parsed[0];
    assert Day(rowDate) in row.dates;
    if candidate :| candidate in parsed && candidate != rowDate {
      assert Day(candidate) in row.dates;
      return Err(ConflictingDates);
    }
    assert forall d :: States(row, d) ==> d == rowDate;
    if rowDate < w.from || rowDate > w.to {
      return Err(OutsideRange);
    }
    if Faulty in row.metrics {
      return Err(InvalidMetric);
    }
    assert States(row, rowDate);
    return Ok(rowDate);
  }

  method ValidateRows(rows: seq<ProviderRow>, w: Window) returns (r: Result<seq<Date>, RowError>)
    ensures Validated(rows, w) == if r.Ok? then Some(r.value) else None
  {
    var validated: seq<Date> := [];
    for i := 0 to |rows|
      invariant Validated(rows[..i], w) == Some(validated)
    {
      assert rows[..i + 1][..i] == rows[..i];
      var parsed := ParseRow(rows[i], w);
      if parsed.Err? {
        RejectedRow(rows, w, i);
        return Err(parsed.error);
      }
      validated := validated + [parsed.value];
    }
    assert rows[..|rows|] == rows;
    return Ok(validated);
  }

  // ---------- choosing the window ----------

  /** The sync fields of an account's metadata; lastSyncAt is the legacy column. */
  datatype Meta = Meta(
    backfillCompleted: Option<Date>, latestData: Option<Date>, lastData: Option<Date>,
    lastSyncColumn: Option<Date>, lastSync: Option<Date>)

  datatype Settings = Settings(lookbackDays: nat, overlapDays: nat)

  /** The constructor clamps both settings. */
  predicate SettingsOk(c: Settings) {
    c.lookbackDays >= 1 && 1 <= c.overlapDays <= 30
  }

  datatype Window = Window(from: Date, to: Date)

  function NewestKnown(meta: Meta): Option<Date> {
    if meta.latestData.Some? then meta.latestData
    else if meta.lastData.Some? then meta.lastData
    else if meta.lastSyncColumn.Some? then meta.lastSyncColumn
    else meta.lastSync
  }

  function ResolveRange(c: Settings, meta: Meta, explicitFrom: Option<Date>, to: Date): (w: Window)
    ensures w.from <= w.to == to
  {
    var newest := NewestKnown(meta);
    var from :=
      if explicitFrom.Some? then explicitFrom.value
      else if meta.backfillCompleted.Some? && newest.Some? then newest.value - (c.overlapDays - 1)
      else to - (c.lookbackDays - 1);
    Window(if from > to then to else from, to)
  }

  // ---------- one sync and a sequence of syncs ----------

  function MaxDate(dates: seq<Date>): (m: Date)
    requires dates != []
    ensures m in dates && forall d :: d in dates ==> d <= m
  {
    if |dates| == 1 then dates[0]
    else
      var rest := MaxDate(dates[1..]);
      assert dates == [dates[0]] + dates[1..];
      if dates[0] > rest then dates[0] else rest
  }

  /** One run: the first day asked for, if the caller names one, the last day asked for (today,
      unless the caller names one), the day it finishes, and either the validated days of the
      returned rows or a failure. */
  datatype Sync = Sync(explicitFrom: Option<Date>, to: Date, finished: Date, rows: Option<seq<Date>>)

  function WindowOf(c: Settings, meta: Meta, s: Sync): Window {
    ResolveRange(c, meta, s.explicitFrom, s.to)
  }

  predicate RowsInside(rows: seq<Date>, w: Window) {
    forall d :: d in rows ==> w.from <= d <= w.to
  }

  /** The metadata written after the run; a run with an explicit first day never completes the
      back-fill. */
  function AfterSync(meta: Meta, s: Sync): Meta {
    if s.rows.None? || s.rows.value == [] then meta
    else
      var newest := Some(MaxDate(s.rows.value));
      meta.(latestData := newest, lastData := newest, lastSync := Some(s.finished), lastSyncColumn := Some(s.finished),
            backfillCompleted := if meta.backfillCompleted.Some? || s.explicitFrom.Some? then meta.backfillCompleted
                                 else Some(s.finished))
  }

  predicate Completes(meta: Meta, s: Sync) {
    meta.backfillCompleted.None? && AfterSync(meta, s).backfillCompleted.Some?
  }

  function MetaAfter(meta: Meta, syncs: seq<Sync>): Meta {
    if syncs == [] then meta
    else AfterSync(MetaAfter(meta, syncs[..|syncs| - 1]), syncs[|syncs| - 1])
  }

  function WindowAt(c: Settings, meta: Meta, syncs: seq<Sync>, i: nat): Window
    requires i < |syncs|
  {
    WindowOf(c, MetaAfter(meta, syncs[..i]), syncs[i])
  }

  /** Validation kept every row inside its window. */
  ghost predicate SyncsOk(c: Settings, meta: Meta, syncs: seq<Sync>) {
    forall i :: 0 <= i < |syncs| && syncs[i].rows.Some? ==> RowsInside(syncs[i].rows.value, WindowAt(c, meta, syncs, i))
  }

  /** Day d lies in the window of some successful sync. */
  ghost predicate Covered(c: Settings, meta: Meta, syncs: seq<Sync>, d: Date) {
    exists i :: 0 <= i < |syncs| && syncs[i].rows.Some?
                && WindowAt(c, meta, syncs, i).from <= d <= WindowAt(c, meta, syncs, i).to
  }

  /** The covered days have no gap. */
  ghost predicate GapFree(c: Settings, meta: Meta, syncs: seq<Sync>) {
    forall a, b, d :: Covered(c, meta, syncs, a) && Covered(c, meta, syncs, b) && a <= d <= b ==>
        Covered(c, meta, syncs, d)
  }

  lemma PrefixKept(c: Settings, meta: Meta, syncs: seq<Sync>, s: Sync)
    ensures forall i :: 0 <= i < |syncs| ==> WindowAt(c, meta, syncs + [s], i) == WindowAt(c, meta, syncs, i)
    ensures WindowAt(c, meta, syncs + [s], |syncs|) == WindowOf(c, MetaAfter(meta, syncs), s)
    ensures MetaAfter(meta, syncs + [s]) == AfterSync(MetaAfter(meta, syncs), s)
  {
    var all := syncs + [s];
    assert all[..|syncs|] == syncs;
    forall i | 0 <= i < |syncs|
      ensures all[..i] == syncs[..i]
    {
    }
  }

  lemma SyncsExtend(c: Settings, meta: Meta, syncs: seq<Sync>, s: Sync)
    requires SyncsOk(c, meta, syncs)
    requires s.rows.Some? ==> RowsInside(s.rows.value, WindowOf(c, MetaAfter(meta, syncs), s))
    ensures SyncsOk(c, meta, syncs + [s])
  {
    PrefixKept(c, meta, syncs, s);
  }

  lemma SyncsUpTo(c: Settings, meta: Meta, syncs: seq<Sync>, n: nat)
    requires SyncsOk(c, meta, syncs) && n <= |syncs|
    ensures SyncsOk(c, meta, syncs[..n])
  {
    forall i | 0 <= i < n
      ensures syncs[..n][i] == syncs[i] && syncs[..n][..i] == syncs[..i]
    {
    }
  }

  lemma CoveredStep(c: Settings, meta: Meta, syncs: seq<Sync>, s: Sync, d: Date)
    ensures Covered(c, meta, syncs + [s], d) <==>
              Covered(c, meta, syncs, d)
              || (s.rows.Some? && var w := WindowOf(c, MetaAfter(meta, syncs), s); w.from <= d <= w.to)
  {
    PrefixKept(c, meta, syncs, s);
    var all := syncs + [s];
    if Covered(c, meta, syncs, d) {
      var i :| 0 <= i < |syncs| && syncs[i].rows.Some?
               && WindowAt(c, meta, syncs, i).from <= d <= WindowAt(c, meta, syncs, i).to;
      assert all[i] == syncs[i];
    }
    if s.rows.Some? && WindowOf(c, MetaAfter(meta, syncs), s).from <= d <= WindowOf(c, MetaAfter(meta, syncs), s).to {
      assert all[|syncs|] == s;
    }
  }

  // ---------- the covered span ----------

  /** The smallest window around the windows of the successful syncs. */
  function SpanAfter(c: Settings, meta: Meta, syncs: seq<Sync>): Option<Window> {
    if syncs == [] then None
    else
      var rest, s := syncs[..|syncs| - 1], syncs[|syncs| - 1];
      var before := SpanAfter(c, meta, rest);
      if s.rows.None? then before
      else
        var w := WindowOf(c, MetaAfter(meta, rest), s);
        if before.None? then Some(w) else Some(Around(before.value, w))
  }

  function Around(v: Window, w: Window): Window {
    Window(if w.from < v.from then w.from else v.from, if w.to > v.to then w.to else v.to)
  }

  /** The windows overlap or are next to each other. */
  predicate Touches(v: Window, w: Window) {
    w.from <= v.to + 1 && w.to >= v.from - 1
  }

  /** Every day of the span is covered, the back-fill is complete, and the newest known day is not
      past the end of the span. */
  ghost predicate CoveredSpan(c: Settings, meta: Meta, syncs: seq<Sync>, v: Window) {
    && v.from <= v.to
    && (forall d :: Covered(c, meta, syncs, d) <==> v.from <= d <= v.to)
    && MetaAfter(meta, syncs).backfillCompleted.Some?
    && MetaAfter(meta, syncs).latestData.Some?
    && MetaAfter(meta, syncs).latestData.value <= v.to
  }

  lemma FirstSpan(c: Settings, meta: Meta, s: Sync)
    requires Completes(meta, s) && RowsInside(s.rows.value, WindowOf(c, meta, s))
    ensures CoveredSpan(c, meta, [s], WindowOf(c, meta, s))
  {
    assert [] + [s] == [s] && MetaAfter(meta, []) == meta;
    PrefixKept(c, meta, [], s);
    forall d
      ensures Covered(c, meta, [s], d) <==> WindowOf(c, meta, s).from <= d <= WindowOf(c, meta, s).to
    {
      CoveredStep(c, meta, [], s, d);
    }
  }

  /** A further run whose window touches the span widens it; a failed run leaves it as it is. */
  lemma NextSpan(c: Settings, meta: Meta, syncs: seq<Sync>, v: Window, s: Sync)
    requires CoveredSpan(c, meta, syncs, v)
    requires var w := WindowOf(c, MetaAfter(meta, syncs), s);
             s.rows.Some? ==> Touches(v, w) && RowsInside(s.rows.value, w)
    ensures var w := WindowOf(c, MetaAfter(meta, syncs), s);
            CoveredSpan(c, meta, syncs + [s], if s.rows.Some? then Around(v, w) else v)
  {
    PrefixKept(c, meta, syncs, s);
    var w := WindowOf(c, MetaAfter(meta, syncs), s);
    var u := if s.rows.Some? then Around(v, w) else v;
    forall d
      ensures Covered(c, meta, syncs + [s], d) <==> u.from <= d <= u.to
    {
      CoveredStep(c, meta, syncs, s, d);
    }
  }

  /** Any success, with explicit dates or without: it leaves no gap exactly when its window touches
      the span. */
  lemma NextSuccessIsGapFreeIff(c: Settings, meta: Meta, syncs: seq<Sync>, v: Window, s: Sync)
    requires CoveredSpan(c, meta, syncs, v) && s.rows.Some?
    ensures GapFree(c, meta, syncs + [s]) <==> Touches(v, WindowOf(c, MetaAfter(meta, syncs), s))
  {
    var all := syncs + [s];
    var w := WindowOf(c, MetaAfter(meta, syncs), s);
    forall d
      ensures Covered(c, meta, all, d) <==> v.from <= d <= v.to || w.from <= d <= w.to
    {
      CoveredStep(c, meta, syncs, s, d);
    }
    assert Covered(c, meta, all, v.from) && Covered(c, meta, all, v.to);
    assert Covered(c, meta, all, w.from) && Covered(c, meta, all, w.to);
    if w.from > v.to + 1 {
      assert !Covered(c, meta, all, v.to + 1);
    } else if w.to < v.from - 1 {
      assert !Covered(c, meta, all, v.from - 1);
    }
  }

  /** An incremental run always reaches back into the span, so only the clock can open a gap: it
      touches exactly when its last day is at most one day before the span. */
  lemma IncrementalTouchesIff(c: Settings, meta: Meta, syncs: seq<Sync>, v: Window, s: Sync)
    requires SettingsOk(c) && CoveredSpan(c, meta, syncs, v) && s.explicitFrom.None?
    ensures Touches(v, WindowOf(c, MetaAfter(meta, syncs), s)) <==> s.to >= v.from - 1
  {
  }

  // ---------- sequences of syncs ----------

  /** Every success after the first sync touches the span before it. */
  ghost predicate AllTouch(c: Settings, meta: Meta, syncs: seq<Sync>) {
    forall i :: 1 <= i < |syncs| && syncs[i].rows.Some? ==> TouchesAt(c, meta, syncs, i)
  }

  predicate TouchesAt(c: Settings, meta: Meta, syncs: seq<Sync>, i: nat)
    requires i < |syncs|
  {
    var v := SpanAfter(c, meta, syncs[..i]);
    v.Some? && Touches(v.value, WindowAt(c, meta, syncs, i))
  }

  lemma TouchUpTo(c: Settings, meta: Meta, syncs: seq<Sync>, n: nat)
    requires AllTouch(c, meta, syncs) && n <= |syncs|
    ensures AllTouch(c, meta, syncs[..n])
  {
    forall i | 1 <= i < n && syncs[i].rows.Some?
      ensures TouchesAt(c, meta, syncs[..n], i)
    {
      assert syncs[..n][..i] == syncs[..i] && TouchesAt(c, meta, syncs, i);
    }
  }

  /** Let an account's first sync complete its back-fill. However many syncs follow, with explicit
      dates or without, failing or empty: as long as each success touches the span so far, the
      covered days are exactly the span. */
  lemma {:induction false} SpanIsCovered(c: Settings, meta: Meta, syncs: seq<Sync>)
    requires syncs != [] && Completes(meta, syncs[0]) && SyncsOk(c, meta, syncs) && AllTouch(c, meta, syncs)
    ensures var v := SpanAfter(c, meta, syncs); v.Some? && CoveredSpan(c, meta, syncs, v.value)
  {
    var n := |syncs| - 1;
    var rest, s := syncs[..n], syncs[n];
    assert syncs == rest + [s];
    if n == 0 {
      assert rest == [] && MetaAfter(meta, []) == meta && syncs[..0] == [];
      assert RowsInside(s.rows.value, WindowAt(c, meta, syncs, 0));
      FirstSpan(c, meta, s);
    } else {
      SyncsUpTo(c, meta, syncs, n);
      TouchUpTo(c, meta, syncs, n);
      SpanIsCovered(c, meta, rest);
      assert s.rows.Some? ==> TouchesAt(c, meta, syncs, n);
      NextSpan(c, meta, rest, SpanAfter(c, meta, rest).value, s);
    }
  }

  ghost predicate AlwaysGapFree(c: Settings, meta: Meta, syncs: seq<Sync>) {
    forall n :: 0 <= n <= |syncs| ==> GapFree(c, meta, syncs[..n])
  }

  /** Exactly when no gap ever opens: if and only if each success touches the span before it. */
  lemma NoGapIff(c: Settings, meta: Meta, syncs: seq<Sync>)
    requires syncs != [] && Completes(meta, syncs[0]) && SyncsOk(c, meta, syncs)
    ensures AlwaysGapFree(c, meta, syncs) <==> AllTouch(c, meta, syncs)
  {
    if AllTouch(c, meta, syncs) {
      forall n | 0 <= n <= |syncs|
        ensures GapFree(c, meta, syncs[..n])
      {
        if n > 0 {
          SyncsUpTo(c, meta, syncs, n);
          TouchUpTo(c, meta, syncs, n);
          SpanIsCovered(c, meta, syncs[..n]);
        }
      }
    }
    if AlwaysGapFree(c, meta, syncs) {
      GapFreeTouches(c, meta, syncs);
    }
  }

  lemma {:induction false} GapFreeTouches(c: Settings, meta: Meta, syncs: seq<Sync>)
    requires syncs != [] && Completes(meta, syncs[0]) && SyncsOk(c, meta, syncs) && AlwaysGapFree(c, meta, syncs)
    ensures AllTouch(c, meta, syncs)
  {
    var n := |syncs| - 1;
    if n > 0 {
      var rest, s := syncs[..n], syncs[n];
      SyncsUpTo(c, meta, syncs, n);
      GapFreeUpTo(c, meta, syncs, n);
      GapFreeTouches(c, meta, rest);
      SpanIsCovered(c, meta, rest);
      assert syncs == rest + [s] && syncs[..n + 1] == syncs;
      if s.rows.Some? {
        NextSuccessIsGapFreeIff(c, meta, rest, SpanAfter(c, meta, rest).value, s);
      }
      TouchExtends(c, meta, syncs);
    }
  }

  lemma GapFreeUpTo(c: Settings, meta: Meta, syncs: seq<Sync>, n: nat)
    requires AlwaysGapFree(c, meta, syncs) && n <= |syncs|
    ensures AlwaysGapFree(c, meta, syncs[..n])
  {
    forall i | 0 <= i <= n
      ensures syncs[..n][..i] == syncs[..i]
    {
    }
  }

  lemma TouchExtends(c: Settings, meta: Meta, syncs: seq<Sync>)
    requires syncs != [] && AllTouch(c, meta, syncs[..|syncs| - 1])
    requires syncs[|syncs| - 1].rows.Some? ==> TouchesAt(c, meta, syncs, |syncs| - 1)
    ensures AllTouch(c, meta, syncs)
  {
    var rest := syncs[..|syncs| - 1];
    forall i | 1 <= i < |syncs| && syncs[i].rows.Some?
      ensures TouchesAt(c, meta, syncs, i)
    {
      if i < |rest| {
        assert rest[i] == syncs[i] && rest[..i] == syncs[..i] && TouchesAt(c, meta, rest, i);
      }
    }
  }

  /** Runs without explicit dates, on days that never go back. */
  predicate Unattended(syncs: seq<Sync>) {
    && (forall i :: 0 <= i < |syncs| ==> syncs[i].explicitFrom.None?)
    && (forall i, j :: 0 <= i < j < |syncs| ==> syncs[i].to <= syncs[j].to)
  }

  /** No gaps: after a first sync that completes the back-fill, runs without explicit dates on days
      that never go back leave the covered days one interval, whatever fails in between. */
  lemma {:induction false} NoGapWindows(c: Settings, meta: Meta, syncs: seq<Sync>)
    requires SettingsOk(c) && syncs != [] && SyncsOk(c, meta, syncs) && Completes(meta, syncs[0])
    requires Unattended(syncs)
    ensures AllTouch(c, meta, syncs)
    ensures var v := SpanAfter(c, meta, syncs);
            v.Some? && CoveredSpan(c, meta, syncs, v.value) && v.value.from <= syncs[0].to
  {
    var n := |syncs| - 1;
    if n > 0 {
      var rest, s := syncs[..n], syncs[n];
      SyncsUpTo(c, meta, syncs, n);
      NoGapWindows(c, meta, rest);
      IncrementalTouchesIff(c, meta, rest, SpanAfter(c, meta, rest).value, s);
      assert syncs[0].to <= s.to;
      TouchExtends(c, meta, syncs);
    }
    SpanIsCovered(c, meta, syncs);
    if n == 0 {
      assert syncs[..0] == [] && MetaAfter(meta, []) == meta;
    }
  }

  // ---------- how far back a window reaches ----------

  function Lesser(a: int, b: int): int {
    if a < b then a else b
  }

  /** The last day is the one asked for, the first day is explicit, or reaches back the whole look-back,
      or the overlap before the newest known day, whichever field of the metadata tells it; a first day
      past the last one gives a single day. */
  lemma WindowReach(c: Settings, meta: Meta, explicitFrom: Option<Date>, to: Date)
    ensures var w := ResolveRange(c, meta, explicitFrom, to);
            && w.to == to
            && (forall d :: explicitFrom == Some(d) ==> w.from == Lesser(d, to))
            && (explicitFrom.None? && meta.backfillCompleted.None? ==> w.from == Lesser(to - c.lookbackDays + 1, to))
            && (explicitFrom.None? && meta.backfillCompleted.Some? ==>
                  && (forall d :: meta.latestData == Some(d) ==> w.from == Lesser(d - c.overlapDays + 1, to))
                  && (meta.latestData.None? ==>
                        && (forall d :: meta.lastData == Some(d) ==> w.from == Lesser(d - c.overlapDays + 1, to))
                        && (meta.lastData.None? ==>
                              && (forall d :: meta.lastSyncColumn == Some(d) ==>
                                  w.from == Lesser(d - c.overlapDays + 1, to))
                              && (meta.lastSyncColumn.None? ==>
                                    && (forall d :: meta.lastSync == Some(d) ==>
                                        w.from == Lesser(d - c.overlapDays + 1, to))
                                    && (meta.lastSync.None? ==> w.from == Lesser(to - c.lookbackDays + 1, to))))))
  {
  }

  /** Sync i of a sequence succeeded, so the days of its window are covered. */
  lemma CoveredBy(c: Settings, meta: Meta, syncs: seq<Sync>, i: nat, d: Date)
    requires i < |syncs| && syncs[i].rows.Some?
    requires WindowAt(c, meta, syncs, i).from <= d <= WindowAt(c, meta, syncs, i).to
    ensures Covered(c, meta, syncs, d)
  {
  }

  /** Whatever sync of a sequence completes the back-fill, each of the look-back's days up to its last
      day is covered, and stays so. */
  lemma BackfillIsCovered(c: Settings, meta: Meta, syncs: seq<Sync>, i: nat, d: Date)
    requires i < |syncs| && Completes(MetaAfter(meta, syncs[..i]), syncs[i])
    requires syncs[i].to - c.lookbackDays < d <= syncs[i].to
    ensures Covered(c, meta, syncs, d)
  {
    WindowReach(c, MetaAfter(meta, syncs[..i]), syncs[i].explicitFrom, syncs[i].to);
    CoveredBy(c, meta, syncs, i, d);
  }

  /** A later success without an explicit first day asks again for the overlap up to the newest day
      known so far, and for every day after it. */
  lemma OverlapIsCovered(c: Settings, meta: Meta, syncs: seq<Sync>, i: nat, d: Date)
    requires i < |syncs| && syncs[i].rows.Some? && syncs[i].explicitFrom.None?
    requires var before := MetaAfter(meta, syncs[..i]);
             before.backfillCompleted.Some? && before.latestData.Some?
             && before.latestData.value - c.overlapDays < d <= syncs[i].to
    ensures Covered(c, meta, syncs, d)
  {
    WindowReach(c, MetaAfter(meta, syncs[..i]), syncs[i].explicitFrom, syncs[i].to);
    CoveredBy(c, meta, syncs, i, d);
  }

  /** The newest known day is the newest day any success has brought last; a run that failed or brought
      no rows tells nothing. */
  lemma NewestDay(meta: Meta, syncs: seq<Sync>, s: Sync)
    ensures var before, after := MetaAfter(meta, syncs), MetaAfter(meta, syncs + [s]);
            if s.rows.None? || s.rows.value == [] then after == before
            else
              && after.latestData.Some? && after.latestData == after.lastData
              && after.latestData.value in s.rows.value
              && (forall d :: d in s.rows.value ==> d <= after.latestData.value)
              && after.lastSync == after.lastSyncColumn == Some(s.finished)
              && (after.backfillCompleted.Some? <==> before.backfillCompleted.Some? || s.explicitFrom.None?)
              && (before.backfillCompleted.Some? ==> after.backfillCompleted == before.backfillCompleted)
  {
    assert (syncs + [s])[..|syncs|] == syncs;
  }
}
