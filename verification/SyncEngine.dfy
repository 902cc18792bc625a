/** One provider sync over a list of accounts: skip, fetch, validate, write the job row and the
    account's metadata. Ties the loop of run_sync to the window and back-off models. */
module SyncEngine {
  import opened Wrappers
  import W = SyncWindows
  import B = SyncBackoff

  type Id = nat

  /** What the provider call of one account yields. */
  datatype Fetch = Raises(retryable: bool) | Returns(rows: seq<W.ProviderRow>)

  /** One account's turn: the provider's answer, whether storing valid rows fails (and is worth a
      retry), and the clock readings around it. */
  datatype Attempt = Attempt(fetch: Fetch, storeFailure: Option<bool>,
                             startedAt: B.Time, finishedAt: B.Time, finishedDay: W.Date)

  /** What a caller of the run asks for. */
  datatype Order = Order(force: bool, explicitFrom: Option<W.Date>, to: W.Date)

  datatype Account = Account(meta: W.Meta, jobs: seq<B.Job>)

  predicate IsSkipped(a: Account, o: Order, t: Attempt) {
    !o.force && B.Skips(B.Before(a.jobs, |a.jobs|), t.startedAt)
  }

  ghost function ValidRows(c: W.Settings, a: Account, o: Order, t: Attempt): Option<seq<W.Date>> {
    if t.fetch.Raises? then None else W.Validated(t.fetch.rows, W.ResolveRange(c, a.meta, o.explicitFrom, o.to))
  }

  /** The run as the window model sees it: validated and stored days, or a failure. */
  ghost function SyncOf(c: W.Settings, a: Account, o: Order, t: Attempt): W.Sync {
    W.Sync(o.explicitFrom, o.to, t.finishedDay, if t.storeFailure.Some? then None else ValidRows(c, a, o, t))
  }

  /** A payload that fails validation is an error that is not retried. */
  ghost function StatusOf(c: W.Settings, a: Account, o: Order, t: Attempt): B.JobStatus {
    if t.fetch.Raises? then B.Error(t.fetch.retryable)
    else if ValidRows(c, a, o, t).None? then B.Error(false)
    else if t.storeFailure.Some? then B.Error(t.storeFailure.value)
    else B.Success
  }

  ghost function Synced(c: W.Settings, a: Account, o: Order, t: Attempt): Account {
    if IsSkipped(a, o, t) then a
    else Account(W.AfterSync(a.meta, SyncOf(c, a, o, t)),
                 a.jobs + [B.NewJob(B.Before(a.jobs, |a.jobs|), t.startedAt, t.finishedAt, StatusOf(c, a, o, t))])
  }

  datatype RunResult = RunResult(processed: nat, skipped: nat, success: nat, failed: nat, retryScheduled: nat)

  /** One account's outcome in the counters; None is a skip. */
  function Count(r: RunResult, outcome: Option<B.JobStatus>): RunResult {
    match outcome
    case None => r.(skipped := r.skipped + 1)
    case Some(Success) => r.(processed := r.processed + 1, success := r.success + 1)
    case Some(Error(retryable)) =>
      r.(processed := r.processed + 1, failed := r.failed + 1,
         retryScheduled := r.retryScheduled + if retryable then 1 else 0)
  }

  function Tally(outcomes: seq<Option<B.JobStatus>>): (r: RunResult)
    ensures r.processed + r.skipped == |outcomes| && r.success + r.failed == r.processed && r.retryScheduled <= r.failed
  {
    if outcomes == [] then RunResult(0, 0, 0, 0, 0)
    else Count(Tally(outcomes[..|outcomes| - 1]), outcomes[|outcomes| - 1])
  }

  ghost function OutcomeOf(c: W.Settings, a: Account, o: Order, t: Attempt): Option<B.JobStatus> {
    if IsSkipped(a, o, t) then None else Some(StatusOf(c, a, o, t))
  }

  type Accounts = map<Id, Account>

  ghost function RunTo(c: W.Settings, s: Accounts, ids: seq<Id>, attempts: seq<Attempt>, o: Order): (r: Accounts)
    requires |attempts| == |ids| && forall id :: id in ids ==> id in s
    ensures r.Keys == s.Keys
  {
    if ids == [] then s
    else
      var last := |ids| - 1;
      var before := RunTo(c, s, ids[..last], attempts[..last], o);
      before[ids[last] := Synced(c, before[ids[last]], o, attempts[last])]
  }

  ghost function OutcomesOf(c: W.Settings, s: Accounts, ids: seq<Id>, attempts: seq<Attempt>, o: Order)
    : seq<Option<B.JobStatus>>
    requires |attempts| == |ids| && forall id :: id in ids ==> id in s
  {
    if ids == [] then []
    else
      var last := |ids| - 1;
      OutcomesOf(c, s, ids[..last], attempts[..last], o)
      + [OutcomeOf(c, RunTo(c, s, ids[..last], attempts[..last], o)[ids[last]], o, attempts[last])]
  }

  class AdAccountSyncService {
    const settings: W.Settings
    var accounts: Accounts

    constructor (lookbackDays: int, overlapDays: int)
      ensures W.SettingsOk(settings) && accounts == map[]
      ensures lookbackDays >= 1 ==> settings.lookbackDays == lookbackDays
      ensures 1 <= overlapDays <= 30 ==> settings.overlapDays == overlapDays
    {
      settings := W.Settings(if lookbackDays > 1 then lookbackDays else 1,
                             if overlapDays > 30 then 30 else if overlapDays > 1 then overlapDays else 1);
      accounts := map[];
    }

    method SyncAccount(id: Id, o: Order, t: Attempt) returns (status: Option<B.JobStatus>)
      requires id in accounts
      modifies this
      ensures accounts == old(accounts)[id := Synced(settings, old(accounts)[id], o, t)]
      ensures status == OutcomeOf(settings, old(accounts)[id], o, t)
    {
      var a := accounts[id];
      var prev := if |a.jobs| == 0 then None else Some(a.jobs[|a.jobs| - 1]);
      var window := W.ResolveRange(settings, a.meta, o.explicitFrom, o.to);
      if !o.force && B.Skips(prev, t.startedAt) {
        return None;
      }
      var stored: Option<seq<W.Date>>, outcome := None, B.Success;
      if t.fetch.Raises? {
        outcome := B.Error(t.fetch.retryable);
      } else {
        var validated := W.ValidateRows(t.fetch.rows, window);
        if validated.Err? {
          outcome := B.Error(false);
        } else if t.storeFailure.Some? {
          outcome := B.Error(t.storeFailure.value);
        } else {
          stored := Some(validated.value);
        }
      }
      status := Some(outcome);
      var job := B.NewJob(prev, t.startedAt, t.finishedAt, outcome);
      var meta := W.AfterSync(a.meta, W.Sync(o.explicitFrom, o.to, t.finishedDay, stored));
      accounts := accounts[id := Account(meta, a.jobs + [job])];
    }

    /** The accounts one after the other, and the counters of their outcomes. */
    method RunSync(ids: seq<Id>, attempts: seq<Attempt>, o: Order) returns (r: RunResult)
      requires |attempts| == |ids| && forall id :: id in ids ==> id in accounts
      modifies this
      ensures accounts == RunTo(settings, old(accounts), ids, attempts, o)
      ensures r == Tally(OutcomesOf(settings, old(accounts), ids, attempts, o))
    {
      r := RunResult(0, 0, 0, 0, 0);
      for k := 0 to |ids|
        invariant accounts == RunTo(settings, old(accounts), ids[..k], attempts[..k], o)
        invariant r == Tally(OutcomesOf(settings, old(accounts), ids[..k], attempts[..k], o))
      {
        assert ids[..k + 1][..k] == ids[..k] && attempts[..k + 1][..k] == attempts[..k];
        assert ids[k] in ids;
        var status := SyncAccount(ids[k], o, attempts[k]);
        r := Count(r, status);
      }
      assert ids[..|ids|] == ids && attempts[..|ids|] == attempts;
    }
  }

  /** An account that is not listed does not change. */
  lemma {:induction false} OthersUnchanged(c: W.Settings, s: Accounts, ids: seq<Id>, attempts: seq<Attempt>, o: Order,
                                           id: Id)
    requires |attempts| == |ids| && forall x :: x in ids ==> x in s
    requires id in s && id !in ids
    ensures RunTo(c, s, ids, attempts, o)[id] == s[id]
  {
    if ids != [] {
      var last := |ids| - 1;
      assert ids[last] in ids;
      OthersUnchanged(c, s, ids[..last], attempts[..last], o, id);
    }
  }

  /** With distinct ids each listed account is synced once, in its own state before the run, and the
      counters tally exactly these outcomes. */
  lemma {:induction false} RunSyncIsPerAccount(c: W.Settings, s: Accounts, ids: seq<Id>, attempts: seq<Attempt>,
                                               o: Order, i: nat)
    requires |attempts| == |ids| && forall x :: x in ids ==> x in s
    requires forall j, k :: 0 <= j < k < |ids| ==> ids[j] != ids[k]
    requires i < |ids|
    ensures RunTo(c, s, ids, attempts, o)[ids[i]] == Synced(c, s[ids[i]], o, attempts[i])
    ensures var outcomes := OutcomesOf(c, s, ids, attempts, o);
            |outcomes| == |ids| && outcomes[i] == OutcomeOf(c, s[ids[i]], o, attempts[i])
  {
    var last := |ids| - 1;
    OutcomesLength(c, s, ids, attempts, o);
    OutcomesLength(c, s, ids[..last], attempts[..last], o);
    if i < last {
      assert ids[..last][i] == ids[i] && attempts[..last][i] == attempts[i];
      RunSyncIsPerAccount(c, s, ids[..last], attempts[..last], o, i);
    } else {
      assert ids[last] in ids && ids[last] !in ids[..last];
      OthersUnchanged(c, s, ids[..last], attempts[..last], o, ids[last]);
    }
  }

  lemma {:induction false} OutcomesLength(c: W.Settings, s: Accounts, ids: seq<Id>, attempts: seq<Attempt>, o: Order)
    requires |attempts| == |ids| && forall x :: x in ids ==> x in s
    ensures |OutcomesOf(c, s, ids, attempts, o)| == |ids|
  {
    if ids != [] {
      var last := |ids| - 1;
      OutcomesLength(c, s, ids[..last], attempts[..last], o);
    }
  }

  // ---------- what the engine inherits from the two models ----------

  /** One account through a sequence of runs. */
  datatype Turn = Turn(order: Order, attempt: Attempt)

  ghost function AccountAfter(c: W.Settings, a: Account, turns: seq<Turn>): Account {
    if turns == [] then a
    else
      var t := turns[|turns| - 1];
      Synced(c, AccountAfter(c, a, turns[..|turns| - 1]), t.order, t.attempt)
  }

  /** The sync of a turn, unless it is skipped. */
  ghost function SyncOfTurn(c: W.Settings, before: Account, t: Turn): seq<W.Sync> {
    if IsSkipped(before, t.order, t.attempt) then [] else [SyncOf(c, before, t.order, t.attempt)]
  }

  ghost function SyncsOf(c: W.Settings, a: Account, turns: seq<Turn>): seq<W.Sync> {
    if turns == [] then []
    else
      var rest := turns[..|turns| - 1];
      SyncsOf(c, a, rest) + SyncOfTurn(c, AccountAfter(c, a, rest), turns[|turns| - 1])
  }

  ghost predicate AreSyncs(c: W.Settings, start: W.Meta, now: W.Meta, syncs: seq<W.Sync>) {
    now == W.MetaAfter(start, syncs) && W.SyncsOk(c, start, syncs)
  }

  lemma TurnIsSync(c: W.Settings, start: W.Meta, before: Account, syncs: seq<W.Sync>, t: Turn)
    requires AreSyncs(c, start, before.meta, syncs)
    ensures AreSyncs(c, start, Synced(c, before, t.order, t.attempt).meta, syncs + SyncOfTurn(c, before, t))
  {
    if IsSkipped(before, t.order, t.attempt) {
      assert syncs + [] == syncs;
    } else {
      var s := SyncOf(c, before, t.order, t.attempt);
      W.PrefixKept(c, start, syncs, s);
      W.SyncsExtend(c, start, syncs, s);
    }
  }

  /** The runs of the engine are syncs of the window model with their rows inside the windows. */
  lemma {:induction false} RunsAreSyncs(c: W.Settings, a: Account, turns: seq<Turn>)
    ensures AreSyncs(c, a.meta, AccountAfter(c, a, turns).meta, SyncsOf(c, a, turns))
  {
    if turns != [] {
      var rest, t := turns[..|turns| - 1], turns[|turns| - 1];
      RunsAreSyncs(c, a, rest);
      TurnIsSync(c, a.meta, AccountAfter(c, a, rest), SyncsOf(c, a, rest), t);
    }
  }

  /** Whether a gap opens is a matter of the windows alone: from the first run that is not skipped
      and completes the back-fill on, the days covered by the successful runs stay one interval
      exactly as long as every success touches the span before it. */
  lemma EngineHasNoGapsIff(c: W.Settings, a: Account, turns: seq<Turn>)
    requires var syncs := SyncsOf(c, a, turns); syncs != [] && W.Completes(a.meta, syncs[0])
    ensures var syncs := SyncsOf(c, a, turns);
            W.AlwaysGapFree(c, a.meta, syncs) <==> W.AllTouch(c, a.meta, syncs)
  {
    RunsAreSyncs(c, a, turns);
    W.NoGapIff(c, a.meta, SyncsOf(c, a, turns));
  }

  /** Runs without explicit dates on days that never go back. */
  predicate UnattendedTurns(turns: seq<Turn>) {
    && (forall i :: 0 <= i < |turns| ==> turns[i].order.explicitFrom.None?)
    && (forall i, j :: 0 <= i < j < |turns| ==> turns[i].order.to <= turns[j].order.to)
  }

  ghost predicate InDays(syncs: seq<W.Sync>, last: W.Date) {
    W.Unattended(syncs) && forall i :: 0 <= i < |syncs| ==> syncs[i].to <= last
  }

  lemma {:induction false} TurnsAreUnattended(c: W.Settings, a: Account, turns: seq<Turn>)
    requires turns != [] && UnattendedTurns(turns)
    ensures InDays(SyncsOf(c, a, turns), turns[|turns| - 1].order.to)
  {
    var rest, t := turns[..|turns| - 1], turns[|turns| - 1];
    if rest != [] {
      TurnsAreUnattended(c, a, rest);
      assert rest[|rest| - 1].order.to <= t.order.to;
    }
  }

  /** The engine leaves no gap on its own: with incremental runs only, on days that never go back,
      the covered days stay one interval. */
  lemma EngineHasNoGaps(c: W.Settings, a: Account, turns: seq<Turn>)
    requires W.SettingsOk(c) && UnattendedTurns(turns)
    requires turns != [] && SyncsOf(c, a, turns) != [] && W.Completes(a.meta, SyncsOf(c, a, turns)[0])
    ensures W.AlwaysGapFree(c, a.meta, SyncsOf(c, a, turns))
  {
    RunsAreSyncs(c, a, turns);
    TurnsAreUnattended(c, a, turns);
    W.NoGapWindows(c, a.meta, SyncsOf(c, a, turns));
    W.NoGapIff(c, a.meta, SyncsOf(c, a, turns));
  }

  /** An unforced run keeps the job history one of the back-off model. */
  lemma UnforcedRunIsSerial(c: W.Settings, a: Account, o: Order, t: Attempt)
    requires B.Serial(a.jobs) && !o.force
    ensures B.Serial(Synced(c, a, o, t).jobs)
  {
    var b := Synced(c, a, o, t);
    forall i: nat | i < |b.jobs|
      ensures B.WrittenAt(b.jobs, i)
    {
      if i < |a.jobs| {
        assert B.WrittenAt(a.jobs, i);
      }
    }
  }

  /** Unforced runs of an account without earlier jobs write a history of the back-off model. */
  lemma {:induction false} UnforcedTurnsAreSerial(c: W.Settings, a: Account, turns: seq<Turn>)
    requires a.jobs == [] && forall t :: t in turns ==> !t.order.force
    ensures B.Serial(AccountAfter(c, a, turns).jobs)
  {
    if turns != [] {
      var rest, t := turns[..|turns| - 1], turns[|turns| - 1];
      assert t in turns;
      UnforcedTurnsAreSerial(c, a, rest);
      UnforcedRunIsSerial(c, AccountAfter(c, a, rest), t.order, t.attempt);
    }
  }

  /** So any k consecutive retryable failures among them are as far apart as the back-off demands. */
  lemma EngineBacksOff(c: W.Settings, a: Account, turns: seq<Turn>, first: nat, k: nat)
    requires a.jobs == [] && forall t :: t in turns ==> !t.order.force
    requires var jobs := AccountAfter(c, a, turns).jobs;
             k >= 1 && first + k <= |jobs| && forall j :: first <= j < first + k ==> B.RetryableError(jobs[j])
    ensures var jobs := AccountAfter(c, a, turns).jobs;
            jobs[first + k - 1].startedAt - jobs[first].startedAt >= B.MinimumSpan(k) * B.MINUTE
  {
    UnforcedTurnsAreSerial(c, a, turns);
    B.BackoffSpacing(AccountAfter(c, a, turns).jobs, first, k);
  }

  // ---------- what the runs of an account have covered, and what the jobs tell ----------

  /** Once a run of the engine completes the back-fill, each of the look-back's days up to the last day
      it asked for is covered, however the account goes on. */
  lemma EngineCoversLookback(c: W.Settings, a: Account, turns: seq<Turn>, i: nat, d: W.Date)
    requires var syncs := SyncsOf(c, a, turns);
             && i < |syncs| && W.Completes(W.MetaAfter(a.meta, syncs[..i]), syncs[i])
             && syncs[i].to - c.lookbackDays < d <= syncs[i].to
    ensures W.Covered(c, a.meta, SyncsOf(c, a, turns), d)
  {
    W.BackfillIsCovered(c, a.meta, SyncsOf(c, a, turns), i, d);
  }

  /** The first turn of a fresh account that is not skipped, is answered with valid rows and is not given
      a first day covers the whole look-back. */
  lemma FirstRunCoversLookback(c: W.Settings, a: Account, t: Turn, d: W.Date)
    requires a.meta.backfillCompleted.None? && t.order.explicitFrom.None? && !IsSkipped(a, t.order, t.attempt)
    requires t.attempt.storeFailure.None? && ValidRows(c, a, t.order, t.attempt).Some?
    requires ValidRows(c, a, t.order, t.attempt).value != []
    requires t.order.to - c.lookbackDays < d <= t.order.to
    ensures W.Covered(c, a.meta, SyncsOf(c, a, [t]), d)
  {
    assert [t][..0] == [];
    var s := SyncOf(c, a, t.order, t.attempt);
    assert SyncsOf(c, a, [t]) == [s];
    assert [s][..0] == [] && W.MetaAfter(a.meta, []) == a.meta;
    W.BackfillIsCovered(c, a.meta, [s], 0, d);
  }

  /** A job is written for every run that is not skipped; it is a success exactly when the rows were
      valid and stored, a retry is planned exactly for a retryable error, and nothing but a success
      changes the metadata. */
  lemma JobTells(c: W.Settings, a: Account, o: Order, t: Attempt)
    requires !IsSkipped(a, o, t)
    ensures var b := Synced(c, a, o, t); var n := |a.jobs|;
            && |b.jobs| == n + 1 && b.jobs[..n] == a.jobs
            && b.jobs[n].startedAt == t.startedAt && b.jobs[n].finishedAt == Some(t.finishedAt)
            && (b.jobs[n].status == B.Success <==> SyncOf(c, a, o, t).rows.Some?)
            && (b.jobs[n].nextRetryAt.Some? <==> B.RetryableError(b.jobs[n]))
            && (b.jobs[n].status == B.Error(true) <==>
                  t.fetch == Raises(true)
                  || (t.fetch.Returns? && ValidRows(c, a, o, t).Some? && t.storeFailure == Some(true)))
            && (b.jobs[n].status != B.Success ==> b.meta == a.meta)
  {
  }

  /** Over any turns: one job for each sync, in order, and the successes are the same. */
  lemma {:induction false} JobsAreSyncs(c: W.Settings, a: Account, turns: seq<Turn>, i: nat)
    requires i < |SyncsOf(c, a, turns)|
    ensures var jobs := AccountAfter(c, a, turns).jobs; var syncs := SyncsOf(c, a, turns);
            && |jobs| == |a.jobs| + |syncs|
            && (jobs[|a.jobs| + i].status == B.Success <==> syncs[i].rows.Some?)
  {
    var rest, t := turns[..|turns| - 1], turns[|turns| - 1];
    var before := AccountAfter(c, a, rest);
    JobsCount(c, a, rest);
    JobsCount(c, a, turns);
    if i < |SyncsOf(c, a, rest)| {
      JobsAreSyncs(c, a, rest, i);
    }
    if !IsSkipped(before, t.order, t.attempt) {
      JobTells(c, before, t.order, t.attempt);
      var after := Synced(c, before, t.order, t.attempt);
      assert forall k :: 0 <= k < |before.jobs| ==> after.jobs[k] == after.jobs[..|before.jobs|][k];
    }
  }

  lemma {:induction false} JobsCount(c: W.Settings, a: Account, turns: seq<Turn>)
    ensures |AccountAfter(c, a, turns).jobs| == |a.jobs| + |SyncsOf(c, a, turns)|
  {
    if turns != [] {
      JobsCount(c, a, turns[..|turns| - 1]);
    }
  }

  /** The counters count: skips, successes, failures, and the failures that will be retried. */
  lemma {:induction false} TallyTells(outcomes: seq<Option<B.JobStatus>>)
    ensures var r, all := Tally(outcomes), multiset(outcomes);
            && r.skipped == all[None] && r.success == all[Some(B.Success)]
            && r.retryScheduled == all[Some(B.Error(true))]
            && r.failed == all[Some(B.Error(true))] + all[Some(B.Error(false))]
  {
    if outcomes != [] {
      var rest := outcomes[..|outcomes| - 1];
      assert outcomes == rest + [outcomes[|outcomes| - 1]];
      TallyTells(rest);
    }
  }
}
