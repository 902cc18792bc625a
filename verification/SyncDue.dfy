/** The scheduler's choice: which active accounts are due, in what order, and how many. */
module SyncDue {
  import opened Wrappers
  import opened SyncBackoff

  /** Account ids are UUIDs; their numeric order is the order of their text. */
  type Id = nat

  datatype Candidate = Candidate(id: Id, latest: Option<Job>)

  /** Retries come first, then accounts never synced, then stale ones. Within "never synced"
      the time is a constant (datetime.min). */
  datatype Entry = Entry(rank: nat, time: Time, id: Id)

  predicate Less(a: Entry, b: Entry) {
    a.rank < b.rank || (a.rank == b.rank && (a.time < b.time || (a.time == b.time && a.id < b.id)))
  }

  /** The entry of an account, if it is due. */
  function DueEntry(c: Candidate, now: Time, staleCutoff: Time): Option<Entry> {
    match c.latest
    case None => Some(Entry(1, 0, c.id))
    case Some(job) =>
      if job.status.Error? then
        if job.status.retryable && (job.nextRetryAt.None? || job.nextRetryAt.value <= now)
        then Some(Entry(0, if job.nextRetryAt.Some? then job.nextRetryAt.value else job.startedAt, c.id))
        else None
      else
        var completedAt := if job.finishedAt.Some? then job.finishedAt.value else job.startedAt;
        if completedAt <= staleCutoff then Some(Entry(2, completedAt, c.id)) else None
  }

  ghost predicate Ascending(es: seq<Entry>) {
    forall i, j :: 0 <= i < j < |es| ==> Less(es[i], es[j])
  }

  ghost predicate DistinctIds(cs: seq<Candidate>) {
    forall i, j :: 0 <= i < j < |cs| ==> cs[i].id != cs[j].id
  }

  /** Insert into an ascending list, keeping it ascending. */
  method Insert(es: seq<Entry>, e: Entry) returns (r: seq<Entry>)
    requires Ascending(es) && forall x :: x in es ==> x.id != e.id
    ensures Ascending(r) && forall x :: x in r <==> x in es || x == e
    ensures |r| == |es| + 1
  {
    var k := |es|;
    while k > 0 && Less(e, es[k - 1])
      invariant 0 <= k <= |es|
      invariant forall i :: k <= i < |es| ==> Less(e, es[i])
    {
      k := k - 1;
    }
    assert k > 0 ==> es[k - 1] in es;
    BelowSlot(es, e, k);
    Spliced(es, e, k);
    r := es[..k] + [e] + es[k..];
  }

  lemma BelowSlot(es: seq<Entry>, e: Entry, k: nat)
    requires Ascending(es) && k <= |es| && (k > 0 ==> !Less(e, es[k - 1]) && es[k - 1].id != e.id)
    ensures forall i :: 0 <= i < k ==> Less(es[i], e)
  {
    forall i | 0 <= i < k
      ensures Less(es[i], e)
    {
      assert i < k - 1 ==> Less(es[i], es[k - 1]);
    }
  }

  lemma Spliced(es: seq<Entry>, e: Entry, k: nat)
    requires Ascending(es) && k <= |es|
    requires (forall i :: 0 <= i < k ==> Less(es[i], e)) && (forall i :: k <= i < |es| ==> Less(e, es[i]))
    ensures var r := es[..k] + [e] + es[k..];
            Ascending(r) && |r| == |es| + 1 && forall x :: x in r <==> x in es || x == e
  {
    var r := es[..k] + [e] + es[k..];
    forall i, j | 0 <= i < j < |r|
      ensures Less(r[i], r[j])
    {
    }
    assert es == es[..k] + es[k..];
  }

  /** The due accounts in order. */
  method SelectAllDue(cs: seq<Candidate>, now: Time, staleCutoff: Time) returns (due: seq<Entry>)
    requires DistinctIds(cs)
    ensures Ascending(due)
    ensures forall e :: e in due <==> exists i :: 0 <= i < |cs| && DueEntry(cs[i], now, staleCutoff) == Some(e)
  {
    due := [];
    for k := 0 to |cs|
      invariant Ascending(due)
      invariant forall e :: e in due <==> exists i :: 0 <= i < k && DueEntry(cs[i], now, staleCutoff) == Some(e)
      invariant forall e :: e in due ==> exists i :: 0 <= i < k && cs[i].id == e.id
    {
      var entry := DueEntry(cs[k], now, staleCutoff);
      if entry.Some? {
        due := Insert(due, entry.value);
      }
    }
  }

  function Clamp(batch: int): (n: nat)
    ensures 1 <= n <= 100
  {
    if batch > 100 then 100 else if batch > 1 then batch else 1
  }

  function StaleCutoff(now: Time, staleAfterHours: int): Time {
    now - (if staleAfterHours > 1 then staleAfterHours else 1) * 60 * MINUTE
  }

  /** The selected accounts are the first clamp(batch, 1, 100) due ones in (rank, time, id)
      order: what is left out is due later than everything selected. No run that starts at or
      after the selection skips a selected account, and an account whose latest job is an error
      that is not retryable is never selected. */
  method SelectDue(cs: seq<Candidate>, now: Time, batch: int, staleAfterHours: int)
    returns (selected: seq<Id>, ghost chosen: seq<Entry>, ghost left: seq<Entry>)
    requires DistinctIds(cs)
    ensures Ascending(chosen + left)
    ensures forall e :: e in chosen + left <==>
              exists i :: 0 <= i < |cs| && DueEntry(cs[i], now, StaleCutoff(now, staleAfterHours)) == Some(e)
    ensures |chosen| <= Clamp(batch) && (left != [] ==> |chosen| == Clamp(batch))
    ensures |selected| == |chosen| && forall i :: 0 <= i < |selected| ==> selected[i] == chosen[i].id
    ensures forall c :: c in cs && c.id in selected ==> forall startedAt :: startedAt >= now ==>
            !Skips(c.latest, startedAt)
    ensures forall c :: c in cs && c.latest.Some? && c.latest.value.status == Error(false) ==> c.id !in selected
  {
    var due := SelectAllDue(cs, now, StaleCutoff(now, staleAfterHours));
    var n := if |due| < Clamp(batch) then |due| else Clamp(batch);
    selected := seq(n, i requires 0 <= i < n => due[i].id);
    chosen, left := due[..n], due[n..];
    assert chosen + left == due;
    forall c | c in cs && c.id in selected
      ensures DueEntry(c, now, StaleCutoff(now, staleAfterHours)).Some?
    {
      var k :| 0 <= k < n && due[k].id == c.id;
      assert due[k] in due;
    }
  }

  /** The latest job's end, or its start if it has none. */
  function EndOf(j: Job): Time {
    if j.finishedAt.Some? then j.finishedAt.value else j.startedAt
  }

  /** Exactly which accounts are due: those never synced, those whose retry may start, and those whose
      last success is old; retries come first, then new accounts, then the others, the longest waiting
      first in each class. */
  lemma DueIff(c: Candidate, now: Time, cutoff: Time)
    ensures var e := DueEntry(c, now, cutoff);
            && (e.Some? <==>
                  c.latest.None?
                  || (RetryableError(c.latest.value) && !Skips(c.latest, now))
                  || (c.latest.value.status == Success && EndOf(c.latest.value) <= cutoff))
            && (e.Some? ==>
                  && e.value.id == c.id
                  && (e.value.rank == 0 <==> c.latest.Some? && RetryableError(c.latest.value))
                  && (e.value.rank == 1 <==> c.latest.None?)
                  && (c.latest.Some? && c.latest.value.status == Success ==>
                      e.value == Entry(2, EndOf(c.latest.value), c.id))
                  && (c.latest.Some? && c.latest.value.nextRetryAt.Some? && RetryableError(c.latest.value) ==>
                        e.value.time == c.latest.value.nextRetryAt.value))
  {
  }

  /** The batch size counts within its bounds, and so do the hours until a success is old. */
  lemma BoundsAre(batch: int, now: Time, hours: int)
    ensures Clamp(batch) == if batch < 1 then 1 else if batch > 100 then 100 else batch
    ensures StaleCutoff(now, hours) == now - (if hours < 1 then 1 else hours) * 3_600_000_000
  {
  }
}
