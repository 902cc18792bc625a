/** Retry back-off over an account's job history. Times are microseconds, as the clock reads. */
module SyncBackoff {
  import opened Wrappers

  type Time = int

  const MINUTE: Time := 60_000_000

  datatype JobStatus = Success | Error(retryable: bool)

  datatype Job = Job(status: JobStatus, startedAt: Time, finishedAt: Option<Time>, attempt: nat,
      nextRetryAt: Option<Time>)

  predicate RetryableError(j: Job) {
    j.status == Error(true)
  }

  function Pow2(n: nat): (p: nat)
    ensures p >= 1
  {
    if n == 0 then 1 else 2 * Pow2(n - 1)
  }

  /** 1, 2, 4, ... minutes for attempts 1, 2, 3, ..., capped at an hour. */
  function DelayMinutes(attempt: int): (d: nat)
    ensures 1 <= d <= 60
  {
    var d := Pow2(if attempt - 1 > 0 then attempt - 1 else 0);
    if d > 60 then 60 else d
  }

  function NextRetryAt(now: Time, attempt: nat): Time {
    now + DelayMinutes(attempt) * MINUTE
  }

  /** An unforced run skips the account while its latest job is a retryable error in its delay. */
  predicate Skips(prev: Option<Job>, now: Time) {
    && prev.Some? && RetryableError(prev.value)
    && prev.value.nextRetryAt.Some? && now < prev.value.nextRetryAt.value
  }

  function AttemptNumber(prev: Option<Job>): nat {
    if prev.Some? && RetryableError(prev.value) then prev.value.attempt + 1 else 1
  }

  /** The job row of a run that was not skipped. */
  function NewJob(prev: Option<Job>, now: Time, finished: Time, status: JobStatus): Job {
    var attempt := AttemptNumber(prev);
    Job(status, now, Some(finished), if status == Success then 1 else attempt,
        if status == Error(true) then Some(NextRetryAt(now, attempt)) else None)
  }

  /** The latest job before position i. */
  function Before(jobs: seq<Job>, i: nat): Option<Job>
    requires i <= |jobs|
  {
    if i == 0 then None else Some(jobs[i - 1])
  }

  predicate WrittenAt(jobs: seq<Job>, i: nat)
    requires i < |jobs|
  {
    var prev := Before(jobs, i);
    !Skips(prev, jobs[i].startedAt)
    && jobs[i].finishedAt.Some?
    && jobs[i] == NewJob(prev, jobs[i].startedAt, jobs[i].finishedAt.value, jobs[i].status)
  }

  /** The job histories that unforced serial runs of one account write. */
  ghost predicate Serial(jobs: seq<Job>) {
    forall i: nat :: i < |jobs| ==> WrittenAt(jobs, i)
  }

  /** How many retryable errors stand directly before position i. */
  function Streak(jobs: seq<Job>, i: nat): (n: nat)
    requires i <= |jobs|
    ensures n <= i
    ensures forall j :: i - n <= j < i ==> RetryableError(jobs[j])
    ensures n < i ==> !RetryableError(jobs[i - n - 1])
  {
    if i > 0 && RetryableError(jobs[i - 1]) then 1 + Streak(jobs, i - 1) else 0
  }

  /** An error job's attempt is one more than the retryable errors directly before it. */
  lemma {:induction false} AttemptCountsStreak(jobs: seq<Job>, i: nat)
    requires Serial(jobs) && i < |jobs| && jobs[i].status.Error?
    ensures jobs[i].attempt == 1 + Streak(jobs, i)
  {
    assert WrittenAt(jobs, i);
    if i > 0 {
      if RetryableError(jobs[i - 1]) {
        AttemptCountsStreak(jobs, i - 1);
      }
    }
  }

  /** The minimum time from the first to the last of k consecutive retryable failures. */
  function MinimumSpan(k: nat): nat
    requires k >= 1
  {
    if k <= 7 then Pow2(k - 1) - 1 else 63 + 60 * (k - 7)
  }

  lemma Powers()
    ensures Pow2(1) == 2 && Pow2(2) == 4 && Pow2(3) == 8 && Pow2(4) == 16 && Pow2(5) == 32 && Pow2(6) == 64
  {
    assert Pow2(3) == 2 * Pow2(2) && Pow2(4) == 2 * Pow2(3) && Pow2(5) == 2 * Pow2(4) && Pow2(6) == 2 * Pow2(5);
  }

  lemma {:induction false} PowerGrows(a: nat, b: nat)
    requires a <= b
    ensures Pow2(a) <= Pow2(b)
    decreases b
  {
    if a < b {
      PowerGrows(a, b - 1);
    }
  }

  lemma DelayGrows(k: nat, attempt: nat)
    requires k >= 1 && attempt >= k
    ensures DelayMinutes(attempt) >= MinimumSpan(k + 1) - MinimumSpan(k)
  {
    Powers();
    PowerGrows(k - 1, attempt - 1);
    if k >= 7 {
      PowerGrows(6, attempt - 1);
    }
  }

  /** The run after a retryable failure starts no earlier than that failure's delay allows. */
  lemma DelayIsWaited(jobs: seq<Job>, i: nat)
    requires Serial(jobs) && 0 < i < |jobs| && RetryableError(jobs[i - 1])
    ensures jobs[i].startedAt >= jobs[i - 1].startedAt + DelayMinutes(jobs[i - 1].attempt) * MINUTE
  {
    assert WrittenAt(jobs, i) && WrittenAt(jobs, i - 1);
  }

  /** Any k consecutive retryable failures span at least 2^(k-1) - 1 minutes for k up to 7,
      and 63 + 60 (k - 7) minutes beyond. */
  lemma {:induction false} BackoffSpacing(jobs: seq<Job>, first: nat, k: nat)
    requires Serial(jobs) && k >= 1 && first + k <= |jobs|
    requires forall j :: first <= j < first + k ==> RetryableError(jobs[j])
    ensures jobs[first + k - 1].startedAt - jobs[first].startedAt >= MinimumSpan(k) * MINUTE
    decreases k
  {
    if k > 1 {
      var last := first + k - 1;
      BackoffSpacing(jobs, first, k - 1);
      DelayIsWaited(jobs, last);
      AttemptCountsStreak(jobs, last - 1);
      StreakCovers(jobs, first, last - 1);
      DelayGrows(k - 1, jobs[last - 1].attempt);
    }
  }

  lemma {:induction false} StreakCovers(jobs: seq<Job>, first: nat, i: nat)
    requires first <= i <= |jobs|
    requires forall j :: first <= j < i ==> RetryableError(jobs[j])
    ensures Streak(jobs, i) >= i - first
    decreases i
  {
    if first < i {
      StreakCovers(jobs, first, i - 1);
    }
  }

  /** The bound is met: for every k there is a history of k failures with exactly this span. */
  function TightJob(i: nat): Job {
    var at := MinimumSpan(i + 1) * MINUTE;
    Job(Error(true), at, Some(at), i + 1, Some(NextRetryAt(at, i + 1)))
  }

  lemma BackoffIsTight(k: nat)
    requires k >= 1
    ensures var jobs := seq(k, i requires 0 <= i => TightJob(i));
            Serial(jobs) && jobs[k - 1].startedAt - jobs[0].startedAt == MinimumSpan(k) * MINUTE
  {
    var jobs := seq(k, i requires 0 <= i => TightJob(i));
    forall i: nat | i < k
      ensures WrittenAt(jobs, i)
    {
      if i > 0 {
        Powers();
        TightDelay(i);
      }
    }
  }

  lemma TightDelay(i: nat)
    requires i >= 1
    ensures MinimumSpan(i + 1) == MinimumSpan(i) + DelayMinutes(i)
  {
    Powers();
    if i >= 7 {
      PowerGrows(6, i - 1);
    }
  }
}
