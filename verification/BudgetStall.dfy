/** The stalled worker: a concrete run that shows what the claim's discipline buys. */
module BudgetStall {
  import opened Wrappers
  import opened BudgetLedger
  import opened BudgetRuns
  import opened BudgetSafety
  import opened BudgetExactness

  const T := Target(Campaign, 7, DailyBudget)
  const LOST := Report(Unknown, Attempt(1, 610, 620, Unknown, None, false), None, None, None)
  const SEEN := Report(Applied, Attempt(2, 690, 700, Applied, None, true), None, None, None)

  function NewRequest(amount: nat): Request { Request(1, T, amount) }

  /** Worker 1 locks the target for command 1 and stalls; its lease expires, worker 2 locks the
      target for command 2 and claims; worker 1 wakes up and claims without looking at the lock. */
  const STALLED: seq<Call> := [
    Create(1, NewRequest(100), 1, 1, 1, 0),
    Create(2, NewRequest(200), 2, 2, 2, 0),
    Acquire(1, false, 11, 0),
    Acquire(2, false, 22, 601),
    Claim(2, 602),
    Claim(1, 603)]

  ghost function Prefix(n: nat): World
    requires n <= |STALLED|
  {
    Run(STALLED[..n])
  }

  lemma PrefixStep(n: nat)
    requires n < |STALLED|
    ensures Prefix(n + 1) == Next(Prefix(n), STALLED[n])
  {
    assert STALLED[..n + 1] == STALLED[..n] + [STALLED[n]];
    RunAppend(STALLED[..n], STALLED[n]);
  }

  lemma Queue()
    ensures var s := Prefix(2).db;
            && s == Ledger(map[1 := NewCommand(NewRequest(100), 1, 1, 1, 0),
                               2 := NewCommand(NewRequest(200), 2, 2, 2, 0)],
                           map[], map[], map[])
  {
    PrefixStep(0);
    PrefixStep(1);
    assert Prefix(0) == START;
    var s := Prefix(1).db;
    assert s.commands == map[1 := NewCommand(NewRequest(100), 1, 1, 1, 0)];
  }

  lemma FirstLock()
    ensures var s, r := Prefix(2).db, Prefix(3).db;
            && r.commands == s.commands && r.quarantines == map[] && r.attempts == map[]
            && r.locks == map[T := Lock(1, 11, 600, 0)]
  {
    Queue();
    PrefixStep(2);
    assert !TargetInFlight(Prefix(2).db, T);
  }

  lemma TakeOver()
    ensures var s := Prefix(4).db;
            && s.commands == Prefix(2).db.commands && s.quarantines == map[] && s.attempts == map[]
            && s.locks == map[T := Lock(2, 22, 1201, 601)]
  {
    Queue();
    FirstLock();
    PrefixStep(3);
    assert !TargetInFlight(Prefix(3).db, T);
  }

  /** Two commands of one target are in progress at once; only the lock owner can still pass
      the renewal, so the write fence holds all the same. */
  lemma StalledClaim()
    ensures var s := Run(STALLED).db;
            && InFlight(s, 1) && InFlight(s, 2) && SameTarget(s, 1, 2)
            && s.commands[1].request.target == T && s.quarantines == map[] && s.attempts == map[]
            && RenewLock(s, 2, 22, 604).1 && forall token, now :: !RenewLock(s, 1, token, now).1
  {
    TakeOver();
    Queue();
    PrefixStep(4);
    PrefixStep(5);
    assert STALLED[..6] == STALLED;
  }

  /** If both then end unknown, the second one has no quarantine row, and a conclusive
      reconciliation of the first reopens the target although the second is still unknown. */
  lemma StalledClaimBreaksExactness()
    ensures var s2 := FinishExecution(FinishExecution(Run(STALLED).db, 2, LOST, 620).0, 1, LOST, 620).0;
            && IsUnknown(s2, 1) && IsUnknown(s2, 2) && OwnsQuarantine(s2, 2) && !OwnsQuarantine(s2, 1)
            && var s3 := RecordReconciliation(s2, 2, SEEN, 700).0;
            IsUnknown(s3, 1) && T !in s3.quarantines
  {
    StalledClaim();
    var s := Run(STALLED).db;
    var s1 := FinishExecution(s, 2, LOST, 620).0;
    assert AttemptsOf(s, 2) == [];
    assert AttemptsOf(s1, 2) == [LOST.attempt] && AttemptsOf(s1, 1) == [];
    var s2 := FinishExecution(s1, 1, LOST, 620).0;
    assert AttemptsOf(s2, 2) == [LOST.attempt];
    assert s2.quarantines == s1.quarantines;
  }
}
