/** The stalled claim as the routes can make it: two workers hold a command of one target in
    progress, both die, and the offline recovery has one quarantine row for two unknown commands. */
module BudgetLostUnknown {
  import opened Wrappers
  import opened BudgetLedger
  import opened BudgetRecovery
  import opened BudgetRuns
  import opened BudgetSafety
  import opened BudgetExactness
  import opened BudgetStall
  import opened BudgetWorkers

  lemma StalledCommands()
    ensures var s := Run(STALLED).db;
            && s.commands.Keys == {1, 2} && s.commands[1].updatedAt == 603 && s.commands[2].updatedAt == 602
            && s.commands[1].key == 1 && s.commands[2].key == 2
            && s.commands[1].previewHash == 1 && s.commands[2].previewHash == 2
  {
    StalledClaim();
    TakeOver();
    Queue();
    PrefixStep(4);
    PrefixStep(5);
    assert STALLED[..6] == STALLED;
  }

  /** In whatever order the interrupted commands are recovered, one of them ends unknown without
      the quarantine row of its target. */
  lemma RecoveryAfterStall(order: seq<Id>, now: Time)
    requires IsRecoveryOrder(Run(STALLED).db, order)
    ensures !Exact(RecoverRows(Run(STALLED).db, order, now))
  {
    var s := Run(STALLED).db;
    StalledClaim();
    StalledCommands();
    RunKeeps(STALLED);
    assert Exact(s) by {
      assert forall id :: id in s.commands ==> id == 1 || id == 2;
    }
    assert !OneFlight(s);
    RecoverKeepsExactIff(s, order, now);
  }

  // ---------- single route steps ----------

  ghost predicate AllIdle(y: System) {
    forall w :: StageOf(y, w) == Idle
  }

  /** Worker w went on to the stage; nobody else moved. */
  ghost predicate Moved(y: System, z: System, w: Worker, stage: Stage) {
    StageOf(z, w) == stage && forall v :: v != w ==> StageOf(z, v) == StageOf(y, v)
  }

  lemma SubmitStep(y: System, w: Worker, id: Id, q: Request, key: Text, hash: Text, now: Time)
    requires StageOf(y, w) == Idle && id !in y.world.db.commands && q.target !in y.world.db.quarantines
    requires forall x :: x in y.world.db.commands ==>
               y.world.db.commands[x].key != key && y.world.db.commands[x].previewHash != hash
    ensures var z := Step(y, Submit(w, id, q, key, hash, hash, now)); var db := y.world.db;
            && Moved(y, z, w, Submitted(id))
            && z.world == y.world.(db := db.(commands := db.commands[id := NewCommand(q, key, hash, hash, now)]))
  {
  }

  lemma LockStep(y: System, w: Worker, id: Id, token: Text, now: Time)
    requires StageOf(y, w) == Submitted(id) && AcquireLock(y.world.db, id, false, token, now).1.Some?
    ensures var z := Step(y, Move.Lock(w, token, now));
            Moved(y, z, w, Locked(id, token)) && z.world == Next(y.world, Acquire(id, false, token, now))
  {
  }

  lemma ClaimStep(y: System, w: Worker, id: Id, token: Text, now: Time)
    requires StageOf(y, w) == Locked(id, token) && ClaimQueued(y.world.db, id, now).1.Ok?
    ensures var z := Step(y, ClaimIt(w, now));
            Moved(y, z, w, Claimed(id, token)) && z.world == Next(y.world, Claim(id, now))
  {
  }

  lemma GateStep(y: System, w: Worker, id: Id, token: Text, now: Time)
    requires StageOf(y, w) == Claimed(id, token) && RenewLock(y.world.db, id, token, now).1
    ensures var z := Step(y, Gate(w, now));
            Moved(y, z, w, Gated(id, token)) && z.world == Next(y.world, Renew(id, token, now))
  {
  }

  lemma CrashStep(y: System, w: Worker)
    ensures Moved(y, Step(y, Crash(w)), w, Idle) && Step(y, Crash(w)).world == y.world
  {
  }

  lemma ReviewStep(y: System, w: Worker, id: Id)
    requires StageOf(y, w) == Idle && IsUnknown(y.world.db, id)
    ensures Moved(y, Step(y, Review(w, id)), w, Reviewing(id)) && Step(y, Review(w, id)).world == y.world
  {
  }

  lemma ReviewLockStep(y: System, w: Worker, id: Id, token: Text, now: Time)
    requires StageOf(y, w) == Reviewing(id) && AcquireLock(y.world.db, id, true, token, now).1.Some?
    ensures var z := Step(y, ReviewLock(w, token, now));
            Moved(y, z, w, ReviewLocked(id, token)) && z.world == Next(y.world, Acquire(id, true, token, now))
  {
  }

  lemma ConcludeStep(y: System, w: Worker, id: Id, token: Text, report: Report, now: Time)
    requires StageOf(y, w) == ReviewLocked(id, token)
    ensures var z := Step(y, Conclude(w, report, now));
            Moved(y, z, w, Leaving(id, token)) && z.world == Next(y.world, Reconcile(id, report, now))
  {
  }

  lemma LeaveStep(y: System, w: Worker, id: Id, token: Text)
    requires StageOf(y, w) == Leaving(id, token)
    ensures var z := Step(y, Leave(w)); Moved(y, z, w, Idle) && z.world == Next(y.world, Release(id, token))
  {
  }

  // ---------- an execution of the routes ----------

  const SEEN_AFTER := Report(Applied, Attempt(2, 715, 720, Applied, None, true), None, None, None)

  const STALL: seq<Move> := [
    Submit(1, 1, NewRequest(100), 1, 1, 1, 0), Submit(2, 2, NewRequest(200), 2, 2, 2, 0),
    Move.Lock(1, 11, 0), Move.Lock(2, 22, 601), ClaimIt(2, 602), ClaimIt(1, 603)]

  const DEATH: seq<Move> := [Crash(1), Crash(2), RecoverOffline([2, 1], 700)]
  const REVIEW: seq<Move> := [Review(4, 2), ReviewLock(4, 44, 710), Conclude(4, SEEN_AFTER, 720), Leave(4)]

  const AGAIN: seq<Move> := [
    Submit(3, 3, NewRequest(300), 3, 3, 3, 730), Move.Lock(3, 33, 731), ClaimIt(3, 732), Gate(3, 733)]

  /** The stall, both workers' death and the recovery, the reconciliation of command 2, and then a
      third command of the target up to the gate. */
  const MOVES: seq<Move> := STALL + DEATH + REVIEW + AGAIN

  ghost function After(y: System, moves: seq<Move>): System {
    if moves == [] then y else Step(After(y, moves[..|moves| - 1]), moves[|moves| - 1])
  }

  lemma ExecutionStep(moves: seq<Move>, m: Move)
    ensures Execution(moves + [m]) == Step(Execution(moves), m)
  {
    assert (moves + [m])[..|moves|] == moves;
  }

  lemma AfterStep(y: System, moves: seq<Move>, m: Move)
    ensures After(y, moves + [m]) == Step(After(y, moves), m)
  {
    assert (moves + [m])[..|moves|] == moves;
  }

  lemma {:induction false} ExecutionAfter(moves: seq<Move>, more: seq<Move>)
    ensures Execution(moves + more) == After(Execution(moves), more)
  {
    if more == [] {
      assert moves + more == moves;
    } else {
      var rest, m := more[..|more| - 1], more[|more| - 1];
      assert more == rest + [m] && moves + more == (moves + rest) + [m];
      ExecutionAfter(moves, rest);
      ExecutionStep(moves + rest, m);
      AfterStep(Execution(moves), rest, m);
    }
  }

  lemma AfterOne(y: System, moves: seq<Move>, n: nat)
    requires n < |moves|
    ensures After(y, moves[..n + 1]) == Step(After(y, moves[..n]), moves[n])
  {
    assert moves[..n + 1] == moves[..n] + [moves[n]];
    AfterStep(y, moves[..n], moves[n]);
  }

  lemma TwoMoves(y: System, a: Move, b: Move)
    ensures After(y, [a, b]) == Step(Step(y, a), b)
  {
    AfterStep(y, [], a);
    AfterStep(y, [a], b);
    assert [] + [a] == [a] && [a] + [b] == [a, b];
  }

  lemma ThreeMoves(y: System, a: Move, b: Move, c: Move)
    ensures After(y, [a, b, c]) == Step(Step(Step(y, a), b), c)
  {
    TwoMoves(y, a, b);
    AfterStep(y, [a, b], c);
    assert [a, b] + [c] == [a, b, c];
  }

  lemma FourMoves(y: System, a: Move, b: Move, c: Move, d: Move)
    ensures After(y, [a, b, c, d]) == Step(Step(Step(Step(y, a), b), c), d)
  {
    ThreeMoves(y, a, b, c);
    AfterStep(y, [a, b, c], d);
    assert [a, b, c] + [d] == [a, b, c, d];
  }

  // ---------- the stall ----------

  const IDLE := System(START, map[], multiset{})

  ghost function Stalling(n: nat): System
    requires n <= 6
  {
    After(IDLE, STALL[..n])
  }

  lemma BothSubmit()
    ensures var y := Stalling(2);
            && y.world == Prefix(2) && StageOf(y, 1) == Submitted(1) && StageOf(y, 2) == Submitted(2)
            && forall w :: w != 1 && w != 2 ==> StageOf(y, w) == Idle
  {
    Queue();
    PrefixStep(0);
    PrefixStep(1);
    assert Prefix(0) == START;
    AfterOne(IDLE, STALL, 0);
    AfterOne(IDLE, STALL, 1);
    assert STALL[..0] == [];
    SubmitStep(IDLE, 1, 1, NewRequest(100), 1, 1, 0);
    SubmitStep(Stalling(1), 2, 2, NewRequest(200), 2, 2, 0);
  }

  lemma LocksAreFree()
    ensures AcquireLock(Prefix(2).db, 1, false, 11, 0).1.Some?
    ensures AcquireLock(Prefix(3).db, 2, false, 22, 601).1.Some?
  {
    Queue();
    PrefixStep(2);
    assert !TargetInFlight(Prefix(2).db, T);
    assert !TargetInFlight(Prefix(3).db, T);
  }

  lemma BothLock()
    ensures var y := Stalling(4);
            && y.world == Prefix(4) && StageOf(y, 1) == Locked(1, 11) && StageOf(y, 2) == Locked(2, 22)
            && forall w :: w != 1 && w != 2 ==> StageOf(y, w) == Idle
  {
    BothSubmit();
    LocksAreFree();
    AfterOne(IDLE, STALL, 2);
    AfterOne(IDLE, STALL, 3);
    PrefixStep(2);
    PrefixStep(3);
    LockStep(Stalling(2), 1, 1, 11, 0);
    LockStep(Stalling(3), 2, 2, 22, 601);
  }

  lemma ClaimsAreMade()
    ensures ClaimQueued(Prefix(4).db, 2, 602).1.Ok? && ClaimQueued(Prefix(5).db, 1, 603).1.Ok?
    ensures Prefix(6) == Run(STALLED)
  {
    TakeOver();
    Queue();
    PrefixStep(4);
    assert STALLED[..6] == STALLED;
  }

  lemma BothClaim()
    ensures Stalling(6).world == Run(STALLED)
    ensures forall w :: w != 1 && w != 2 ==> StageOf(Stalling(6), w) == Idle
  {
    BothLock();
    ClaimsAreMade();
    AfterOne(IDLE, STALL, 4);
    AfterOne(IDLE, STALL, 5);
    PrefixStep(4);
    PrefixStep(5);
    ClaimStep(Stalling(4), 2, 2, 22, 602);
    ClaimStep(Stalling(5), 1, 1, 11, 603);
  }

  // ---------- the recovery ----------

  /** What the third command must not meet, and what makes it wrong to go on. */
  predicate TwoCommands(s: Ledger) {
    && s.commands.Keys == {1, 2} && IsUnknown(s, 1)
    && s.commands[1].request.target == T && s.commands[2].request.target == T
    && s.commands[1].key == 1 && s.commands[2].key == 2
    && s.commands[1].previewHash == 1 && s.commands[2].previewHash == 2
    && T !in s.locks
  }

  /** Both unknown, but the one quarantine row belongs to command 2. */
  predicate HalfQuarantined(s: Ledger) {
    && TwoCommands(s) && IsUnknown(s, 2) && OwnsQuarantine(s, 2)
    && |AttemptsOf(s, 2)| == 1 && AttemptsOf(s, 2)[0].number == 1
  }

  lemma RecoveryOrder()
    ensures IsRecoveryOrder(Run(STALLED).db, [2, 1])
  {
    var s := Run(STALLED).db;
    var order: seq<Id> := [2, 1];
    StalledClaim();
    StalledCommands();
    assert forall id :: id in order <==> id == 1 || id == 2;
  }

  lemma RecoveredCommands(s: Ledger, order: seq<Id>)
    requires s == Run(STALLED).db && order == [2, 1] && IsRecoveryOrder(s, order)
    ensures var r := RecoverRows(s, order, 700);
            && TwoCommands(r) && IsUnknown(r, 2)
            && |AttemptsOf(r, 2)| == 1 && AttemptsOf(r, 2)[0].number == 1
  {
    StalledClaim();
    StalledCommands();
    StalledAttempts();
    RecoverCommand(s, order, 700, 1);
    RecoverCommand(s, order, 700, 2);
    RecoveredLock(s, order);
    assert RecoveryNumber(s, 2) == 1;
  }

  lemma StalledAttempts()
    ensures var s := Run(STALLED).db;
            AttemptsOf(s, 2) == [] && 2 in s.commands && s.commands[2].attemptCount == 1
  {
    StalledClaim();
    TakeOver();
    Queue();
    PrefixStep(4);
    PrefixStep(5);
    assert STALLED[..6] == STALLED;
  }

  lemma RecoveredLock(s: Ledger, order: seq<Id>)
    requires s == Run(STALLED).db && order == [2, 1] && IsRecoveryOrder(s, order)
    ensures T !in RecoverRows(s, order, 700).locks
  {
    RecoverLock(s, order, 700, T);
    RunKeeps(STALLED);
    StalledCommands();
    assert T in s.locks ==> OnTarget(s, s.locks[T].commandId, T);
    assert order[0] == 2 && order[1] == 1;
  }

  lemma RecoveredTarget(s: Ledger, order: seq<Id>)
    requires s == Run(STALLED).db && order == [2, 1] && IsRecoveryOrder(s, order)
    ensures OwnsQuarantine(RecoverRows(s, order, 700), 2)
  {
    StalledClaim();
    RecoverCommand(s, order, 700, 2);
    RecoverQuarantine(s, order, 700, T);
    assert order[0] == 2 && OnTarget(s, order[0], T) && FirstOn(s, order, T) == 0;
  }

  lemma RecoverStep(y: System, order: seq<Id>, now: Time)
    requires AllIdle(y) && IsRecoveryOrder(y.world.db, order)
    ensures var z := Step(y, RecoverOffline(order, now));
            z.stages == y.stages && z.world.db == RecoverRows(y.world.db, order, now)
  {
  }

  lemma StillIdle(y: System, z: System)
    requires AllIdle(y) && z.stages == y.stages
    ensures AllIdle(z)
  {
    forall w
      ensures StageOf(z, w) == Idle
    {
      assert StageOf(y, w) == Idle;
    }
  }

  lemma BothCrash(y: System)
    requires forall w :: w != 1 && w != 2 ==> StageOf(y, w) == Idle
    ensures var two := Step(Step(y, Crash(1)), Crash(2)); AllIdle(two) && two.world == y.world
  {
    CrashStep(y, 1);
    CrashStep(Step(y, Crash(1)), 2);
  }

  lemma RecoverBoth(y: System, order: seq<Id>)
    requires AllIdle(y) && y.world == Run(STALLED) && order == [2, 1]
    ensures var z := Step(y, RecoverOffline(order, 700)); AllIdle(z) && HalfQuarantined(z.world.db)
  {
    RecoveryOrder();
    RecoverStep(y, order, 700);
    StillIdle(y, Step(y, RecoverOffline(order, 700)));
    RecoveredTables();
  }

  lemma BothDie(y: System)
    requires y.world == Run(STALLED) && forall w :: w != 1 && w != 2 ==> StageOf(y, w) == Idle
    ensures var z := After(y, DEATH); AllIdle(z) && HalfQuarantined(z.world.db)
  {
    var order: seq<Id> := [2, 1];
    BothCrash(y);
    RecoverBoth(Step(Step(y, Crash(1)), Crash(2)), order);
    ThreeMoves(y, Crash(1), Crash(2), RecoverOffline(order, 700));
  }

  lemma RecoveredTables()
    requires IsRecoveryOrder(Run(STALLED).db, [2, 1])
    ensures HalfQuarantined(RecoverRows(Run(STALLED).db, [2, 1], 700))
  {
    RecoveredCommands(Run(STALLED).db, [2, 1]);
    RecoveredTarget(Run(STALLED).db, [2, 1]);
  }

  // ---------- the reconciliation of command 2 ----------

  predicate Reopened(s: Ledger) {
    TwoCommands(s) && s.commands[2].status == Applied && T !in s.quarantines
  }

  lemma ReviewLocks(s: Ledger)
    requires HalfQuarantined(s)
    ensures AcquireLock(s, 2, true, 44, 710) == (s.(locks := s.locks[T := Lock.Lock(2, 44, 1310, 710)]), Some(44))
  {
    assert !TargetInFlight(s, T);
  }

  lemma ReviewReopens(s: Ledger, lock: Lock)
    requires HalfQuarantined(s) && lock.commandId == 2 && lock.token == 44
    ensures var r := RecordReconciliation(s.(locks := s.locks[T := lock]), 2, SEEN_AFTER, 720).0;
            Reopened(ReleaseLock(r, 2, 44))
  {
    var s1 := s.(locks := s.locks[T := lock]);
    assert AttemptsOf(s1, 2) == AttemptsOf(s, 2) == [AttemptsOf(s, 2)[0]];
    assert AttemptInsertable(s1, 2, SEEN_AFTER.attempt);
  }

  lemma ReviewTakesLock(y: System)
    requires AllIdle(y) && HalfQuarantined(y.world.db)
    ensures var z := Step(Step(y, REVIEW[0]), REVIEW[1]); var s := y.world.db;
            && Moved(y, z, 4, ReviewLocked(2, 44))
            && z.world.db == s.(locks := s.locks[T := Lock.Lock(2, 44, 1310, 710)])
  {
    var one := Step(y, Review(4, 2));
    ReviewStep(y, 4, 2);
    ReviewLocks(y.world.db);
    ReviewLockStep(one, 4, 2, 44, 710);
  }

  lemma ReviewEnds(y: System)
    requires StageOf(y, 4) == ReviewLocked(2, 44)
    ensures var z := Step(Step(y, REVIEW[2]), REVIEW[3]);
            && Moved(y, z, 4, Idle)
            && z.world.db == ReleaseLock(RecordReconciliation(y.world.db, 2, SEEN_AFTER, 720).0, 2, 44)
  {
    var three := Step(y, Conclude(4, SEEN_AFTER, 720));
    ConcludeStep(y, 4, 2, 44, SEEN_AFTER, 720);
    LeaveStep(three, 4, 2, 44);
  }

  lemma Reviewed(y: System)
    requires AllIdle(y) && HalfQuarantined(y.world.db)
    ensures var z := After(y, REVIEW); AllIdle(z) && Reopened(z.world.db)
  {
    FourMoves(y, REVIEW[0], REVIEW[1], REVIEW[2], REVIEW[3]);
    ReviewTakesLock(y);
    ReviewEnds(Step(Step(y, REVIEW[0]), REVIEW[1]));
    ReviewReopens(y.world.db, Lock.Lock(2, 44, 1310, 710));
  }

  // ---------- the third command ----------

  lemma ThirdLocks(s: Ledger)
    requires Reopened(s)
    ensures var s1 := s.(commands := s.commands[3 := NewCommand(NewRequest(300), 3, 3, 3, 730)]);
            AcquireLock(s1, 3, false, 33, 731) == (s1.(locks := s1.locks[T := Lock.Lock(3, 33, 1331, 731)]), Some(33))
  {
    var s1 := s.(commands := s.commands[3 := NewCommand(NewRequest(300), 3, 3, 3, 730)]);
    assert !TargetInFlight(s1, T);
  }

  lemma ThirdTakesLock(y: System)
    requires AllIdle(y) && Reopened(y.world.db)
    ensures var z := Step(Step(y, AGAIN[0]), AGAIN[1]); var s := y.world.db;
            && StageOf(z, 3) == Locked(3, 33)
            && z.world.db.commands == s.commands[3 := NewCommand(NewRequest(300), 3, 3, 3, 730)]
            && z.world.db.locks == s.locks[T := Lock.Lock(3, 33, 1331, 731)]
            && z.world.db.quarantines == s.quarantines
  {
    var one := Step(y, Submit(3, 3, NewRequest(300), 3, 3, 3, 730));
    SubmitStep(y, 3, 3, NewRequest(300), 3, 3, 730);
    ThirdLocks(y.world.db);
    LockStep(one, 3, 3, 33, 731);
  }

  lemma ThirdClaims(y: System)
    requires var s := y.world.db;
             && StageOf(y, 3) == Locked(3, 33) && T !in s.quarantines && IsQueued(s, 3) && IsUnknown(s, 1)
             && s.commands[3].request.target == s.commands[1].request.target == T && HoldsLock(s, 3, 33)
    ensures var z := Step(Step(y, AGAIN[2]), AGAIN[3]);
            StageOf(z, 3) == Gated(3, 33) && IsUnknown(z.world.db, 1) && SameTarget(z.world.db, 3, 1)
  {
    var three := Step(y, ClaimIt(3, 732));
    ClaimStep(y, 3, 3, 33, 732);
    GateStep(three, 3, 3, 33, 733);
  }

  lemma ThirdPasses(y: System)
    requires AllIdle(y) && Reopened(y.world.db)
    ensures var z := After(y, AGAIN);
            StageOf(z, 3) == Gated(3, 33) && IsUnknown(z.world.db, 1) && SameTarget(z.world.db, 3, 1)
  {
    FourMoves(y, AGAIN[0], AGAIN[1], AGAIN[2], AGAIN[3]);
    ThirdTakesLock(y);
    ThirdClaims(Step(Step(y, AGAIN[0]), AGAIN[1]));
  }

  /** Careful recoveries are needed: here the routes themselves pass the gate on a target whose
      command 1 is still unknown. */
  lemma WriteOverUnknown()
    ensures var y := Execution(MOVES);
            Writes(StageOf(y, 3)) && IsUnknown(y.world.db, 1) && SameTarget(y.world.db, StageOf(y, 3).id, 1)
    ensures !CarefulRecoveries(MOVES)
  {
    BothClaim();
    assert STALL[..6] == STALL && [] + STALL == STALL;
    ExecutionAfter([], STALL);
    ExecutionAfter(STALL, DEATH);
    ExecutionAfter(STALL + DEATH, REVIEW);
    ExecutionAfter(STALL + DEATH + REVIEW, AGAIN);
    BothDie(Execution(STALL));
    Reviewed(Execution(STALL + DEATH));
    ThirdPasses(Execution(STALL + DEATH + REVIEW));
    if CarefulRecoveries(MOVES) {
      NoWriteOverUnknown(MOVES, 1, 3);
    }
  }
}
