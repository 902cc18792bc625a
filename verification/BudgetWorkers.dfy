/** The workers behind the confirm and reconcile routes: each runs submit, acquire, claim,
    renew, provider write, finish and release in this order, interleaved with all others
    at every step; a worker may stall anywhere for any time, or crash. */
module BudgetWorkers {
  import opened Wrappers
  import opened BudgetLedger
  import opened BudgetRecovery
  import opened BudgetRuns
  import opened BudgetSafety
  import opened BudgetExactness

  type Worker = nat

  /** Where a worker is in its route. */
  datatype Stage =
    | Idle
    | Submitted(id: Id)
    | Locked(id: Id, token: Text)
    | Claimed(id: Id, token: Text)
    | Gated(id: Id, token: Text)
    | Posted(id: Id, token: Text)
    | Reviewing(id: Id)
    | ReviewLocked(id: Id, token: Text)
    | Leaving(id: Id, token: Text)

  datatype Move =
    | Submit(w: Worker, id: Id, request: Request, key: Text, requestHash: Text, previewHash: Text, now: Time)
    | Lock(w: Worker, token: Text, now: Time)
    | ClaimIt(w: Worker, now: Time)
    | Gate(w: Worker, now: Time)
    | Post(w: Worker)
    | Settle(w: Worker, report: Report, now: Time)
    | Review(w: Worker, id: Id)
    | ReviewLock(w: Worker, token: Text, now: Time)
    | Conclude(w: Worker, report: Report, now: Time)
    | Abort(w: Worker)
    | Leave(w: Worker)
    | Crash(w: Worker)
    | RecoverOffline(order: seq<Id>, now: Time)

  /** posts counts the provider writes sent for each command. */
  datatype System = System(world: World, stages: map<Worker, Stage>, posts: multiset<Id>)

  function StageOf(y: System, w: Worker): Stage {
    if w in y.stages then y.stages[w] else Idle
  }

  function At(y: System, w: Worker, stage: Stage): System {
    y.(stages := y.stages[w := stage])
  }

  ghost function Do(y: System, c: Call, w: Worker, stage: Stage): System {
    System(Next(y.world, c), y.stages[w := stage], y.posts)
  }

  /** Before the provider write an execution can only end as conflict or failed. */
  predicate ReportFits(stage: Stage, report: Report) {
    stage.Posted? || ((stage.Claimed? || stage.Gated?) && (report.status == Conflict || report.status == Failed))
  }

  /** One move; a move that does not fit the worker's stage changes nothing. */
  ghost function Step(y: System, m: Move): System {
    var db := y.world.db;
    match m
    case Submit(w, id, request, key, requestHash, previewHash, now) =>
      if StageOf(y, w) != Idle then y
      else
        var (after, r) := CreateOrReplay(db, id, request, key, requestHash, previewHash, now);
        Do(y, Create(id, request, key, requestHash, previewHash, now), w,
           if r.Ok? && IsQueued(after, r.value.id) then Submitted(r.value.id) else Idle)
    case Lock(w, token, now) =>
      var stage := StageOf(y, w);
      if !stage.Submitted? then y
      else Do(y, Acquire(stage.id, false, token, now), w,
              if AcquireLock(db, stage.id, false, token, now).1.Some? then Locked(stage.id, token) else Idle)
    case ClaimIt(w, now) =>
      var stage := StageOf(y, w);
      if !stage.Locked? then y
      else Do(y, Claim(stage.id, now), w,
              if ClaimQueued(db, stage.id, now).1.Ok? then Claimed(stage.id, stage.token)
                else Leaving(stage.id, stage.token))
    case Gate(w, now) =>
      var stage := StageOf(y, w);
      if !stage.Claimed? then y
      else Do(y, Renew(stage.id, stage.token, now), w,
              if RenewLock(db, stage.id, stage.token, now).1 then Gated(stage.id, stage.token) else stage)
    case Post(w) =>
      var stage := StageOf(y, w);
      if !stage.Gated? then y
      else At(y, w, Posted(stage.id, stage.token)).(posts := y.posts + multiset{stage.id})
    case Settle(w, report, now) =>
      var stage := StageOf(y, w);
      if !ReportFits(stage, report) then y
      else Do(y, Finish(stage.id, report, now), w, Leaving(stage.id, stage.token))
    case Review(w, id) =>
      if StageOf(y, w) != Idle || !IsUnknown(db, id) then y else At(y, w, Reviewing(id))
    case ReviewLock(w, token, now) =>
      var stage := StageOf(y, w);
      if !stage.Reviewing? then y
      else Do(y, Acquire(stage.id, true, token, now), w,
              if AcquireLock(db, stage.id, true, token, now).1.Some? then ReviewLocked(stage.id, token) else Idle)
    case Conclude(w, report, now) =>
      var stage := StageOf(y, w);
      if !stage.ReviewLocked? then y
      else Do(y, Reconcile(stage.id, report, now), w, Leaving(stage.id, stage.token))
    case Abort(w) =>
      var stage := StageOf(y, w);
      if stage.Locked? || stage.ReviewLocked? then At(y, w, Leaving(stage.id, stage.token)) else y
    case Leave(w) =>
      var stage := StageOf(y, w);
      if !stage.Leaving? then y else Do(y, Release(stage.id, stage.token), w, Idle)
    case Crash(w) => At(y, w, Idle)
    case RecoverOffline(order, now) =>
      if exists w :: StageOf(y, w) != Idle then y
      else y.(world := Next(y.world, Recover(order, now)))
  }

  ghost function Execution(moves: seq<Move>): System {
    if moves == [] then System(START, map[], multiset{})
    else Step(Execution(moves[..|moves| - 1]), moves[|moves| - 1])
  }

  predicate Runs(stage: Stage) {
    stage.Claimed? || stage.Gated? || stage.Posted?
  }

  /** Between the gate and the finish: the provider write may be sent or under way. */
  predicate Writes(stage: Stage) {
    stage.Gated? || stage.Posted?
  }

  // ---------- the invariant ----------

  predicate PairOk(y: System, w: Worker, v: Worker) {
    var a, b := StageOf(y, w), StageOf(y, v);
    && (Runs(a) ==> InFlight(y.world.db, a.id))
    && (Writes(a) ==> a.id in y.world.renewed)
    && (Runs(a) && Runs(b) && w != v ==> a.id != b.id)
    && (Runs(a) && !a.Posted? ==> y.posts[a.id] == 0)
  }

  ghost predicate SystemInv(y: System) {
    && Inv(y.world)
    && (forall w, v :: PairOk(y, w, v))
    && (forall id :: y.posts[id] <= 1 && (y.posts[id] == 1 ==> Started(y.world.db, id)))
  }

  /** The command runs on, and counts as started if it did. */
  predicate Continues(s: Ledger, r: Ledger, id: Id) {
    (InFlight(s, id) ==> InFlight(r, id)) && (Started(s, id) ==> Started(r, id))
  }

  lemma SettlingContinues(s: Ledger, c: Id, report: Report, now: Time, id: Id)
    ensures c != id ==> Continues(s, FinishExecution(s, c, report, now).0, id)
    ensures Started(s, id) ==> Started(FinishExecution(s, c, report, now).0, id)
    ensures Continues(s, RecordReconciliation(s, c, report, now).0, id)
  {
  }

  lemma LockingContinues(s: Ledger, c: Id, allow: bool, token: Text, now: Time, id: Id)
    ensures Continues(s, AcquireLock(s, c, allow, token, now).0, id)
    ensures Continues(s, RenewLock(s, c, token, now).0, id) && Continues(s, ReleaseLock(s, c, token), id)
  {
  }

  lemma FlightKept(w: World, c: Call, id: Id)
    requires !c.Recover?
    ensures InFlight(w.db, id) && !(c.Finish? && c.id == id) ==> InFlight(Next(w, c).db, id)
    ensures Started(w.db, id) ==> Started(Next(w, c).db, id)
    ensures w.renewed <= Next(w, c).renewed
  {
    match c
    case Create(_, _, _, _, _, _) =>
    case Claim(_, _) =>
    case Finish(x, report, now) => SettlingContinues(w.db, x, report, now, id);
    case Reconcile(x, report, now) => SettlingContinues(w.db, x, report, now, id);
    case Acquire(x, allow, token, now) => LockingContinues(w.db, x, allow, token, now, id);
    case Renew(x, token, now) => LockingContinues(w.db, x, true, token, now, id);
    case Release(x, token) => LockingContinues(w.db, x, true, token, 0, id);
  }

  /** The stage a worker enters with a call fits the tables and is not shared. */
  ghost predicate StageFits(y: System, z: World, w: Worker, stage: Stage) {
    Runs(stage) ==>
      && InFlight(z.db, stage.id)
      && (Writes(stage) ==> stage.id in z.renewed)
      && (!stage.Posted? ==> y.posts[stage.id] == 0)
      && forall v :: v != w && Runs(StageOf(y, v)) ==> StageOf(y, v).id != stage.id
  }

  ghost predicate NotOthers(y: System, w: Worker, c: Call) {
    c.Finish? ==> forall v :: v != w && Runs(StageOf(y, v)) ==> StageOf(y, v).id != c.id
  }

  lemma DoPair(y: System, c: Call, w: Worker, stage: Stage, u: Worker, v: Worker)
    requires PairOk(y, u, v) && PairOk(y, v, u) && !c.Recover?
    requires StageFits(y, Next(y.world, c), w, stage) && NotOthers(y, w, c)
    ensures PairOk(Do(y, c, w, stage), u, v)
  {
    if u != w && Runs(StageOf(y, u)) {
      FlightKept(y.world, c, StageOf(y, u).id);
    }
  }

  lemma DoKeeps(y: System, c: Call, w: Worker, stage: Stage)
    requires SystemInv(y) && !c.Recover?
    requires StageFits(y, Next(y.world, c), w, stage) && NotOthers(y, w, c)
    ensures SystemInv(Do(y, c, w, stage))
  {
    StepKeeps(y.world, c);
    var z := Do(y, c, w, stage);
    forall u, v
      ensures PairOk(z, u, v)
    {
      DoPair(y, c, w, stage, u, v);
    }
    forall id
      ensures z.posts[id] <= 1 && (z.posts[id] == 1 ==> Started(z.world.db, id))
    {
      FlightKept(y.world, c, id);
    }
  }

  lemma Others(y: System, w: Worker)
    requires SystemInv(y) && Runs(StageOf(y, w))
    ensures forall v :: v != w && Runs(StageOf(y, v)) ==> StageOf(y, v).id != StageOf(y, w).id
  {
    forall v | v != w && Runs(StageOf(y, v))
      ensures StageOf(y, v).id != StageOf(y, w).id
    {
      assert PairOk(y, w, v);
    }
  }

  lemma ClaimFits(y: System, w: Worker, now: Time)
    requires SystemInv(y) && StageOf(y, w).Locked? && ClaimQueued(y.world.db, StageOf(y, w).id, now).1.Ok?
    ensures var stage := StageOf(y, w);
            StageFits(y, Next(y.world, Claim(stage.id, now)), w, Claimed(stage.id, stage.token))
  {
    var stage := StageOf(y, w);
    assert !Started(y.world.db, stage.id);
    forall v | v != w && Runs(StageOf(y, v))
      ensures StageOf(y, v).id != stage.id
    {
      assert PairOk(y, v, v);
    }
  }

  lemma PassiveKeeps(y: System, w: Worker, stage: Stage)
    requires SystemInv(y) && !Runs(stage)
    ensures SystemInv(At(y, w, stage))
  {
    forall u, v
      ensures PairOk(At(y, w, stage), u, v)
    {
      assert PairOk(y, u, v);
    }
  }

  lemma PostKeeps(y: System, w: Worker)
    requires SystemInv(y)
    ensures SystemInv(Step(y, Post(w)))
  {
    var stage := StageOf(y, w);
    if stage.Gated? {
      var z := Step(y, Post(w));
      assert PairOk(y, w, w);
      forall u, v
        ensures PairOk(z, u, v)
      {
        assert PairOk(y, u, v) && PairOk(y, u, w);
      }
    }
  }

  lemma RecoveredStaysStarted(s: Ledger, order: seq<Id>, now: Time, id: Id)
    requires IsRecoveryOrder(s, order)
    ensures Started(s, id) ==> Started(RecoverRows(s, order, now), id)
  {
    RecoverHistory(s, order, now);
  }

  ghost predicate StartsKept(s: Ledger, r: Ledger) {
    forall id :: Started(s, id) ==> Started(r, id)
  }

  lemma IdleKeeps(y: System, w: World)
    requires SystemInv(y) && (forall v :: StageOf(y, v) == Idle) && Inv(w) && StartsKept(y.world.db, w.db)
    ensures SystemInv(y.(world := w))
  {
    var z := y.(world := w);
    forall u, v
      ensures PairOk(z, u, v)
    {
      assert StageOf(z, u) == StageOf(y, u) == Idle;
    }
    forall id
      ensures z.posts[id] <= 1 && (z.posts[id] == 1 ==> Started(w.db, id))
    {
      assert y.posts[id] == 1 ==> Started(y.world.db, id);
    }
  }

  lemma RecoverIdle(y: System, order: seq<Id>, now: Time)
    requires SystemInv(y) && (forall w :: StageOf(y, w) == Idle) && IsRecoveryOrder(y.world.db, order)
    ensures SystemInv(y.(world := y.world.(db := RecoverRows(y.world.db, order, now))))
  {
    var s := y.world.db;
    RecoverKeeps(y.world, order, now);
    forall id
      ensures Started(s, id) ==> Started(RecoverRows(s, order, now), id)
    {
      RecoveredStaysStarted(s, order, now, id);
    }
    IdleKeeps(y, y.world.(db := RecoverRows(s, order, now)));
  }

  lemma RecoverOfflineMoves(y: System, order: seq<Id>, now: Time)
    requires Step(y, RecoverOffline(order, now)) != y
    ensures (forall w :: StageOf(y, w) == Idle) && IsRecoveryOrder(y.world.db, order)
    ensures Step(y, RecoverOffline(order, now)) == y.(world := y.world.(db := RecoverRows(y.world.db, order, now)))
  {
  }

  lemma RecoverOfflineKeeps(y: System, order: seq<Id>, now: Time)
    requires SystemInv(y)
    ensures SystemInv(Step(y, RecoverOffline(order, now)))
  {
    if Step(y, RecoverOffline(order, now)) != y {
      RecoverOfflineMoves(y, order, now);
      RecoverIdle(y, order, now);
    }
  }

  lemma SubmitKeeps(y: System, m: Move)
    requires SystemInv(y) && m.Submit?
    ensures SystemInv(Step(y, m))
  {
    if StageOf(y, m.w) == Idle {
      var (after, r) := CreateOrReplay(y.world.db, m.id, m.request, m.key, m.requestHash, m.previewHash, m.now);
      DoKeeps(y, Create(m.id, m.request, m.key, m.requestHash, m.previewHash, m.now), m.w,
              if r.Ok? && IsQueued(after, r.value.id) then Submitted(r.value.id) else Idle);
    }
  }

  lemma LockKeeps(y: System, m: Move)
    requires SystemInv(y) && (m.Lock? || m.ReviewLock?)
    ensures SystemInv(Step(y, m))
  {
    var stage := StageOf(y, m.w);
    if m.Lock? && stage.Submitted? {
      DoKeeps(y, Acquire(stage.id, false, m.token, m.now), m.w,
              if AcquireLock(y.world.db, stage.id, false, m.token, m.now).1.Some? then Locked(stage.id, m.token)
                else Idle);
    } else if m.ReviewLock? && stage.Reviewing? {
      DoKeeps(y, Acquire(stage.id, true, m.token, m.now), m.w,
              if AcquireLock(y.world.db, stage.id, true, m.token, m.now).1.Some? then ReviewLocked(stage.id, m.token)
                else Idle);
    }
  }

  lemma ClaimItKeeps(y: System, m: Move)
    requires SystemInv(y) && m.ClaimIt?
    ensures SystemInv(Step(y, m))
  {
    var stage := StageOf(y, m.w);
    if stage.Locked? {
      if ClaimQueued(y.world.db, stage.id, m.now).1.Ok? {
        ClaimFits(y, m.w, m.now);
        DoKeeps(y, Claim(stage.id, m.now), m.w, Claimed(stage.id, stage.token));
      } else {
        DoKeeps(y, Claim(stage.id, m.now), m.w, Leaving(stage.id, stage.token));
      }
    }
  }

  lemma GateKeeps(y: System, m: Move)
    requires SystemInv(y) && m.Gate?
    ensures SystemInv(Step(y, m))
  {
    var stage := StageOf(y, m.w);
    if stage.Claimed? {
      Others(y, m.w);
      assert PairOk(y, m.w, m.w);
      FlightKept(y.world, Renew(stage.id, stage.token, m.now), stage.id);
      DoKeeps(y, Renew(stage.id, stage.token, m.now), m.w,
              if RenewLock(y.world.db, stage.id, stage.token, m.now).1 then Gated(stage.id, stage.token) else stage);
    }
  }

  lemma SettleKeeps(y: System, m: Move)
    requires SystemInv(y) && m.Settle?
    ensures SystemInv(Step(y, m))
  {
    var stage := StageOf(y, m.w);
    if ReportFits(stage, m.report) {
      Others(y, m.w);
      DoKeeps(y, Finish(stage.id, m.report, m.now), m.w, Leaving(stage.id, stage.token));
    }
  }

  lemma LeaveKeeps(y: System, m: Move)
    requires SystemInv(y) && (m.Conclude? || m.Leave?)
    ensures SystemInv(Step(y, m))
  {
    var stage := StageOf(y, m.w);
    if m.Conclude? && stage.ReviewLocked? {
      DoKeeps(y, Reconcile(stage.id, m.report, m.now), m.w, Leaving(stage.id, stage.token));
    } else if m.Leave? && stage.Leaving? {
      DoKeeps(y, Release(stage.id, stage.token), m.w, Idle);
    }
  }

  lemma MoveKeeps(y: System, m: Move)
    requires SystemInv(y)
    ensures SystemInv(Step(y, m))
  {
    match m
    case Submit(_, _, _, _, _, _, _) => SubmitKeeps(y, m);
    case Lock(_, _, _) => LockKeeps(y, m);
    case ClaimIt(_, _) => ClaimItKeeps(y, m);
    case Gate(_, _) => GateKeeps(y, m);
    case Post(w) => PostKeeps(y, w);
    case Settle(_, _, _) => SettleKeeps(y, m);
    case Review(w, id) => PassiveKeeps(y, w, Reviewing(id));
    case ReviewLock(_, _, _) => LockKeeps(y, m);
    case Conclude(_, _, _) => LeaveKeeps(y, m);
    case Abort(w) =>
      if StageOf(y, w).Locked? || StageOf(y, w).ReviewLocked? {
        PassiveKeeps(y, w, Leaving(StageOf(y, w).id, StageOf(y, w).token));
      }
    case Leave(_) => LeaveKeeps(y, m);
    case Crash(w) => PassiveKeeps(y, w, Idle);
    case RecoverOffline(order, now) => RecoverOfflineKeeps(y, order, now);
  }

  lemma {:induction false} ExecutionKeeps(moves: seq<Move>)
    ensures SystemInv(Execution(moves))
  {
    if moves != [] {
      ExecutionKeeps(moves[..|moves| - 1]);
      MoveKeeps(Execution(moves[..|moves| - 1]), moves[|moves| - 1]);
    }
  }

  // ---------- what every execution guarantees ----------

  /** Two different workers are never both between gate and finish on one target. */
  lemma OneWriterPerTarget(moves: seq<Move>, w: Worker, v: Worker)
    requires w != v && Writes(StageOf(Execution(moves), w)) && Writes(StageOf(Execution(moves), v))
    ensures !SameTarget(Execution(moves).world.db, StageOf(Execution(moves), w).id, StageOf(Execution(moves), v).id)
  {
    ExecutionKeeps(moves);
    var y := Execution(moves);
    assert PairOk(y, w, v) && PairOk(y, v, w);
    assert Fenced(y.world, StageOf(y, w).id) && Fenced(y.world, StageOf(y, v).id);
  }

  /** At most one provider write is ever sent for a command. */
  lemma WrittenAtMostOnce(moves: seq<Move>, id: Id)
    ensures Execution(moves).posts[id] <= 1
  {
    ExecutionKeeps(moves);
  }

  // ---------- exactness without any discipline on claims ----------

  /** An unknown command owns its quarantine, and no quarantined target is being written. */
  predicate CommandOk(w: World, id: Id) {
    && (IsUnknown(w.db, id) ==> OwnsQuarantine(w.db, id))
    && (Fenced(w, id) ==> !Quarantined(w.db, id))
  }

  ghost predicate Resolved(w: World) {
    forall id :: CommandOk(w, id)
  }

  /** A finish may report unknown only for a fenced command. */
  predicate UnknownOnlyFenced(w: World, c: Call) {
    c.Finish? && c.report.status == Unknown && InFlight(w.db, c.id) ==> Fenced(w, c.id)
  }

  /** A fenced command of the target that ends unknown is the only fenced one, so nobody else is
      left writing to the target it quarantines. */
  lemma FinishResolved(w: World, c: Call, id: Id)
    requires Inv(w) && c.Finish? && UnknownOnlyFenced(w, c)
    requires CommandOk(w, id) && CommandOk(w, c.id)
    ensures CommandOk(Next(w, c), id)
  {
    assert Fenced(w, c.id) ==> OwnsLock(w.db, c.id);
    assert Fenced(w, id) ==> OwnsLock(w.db, id);
    FinishedAlone(w, c.id, c.report, c.now, id);
  }

  lemma FinishedAlone(w: World, c: Id, report: Report, now: Time, id: Id)
    requires report.status == Unknown && InFlight(w.db, c) ==> Fenced(w, c)
    requires (Fenced(w, c) ==> OwnsLock(w.db, c)) && (Fenced(w, id) ==> OwnsLock(w.db, id))
    requires CommandOk(w, id) && CommandOk(w, c)
    ensures CommandOk(w.(db := FinishExecution(w.db, c, report, now).0), id)
  {
  }

  lemma ReconcileResolved(w: World, c: Call, id: Id)
    requires c.Reconcile? && CommandOk(w, id) && CommandOk(w, c.id)
    ensures CommandOk(Next(w, c), id)
  {
  }

  lemma CreateResolved(w: World, c: Call, id: Id)
    requires Inv(w) && c.Create? && CommandOk(w, id)
    ensures CommandOk(Next(w, c), id)
  {
    assert id in w.renewed ==> Started(w.db, id);
    CreatedApart(w.db, c.id, c.request, c.key, c.requestHash, c.previewHash, c.now, id);
  }

  /** A creation changes no other command and neither locks nor quarantines. */
  lemma CreatedApart(s: Ledger, c: Id, request: Request, key: Text, hash: Text, previewHash: Text, now: Time, id: Id)
    ensures var r := CreateOrReplay(s, c, request, key, hash, previewHash, now).0;
            && r.quarantines == s.quarantines && (InFlight(r, id) <==> InFlight(s, id))
            && (IsUnknown(r, id) <==> IsUnknown(s, id))
            && (id in s.commands ==> id in r.commands && r.commands[id] == s.commands[id])
  {
  }

  lemma ClaimResolved(w: World, c: Call, id: Id)
    requires Inv(w) && c.Claim? && CommandOk(w, id)
    ensures CommandOk(Next(w, c), id)
  {
    assert id in w.renewed ==> Started(w.db, id);
  }

  lemma LockResolved(w: World, c: Call, id: Id)
    requires (c.Acquire? || c.Release?) && CommandOk(w, id)
    ensures CommandOk(Next(w, c), id)
  {
  }

  /** The renewal is refused on a quarantined target. */
  lemma RenewResolved(w: World, c: Call, id: Id)
    requires c.Renew? && CommandOk(w, id)
    ensures CommandOk(Next(w, c), id)
  {
  }

  lemma OtherResolved(w: World, c: Call, id: Id)
    requires Inv(w) && !c.Finish? && !c.Reconcile? && !c.Recover?
    requires CommandOk(w, id)
    ensures CommandOk(Next(w, c), id)
  {
    if c.Create? {
      CreateResolved(w, c, id);
    } else if c.Claim? {
      ClaimResolved(w, c, id);
    } else if c.Renew? {
      RenewResolved(w, c, id);
    } else {
      LockResolved(w, c, id);
    }
  }

  lemma RecoverResolved(w: World, order: seq<Id>, now: Time)
    requires Inv(w) && Resolved(w) && IsRecoveryOrder(w.db, order) && OneFlight(w.db) && Apart(w.db)
    ensures Resolved(Next(w, Recover(order, now)))
  {
    assert forall id :: IsUnknown(w.db, id) ==> CommandOk(w, id);
    RecoverKeepsExactIff(w.db, order, now);
    RecoverAll(w.db, order, now);
  }

  lemma CallResolved(w: World, c: Call)
    requires Inv(w) && Resolved(w) && UnknownOnlyFenced(w, c)
    requires c.Recover? && IsRecoveryOrder(w.db, c.order) ==> OneFlight(w.db) && Apart(w.db)
    ensures Resolved(Next(w, c))
  {
    if c.Recover? {
      if IsRecoveryOrder(w.db, c.order) {
        RecoverResolved(w, c.order, c.now);
      }
    } else {
      forall id
        ensures CommandOk(Next(w, c), id)
      {
        if c.Finish? {
          assert CommandOk(w, c.id);
          FinishResolved(w, c, id);
        } else if c.Reconcile? {
          assert CommandOk(w, c.id);
          ReconcileResolved(w, c, id);
        } else {
          OtherResolved(w, c, id);
        }
      }
    }
  }

  /** The store call of a move, if it makes one. */
  ghost function CallOf(y: System, m: Move): Option<Call> {
    var stage := if m.RecoverOffline? then Idle else StageOf(y, m.w);
    match m
    case Submit(_, id, request, key, requestHash, previewHash, now) =>
      if stage == Idle then Some(Create(id, request, key, requestHash, previewHash, now)) else None
    case Lock(_, token, now) => if stage.Submitted? then Some(Acquire(stage.id, false, token, now)) else None
    case ClaimIt(_, now) => if stage.Locked? then Some(Claim(stage.id, now)) else None
    case Gate(_, now) => if stage.Claimed? then Some(Renew(stage.id, stage.token, now)) else None
    case Settle(_, report, now) => if ReportFits(stage, report) then Some(Finish(stage.id, report, now)) else None
    case ReviewLock(_, token, now) => if stage.Reviewing? then Some(Acquire(stage.id, true, token, now)) else None
    case Conclude(_, report, now) => if stage.ReviewLocked? then Some(Reconcile(stage.id, report, now)) else None
    case Leave(_) => if stage.Leaving? then Some(Release(stage.id, stage.token)) else None
    case RecoverOffline(order, now) =>
      if exists w :: StageOf(y, w) != Idle then None else Some(Recover(order, now))
    case Post(_) => None
    case Review(_, _) => None
    case Abort(_) => None
    case Crash(_) => None
  }

  lemma MoveIsCall(y: System, m: Move)
    ensures Step(y, m).world == if CallOf(y, m).Some? then Next(y.world, CallOf(y, m).value) else y.world
  {
  }

  /** An offline recovery that goes ahead. */
  ghost predicate Recovers(y: System, m: Move) {
    m.RecoverOffline? && (forall w :: StageOf(y, w) == Idle) && IsRecoveryOrder(y.world.db, m.order)
  }

  lemma MoveResolved(y: System, m: Move)
    requires SystemInv(y) && Resolved(y.world)
    requires Recovers(y, m) ==> OneFlight(y.world.db) && Apart(y.world.db)
    ensures Resolved(Step(y, m).world)
  {
    MoveIsCall(y, m);
    if CallOf(y, m).Some? {
      if m.Settle? {
        assert PairOk(y, m.w, m.w);
      }
      CallResolved(y.world, CallOf(y, m).value);
    }
  }

  /** Each offline recovery was started on tables it can represent: no target with two
      commands in progress, none in progress on a quarantined target. */
  ghost predicate CarefulRecoveries(moves: seq<Move>) {
    forall i :: 0 <= i < |moves| && Recovers(Execution(moves[..i]), moves[i]) ==>
      OneFlight(Execution(moves[..i]).world.db) && Apart(Execution(moves[..i]).world.db)
  }

  lemma {:induction false} ExecutionResolved(moves: seq<Move>)
    requires CarefulRecoveries(moves)
    ensures Resolved(Execution(moves).world)
  {
    if moves != [] {
      var rest := moves[..|moves| - 1];
      assert forall i :: 0 <= i < |rest| ==> rest[..i] == moves[..i];
      ExecutionResolved(rest);
      ExecutionKeeps(rest);
      MoveResolved(Execution(rest), moves[|moves| - 1]);
    }
  }

  /** The workers' order alone, stalled claims included, makes the quarantine table exact, and
      nobody writes to a target that still has an unknown outcome. */
  lemma NoWriteOverUnknown(moves: seq<Move>, id: Id, w: Worker)
    requires CarefulRecoveries(moves)
    ensures var y := Execution(moves);
            && (IsUnknown(y.world.db, id) <==> OwnsQuarantine(y.world.db, id))
            && (Writes(StageOf(y, w)) && IsUnknown(y.world.db, id) ==>
                  !SameTarget(y.world.db, StageOf(y, w).id, id))
  {
    ExecutionKeeps(moves);
    ExecutionResolved(moves);
    var y := Execution(moves);
    assert CommandOk(y.world, id);
    if Writes(StageOf(y, w)) {
      assert PairOk(y, w, w) && CommandOk(y.world, StageOf(y, w).id);
    }
  }

  ghost predicate AlwaysExact(moves: seq<Move>) {
    forall n :: 0 <= n <= |moves| ==> Exact(Execution(moves[..n]).world.db)
  }

  lemma ExactNow(moves: seq<Move>)
    requires CarefulRecoveries(moves)
    ensures Exact(Execution(moves).world.db)
  {
    ExecutionKeeps(moves);
    ExecutionResolved(moves);
    var w := Execution(moves).world;
    forall id
      ensures IsUnknown(w.db, id) <==> OwnsQuarantine(w.db, id)
    {
      assert CommandOk(w, id);
    }
  }

  lemma CarefulUpTo(moves: seq<Move>, n: nat)
    requires CarefulRecoveries(moves) && n <= |moves|
    ensures CarefulRecoveries(moves[..n])
  {
    assert forall i :: 0 <= i < n ==> moves[..n][..i] == moves[..i];
  }

  lemma ExecutionNext(moves: seq<Move>, i: nat)
    requires i < |moves|
    ensures Execution(moves[..i + 1]) == Step(Execution(moves[..i]), moves[i])
  {
    assert moves[..i + 1][..i] == moves[..i];
  }

  lemma RecoveredLedger(y: System, m: Move)
    requires Recovers(y, m)
    ensures Step(y, m).world.db == RecoverRows(y.world.db, m.order, m.now)
  {
  }

  lemma RecoveryIsCareful(y: System, m: Move)
    requires TablesOk(y.world.db) && Exact(y.world.db) && Recovers(y, m) && Exact(Step(y, m).world.db)
    ensures OneFlight(y.world.db) && Apart(y.world.db)
  {
    RecoveredLedger(y, m);
    RecoverKeepsExactIff(y.world.db, m.order, m.now);
  }

  lemma RecoveryWasCareful(moves: seq<Move>, i: nat)
    requires AlwaysExact(moves) && i < |moves| && Recovers(Execution(moves[..i]), moves[i])
    ensures OneFlight(Execution(moves[..i]).world.db) && Apart(Execution(moves[..i]).world.db)
  {
    ExecutionKeeps(moves[..i]);
    ExecutionNext(moves, i);
    assert Exact(Execution(moves[..i + 1]).world.db);
    RecoveryIsCareful(Execution(moves[..i]), moves[i]);
  }

  /** Exactly when the quarantine table stays exact, whatever the workers do: if and only if every
      offline recovery finds no target with two commands in progress and none in progress on a
      quarantined target. */
  lemma AlwaysExactIff(moves: seq<Move>)
    ensures AlwaysExact(moves) <==> CarefulRecoveries(moves)
  {
    if CarefulRecoveries(moves) {
      forall n | 0 <= n <= |moves|
        ensures Exact(Execution(moves[..n]).world.db)
      {
        CarefulUpTo(moves, n);
        ExactNow(moves[..n]);
      }
    }
    if AlwaysExact(moves) {
      forall i | 0 <= i < |moves| && Recovers(Execution(moves[..i]), moves[i])
        ensures OneFlight(Execution(moves[..i]).world.db) && Apart(Execution(moves[..i]).world.db)
      {
        RecoveryWasCareful(moves, i);
      }
    }
  }
}
