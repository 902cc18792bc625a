/** Who holds a target, told from the calls and their answers alone, and what the holder gets for it:
    nobody else acquires the target before the deadline, and everybody may afterwards. */
module BudgetLeases {
  import opened Wrappers
  import opened BudgetLedger
  import opened BudgetRecovery
  import opened BudgetRuns
  import opened BudgetSafety

  /** The command a target was last given to, under which token, and until when. */
  datatype Held = Held(id: Id, token: Text, until: Time)

  predicate For(w: World, id: Id, t: Target) {
    id in w.db.commands && w.db.commands[id].request.target == t
  }

  /** How one call changes the holder: an acquire or a renewal that was answered with success gives
      ten minutes; the holder's own release ends it unless its command is in progress; so does the
      recovery of its command; nothing else matters. */
  ghost function NextHolder(w: World, c: Call, t: Target, before: Option<Held>): Option<Held> {
    match c
    case Acquire(id, allow, token, now) =>
      if For(w, id, t) && AcquireLock(w.db, id, allow, token, now).1.Some? then Some(Held(id, token, now + 600))
        else before
    case Renew(id, token, now) =>
      if For(w, id, t) && RenewLock(w.db, id, token, now).1 then Some(Held(id, token, now + 600)) else before
    case Release(id, token) =>
      if before.Some? && before.value.id == id && before.value.token == token && !InFlight(w.db, id) then None
        else before
    case Recover(order, _) =>
      if IsRecoveryOrder(w.db, order) && before.Some? && InFlight(w.db, before.value.id) then None else before
    case Create(_, _, _, _, _, _) => before
    case Claim(_, _) => before
    case Finish(_, _, _) => before
    case Reconcile(_, _, _) => before
  }

  ghost function HolderOf(calls: seq<Call>, t: Target): Option<Held> {
    if calls == [] then None
    else
      var rest := calls[..|calls| - 1];
      NextHolder(Run(rest), calls[|calls| - 1], t, HolderOf(rest, t))
  }

  // ---------- the lock row tells the holder ----------

  function RowOf(s: Ledger, t: Target): Option<Held> {
    if t in s.locks then Some(Held(s.locks[t].commandId, s.locks[t].token, s.locks[t].leaseUntil)) else None
  }

  lemma AcquireRow(w: World, id: Id, allow: bool, token: Text, now: Time, t: Target)
    ensures var c := Acquire(id, allow, token, now);
            RowOf(Next(w, c).db, t) == NextHolder(w, c, t, RowOf(w.db, t))
  {
  }

  lemma RenewRow(w: World, id: Id, token: Text, now: Time, t: Target)
    ensures var c := Renew(id, token, now);
            RowOf(Next(w, c).db, t) == NextHolder(w, c, t, RowOf(w.db, t))
  {
  }

  lemma ReleaseRow(w: World, id: Id, token: Text, t: Target)
    requires Linked(w.db)
    ensures var c := Release(id, token);
            RowOf(Next(w, c).db, t) == NextHolder(w, c, t, RowOf(w.db, t))
  {
    if t in w.db.locks {
      assert OnTarget(w.db, w.db.locks[t].commandId, t);
    }
  }

  lemma RecoverRow(w: World, order: seq<Id>, now: Time, t: Target)
    ensures var c := Recover(order, now);
            RowOf(Next(w, c).db, t) == NextHolder(w, c, t, RowOf(w.db, t))
  {
    if IsRecoveryOrder(w.db, order) {
      RecoverLock(w.db, order, now, t);
    }
  }

  lemma SettleRow(s: Ledger, id: Id, report: Report, now: Time, t: Target)
    ensures RowOf(FinishExecution(s, id, report, now).0, t) == RowOf(s, t)
    ensures RowOf(RecordReconciliation(s, id, report, now).0, t) == RowOf(s, t)
  {
  }

  lemma RowStep(w: World, c: Call, t: Target)
    requires Linked(w.db)
    ensures RowOf(Next(w, c).db, t) == NextHolder(w, c, t, RowOf(w.db, t))
  {
    match c
    case Create(_, _, _, _, _, _) =>
    case Claim(_, _) =>
    case Finish(id, report, now) => SettleRow(w.db, id, report, now, t);
    case Reconcile(id, report, now) => SettleRow(w.db, id, report, now, t);
    case Acquire(id, allow, token, now) => AcquireRow(w, id, allow, token, now, t);
    case Renew(id, token, now) => RenewRow(w, id, token, now, t);
    case Release(id, token) => ReleaseRow(w, id, token, t);
    case Recover(order, now) => RecoverRow(w, order, now, t);
  }

  /** In every run the lock row of a target says exactly who holds it, and until when. */
  lemma {:induction false} HolderIsRow(calls: seq<Call>, t: Target)
    ensures HolderOf(calls, t) == RowOf(Run(calls).db, t)
  {
    if calls != [] {
      var rest := calls[..|calls| - 1];
      RunKeeps(rest);
      HolderIsRow(rest, t);
      RowStep(Run(rest), calls[|calls| - 1], t);
    }
  }

  // ---------- what the holder gets ----------

  /** Exactly when an acquire is answered with success: the command exists, its target is free or past
      its holder's deadline, nothing on it is in progress, and it is not quarantined, unless the
      caller asks to reconcile the very command that owns the quarantine. */
  lemma AcquiredIff(calls: seq<Call>, id: Id, allow: bool, token: Text, now: Time, t: Target)
    requires For(Run(calls), id, t)
    ensures var s := Run(calls).db; var h := HolderOf(calls, t);
            AcquireLock(s, id, allow, token, now).1 == Some(token) <==>
              && (h.None? || h.value.until <= now)
              && (forall x :: x in s.commands && s.commands[x].request.target == t ==>
                  s.commands[x].status != InProgress)
              && (t in s.quarantines ==> allow && s.quarantines[t].commandId == id)
    ensures AcquireLock(Run(calls).db, id, allow, token, now).1 in {None, Some(token)}
  {
    RunKeeps(calls);
    HolderIsRow(calls, t);
    var s := Run(calls).db;
    assert TargetInFlight(s, t) <==>
             exists x :: x in s.commands && s.commands[x].request.target == t && s.commands[x].status == InProgress by {
      if TargetInFlight(s, t) {
        var x :| OnTarget(s, x, t) && InFlight(s, x);
      }
      if x :| x in s.commands && s.commands[x].request.target == t && s.commands[x].status == InProgress {
        assert OnTarget(s, x, t) && InFlight(s, x);
      }
    }
    if t in s.locks {
      assert OnTarget(s, s.locks[t].commandId, t);
    }
  }

  /** Exactly when a renewal is answered with success, expired or not: the caller is the holder, its
      command is in progress, and the target is not quarantined. */
  lemma RenewedIff(calls: seq<Call>, id: Id, token: Text, now: Time, t: Target)
    requires For(Run(calls), id, t)
    ensures var s := Run(calls).db; var h := HolderOf(calls, t);
            RenewLock(s, id, token, now).1 <==>
              && h.Some? && h.value.id == id && h.value.token == token
              && s.commands[id].status == InProgress && t !in s.quarantines
  {
    HolderIsRow(calls, t);
  }

  /** Before the deadline nobody acquires the target, the holder included. */
  lemma HolderKeepsOut(calls: seq<Call>, id: Id, allow: bool, token: Text, now: Time, t: Target)
    requires For(Run(calls), id, t)
    requires HolderOf(calls, t).Some? && now < HolderOf(calls, t).value.until
    ensures AcquireLock(Run(calls).db, id, allow, token, now).1 == None
  {
    AcquiredIff(calls, id, allow, token, now, t);
  }

  /** What may come between: no release with the holder's token, no recovery, no renewal by the holder
      with an earlier clock, and no acquire of the target at or after the deadline. */
  predicate LeavesAlone(w: World, c: Call, t: Target, h: Held) {
    match c
    case Release(id, token) => !(id == h.id && token == h.token)
    case Recover(_, _) => false
    case Renew(id, token, now) => id == h.id && token == h.token ==> now + 600 >= h.until
    case Acquire(id, _, _, now) => For(w, id, t) ==> now < h.until
    case _ => true
  }

  /** The holder is still there, with at least the same deadline. */
  predicate StillThere(held: Option<Held>, h: Held) {
    held.Some? && held.value.id == h.id && held.value.token == h.token && held.value.until >= h.until
  }

  lemma StillHeld(w: World, c: Call, t: Target, h: Held, held: Option<Held>)
    requires StillThere(held, h) && held == RowOf(w.db, t) && Linked(w.db) && LeavesAlone(w, c, t, h)
    ensures StillThere(NextHolder(w, c, t, held), h)
  {
    assert OnTarget(w.db, w.db.locks[t].commandId, t);
  }

  lemma HolderStep(calls: seq<Call>, c: Call, t: Target)
    ensures HolderOf(calls + [c], t) == NextHolder(Run(calls), c, t, HolderOf(calls, t))
    ensures Run(calls + [c]) == Next(Run(calls), c)
  {
    assert (calls + [c])[..|calls|] == calls;
  }

  ghost predicate AllLeaveAlone(calls: seq<Call>, more: seq<Call>, t: Target, h: Held) {
    forall i :: 0 <= i < |more| ==> LeavesAlone(Run(calls + more[..i]), more[i], t, h)
  }

  lemma {:induction false} HeldThroughout(calls: seq<Call>, more: seq<Call>, t: Target, h: Held)
    requires HolderOf(calls, t) == Some(h) && AllLeaveAlone(calls, more, t, h)
    ensures StillThere(HolderOf(calls + more, t), h)
  {
    if more == [] {
      assert calls + more == calls;
    } else {
      var n := |more| - 1;
      var before := calls + more[..n];
      assert calls + more == before + [more[n]];
      AloneUpTo(calls, more, n, t, h);
      HeldThroughout(calls, more[..n], t, h);
      RunKeeps(before);
      HolderIsRow(before, t);
      StillHeld(Run(before), more[n], t, h, HolderOf(before, t));
      HolderStep(before, more[n], t);
    }
  }

  lemma AloneUpTo(calls: seq<Call>, more: seq<Call>, n: nat, t: Target, h: Held)
    requires AllLeaveAlone(calls, more, t, h) && n <= |more|
    ensures AllLeaveAlone(calls, more[..n], t, h)
  {
    assert forall i :: 0 <= i < n ==> more[..n][..i] == more[..i];
  }

  /** The last call is an acquire of the target, answered with success. */
  ghost predicate Acquires(calls: seq<Call>, t: Target)
    requires calls != []
  {
    var w, c := Run(calls[..|calls| - 1]), calls[|calls| - 1];
    c.Acquire? && For(w, c.id, t) && AcquireLock(w.db, c.id, c.allowQuarantined, c.token, c.now).1.Some?
  }

  function Given(c: Call): Held
    requires c.Acquire?
  {
    Held(c.id, c.token, c.now + 600)
  }

  lemma AcquiredIsHeld(calls: seq<Call>, t: Target)
    requires calls != [] && Acquires(calls, t)
    ensures HolderOf(calls, t) == Some(Given(calls[|calls| - 1]))
  {
  }

  /** A live lease keeps everybody out: let a command acquire the target at n (calls ends with this
      acquire). Whatever is called then, every acquire of the target before n + 600 fails, unless the
      holder has released it with its own token or renewed it with an earlier clock, or an offline
      recovery has run. */
  lemma LeaseKeepsOut(calls: seq<Call>, more: seq<Call>, t: Target, id: Id, allow: bool, token: Text, now: Time)
    requires calls != [] && Acquires(calls, t)
    requires AllLeaveAlone(calls, more, t, Given(calls[|calls| - 1]))
    requires For(Run(calls + more), id, t) && now < calls[|calls| - 1].now + 600
    ensures AcquireLock(Run(calls + more).db, id, allow, token, now).1 == None
  {
    var h := Given(calls[|calls| - 1]);
    AcquiredIsHeld(calls, t);
    HeldThroughout(calls, more, t, h);
    HolderKeepsOut(calls + more, id, allow, token, now, t);
  }

  ghost predicate Quiet(s: Ledger, t: Target) {
    && t !in s.quarantines
    && forall x :: x in s.commands && s.commands[x].request.target == t ==> s.commands[x].status != InProgress
  }

  lemma ReleaseEnds(calls: seq<Call>, h: Held, t: Target)
    requires HolderOf(calls, t) == Some(h) && Quiet(Run(calls).db, t)
    ensures var after := calls + [Release(h.id, h.token)];
            && HolderOf(after, t) == None && Run(after).db.commands == Run(calls).db.commands
            && Run(after).db.quarantines == Run(calls).db.quarantines
  {
    RunKeeps(calls);
    HolderIsRow(calls, t);
    assert OnTarget(Run(calls).db, h.id, t);
    HolderStep(calls, Release(h.id, h.token), t);
  }

  /** What a release is for: once the holder has released a target on which nothing is in progress or
      quarantined, any command of it may acquire it at once. */
  lemma ReleasedIsFree(calls: seq<Call>, h: Held, t: Target, other: Id, token: Text, now: Time)
    requires HolderOf(calls, t) == Some(h) && For(Run(calls), other, t) && Quiet(Run(calls).db, t)
    ensures AcquireLock(Run(calls + [Release(h.id, h.token)]).db, other, false, token, now).1 == Some(token)
  {
    ReleaseEnds(calls, h, t);
    AcquiredIff(calls + [Release(h.id, h.token)], other, false, token, now, t);
  }
}
