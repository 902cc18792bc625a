/** What the offline recovery does, row by row and as a whole. */
module BudgetRecovery {
  import opened Wrappers
  import opened BudgetLedger

  ghost predicate Distinct(order: seq<Id>) {
    forall i, j :: 0 <= i < j < |order| ==> order[i] != order[j]
  }

  ghost predicate Recoverable(s: Ledger, order: seq<Id>) {
    Distinct(order) && forall id :: id in order ==> InFlight(s, id)
  }

  lemma DropLast(s: Ledger, order: seq<Id>)
    requires Recoverable(s, order) && order != []
    ensures Recoverable(s, order[..|order| - 1])
    ensures order[|order| - 1] !in order[..|order| - 1] && InFlight(s, order[|order| - 1])
    ensures forall id :: id in order <==> id in order[..|order| - 1] || id == order[|order| - 1]
  {
    assert order == order[..|order| - 1] + [order[|order| - 1]];
    assert order[|order| - 1] in order;
  }

  function InterruptedAttempt(s: Ledger, id: Id, now: Time): Attempt
    requires id in s.commands
  {
    Attempt(RecoveryNumber(s, id), s.commands[id].updatedAt, now, Unknown, Some(INTERRUPTED), false)
  }

  lemma RecoverOneTables(s: Ledger, id: Id, now: Time)
    requires id in s.commands
    ensures var r := RecoverOne(s, id, now);
            && r.commands == s.commands[id := Interrupted(s.commands[id], RecoveryNumber(s, id), now)]
            && r.attempts == s.attempts[id := AttemptsOf(s, id) + [InterruptedAttempt(s, id, now)]]
            && r.locks == LocksWithout(s.locks, id)
            && r.quarantines == UpsertQuarantine(s, s.commands[id].request.target, id, now).quarantines
  {
  }

  /** A listed command becomes unknown with one new attempt, numbered above its earlier ones. */
  ghost predicate WasRecovered(s: Ledger, r: Ledger, id: Id, now: Time)
    requires id in s.commands
  {
    && id in r.commands
    && r.commands[id] == Interrupted(s.commands[id], RecoveryNumber(s, id), now)
    && AttemptsOf(r, id) == AttemptsOf(s, id) + [InterruptedAttempt(s, id, now)]
    && forall a :: a in AttemptsOf(s, id) ==> a.number < RecoveryNumber(s, id)
  }

  ghost predicate WasLeftAlone(s: Ledger, r: Ledger, id: Id) {
    && (id in s.commands <==> id in r.commands)
    && (id in s.commands ==> r.commands[id] == s.commands[id])
    && AttemptsOf(r, id) == AttemptsOf(s, id)
  }

  /** Exactly the listed commands are recovered; every other command and attempt list is unchanged. */
  lemma {:induction false} RecoverCommand(s: Ledger, order: seq<Id>, now: Time, id: Id)
    requires Recoverable(s, order)
    ensures id in order ==> WasRecovered(s, RecoverRows(s, order, now), id, now)
    ensures id !in order ==> WasLeftAlone(s, RecoverRows(s, order, now), id)
  {
    if order != [] {
      DropLast(s, order);
      var last := order[|order| - 1];
      var before := RecoverRows(s, order[..|order| - 1], now);
      RecoverCommand(s, order[..|order| - 1], now, id);
      RecoverCommand(s, order[..|order| - 1], now, last);
      assert WasLeftAlone(s, before, last);
      RecoverOneTables(before, last, now);
    }
  }

  /** Exactly the lock rows of the listed commands are deleted. */
  lemma {:induction false} RecoverLock(s: Ledger, order: seq<Id>, now: Time, t: Target)
    requires Recoverable(s, order)
    ensures var r := RecoverRows(s, order, now);
            && (t in r.locks <==> t in s.locks && s.locks[t].commandId !in order)
            && (t in r.locks ==> r.locks[t] == s.locks[t])
  {
    if order != [] {
      DropLast(s, order);
      var before := RecoverRows(s, order[..|order| - 1], now);
      RecoverLock(s, order[..|order| - 1], now, t);
      RecoverOneTables(before, order[|order| - 1], now);
    }
  }

  /** The position of the first listed command on the target, or |order|. */
  function FirstOn(s: Ledger, order: seq<Id>, t: Target): (i: nat)
    ensures i <= |order|
    ensures i < |order| ==> OnTarget(s, order[i], t)
    ensures forall j :: 0 <= j < i ==> !OnTarget(s, order[j], t)
  {
    if order == [] then 0
    else
      var i := FirstOn(s, order[..|order| - 1], t);
      if i < |order| - 1 || OnTarget(s, order[i], t) then i else |order|
  }

  /** Every target of a listed command ends up quarantined. A row that was there keeps its
      owner; a new row belongs to the first listed command on its target. */
  lemma {:induction false} RecoverQuarantine(s: Ledger, order: seq<Id>, now: Time, t: Target)
    requires Recoverable(s, order)
    ensures var r := RecoverRows(s, order, now);
            && (t in r.quarantines <==> t in s.quarantines || FirstOn(s, order, t) < |order|)
            && (t in s.quarantines ==> r.quarantines[t].commandId == s.quarantines[t].commandId)
            && (t in r.quarantines && t !in s.quarantines ==>
                  r.quarantines[t].commandId == order[FirstOn(s, order, t)])
  {
    if order != [] {
      DropLast(s, order);
      var rest := order[..|order| - 1];
      var last := order[|order| - 1];
      var before := RecoverRows(s, rest, now);
      RecoverQuarantine(s, rest, now, t);
      RecoverCommand(s, rest, now, last);
      RecoverOneTables(before, last, now);
      assert before.commands[last] == s.commands[last];
      var i := FirstOn(s, rest, t);
      if i < |rest| {
        assert rest[i] == order[i];
        assert FirstOn(s, order, t) == i;
      }
    }
  }

  /** The recovery as the operator sees it: nothing is left in progress, exactly the commands
      that were in progress become unknown, each of their targets is quarantined and their
      lock rows are gone, and no other command is touched. */
  lemma RecoverAll(s: Ledger, order: seq<Id>, now: Time)
    requires IsRecoveryOrder(s, order)
    ensures var r := RecoverRows(s, order, now);
            && (forall id :: !InFlight(r, id))
            && (forall id :: InFlight(s, id) ==>
                  WasRecovered(s, r, id, now) && s.commands[id].request.target in r.quarantines)
            && (forall id :: !InFlight(s, id) ==> WasLeftAlone(s, r, id))
            && (forall t :: t in r.locks <==> t in s.locks && !InFlight(s, s.locks[t].commandId))
  {
    var r := RecoverRows(s, order, now);
    forall id
      ensures !InFlight(r, id)
      ensures InFlight(s, id) ==> WasRecovered(s, r, id, now) && s.commands[id].request.target in r.quarantines
      ensures !InFlight(s, id) ==> WasLeftAlone(s, r, id)
    {
      RecoverCommand(s, order, now, id);
      if InFlight(s, id) {
        var t := s.commands[id].request.target;
        RecoverQuarantine(s, order, now, t);
        var k :| 0 <= k < |order| && order[k] == id;
        assert OnTarget(s, order[k], t);
      }
    }
    forall t
      ensures t in r.locks <==> t in s.locks && !InFlight(s, s.locks[t].commandId)
    {
      RecoverLock(s, order, now, t);
    }
  }

  /** The returned count is the number of commands in progress before, and a second run finds none. */
  lemma RecoverTwice(s: Ledger, order: seq<Id>, now: Time, again: seq<Id>)
    requires IsRecoveryOrder(s, order)
    requires IsRecoveryOrder(RecoverRows(s, order, now), again)
    ensures |order| == |set id | id in s.commands && InFlight(s, id)|
    ensures |again| == 0
  {
    CountDistinct(order, set id | id in s.commands && InFlight(s, id));
    RecoverAll(s, order, now);
    CountDistinct(again, {});
  }

  lemma {:induction false} CountDistinct(order: seq<Id>, ids: set<Id>)
    requires Distinct(order)
    requires forall id :: id in order <==> id in ids
    ensures |order| == |ids|
  {
    if order != [] {
      var last := order[|order| - 1];
      var rest := order[..|order| - 1];
      assert order == rest + [last];
      CountDistinct(rest, ids - {last});
    } else {
      assert ids == {};
    }
  }
}
