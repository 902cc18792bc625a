/** The resolver over its tables: one call is one transaction, refused without a trace or carried
    out in full. */
module ConflictStore {
  import opened Wrappers
  import opened Ownership
  import R = Roles
  import OwnershipStore
  import opened Conflicts

  class AssignmentConflictService {
    var auth: Auth
    var clients: map<Id, Status>
    var rows: map<Id, Row>
    var budgets: map<Id, Budget>
    var history: seq<HistoryRow>
    var audit: seq<AuditRow>

    ghost function State(): World
      reads this
    {
      World(auth, clients, rows, budgets, history, audit)
    }

    constructor (auth: Auth)
      ensures State() == World(auth, map[], map[], map[], [], [])
    {
      this.auth := auth;
      clients, rows, budgets, history, audit := map[], map[], map[], [], [];
    }

    /** Group the joined rows by identity and pick the group asked for. */
    method IdentityRowsForGroup(group: Ident) returns (members: set<Id>)
      ensures members == Members(State(), group)
    {
      ghost var w := State();
      var left := set x | x in rows && rows[x].account.client in clients;
      var grouped: map<Ident, set<Id>> := map[];
      while left != {}
        invariant forall x :: x in left ==> x in rows && rows[x].account.client in clients
        invariant forall g, x :: OwnershipStore.InGroup(grouped, g, x) <==> InIdentity(w, g, x) && x !in left
      {
        var x :| x in left;
        var identity := IdentOf(rows[x]);
        if identity.Some? {
          grouped := OwnershipStore.AddTo(grouped, identity.value, x);
        }
        left := left - {x};
      }
      members := if group in grouped then grouped[group] else {};
      assert forall x :: x in members <==> OwnershipStore.InGroup(grouped, group, x);
    }

    method ActiveAccountBudgets(owners: set<Id>) returns (found: set<Id>)
      ensures found == ActiveBudgets(State(), owners)
    {
      found := {};
      var left := budgets.Keys;
      while left != {}
        invariant left <= budgets.Keys
        invariant forall b :: b in found <==> ActiveBudgetOf(State(), owners, b) && b !in left
      {
        var b :| b in left;
        if budgets[b].status == Active && budgets[b].account.Some? && budgets[b].account.value in owners {
          found := found + {b};
        }
        left := left - {b};
      }
    }

    /** Archive the budgets one by one in id order, each with its history row. */
    method ArchiveBudgets(which: set<Id>, actor: Id, now: Time)
      requires which <= budgets.Keys
      modifies this`budgets, this`history
      ensures budgets == RetireBudgets(old(budgets), which, now)
      ensures Conflicts.HistoryGrows(old(State()), actor, now, State(), which)
    {
      ghost var was := budgets;
      ghost var order: seq<Id> := [];
      var left := which;
      while left != {}
        invariant left <= which
        invariant budgets == RetireBudgets(was, which - left, now)
        invariant InOrder(order, which - left)
        invariant forall b, c :: b in which - left && c in left ==> b < c
        invariant history == old(history) + HistoryRows(was, order, actor, now)
      {
        LeastExists(left);
        var b :| b in left && IsLeast(left, b);
        var updated := Retired(budgets[b], now);
        RetireOne(was, which - left, b, now);
        OneMoreRow(was, order, b, actor, now);
        OrderGrows(order, which - left, b);
        assert OneRow(was, b, actor, now) == HistoryRow(b, now, actor, budgets[b], updated);
        history := history + [HistoryRow(b, now, actor, budgets[b], updated)];
        budgets := budgets[b := updated];
        assert which - (left - {b}) == (which - left) + {b};
        order := order + [b];
        left := left - {b};
      }
      assert which - left == which;
    }

    /** The checks, in order, on the rows as they are now. */
    method Check(q: Request, caller: Caller) returns (e: Option<ResolveError>)
      ensures e == Refusal(State(), q, caller)
    {
      var members := IdentityRowsForGroup(q.group);
      if members == {} {
        return Some(GroupNotFound);
      }
      var allowed := AllowedClientIds(caller);
      if allowed.Err? {
        return Some(allowed.error);
      }
      var expected := members * q.expected;
      var scoped := AssertGroupScope(if expected == {} then members else expected, allowed.value);
      if !scoped {
        return Some(ScopeDenied);
      }
      var candidates := ActiveRows(q.group, members);
      if |candidates| < 2 {
        return Some(Stale);
      }
      scoped := AssertGroupScope(candidates, allowed.value);
      if !scoped {
        return Some(ScopeDenied);
      }
      var version := BuildVersion(q.group, candidates);
      if candidates != q.expected || version != q.version {
        return Some(Stale);
      }
      if q.winner !in candidates {
        return Some(WinnerInvalid);
      }
      var loserBudgets := ActiveAccountBudgets(candidates - {q.winner});
      e := if loserBudgets != {} && !q.archive then Some(BudgetsPresent) else None;
    }

    method ActiveRows(group: Ident, members: set<Id>) returns (candidates: set<Id>)
      requires members == Members(State(), group)
      ensures candidates == Candidates(State(), group)
    {
      candidates := set x | x in members && rows[x].account.status == Active
          && clients[rows[x].account.client] == Active;
    }

    method ResolveConflict(q: Request, caller: Caller, now: Time) returns (r: Result<Resolution, ResolveError>)
      modifies this
      ensures Resolve(old(State()), q, caller, now, State(), r)
    {
      var refusal := Check(q, caller);
      if refusal.Some? {
        return Err(refusal.value);
      }
      var members := IdentityRowsForGroup(q.group);
      var candidates := ActiveRows(q.group, members);
      var losers := candidates - {q.winner};
      var loserBudgets := ActiveAccountBudgets(losers);
      Commit(q, caller, now, losers, loserBudgets);
      r := Ok(Resolution(losers, loserBudgets));
    }

    /** The writes of a resolution that passed the checks. */
    method Commit(q: Request, caller: Caller, now: Time, losers: set<Id>, loserBudgets: set<Id>)
      requires losers == Candidates(State(), q.group) - {q.winner} && loserBudgets == ActiveBudgets(State(), losers)
      modifies this
      ensures Resolves(old(State()), q, caller, now, State(), Resolution(losers, loserBudgets))
    {
      ArchiveBudgets(loserBudgets, caller.actor, now);
      rows := RetireRows(rows, losers, now);
      audit := audit + [AuditRow(q.group, caller.actor, q.winner, losers, loserBudgets, now)];
    }

    /** The caller's user row and seat, then the clients bound to the agency one by one. */
    method AllowedClientIds(caller: Caller) returns (r: Result<Option<set<Id>>, ResolveError>)
      ensures r == Allowed(auth, caller)
    {
      if caller.role == R.Admin {
        if caller.actor !in auth.users || auth.users[caller.actor] != R.User(R.Admin, true) {
          return Err(Forbidden);
        }
        return Ok(None);
      }
      if caller.role != R.Agency || caller.agency.None? {
        return Err(ScopeDenied);
      }
      var agency := caller.agency.value;
      if R.Seat(agency, caller.actor) !in auth.managers || agency !in auth.agencies
         || caller.actor !in auth.users || auth.users[caller.actor] != R.User(R.Agency, true) {
        return Err(ManageForbidden);
      }
      var bound := BoundClients(agency);
      r := Ok(Some(bound));
    }

    method BoundClients(agency: Id) returns (bound: set<Id>)
      ensures bound == set b | b in auth.bindings && b.agency == agency :: b.client
    {
      bound := {};
      var left := auth.bindings;
      while left != {}
        invariant left <= auth.bindings
        invariant bound == set b | b in auth.bindings - left && b.agency == agency :: b.client
      {
        var b :| b in left;
        assert auth.bindings - (left - {b}) == (auth.bindings - left) + {b};
        if b.agency == agency {
          bound := bound + {b.client};
        }
        left := left - {b};
      }
      assert auth.bindings - left == auth.bindings;
    }

    method AssertGroupScope(which: set<Id>, allowed: Option<set<Id>>) returns (ok: bool)
      requires which <= rows.Keys
      ensures ok <==> InScope(State(), which, allowed)
    {
      ok := allowed.None? || forall x :: x in which ==> rows[x].account.client in allowed.value;
      assert ClientsOf(State(), which) == set x | x in which :: rows[x].account.client;
      if allowed.Some? && ok {
        assert ClientsOf(State(), which) <= allowed.value;
      }
      if allowed.Some? && !ok {
        var x :| x in which && rows[x].account.client !in allowed.value;
        assert rows[x].account.client in ClientsOf(State(), which);
      }
    }

    /** The parts of a group's digest. */
    method BuildVersion(g: Ident, candidates: set<Id>) returns (v: Version)
      requires candidates == Candidates(State(), g)
      ensures v == GroupVersion(State(), g)
    {
      var seen := SeenRows(candidates);
      var active := ActiveAccountBudgets(candidates);
      var held := HeldBudgets(active);
      SameVersion(State(), g, candidates, seen, held);
      v := Version(g, seen, held);
    }

    method SeenRows(which: set<Id>) returns (seen: map<Id, SeenRow>)
      requires forall x :: x in which ==> x in rows && rows[x].account.client in clients
      ensures seen == map x | x in which :: SeenRow(clients[rows[x].account.client], rows[x])
    {
      seen := map[];
      var left := which;
      while left != {}
        invariant left <= which && seen.Keys == which - left
        invariant forall x :: x in seen ==> seen[x] == SeenRow(clients[rows[x].account.client], rows[x])
      {
        var x :| x in left;
        seen := seen[x := SeenRow(clients[rows[x].account.client], rows[x])];
        left := left - {x};
      }
    }

    method HeldBudgets(which: set<Id>) returns (held: map<Id, Budget>)
      requires which <= budgets.Keys
      ensures held == map b | b in which :: budgets[b]
    {
      held := map[];
      var left := which;
      while left != {}
        invariant left <= which && held.Keys == which - left
        invariant forall b :: b in held ==> held[b] == budgets[b]
      {
        var b :| b in left;
        held := held[b := budgets[b]];
        left := left - {b};
      }
    }
  }

  predicate IsLeast(s: set<Id>, b: Id) {
    forall c :: c in s ==> b <= c
  }

  lemma LeastExists(s: set<Id>)
    requires s != {}
    ensures exists b :: b in s && IsLeast(s, b)
  {
    var b :| b in s;
    var rest := s - {b};
    assert forall c :: c in s ==> c == b || c in rest;
    if rest == {} {
      assert IsLeast(s, b);
    } else {
      LeastExists(rest);
      var m :| m in rest && IsLeast(rest, m);
      assert IsLeast(s, if b < m then b else m);
    }
  }

  lemma RetireOne(budgets: map<Id, Budget>, done: set<Id>, b: Id, now: Time)
    requires b in budgets && b !in done
    ensures RetireBudgets(budgets, done, now)[b] == budgets[b]
    ensures RetireBudgets(budgets, done, now)[b := Retired(budgets[b], now)] == RetireBudgets(budgets, done + {b}, now)
  {
  }

  lemma OneMoreRow(budgets: map<Id, Budget>, order: seq<Id>, b: Id, actor: Id, now: Time)
    requires b in budgets && forall c :: c in order ==> c in budgets
    ensures HistoryRows(budgets, order + [b], actor, now)
            == HistoryRows(budgets, order, actor, now) + [OneRow(budgets, b, actor, now)]
  {
  }

  lemma OrderGrows(order: seq<Id>, which: set<Id>, b: Id)
    requires InOrder(order, which) && forall c :: c in which ==> c < b
    ensures InOrder(order + [b], which + {b})
  {
    assert forall i :: 0 <= i < |order| ==> order[i] in which;
  }

  lemma SameVersion(w: World, g: Ident, candidates: set<Id>, seen: map<Id, SeenRow>, held: map<Id, Budget>)
    requires candidates == Candidates(w, g)
    requires seen == map x | x in candidates :: SeenRow(w.clients[w.rows[x].account.client], w.rows[x])
    requires held == map b | b in ActiveBudgets(w, candidates) :: w.budgets[b]
    ensures Version(g, seen, held) == GroupVersion(w, g)
  {
  }
}
