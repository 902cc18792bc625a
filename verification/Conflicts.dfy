/** Resolving an ambiguous assignment: one of several active mappings of a provider identity wins,
    the others are archived, provided the group is still the one the caller looked at. */
module Conflicts {
  import opened Wrappers
  import opened Ownership
  import R = Roles

  type Ident = (string, string)
  type Time = int

  datatype Row = Row(account: Account, updatedAt: Time)
  /** A budget of another scope has no account. */
  datatype Budget = Budget(account: Option<Id>, status: Status, version: int, updatedAt: Time)
  datatype HistoryRow = HistoryRow(budget: Id, changedAt: Time, changedBy: Id, previous: Budget, next: Budget)
  datatype AuditRow = AuditRow(identity: Ident, actor: Id, winner: Id, losers: set<Id>, archived: set<Id>, at: Time)

  /** Who may resolve what: users, the seats that may manage an agency (owners and managers, active),
      the active agencies, and the clients bound to each agency. */
  datatype Auth = Auth(users: map<Id, R.User>, managers: set<R.Seat>, agencies: set<Id>, bindings: set<R.Binding>)

  datatype World = World(auth: Auth, clients: map<Id, Status>, rows: map<Id, Row>, budgets: map<Id, Budget>,
                         history: seq<HistoryRow>, audit: seq<AuditRow>)

  function BookOf(w: World): Book {
    Book(w.clients, map x | x in w.rows :: w.rows[x].account)
  }

  // ---------- groups ----------

  function IdentOf(r: Row): (g: Option<Ident>)
    ensures g.Some? ==> g.value == IdentityOf(r.account)
  {
    var identity := IdentityOf(r.account);
    if identity.0 == "" || identity.1 == "" then None else Some(identity)
  }

  predicate InIdentity(w: World, g: Ident, x: Id) {
    x in w.rows && w.rows[x].account.client in w.clients && IdentOf(w.rows[x]) == Some(g)
  }

  predicate IsCandidate(w: World, g: Ident, x: Id) {
    InIdentity(w, g, x) && w.rows[x].account.status == Active && w.clients[w.rows[x].account.client] == Active
  }

  function Members(w: World, g: Ident): (s: set<Id>)
    ensures forall x :: x in s <==> InIdentity(w, g, x)
  {
    set x | x in w.rows && InIdentity(w, g, x)
  }

  function Candidates(w: World, g: Ident): (s: set<Id>)
    ensures forall x :: x in s <==> IsCandidate(w, g, x)
  {
    set x | x in w.rows && IsCandidate(w, g, x)
  }

  predicate IsConflict(w: World, g: Ident) {
    |Candidates(w, g)| >= 2
  }

  datatype SeenRow = SeenRow(clientStatus: Status, row: Row)

  /** What the digest of a group covers; the digest itself is taken to be injective. */
  datatype Version = Version(identity: Ident, rows: map<Id, SeenRow>, budgets: map<Id, Budget>)

  predicate ActiveBudgetOf(w: World, accounts: set<Id>, b: Id) {
    b in w.budgets && w.budgets[b].status == Active && w.budgets[b].account.Some?
        && w.budgets[b].account.value in accounts
  }

  function ActiveBudgets(w: World, accounts: set<Id>): (s: set<Id>)
    ensures forall b :: b in s <==> ActiveBudgetOf(w, accounts, b)
  {
    set b | b in w.budgets && ActiveBudgetOf(w, accounts, b)
  }

  function GroupVersion(w: World, g: Ident): Version {
    var candidates := Candidates(w, g);
    Version(g,
            map x | x in candidates :: SeenRow(w.clients[w.rows[x].account.client], w.rows[x]),
            map b | b in ActiveBudgets(w, candidates) :: w.budgets[b])
  }

  // ---------- one resolution ----------

  datatype Request = Request(group: Ident, version: Version, expected: set<Id>, winner: Id, archive: bool)
  /** The session of the caller: user, role, and the selected agency. */
  datatype Caller = Caller(actor: Id, role: R.Role, agency: Option<Id>)
  datatype Resolution = Resolution(losers: set<Id>, archived: set<Id>)

  datatype ResolveError =
    | GroupNotFound | Forbidden | ManageForbidden | ScopeDenied | Stale | WinnerInvalid | BudgetsPresent

  predicate Manages(a: Auth, caller: Caller)
    requires caller.agency.Some?
  {
    && R.Seat(caller.agency.value, caller.actor) in a.managers && caller.agency.value in a.agencies
    && caller.actor in a.users && a.users[caller.actor] == R.User(R.Agency, true)
  }

  /** The clients the caller may touch; None is all of them. */
  function Allowed(a: Auth, caller: Caller): Result<Option<set<Id>>, ResolveError> {
    if caller.role == R.Admin then
      if caller.actor in a.users && a.users[caller.actor] == R.User(R.Admin, true) then Ok(None) else Err(Forbidden)
    else if caller.role != R.Agency || caller.agency.None? then Err(ScopeDenied)
    else if !Manages(a, caller) then Err(ManageForbidden)
    else Ok(Some(set b | b in a.bindings && b.agency == caller.agency.value :: b.client))
  }

  function ClientsOf(w: World, rows: set<Id>): set<Id>
    requires rows <= w.rows.Keys
  {
    set x | x in rows :: w.rows[x].account.client
  }

  predicate InScope(w: World, rows: set<Id>, allowed: Option<set<Id>>)
    requires rows <= w.rows.Keys
  {
    allowed.Some? ==> ClientsOf(w, rows) <= allowed.value
  }

  /** The rows whose clients are checked first: the expected ones, or all if none of them is left. */
  function ScopeRows(w: World, g: Ident, expected: set<Id>): (s: set<Id>)
    ensures s <= w.rows.Keys
  {
    var members := Members(w, g);
    if members * expected == {} then members else members * expected
  }

  function Refusal(w: World, q: Request, caller: Caller): Option<ResolveError> {
    var candidates := Candidates(w, q.group);
    var allowed := Allowed(w.auth, caller);
    if Members(w, q.group) == {} then Some(GroupNotFound)
    else if allowed.Err? then Some(allowed.error)
    else if !InScope(w, ScopeRows(w, q.group, q.expected), allowed.value) then Some(ScopeDenied)
    else if |candidates| < 2 then Some(Stale)
    else if !InScope(w, candidates, allowed.value) then Some(ScopeDenied)
    else if candidates != q.expected || GroupVersion(w, q.group) != q.version then Some(Stale)
    else if q.winner !in candidates then Some(WinnerInvalid)
    else if ActiveBudgets(w, candidates - {q.winner}) != {} && !q.archive then Some(BudgetsPresent)
    else None
  }

  function Retired(b: Budget, now: Time): Budget {
    b.(status := Archived, version := b.version + 1, updatedAt := now)
  }

  function RetireBudgets(budgets: map<Id, Budget>, which: set<Id>, now: Time): map<Id, Budget> {
    map b | b in budgets :: if b in which then Retired(budgets[b], now) else budgets[b]
  }

  function RetireRows(rows: map<Id, Row>, which: set<Id>, now: Time): map<Id, Row> {
    map x | x in rows :: if x in which then Row(rows[x].account.(status := Archived), now) else rows[x]
  }

  /** The budgets in id order, as the rows are selected. */
  ghost predicate InOrder(order: seq<Id>, which: set<Id>) {
    && (forall b :: b in order <==> b in which)
    && (forall i, j :: 0 <= i < j < |order| ==> order[i] < order[j])
  }

  function OneRow(budgets: map<Id, Budget>, b: Id, actor: Id, now: Time): HistoryRow
    requires b in budgets
  {
    HistoryRow(b, now, actor, budgets[b], Retired(budgets[b], now))
  }

  function HistoryRows(budgets: map<Id, Budget>, order: seq<Id>, actor: Id, now: Time): (h: seq<HistoryRow>)
    requires forall b :: b in order ==> b in budgets
    ensures |h| == |order|
  {
    seq(|order|, i requires 0 <= i < |order| => OneRow(budgets, order[i], actor, now))
  }

  /** The losers' rows are archived, and no other row changes. */
  ghost predicate RowsRetired(w: World, q: Request, now: Time, v: World, losers: set<Id>) {
    && losers == Candidates(w, q.group) - {q.winner}
    && v.clients == w.clients && v.rows == RetireRows(w.rows, losers, now)
  }

  /** The archived budgets, each with one row of history, in id order. */
  ghost predicate HistoryGrows(w: World, actor: Id, now: Time, v: World, archived: set<Id>)
    requires archived <= w.budgets.Keys
  {
    exists order: seq<Id> :: InOrder(order, archived)
        && v.history == w.history + HistoryRows(w.budgets, order, actor, now)
  }

  /** The state after a resolution that is not refused. */
  ghost predicate Resolves(w: World, q: Request, caller: Caller, now: Time, v: World, r: Resolution) {
    && RowsRetired(w, q, now, v, r.losers)
    && r.archived == ActiveBudgets(w, r.losers)
    && v.auth == w.auth
    && v.budgets == RetireBudgets(w.budgets, r.archived, now)
    && HistoryGrows(w, caller.actor, now, v, r.archived)
    && v.audit == w.audit + [AuditRow(q.group, caller.actor, q.winner, r.losers, r.archived, now)]
  }

  ghost predicate Resolve(w: World, q: Request, caller: Caller, now: Time, v: World,
                          r: Result<Resolution, ResolveError>)
  {
    match Refusal(w, q, caller)
    case Some(e) => v == w && r == Err(e)
    case None => r.Ok? && Resolves(w, q, caller, now, v, r.value)
  }

  /** An active administrator, or an active owner or manager of the selected active agency to which
      the client is bound. */
  predicate MayResolveFor(a: Auth, caller: Caller, client: Id) {
    || (caller.role == R.Admin && caller.actor in a.users && a.users[caller.actor] == R.User(R.Admin, true))
    || (caller.role == R.Agency && caller.agency.Some? && Manages(a, caller)
        && R.Binding(caller.agency.value, client) in a.bindings)
  }

  /** A resolution goes through exactly when the group is still an ambiguous one, made of the
      expected rows in the version the caller saw, the winner is one of them, the caller may resolve
      for every candidate's client, and no loser keeps an active budget against the policy. */
  lemma SucceedsIff(w: World, q: Request, caller: Caller)
    ensures Refusal(w, q, caller).None? <==>
              var c := Candidates(w, q.group);
              && IsConflict(w, q.group) && c == q.expected && GroupVersion(w, q.group) == q.version && q.winner in c
              && (forall x :: x in c ==> MayResolveFor(w.auth, caller, w.rows[x].account.client))
              && (q.archive || ActiveBudgets(w, c - {q.winner}) == {})
  {
    var c := Candidates(w, q.group);
    if |c| >= 2 && c == q.expected {
      assert c != {};
      ExpectedAreScope(w, q);
      ScopeByRow(w, c, caller);
    }
  }

  lemma ExpectedAreScope(w: World, q: Request)
    requires Candidates(w, q.group) == q.expected != {}
    ensures ScopeRows(w, q.group, q.expected) == q.expected && Members(w, q.group) != {}
  {
    var members := Members(w, q.group);
    assert q.expected <= members;
    assert members * q.expected == q.expected;
  }

  lemma ScopeByRow(w: World, rows: set<Id>, caller: Caller)
    requires rows <= w.rows.Keys && rows != {}
    ensures var allowed := Allowed(w.auth, caller);
            (allowed.Ok? && InScope(w, rows, allowed.value)) <==>
              forall x :: x in rows ==> MayResolveFor(w.auth, caller, w.rows[x].account.client)
  {
    var allowed := Allowed(w.auth, caller);
    var x :| x in rows;
    assert forall y :: y in rows ==> w.rows[y].account.client in ClientsOf(w, rows);
    if allowed.Ok? && allowed.value.Some? {
      assert forall c :: c in allowed.value.value <==> R.Binding(caller.agency.value, c) in w.auth.bindings;
    }
    assert MayResolveFor(w.auth, caller, w.rows[x].account.client) ==> allowed.Ok?;
  }

  // ---------- what a resolution does to the groups ----------

  /** Every other row is a candidate of its identity exactly as before. */
  lemma OnlyLosersLeave(w: World, q: Request, now: Time, v: World, losers: set<Id>, g: Ident, x: Id)
    requires RowsRetired(w, q, now, v, losers)
    ensures IsCandidate(v, g, x) <==> IsCandidate(w, g, x) && x !in losers
  {
    if x in w.rows && x !in losers {
      assert v.rows[x] == w.rows[x];
    }
  }

  /** A successful resolution leaves the winner alone with its identity, no other group gains or
      loses a candidate, and so exactly this conflict is gone. */
  lemma OneConflictLess(w: World, q: Request, caller: Caller, now: Time, v: World, r: Resolution)
    requires Resolve(w, q, caller, now, v, Ok(r))
    ensures IsConflict(w, q.group) && Candidates(v, q.group) == {q.winner}
    ensures forall g :: g != q.group ==> Candidates(v, g) == Candidates(w, g)
    ensures forall g :: IsConflict(v, g) <==> IsConflict(w, g) && g != q.group
  {
    WinnerStaysAlone(w, q, now, v, r.losers);
    forall g | g != q.group
      ensures Candidates(v, g) == Candidates(w, g)
    {
      OthersKeepTheirs(w, q, now, v, r.losers, g);
    }
  }

  lemma WinnerStaysAlone(w: World, q: Request, now: Time, v: World, losers: set<Id>)
    requires RowsRetired(w, q, now, v, losers) && q.winner in Candidates(w, q.group)
    ensures Candidates(v, q.group) == {q.winner}
  {
    forall x
      ensures x in Candidates(v, q.group) <==> x == q.winner
    {
      OnlyLosersLeave(w, q, now, v, losers, q.group, x);
    }
  }

  lemma OthersKeepTheirs(w: World, q: Request, now: Time, v: World, losers: set<Id>, g: Ident)
    requires RowsRetired(w, q, now, v, losers) && g != q.group
    ensures Candidates(v, g) == Candidates(w, g)
  {
    forall x
      ensures x in Candidates(v, g) <==> x in Candidates(w, g)
    {
      OnlyLosersLeave(w, q, now, v, losers, g, x);
      if x in losers {
        assert IsCandidate(w, q.group, x);
      }
    }
  }

  /** In terms of what may be synced: exactly the rows of the group stop being ambiguous. */
  lemma GroupCanSyncAgain(w: World, q: Request, caller: Caller, now: Time, v: World, r: Resolution)
    requires Resolve(w, q, caller, now, v, Ok(r))
    ensures Candidates(w, q.group) <= ConflictIds(BookOf(w))
    ensures ConflictIds(BookOf(v)) == ConflictIds(BookOf(w)) - Candidates(w, q.group)
  {
    forall x
      ensures x in Candidates(w, q.group) ==> x in ConflictIds(BookOf(w))
      ensures x in ConflictIds(BookOf(v)) <==> x in ConflictIds(BookOf(w)) && x !in Candidates(w, q.group)
    {
      RowCanSyncAgain(w, q, now, v, r.losers, x);
    }
  }

  predicate Clash(b: Book, x: Id, y: Id) {
    x != y && Counts(b, x) && Counts(b, y) && IdentityOf(b.accounts[x]) == IdentityOf(b.accounts[y])
  }

  lemma ConflictIsClash(b: Book, x: Id)
    ensures x in ConflictIds(b) <==> exists y :: Clash(b, x, y)
  {
    if y :| Clash(b, x, y) {
      assert x in ConflictIds(b);
    }
    if x in ConflictIds(b) {
      var y :| y in b.accounts && y != x && Counts(b, y) && IdentityOf(b.accounts[x]) == IdentityOf(b.accounts[y]);
      assert Clash(b, x, y);
    }
  }

  lemma CountsAfter(w: World, q: Request, now: Time, v: World, losers: set<Id>, x: Id)
    requires RowsRetired(w, q, now, v, losers)
    ensures Counts(BookOf(v), x) <==> Counts(BookOf(w), x) && x !in losers
    ensures Counts(BookOf(v), x) ==> BookOf(v).accounts[x] == BookOf(w).accounts[x]
    ensures IsCandidate(w, q.group, x) ==> Counts(BookOf(w), x) && IdentityOf(BookOf(w).accounts[x]) == q.group
  {
  }

  lemma RowCanSyncAgain(w: World, q: Request, now: Time, v: World, losers: set<Id>, x: Id)
    requires RowsRetired(w, q, now, v, losers) && IsConflict(w, q.group) && q.winner in Candidates(w, q.group)
    ensures x in Candidates(w, q.group) ==> x in ConflictIds(BookOf(w))
    ensures x in ConflictIds(BookOf(v)) <==> x in ConflictIds(BookOf(w)) && x !in Candidates(w, q.group)
  {
    if x in Candidates(w, q.group) {
      GroupRowIsFree(w, q, now, v, losers, x);
    } else {
      OtherRowIsAsBefore(w, q, now, v, losers, x);
    }
  }

  lemma GroupRowIsFree(w: World, q: Request, now: Time, v: World, losers: set<Id>, x: Id)
    requires RowsRetired(w, q, now, v, losers) && IsConflict(w, q.group) && x in Candidates(w, q.group)
    ensures x in ConflictIds(BookOf(w)) && x !in ConflictIds(BookOf(v))
  {
    var before, after := BookOf(w), BookOf(v);
    ConflictIsClash(before, x);
    ConflictIsClash(after, x);
    var y := Another(Candidates(w, q.group), x);
    CountsAfter(w, q, now, v, losers, x);
    CountsAfter(w, q, now, v, losers, y);
    assert Clash(before, x, y);
    forall z
      ensures !Clash(after, x, z)
    {
      NoClashInGroup(w, q, now, v, losers, x, z);
    }
  }

  lemma OtherRowIsAsBefore(w: World, q: Request, now: Time, v: World, losers: set<Id>, x: Id)
    requires RowsRetired(w, q, now, v, losers) && x !in Candidates(w, q.group)
    ensures x in ConflictIds(BookOf(v)) <==> x in ConflictIds(BookOf(w))
  {
    var before, after := BookOf(w), BookOf(v);
    ConflictIsClash(before, x);
    ConflictIsClash(after, x);
    CountsAfter(w, q, now, v, losers, x);
    forall y
      ensures Clash(before, x, y) <==> Clash(after, x, y)
    {
      CountsAfter(w, q, now, v, losers, y);
      if Clash(before, x, y) {
        NotALoser(w, q, losers, x, y);
      }
    }
  }

  ghost function Another(s: set<Id>, x: Id): (y: Id)
    requires x in s && |s| >= 2
    ensures y in s && y != x
  {
    assert |s - {x}| >= 1;
    var y :| y in s - {x};
    y
  }

  /** A counting row of a group member's identity is a candidate of that group. */
  lemma SameIdentityIsCandidate(w: World, g: Ident, x: Id, y: Id)
    requires IsCandidate(w, g, x) && Counts(BookOf(w), y)
    requires IdentityOf(BookOf(w).accounts[x]) == IdentityOf(BookOf(w).accounts[y])
    ensures IsCandidate(w, g, y)
  {
  }

  lemma NoClashInGroup(w: World, q: Request, now: Time, v: World, losers: set<Id>, x: Id, z: Id)
    requires RowsRetired(w, q, now, v, losers) && x in Candidates(w, q.group)
    ensures !Clash(BookOf(v), x, z)
  {
    if Clash(BookOf(v), x, z) {
      CountsAfter(w, q, now, v, losers, x);
      CountsAfter(w, q, now, v, losers, z);
      SameIdentityIsCandidate(w, q.group, x, z);
    }
  }

  lemma NotALoser(w: World, q: Request, losers: set<Id>, x: Id, y: Id)
    requires losers == Candidates(w, q.group) - {q.winner}
    requires Clash(BookOf(w), x, y) && !IsCandidate(w, q.group, x)
    ensures y !in losers
  {
    if y in losers {
      SameIdentityIsCandidate(w, q.group, y, x);
    }
  }

  // ---------- budgets ----------

  /** Each active budget of a loser is archived under the next version with exactly one history row
      telling its values before and after; no other budget changes and no loser keeps one. */
  lemma LoserBudgetsRetired(w: World, q: Request, caller: Caller, now: Time, v: World, r: Resolution)
    requires Resolve(w, q, caller, now, v, Ok(r))
    ensures ActiveBudgets(v, r.losers) == {} && |v.history| == |w.history| + |r.archived|
    ensures v.history[..|w.history|] == w.history
    ensures forall b :: b in r.archived ==>
              && v.budgets[b].status == Archived && v.budgets[b].version == w.budgets[b].version + 1
              && multiset(v.history[|w.history|..])[HistoryRow(b, now, caller.actor, w.budgets[b], v.budgets[b])] == 1
    ensures forall b :: b in w.budgets && b !in r.archived ==> b in v.budgets && v.budgets[b] == w.budgets[b]
  {
    var order: seq<Id> :| InOrder(order, r.archived)
        && v.history == w.history + HistoryRows(w.budgets, order, caller.actor, now);
    var added := HistoryRows(w.budgets, order, caller.actor, now);
    assert v.history[|w.history|..] == added;
    OrderCounts(order, r.archived);
    forall b | b in r.archived
      ensures multiset(added)[HistoryRow(b, now, caller.actor, w.budgets[b], v.budgets[b])] == 1
    {
      OneRowEach(w.budgets, order, caller.actor, now, b);
    }
  }

  lemma {:induction false} OrderCounts(order: seq<Id>, which: set<Id>)
    requires InOrder(order, which)
    ensures |order| == |which|
  {
    if order == [] {
      assert which == {};
    } else {
      var last := order[|order| - 1];
      var rest := order[..|order| - 1];
      assert order == rest + [last];
      assert last in which && last !in rest;
      OrderCounts(rest, which - {last});
    }
  }

  lemma {:induction false} OneRowEach(budgets: map<Id, Budget>, order: seq<Id>, actor: Id, now: Time, b: Id)
    requires forall i, j :: 0 <= i < j < |order| ==> order[i] < order[j]
    requires forall c :: c in order ==> c in budgets
    requires b in budgets
    ensures multiset(HistoryRows(budgets, order, actor, now))[OneRow(budgets, b, actor, now)]
            == if b in order then 1 else 0
  {
    if order != [] {
      var last := order[|order| - 1];
      var rest := order[..|order| - 1];
      assert order == rest + [last];
      OneRowEach(budgets, rest, actor, now, b);
      assert HistoryRows(budgets, order, actor, now)
          == HistoryRows(budgets, rest, actor, now) + [OneRow(budgets, last, actor, now)];
    }
  }

  // ---------- runs ----------

  /** A resolver's call, or any other change to the tables. */
  datatype Move =
    | Try(q: Request, caller: Caller, now: Time, result: Result<Resolution, ResolveError>)
    | Edit

  ghost predicate Step(w: World, m: Move, v: World) {
    m.Try? ==> Resolve(w, m.q, m.caller, m.now, v, m.result)
  }

  ghost predicate IsRun(states: seq<World>, moves: seq<Move>) {
    && |states| == |moves| + 1
    && (forall i :: 0 <= i < |moves| ==> Step(states[i], moves[i], states[i + 1]))
  }

  ghost predicate BothSucceed(states: seq<World>, moves: seq<Move>, i: nat, j: nat) {
    && IsRun(states, moves) && i < j < |moves|
    && moves[i].Try? && moves[j].Try? && moves[i].q.version == moves[j].q.version
    && moves[i].result.Ok? && moves[j].result.Ok?
  }

  /** Whatever is written in between: if two resolvers with one group version both succeed, then
      every row the first one archived, and there is one, is back exactly as it was, its earlier
      updatedAt included. */
  lemma SecondSuccessNeedsOldRows(states: seq<World>, moves: seq<Move>, i: nat, j: nat)
    requires BothSucceed(states, moves, i, j)
    ensures var w, v, late := states[i], states[i + 1], states[j]; var losers := moves[i].result.value.losers;
            && losers != {}
            && (forall x :: x in losers ==>
                  && x in w.rows && x in v.rows && x in late.rows
                  && v.rows[x] == Row(w.rows[x].account.(status := Archived), moves[i].now)
                  && late.rows[x] == w.rows[x] && w.rows[x].account.status == Active)
  {
    var w, v, late := states[i], states[i + 1], states[j];
    assert Step(w, moves[i], v) && Step(late, moves[j], states[j + 1]);
    SeenIsCurrent(w, moves[i].q, moves[i].caller);
    SeenIsCurrent(late, moves[j].q, moves[j].caller);
    LosersAreSeen(w, moves[i].q, moves[i].now, v, moves[i].result.value.losers);
  }

  lemma SeenIsCurrent(w: World, q: Request, caller: Caller)
    requires Refusal(w, q, caller).None?
    ensures forall x :: x in q.version.rows ==> x in w.rows && q.version.rows[x].row == w.rows[x]
  {
  }

  lemma LosersAreSeen(w: World, q: Request, now: Time, v: World, losers: set<Id>)
    requires GroupVersion(w, q.group) == q.version && IsConflict(w, q.group) && RowsRetired(w, q, now, v, losers)
    ensures losers != {}
    ensures forall x :: x in losers ==>
              && x in q.version.rows && x in w.rows && w.rows[x].account.status == Active
              && x in v.rows && v.rows[x] == Row(w.rows[x].account.(status := Archived), now)
  {
    if losers == {} {
      assert Candidates(w, q.group) <= {q.winner};
      AtMostOneIn(Candidates(w, q.group), q.winner);
    }
    forall x | x in losers
      ensures x in q.version.rows && x in w.rows && w.rows[x].account.status == Active
      ensures x in v.rows && v.rows[x] == Row(w.rows[x].account.(status := Archived), now)
    {
      LoserIsSeen(w, q, losers, now, x);
    }
  }

  lemma AtMostOneIn(s: set<Id>, x: Id)
    requires s <= {x}
    ensures |s| <= 1
  {
    assert s == {} || s == {x};
  }

  lemma LoserIsSeen(w: World, q: Request, losers: set<Id>, now: Time, x: Id)
    requires GroupVersion(w, q.group) == q.version
    requires losers <= Candidates(w, q.group) && x in losers
    ensures x in q.version.rows && x in w.rows && w.rows[x].account.status == Active
    ensures var rows := RetireRows(w.rows, losers, now);
            x in rows && rows[x] == Row(w.rows[x].account.(status := Archived), now)
  {
    assert IsCandidate(w, q.group, x);
  }

  /** So of any number of resolvers that hold the same group version, whoever they are and whichever
      winner each of them names, at most one succeeds, as long as a single loser of the first one
      does not get its earlier updatedAt back. */
  lemma AtMostOneResolver(states: seq<World>, moves: seq<Move>, i: nat, j: nat, loser: Id)
    requires IsRun(states, moves) && i < j < |moves|
    requires moves[i].Try? && moves[j].Try? && moves[i].q.version == moves[j].q.version
    requires moves[i].result.Ok? && loser in moves[i].result.value.losers && loser in states[i].rows
    requires loser in states[j].rows ==> states[j].rows[loser].updatedAt != states[i].rows[loser].updatedAt
    ensures moves[j].result.Err?
  {
    if moves[j].result.Ok? {
      SecondSuccessNeedsOldRows(states, moves, i, j);
    }
  }

  // ---------- what a version tells ----------

  /** Both tables show the candidate alike. */
  predicate SameSight(w: World, v: World, g: Ident, x: Id) {
    && IsCandidate(w, g, x) && IsCandidate(v, g, x) && w.rows[x] == v.rows[x]
    && w.clients[w.rows[x].account.client] == v.clients[v.rows[x].account.client]
  }

  ghost predicate SameRows(w: World, v: World, g: Ident) {
    Candidates(w, g) == Candidates(v, g) && forall x :: x in Candidates(w, g) ==> SameSight(w, v, g, x)
  }

  ghost predicate SameBudgets(w: World, v: World, g: Ident) {
    && ActiveBudgets(w, Candidates(w, g)) == ActiveBudgets(v, Candidates(v, g))
    && (forall b :: b in ActiveBudgets(w, Candidates(w, g)) ==> w.budgets[b] == v.budgets[b])
  }

  /** Two groups have one version exactly when they are of one identity and show the same candidates,
      with the same rows and client statuses, and the same active budgets of these. */
  lemma SameVersionIff(w: World, v: World, g: Ident, h: Ident)
    ensures GroupVersion(w, g) == GroupVersion(v, h) <==> g == h && SameRows(w, v, g) && SameBudgets(w, v, g)
  {
    if g == h {
      SameRowsIff(w, v, g);
      SameBudgetsIff(w, v, g);
    }
  }

  lemma SameMapIff<V>(a: map<Id, V>, b: map<Id, V>)
    ensures a == b <==> a.Keys == b.Keys && forall k :: k in a ==> a[k] == b[k]
  {
  }

  lemma SameRowsIff(w: World, v: World, g: Ident)
    ensures GroupVersion(w, g).rows == GroupVersion(v, g).rows <==> SameRows(w, v, g)
  {
    VersionRows(w, g);
    VersionRows(v, g);
    SameMapIff(GroupVersion(w, g).rows, GroupVersion(v, g).rows);
  }

  lemma SameBudgetsIff(w: World, v: World, g: Ident)
    ensures GroupVersion(w, g).budgets == GroupVersion(v, g).budgets <==> SameBudgets(w, v, g)
  {
    VersionBudgets(w, g);
    VersionBudgets(v, g);
    SameMapIff(GroupVersion(w, g).budgets, GroupVersion(v, g).budgets);
  }

  lemma VersionRows(w: World, g: Ident)
    ensures var a := GroupVersion(w, g);
            && a.identity == g && a.rows.Keys == Candidates(w, g)
            && (forall x :: x in a.rows ==>
                  IsCandidate(w, g, x) && a.rows[x] == SeenRow(w.clients[w.rows[x].account.client], w.rows[x]))
  {
  }

  lemma VersionBudgets(w: World, g: Ident)
    ensures var a := GroupVersion(w, g);
            && a.budgets.Keys == ActiveBudgets(w, Candidates(w, g))
            && (forall b :: b in a.budgets ==> b in w.budgets && a.budgets[b] == w.budgets[b])
  {
  }

  /** The audit row tells the resolution: who resolved which group when, who is left, whose rows and which
      budgets are gone. */
  lemma AuditTells(w: World, q: Request, caller: Caller, now: Time, v: World, r: Resolution)
    requires Resolve(w, q, caller, now, v, Ok(r))
    ensures |v.audit| == |w.audit| + 1 && v.audit[..|w.audit|] == w.audit
    ensures var row := v.audit[|w.audit|];
            && row.identity == q.group && row.actor == caller.actor && row.at == now
            && {row.winner} == Candidates(v, q.group)
            && row.losers == Candidates(w, q.group) - Candidates(v, q.group)
            && row.archived == ActiveBudgets(w, row.losers)
  {
    OneConflictLess(w, q, caller, now, v, r);
  }
}
