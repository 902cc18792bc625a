/** Renewable leases: one abstract lease table, the two stores that refine it, and what the
    tokens guarantee over every run. Tokens are random UUIDs, so an acquire never reuses one. */
module SyncLeases {
  import opened Wrappers

  type Key = nat
  type Token = nat
  type Time = int

  // ---------- the abstract lease table ----------

  datatype Lease = Lease(token: Token, until: Time)
  type Leases = map<Key, Lease>

  function Ttl(seconds: int): (t: Time)
    ensures t >= 30 && t >= seconds
  {
    if seconds > 30 then seconds else 30
  }

  predicate Live(s: Leases, k: Key, now: Time) {
    k in s && s[k].until > now
  }

  predicate Holds(s: Leases, k: Key, token: Token) {
    k in s && s[k].token == token
  }

  function Acquire(s: Leases, k: Key, token: Token, now: Time, ttl: int): (Leases, Option<Token>) {
    if Live(s, k, now) then (s, None) else (s[k := Lease(token, now + Ttl(ttl))], Some(token))
  }

  function Renew(s: Leases, k: Key, token: Token, now: Time, ttl: int): (Leases, bool) {
    if Holds(s, k, token) then (s[k := Lease(token, now + Ttl(ttl))], true) else (s, false)
  }

  function Release(s: Leases, k: Key, token: Token): Leases {
    if Holds(s, k, token) then s - {k} else s
  }

  // ---------- the table-backed store ----------

  /** The lease_until column is text: usually a time, but it may be empty or unreadable. */
  datatype UntilText = Empty | Unreadable | At(time: Time)
  datatype Row = Row(token: Token, until: UntilText, updatedAt: Time)

  /** A row whose time cannot be read does not block anyone: it stands for an expired lease. */
  function AbstractRow(r: Row, expired: Time): Lease {
    Lease(r.token, if r.until.At? then r.until.time else expired)
  }

  class SqliteLeaseStore {
    var rows: map<Key, Row>

    /** An abstract table this store refines, reading unreadable rows as expired at a given time. */
    ghost function Abstract(expired: Time): Leases
      reads this
    {
      map k | k in rows :: AbstractRow(rows[k], expired)
    }

    constructor ()
      ensures rows == map[]
    {
      rows := map[];
    }

    method AcquireLease(k: Key, minted: Token, now: Time, ttl: int) returns (r: Option<Token>)
      modifies this
      ensures forall e :: e <= now ==>
                Abstract(e) == Acquire(old(Abstract(e)), k, minted, now, ttl).0
                && r == Acquire(old(Abstract(e)), k, minted, now, ttl).1
    {
      if k in rows && rows[k].until != Empty {
        var activeUntil := if rows[k].until.At? then rows[k].until.time else now;
        if activeUntil > now {
          return None;
        }
      }
      rows := rows[k := Row(minted, At(now + Ttl(ttl)), now)];
      return Some(minted);
    }

    method RenewLease(k: Key, token: Token, now: Time, ttl: int) returns (ok: bool)
      modifies this
      ensures forall e :: Abstract(e) == Renew(old(Abstract(e)), k, token, now, ttl).0
                          && ok == Renew(old(Abstract(e)), k, token, now, ttl).1
    {
      ok := k in rows && rows[k].token == token;
      if ok {
        rows := rows[k := Row(token, At(now + Ttl(ttl)), now)];
      }
    }

    method ReleaseLease(k: Key, token: Token)
      modifies this
      ensures forall e :: Abstract(e) == Release(old(Abstract(e)), k, token)
    {
      if k in rows && rows[k].token == token {
        rows := rows - {k};
      }
    }
  }

  // ---------- the in-memory store ----------

  class InMemoryLeaseStore {
    var leases: map<Key, (Token, Time)>

    ghost function Abstract(): Leases
      reads this
    {
      map k | k in leases :: Lease(leases[k].0, leases[k].1)
    }

    constructor ()
      ensures Abstract() == map[]
    {
      leases := map[];
    }

    method AcquireLease(k: Key, minted: Token, now: Time, ttl: int) returns (r: Option<Token>)
      modifies this
      ensures Abstract() == Acquire(old(Abstract()), k, minted, now, ttl).0
      ensures r == Acquire(old(Abstract()), k, minted, now, ttl).1
    {
      if k in leases && leases[k].1 > now {
        return None;
      }
      leases := leases[k := (minted, now + Ttl(ttl))];
      return Some(minted);
    }

    method RenewLease(k: Key, token: Token, now: Time, ttl: int) returns (ok: bool)
      modifies this
      ensures Abstract() == Renew(old(Abstract()), k, token, now, ttl).0
      ensures ok == Renew(old(Abstract()), k, token, now, ttl).1
    {
      if k !in leases || leases[k].0 != token {
        return false;
      }
      leases := leases[k := (token, now + Ttl(ttl))];
      return true;
    }

    method ReleaseLease(k: Key, token: Token)
      modifies this
      ensures Abstract() == Release(old(Abstract()), k, token)
    {
      if k in leases && leases[k].0 == token {
        leases := leases - {k};
      }
    }
  }

  // ---------- runs ----------

  datatype Call =
    | CallAcquire(key: Key, token: Token, now: Time, ttl: int)
    | CallRenew(key: Key, token: Token, now: Time, ttl: int)
    | CallRelease(key: Key, token: Token)

  /** One exclusive run: the lease key it runs under and its token. */
  datatype Ticket = Ticket(key: Key, token: Token)

  /** issued: every token handed out so far; open: the runs that have started and not yet reached
      their release, each with the deadline it got from its last successful acquire or renewal. */
  datatype World = World(leases: Leases, issued: set<Token>, open: map<Ticket, Time>)

  const START := World(map[], {}, map[])

  function Next(w: World, c: Call): World {
    match c
    case CallAcquire(k, token, now, ttl) =>
      var (s, r) := Acquire(w.leases, k, token, now, ttl);
      if r.Some? then World(s, w.issued + {token}, w.open[Ticket(k, token) := now + Ttl(ttl)]) else w
    case CallRenew(k, token, now, ttl) =>
      var (s, ok) := Renew(w.leases, k, token, now, ttl);
      var t := Ticket(k, token);
      World(s, w.issued, if ok && t in w.open then w.open[t := now + Ttl(ttl)] else w.open)
    case CallRelease(k, token) =>
      World(Release(w.leases, k, token), w.issued, w.open - {Ticket(k, token)})
  }

  function Run(calls: seq<Call>): World {
    if calls == [] then START else Next(Run(calls[..|calls| - 1]), calls[|calls| - 1])
  }

  ghost predicate FreshTokens(calls: seq<Call>) {
    forall i :: 0 <= i < |calls| && calls[i].CallAcquire? ==> calls[i].token !in Run(calls[..i]).issued
  }

  lemma FreshUpTo(calls: seq<Call>, n: nat)
    requires FreshTokens(calls) && n <= |calls|
    ensures FreshTokens(calls[..n])
  {
    forall i | 0 <= i < n
      ensures calls[..n][..i] == calls[..i]
    {
    }
  }

  ghost predicate HoldersIssued(w: World) {
    forall k :: k in w.leases ==> w.leases[k].token in w.issued
  }

  lemma {:induction false} RunHoldersIssued(calls: seq<Call>)
    ensures HoldersIssued(Run(calls))
  {
    if calls != [] {
      RunHoldersIssued(calls[..|calls| - 1]);
    }
  }

  lemma StillDisplaced(w: World, c: Call, k: Key, token: Token)
    requires token in w.issued && !Holds(w.leases, k, token)
    requires c.CallAcquire? ==> c.token !in w.issued
    ensures token in Next(w, c).issued && !Holds(Next(w, c).leases, k, token)
  {
  }

  lemma {:induction false} NeverHoldsAgain(calls: seq<Call>, more: seq<Call>, k: Key, token: Token)
    requires FreshTokens(calls + more)
    requires token in Run(calls).issued && !Holds(Run(calls).leases, k, token)
    ensures token in Run(calls + more).issued && !Holds(Run(calls + more).leases, k, token)
  {
    if more == [] {
      assert calls + more == calls;
    } else {
      var n := |calls| + |more| - 1;
      var all := calls + more;
      assert all[..n] == calls + more[..|more| - 1];
      FreshUpTo(all, n);
      NeverHoldsAgain(calls, more[..|more| - 1], k, token);
      StillDisplaced(Run(all[..n]), all[n], k, token);
    }
  }

  /** A token that was issued and no longer holds its lease has lost it for good: however the run
      goes on, every later renewal fails and every release is idle. */
  lemma DisplacedForGood(calls: seq<Call>, more: seq<Call>, k: Key, token: Token)
    requires FreshTokens(calls + more)
    requires token in Run(calls).issued && !Holds(Run(calls).leases, k, token)
    ensures var s := Run(calls + more).leases;
            (forall now, ttl :: Renew(s, k, token, now, ttl) == (s, false)) && Release(s, k, token) == s
  {
    NeverHoldsAgain(calls, more, k, token);
  }

  // ---------- exclusion ----------

  /** At an acquire, nobody who still runs under the key has let its own deadline pass. */
  predicate InTime(w: World, c: Call) {
    c.CallAcquire? ==> forall t :: t in w.open && t.key == c.key ==> w.open[t] > c.now
  }

  ghost predicate AllInTime(calls: seq<Call>) {
    forall i :: 0 <= i < |calls| ==> InTime(Run(calls[..i]), calls[i])
  }

  /** The run holds its lease until the deadline it knows of. */
  predicate Owns(w: World, t: Ticket) {
    t in w.open && Holds(w.leases, t.key, t.token) && w.leases[t.key].until == w.open[t]
  }

  predicate TicketOk(w: World, t: Ticket) {
    t in w.open ==> t.token in w.issued && Owns(w, t)
  }

  ghost predicate TicketsOk(w: World) {
    forall t :: TicketOk(w, t)
  }

  ghost predicate Exclusive(w: World) {
    forall s, t :: s in w.open && t in w.open && s.key == t.key ==> s == t
  }

  lemma OwnersExclude(w: World)
    requires TicketsOk(w)
    ensures Exclusive(w)
  {
    forall s, t | s in w.open && t in w.open && s.key == t.key
      ensures s == t
    {
      assert TicketOk(w, s) && TicketOk(w, t);
    }
  }

  lemma StepKeepsTickets(w: World, c: Call)
    requires TicketsOk(w) && InTime(w, c)
    requires c.CallAcquire? ==> c.token !in w.issued
    ensures TicketsOk(Next(w, c))
  {
    forall t
      ensures TicketOk(Next(w, c), t)
    {
      assert TicketOk(w, t);
      if !c.CallAcquire? {
        assert TicketOk(w, Ticket(c.key, c.token));
      }
    }
  }

  lemma TimePrefix(calls: seq<Call>, n: nat)
    requires AllInTime(calls) && n <= |calls|
    ensures AllInTime(calls[..n])
  {
    forall i | 0 <= i < n
      ensures calls[..n][..i] == calls[..i]
    {
    }
  }

  /** If every holder renews or releases before its own deadline, every open run holds its lease up
      to that deadline, and so it is the only one under its key. */
  lemma {:induction false} ExclusiveRuns(calls: seq<Call>)
    requires FreshTokens(calls) && AllInTime(calls)
    ensures TicketsOk(Run(calls)) && Exclusive(Run(calls))
  {
    if calls != [] {
      var n := |calls| - 1;
      FreshUpTo(calls, n);
      TimePrefix(calls, n);
      ExclusiveRuns(calls[..n]);
      StepKeepsTickets(Run(calls[..n]), calls[n]);
    }
    OwnersExclude(Run(calls));
  }

  /** A late holder is joined: an acquire at or after the deadline of an open run succeeds. */
  lemma LateIsJoined(w: World, c: Call)
    requires TicketsOk(w) && !InTime(w, c) && c.token !in w.issued
    ensures !Exclusive(Next(w, c))
  {
    var t :| t in w.open && t.key == c.key && w.open[t] <= c.now;
    assert TicketOk(w, t);
    var mine := Ticket(c.key, c.token);
    var v := Next(w, c);
    assert mine in v.open && t in v.open && mine != t;
  }

  ghost predicate AlwaysExclusive(calls: seq<Call>) {
    forall i :: 0 <= i <= |calls| ==> Exclusive(Run(calls[..i]))
  }

  /** Exactly when exclusion holds: with fresh tokens, no moment of a run has two open runs under one
      key if and only if no acquire of a key comes at or after the deadline of a run still open
      under it. */
  lemma ExclusiveIff(calls: seq<Call>)
    requires FreshTokens(calls)
    ensures AlwaysExclusive(calls) <==> AllInTime(calls)
  {
    if AllInTime(calls) {
      forall i | 0 <= i <= |calls|
        ensures Exclusive(Run(calls[..i]))
      {
        FreshUpTo(calls, i);
        TimePrefix(calls, i);
        ExclusiveRuns(calls[..i]);
      }
    }
    if AlwaysExclusive(calls) {
      NobodyWasLate(calls);
    }
  }

  lemma {:induction false} NobodyWasLate(calls: seq<Call>)
    requires FreshTokens(calls) && AlwaysExclusive(calls)
    ensures AllInTime(calls)
  {
    if calls != [] {
      var n := |calls| - 1;
      FreshUpTo(calls, n);
      ExclusiveUpTo(calls, n);
      NobodyWasLate(calls[..n]);
      ExclusiveRuns(calls[..n]);
      assert calls[..n + 1] == calls;
      if !InTime(Run(calls[..n]), calls[n]) {
        LateIsJoined(Run(calls[..n]), calls[n]);
      }
      TimeExtends(calls);
    }
  }

  lemma ExclusiveUpTo(calls: seq<Call>, n: nat)
    requires AlwaysExclusive(calls) && n <= |calls|
    ensures AlwaysExclusive(calls[..n])
  {
    forall i | 0 <= i <= n
      ensures calls[..n][..i] == calls[..i]
    {
    }
  }

  lemma TimeExtends(calls: seq<Call>)
    requires calls != [] && AllInTime(calls[..|calls| - 1])
    requires InTime(Run(calls[..|calls| - 1]), calls[|calls| - 1])
    ensures AllInTime(calls)
  {
    var rest := calls[..|calls| - 1];
    forall i | 0 <= i < |calls|
      ensures InTime(Run(calls[..i]), calls[i])
    {
      if i < |rest| {
        assert rest[..i] == calls[..i] && InTime(Run(rest[..i]), rest[i]);
      }
    }
  }

  // ---------- what a lease gives ----------

  /** An acquired lease lasts for the asked time, thirty seconds at least: until then everybody else is
      turned away, from then on anybody gets it; once its token is released, anybody gets it at once,
      and no other key is touched. */
  lemma LeaseLasts(s: Leases, k: Key, token: Token, now: Time, ttl: int, other: Token, later: Time, ttl2: int, j: Key)
    requires Acquire(s, k, token, now, ttl).1.Some?
    ensures var t := Acquire(s, k, token, now, ttl).0; var last := if ttl < 30 then 30 else ttl;
            && Acquire(t, k, other, later, ttl2).1 == (if later < now + last then None else Some(other))
            && Acquire(Release(t, k, token), k, other, later, ttl2).1 == Some(other)
            && (other != token ==> Release(t, k, other) == t && !Renew(t, k, other, later, ttl2).1)
            && (j != k ==> (j in t <==> j in s) && (j in s ==> t[j] == s[j]))
  {
  }

  /** A renewal starts the time anew. */
  lemma RenewedLasts(s: Leases, k: Key, token: Token, now: Time, ttl: int, other: Token, later: Time, ttl2: int)
    requires Renew(s, k, token, now, ttl).1
    ensures var last := if ttl < 30 then 30 else ttl;
            Acquire(Renew(s, k, token, now, ttl).0, k, other, later, ttl2).1
            == if later < now + last then None else Some(other)
  {
  }
}
