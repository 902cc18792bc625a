/** What the database alone guarantees. A store operation reads and checks on one connection and
    writes on another, so any number of other writes may come between the two; the triggers and the
    unique index run with the write itself. */
module OwnershipWrites {
  import opened Wrappers
  import opened Texts
  import opened Ownership

  /** A single write: a row of ad_accounts inserted or updated, or a client's status. What it stores
      is arbitrary, as if every check before it had been overtaken. */
  datatype Write =
    | Put(id: Id, row: Account)
    | SetClient(client: Id, status: Status)

  ghost function Written(b: Book, w: Write): Book {
    match w
    case Put(id, n) =>
      if n.client !in b.clients || IndexTaken(b, id, n) then b
      else if id !in b.accounts && n.status == Active && ActiveElsewhere(b, n.client, IdentityOf(n), None) then b
      else if id in b.accounts && TriggerFires(b, id, b.accounts[id], n) then b
      else b.(accounts := b.accounts[id := n])
    case SetClient(client, status) =>
      if client in b.clients && status == Active && b.clients[client] != Active && RestoreBlocked(b, client) then b
      else b.(clients := b.clients[client := status])
  }

  ghost function AfterWrites(b: Book, writes: seq<Write>): Book {
    if writes == [] then b else Written(AfterWrites(b, writes[..|writes| - 1]), writes[|writes| - 1])
  }

  /** Two rows that count and share an identity belong to one client. */
  predicate OneOwner(b: Book, x: Id, y: Id) {
    Counts(b, x) && Counts(b, y) && IdentityOf(b.accounts[x]) == IdentityOf(b.accounts[y]) ==>
      b.accounts[x].client == b.accounts[y].client
  }

  predicate OneText(b: Book, x: Id, y: Id) {
    (x in b.accounts && y in b.accounts && b.accounts[x].client == b.accounts[y].client
     && SameText(b.accounts[x], b.accounts[y])) ==> x == y
  }

  ghost predicate OneOwnerEach(b: Book) {
    && (forall x :: x in b.accounts ==> b.accounts[x].client in b.clients)
    && (forall x, y :: OneOwner(b, x, y))
    && (forall x, y :: OneText(b, x, y))
  }

  // ---------- lower case and white space ----------

  lemma LowerKeepsSpace(c: char)
    ensures IsSpace(LowerChar(c)) <==> IsSpace(c)
  {
  }

  lemma LowerCons(c: char, s: string)
    ensures Lower([c] + s) == [LowerChar(c)] + Lower(s)
  {
    assert ([c] + s)[1..] == s;
  }

  lemma {:induction false} LowerFront(s: string)
    requires s != ""
    ensures Lower(s[..|s| - 1]) == Lower(s)[..|s| - 1]
  {
    if |s| > 1 {
      var t := s[1..];
      LowerFront(t);
      LowerCons(s[0], t);
      LowerCons(s[0], t[..|t| - 1]);
      assert s == [s[0]] + t && s[..|s| - 1] == [s[0]] + t[..|t| - 1];
    }
  }

  lemma StripFront(s: string)
    requires s != "" && IsSpace(s[0])
    ensures Strip(Lower(s)) == Strip(Lower(s[1..]))
  {
    LowerKeepsSpace(s[0]);
    assert Lower(s)[1..] == Lower(s[1..]);
  }

  lemma StripBack(s: string)
    requires s != "" && !IsSpace(s[0]) && IsSpace(s[|s| - 1])
    ensures Strip(Lower(s)) == Strip(Lower(s[..|s| - 1]))
  {
    LowerFront(s);
    LowerKeepsSpace(s[0]);
    LowerKeepsSpace(s[|s| - 1]);
  }

  lemma {:induction false} LowerOfStrip(s: string)
    ensures Lower(Strip(s)) == Strip(Lower(s))
    decreases |s|
  {
    if s != "" {
      if IsSpace(s[0]) {
        StripFront(s);
        LowerOfStrip(s[1..]);
      } else if IsSpace(s[|s| - 1]) {
        StripBack(s);
        LowerOfStrip(s[..|s| - 1]);
      } else {
        LowerTwice(s);
      }
    }
  }

  /** The trigger compares platforms in lower case only; that is enough to fix the identity. */
  lemma SameLowerSameIdentity(a: Account, n: Account)
    requires Lower(a.platform) == Lower(n.platform) && a.external == n.external
    ensures IdentityOf(a) == IdentityOf(n)
  {
    LowerOfStrip(a.platform);
    LowerOfStrip(n.platform);
    assert NormalizePlatform(a.platform) == NormalizePlatform(n.platform);
  }

  // ---------- one write ----------

  lemma PutPair(b: Book, id: Id, n: Account, y: Id)
    requires OneOwnerEach(b) && n.client in b.clients && y != id
    requires id !in b.accounts ==> !(n.status == Active && ActiveElsewhere(b, n.client, IdentityOf(n), None))
    requires id in b.accounts ==> !TriggerFires(b, id, b.accounts[id], n)
    ensures var c := b.(accounts := b.accounts[id := n]); OneOwner(c, id, y) && OneOwner(c, y, id)
  {
    var c := b.(accounts := b.accounts[id := n]);
    assert OneOwner(b, id, y);
    if Counts(c, id) && Counts(b, y) && IdentityOf(b.accounts[y]) == IdentityOf(n) && b.accounts[y].client != n.client {
      ActiveElsewhereBy(b, n, id, y);
      if id in b.accounts {
        SameLowerSameIdentity(b.accounts[id], n);
      }
    }
  }

  lemma ActiveElsewhereBy(b: Book, n: Account, id: Id, y: Id)
    requires Counts(b, y) && y != id && b.accounts[y].client != n.client && IdentityOf(b.accounts[y]) == IdentityOf(n)
    ensures ActiveElsewhere(b, n.client, IdentityOf(n), None)
    ensures ActiveElsewhere(b, n.client, IdentityOf(n), Some(id))
  {
  }

  lemma PutKeeps(b: Book, id: Id, n: Account)
    requires OneOwnerEach(b)
    ensures OneOwnerEach(Written(b, Put(id, n)))
  {
    var c := Written(b, Put(id, n));
    if c != b {
      forall x, y
        ensures OneText(c, x, y)
      {
        assert OneText(b, x, y);
      }
      forall x, y
        ensures OneOwner(c, x, y)
      {
        if x == id && y != id {
          PutPair(b, id, n, y);
        } else if y == id && x != id {
          PutPair(b, id, n, x);
        } else {
          assert OneOwner(b, x, y);
        }
      }
    }
  }

  lemma SetClientKeeps(b: Book, client: Id, status: Status)
    requires OneOwnerEach(b)
    ensures OneOwnerEach(Written(b, SetClient(client, status)))
  {
    var c := Written(b, SetClient(client, status));
    forall x, y
      ensures OneOwner(c, x, y)
    {
      assert OneOwner(b, x, y);
    }
    forall x, y
      ensures OneText(c, x, y)
    {
      assert OneText(b, x, y);
    }
  }

  /** The database alone: whatever is written in whatever order, however stale the checks before it,
      no provider account is ever active for two active clients, and no client has two rows of the
      same texts. */
  lemma {:induction false} NeverTwoOwners(b: Book, writes: seq<Write>)
    requires OneOwnerEach(b)
    ensures OneOwnerEach(AfterWrites(b, writes))
  {
    if writes != [] {
      var before := AfterWrites(b, writes[..|writes| - 1]);
      NeverTwoOwners(b, writes[..|writes| - 1]);
      match writes[|writes| - 1]
      case Put(id, n) => PutKeeps(before, id, n);
      case SetClient(client, status) => SetClientKeeps(before, client, status);
    }
  }

  // ---------- the store writes nothing else ----------

  /** The write a step of the table-backed store makes, if it makes one. */
  ghost function WriteOf(b: Book, c: Call): Write {
    match c
    case NewAccount(id, client, platform, external, status) => Put(id, NewRow(client, platform, external, status))
    case ChangeAccount(id, p) =>
      if id in b.accounts then Put(id, Patched(b.accounts[id], p)) else SetClient(0, Archived)
    case DropAccount(id) =>
      if id in b.accounts then Put(id, b.accounts[id].(status := Archived)) else SetClient(0, Archived)
    case NewClient(client, status) => SetClient(client, status)
    case ChangeClient(client, status) => SetClient(client, status)
    case DropClient(client) => SetClient(client, Archived)
  }

  lemma OwnIndex(b: Book, id: Id, n: Account)
    requires !ClientHas(b, n.client, IdentityOf(n), Some(id))
    ensures !IndexTaken(b, id, n)
  {
    forall y | y in b.accounts && y != id && b.accounts[y].client == n.client
      ensures !SameText(b.accounts[y], n)
    {
      assert Some(id) != Some(y);
    }
  }

  /** A step of the table-backed store that changes anything is a single write, and the database
      lets it through: its triggers and index never refuse what the checks let through, except for
      the patches that make no check. */
  lemma StepIsWrite(b: Book, c: Call)
    requires OneOwnerEach(b)
    ensures Next(Table, b, c) == b || Next(Table, b, c) == Written(b, WriteOf(b, c))
  {
    match c
    case NewAccount(id, client, platform, external, status) =>
      if id !in b.accounts {
        var n := NewRow(client, platform, external, status);
        NothingToExclude(b, n.client, IdentityOf(n), id);
        if CreateAccount(b, id, n).1.Ok? {
          OwnIndex(b, id, n);
        }
      }
    case ChangeAccount(id, p) =>
    case DropAccount(id) =>
      if id in b.accounts {
        forall y | y in b.accounts && y != id
          ensures OneText(b, y, id)
        {
        }
      }
    case NewClient(client, status) =>
    case ChangeClient(client, status) =>
    case DropClient(client) =>
  }
}
