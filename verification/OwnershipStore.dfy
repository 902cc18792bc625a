/** The client and account stores as the routes use them: each operation is proved to make exactly
    the step of Ownership, and the grouping loop to find exactly the ambiguous mappings. */
module OwnershipStore {
  import opened Wrappers
  import opened Texts
  import opened Ownership

  type Ident = (string, string)

  /** Both stores; they differ in the checks of a patch. */
  class AccountBook {
    const store: Store
    var clients: map<Id, Status>
    var accounts: map<Id, Account>

    ghost function Books(): Book
      reads this
    {
      Book(clients, accounts)
    }

    constructor (store: Store)
      ensures this.store == store && Books() == Book(map[], map[])
    {
      this.store := store;
      clients, accounts := map[], map[];
    }

    method UniqueIdentityAvailable(client: Id, identity: Ident, exclude: Option<Id>) returns (ok: bool)
      ensures ok <==> !ClientHas(Books(), client, identity, exclude)
    {
      ok := true;
      var rows := accounts.Keys;
      while rows != {}
        invariant rows <= accounts.Keys
        invariant ok
        invariant forall y :: y in accounts && y !in rows && exclude != Some(y) && accounts[y].client == client ==>
                                IdentityOf(accounts[y]) != identity
      {
        var y :| y in rows;
        if exclude != Some(y) && accounts[y].client == client && IdentityOf(accounts[y]) == identity {
          return false;
        }
        rows := rows - {y};
      }
    }

    method ActiveAssignment(client: Id, identity: Ident, exclude: Option<Id>) returns (existing: Option<Id>)
      ensures existing.Some? <==> ActiveElsewhere(Books(), client, identity, exclude)
      ensures existing.Some? ==> Counts(Books(), existing.value) && accounts[existing.value].client != client
                                 && IdentityOf(accounts[existing.value]) == identity
    {
      existing := None;
      var rows := accounts.Keys;
      while rows != {}
        invariant rows <= accounts.Keys
        invariant existing.None?
        invariant forall y :: Counts(Books(), y) && y !in rows && exclude != Some(y) && accounts[y].client != client ==>
                                IdentityOf(accounts[y]) != identity
      {
        var y :| y in rows;
        var a := accounts[y];
        if a.status == Active && a.client != client && exclude != Some(y)
           && a.client in clients && clients[a.client] == Active && IdentityOf(a) == identity {
          assert Counts(Books(), y);
          return Some(y);
        }
        rows := rows - {y};
      }
    }

    method CreateAccount(id: Id, client: Id, platform: string, external: string, status: Status)
      returns (r: Result<Account, OwnershipError>)
      requires id !in accounts
      modifies this
      ensures (Books(), r) == Ownership.CreateAccount(old(Books()), id, NewRow(client, platform, external, status))
    {
      if client !in clients {
        return Err(ClientMissing);
      }
      var a := NewRow(client, platform, external, status);
      var ok := UniqueIdentityAvailable(client, IdentityOf(a), None);
      if !ok {
        return Err(DuplicateIdentity);
      }
      if status == Active {
        var existing := ActiveAssignment(client, IdentityOf(a), None);
        if existing.Some? {
          return Err(AssignmentConflict);
        }
      }
      accounts := accounts[id := a];
      r := Ok(a);
    }

    /** The database's own check of an update, on the rows as they are at the write. */
    method TriggerAborts(id: Id, a: Account, n: Account) returns (aborts: bool)
      ensures aborts <==> TriggerFires(Books(), id, a, n)
    {
      aborts := false;
      if n.status == Active
         && (a.status != Active || a.client != n.client || Lower(a.platform) != Lower(n.platform)
             || a.external != n.external) {
        var existing := ActiveAssignment(n.client, IdentityOf(n), Some(id));
        aborts := existing.Some?;
      }
    }

    method UniqueIndexViolated(id: Id, n: Account) returns (violated: bool)
      ensures violated <==> IndexTaken(Books(), id, n)
    {
      violated := exists y :: y in accounts && y != id && accounts[y].client == n.client && SameText(accounts[y], n);
    }

    method PatchAccount(id: Id, p: Patch) returns (r: Result<Account, OwnershipError>)
      modifies this
      ensures (Books(), r) == Ownership.PatchAccount(store, old(Books()), id, p)
    {
      if id !in accounts {
        return Err(NotFound);
      }
      var a := accounts[id];
      var n := Patched(a, p);
      if n.client !in clients {
        return Err(ClientMissing);
      }
      var changed := IdentityChanged(a, p);
      if store == InMemory || changed {
        var ok := UniqueIdentityAvailable(n.client, IdentityOf(n), Some(id));
        if !ok {
          return Err(DuplicateIdentity);
        }
      }
      if changed && n.status == Active {
        var existing := ActiveAssignment(n.client, IdentityOf(n), Some(id));
        if existing.Some? {
          return Err(AssignmentConflict);
        }
      }
      if store == Table {
        var aborts := TriggerAborts(id, a, n);
        if aborts {
          return Err(AssignmentConflict);
        }
        var violated := UniqueIndexViolated(id, n);
        if violated {
          return Err(RowConflict);
        }
      }
      accounts := accounts[id := n];
      r := Ok(n);
    }

    method ArchiveAccount(id: Id) returns (found: bool)
      modifies this
      ensures found == (id in old(accounts)) && Books() == Ownership.ArchiveAccount(old(Books()), id)
    {
      found := id in accounts;
      if found {
        accounts := accounts[id := accounts[id].(status := Archived)];
      }
    }

    method CreateClient(client: Id, status: Status)
      requires client !in clients
      modifies this
      ensures Books() == Ownership.CreateClient(old(Books()), client, status)
    {
      clients := clients[client := status];
    }

    /** The restore guard: look up each own active mapping among the other active clients' ones. */
    method RestoreAvailable(client: Id) returns (ok: bool)
      ensures ok <==> !RestoreBlocked(Books(), client)
    {
      ok := true;
      var own := set x | x in accounts && accounts[x].client == client && accounts[x].status == Active;
      while own != {}
        invariant ok
        invariant forall x :: x in own ==> x in accounts && accounts[x].client == client && accounts[x].status == Active
        invariant forall x :: x in accounts && accounts[x].client == client && accounts[x].status == Active
                              && x !in own ==>
                                !ActiveElsewhere(Books(), client, IdentityOf(accounts[x]), None)
      {
        var x :| x in own;
        var existing := ActiveAssignment(client, IdentityOf(accounts[x]), None);
        if existing.Some? {
          return false;
        }
        own := own - {x};
      }
    }

    method PatchClient(client: Id, status: Status) returns (r: Result<(), OwnershipError>)
      modifies this
      ensures (Books(), r) == Ownership.PatchClient(old(Books()), client, status)
    {
      if client !in clients {
        return Err(NotFound);
      }
      if status == Active && clients[client] != Active {
        var ok := RestoreAvailable(client);
        if !ok {
          return Err(AssignmentConflict);
        }
      }
      clients := clients[client := status];
      r := Ok(());
    }

    method ArchiveClient(client: Id) returns (found: bool)
      modifies this
      ensures found == (client in old(clients)) && Books() == Ownership.ArchiveClient(old(Books()), client)
    {
      found := client in clients;
      if found {
        clients := clients[client := Archived];
      }
    }

    /** Group the counting mappings by identity and keep the groups with more than one. */
    method ActiveAssignmentConflictIds() returns (ids: set<Id>)
      ensures ids == ConflictIds(Books())
    {
      ghost var b := Books();
      var rows := set x | x in accounts && accounts[x].status == Active
                          && accounts[x].client in clients && clients[accounts[x].client] == Active;
      ghost var all := rows;
      assert forall x :: x in all <==> Counts(b, x);
      var groups: map<Ident, set<Id>> := map[];
      while rows != {}
        invariant rows <= all
        invariant forall g, x :: InGroup(groups, g, x) <==> x in all && x !in rows && IdentityOf(b.accounts[x]) == g
      {
        var x :| x in rows;
        var g := IdentityOf(accounts[x]);
        groups := AddTo(groups, g, x);
        rows := rows - {x};
      }
      ids := Shared(groups);
      assert forall g, x :: Complete(b, groups, g, x);
      GroupsShowConflicts(b, groups);
    }
  }

  predicate InGroup(groups: map<Ident, set<Id>>, g: Ident, x: Id) {
    g in groups && x in groups[g]
  }

  function AddTo(groups: map<Ident, set<Id>>, g: Ident, x: Id): (r: map<Ident, set<Id>>)
    ensures forall h, y :: InGroup(r, h, y) <==> InGroup(groups, h, y) || (h == g && y == x)
  {
    groups[g := (if g in groups then groups[g] else {}) + {x}]
  }

  function Shared(groups: map<Ident, set<Id>>): (ids: set<Id>)
    ensures forall x :: x in ids <==> exists g :: InGroup(groups, g, x) && |groups[g]| > 1
  {
    var ids := set g, x | g in groups && |groups[g]| > 1 && x in groups[g] :: x;
    assert forall g, x :: InGroup(groups, g, x) && |groups[g]| > 1 ==> x in ids;
    assert forall x :: x in ids ==> exists g :: InGroup(groups, g, x) && |groups[g]| > 1;
    ids
  }

  predicate Complete(b: Book, groups: map<Ident, set<Id>>, g: Ident, x: Id) {
    InGroup(groups, g, x) <==> Counts(b, x) && IdentityOf(b.accounts[x]) == g
  }

  /** Complete groups of the counting rows: the ones with two members hold the conflicts. */
  lemma GroupsShowConflicts(b: Book, groups: map<Ident, set<Id>>)
    requires forall g, x :: Complete(b, groups, g, x)
    ensures Shared(groups) == ConflictIds(b)
  {
    forall x
      ensures x in Shared(groups) <==> x in ConflictIds(b)
    {
      assert forall g :: InGroup(groups, g, x) ==> Complete(b, groups, g, x);
      if Counts(b, x) {
        RowShowsConflict(b, groups, x);
      }
    }
  }

  lemma RowShowsConflict(b: Book, groups: map<Ident, set<Id>>, x: Id)
    requires forall g, y :: Complete(b, groups, g, y)
    requires Counts(b, x)
    ensures x in Shared(groups) <==> x in ConflictIds(b)
  {
    var g := IdentityOf(b.accounts[x]);
    assert Complete(b, groups, g, x);
    MoreThanOne(groups[g], x);
    forall y
      ensures y in groups[g] <==> Counts(b, y) && IdentityOf(b.accounts[y]) == g
    {
      assert Complete(b, groups, g, y);
    }
    if h :| InGroup(groups, h, x) && |groups[h]| > 1 {
      assert Complete(b, groups, h, x);
    }
  }

  lemma MoreThanOne(group: set<Id>, x: Id)
    requires x in group
    ensures |group| > 1 <==> exists y :: y in group && y != x
  {
    if y :| y in group && y != x {
      var rest := group - {x, y};
      assert group == rest + {x, y};
    }
    if |group| > 1 {
      assert |group - {x}| > 0;
      var y :| y in group - {x};
    }
  }
}
