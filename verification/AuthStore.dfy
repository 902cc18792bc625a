/** The user store: each method is one write transaction, proved to make the step of Roles. */
module AuthStore {
  import opened Wrappers
  import opened Roles

  class SqliteAuthStore {
    var users: map<Id, User>
    var members: map<Seat, Member>
    var agencies: map<Id, bool>
    var bindings: set<Binding>
    var clients: map<Id, bool>
    var access: map<Access, Grant>
    var retained: set<Id>

    ghost function State(): World
      reads this
    {
      World(users, members, agencies, bindings, clients, access, retained)
    }

    constructor ()
      ensures State() == World(map[], map[], map[], {}, map[], map[], {})
    {
      users, members, agencies, bindings, clients, access, retained := map[], map[], map[], {}, map[], map[], {};
    }

    method CreateUser(u: Id, user: User)
      requires u !in users
      modifies this
      ensures State() == Roles.CreateUser(old(State()), u, user)
    {
      users := users[u := user];
    }

    method HasOtherAdmin(u: Id) returns (found: bool)
      ensures found <==> OtherAdmin(State(), u)
    {
      found := exists o :: o in users && o != u && users[o] == User(Admin, true);
      if found {
        var o :| o in users && o != u && users[o] == User(Admin, true);
        assert ActiveAdmin(State(), o);
      } else {
        assert forall o :: ActiveAdmin(State(), o) ==> o == u;
      }
    }

    /** Look at each agency whose active owner the user is, and search its other seats. */
    method AgencyOwnerExitAllowed(u: Id) returns (ok: bool)
      ensures ok <==> !ExitBlocked(State(), u)
    {
      ghost var w := State();
      ok := true;
      var seats := set s | s in members && s.user == u && members[s] == Member(true, true);
      while seats != {}
        invariant ok
        invariant forall s :: s in seats ==> OwnsSeat(w, s.agency, u) && s.user == u
        invariant forall a :: OwnsSeat(w, a, u) && Seat(a, u) !in seats ==> OtherOwner(w, a, u)
      {
        var s :| s in seats;
        var other := HasOtherOwner(s.agency, u);
        if !other {
          assert OwnsSeat(w, s.agency, u);
          return false;
        }
        seats := seats - {s};
      }
    }

    method HasOtherOwner(a: Id, u: Id) returns (found: bool)
      ensures found <==> OtherOwner(State(), a, u)
    {
      found := false;
      var seats := members.Keys;
      while seats != {}
        invariant seats <= members.Keys && !found
        invariant forall o :: o != u && EffectiveOwner(State(), a, o) ==> Seat(a, o) in seats
      {
        var s :| s in seats;
        if s.agency == a && s.user != u && members[s] == Member(true, true) && s.user in users
          && CanOwn(users[s.user]) {
          assert s == Seat(a, s.user);
          assert EffectiveOwner(State(), a, s.user);
          return true;
        }
        seats := seats - {s};
      }
    }

    method SitsInAgency(u: Id) returns (found: bool)
      ensures found <==> InSomeAgency(State(), u)
    {
      found := exists s ::
        s in members && s.user == u && members[s].active && s.agency in agencies && agencies[s.agency];
      if found {
        var s :| s in members && s.user == u && members[s].active && s.agency in agencies && agencies[s.agency];
        assert s == Seat(s.agency, u);
        assert SitsIn(State(), s.agency, u);
      } else {
        assert forall a :: !SitsIn(State(), a, u);
      }
    }

    /** The join over seats, agencies, users and bindings, binding by binding. */
    method ClientsOfActiveAgencies(u: Id) returns (rows: set<Id>)
      ensures rows == AgencyUnion(State(), u)
    {
      rows := {};
      if u !in users || users[u] != User(Agency, true) {
        return;
      }
      ghost var w := State();
      var left := bindings;
      while left != {}
        invariant left <= bindings
        invariant forall c :: c in rows <==> JoinedIn(w, u, bindings - left, c)
      {
        var b :| b in left;
        JoinOne(w, u, bindings - left, b);
        if Seat(b.agency, u) in members && members[Seat(b.agency, u)].active
           && b.agency in agencies && agencies[b.agency] {
          rows := rows + {b.client};
        }
        assert bindings - (left - {b}) == (bindings - left) + {b};
        left := left - {b};
      }
      assert bindings - left == bindings;
      JoinIsUnion(w, u, rows);
    }

    /** Replace a user's grants with the union over the active agencies. */
    method RebuildActiveAgencyAccess(u: Id)
      modifies this`access
      ensures State() == Rebuilt(old(State()), u)
    {
      var rows := ClientsOfActiveAgencies(u);
      access := DropGrants(access, u);
      InsertAgencyRows(u, rows);
    }

    method InsertAgencyRows(u: Id, rows: set<Id>)
      modifies this`access
      ensures access == AddAgencyGrants(old(access), u, rows)
    {
      var left := rows;
      while left != {}
        invariant left <= rows
        invariant access == AddAgencyGrants(old(access), u, rows - left)
      {
        var c :| c in left;
        GrantOneMore(old(access), u, rows - left, c);
        access := access[Access(u, c) := AgencyGrant];
        assert rows - (left - {c}) == (rows - left) + {c};
        left := left - {c};
      }
      assert rows - left == rows;
    }

    method PatchUser(u: Id, p: UserPatch) returns (r: Result<User, Fault>)
      modifies this
      ensures (State(), r) == Roles.PatchUser(old(State()), u, p)
    {
      if u !in users {
        return Err(UserNotFound);
      }
      var o := users[u];
      if p == UserPatch(None, None, false) {
        return Ok(o);
      }
      var n := PatchedUser(o, p);
      if n == User(Solo, true) {
        var clash := SoloConflicts(u);
        if clash {
          return Err(SoloConflict);
        }
      }
      if o == User(Admin, true) && n != o {
        var other := HasOtherAdmin(u);
        if !other {
          return Err(LastAdmin);
        }
      }
      if CanOwn(o) && !CanOwn(n) {
        var allowed := AgencyOwnerExitAllowed(u);
        if !allowed {
          return Err(LastOwner);
        }
      }
      Apply(u, n);
      r := Ok(n);
    }

    /** The row first, then the grants the transition leaves. */
    method Apply(u: Id, n: User)
      requires u in users
      modifies this
      ensures State() == Applied(old(State()), u, n)
    {
      var o := users[u];
      users := users[u := n];
      if n.role == Agency && n != o {
        RebuildActiveAgencyAccess(u);
      } else if n.role == Admin && n != o {
        access := DropGrants(access, u);
      } else if n.role != o.role && (o.role == Agency || o.role == Admin) {
        access := DropGrants(access, u);
      }
    }

    method SoloConflicts(u: Id) returns (clash: bool)
      ensures clash <==> SoloClash(State(), u)
    {
      var sits := SitsInAgency(u);
      var rows := Granted(World(users, members, agencies, bindings, clients, access, retained), u);
      clash := sits || |rows| > 1 || exists c :: c in rows && access[Access(u, c)] != ClientGrant;
    }

    method DeleteUser(u: Id) returns (r: Result<(), Fault>)
      modifies this
      ensures (State(), r) == Roles.DeleteUser(old(State()), u)
    {
      if u !in users {
        return Err(UserNotFound);
      }
      if users[u] == User(Admin, true) {
        var other := HasOtherAdmin(u);
        if !other {
          return Err(LastAdmin);
        }
      }
      if CanOwn(users[u]) {
        var allowed := AgencyOwnerExitAllowed(u);
        if !allowed {
          return Err(LastOwner);
        }
      }
      if u in retained {
        return Err(RetentionRequired);
      }
      members := map s | s in members && s.user != u :: members[s];
      access := DropGrants(access, u);
      users := users - {u};
      r := Ok(());
    }

    method AssignClientAccess(u: Id, c: Id, grant: Grant) returns (r: Result<(), Fault>)
      modifies this
      ensures (State(), r) == Roles.AssignClientAccess(old(State()), u, c, grant)
    {
      if u !in users {
        return Err(UserMissing);
      }
      var user := users[u];
      if !user.active {
        return Err(UserInactive);
      }
      if user.role == Admin {
        return Err(AdminNeedsNone);
      }
      if grant != (if user.role == Agency then AgencyGrant else ClientGrant) {
        return Err(RoleMismatch);
      }
      if c !in clients {
        return Err(ClientMissing);
      }
      if user.role == Solo {
        if !clients[c] {
          return Err(ClientInactive);
        }
        var other := Granted(World(users, members, agencies, bindings, clients, access, retained), u) - {c};
        var sits := SitsInAgency(u);
        if other != {} || sits {
          return Err(SoloConflict);
        }
      }
      access := access[Access(u, c) := grant];
      r := Ok(());
    }

    method RemoveClientAccess(u: Id, c: Id)
      modifies this
      ensures State() == Roles.RemoveClientAccess(old(State()), u, c)
    {
      access := access - {Access(u, c)};
    }
  }

  ghost predicate JoinedIn(w: World, u: Id, some: set<Binding>, c: Id) {
    exists a :: SitsIn(w, a, u) && Binding(a, c) in some
  }

  lemma JoinOne(w: World, u: Id, some: set<Binding>, b: Binding)
    ensures forall c :: JoinedIn(w, u, some + {b}, c) <==>
                          JoinedIn(w, u, some, c) || (c == b.client && SitsIn(w, b.agency, u))
  {
    forall c
      ensures JoinedIn(w, u, some + {b}, c) <==> JoinedIn(w, u, some, c) || (c == b.client && SitsIn(w, b.agency, u))
    {
      if JoinedIn(w, u, some, c) {
        var a :| SitsIn(w, a, u) && Binding(a, c) in some;
        assert Binding(a, c) in some + {b};
      }
      if c == b.client && SitsIn(w, b.agency, u) {
        assert Binding(b.agency, c) in some + {b};
      }
    }
  }

  lemma JoinIsUnion(w: World, u: Id, rows: set<Id>)
    requires u in w.users && w.users[u] == User(Agency, true)
    requires forall c :: c in rows <==> JoinedIn(w, u, w.bindings, c)
    ensures rows == AgencyUnion(w, u)
  {
  }

  lemma GrantOneMore(kept: map<Access, Grant>, u: Id, clients: set<Id>, c: Id)
    ensures AddAgencyGrants(kept, u, clients)[Access(u, c) := AgencyGrant] == AddAgencyGrants(kept, u, clients + {c})
  {
    var a, b := AddAgencyGrants(kept, u, clients)[Access(u, c) := AgencyGrant], AddAgencyGrants(kept, u, clients + {c});
    assert forall k :: k in a <==> k in b;
  }
}
