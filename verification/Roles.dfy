/** Users, their roles, and the client grants that follow from them. */
module Roles {
  import opened Wrappers

  type Id = nat

  datatype Role = Admin | Agency | Client | Solo
  datatype User = User(role: Role, active: bool)
  datatype Member = Member(owner: bool, active: bool)
  datatype Grant = AgencyGrant | ClientGrant

  datatype Seat = Seat(agency: Id, user: Id)
  datatype Binding = Binding(agency: Id, client: Id)
  datatype Access = Access(user: Id, client: Id)

  /** agencies and clients hold whether the row is active; retained is the users named by the
      immutable budget history. */
  datatype World = World(users: map<Id, User>, members: map<Seat, Member>, agencies: map<Id, bool>,
                         bindings: set<Binding>, clients: map<Id, bool>, access: map<Access, Grant>, retained: set<Id>)

  datatype Fault =
    | UserNotFound | SoloConflict | LastAdmin | LastOwner | RetentionRequired
    | UserMissing | UserInactive | AdminNeedsNone | RoleMismatch | ClientMissing | ClientInactive

  // ---------- queries ----------

  predicate ActiveAdmin(w: World, u: Id) {
    u in w.users && w.users[u] == User(Admin, true)
  }

  ghost predicate HasAdmin(w: World) {
    exists u :: ActiveAdmin(w, u)
  }

  ghost predicate OtherAdmin(w: World, u: Id) {
    exists o :: o != u && ActiveAdmin(w, o)
  }

  predicate OwnsSeat(w: World, a: Id, u: Id) {
    Seat(a, u) in w.members && w.members[Seat(a, u)] == Member(true, true)
  }

  predicate CanOwn(user: User) {
    user.active && (user.role == Agency || user.role == Admin)
  }

  predicate EffectiveOwner(w: World, a: Id, u: Id) {
    OwnsSeat(w, a, u) && u in w.users && CanOwn(w.users[u])
  }

  ghost predicate HasOwner(w: World, a: Id) {
    exists u :: EffectiveOwner(w, a, u)
  }

  ghost predicate OtherOwner(w: World, a: Id, u: Id) {
    exists o :: o != u && EffectiveOwner(w, a, o)
  }

  /** The exit guard: some agency's active owner seat is the user's and no other owner is effective. */
  ghost predicate ExitBlocked(w: World, u: Id) {
    exists a :: OwnsSeat(w, a, u) && !OtherOwner(w, a, u)
  }

  predicate SitsIn(w: World, a: Id, u: Id) {
    Seat(a, u) in w.members && w.members[Seat(a, u)].active && a in w.agencies && w.agencies[a]
  }

  ghost predicate InSomeAgency(w: World, u: Id) {
    exists a :: SitsIn(w, a, u)
  }

  function Granted(w: World, u: Id): (s: set<Id>)
    ensures forall c :: c in s <==> Access(u, c) in w.access
  {
    set k | k in w.access && k.user == u :: k.client
  }

  /** The clients of all active agencies an active agency user sits in. */
  function AgencyUnion(w: World, u: Id): (s: set<Id>)
    ensures forall c :: c in s <==>
              u in w.users && w.users[u] == User(Agency, true)
              && exists a :: SitsIn(w, a, u) && Binding(a, c) in w.bindings
  {
    if u in w.users && w.users[u] == User(Agency, true) then
      set k | k in w.bindings && SitsIn(w, k.agency, u) :: k.client
    else {}
  }

  // ---------- user steps ----------

  function CreateUser(w: World, u: Id, user: User): World {
    w.(users := w.users[u := user])
  }

  function DropGrants(access: map<Access, Grant>, u: Id): map<Access, Grant> {
    map k | k in access && k.user != u :: access[k]
  }

  function AddAgencyGrants(access: map<Access, Grant>, u: Id, clients: set<Id>): (r: map<Access, Grant>)
    ensures forall k :: k in r <==> k in access || (k.user == u && k.client in clients)
    ensures forall k :: k in r ==> r[k] == if k.user == u && k.client in clients then AgencyGrant else access[k]
  {
    access + map c | c in clients :: Access(u, c) := AgencyGrant
  }

  function Rebuilt(w: World, u: Id): World {
    w.(access := AddAgencyGrants(DropGrants(w.access, u), u, AgencyUnion(w, u)))
  }

  /** The row and its grants after a patch that is let through. */
  function Applied(w: World, u: Id, n: User): World
    requires u in w.users
  {
    var o := w.users[u];
    var v := w.(users := w.users[u := n]);
    if n.role == Agency && n != o then Rebuilt(v, u)
    else if (n.role == Admin && n != o) || (n.role != o.role && (o.role == Agency || o.role == Admin)) then
      v.(access := DropGrants(v.access, u))
    else v
  }

  /** other: the patch also names a field that is not modelled. */
  datatype UserPatch = UserPatch(role: Option<Role>, active: Option<bool>, other: bool)

  function PatchedUser(o: User, p: UserPatch): User {
    User(if p.role.Some? then p.role.value else o.role, if p.active.Some? then p.active.value else o.active)
  }

  ghost predicate SoloClash(w: World, u: Id) {
    InSomeAgency(w, u) || |Granted(w, u)| > 1
    || exists c :: Access(u, c) in w.access && w.access[Access(u, c)] != ClientGrant
  }

  ghost function PatchUser(w: World, u: Id, p: UserPatch): (World, Result<User, Fault>) {
    if u !in w.users then (w, Err(UserNotFound))
    else
      var o := w.users[u];
      var n := PatchedUser(o, p);
      if p == UserPatch(None, None, false) then (w, Ok(o))
      else if n == User(Solo, true) && SoloClash(w, u) then (w, Err(SoloConflict))
      else if ActiveAdmin(w, u) && n != o && !OtherAdmin(w, u) then (w, Err(LastAdmin))
      else if CanOwn(o) && !CanOwn(n) && ExitBlocked(w, u) then (w, Err(LastOwner))
      else (Applied(w, u, n), Ok(n))
  }

  function Deleted(w: World, u: Id): World {
    w.(users := w.users - {u},
       members := map s | s in w.members && s.user != u :: w.members[s],
       access := DropGrants(w.access, u))
  }

  ghost function DeleteUser(w: World, u: Id): (World, Result<(), Fault>) {
    if u !in w.users then (w, Err(UserNotFound))
    else if ActiveAdmin(w, u) && !OtherAdmin(w, u) then (w, Err(LastAdmin))
    else if CanOwn(w.users[u]) && ExitBlocked(w, u) then (w, Err(LastOwner))
    else if u in w.retained then (w, Err(RetentionRequired))
    else (Deleted(w, u), Ok(()))
  }

  // ---------- grant steps ----------

  ghost function AssignClientAccess(w: World, u: Id, c: Id, grant: Grant): (World, Result<(), Fault>) {
    if u !in w.users then (w, Err(UserMissing))
    else
      var user := w.users[u];
      if !user.active then (w, Err(UserInactive))
      else if user.role == Admin then (w, Err(AdminNeedsNone))
      else if grant != (if user.role == Agency then AgencyGrant else ClientGrant) then (w, Err(RoleMismatch))
      else if c !in w.clients then (w, Err(ClientMissing))
      else if user.role == Solo && !w.clients[c] then (w, Err(ClientInactive))
      else if user.role == Solo && (Granted(w, u) - {c} != {} || InSomeAgency(w, u)) then (w, Err(SoloConflict))
      else (w.(access := w.access[Access(u, c) := grant]), Ok(()))
  }

  function RemoveClientAccess(w: World, u: Id, c: Id): World {
    w.(access := w.access - {Access(u, c)})
  }

  // ---------- the grant invariant ----------

  predicate GrantFits(user: User, grant: Grant) {
    match user.role
    case Admin => false
    case Agency => user.active && grant == AgencyGrant
    case _ => grant == ClientGrant
  }

  predicate GrantOk(w: World, u: Id, c: Id) {
    Access(u, c) in w.access ==> u in w.users && GrantFits(w.users[u], w.access[Access(u, c)])
  }

  predicate SoloOk(w: World, u: Id, c: Id, d: Id) {
    Access(u, c) in w.access && Access(u, d) in w.access && u in w.users && w.users[u] == User(Solo, true) ==> c == d
  }

  ghost predicate GrantsOk(w: World) {
    && (forall u, c :: GrantOk(w, u, c))
    && (forall u, c, d :: SoloOk(w, u, c, d))
  }

  lemma AtMostOne(s: set<Id>, c: Id, d: Id)
    requires |s| <= 1 && c in s && d in s
    ensures c == d
  {
    assert |s - {c}| == |s| - 1;
    assert d !in s - {c};
  }

  lemma AppliedGrant(w: World, u: Id, n: User, x: Id, c: Id)
    requires u in w.users && GrantOk(w, x, c)
    ensures GrantOk(Applied(w, u, n), x, c)
  {
  }

  lemma AppliedSolo(w: World, u: Id, n: User, x: Id, c: Id, d: Id)
    requires u in w.users && SoloOk(w, x, c, d)
    requires n == User(Solo, true) ==> |Granted(w, u)| <= 1
    ensures SoloOk(Applied(w, u, n), x, c, d)
  {
    if x == u && n == User(Solo, true) && c in Granted(w, u) && d in Granted(w, u) {
      AtMostOne(Granted(w, u), c, d);
    }
  }

  lemma PatchKeepsGrants(w: World, u: Id, p: UserPatch)
    requires GrantsOk(w)
    ensures GrantsOk(PatchUser(w, u, p).0)
  {
    var v := PatchUser(w, u, p).0;
    if v != w {
      var n := PatchedUser(w.users[u], p);
      forall x, c
        ensures GrantOk(v, x, c)
      {
        AppliedGrant(w, u, n, x, c);
      }
      forall x, c, d
        ensures SoloOk(v, x, c, d)
      {
        assert SoloOk(w, x, c, d);
        AppliedSolo(w, u, n, x, c, d);
      }
    }
  }

  lemma DeleteKeepsGrants(w: World, u: Id)
    requires GrantsOk(w)
    ensures GrantsOk(DeleteUser(w, u).0)
  {
    var v := DeleteUser(w, u).0;
    forall x, c
      ensures GrantOk(v, x, c)
    {
      assert GrantOk(w, x, c);
    }
    forall x, c, d
      ensures SoloOk(v, x, c, d)
    {
      assert SoloOk(w, x, c, d);
    }
  }

  lemma AssignKeepsGrants(w: World, u: Id, c: Id, grant: Grant)
    requires GrantsOk(w)
    ensures GrantsOk(AssignClientAccess(w, u, c, grant).0)
  {
    var v := AssignClientAccess(w, u, c, grant).0;
    forall x, b
      ensures GrantOk(v, x, b)
    {
      assert GrantOk(w, x, b);
    }
    forall x, b, d
      ensures SoloOk(v, x, b, d)
    {
      assert SoloOk(w, x, b, d);
      if v != w && x == u && w.users[u].role == Solo {
        assert b in Granted(w, u) ==> b == c || b in Granted(w, u) - {c};
        assert d in Granted(w, u) ==> d == c || d in Granted(w, u) - {c};
      }
    }
  }

  lemma RemoveKeepsGrants(w: World, u: Id, c: Id)
    requires GrantsOk(w)
    ensures GrantsOk(RemoveClientAccess(w, u, c))
  {
    var v := RemoveClientAccess(w, u, c);
    forall x, b
      ensures GrantOk(v, x, b)
    {
      assert GrantOk(w, x, b);
    }
    forall x, b, d
      ensures SoloOk(v, x, b, d)
    {
      assert SoloOk(w, x, b, d);
    }
  }

  /** A patch that changes the role or the status never turns old rows into stronger access: an
      agency user has exactly the union of its active agencies afterwards, an admin and whoever
      leaves the agency or admin role has nothing, direct grants survive otherwise, and no other
      user's grants change. */
  lemma ChangedUserGrants(w: World, u: Id, p: UserPatch, x: Id)
    requires u in w.users && PatchUser(w, u, p).1.Ok? && PatchedUser(w.users[u], p) != w.users[u]
    ensures var o := w.users[u]; var n := PatchedUser(o, p); var v := PatchUser(w, u, p).0;
            && v.users == w.users[u := n]
            && Granted(v, u) == (if n.role == Agency then AgencyUnion(v, u)
                                 else if n.role == Admin || (n.role != o.role && o.role in {Agency, Admin}) then {}
                                 else Granted(w, u))
            && (x != u ==> Granted(v, x) == Granted(w, x))
  {
    var n := PatchedUser(w.users[u], p);
    OthersKeepGrants(w, u, n, x);
    if n.role == Agency {
      RebuiltIsUnion(w.(users := w.users[u := n]), u);
    } else {
      NoRebuild(w, u, n);
    }
  }

  lemma OthersKeepGrants(w: World, u: Id, n: User, x: Id)
    requires u in w.users
    ensures x != u ==> Granted(Applied(w, u, n), x) == Granted(w, x)
  {
  }

  lemma RebuiltIsUnion(w: World, u: Id)
    ensures Granted(Rebuilt(w, u), u) == AgencyUnion(w, u) == AgencyUnion(Rebuilt(w, u), u)
  {
  }

  lemma NoRebuild(w: World, u: Id, n: User)
    requires u in w.users && n.role != Agency && n != w.users[u]
    ensures var o := w.users[u];
            Granted(Applied(w, u, n), u)
            == if n.role == Admin || (n.role != o.role && o.role in {Agency, Admin}) then {} else Granted(w, u)
  {
  }

  // ---------- the last admin and the last owner ----------

  lemma AdminsAfter(w: World, u: Id, n: User)
    requires u in w.users
    ensures HasAdmin(Applied(w, u, n)) <==> OtherAdmin(w, u) || n == User(Admin, true)
  {
    var v := Applied(w, u, n);
    if OtherAdmin(w, u) {
      var o :| o != u && ActiveAdmin(w, o);
      assert ActiveAdmin(v, o);
    }
    if n == User(Admin, true) {
      assert ActiveAdmin(v, u);
    }
    if o :| ActiveAdmin(v, o) {
      assert o != u ==> ActiveAdmin(w, o);
    }
  }

  lemma OwnersAfter(w: World, u: Id, n: User, a: Id)
    requires u in w.users
    ensures HasOwner(Applied(w, u, n), a) <==> OtherOwner(w, a, u) || (OwnsSeat(w, a, u) && CanOwn(n))
  {
    var v := Applied(w, u, n);
    if OtherOwner(w, a, u) {
      var o :| o != u && EffectiveOwner(w, a, o);
      assert EffectiveOwner(v, a, o);
    }
    if OwnsSeat(w, a, u) && CanOwn(n) {
      assert EffectiveOwner(v, a, u);
    }
    if o :| EffectiveOwner(v, a, o) {
      assert o != u ==> EffectiveOwner(w, a, o);
    }
  }

  ghost predicate LosesAdmin(w: World, v: World) {
    HasAdmin(w) && !HasAdmin(v)
  }

  ghost predicate Orphans(w: World, v: World, a: Id) {
    HasOwner(w, a) && !HasOwner(v, a)
  }

  /** A patch is refused for the last admin, or for an agency's last effective owner, exactly when
      letting it through would leave the platform, or some agency, without one. */
  lemma PatchRefusedIff(w: World, u: Id, p: UserPatch)
    requires u in w.users && PatchUser(w, u, p).1 != Err(SoloConflict)
    ensures var v := Applied(w, u, PatchedUser(w.users[u], p)); var r := PatchUser(w, u, p).1;
            && (r == Err(LastAdmin) <==> LosesAdmin(w, v))
            && (r == Err(LastOwner) <==> !LosesAdmin(w, v) && exists a :: Orphans(w, v, a))
  {
    var o := w.users[u];
    var n := PatchedUser(o, p);
    var v := Applied(w, u, n);
    AdminsAfter(w, u, o);
    AdminsAfter(w, u, n);
    assert HasAdmin(w) <==> HasAdmin(Applied(w, u, o)) by {
      assert w.users[u := o] == w.users;
    }
    forall a
      ensures Orphans(w, v, a) <==> OwnsSeat(w, a, u) && CanOwn(o) && !CanOwn(n) && !OtherOwner(w, a, u)
    {
      OrphansIff(w, u, n, a);
    }
    if ExitBlocked(w, u) && CanOwn(o) && !CanOwn(n) {
      var a :| OwnsSeat(w, a, u) && !OtherOwner(w, a, u);
      assert Orphans(w, v, a);
    }
  }

  lemma OrphansIff(w: World, u: Id, n: User, a: Id)
    requires u in w.users
    ensures Orphans(w, Applied(w, u, n), a) <==>
              OwnsSeat(w, a, u) && CanOwn(w.users[u]) && !CanOwn(n) && !OtherOwner(w, a, u)
  {
    OwnersAfter(w, u, n, a);
    OwnersNow(w, u, a);
  }

  lemma OwnersNow(w: World, u: Id, a: Id)
    requires u in w.users
    ensures HasOwner(w, a) <==> OtherOwner(w, a, u) || (OwnsSeat(w, a, u) && CanOwn(w.users[u]))
  {
    if OwnsSeat(w, a, u) && CanOwn(w.users[u]) {
      assert EffectiveOwner(w, a, u);
    }
    if o :| EffectiveOwner(w, a, o) {
      assert o == u || OtherOwner(w, a, u);
    }
  }

  lemma OwnersAfterDelete(w: World, u: Id, a: Id)
    ensures HasOwner(Deleted(w, u), a) <==> OtherOwner(w, a, u)
    ensures HasAdmin(Deleted(w, u)) <==> OtherAdmin(w, u)
  {
    var v := Deleted(w, u);
    forall o
      ensures EffectiveOwner(v, a, o) <==> o != u && EffectiveOwner(w, a, o)
      ensures ActiveAdmin(v, o) <==> o != u && ActiveAdmin(w, o)
    {
    }
  }

  /** The same for a deletion, which the budget history can refuse as well. */
  lemma DeleteRefusedIff(w: World, u: Id)
    requires u in w.users
    ensures var v := Deleted(w, u); var r := DeleteUser(w, u).1;
            && (r == Err(LastAdmin) <==> LosesAdmin(w, v))
            && (r == Err(LastOwner) <==> !LosesAdmin(w, v) && exists a :: Orphans(w, v, a))
            && (r == Err(RetentionRequired) <==>
                  !LosesAdmin(w, v) && (forall a :: !Orphans(w, v, a)) && u in w.retained)
  {
    var v := Deleted(w, u);
    forall a
      ensures Orphans(w, v, a) <==> OwnsSeat(w, a, u) && CanOwn(w.users[u]) && !OtherOwner(w, a, u)
      ensures HasAdmin(v) <==> OtherAdmin(w, u)
    {
      OwnersAfterDelete(w, u, a);
      OwnersNow(w, u, a);
    }
    assert Orphans(w, v, 0) ==> OwnsSeat(w, 0, u);
    AdminsNow(w, u);
    if ExitBlocked(w, u) && CanOwn(w.users[u]) {
      var a :| OwnsSeat(w, a, u) && !OtherOwner(w, a, u);
      assert Orphans(w, v, a);
    }
  }

  lemma AdminsNow(w: World, u: Id)
    ensures HasAdmin(w) <==> OtherAdmin(w, u) || ActiveAdmin(w, u)
  {
    if o :| ActiveAdmin(w, o) {
      assert o == u || OtherAdmin(w, u);
    }
  }

  // ---------- runs ----------

  /** Membership stands for every change made elsewhere to agencies, members, bindings and clients. */
  datatype Call =
    | Create(u: Id, user: User)
    | Change(u: Id, patch: UserPatch)
    | Remove(u: Id)
    | Assign(u: Id, c: Id, grant: Grant)
    | Unassign(u: Id, c: Id)
    | Membership(next: World)

  /** Users stay, and a new or changed grant is an agency grant of an active agency user. */
  ghost predicate MembershipChange(w: World, v: World) {
    && v.users == w.users
    && (forall k :: k in v.access ==>
          || (k in w.access && v.access[k] == w.access[k])
          || (k.user in w.users && w.users[k.user] == User(Agency, true) && v.access[k] == AgencyGrant))
  }

  ghost function Next(w: World, c: Call): World {
    match c
    case Create(u, user) => if u in w.users then w else CreateUser(w, u, user)
    case Change(u, patch) => PatchUser(w, u, patch).0
    case Remove(u) => DeleteUser(w, u).0
    case Assign(u, c, grant) => AssignClientAccess(w, u, c, grant).0
    case Unassign(u, c) => RemoveClientAccess(w, u, c)
    case Membership(next) => if MembershipChange(w, next) then next else w
  }

  ghost function Run(w: World, calls: seq<Call>): World {
    if calls == [] then w else Next(Run(w, calls[..|calls| - 1]), calls[|calls| - 1])
  }

  lemma MembershipKeepsGrants(w: World, v: World)
    requires GrantsOk(w) && MembershipChange(w, v)
    ensures GrantsOk(v)
  {
    forall u, c
      ensures GrantOk(v, u, c)
    {
      assert GrantOk(w, u, c);
    }
    forall u, c, d
      ensures SoloOk(v, u, c, d)
    {
      assert SoloOk(w, u, c, d);
    }
  }

  lemma CreateKeepsGrants(w: World, u: Id, user: User)
    requires GrantsOk(w) && u !in w.users
    ensures GrantsOk(CreateUser(w, u, user))
  {
    var v := CreateUser(w, u, user);
    forall x, c
      ensures GrantOk(v, x, c)
    {
      assert GrantOk(w, x, c);
    }
    forall x, c, d
      ensures SoloOk(v, x, c, d)
    {
      assert SoloOk(w, x, c, d) && GrantOk(w, x, c);
    }
  }

  lemma StepKeepsGrants(w: World, c: Call)
    requires GrantsOk(w)
    ensures GrantsOk(Next(w, c))
  {
    match c
    case Create(u, user) => if u !in w.users { CreateKeepsGrants(w, u, user); }
    case Change(u, patch) => PatchKeepsGrants(w, u, patch);
    case Remove(u) => DeleteKeepsGrants(w, u);
    case Assign(u, client, grant) => AssignKeepsGrants(w, u, client, grant);
    case Unassign(u, client) => RemoveKeepsGrants(w, u, client);
    case Membership(next) => if MembershipChange(w, next) { MembershipKeepsGrants(w, next); }
  }

  /** A user step takes away neither the last admin nor the last effective owner of any agency. */
  lemma StepKeepsLast(w: World, c: Call)
    ensures HasAdmin(w) ==> HasAdmin(Next(w, c))
    ensures !c.Membership? ==> forall a :: HasOwner(w, a) ==> HasOwner(Next(w, c), a)
  {
    match c
    case Change(u, patch) =>
      if u in w.users && PatchUser(w, u, patch).1.Ok? {
        PatchRefusedIff(w, u, patch);
        EmptyPatch(w, u, patch);
        forall a
          ensures HasOwner(w, a) ==> HasOwner(Next(w, c), a)
        {
          assert !Orphans(w, Applied(w, u, PatchedUser(w.users[u], patch)), a);
        }
      }
    case Remove(u) =>
      if u in w.users && DeleteUser(w, u).1.Ok? {
        DeleteRefusedIff(w, u);
        forall a
          ensures HasOwner(w, a) ==> HasOwner(Next(w, c), a)
        {
          assert !Orphans(w, Deleted(w, u), a);
        }
      }
    case _ =>
      StaysPut(w, c);
  }

  lemma EmptyPatch(w: World, u: Id, p: UserPatch)
    requires u in w.users && PatchUser(w, u, p).1.Ok?
    ensures PatchUser(w, u, p).0 == Applied(w, u, PatchedUser(w.users[u], p))
  {
    assert w.users[u := w.users[u]] == w.users;
  }

  lemma StaysPut(w: World, c: Call)
    requires !c.Change? && !c.Remove?
    ensures HasAdmin(w) ==> HasAdmin(Next(w, c))
    ensures !c.Membership? ==> forall a :: HasOwner(w, a) ==> HasOwner(Next(w, c), a)
  {
    var v := Next(w, c);
    assert forall u :: ActiveAdmin(w, u) ==> ActiveAdmin(v, u);
    if !c.Membership? {
      assert forall a, u :: EffectiveOwner(w, a, u) ==> EffectiveOwner(v, a, u);
    }
  }

  /** Over whole runs: grants always fit their user's role, and once there is an active admin there
      always is one; without membership changes every agency with an effective owner keeps one. */
  lemma {:induction false} RolesOverRuns(w: World, calls: seq<Call>, a: Id)
    requires GrantsOk(w)
    ensures GrantsOk(Run(w, calls))
    ensures HasAdmin(w) ==> HasAdmin(Run(w, calls))
    ensures HasOwner(w, a) && (forall i :: 0 <= i < |calls| ==> !calls[i].Membership?) ==> HasOwner(Run(w, calls), a)
  {
    if calls != [] {
      var rest := calls[..|calls| - 1];
      RolesOverRuns(w, rest, a);
      StepKeepsGrants(Run(w, rest), calls[|calls| - 1]);
      StepKeepsLast(Run(w, rest), calls[|calls| - 1]);
    }
  }

  /** What the invariant means for one user. */
  lemma GrantsByRole(w: World, u: Id)
    requires GrantsOk(w) && u in w.users
    ensures w.users[u].role == Admin || w.users[u] == User(Agency, false) ==> Granted(w, u) == {}
    ensures w.users[u] == User(Solo, true) ==> |Granted(w, u)| <= 1
    ensures forall c :: c in Granted(w, u) ==> (w.access[Access(u, c)] == AgencyGrant <==> w.users[u].role == Agency)
  {
    forall c | c in Granted(w, u)
      ensures GrantFits(w.users[u], w.access[Access(u, c)])
    {
      assert GrantOk(w, u, c);
    }
    if w.users[u] == User(Solo, true) && Granted(w, u) != {} {
      var c :| c in Granted(w, u);
      forall d | d in Granted(w, u)
        ensures d == c
      {
        assert SoloOk(w, u, c, d);
      }
      assert Granted(w, u) == {c};
    }
  }

  // ---------- single grants ----------

  /** A grant is given exactly to an active user of whom it is the right kind, for an existing client,
      and to an owner of one client only for an active one, as the only one, outside of agencies. Then
      it is there, and no other grant has changed. */
  lemma AssignedIff(w: World, u: Id, c: Id, grant: Grant)
    requires GrantsOk(w)
    ensures var (v, r) := AssignClientAccess(w, u, c, grant);
            && (r.Ok? <==>
                  && u in w.users && w.users[u].active && GrantFits(w.users[u], grant) && c in w.clients
                  && (w.users[u].role == Solo ==>
                        w.clients[c] && !InSomeAgency(w, u) && forall d :: Access(u, d) in w.access ==> d == c))
            && (if r.Ok? then Access(u, c) in v.access && v.access[Access(u, c)] == grant else v == w)
            && (forall k :: k != Access(u, c) ==>
                  (k in v.access <==> k in w.access) && (k in w.access ==> v.access[k] == w.access[k]))
  {
    assert forall d :: d in Granted(w, u) - {c} <==> Access(u, d) in w.access && d != c;
  }

  /** A removed grant is gone, and no other one. */
  lemma RemovedIsGone(w: World, u: Id, c: Id)
    ensures var v := RemoveClientAccess(w, u, c);
            && c !in Granted(v, u) && Granted(v, u) == Granted(w, u) - {c} && v.users == w.users
            && (forall k :: k != Access(u, c) ==>
                  (k in v.access <==> k in w.access) && (k in w.access ==> v.access[k] == w.access[k]))
  {
  }

  /** A deleted user is gone with all its seats and grants, and nobody else's. */
  lemma DeletedIsGone(w: World, u: Id, x: Id, a: Id)
    requires DeleteUser(w, u).1.Ok?
    ensures var v := DeleteUser(w, u).0;
            && u !in v.users && Granted(v, u) == {} && Seat(a, u) !in v.members
            && (x != u ==>
                  && (x in v.users <==> x in w.users) && (x in w.users ==> v.users[x] == w.users[x])
                  && Granted(v, x) == Granted(w, x)
                  && (Seat(a, x) in v.members <==> Seat(a, x) in w.members)
                  && (Seat(a, x) in w.members ==> v.members[Seat(a, x)] == w.members[Seat(a, x)]))
  {
  }

  /** A patch that goes through sets the role and the status it names and keeps the others. */
  lemma PatchSets(w: World, u: Id, p: UserPatch, x: Id)
    requires PatchUser(w, u, p).1.Ok?
    ensures var (v, r) := PatchUser(w, u, p);
            && u in w.users && u in v.users && r.value == v.users[u]
            && v.users[u].role == (if p.role.Some? then p.role.value else w.users[u].role)
            && v.users[u].active == (if p.active.Some? then p.active.value else w.users[u].active)
            && (x != u ==> (x in v.users <==> x in w.users) && (x in w.users ==> v.users[x] == w.users[x]))
  {
  }

  /** A patch is refused for a would-be owner of one client exactly when the user sits in an active agency,
      has more than one grant, or one that is not a client's. */
  lemma SoloRefusedIff(w: World, u: Id, p: UserPatch)
    requires u in w.users && p != UserPatch(None, None, false)
    ensures PatchUser(w, u, p).1 == Err(SoloConflict) <==>
              && PatchedUser(w.users[u], p) == User(Solo, true)
              && (InSomeAgency(w, u) || |Granted(w, u)| > 1
                  || exists c :: Access(u, c) in w.access && w.access[Access(u, c)] != ClientGrant)
  {
  }
}
