/** Who owns an advertising account: clients, account mappings, and the checks that keep one
    provider account from being active for two active clients. */
module Ownership {
  import opened Wrappers
  import opened Texts

  type Id = nat

  datatype Status = Active | Inactive | Archived

  // ---------- canonical identity ----------

  function NormalizePlatform(value: string): (p: string)
    ensures IsStripped(p)
  {
    var platform := Lower(Strip(value));
    LowerTwice(Strip(value));
    if platform == "facebook" then "meta" else platform
  }

  predicate HasActPrefix(s: string) {
    |s| >= 4 && Lower(s[..4]) == "act_"
  }

  predicate IsDigit(c: char) {
    '0' <= c <= '9'
  }

  function Digits(s: string): (r: string)
    ensures forall c :: c in r ==> IsDigit(c)
    ensures (forall c :: c in s ==> IsDigit(c)) ==> r == s
  {
    if s == "" then ""
    else if IsDigit(s[0]) then [s[0]] + Digits(s[1..])
    else Digits(s[1..])
  }

  /** The canonical id for a platform that is already normalised. */
  function Canonical(platform: string, value: string): string {
    var raw := Strip(value);
    if platform == "meta" then (if HasActPrefix(raw) then Strip(raw[4..]) else raw)
    else if platform == "google" || platform == "tiktok" then (if Digits(raw) != "" then Digits(raw) else raw)
    else raw
  }

  function CanonicalExternalId(platform: string, value: string): string {
    Canonical(NormalizePlatform(platform), value)
  }

  lemma NormalizeTwice(value: string)
    ensures NormalizePlatform(NormalizePlatform(value)) == NormalizePlatform(value)
  {
    LowerTwice(Strip(value));
    var platform := Lower(Strip(value));
    assert Strip(platform) == platform && Lower(platform) == platform;
    assert Strip("meta") == "meta" && Lower("meta") == "meta";
  }

  /** Canonicalising twice changes nothing, except for a Meta id with a second act_ inside the first. */
  lemma CanonicalTwiceIff(platform: string, value: string)
    ensures Canonical(platform, Canonical(platform, value)) == Canonical(platform, value)
            <==> !(platform == "meta" && HasActPrefix(Canonical(platform, value)))
  {
    var id := Canonical(platform, value);
    if platform != "meta" && (platform == "google" || platform == "tiktok") && Digits(Strip(value)) != "" {
      DigitsAreStripped(Digits(Strip(value)));
    }
  }

  lemma DigitsAreStripped(s: string)
    requires forall c :: c in s ==> IsDigit(c)
    ensures IsStripped(s)
  {
    if s != "" {
      assert s[0] in s && s[|s| - 1] in s;
    }
  }

  // ---------- the two tables ----------

  datatype Account = Account(client: Id, platform: string, external: string, status: Status)
  datatype Book = Book(clients: map<Id, Status>, accounts: map<Id, Account>)

  function Identity(platform: string, external: string): (string, string) {
    (NormalizePlatform(platform), CanonicalExternalId(platform, external))
  }

  function IdentityOf(a: Account): (string, string) {
    Identity(a.platform, a.external)
  }

  predicate ClientActive(b: Book, client: Id) {
    client in b.clients && b.clients[client] == Active
  }

  /** The mapping is active and so is its client. */
  predicate Counts(b: Book, x: Id) {
    x in b.accounts && b.accounts[x].status == Active && ClientActive(b, b.accounts[x].client)
  }

  /** The accounts whose provider identity is ambiguous. */
  function ConflictIds(b: Book): set<Id> {
    set x | x in b.accounts && Counts(b, x)
            && exists y :: y in b.accounts && y != x && Counts(b, y)
                && IdentityOf(b.accounts[x]) == IdentityOf(b.accounts[y])
  }

  datatype OwnershipError = NotFound | ClientMissing | DuplicateIdentity | AssignmentConflict | RowConflict

  /** The client has another row of this identity. */
  ghost predicate ClientHas(b: Book, client: Id, identity: (string, string), exclude: Option<Id>) {
    exists y :: y in b.accounts && exclude != Some(y) && b.accounts[y].client == client
        && IdentityOf(b.accounts[y]) == identity
  }

  /** Another active client has an active row of this identity. */
  ghost predicate ActiveElsewhere(b: Book, client: Id, identity: (string, string), exclude: Option<Id>) {
    exists y :: Counts(b, y) && exclude != Some(y) && b.accounts[y].client != client
        && IdentityOf(b.accounts[y]) == identity
  }

  // ---------- account steps ----------

  /** The row a creation stores, in canonical form. */
  function NewRow(client: Id, platform: string, external: string, status: Status): Account {
    Account(client, NormalizePlatform(platform), CanonicalExternalId(platform, external), status)
  }

  ghost function CreateAccount(b: Book, id: Id, a: Account): (Book, Result<Account, OwnershipError>) {
    if a.client !in b.clients then (b, Err(ClientMissing))
    else if ClientHas(b, a.client, IdentityOf(a), None) then (b, Err(DuplicateIdentity))
    else if a.status == Active && ActiveElsewhere(b, a.client, IdentityOf(a), None) then (b, Err(AssignmentConflict))
    else (b.(accounts := b.accounts[id := a]), Ok(a))
  }

  /** The fields a patch sets; a field left out is not touched. */
  datatype Patch = Patch(client: Option<Id>, platform: Option<string>, external: Option<string>, status: Option<Status>)

  function Patched(a: Account, p: Patch): Account {
    var platform := if p.platform.Some? then NormalizePlatform(p.platform.value) else a.platform;
    var external := if p.external.Some? then p.external.value else a.external;
    Account(
      if p.client.Some? then p.client.value else a.client,
      platform,
      if p.platform.Some? || p.external.Some? then CanonicalExternalId(platform, external) else external,
      if p.status.Some? then p.status.value else a.status)
  }

  /** A patched key whose given value differs from the stored one; only then are the checks made. */
  predicate IdentityChanged(a: Account, p: Patch) {
    || (p.client.Some? && p.client.value != a.client)
    || (p.platform.Some? && p.platform.value != a.platform)
    || (p.external.Some? && p.external.value != a.external)
    || (p.status.Some? && p.status.value != a.status)
  }

  /** The two stores differ in what a patch checks. */
  datatype Store = Table | InMemory

  /** The update trigger: an active row whose owner, identity columns or status change may not meet
      an active row of another active client. */
  ghost predicate TriggerFires(b: Book, id: Id, a: Account, n: Account) {
    && n.status == Active
    && (a.status != Active || a.client != n.client || Lower(a.platform) != Lower(n.platform)
        || a.external != n.external)
    && ActiveElsewhere(b, n.client, IdentityOf(n), Some(id))
  }

  /** The unique index on owner, platform and identifier, which compares the stored texts. */
  ghost predicate IndexTaken(b: Book, id: Id, n: Account) {
    exists y :: y in b.accounts && y != id && b.accounts[y].client == n.client && SameText(b.accounts[y], n)
  }

  predicate SameText(a: Account, n: Account) {
    a.platform == n.platform && a.external == n.external
  }

  ghost function PatchAccount(store: Store, b: Book, id: Id, p: Patch): (Book, Result<Account, OwnershipError>) {
    if id !in b.accounts then (b, Err(NotFound))
    else
      var a := b.accounts[id];
      var n := Patched(a, p);
      var changed := IdentityChanged(a, p);
      if n.client !in b.clients then (b, Err(ClientMissing))
      else if (store == InMemory || changed) && ClientHas(b, n.client, IdentityOf(n), Some(id)) then
        (b, Err(DuplicateIdentity))
      else if changed && n.status == Active && ActiveElsewhere(b, n.client, IdentityOf(n), Some(id)) then
        (b, Err(AssignmentConflict))
      else if store == Table && TriggerFires(b, id, a, n) then (b, Err(AssignmentConflict))
      else if store == Table && IndexTaken(b, id, n) then (b, Err(RowConflict))
      else (b.(accounts := b.accounts[id := n]), Ok(n))
  }

  function ArchiveAccount(b: Book, id: Id): Book {
    if id !in b.accounts then b else b.(accounts := b.accounts[id := b.accounts[id].(status := Archived)])
  }

  // ---------- client steps ----------

  function CreateClient(b: Book, client: Id, status: Status): Book {
    if client in b.clients then b else b.(clients := b.clients[client := status])
  }

  /** The restore guard: an own active mapping that another active client has active too. */
  ghost predicate RestoreBlocked(b: Book, client: Id) {
    exists x, y ::
      && x in b.accounts && b.accounts[x].client == client && b.accounts[x].status == Active
      && Counts(b, y) && b.accounts[y].client != client
      && IdentityOf(b.accounts[x]) == IdentityOf(b.accounts[y])
  }

  ghost function PatchClient(b: Book, client: Id, status: Status): (Book, Result<(), OwnershipError>) {
    if client !in b.clients then (b, Err(NotFound))
    else if status == Active && b.clients[client] != Active && RestoreBlocked(b, client) then
      (b, Err(AssignmentConflict))
    else (b.(clients := b.clients[client := status]), Ok(()))
  }

  function ArchiveClient(b: Book, client: Id): Book {
    if client !in b.clients then b else b.(clients := b.clients[client := Archived])
  }

  // ---------- the invariant ----------

  /** No client has two rows of one identity, and no two active clients both have it active. */
  predicate PairOk(b: Book, x: Id, y: Id) {
    x in b.accounts && y in b.accounts && x != y && IdentityOf(b.accounts[x]) == IdentityOf(b.accounts[y]) ==>
      b.accounts[x].client != b.accounts[y].client && !(Counts(b, x) && Counts(b, y))
  }

  ghost predicate Owned(b: Book) {
    && (forall x :: x in b.accounts ==> b.accounts[x].client in b.clients)
    && (forall x, y :: PairOk(b, x, y))
  }

  lemma OwnedMeansNoConflict(b: Book)
    requires Owned(b)
    ensures ConflictIds(b) == {}
  {
    forall x | Counts(b, x)
      ensures x !in ConflictIds(b)
    {
      forall y | y in b.accounts && y != x && Counts(b, y)
        ensures IdentityOf(b.accounts[x]) != IdentityOf(b.accounts[y])
      {
        assert PairOk(b, x, y);
      }
    }
  }

  /** The row shares its identity with a row it may not share it with. */
  ghost predicate Collides(b: Book, id: Id, n: Account) {
    || ClientHas(b, n.client, IdentityOf(n), Some(id))
    || (n.status == Active && ClientActive(b, n.client) && ActiveElsewhere(b, n.client, IdentityOf(n), Some(id)))
  }

  lemma NewPair(b: Book, id: Id, n: Account, y: Id)
    requires !Collides(b, id, n)
    ensures var c := b.(accounts := b.accounts[id := n]); PairOk(c, id, y) && PairOk(c, y, id)
  {
    if y in b.accounts && y != id && IdentityOf(b.accounts[y]) == IdentityOf(n) {
      assert Counts(b, y) ==> Counts(b.(accounts := b.accounts[id := n]), y);
    }
  }

  lemma OldPair(b: Book, id: Id, n: Account, x: Id, y: Id)
    requires PairOk(b, x, y) && x != id && y != id
    ensures PairOk(b.(accounts := b.accounts[id := n]), x, y)
  {
  }

  /** Storing a row keeps the invariant exactly when the row collides with nothing. */
  lemma RowKeepsIff(b: Book, id: Id, n: Account)
    requires Owned(b) && n.client in b.clients
    ensures Owned(b.(accounts := b.accounts[id := n])) <==> !Collides(b, id, n)
  {
    if Collides(b, id, n) {
      CollisionBreaks(b, id, n);
    } else {
      FreeRowKeeps(b, id, n);
    }
  }

  lemma FreeRowKeeps(b: Book, id: Id, n: Account)
    requires Owned(b) && n.client in b.clients && !Collides(b, id, n)
    ensures Owned(b.(accounts := b.accounts[id := n]))
  {
    var c := b.(accounts := b.accounts[id := n]);
    forall x, y
      ensures PairOk(c, x, y)
    {
      assert PairOk(b, x, y);
      if x == id {
        NewPair(b, id, n, y);
      } else if y == id {
        NewPair(b, id, n, x);
      } else {
        OldPair(b, id, n, x, y);
      }
    }
  }

  lemma CollisionBreaks(b: Book, id: Id, n: Account)
    requires Collides(b, id, n)
    ensures !Owned(b.(accounts := b.accounts[id := n]))
  {
    var c := b.(accounts := b.accounts[id := n]);
    var identity := IdentityOf(n);
    if ClientHas(b, n.client, identity, Some(id)) {
      var y :| y in b.accounts && Some(id) != Some(y) && b.accounts[y].client == n.client
          && IdentityOf(b.accounts[y]) == identity;
      assert !PairOk(c, id, y);
    } else {
      var y :| Counts(b, y) && Some(id) != Some(y) && b.accounts[y].client != n.client
          && IdentityOf(b.accounts[y]) == identity;
      assert Counts(c, id) && Counts(c, y);
      assert !PairOk(c, id, y);
    }
  }

  lemma NothingToExclude(b: Book, client: Id, identity: (string, string), id: Id)
    requires id !in b.accounts
    ensures ClientHas(b, client, identity, Some(id)) <==> ClientHas(b, client, identity, None)
    ensures ActiveElsewhere(b, client, identity, Some(id)) <==> ActiveElsewhere(b, client, identity, None)
  {
  }

  lemma CreateKeeps(b: Book, id: Id, a: Account)
    requires Owned(b) && id !in b.accounts
    ensures Owned(CreateAccount(b, id, a).0)
  {
    if CreateAccount(b, id, a).1.Ok? {
      NothingToExclude(b, a.client, IdentityOf(a), id);
      RowKeepsIff(b, id, a);
    }
  }

  /** The patch repeats the stored values, so nothing is checked, but it names the platform or the
      id of a Meta row that still carries act_ after canonicalisation, so the row's identity moves. */
  predicate Slips(a: Account, p: Patch) {
    && !IdentityChanged(a, p)
    && (p.platform.Some? || p.external.Some?)
    && NormalizePlatform(a.platform) == "meta"
    && HasActPrefix(CanonicalExternalId(a.platform, a.external))
  }

  /** An unchecked patch moves the identity of its row exactly when it slips. */
  lemma UncheckedIdentity(a: Account, p: Patch)
    requires !IdentityChanged(a, p)
    ensures IdentityOf(Patched(a, p)) != IdentityOf(a) <==> Slips(a, p)
    ensures Slips(a, p) ==> Patched(a, p).external != a.external
  {
    var n := Patched(a, p);
    NormalizeTwice(a.platform);
    CanonicalTwiceIff(NormalizePlatform(a.platform), a.external);
    if p.platform.Some? || p.external.Some? {
      assert n.external == CanonicalExternalId(a.platform, a.external);
      assert NormalizePlatform(n.platform) == NormalizePlatform(a.platform);
    } else {
      assert n == a;
    }
  }

  /** Where a slip ends in the table-backed store: on another row of the same client that stores a
      different text, unless another active client has the identity as well. */
  ghost predicate LandsOnOwnRow(b: Book, id: Id, n: Account) {
    && (exists y :: y in b.accounts && y != id && b.accounts[y].client == n.client
                    && IdentityOf(b.accounts[y]) == IdentityOf(n) && !SameText(b.accounts[y], n))
    && !(n.status == Active && ActiveElsewhere(b, n.client, IdentityOf(n), Some(id)))
  }

  /** Where a slip ends in the in-memory store: on an active row of another active client, unless
      the client has the identity itself. */
  ghost predicate LandsOnOthersRow(b: Book, id: Id, n: Account) {
    && n.status == Active && ClientActive(b, n.client)
    && ActiveElsewhere(b, n.client, IdentityOf(n), Some(id))
    && !ClientHas(b, n.client, IdentityOf(n), Some(id))
  }

  ghost predicate SlipLands(store: Store, b: Book, id: Id, p: Patch) {
    && id in b.accounts && Slips(b.accounts[id], p)
    && var n := Patched(b.accounts[id], p);
    if store == Table then LandsOnOwnRow(b, id, n) else LandsOnOthersRow(b, id, n)
  }

  /** A patch keeps the invariant, except exactly when it slips and nothing at the place where it
      lands refuses it. */
  lemma PatchKeepsIff(store: Store, b: Book, id: Id, p: Patch)
    requires Owned(b)
    ensures Owned(PatchAccount(store, b, id, p).0) <==> !SlipLands(store, b, id, p)
  {
    if id in b.accounts {
      if IdentityChanged(b.accounts[id], p) {
        CheckedPatchKeeps(store, b, id, p);
      } else if Slips(b.accounts[id], p) {
        SlipKeepsIff(store, b, id, p);
      } else {
        IdlePatchKeeps(store, b, id, p);
      }
    }
  }

  lemma IdlePatchKeeps(store: Store, b: Book, id: Id, p: Patch)
    requires Owned(b) && id in b.accounts && !IdentityChanged(b.accounts[id], p) && !Slips(b.accounts[id], p)
    ensures Owned(PatchAccount(store, b, id, p).0)
  {
    var (c, r) := PatchAccount(store, b, id, p);
    if r.Ok? {
      UncheckedIdentity(b.accounts[id], p);
      SameIdentityIsFree(b, id, r.value);
      RowKeepsIff(b, id, r.value);
    }
  }

  lemma SlipKeepsIff(store: Store, b: Book, id: Id, p: Patch)
    requires Owned(b) && id in b.accounts && Slips(b.accounts[id], p)
    ensures Owned(PatchAccount(store, b, id, p).0) <==> !SlipLands(store, b, id, p)
  {
    UncheckedIdentity(b.accounts[id], p);
    SlipRefused(store, b, id, p);
    StoredKeepsIff(store, b, id, p);
  }

  lemma StoredKeepsIff(store: Store, b: Book, id: Id, p: Patch)
    requires Owned(b) && id in b.accounts
    ensures Owned(PatchAccount(store, b, id, p).0) <==>
              !(PatchAccount(store, b, id, p).1.Ok? && Collides(b, id, Patched(b.accounts[id], p)))
  {
    var (c, r) := PatchAccount(store, b, id, p);
    if r.Ok? {
      RowKeepsIff(b, id, r.value);
    }
  }

  lemma CheckedPatchKeeps(store: Store, b: Book, id: Id, p: Patch)
    requires Owned(b) && id in b.accounts && IdentityChanged(b.accounts[id], p)
    ensures Owned(PatchAccount(store, b, id, p).0)
  {
    StoredKeepsIff(store, b, id, p);
  }

  /** A slip is let through onto a collision exactly where it can land. */
  lemma SlipRefused(store: Store, b: Book, id: Id, p: Patch)
    requires Owned(b) && id in b.accounts && Slips(b.accounts[id], p)
    requires Patched(b.accounts[id], p).external != b.accounts[id].external
    ensures var n := Patched(b.accounts[id], p);
            SlipLands(store, b, id, p) <==> PatchAccount(store, b, id, p).1.Ok? && Collides(b, id, n)
  {
    if store == Table {
      SlipRefusedByTable(b, id, p, Patched(b.accounts[id], p));
    } else {
      SlipRefusedInMemory(b, id, p, Patched(b.accounts[id], p));
    }
  }

  lemma SlipRefusedByTable(b: Book, id: Id, p: Patch, n: Account)
    requires Owned(b) && id in b.accounts && !IdentityChanged(b.accounts[id], p)
    requires n == Patched(b.accounts[id], p) && n.external != b.accounts[id].external
    ensures LandsOnOwnRow(b, id, n) <==> PatchAccount(Table, b, id, p).1.Ok? && Collides(b, id, n)
  {
    OneOwnRow(b, id, n);
  }

  lemma SlipRefusedInMemory(b: Book, id: Id, p: Patch, n: Account)
    requires Owned(b) && id in b.accounts && !IdentityChanged(b.accounts[id], p) && n == Patched(b.accounts[id], p)
    ensures LandsOnOthersRow(b, id, n) <==> PatchAccount(InMemory, b, id, p).1.Ok? && Collides(b, id, n)
  {
  }

  /** A client has at most one other row of an identity, so its text decides about the index. */
  lemma OneOwnRow(b: Book, id: Id, n: Account)
    requires Owned(b)
    ensures LandsOnOwnRow(b, id, n) ==> !IndexTaken(b, id, n) && ClientHas(b, n.client, IdentityOf(n), Some(id))
    ensures ClientHas(b, n.client, IdentityOf(n), Some(id)) && !IndexTaken(b, id, n) ==>
              LandsOnOwnRow(b, id, n) || (n.status == Active && ActiveElsewhere(b, n.client, IdentityOf(n), Some(id)))
  {
    if LandsOnOwnRow(b, id, n) {
      var y :| y in b.accounts && y != id && b.accounts[y].client == n.client
               && IdentityOf(b.accounts[y]) == IdentityOf(n) && !SameText(b.accounts[y], n);
      forall z | z in b.accounts && z != id && b.accounts[z].client == n.client
        ensures !SameText(b.accounts[z], n)
      {
        assert PairOk(b, y, z);
      }
      assert Some(id) != Some(y);
    }
  }

  lemma SameIdentityIsFree(b: Book, id: Id, n: Account)
    requires Owned(b) && id in b.accounts
    requires var a := b.accounts[id]; n.client == a.client && n.status == a.status && IdentityOf(n) == IdentityOf(a)
    ensures !Collides(b, id, n)
  {
    forall y | y in b.accounts && y != id
      ensures IdentityOf(b.accounts[y]) == IdentityOf(n) ==>
                b.accounts[y].client != n.client && !(n.status == Active && ClientActive(b, n.client) && Counts(b, y))
    {
      assert PairOk(b, id, y);
    }
  }

  lemma ArchiveKeeps(b: Book, id: Id)
    requires Owned(b)
    ensures Owned(ArchiveAccount(b, id))
  {
    var c := ArchiveAccount(b, id);
    forall x, y
      ensures PairOk(c, x, y)
    {
      assert PairOk(b, x, y);
      assert forall z :: Counts(c, z) ==> Counts(b, z);
    }
  }

  /** Only a client that becomes active can break a pair, and then the guard has looked. */
  lemma StatusPair(b: Book, client: Id, status: Status, x: Id, y: Id)
    requires PairOk(b, x, y) && client in b.clients
    requires status == Active && b.clients[client] != Active ==> !RestoreBlocked(b, client)
    ensures PairOk(b.(clients := b.clients[client := status]), x, y)
  {
  }

  lemma ClientKeeps(b: Book, client: Id, status: Status)
    requires Owned(b)
    ensures Owned(PatchClient(b, client, status).0) && Owned(ArchiveClient(b, client))
  {
    forall x, y
      ensures PairOk(PatchClient(b, client, status).0, x, y) && PairOk(ArchiveClient(b, client), x, y)
    {
      assert PairOk(b, x, y);
      if client in b.clients {
        StatusPair(b, client, Archived, x, y);
        if PatchClient(b, client, status).1.Ok? {
          StatusPair(b, client, status, x, y);
        }
      }
    }
  }

  lemma NewClientKeeps(b: Book, client: Id, status: Status)
    requires Owned(b)
    ensures Owned(CreateClient(b, client, status))
  {
    var c := CreateClient(b, client, status);
    forall x, y
      ensures PairOk(c, x, y)
    {
      assert PairOk(b, x, y);
      assert (Counts(c, x) <==> Counts(b, x)) && (Counts(c, y) <==> Counts(b, y));
    }
  }

  // ---------- runs ----------

  datatype Call =
    | NewAccount(id: Id, client: Id, platform: string, external: string, status: Status)
    | ChangeAccount(id: Id, patch: Patch)
    | DropAccount(id: Id)
    | NewClient(client: Id, status: Status)
    | ChangeClient(client: Id, status: Status)
    | DropClient(client: Id)

  ghost function Next(store: Store, b: Book, c: Call): Book {
    match c
    case NewAccount(id, client, platform, external, status) =>
      if id in b.accounts then b else CreateAccount(b, id, NewRow(client, platform, external, status)).0
    case ChangeAccount(id, patch) => PatchAccount(store, b, id, patch).0
    case DropAccount(id) => ArchiveAccount(b, id)
    case NewClient(client, status) => CreateClient(b, client, status)
    case ChangeClient(client, status) => PatchClient(b, client, status).0
    case DropClient(client) => ArchiveClient(b, client)
  }

  ghost function Run(store: Store, b: Book, calls: seq<Call>): Book {
    if calls == [] then b else Next(store, Run(store, b, calls[..|calls| - 1]), calls[|calls| - 1])
  }

  /** The one step that can break single ownership. */
  ghost predicate CallLands(store: Store, b: Book, c: Call) {
    c.ChangeAccount? && SlipLands(store, b, c.id, c.patch)
  }

  ghost predicate NoneLands(store: Store, b: Book, calls: seq<Call>) {
    forall i :: 0 <= i < |calls| ==> !CallLands(store, Run(store, b, calls[..i]), calls[i])
  }

  lemma StepKeepsIff(store: Store, b: Book, c: Call)
    requires Owned(b)
    ensures Owned(Next(store, b, c)) <==> !CallLands(store, b, c)
  {
    match c
    case NewAccount(id, client, platform, external, status) =>
      if id !in b.accounts {
        CreateKeeps(b, id, NewRow(client, platform, external, status));
      }
    case ChangeAccount(id, patch) => PatchKeepsIff(store, b, id, patch);
    case DropAccount(id) => ArchiveKeeps(b, id);
    case NewClient(client, status) => NewClientKeeps(b, client, status);
    case ChangeClient(client, status) => ClientKeeps(b, client, status);
    case DropClient(client) => ClientKeeps(b, client, Archived);
  }

  lemma NoneLandsBefore(store: Store, b: Book, calls: seq<Call>)
    requires NoneLands(store, b, calls) && calls != []
    ensures NoneLands(store, b, calls[..|calls| - 1])
  {
    var rest := calls[..|calls| - 1];
    forall i | 0 <= i < |rest|
      ensures rest[..i] == calls[..i]
    {
    }
  }

  /** Single ownership: starting without duplicates, a sequence of account and client steps makes
      no active mapping ambiguous as long as no patch slips onto a row that does not refuse it. */
  lemma {:induction false} SingleOwnership(store: Store, b: Book, calls: seq<Call>)
    requires Owned(b) && NoneLands(store, b, calls)
    ensures Owned(Run(store, b, calls)) && ConflictIds(Run(store, b, calls)) == {}
  {
    if calls != [] {
      var rest := calls[..|calls| - 1];
      NoneLandsBefore(store, b, calls);
      SingleOwnership(store, b, rest);
      StepKeepsIff(store, Run(store, b, rest), calls[|calls| - 1]);
    }
    OwnedMeansNoConflict(Run(store, b, calls));
  }

  // ---------- the exception is real ----------

  const EMPTY := Book(map[], map[])
  const OWN_VALUE := Patch(None, None, Some("act_act_7"), None)

  /** Two clients, a mapping 7 of the first, a mapping act_act_act_7 (stored as act_act_7) of the
      client k, and then the patch of that mapping with its own stored value. */
  ghost function Slipping(k: Id): seq<Call> {
    [NewClient(1, Active), NewClient(2, Active), NewAccount(10, 1, "meta", "7", Active),
     NewAccount(20, k, "meta", "act_act_act_7", Active), ChangeAccount(20, OWN_VALUE)]
  }

  /** In the table-backed store one client ends with the same provider account in two active rows. */
  lemma NestedPrefixDoublesOwnAccount()
    ensures ConflictIds(Run(Table, EMPTY, Slipping(1))) == {10, 20}
  {
    NestedIds();
    SlipRuns(Table, 1, Account(1, "meta", "7", Active), Account(1, "meta", "act_act_7", Active),
             Account(1, "meta", "act_7", Active));
  }

  /** In the in-memory store two active clients end with the same provider account. */
  lemma NestedPrefixTakesOthersAccount()
    ensures ConflictIds(Run(InMemory, EMPTY, Slipping(2))) == {10, 20}
  {
    NestedIds();
    SlipRuns(InMemory, 2, Account(1, "meta", "7", Active), Account(2, "meta", "act_act_7", Active),
             Account(2, "meta", "act_7", Active));
  }

  function TwoOwners(a: Account, c: Account): (b: Book)
    ensures ClientActive(b, 1) && ClientActive(b, 2) && b.accounts == TwoRows(a, c)
  {
    Book(map[1 := Active, 2 := Active], TwoRows(a, c))
  }

  function TwoRows(a: Account, c: Account): (rows: map<Id, Account>)
    ensures rows.Keys == {10, 20} && rows[10] == a && rows[20] == c
  {
    map[10 := a, 20 := c]
  }

  /** Whatever the texts are, as long as they stand in these relations. */
  lemma SlipRuns(store: Store, k: Id, a: Account, nested: Account, n: Account)
    requires k == (if store == Table then 1 else 2)
    requires a == NewRow(1, "meta", "7", Active) && nested == NewRow(k, "meta", "act_act_act_7", Active)
    requires a.client == 1 && a.status == Active && nested.client == k
    requires Slips(nested, OWN_VALUE) && n == Patched(nested, OWN_VALUE)
    requires n.client == k && n.status == Active && !SameText(a, n)
    requires IdentityOf(a) != IdentityOf(nested) && IdentityOf(n) == IdentityOf(a)
    ensures ConflictIds(Run(store, EMPTY, Slipping(k))) == {10, 20}
  {
    var p := OWN_VALUE;
    FourCalls(store, k, a, nested);
    SlipGoesThrough(store, TwoOwners(a, nested), k, a, nested, p, n);
    LastCall(store, k);
  }

  lemma LastCall(store: Store, k: Id)
    ensures Run(store, EMPTY, Slipping(k)) == Next(store, Run(store, EMPTY, Slipping(k)[..4]),
            ChangeAccount(20, OWN_VALUE))
  {
    RunNext(store, EMPTY, Slipping(k), 4);
    assert Slipping(k)[..5] == Slipping(k);
  }

  lemma FourCalls(store: Store, k: Id, a: Account, nested: Account)
    requires k == 1 || k == 2
    requires a == NewRow(1, "meta", "7", Active) && nested == NewRow(k, "meta", "act_act_act_7", Active)
    requires a.client == 1 && nested.client == k && IdentityOf(a) != IdentityOf(nested)
    ensures Run(store, EMPTY, Slipping(k)[..4]) == TwoOwners(a, nested)
  {
    FirstAccount(store, k, a);
    RunNext(store, EMPTY, Slipping(k), 3);
    SecondRow(map[1 := Active, 2 := Active], a, nested);
  }

  lemma FirstAccount(store: Store, k: Id, a: Account)
    requires a == NewRow(1, "meta", "7", Active) && a.client == 1
    ensures Run(store, EMPTY, Slipping(k)[..3]) == Book(map[1 := Active, 2 := Active], map[10 := a])
  {
    TwoClients(store, k);
    RunNext(store, EMPTY, Slipping(k), 2);
    FirstRow(map[1 := Active, 2 := Active], a);
  }

  lemma RunNext(store: Store, b: Book, calls: seq<Call>, n: nat)
    requires n < |calls|
    ensures Run(store, b, calls[..n + 1]) == Next(store, Run(store, b, calls[..n]), calls[n])
  {
    assert calls[..n + 1][..n] == calls[..n];
  }

  lemma TwoClients(store: Store, k: Id)
    ensures Run(store, EMPTY, Slipping(k)[..2]) == Book(map[1 := Active, 2 := Active], map[])
  {
    var calls := Slipping(k);
    RunNext(store, EMPTY, calls, 0);
    RunNext(store, EMPTY, calls, 1);
    assert calls[..0] == [] && calls[0] == NewClient(1, Active) && calls[1] == NewClient(2, Active);
    var one := Run(store, EMPTY, calls[..1]);
    assert one == Book(map[1 := Active], map[]);
  }

  lemma FirstRow(clients: map<Id, Status>, a: Account)
    requires a.client in clients
    ensures CreateAccount(Book(clients, map[]), 10, a).0 == Book(clients, map[10 := a])
  {
  }

  lemma SecondRow(clients: map<Id, Status>, a: Account, c: Account)
    requires c.client in clients && IdentityOf(a) != IdentityOf(c)
    ensures CreateAccount(Book(clients, map[10 := a]), 20, c).0 == Book(clients, TwoRows(a, c))
  {
    var b := Book(clients, map[10 := a]);
    assert !ClientHas(b, c.client, IdentityOf(c), None);
    assert !ActiveElsewhere(b, c.client, IdentityOf(c), None);
    assert b.accounts[20 := c] == TwoRows(a, c);
  }

  lemma SlipGoesThrough(store: Store, b: Book, k: Id, a: Account, nested: Account, p: Patch, n: Account)
    requires k == (if store == Table then 1 else 2)
    requires a.client == 1 && a.status == Active && Slips(nested, p) && n == Patched(nested, p)
    requires n.client == k && n.status == Active && !SameText(a, n) && IdentityOf(n) == IdentityOf(a)
    requires ClientActive(b, 1) && ClientActive(b, 2) && b.accounts == TwoRows(a, nested)
    ensures ConflictIds(Next(store, b, ChangeAccount(20, p))) == {10, 20}
  {
    NothingRefuses(store, b, k, a, n);
    PatchStores(store, b, 20, p, n);
    BothConflict(b.(accounts := b.accounts[20 := n]));
  }

  lemma PatchStores(store: Store, b: Book, id: Id, p: Patch, n: Account)
    requires id in b.accounts && n == Patched(b.accounts[id], p) && n.client in b.clients
    requires !IdentityChanged(b.accounts[id], p)
    requires store == InMemory ==> !ClientHas(b, n.client, IdentityOf(n), Some(id))
    requires store == Table ==> !ActiveElsewhere(b, n.client, IdentityOf(n), Some(id)) && !IndexTaken(b, id, n)
    ensures Next(store, b, ChangeAccount(id, p)) == b.(accounts := b.accounts[id := n])
  {
  }

  lemma NothingRefuses(store: Store, b: Book, k: Id, a: Account, n: Account)
    requires k == (if store == Table then 1 else 2)
    requires b.accounts.Keys == {10, 20} && b.accounts[10] == a && a.client == 1 && n.client == k && !SameText(a, n)
    ensures store == InMemory ==> !ClientHas(b, k, IdentityOf(n), Some(20))
    ensures store == Table ==> !ActiveElsewhere(b, k, IdentityOf(n), Some(20)) && !IndexTaken(b, 20, n)
  {
    assert forall y :: y in b.accounts ==> y == 10 || y == 20;
  }

  lemma BothConflict(b: Book)
    requires b.accounts.Keys == {10, 20} && Counts(b, 10) && Counts(b, 20)
    requires IdentityOf(b.accounts[10]) == IdentityOf(b.accounts[20])
    ensures ConflictIds(b) == {10, 20}
  {
    assert forall x :: x in b.accounts ==> x == 10 || x == 20;
    assert 10 in ConflictIds(b) && 20 in ConflictIds(b);
  }

  lemma NestedIds()
    ensures NormalizePlatform("meta") == "meta"
    ensures CanonicalExternalId("meta", "7") == "7"
    ensures CanonicalExternalId("meta", "act_7") == "7"
    ensures CanonicalExternalId("meta", "act_act_7") == "act_7"
    ensures CanonicalExternalId("meta", "act_act_act_7") == "act_act_7"
    ensures HasActPrefix("act_7") && "7" != "act_7" && "act_7" != "act_act_7"
  {
    assert Strip("meta") == "meta" && Lower("meta") == "meta";
    assert Strip("7") == "7" && !HasActPrefix("7");
    assert "act_7"[..4] == "act_" && "act_7"[4..] == "7" && "act_act_7"[..4] == "act_" && "act_act_7"[4..] == "act_7";
    assert Lower("act_") == "act_";
    assert Strip("act_7") == "act_7" && Strip("act_act_7") == "act_act_7" && Strip("act_act_act_7") == "act_act_act_7";
    assert "act_act_act_7"[..4] == "act_" && "act_act_act_7"[4..] == "act_act_7";
  }
}
