/** Which texts name one provider account: spelling, prefixes and padding that make no difference, and
    differences that do. */
module AccountTexts {
  import opened Wrappers
  import opened Texts
  import opened Ownership
  import opened OwnershipWrites

  predicate AllSpace(s: string) {
    forall c :: c in s ==> IsSpace(c)
  }

  // ---------- padding ----------

  lemma {:induction false} StripLeft(pad: string, s: string)
    requires AllSpace(pad)
    ensures Strip(pad + s) == Strip(s)
  {
    if pad == "" {
      assert pad + s == s;
    } else {
      assert (pad + s)[1..] == pad[1..] + s && (pad + s)[0] == pad[0];
      StripLeft(pad[1..], s);
    }
  }

  lemma StripLast(s: string)
    requires s != "" && IsSpace(s[|s| - 1])
    ensures Strip(s) == Strip(s[..|s| - 1])
    decreases |s|
  {
    var front := s[..|s| - 1];
    if IsSpace(s[0]) && |s| > 1 {
      assert s[1..][..|s| - 2] == front[1..] && s[1..][|s| - 2] == s[|s| - 1] && front[0] == s[0];
      StripLast(s[1..]);
    }
  }

  lemma {:induction false} StripRight(s: string, pad: string)
    requires AllSpace(pad)
    ensures Strip(s + pad) == Strip(s)
    decreases |pad|
  {
    if pad == "" {
      assert s + pad == s;
    } else {
      var n := |pad| - 1;
      var all := s + pad;
      assert all[..|all| - 1] == s + pad[..n] && all[|all| - 1] == pad[n];
      assert pad[n] in pad;
      StripLast(all);
      StripRight(s, pad[..n]);
    }
  }

  /** Padding never matters, neither around the platform nor around the identifier. */
  lemma PaddingIsIgnored(platform: string, external: string, l: string, r: string)
    requires AllSpace(l) && AllSpace(r)
    ensures Identity(l + platform + r, external) == Identity(platform, external)
    ensures Identity(platform, l + external + r) == Identity(platform, external)
  {
    StripRight(l + platform, r);
    StripLeft(l, platform);
    StripRight(l + external, r);
    StripLeft(l, external);
  }

  // ---------- platforms ----------

  /** facebook and meta, in any case, are one platform; any other name is its own lower-case text. */
  lemma PlatformNames(name: string)
    ensures Lower(Strip(name)) in {"facebook", "meta"} ==> NormalizePlatform(name) == "meta"
    ensures Lower(Strip(name)) !in {"facebook", "meta"} ==> NormalizePlatform(name) == Lower(Strip(name)) != "meta"
  {
  }

  // ---------- digits ----------

  lemma {:induction false} DigitsAppend(a: string, b: string)
    ensures Digits(a + b) == Digits(a) + Digits(b)
  {
    if a == "" {
      assert a + b == b;
    } else {
      assert (a + b)[0] == a[0] && (a + b)[1..] == a[1..] + b;
      DigitsAppend(a[1..], b);
    }
  }

  lemma DigitsOfOne(c: char)
    ensures Digits([c]) == if IsDigit(c) then [c] else ""
  {
  }

  lemma {:induction false} DigitsOfStrip(s: string)
    ensures Digits(Strip(s)) == Digits(s)
    decreases |s|
  {
    if s != "" {
      if IsSpace(s[0]) {
        DigitsOfStrip(s[1..]);
      } else if IsSpace(s[|s| - 1]) {
        var n := |s| - 1;
        assert s == s[..n] + [s[n]];
        DigitsAppend(s[..n], [s[n]]);
        DigitsOfOne(s[n]);
        DigitsOfStrip(s[..n]);
      }
    }
  }

  predicate ByDigits(platform: string) {
    NormalizePlatform(platform) == "google" || NormalizePlatform(platform) == "tiktok"
  }

  /** Two identifiers of a platform that goes by digits name one account exactly when they have the
      same digits in the same order, whatever stands between these. */
  lemma SameDigitsIff(platform: string, x: string, y: string)
    requires ByDigits(platform) && Digits(x) != "" && Digits(y) != ""
    ensures Identity(platform, x) == Identity(platform, y) <==> Digits(x) == Digits(y)
  {
    CanonicalDigits(platform, x);
    CanonicalDigits(platform, y);
  }

  lemma CanonicalDigits(platform: string, x: string)
    requires ByDigits(platform) && Digits(x) != ""
    ensures CanonicalExternalId(platform, x) == Digits(x)
  {
    DigitsOfStrip(x);
  }

  /** Putting in or leaving out a character that is no digit never moves such an identifier. */
  lemma SeparatorIsIgnored(platform: string, a: string, c: char, b: string)
    requires ByDigits(platform) && !IsDigit(c) && Digits(a + b) != ""
    ensures Identity(platform, a + [c] + b) == Identity(platform, a + b)
    ensures CanonicalExternalId(platform, a + [c] + b) == Digits(a + b)
  {
    DigitsAppend(a + [c], b);
    DigitsAppend(a, [c]);
    DigitsAppend(a, b);
    DigitsOfOne(c);
    assert Digits(a) + "" == Digits(a);
    CanonicalDigits(platform, a + [c] + b);
    CanonicalDigits(platform, a + b);
  }

  /** A different digit anywhere is a different account. */
  lemma DigitsMatter(platform: string, a: string, c: char, d: char, b: string)
    requires ByDigits(platform) && IsDigit(c) && IsDigit(d) && c != d
    ensures Identity(platform, a + [c] + b) != Identity(platform, a + [d] + b)
  {
    var x, y := a + [c] + b, a + [d] + b;
    DigitsAppend(a + [c], b);
    DigitsAppend(a, [c]);
    DigitsAppend(a + [d], b);
    DigitsAppend(a, [d]);
    DigitsOfOne(c);
    DigitsOfOne(d);
    var n := |Digits(a)|;
    assert Digits(x)[n] == c && Digits(y)[n] == d;
    SameDigitsIff(platform, x, y);
  }

  // ---------- the act_ prefix ----------

  lemma StripOfFront(p: string, x: string)
    requires p != "" && (forall c :: c in p ==> !IsSpace(c))
    ensures |Strip(p + x)| >= |p| && Strip(p + x)[..|p|] == p && Strip(Strip(p + x)[|p|..]) == Strip(x)
    decreases |x|
  {
    var s := p + x;
    assert s[0] == p[0] && p[0] in p;
    if x == "" {
      assert s == p && p[|p| - 1] in p;
      assert Strip(s) == s;
    } else if IsSpace(x[|x| - 1]) {
      var front := x[..|x| - 1];
      assert s[..|s| - 1] == p + front && s[|s| - 1] == x[|x| - 1];
      StripLast(s);
      StripOfFront(p, front);
      StripLast(x);
    } else {
      assert s[|s| - 1] == x[|x| - 1];
      assert Strip(s) == s && s[|p|..] == x && s[..|p|] == p;
    }
  }

  /** For Meta, act_ in any case before an identifier without it names the same account. */
  lemma PrefixIsIgnored(platform: string, p: string, x: string)
    requires NormalizePlatform(platform) == "meta" && |p| == 4 && Lower(p) == "act_"
    requires !HasActPrefix(Strip(x))
    ensures Identity(platform, p + x) == Identity(platform, x)
    ensures CanonicalExternalId(platform, x) == Strip(x)
  {
    forall c | c in p
      ensures !IsSpace(c)
    {
      var i :| 0 <= i < 4 && p[i] == c;
      assert LowerChar(p[i]) == Lower(p)[i] == "act_"[i];
    }
    StripOfFront(p, x);
  }

  /** Without the prefix, and for a platform that is none of these, the stripped text itself counts. */
  lemma OtherTextsIff(platform: string, x: string, y: string)
    requires !ByDigits(platform)
    requires NormalizePlatform(platform) == "meta" ==> !HasActPrefix(Strip(x)) && !HasActPrefix(Strip(y))
    ensures Identity(platform, x) == Identity(platform, y) <==> Strip(x) == Strip(y)
  {
  }

  // ---------- what it means for a creation ----------

  /** Creating an active account that another active client already has active, in whatever spelling, is
      refused as an assignment conflict and changes nothing. */
  lemma RespelledIsRefused(b: Book, y: Id, id: Id, client: Id, platform: string, external: string)
    requires Counts(b, y) && b.accounts[y].client != client && client in b.clients && id !in b.accounts
    requires IdentityOf(NewRow(client, platform, external, Active)) == IdentityOf(b.accounts[y])
    requires forall z :: z in b.accounts && b.accounts[z].client == client ==>
               IdentityOf(b.accounts[z]) != IdentityOf(b.accounts[y])
    ensures CreateAccount(b, id, NewRow(client, platform, external, Active)) == (b, Err(AssignmentConflict))
  {
    var n := NewRow(client, platform, external, Active);
    assert Some(y) != None;
    ActiveElsewhereBy(b, n, id, y);
  }

  /** A stored row has the identity of the texts it was created with. */
  lemma NewRowIdentity(client: Id, platform: string, external: string, status: Status)
    requires ByDigits(platform) && Digits(external) != ""
    ensures NewRow(client, platform, external, status).external == Digits(external)
    ensures IdentityOf(NewRow(client, platform, external, status)) == (NormalizePlatform(platform), Digits(external))
  {
    CanonicalDigits(platform, external);
    NormalizeTwice(platform);
    DigitsTwice(external);
    CanonicalDigits(NormalizePlatform(platform), Digits(external));
  }

  lemma DigitsTwice(s: string)
    ensures Digits(Digits(s)) == Digits(s)
  {
  }

  /** An account of a platform that goes by digits, active for one client, cannot be created active for
      another client with any text of the same digits, in any spelling of the platform. */
  lemma SameDigitsAreRefused(b: Book, y: Id, owner: Id, id: Id, client: Id,
                             platform: string, external: string, other: string, respelled: string)
    requires ByDigits(platform) && NormalizePlatform(other) == NormalizePlatform(platform)
    requires Digits(external) == Digits(respelled) != ""
    requires y in b.accounts && b.accounts[y] == NewRow(owner, platform, external, Active) && ClientActive(b, owner)
    requires client in b.clients && client != owner && id !in b.accounts
    requires forall z :: z in b.accounts && b.accounts[z].client == client ==>
               IdentityOf(b.accounts[z]) != IdentityOf(b.accounts[y])
    ensures CreateAccount(b, id, NewRow(client, other, respelled, Active)) == (b, Err(AssignmentConflict))
  {
    NewRowIdentity(owner, platform, external, Active);
    NewRowIdentity(client, other, respelled, Active);
    RespelledIsRefused(b, y, id, client, other, respelled);
  }

  /** The same for Meta: with or without act_, as meta or as facebook. */
  lemma SameMetaIsRefused(b: Book, y: Id, owner: Id, id: Id, client: Id,
                          platform: string, x: string, other: string, p: string)
    requires NormalizePlatform(platform) == NormalizePlatform(other) == "meta"
    requires |p| == 4 && Lower(p) == "act_" && !HasActPrefix(Strip(x))
    requires y in b.accounts && b.accounts[y] == NewRow(owner, platform, x, Active) && ClientActive(b, owner)
    requires client in b.clients && client != owner && id !in b.accounts
    requires forall z :: z in b.accounts && b.accounts[z].client == client ==>
               IdentityOf(b.accounts[z]) != IdentityOf(b.accounts[y])
    ensures CreateAccount(b, id, NewRow(client, other, p + x, Active)) == (b, Err(AssignmentConflict))
    ensures CreateAccount(b, id, NewRow(client, other, x, Active)) == (b, Err(AssignmentConflict))
  {
    PrefixIsIgnored(platform, p, x);
    PrefixIsIgnored(other, p, x);
    NormalizeTwice(platform);
    NormalizeTwice(other);
    RespelledIsRefused(b, y, id, client, other, p + x);
    RespelledIsRefused(b, y, id, client, other, x);
  }

  // ---------- what is let through ----------

  /** A creation is stored exactly when the client exists, has no row of the account, and, for an active
      one, no other active client has it active. */
  lemma CreatedIff(b: Book, id: Id, a: Account)
    requires id !in b.accounts
    ensures var (c, r) := CreateAccount(b, id, a);
            && (r.Ok? <==>
                  a.client in b.clients
                  && forall z :: z in b.accounts && IdentityOf(b.accounts[z]) == IdentityOf(a) ==>
                       b.accounts[z].client != a.client && (a.status == Active ==> !Counts(b, z)))
            && (if r.Ok? then r.value == a && c == b.(accounts := b.accounts[id := a]) else c == b)
  {
  }

  /** After the archiving of a mapping, or of its client, another client can take the account over. */
  lemma ArchivedCanBeTaken(b: Book, y: Id, id: Id, n: Account)
    requires Owned(b) && Counts(b, y) && id !in b.accounts
    requires n.client in b.clients && n.client != b.accounts[y].client && IdentityOf(n) == IdentityOf(b.accounts[y])
    requires forall z :: z in b.accounts && b.accounts[z].client == n.client ==>
            IdentityOf(b.accounts[z]) != IdentityOf(n)
    ensures CreateAccount(ArchiveAccount(b, y), id, n).1 == Ok(n)
    ensures CreateAccount(ArchiveClient(b, b.accounts[y].client), id, n).1 == Ok(n)
  {
    TakenOver(b, ArchiveAccount(b, y), y, id, n);
    TakenOver(b, ArchiveClient(b, b.accounts[y].client), y, id, n);
  }

  lemma TakenOver(b: Book, c: Book, y: Id, id: Id, n: Account)
    requires Owned(b) && Counts(b, y) && id !in c.accounts && n.client in c.clients
    requires c.accounts.Keys == b.accounts.Keys && !Counts(c, y) && IdentityOf(n) == IdentityOf(b.accounts[y])
    requires forall z :: z in c.accounts ==> SameText(c.accounts[z], b.accounts[z])
    requires forall z :: z in c.accounts ==>
               c.accounts[z].client == b.accounts[z].client && (Counts(c, z) ==> Counts(b, z))
    requires forall z :: z in b.accounts && b.accounts[z].client == n.client ==>
            IdentityOf(b.accounts[z]) != IdentityOf(n)
    ensures CreateAccount(c, id, n).1 == Ok(n)
  {
    forall z | z in c.accounts && IdentityOf(c.accounts[z]) == IdentityOf(n)
      ensures c.accounts[z].client != n.client && !Counts(c, z)
    {
      assert PairOk(b, z, y);
    }
    CreatedIff(c, id, n);
  }

  /** A patch that goes through sets what it names, the identity in canonical form, and keeps the rest;
      no other row and no client changes. */
  lemma PatchSets(store: Store, b: Book, id: Id, p: Patch, z: Id)
    requires PatchAccount(store, b, id, p).1.Ok?
    ensures var (c, r) := PatchAccount(store, b, id, p); var a, n := b.accounts[id], c.accounts[id];
            && r.value == n && c.clients == b.clients
            && (z != id ==>
                  (z in c.accounts <==> z in b.accounts) && (z in b.accounts ==> c.accounts[z] == b.accounts[z]))
            && n.client == (if p.client.Some? then p.client.value else a.client)
            && n.status == (if p.status.Some? then p.status.value else a.status)
            && (p.platform.Some? ==> n.platform == NormalizePlatform(p.platform.value))
            && (p.platform.None? ==> n.platform == a.platform)
            && (p.platform.None? && p.external.None? ==> n.external == a.external)
            && (p.external.Some? ==> n.external == CanonicalExternalId(n.platform, p.external.value))
            && (p.platform.Some? && p.external.None? ==> n.external == CanonicalExternalId(n.platform, a.external))
  {
  }

  /** A patch with a changed value goes through exactly when account and client exist, the client has no
      other row of the new identity, and, for an active one, no other active client has it active. */
  lemma ChangedPatchIff(store: Store, b: Book, id: Id, p: Patch)
    requires id in b.accounts && IdentityChanged(b.accounts[id], p)
    ensures var n := Patched(b.accounts[id], p);
            PatchAccount(store, b, id, p).1.Ok? <==>
              n.client in b.clients
              && forall z :: z in b.accounts && z != id && IdentityOf(b.accounts[z]) == IdentityOf(n) ==>
                   b.accounts[z].client != n.client && (n.status == Active ==> !Counts(b, z))
  {
    var n := Patched(b.accounts[id], p);
    if !ClientHas(b, n.client, IdentityOf(n), Some(id)) {
      OwnIndex(b, id, n);
    }
  }

  /** A client patch sets the status, unless it would restore a client one of whose active accounts is
      active for another active client. */
  lemma ClientPatchIff(b: Book, client: Id, status: Status)
    requires client in b.clients
    ensures var (c, r) := PatchClient(b, client, status);
            && (r.Ok? <==> !(status == Active && b.clients[client] != Active
                             && exists x, y :: x in b.accounts && b.accounts[x].client == client
                                               && b.accounts[x].status == Active && Counts(b, y)
                                               && b.accounts[y].client != client
                                               && IdentityOf(b.accounts[x]) == IdentityOf(b.accounts[y])))
            && c == (if r.Ok? then b.(clients := b.clients[client := status]) else b)
  {
  }
}
