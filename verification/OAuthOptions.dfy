/** OAuth connect options carried inside a next path: embedded as reserved query items before the
    provider redirect and extracted again in the callback. */
module OAuthOptions {
  import opened Wrappers
  import opened Texts

  type Id = nat

  /** A query key: one of the six reserved ones, ops_oauth_intent, ops_connect_mode,
      ops_connection_key, ops_agency_id, ops_client_id, ops_meta_config_id, or any other. */
  datatype Name = Intent | ConnectMode | ConnectionKey | AgencyId | ClientId | MetaConfigId | Other(text: string)
  datatype Item = Item(name: Name, value: string)

  /** A next path that is already normalised, split into its path and its decoded query items. */
  datatype Url = Url(path: string, query: seq<Item>)

  predicate Reserved(k: Name) {
    !k.Other?
  }

  datatype Purpose = Login | Connect | Link | MigrateLegacy | MigratePrimary
  datatype Mode = Add | Overwrite

  function PurposeText(p: Purpose): string {
    match p
    case Login => "login"
    case Connect => "connect"
    case Link => "link"
    case MigrateLegacy => "migrate_legacy"
    case MigratePrimary => "migrate_primary"
  }

  function ReadPurpose(v: string): Option<Purpose> {
    PurposeOf(Lower(Strip(v)))
  }

  function PurposeOf(text: string): Option<Purpose> {
    if text == "login" then Some(Login)
    else if text == "connect" then Some(Connect)
    else if text == "link" then Some(Link)
    else if text == "migrate_legacy" then Some(MigrateLegacy)
    else if text == "migrate_primary" then Some(MigratePrimary)
    else None
  }

  function ModeText(m: Mode): string {
    if m.Add? then "add" else "overwrite"
  }

  function ReadMode(v: string): Option<Mode> {
    var text := Lower(Strip(v));
    if text == "add" then Some(Add) else if text == "overwrite" then Some(Overwrite) else None
  }

  /** How the values of reserved items are written and read back. PlainCodec below is the one in
      use; identifiers are left open. */
  datatype Codec = Codec(purpose: Purpose -> string, readPurpose: string -> Option<Purpose>,
                         mode: Mode -> string, readMode: string -> Option<Mode>,
                         id: Id -> string, readId: string -> Option<Id>)

  ghost predicate ReadsBack(c: Codec) {
    && (forall p :: c.readPurpose(c.purpose(p)) == Some(p))
    && (forall m :: c.readMode(c.mode(m)) == Some(m))
    && (forall u: Id :: c.id(u) != "" && IsStripped(c.id(u)) && c.readId(c.id(u)) == Some(u))
  }

  function PlainCodec(id: Id -> string, readId: string -> Option<Id>): Codec {
    Codec(PurposeText, ReadPurpose, ModeText, ReadMode, id, readId)
  }

  function Clean(query: seq<Item>): seq<Item> {
    if query == [] then []
    else
      var last := query[|query| - 1];
      Clean(query[..|query| - 1]) + (if Reserved(last.name) then [] else [last])
  }

  // ---------- embedding ----------

  /** The arguments as the routes give them. */
  datatype Asked = Asked(intent: string, mode: string, key: Option<string>, agency: Option<Id>, client: Option<Id>,
                         metaConfig: Option<string>)

  /** The options as the callback gets them. */
  datatype Options = Options(intent: Purpose, mode: Mode, key: Option<string>, agency: Option<Id>, client: Option<Id>,
                             metaConfig: Option<string>)

  function Text(s: Option<string>): (r: string)
    ensures IsStripped(r)
  {
    Strip(if s.Some? then s.value else "")
  }

  function NormalIntent(intent: string, codec: Codec): Purpose {
    if codec.readPurpose(intent).Some? then codec.readPurpose(intent).value else Login
  }

  function NormalMode(mode: string, codec: Codec): Mode {
    if codec.readMode(mode).Some? then codec.readMode(mode).value else Add
  }

  function PathOf(path: string): string {
    if path == "" then "/" else path
  }

  function IntentAndMode(a: Asked, codec: Codec): seq<Item> {
    [Item(Intent, codec.purpose(NormalIntent(a.intent, codec))),
        Item(ConnectMode, codec.mode(NormalMode(a.mode, codec)))]
  }

  function KeyItem(a: Asked, codec: Codec): seq<Item> {
    if NormalMode(a.mode, codec) == Overwrite && Text(a.key) != "" then [Item(ConnectionKey, Text(a.key))] else []
  }

  function IdItem(name: Name, a: Asked, id: Option<Id>, codec: Codec): seq<Item> {
    if NormalIntent(a.intent, codec) == Connect && id.Some? then [Item(name, codec.id(id.value))] else []
  }

  function ConfigItem(a: Asked, codec: Codec): seq<Item> {
    if NormalIntent(a.intent, codec) == Connect && Text(a.metaConfig) != "" then
      [Item(MetaConfigId, Text(a.metaConfig))]
    else []
  }

  function Embedded(u: Url, a: Asked, codec: Codec): Url {
    Url(PathOf(u.path),
        Clean(u.query) + IntentAndMode(a, codec) + KeyItem(a, codec) + IdItem(AgencyId, a, a.agency, codec)
        + IdItem(ClientId, a, a.client, codec) + ConfigItem(a, codec))
  }

  // ---------- extracting ----------

  datatype Reading = Reading(clean: seq<Item>, o: Options)

  const DEFAULTS := Options(Login, Add, None, None, None, None)

  function ReadId(v: string, before: Option<Id>, codec: Codec): Option<Id> {
    if Strip(v) == "" then before else codec.readId(Strip(v))
  }

  /** One query item; of several items of one reserved key the last readable one counts. */
  function Read(r: Reading, it: Item, codec: Codec): Reading {
    var (k, v) := (it.name, it.value);
    var text := Strip(v);
    if k == Intent then (if codec.readPurpose(v).Some? then r.(o := r.o.(intent := codec.readPurpose(v).value)) else r)
    else if k == ConnectMode then (if codec.readMode(v).Some? then r.(o := r.o.(mode := codec.readMode(v).value))
      else r)
    else if k == ConnectionKey then (if text != "" then r.(o := r.o.(key := Some(text))) else r)
    else if k == AgencyId then r.(o := r.o.(agency := ReadId(v, r.o.agency, codec)))
    else if k == ClientId then r.(o := r.o.(client := ReadId(v, r.o.client, codec)))
    else if k == MetaConfigId then (if text != "" then r.(o := r.o.(metaConfig := Some(text))) else r)
    else r.(clean := r.clean + [it])
  }

  function ReadAll(query: seq<Item>, codec: Codec): Reading {
    if query == [] then Reading([], DEFAULTS) else Read(ReadAll(query[..|query| - 1], codec), query[|query| - 1], codec)
  }

  function Extracted(u: Url, codec: Codec): (Url, Options) {
    var r := ReadAll(u.query, codec);
    (Url(PathOf(u.path), r.clean), if r.o.mode == Overwrite && r.o.key.None? then r.o.(mode := Add) else r.o)
  }

  // ---------- round trip ----------

  /** What a caller's arguments amount to. */
  function Normalised(a: Asked, codec: Codec): Options {
    var connect := NormalIntent(a.intent, codec) == Connect;
    var overwrite := NormalMode(a.mode, codec) == Overwrite && Text(a.key) != "";
    Options(NormalIntent(a.intent, codec),
            if overwrite then Overwrite else Add,
            if overwrite then Some(Text(a.key)) else None,
            if connect then a.agency else None,
            if connect then a.client else None,
            if connect && Text(a.metaConfig) != "" then Some(Text(a.metaConfig)) else None)
  }

  function ReadFrom(r: Reading, query: seq<Item>, codec: Codec): Reading {
    if query == [] then r else Read(ReadFrom(r, query[..|query| - 1], codec), query[|query| - 1], codec)
  }

  lemma {:induction false} ReadAppend(a: seq<Item>, b: seq<Item>, codec: Codec)
    ensures ReadAll(a + b, codec) == ReadFrom(ReadAll(a, codec), b, codec)
  {
    if b == [] {
      assert a + b == a;
    } else {
      assert (a + b)[..|a + b| - 1] == a + b[..|b| - 1];
      ReadAppend(a, b[..|b| - 1], codec);
    }
  }

  lemma {:induction false} ReadsClean(query: seq<Item>, codec: Codec)
    ensures ReadAll(Clean(query), codec) == Reading(Clean(query), DEFAULTS)
  {
    if query != [] {
      ReadsClean(query[..|query| - 1], codec);
      if !Reserved(query[|query| - 1].name) {
        ReadOther(Clean(query[..|query| - 1]), query[|query| - 1], codec);
      } else {
        assert Clean(query) == Clean(query[..|query| - 1]);
      }
    }
  }

  lemma ReadOther(query: seq<Item>, it: Item, codec: Codec)
    requires !Reserved(it.name)
    ensures var r := ReadAll(query, codec); ReadAll(query + [it], codec) == Reading(r.clean + [it], r.o)
  {
    assert (query + [it])[..|query|] == query;
  }

  /** Only the last item has to be read off when one is appended. */
  lemma ReadMore(query: seq<Item>, more: seq<Item>, codec: Codec)
    requires |more| <= 1
    ensures ReadAll(query + more, codec) == if more == [] then ReadAll(query, codec)
            else Read(ReadAll(query, codec), more[0], codec)
  {
    ReadAppend(query, more, codec);
    if more != [] {
      assert more[..0] == [];
    }
  }

  predicate IsPlain(s: string) {
    forall i :: 0 <= i < |s| ==> !IsSpace(s[i]) && LowerChar(s[i]) == s[i]
  }

  lemma PlainStays(s: string)
    requires IsPlain(s)
    ensures Lower(Strip(s)) == s
  {
    assert Strip(s) == s;
  }

  lemma PurposeReadsBack(p: Purpose)
    ensures ReadPurpose(PurposeText(p)) == Some(p)
  {
    TextsArePlain(p);
    PlainStays(PurposeText(p));
    PurposeOfText(p);
  }

  lemma TextsArePlain(p: Purpose)
    ensures IsPlain(PurposeText(p))
  {
  }

  lemma PurposeOfText(p: Purpose)
    ensures PurposeOf(PurposeText(p)) == Some(p)
  {
    DifferentTexts();
  }

  lemma DifferentTexts()
    ensures forall p, q :: PurposeText(p) == PurposeText(q) ==> p == q
  {
    assert "login"[1] != "link"[1];
    assert "migrate_legacy"[8] != "migrate_primary"[8];
  }

  lemma ModeReadsBack(m: Mode)
    ensures ReadMode(ModeText(m)) == Some(m)
  {
    var text := ModeText(m);
    assert Strip(text) == text;
    assert Lower(text) == text;
  }

  lemma ReadIntentAndMode(query: seq<Item>, a: Asked, codec: Codec)
    requires ReadsBack(codec)
    ensures var r := ReadAll(query, codec);
            ReadAll(query + IntentAndMode(a, codec), codec)
                == r.(o := r.o.(intent := NormalIntent(a.intent, codec), mode := NormalMode(a.mode, codec)))
  {
    var i, m := [Item(Intent, codec.purpose(NormalIntent(a.intent, codec)))],
        [Item(ConnectMode, codec.mode(NormalMode(a.mode, codec)))];
    ReadMore(query, i, codec);
    ReadMore(query + i, m, codec);
    assert query + IntentAndMode(a, codec) == query + i + m;
  }

  lemma ReadKey(query: seq<Item>, a: Asked, codec: Codec)
    ensures var r := ReadAll(query, codec);
            ReadAll(query + KeyItem(a, codec), codec) == if KeyItem(a, codec) == [] then r
                else r.(o := r.o.(key := Some(Text(a.key))))
  {
    ReadMore(query, KeyItem(a, codec), codec);
  }

  lemma ReadAgency(query: seq<Item>, a: Asked, codec: Codec)
    requires ReadsBack(codec)
    ensures var r := ReadAll(query, codec); var more := IdItem(AgencyId, a, a.agency, codec);
            ReadAll(query + more, codec) == if more == [] then r else r.(o := r.o.(agency := a.agency))
  {
    ReadMore(query, IdItem(AgencyId, a, a.agency, codec), codec);
  }

  lemma ReadClient(query: seq<Item>, a: Asked, codec: Codec)
    requires ReadsBack(codec)
    ensures var r := ReadAll(query, codec); var more := IdItem(ClientId, a, a.client, codec);
            ReadAll(query + more, codec) == if more == [] then r else r.(o := r.o.(client := a.client))
  {
    ReadMore(query, IdItem(ClientId, a, a.client, codec), codec);
  }

  lemma ReadConfig(query: seq<Item>, a: Asked, codec: Codec)
    ensures var r := ReadAll(query, codec);
            ReadAll(query + ConfigItem(a, codec), codec) == if ConfigItem(a, codec) == [] then r
                else r.(o := r.o.(metaConfig := Some(Text(a.metaConfig))))
  {
    ReadMore(query, ConfigItem(a, codec), codec);
  }

  /** What the first three items make of the options read so far. */
  function WithMode(o: Options, a: Asked, codec: Codec): Options {
    var p := o.(intent := NormalIntent(a.intent, codec), mode := NormalMode(a.mode, codec));
    if KeyItem(a, codec) == [] then p else p.(key := Some(Text(a.key)))
  }

  lemma ReadFront(query: seq<Item>, a: Asked, codec: Codec)
    requires ReadsBack(codec)
    ensures var r := ReadAll(query, codec);
            ReadAll(query + IntentAndMode(a, codec) + KeyItem(a, codec), codec) == r.(o := WithMode(r.o, a, codec))
  {
    ReadIntentAndMode(query, a, codec);
    ReadKey(query + IntentAndMode(a, codec), a, codec);
  }

  /** What the last three make of them. */
  function WithTenant(o: Options, a: Asked, codec: Codec): Options {
    if NormalIntent(a.intent, codec) != Connect then o
    else
      o.(agency := if a.agency.Some? then a.agency else o.agency,
         client := if a.client.Some? then a.client else o.client,
         metaConfig := if Text(a.metaConfig) != "" then Some(Text(a.metaConfig)) else o.metaConfig)
  }

  lemma ReadRear(query: seq<Item>, a: Asked, codec: Codec)
    requires ReadsBack(codec)
    ensures var r := ReadAll(query, codec);
            ReadAll(query + IdItem(AgencyId, a, a.agency, codec) + IdItem(ClientId, a, a.client, codec)
                    + ConfigItem(a, codec), codec) == r.(o := WithTenant(r.o, a, codec))
  {
    var q1 := query + IdItem(AgencyId, a, a.agency, codec);
    ReadAgency(query, a, codec);
    ReadClient(q1, a, codec);
    ReadConfig(q1 + IdItem(ClientId, a, a.client, codec), a, codec);
  }

  /** Extracting what was embedded gives back the path without its reserved items and exactly the
      normalised options, whatever reserved items the path had before. */
  lemma RoundTrip(u: Url, a: Asked, codec: Codec)
    requires ReadsBack(codec)
    ensures Extracted(Embedded(u, a, codec), codec) == (Url(PathOf(u.path), Clean(u.query)), Normalised(a, codec))
  {
    ReadsClean(u.query, codec);
    ReadFront(Clean(u.query), a, codec);
    ReadRear(Clean(u.query) + IntentAndMode(a, codec) + KeyItem(a, codec), a, codec);
  }

  lemma {:induction false} CleanAppend(a: seq<Item>, b: seq<Item>)
    ensures Clean(a + b) == Clean(a) + Clean(b)
  {
    if b == [] {
      assert a + b == a;
    } else {
      assert (a + b)[..|a + b| - 1] == a + b[..|b| - 1];
      CleanAppend(a, b[..|b| - 1]);
    }
  }

  /** At most one item, with a reserved name. */
  predicate Single(more: seq<Item>) {
    |more| <= 1 && forall it :: it in more ==> Reserved(it.name)
  }

  lemma ReservedAreDropped(query: seq<Item>, more: seq<Item>)
    requires Single(more)
    ensures Clean(query + more) == Clean(query)
  {
    CleanAppend(query, more);
    assert more != [] ==> more[0] in more;
  }

  lemma ThreeAreDropped(query: seq<Item>, x: seq<Item>, y: seq<Item>, z: seq<Item>)
    requires Single(x) && Single(y) && Single(z)
    ensures Clean(query + x + y + z) == Clean(query)
  {
    ReservedAreDropped(query, x);
    ReservedAreDropped(query + x, y);
    ReservedAreDropped(query + x + y, z);
  }

  lemma {:induction false} CleanTwice(query: seq<Item>)
    ensures Clean(Clean(query)) == Clean(query)
  {
    if query != [] {
      CleanTwice(query[..|query| - 1]);
      CleanAppend(Clean(query[..|query| - 1]), if Reserved(query[|query| - 1].name) then [] else [query[|query| - 1]]);
    }
  }

  lemma FrontIsDropped(query: seq<Item>, a: Asked, codec: Codec)
    ensures Clean(query + IntentAndMode(a, codec) + KeyItem(a, codec)) == Clean(query)
  {
    var all := IntentAndMode(a, codec);
    ThreeAreDropped(query, [all[0]], [all[1]], KeyItem(a, codec));
    assert query + all == query + [all[0]] + [all[1]];
  }

  lemma IdIsSingle(name: Name, a: Asked, id: Option<Id>, codec: Codec)
    requires Reserved(name)
    ensures Single(IdItem(name, a, id, codec))
  {
  }

  lemma ConfigIsSingle(a: Asked, codec: Codec)
    ensures Single(ConfigItem(a, codec))
  {
  }

  lemma RearIsDropped(query: seq<Item>, a: Asked, codec: Codec)
    ensures Clean(query + IdItem(AgencyId, a, a.agency, codec) + IdItem(ClientId, a, a.client, codec)
                  + ConfigItem(a, codec)) == Clean(query)
  {
    IdIsSingle(AgencyId, a, a.agency, codec);
    IdIsSingle(ClientId, a, a.client, codec);
    ConfigIsSingle(a, codec);
    ThreeAreDropped(query, IdItem(AgencyId, a, a.agency, codec), IdItem(ClientId, a, a.client, codec),
                    ConfigItem(a, codec));
  }

  lemma EmbeddingIsDropped(u: Url, a: Asked, codec: Codec)
    ensures Clean(Embedded(u, a, codec).query) == Clean(u.query)
  {
    CleanTwice(u.query);
    FrontIsDropped(Clean(u.query), a, codec);
    RearIsDropped(Clean(u.query) + IntentAndMode(a, codec) + KeyItem(a, codec), a, codec);
  }

  /** Embedding again replaces every option embedded before. */
  lemma LastEmbeddingCounts(u: Url, a: Asked, b: Asked, codec: Codec)
    ensures Embedded(Embedded(u, a, codec), b, codec) == Embedded(u, b, codec)
  {
    EmbeddingIsDropped(u, a, codec);
  }

  /** Both for the codec in use, whatever identifiers look like, as long as they can be read back. */
  lemma PlainRoundTrip(u: Url, a: Asked, id: Id -> string, readId: string -> Option<Id>)
    requires forall n: Id :: id(n) != "" && IsStripped(id(n)) && readId(id(n)) == Some(n)
    ensures var codec := PlainCodec(id, readId);
            Extracted(Embedded(u, a, codec), codec) == (Url(PathOf(u.path), Clean(u.query)), Normalised(a, codec))
  {
    var codec := PlainCodec(id, readId);
    forall p
      ensures codec.readPurpose(codec.purpose(p)) == Some(p)
    {
      PurposeReadsBack(p);
    }
    forall m
      ensures codec.readMode(codec.mode(m)) == Some(m)
    {
      ModeReadsBack(m);
    }
    RoundTrip(u, a, codec);
  }

  // ---------- the loops ----------

  method UnreservedItems(query: seq<Item>) returns (items: seq<Item>)
    ensures items == Clean(query)
  {
    items := [];
    for i := 0 to |query|
      invariant items == Clean(query[..i])
    {
      assert query[..i + 1][..i] == query[..i];
      if !Reserved(query[i].name) {
        items := items + [query[i]];
      }
    }
    assert query[..|query|] == query;
  }

  method WithOauthConnectOptions(u: Url, a: Asked, codec: Codec) returns (r: Url)
    ensures r == Embedded(u, a, codec)
  {
    var items := UnreservedItems(u.query);
    var intent := NormalIntent(a.intent, codec);
    items := items + [Item(Intent, codec.purpose(intent))];
    var mode := NormalMode(a.mode, codec);
    items := items + [Item(ConnectMode, codec.mode(mode))];
    assert items == Clean(u.query) + IntentAndMode(a, codec);
    var key := Text(a.key);
    items := items + if mode == Overwrite && key != "" then [Item(ConnectionKey, key)] else [];
    items := items + if intent == Connect && a.agency.Some? then [Item(AgencyId, codec.id(a.agency.value))] else [];
    items := items + if intent == Connect && a.client.Some? then [Item(ClientId, codec.id(a.client.value))] else [];
    var config := Text(a.metaConfig);
    items := items + if intent == Connect && config != "" then [Item(MetaConfigId, config)] else [];
    r := Url(PathOf(u.path), items);
  }

  method ExtractOauthConnectOptions(u: Url, codec: Codec) returns (clean: Url, o: Options)
    ensures (clean, o) == Extracted(u, codec)
  {
    var items: seq<Item> := [];
    o := DEFAULTS;
    for i := 0 to |u.query|
      invariant Reading(items, o) == ReadAll(u.query[..i], codec)
    {
      assert u.query[..i + 1][..i] == u.query[..i];
      var k, v := u.query[i].name, Strip(u.query[i].value);
      if k == Intent {
        var candidate := codec.readPurpose(u.query[i].value);
        if candidate.Some? {
          o := o.(intent := candidate.value);
        }
      } else if k == ConnectMode {
        var candidate := codec.readMode(u.query[i].value);
        if candidate.Some? {
          o := o.(mode := candidate.value);
        }
      } else if k == ConnectionKey {
        if v != "" {
          o := o.(key := Some(v));
        }
      } else if k == AgencyId {
        if v != "" {
          o := o.(agency := codec.readId(v));
        }
      } else if k == ClientId {
        if v != "" {
          o := o.(client := codec.readId(v));
        }
      } else if k == MetaConfigId {
        if v != "" {
          o := o.(metaConfig := Some(v));
        }
      } else {
        items := items + [u.query[i]];
      }
    }
    assert u.query[..|u.query|] == u.query;
    if o.mode == Overwrite && o.key.None? {
      o := o.(mode := Add);
    }
    clean := Url(PathOf(u.path), items);
  }

  // ---------- the texts of the options ----------

  /** A path comes back as it is; an empty one is the root. */
  lemma PathComesBack(u: Url, a: Asked, codec: Codec)
    ensures Embedded(u, a, codec).path == Extracted(u, codec).0.path == if u.path == "" then "/" else u.path
  {
  }

  /** An intent is read in any case and padding, and only one of the five; anything else is a login. */
  lemma IntentTexts(v: string, p: Purpose)
    ensures ReadPurpose(v) == Some(p) <==> Lower(Strip(v)) == PurposeText(p)
    ensures ReadPurpose(v).None? ==> NormalIntent(v, PlainCodec(i => "", t => None)) == Login
  {
    PurposeOfText(p);
  }

  /** A mode is read in any case and padding; anything else means to add. */
  lemma ModeTexts(v: string, m: Mode)
    ensures ReadMode(v) == Some(m) <==> Lower(Strip(v)) == ModeText(m)
    ensures ReadMode(v).None? ==> NormalMode(v, PlainCodec(i => "", t => None)) == Add
  {
    assert "add" != "overwrite";
  }
}
