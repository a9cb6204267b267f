/** conformance.go: the generator that fills a fixture's placeholders. */
module Resolver {
  import opened Text
  import opened Fixture
  import opened Base64

  /** sha256 stands for SHA-256, whose digests have 32 bytes. */
  datatype Resolver = Resolver(p: Params, now: int, sha256: string -> seq<Byte>)

  /** The text of n random bytes. */
  ghost predicate IsRandom(s: string, n: nat) {
    exists b: seq<Byte> :: |b| == n && s == Encode(b)
  }

  lemma RandomShape(s: string, n: nat)
    requires IsRandom(s, n) && n > 0
    ensures |s| == (4 * n + 2) / 3 && IsB64Url(s)
  {
  }

  /** The left half of a digest. */
  function LeftHalf(sum: seq<Byte>): (half: seq<Byte>)
    ensures |half| == 16
  {
    if |sum| == 32 then sum[..|sum| / 2] else seq(16, _ => 0)
  }

  function AtHash(r: Resolver): string {
    Encode(LeftHalf(r.sha256(r.p.accessToken)))
  }

  lemma AtHashShape(r: Resolver)
    ensures |AtHash(r)| == 22 && IsB64Url(AtHash(r))
  {
  }

  /** at_hash decodes to the left half of the token's digest. */
  lemma AtHashIsLeftHalf(r: Resolver)
    requires |r.sha256(r.p.accessToken)| == 32
    ensures Decode(AtHash(r)) == r.sha256(r.p.accessToken)[..16]
  {
    DecodeOfEncode(LeftHalf(r.sha256(r.p.accessToken)));
  }

  /** What value(kind, arg) may return. Random texts encode any bytes of the right
      number; the relation is empty when value fails. */
  ghost predicate ValueIs(r: Resolver, kind: Kind, arg: string, out: Json) {
    var p := r.p;
    match kind
    case KIssuer => out == Str(Or(p.issuer, DEFAULT_ISSUER))
    case KClientId => out == Str(Or(p.clientId, DEFAULT_CLIENT_ID))
    case KSub => out == Str(Or(p.subject, DEFAULT_SUBJECT))
    case KAppSub => out == Str("app:" + Decimal(if p.appId == 0 then DEFAULT_APP_ID else p.appId))
    case KRole => out == Str(Or(p.role, DEFAULT_ROLE))
    case KAppRoles => out == Obj(map[Or(p.clientId, DEFAULT_CLIENT_ID) := Str(Or(p.role, DEFAULT_ROLE))])
    case KEmail => out == Str(Or(p.email, DEFAULT_EMAIL))
    case KName => out == Str(Or(p.name, DEFAULT_NAME))
    case KTenantId => out == Str(Or(p.tenantId, DEFAULT_TENANT_ID))
    case KAttribute => arg in Attributes(p) && out == Attributes(p)[arg]
    case KScope => out == Str(Or(p.scope, arg))
    case KIat | KNbf => out == Num(Unix(r.now) as real)
    case KAuthTime => out == Num(Unix(AuthTime(r)) as real)
    case KExp => out == Num(Unix(r.now + Ttl(p)) as real)
    case KRefreshExp => out == Num(Unix(r.now + RefreshTtl(p)) as real)
    case KExpiresIn => out == Num((Ttl(p) / SECOND) as real)
    case KTokenVersion => out == Num((if p.tokenVersion > 0 then p.tokenVersion else 1) as real)
    case KAccessToken => p.accessToken != "" && out == Str(p.accessToken)
    case KRefreshToken => p.refreshToken != "" && out == Str(p.refreshToken)
    case KIdToken => p.idToken != "" && out == Str(p.idToken)
    case KNonce | KJti | KKid | KAtHash | KJkt => out.Str? && DrawnIs(r, kind, out.s)
    case KModulus | KUnknown => false
  }

  /** The values that are drawn at random unless Params give them. */
  ghost predicate DrawnIs(r: Resolver, kind: Kind, s: string) {
    var p := r.p;
    match kind
    case KNonce => if p.nonce != "" then s == p.nonce else IsRandom(s, 12)
    case KJti => IsUuid(s)
    case KKid => if HasKid(p) then s == p.keys[0].id else IsUuid(s)
    case KAtHash => if p.accessToken != "" then s == AtHash(r) else IsRandom(s, 16)
    case KJkt => if p.jkt != "" then s == p.jkt else IsRandom(s, 32)
    case _ => false
  }

  predicate IsDrawn(kind: Kind) {
    kind == KNonce || kind == KJti || kind == KKid || kind == KAtHash || kind == KJkt
  }

  function AuthTime(r: Resolver): int { if r.p.authTime.Some? then r.p.authTime.value else r.now }

  predicate HasKid(p: Params) { |p.keys| > 0 && p.keys[0].id != "" }

  /** When value succeeds. */
  predicate CanFill(p: Params, kind: Kind, arg: string) {
    match kind
    case KAttribute => arg in Attributes(p)
    case KAccessToken => p.accessToken != ""
    case KRefreshToken => p.refreshToken != ""
    case KIdToken => p.idToken != ""
    case KModulus | KUnknown => false
    case _ => true
  }

  function AudienceValues(p: Params): seq<string> {
    if |p.audiences| == 0 then [DEFAULT_AUDIENCE] else p.audiences
  }

  /** When resolve succeeds. */
  predicate CanResolve(p: Params, t: Tmpl) {
    match t
    case TStr(s) => (match Parse(s) case Literal => true case Whole(kind, arg) => CanFill(p, kind, arg))
    case TArr(items) => forall i :: 0 <= i < |items| ==> items[i] == AUDIENCE || CanResolve(p, items[i])
    case TObj(entries) => forall i :: 0 <= i < |entries| ==> CanResolve(p, entries[i].1)
    case _ => true
  }

  /** What resolve(t) may return. */
  ghost predicate Resolves(r: Resolver, t: Tmpl, out: Json)
    decreases t, 1
  {
    match t
    case TNull => out == Null
    case TBool(b) => out == Bool(b)
    case TNum(n) => out == Num(n)
    case TStr(s) =>
      (match Parse(s)
       case Literal => out == Str(ReplaceAll(s, ISSUER_TOKEN, Or(r.p.issuer, DEFAULT_ISSUER)))
       case Whole(kind, arg) => ValueIs(r, kind, arg, out))
    case TArr(items) => out.Arr? && ResolvesItems(r, items, out.items)
    case TObj(entries) =>
      CanResolve(r.p, t) && out.Obj? && ResolvesFields(r, entries, out.fields)
  }

  ghost predicate ResolvesFields(r: Resolver, entries: seq<(string, Tmpl)>, fields: map<string, Json>)
    decreases TObj(entries), 0
  {
    var m := Expected(Namespace(r.p), entries);
    fields.Keys == m.Keys && forall k :: k in m ==> Resolves(r, m[k], fields[k])
  }

  ghost predicate ResolvesItems(r: Resolver, items: seq<Tmpl>, outs: seq<Json>)
    decreases items, 0
  {
    if items == [] then
      outs == []
    else if items[0] == AUDIENCE then
      var a := AudienceValues(r.p);
      && |outs| >= |a|
      && (forall j :: 0 <= j < |a| ==> outs[j] == Str(a[j]))
      && ResolvesItems(r, items[1..], outs[|a|..])
    else
      && |outs| >= 1
      && Resolves(r, items[0], outs[0])
      && ResolvesItems(r, items[1..], outs[1..])
  }

  method RandomB64(n: nat) returns (s: string)
    ensures IsRandom(s, n)
  {
    var zeros: seq<Byte> := seq(n, _ => 0);
    assert |zeros| == n;
    var b: seq<Byte> :| |b| == n;
    s := Encode(b);
  }

  method RandomUuid() returns (s: string)
    ensures IsUuid(s)
  {
    var w := seq(36, i => if i == 8 || i == 13 || i == 18 || i == 23 then '-' else '0');
    assert IsUuid(w);
    s :| IsUuid(s);
  }

  method Draw(r: Resolver, kind: Kind) returns (s: string)
    requires IsDrawn(kind)
    ensures DrawnIs(r, kind, s)
  {
    hide IsRandom, AtHash, IsUuid;
    var p := r.p;
    match kind {
      case KNonce => var random := RandomB64(12); s := Or(p.nonce, random);
      case KJti => s := RandomUuid();
      case KKid =>
        if HasKid(p) {
          s := p.keys[0].id;
        } else {
          s := RandomUuid();
        }
      case KAtHash =>
        if p.accessToken != "" {
          s := AtHash(r);
        } else {
          s := RandomB64(16);
        }
      case KJkt => var random := RandomB64(32); s := Or(p.jkt, random);
    }
  }

  method Value(r: Resolver, kind: Kind, arg: string) returns (out: Option<Json>)
    ensures out.Some? <==> CanFill(r.p, kind, arg)
    ensures out.Some? ==> ValueIs(r, kind, arg, out.value)
  {
    hide DrawnIs, Decimal, Unix, Attributes;
    var p := r.p;
    match kind {
      case KIssuer => out := Some(Str(Or(p.issuer, DEFAULT_ISSUER)));
      case KClientId => out := Some(Str(Or(p.clientId, DEFAULT_CLIENT_ID)));
      case KSub => out := Some(Str(Or(p.subject, DEFAULT_SUBJECT)));
      case KAppSub => out := Some(Str("app:" + Decimal(if p.appId == 0 then DEFAULT_APP_ID else p.appId)));
      case KRole => out := Some(Str(Or(p.role, DEFAULT_ROLE)));
      case KAppRoles => out := Some(Obj(map[Or(p.clientId, DEFAULT_CLIENT_ID) := Str(Or(p.role, DEFAULT_ROLE))]));
      case KEmail => out := Some(Str(Or(p.email, DEFAULT_EMAIL)));
      case KName => out := Some(Str(Or(p.name, DEFAULT_NAME)));
      case KTenantId => out := Some(Str(Or(p.tenantId, DEFAULT_TENANT_ID)));
      case KAttribute => out := if arg in Attributes(p) then Some(Attributes(p)[arg]) else None;
      case KScope => out := Some(Str(Or(p.scope, arg)));
      case KIat | KNbf => out := Some(Num(Unix(r.now) as real));
      case KAuthTime => out := Some(Num(Unix(AuthTime(r)) as real));
      case KExp => out := Some(Num(Unix(r.now + Ttl(p)) as real));
      case KRefreshExp => out := Some(Num(Unix(r.now + RefreshTtl(p)) as real));
      case KExpiresIn => out := Some(Num((Ttl(p) / SECOND) as real));
      case KTokenVersion => out := Some(Num((if p.tokenVersion > 0 then p.tokenVersion else 1) as real));
      case KNonce | KJti | KKid | KAtHash | KJkt =>
        var drawn := Draw(r, kind);
        out := Some(Str(drawn));
      case KAccessToken => out := if p.accessToken == "" then None else Some(Str(p.accessToken));
      case KRefreshToken => out := if p.refreshToken == "" then None else Some(Str(p.refreshToken));
      case KIdToken => out := if p.idToken == "" then None else Some(Str(p.idToken));
      case KModulus | KUnknown => out := None;
    }
  }

  /** resolve: the recursive generator. */
  method Resolve(r: Resolver, t: Tmpl) returns (out: Option<Json>)
    ensures out.Some? <==> CanResolve(r.p, t)
    ensures out.Some? ==> Resolves(r, t, out.value)
    decreases t, 1
  {
    match t {
      case TNull => out := Some(Null);
      case TBool(b) => out := Some(Bool(b));
      case TNum(n) => out := Some(Num(n));
      case TStr(s) =>
        match Parse(s) {
          case Literal => out := Some(Str(ReplaceAll(s, ISSUER_TOKEN, Or(r.p.issuer, DEFAULT_ISSUER))));
          case Whole(kind, arg) => out := Value(r, kind, arg);
        }
      case TArr(items) => out := ResolveArray(r, items);
      case TObj(entries) => out := ResolveObject(r, t);
    }
  }

  method ResolveObject(r: Resolver, t: Tmpl) returns (out: Option<Json>)
    requires t.TObj?
    ensures out.Some? <==> CanResolve(r.p, t)
    ensures out.Some? ==> Resolves(r, t, out.value)
    decreases t, 0
  {
    hide *;
    var entries, ns := t.entries, Namespace(r.p);
    var fields: map<string, Json> := map[];
    FieldsEmpty(r);
    var i := 0;
    while i < |entries|
      invariant 0 <= i <= |entries|
      invariant forall j :: 0 <= j < i ==> CanResolve(r.p, entries[j].1)
      invariant ResolvesFields(r, entries[..i], fields)
    {
      var v := Resolve(r, entries[i].1);
      if v.None? {
        ObjectNeedsEntry(r.p, t, i);
        return None;
      }
      FieldsAppend(r, entries[..i], fields, entries[i], v.value);
      assert entries[..i + 1] == entries[..i] + [entries[i]];
      fields := fields[Rename(ns, entries[i].0) := v.value];
      i := i + 1;
    }
    assert entries[..i] == entries;
    ObjectResolves(r, t, fields);
    out := Some(Obj(fields));
  }

  lemma FieldsEmpty(r: Resolver)
    ensures ResolvesFields(r, [], map[])
  {
  }

  lemma ObjectNeedsEntry(p: Params, t: Tmpl, i: nat)
    requires t.TObj? && i < |t.entries| && !CanResolve(p, t.entries[i].1)
    ensures !CanResolve(p, t)
  {
  }

  lemma ObjectResolves(r: Resolver, t: Tmpl, fields: map<string, Json>)
    requires t.TObj? && ResolvesFields(r, t.entries, fields)
    requires forall i :: 0 <= i < |t.entries| ==> CanResolve(r.p, t.entries[i].1)
    ensures CanResolve(r.p, t) && Resolves(r, t, Obj(fields))
  {
  }

  lemma FieldsAppend(r: Resolver, entries: seq<(string, Tmpl)>, fields: map<string, Json>, e: (string, Tmpl), v: Json)
    requires ResolvesFields(r, entries, fields) && Resolves(r, e.1, v)
    ensures ResolvesFields(r, entries + [e], fields[Rename(Namespace(r.p), e.0) := v])
  {
    assert (entries + [e])[..|entries|] == entries;
  }

  method ResolveArray(r: Resolver, items: seq<Tmpl>) returns (out: Option<Json>)
    ensures out.Some? <==> CanResolve(r.p, TArr(items))
    ensures out.Some? ==> Resolves(r, TArr(items), out.value)
    decreases items, 0
  {
    hide *;
    var outs: seq<Json> := [];
    ItemsEmpty(r);
    var i := 0;
    while i < |items|
      invariant 0 <= i <= |items|
      invariant forall j :: 0 <= j < i ==> items[j] == AUDIENCE || CanResolve(r.p, items[j])
      invariant ResolvesItems(r, items[..i], outs)
    {
      assert items[..i + 1] == items[..i] + [items[i]];
      if items[i] == AUDIENCE {
        var a := AudienceValues(r.p);
        ItemsAppendAudiences(r, items[..i], outs);
        outs := outs + seq(|a|, j requires 0 <= j < |a| => Str(a[j]));
      } else {
        var v := Resolve(r, items[i]);
        if v.None? {
          ArrayNeedsItem(r.p, items, i);
          return None;
        }
        ItemsAppend(r, items[..i], outs, items[i], v.value);
        outs := outs + [v.value];
      }
      i := i + 1;
    }
    assert items[..i] == items;
    ArrayResolves(r, items, outs);
    out := Some(Arr(outs));
  }

  lemma ItemsEmpty(r: Resolver)
    ensures ResolvesItems(r, [], [])
  {
  }

  lemma ArrayNeedsItem(p: Params, items: seq<Tmpl>, i: nat)
    requires i < |items| && items[i] != AUDIENCE && !CanResolve(p, items[i])
    ensures !CanResolve(p, TArr(items))
  {
  }

  lemma ArrayResolves(r: Resolver, items: seq<Tmpl>, outs: seq<Json>)
    requires ResolvesItems(r, items, outs)
    requires forall i :: 0 <= i < |items| ==> items[i] == AUDIENCE || CanResolve(r.p, items[i])
    ensures CanResolve(r.p, TArr(items)) && Resolves(r, TArr(items), Arr(outs))
  {
  }

  lemma {:induction false} ItemsAppend(r: Resolver, items: seq<Tmpl>, outs: seq<Json>, t: Tmpl, v: Json)
    requires ResolvesItems(r, items, outs) && t != AUDIENCE && Resolves(r, t, v)
    ensures ResolvesItems(r, items + [t], outs + [v])
  {
    hide Resolves;
    if items == [] {
      assert items + [t] == [t] && (outs + [v])[1..] == [];
    } else {
      var n := if items[0] == AUDIENCE then |AudienceValues(r.p)| else 1;
      ItemsAppend(r, items[1..], outs[n..], t, v);
      assert (items + [t])[1..] == items[1..] + [t] && (outs + [v])[n..] == outs[n..] + [v];
    }
  }

  lemma {:induction false} ItemsAppendAudiences(r: Resolver, items: seq<Tmpl>, outs: seq<Json>)
    requires ResolvesItems(r, items, outs)
    ensures var a := AudienceValues(r.p);
      ResolvesItems(r, items + [AUDIENCE], outs + seq(|a|, j requires 0 <= j < |a| => Str(a[j])))
  {
    hide Resolves;
    var a := AudienceValues(r.p);
    var vs := seq(|a|, j requires 0 <= j < |a| => Str(a[j]));
    if items == [] {
      assert items + [AUDIENCE] == [AUDIENCE] && outs + vs == vs && vs[|a|..] == [];
    } else {
      var n := if items[0] == AUDIENCE then |a| else 1;
      ItemsAppendAudiences(r, items[1..], outs[n..]);
      assert (items + [AUDIENCE])[1..] == items[1..] + [AUDIENCE] && (outs + vs)[n..] == outs[n..] + vs;
    }
  }

  // ----- The jwks fixture -----

  /** A template taken as it is, placeholders and all. */
  function Raw(t: Tmpl): Json
    decreases t, 1
  {
    match t
    case TNull => Null
    case TBool(b) => Bool(b)
    case TNum(n) => Num(n)
    case TStr(s) => Str(s)
    case TArr(items) => Arr(seq(|items|, i requires 0 <= i < |items| => Raw(items[i])))
    case TObj(entries) => Obj(RawFields(t, |entries|))
  }

  function RawFields(t: Tmpl, n: nat): map<string, Json>
    requires t.TObj? && n <= |t.entries|
    decreases t, 0, n
  {
    if n == 0 then map[] else RawFields(t, n - 1)[t.entries[n - 1].0 := Raw(t.entries[n - 1].1)]
  }

  function FillKey(k: Key, t: Tmpl): Json {
    if t == TStr("<kid>") then Str(k.id) else if t == TStr("<n>") then Str(k.n) else Raw(t)
  }

  /** One published key, from the key template's entries in visiting order. */
  function KeyFields(k: Key, entries: seq<(string, Tmpl)>): map<string, Json> {
    if entries == [] then
      map[]
    else
      var last := entries[|entries| - 1];
      KeyFields(k, entries[..|entries| - 1])[last.0 := FillKey(k, last.1)]
  }

  /** The single key template under "keys", as a list of entries. */
  function KeyTemplate(doc: seq<(string, Tmpl)>): Option<seq<(string, Tmpl)>> {
    if doc == [] then
      None
    else if doc[|doc| - 1].0 == "keys" then
      var t := doc[|doc| - 1].1;
      if t.TArr? && |t.items| == 1 then Some(if t.items[0].TObj? then t.items[0].entries else []) else None
    else
      KeyTemplate(doc[..|doc| - 1])
  }

  predicate UsableKey(k: Key, entries: seq<(string, Tmpl)>) {
    k.hasPrivate && k.id != "" && Lookup(KeyFields(k, entries), "e") == Str(k.e)
  }

  /** When resolveJWKS succeeds. */
  predicate CanPublish(p: Params, doc: seq<(string, Tmpl)>) {
    && KeyTemplate(doc).Some?
    && |p.keys| > 0
    && forall i :: 0 <= i < |p.keys| ==> UsableKey(p.keys[i], KeyTemplate(doc).value)
  }

  function PublishedKeys(p: Params, entries: seq<(string, Tmpl)>): seq<Json> {
    seq(|p.keys|, i requires 0 <= i < |p.keys| => Obj(KeyFields(p.keys[i], entries)))
  }

  /** The document resolveJWKS returns. */
  function Published(p: Params, doc: seq<(string, Tmpl)>): Json
    requires CanPublish(p, doc)
  {
    Obj(map["keys" := Arr(PublishedKeys(p, KeyTemplate(doc).value))])
  }

  /** resolveJWKS: one entry per key. */
  method ResolveJwks(p: Params, doc: seq<(string, Tmpl)>) returns (out: Option<Json>)
    ensures out.Some? <==> CanPublish(p, doc)
    ensures out.Some? ==> out.value == Published(p, doc)
    ensures |p.keys| == 0 ==> out.None?
    ensures (exists i :: 0 <= i < |p.keys| && (!p.keys[i].hasPrivate || p.keys[i].id == "")) ==> out.None?
    ensures out.Some? ==> KeyTemplate(doc).Some? && forall i :: 0 <= i < |p.keys| ==>
      Lookup(KeyFields(p.keys[i], KeyTemplate(doc).value), "e") == Str(p.keys[i].e)
  {
    var tmpl := KeyTemplate(doc);
    if tmpl.None? || |p.keys| == 0 {
      return None;
    }
    var keys: seq<Json> := [];
    for i := 0 to |p.keys|
      invariant |keys| == i
      invariant forall j :: 0 <= j < i ==>
        UsableKey(p.keys[j], tmpl.value) && keys[j] == Obj(KeyFields(p.keys[j], tmpl.value))
    {
      var k := p.keys[i];
      if !k.hasPrivate || k.id == "" {
        return None;
      }
      var entry := FillEntry(k, tmpl.value);
      if Lookup(entry, "e") != Str(k.e) {
        return None;
      }
      keys := keys + [Obj(entry)];
    }
    assert keys == PublishedKeys(p, tmpl.value);
    out := Some(Obj(map["keys" := Arr(keys)]));
  }

  method FillEntry(k: Key, entries: seq<(string, Tmpl)>) returns (entry: map<string, Json>)
    ensures entry == KeyFields(k, entries)
  {
    entry := map[];
    for i := 0 to |entries|
      invariant entry == KeyFields(k, entries[..i])
    {
      assert entries[..i + 1][..i] == entries[..i];
      entry := entry[entries[i].0 := FillKey(k, entries[i].1)];
    }
    assert entries[..|entries|] == entries;
  }
}
