/** The converse of the round trip: what the checker accepts is what the generator
    yields, and which values an open placeholder refuses. */
module Determined {
  import opened Text
  import opened Base64
  import opened Fixture
  import opened Resolver
  import opened Placeholders
  import opened Matcher
  import opened Visits
  import opened RoundTrip

  // ----- Templates without an open place -----

  /** Params, or the placeholder itself, give the value. */
  predicate IsGiven(p: Params, kind: Kind, arg: string) {
    match kind
    case KIssuer => p.issuer != ""
    case KClientId => p.clientId != ""
    case KSub => p.subject != ""
    case KAppSub => p.appId != 0
    case KRole => p.role != ""
    case KEmail => p.email != ""
    case KName => p.name != ""
    case KNonce => p.nonce != ""
    case KTenantId => p.tenantId != ""
    case KJkt => p.jkt != ""
    case KAccessToken => p.accessToken != ""
    case KRefreshToken => p.refreshToken != ""
    case KIdToken => p.idToken != ""
    case KScope => p.scope != "" || arg != ""
    case KAttribute => p.attributes.Some? && arg in p.attributes.value
    case KTokenVersion => p.tokenVersion > 0
    case _ => false
  }

  predicate AudiencesGiven(p: Params) { p.audiences != [] && "" !in p.audiences }

  /** Every placeholder is given and no literal leaves the issuer open. */
  predicate IsDetermined(p: Params, t: Tmpl) {
    match t
    case TStr(s) =>
      (match Parse(s)
       case Literal => p.issuer != "" || !Contains(s, ISSUER_TOKEN)
       case Whole(kind, arg) => IsGiven(p, kind, arg))
    case TArr(items) =>
      forall i :: 0 <= i < |items| ==> if items[i] == AUDIENCE then AudiencesGiven(p) else IsDetermined(p, items[i])
    case TObj(entries) => forall i :: 0 <= i < |entries| ==> IsDetermined(p, entries[i].1)
    case _ => true
  }

  // ----- Accepted means generated -----

  lemma GivenIsExact(r: Resolver, kind: Kind, arg: string, g: Json)
    requires IsGiven(r.p, kind, arg) && Satisfies(r.p, kind, arg, g)
    ensures ValueIs(r, kind, arg, g)
  {
    hide Decimal, IsUuid, IsB64Url, IsDecimal, IsEmail, IsAppSub, IsJws, Unix;
  }

  lemma LeafIsGenerated(r: Resolver, path: string, s: string, g: Json)
    requires IsDetermined(r.p, TStr(s)) && Conforms(Rules(r.p, false), path, TStr(s), g)
    ensures Resolves(r, TStr(s), g)
  {
    if Parse(s).Whole? {
      GivenIsExact(r, Parse(s).kind, Parse(s).arg, g);
    }
    hide Parse, Satisfies, ValueIs, IsGiven, Index;
  }

  lemma {:induction false} CanResolveDetermined(p: Params, t: Tmpl)
    requires IsDetermined(p, t)
    ensures CanResolve(p, t)
    decreases t
  {
    hide Parse;
    match t {
      case TArr(items) =>
        forall i | 0 <= i < |items| && items[i] != AUDIENCE ensures CanResolve(p, items[i]) {
          CanResolveDetermined(p, items[i]);
        }
      case TObj(entries) =>
        forall i | 0 <= i < |entries| ensures CanResolve(p, entries[i].1) {
          CanResolveDetermined(p, entries[i].1);
        }
      case _ =>
    }
  }

  /** An array resolved element by element, its last item perhaps the audiences. */
  lemma {:induction false} ItemsResolve(r: Resolver, items: seq<Tmpl>, outs: seq<Json>)
    requires var i := AudienceAt(items);
      && (i == |items| || i == |items| - 1)
      && (if i == |items| then |outs| == i else |outs| >= i && outs[i..] == AudienceStrings(r.p))
      && forall j :: 0 <= j < i ==> Resolves(r, items[j], outs[j])
    ensures ResolvesItems(r, items, outs)
  {
    hide Resolves;
    if items != [] && items[0] != AUDIENCE {
      var i := AudienceAt(items);
      assert i == 1 + AudienceAt(items[1..]);
      assert outs[i..] == outs[1..][i - 1..];
      forall j | 0 <= j < i - 1 ensures Resolves(r, items[1..][j], outs[1..][j]) {
        assert items[1..][j] == items[j + 1] && outs[1..][j] == outs[j + 1];
      }
      ItemsResolve(r, items[1..], outs[1..]);
    } else if items != [] {
      assert outs[0..] == outs && items[1..] == [];
      assert outs[|AudienceValues(r.p)|..] == [];
    }
  }

  lemma AudiencesAreGiven(p: Params, rest: seq<Json>)
    requires AudiencesGiven(p) && AudiencesOk(p, rest)
    ensures rest == AudienceStrings(p)
  {
    forall j | 0 <= j < |rest| ensures rest[j] == AudienceStrings(p)[j] {
      assert AudienceOk(p, j, rest[j]);
      assert p.audiences[j] in p.audiences;
    }
  }

  lemma {:induction false} ConformingIsGenerated(r: Resolver, path: string, t: Tmpl, g: Json)
    requires IsDetermined(r.p, t) && Conforms(Rules(r.p, false), path, t, g)
    ensures Resolves(r, t, g)
    decreases t
  {
    match t {
      case TStr(s) => LeafIsGenerated(r, path, s, g);
      case TArr(items) => ArrayIsGenerated(r, path, t, g.items);
      case TObj(entries) => ObjectIsGenerated(r, path, t, g.fields);
      case _ =>
    }
  }

  lemma {:induction false} ArrayIsGenerated(r: Resolver, path: string, t: Tmpl, g: seq<Json>)
    requires t.TArr? && IsDetermined(r.p, t) && ArrayConforms(Rules(r.p, false), path, t, g)
    ensures ResolvesItems(r, t.items, g)
    decreases t, 0
  {
    var m, i := Rules(r.p, false), AudienceAt(t.items);
    assert forall j :: 0 <= j < i ==> IsDetermined(r.p, t.items[j]);
    assert i < |t.items| ==> AudiencesGiven(r.p);
    hide *;
    ArrayConformsIs(m, path, t, g);
    NotKeyList(m, path, t.items);
    forall j | 0 <= j < i ensures Resolves(r, t.items[j], g[j]) {
      ConformingIsGenerated(r, Item(path, j), t.items[j], g[j]);
    }
    if i < |t.items| {
      AudiencesAreGiven(r.p, g[i..]);
    }
    ItemsResolve(r, t.items, g);
  }

  lemma {:induction false} ObjectIsGenerated(r: Resolver, path: string, t: Tmpl, g: map<string, Json>)
    requires t.TObj? && IsDetermined(r.p, t) && ObjectConforms(Rules(r.p, false), path, t, g)
    ensures Resolves(r, t, Obj(g))
    decreases t, 0
  {
    hide *;
    var m, e := Rules(r.p, false), Expected(Namespace(r.p), t.entries);
    DeterminedEntries(r.p, t);
    CanResolveDetermined(r.p, t);
    ObjectConformsIs(m, path, t, g);
    forall k | k in e ensures k in g && Resolves(r, e[k], g[k]) {
      ConformingIsGenerated(r, Join(path, k), e[k], g[k]);
    }
    FieldsAre(r, t, g);
  }

  lemma DeterminedEntries(p: Params, t: Tmpl)
    requires t.TObj? && IsDetermined(p, t)
    ensures var e := Expected(Namespace(p), t.entries); forall k :: k in e ==> e[k] < t && IsDetermined(p, e[k])
  {
    hide Winner, Expected;
    assert forall i :: 0 <= i < |t.entries| ==> IsDetermined(p, t.entries[i].1);
  }

  lemma FieldsAre(r: Resolver, t: Tmpl, g: map<string, Json>)
    requires t.TObj? && CanResolve(r.p, t)
    requires var e := Expected(Namespace(r.p), t.entries);
      g.Keys == e.Keys && forall k :: k in e ==> Resolves(r, e[k], g[k])
    ensures Resolves(r, t, Obj(g))
  {
    hide CanResolve, Expected;
  }

  /** The converse of the round trip: for a determined template, a document without
      errors is one the generator yields. */
  lemma AcceptedIsGenerated(r: Resolver, path: string, t: Tmpl, g: Json)
    requires IsDetermined(r.p, t) && Errors(Rules(r.p, false), path, t, g) == []
    ensures Resolves(r, t, g)
  {
    hide *;
    NoErrorsIffConforms(Rules(r.p, false), path, t, g);
    ConformingIsGenerated(r, path, t, g);
  }

  /** Both together: if its values survive their own rules, a determined template is
      accepted in exactly the documents the generator yields. */
  lemma AcceptedIffGenerated(r: Resolver, path: string, t: Tmpl, g: Json)
    requires IsDetermined(r.p, t) && WellFormed(r, t)
    ensures Errors(Rules(r.p, false), path, t, g) == [] <==> Resolves(r, t, g)
  {
    hide *;
    if Errors(Rules(r.p, false), path, t, g) == [] {
      AcceptedIsGenerated(r, path, t, g);
    }
    if Resolves(r, t, g) {
      RoundTrip.RoundTrip(r, path, t, g);
    }
  }

  // ----- An empty audience -----

  /** Whatever the template of all audiences accepts is generated. */
  ghost predicate AudiencesAreExact(r: Resolver) {
    forall path, g ::
      Errors(Rules(r.p, false), path, TArr([AUDIENCE]), g) == [] ==> Resolves(r, TArr([AUDIENCE]), g)
  }

  lemma AudienceErrorsAre(p: Params, path: string, g: Json)
    ensures Errors(Rules(p, false), path, TArr([AUDIENCE]), g) == []
      <==> g.Arr? && g.items != [] && AudiencesOk(p, g.items)
  {
    var m, t := Rules(p, false), TArr([AUDIENCE]);
    NoErrorsIffConforms(m, path, t, g);
    assert AudienceAt(t.items) == 0;
    if g.Arr? {
      assert g.items[0..] == g.items;
    }
    hide Errors, AudiencesOk, Parse, Satisfies;
  }

  /** A given audience that is empty is met by any value that is not a string, so given
      audiences pin the document exactly when none of them is empty. */
  lemma AudiencesAreExactIff(r: Resolver)
    requires r.p.audiences != []
    ensures AudiencesAreExact(r) <==> "" !in r.p.audiences
  {
    if "" in r.p.audiences {
      EmptyAudienceTakesAnything(r, Null);
    } else {
      forall path, g | Errors(Rules(r.p, false), path, TArr([AUDIENCE]), g) == []
        ensures Resolves(r, TArr([AUDIENCE]), g)
      {
        assert IsDetermined(r.p, TArr([AUDIENCE]));
        hide *;
        AcceptedIsGenerated(r, path, TArr([AUDIENCE]), g);
      }
    }
  }

  lemma EmptyAudienceTakesAnything(r: Resolver, v: Json)
    requires "" in r.p.audiences && !v.Str?
    ensures exists g :: Errors(Rules(r.p, false), "", TArr([AUDIENCE]), g) == [] && !Resolves(r, TArr([AUDIENCE]), g)
  {
    var j :| 0 <= j < |r.p.audiences| && r.p.audiences[j] == "";
    var a := AudienceStrings(r.p);
    var g := Arr(a[j := v]);
    AudienceErrorsAre(r.p, "", g);
    assert AudiencesOk(r.p, g.items);
    assert !Resolves(r, TArr([AUDIENCE]), g) by {
      assert [AUDIENCE][1..] == [];
    }
    hide Errors;
  }

  // ----- Open placeholders -----

  /** The placeholder of that name accepts exactly the values of a shape. */
  ghost predicate Accepts(m: Rules, name: string, shape: Json -> bool) {
    forall path, g :: Errors(m, path, TStr(Mark(name)), g) == [] <==> shape(g)
  }

  lemma KindAccepts(m: Rules, kind: Kind, shape: Json -> bool)
    requires kind != KUnknown && forall g :: Satisfies(m.p, kind, "", g) <==> shape(g)
    ensures Accepts(m, Name(kind), shape)
  {
    var s := Mark(Name(kind));
    ParseOfMark(kind, "");
    hide Errors, Parse, Satisfies, Mark, Name;
    forall path, g ensures Errors(m, path, TStr(s), g) == [] <==> shape(g) {
      PlaceholderErrors(m, path, s, g);
    }
  }

  lemma PlaceholderErrors(m: Rules, path: string, s: string, g: Json)
    requires Parse(s).Whole?
    ensures Errors(m, path, TStr(s), g) == [] <==> Satisfies(m.p, Parse(s).kind, Parse(s).arg, g)
  {
    hide Parse, Satisfies;
  }

  predicate IsText(g: Json) { g.Str? && g.s != "" }

  /** These refuse only what is not a text, or an empty one. */
  lemma OpenTexts(m: Rules)
    ensures m.p.issuer == "" ==> Accepts(m, "issuer", g => IsText(g))
    ensures m.p.clientId == "" ==> Accepts(m, "client_id", g => IsText(g))
    ensures m.p.role == "" ==> Accepts(m, "role", g => IsText(g))
    ensures m.p.name == "" ==> Accepts(m, "name", g => IsText(g))
    ensures m.p.nonce == "" ==> Accepts(m, "nonce", g => IsText(g))
    ensures m.p.scope == "" ==> Accepts(m, "scope", g => IsText(g))
  {
    hide Accepts, Decimal;
    if m.p.issuer == "" { KindAccepts(m, KIssuer, g => IsText(g)); }
    if m.p.clientId == "" { KindAccepts(m, KClientId, g => IsText(g)); }
    if m.p.role == "" { KindAccepts(m, KRole, g => IsText(g)); }
    if m.p.name == "" { KindAccepts(m, KName, g => IsText(g)); }
    if m.p.nonce == "" { KindAccepts(m, KNonce, g => IsText(g)); }
    if m.p.scope == "" { KindAccepts(m, KScope, g => IsText(g)); }
  }

  ghost predicate AreDigits(s: string) { s != "" && forall i :: 0 <= i < |s| ==> '0' <= s[i] <= '9' }

  ghost predicate AreHex(s: string, n: nat) {
    |s| == n && forall i :: 0 <= i < n ==> '0' <= s[i] <= '9' || 'a' <= s[i] <= 'f'
  }

  ghost predicate IsHexGroups(s: string) {
    exists a, b, c, d, e :: JoinsHex(s, a, b, c, d, e)
  }

  ghost predicate JoinsHex(s: string, a: string, b: string, c: string, d: string, e: string) {
    && AreHex(a, 8) && AreHex(b, 4) && AreHex(c, 4) && AreHex(d, 4) && AreHex(e, 12)
    && s == a + "-" + b + "-" + c + "-" + d + "-" + e
  }

  lemma UuidIff(s: string)
    ensures IsUuid(s) <==> IsHexGroups(s)
  {
    if IsUuid(s) {
      assert JoinsHex(s, s[..8], s[9..13], s[14..18], s[19..23], s[24..]);
    }
    if a, b, c, d, e :| JoinsHex(s, a, b, c, d, e) {
    }
  }

  /** A character base64url encoding uses. */
  ghost predicate IsSextet(c: char) { exists n :: 0 <= n < 64 && Sextet(n) == c }

  ghost predicate IsEncoded(s: string) { s != "" && forall i :: 0 <= i < |s| ==> IsSextet(s[i]) }

  lemma SextetIff(c: char)
    ensures IsB64Char(c) <==> IsSextet(c)
  {
    if IsB64Char(c) {
      assert Sextet(Group(c)) == c;
    }
  }

  lemma EncodedIff(s: string)
    ensures IsB64Url(s) <==> IsEncoded(s)
  {
    hide IsB64Char, IsSextet;
    forall i | 0 <= i < |s| ensures IsB64Char(s[i]) <==> IsSextet(s[i]) {
      SextetIff(s[i]);
    }
  }

  ghost predicate IsMailbox(s: string, a: string, b: string) {
    && a != "" && b != "" && s == a + "@" + b
    && forall c :: c in a || c in b ==> c != '@' && c != ' ' && c != '\t' && c != '\n' && c != '\r' && c != 12 as char
  }

  lemma EmailIff(s: string)
    ensures IsEmail(s) <==> exists a, b :: IsMailbox(s, a, b)
  {
    if IsEmail(s) {
      var i :| 0 < i < |s| - 1 && IsEmailAt(s, i);
      assert s == s[..i] + "@" + s[i + 1..];
      assert IsMailbox(s, s[..i], s[i + 1..]);
    }
    if a, b :| IsMailbox(s, a, b) {
      forall j | 0 <= j < |s| && j != |a| ensures s[j] != '@' && !IsSpace(s[j]) {
        assert s[j] in a || s[j] in b;
      }
      assert IsEmailAt(s, |a|);
    }
  }

  ghost predicate IsThreeParts(s: string, a: string, b: string, c: string) {
    IsEncoded(a) && IsEncoded(b) && IsEncoded(c) && s == a + "." + b + "." + c
  }

  lemma JwsIff(s: string)
    ensures IsJws(s) <==> exists a, b, c :: IsThreeParts(s, a, b, c)
  {
    hide IsB64Char, IsEncoded;
    if IsJws(s) {
      var i, j :| 0 < i < j - 1 < |s| - 2 && IsJwsAt(s, i, j);
      var a, b, c := s[..i], s[i + 1..j], s[j + 1..];
      assert s == a + "." + b + "." + c;
      EncodedIff(a);
      EncodedIff(b);
      EncodedIff(c);
      assert IsThreeParts(s, a, b, c);
    }
    if a, b, c :| IsThreeParts(s, a, b, c) {
      EncodedIff(a);
      EncodedIff(b);
      EncodedIff(c);
      assert IsJwsAt(s, |a|, |a| + 1 + |b|);
    }
  }

  lemma AppSubIff(s: string)
    ensures IsAppSub(s) <==> exists d :: AreDigits(d) && s == "app:" + d
  {
    if IsAppSub(s) {
      assert s == "app:" + s[4..];
    }
    if d :| AreDigits(d) && s == "app:" + d {
      assert s[4..] == d;
    }
  }

  lemma Shapes(s: string)
    ensures IsUuid(s) <==> IsHexGroups(s)
    ensures IsB64Url(s) <==> IsEncoded(s)
    ensures IsEmail(s) <==> exists a, b :: IsMailbox(s, a, b)
    ensures IsJws(s) <==> exists a, b, c :: IsThreeParts(s, a, b, c)
    ensures IsAppSub(s) <==> exists d :: AreDigits(d) && s == "app:" + d
  {
    hide *;
    UuidIff(s);
    EncodedIff(s);
    EmailIff(s);
    JwsIff(s);
    AppSubIff(s);
  }

  ghost predicate IsSubject(g: Json) { g.Str? && AreDigits(g.s) }

  ghost predicate IsAppSubject(g: Json) { exists d :: AreDigits(d) && g == Str("app:" + d) }

  ghost predicate IsAddress(g: Json) { g.Str? && exists a, b :: IsMailbox(g.s, a, b) }

  ghost predicate IsId(g: Json) { g.Str? && IsHexGroups(g.s) }

  ghost predicate IsCode(g: Json) { g.Str? && IsEncoded(g.s) }

  ghost predicate IsThumbprint(g: Json) { g.Str? && |g.s| == 43 && IsEncoded(g.s) }

  ghost predicate IsCompact(g: Json) { g.Str? && exists a, b, c :: IsThreeParts(g.s, a, b, c) }

  lemma ShapesOfJson(g: Json)
    ensures IsSubject(g) <==> g.Str? && IsDecimal(g.s)
    ensures IsAppSubject(g) <==> g.Str? && IsAppSub(g.s)
    ensures IsAddress(g) <==> g.Str? && IsEmail(g.s)
    ensures IsId(g) <==> g.Str? && IsUuid(g.s)
    ensures IsCode(g) <==> g.Str? && IsB64Url(g.s)
    ensures IsThumbprint(g) <==> g.Str? && |g.s| == 43 && IsB64Url(g.s)
    ensures IsCompact(g) <==> g.Str? && IsJws(g.s)
  {
    if g.Str? {
      Shapes(g.s);
    }
    hide IsHexGroups, IsEncoded, IsMailbox, IsThreeParts, IsUuid, IsB64Url, IsEmail, IsJws, IsAppSub;
  }

  lemma AllShapes()
    ensures forall g :: IsSubject(g) <==> g.Str? && IsDecimal(g.s)
    ensures forall g :: IsAppSubject(g) <==> g.Str? && IsAppSub(g.s)
    ensures forall g :: IsAddress(g) <==> g.Str? && IsEmail(g.s)
    ensures forall g :: IsId(g) <==> g.Str? && IsUuid(g.s)
    ensures forall g :: IsCode(g) <==> g.Str? && IsB64Url(g.s)
    ensures forall g :: IsThumbprint(g) <==> g.Str? && |g.s| == 43 && IsB64Url(g.s)
    ensures forall g :: IsCompact(g) <==> g.Str? && IsJws(g.s)
  {
    hide *;
    forall g
      ensures IsSubject(g) <==> g.Str? && IsDecimal(g.s)
      ensures IsAppSubject(g) <==> g.Str? && IsAppSub(g.s)
      ensures IsAddress(g) <==> g.Str? && IsEmail(g.s)
      ensures IsId(g) <==> g.Str? && IsUuid(g.s)
      ensures IsCode(g) <==> g.Str? && IsB64Url(g.s)
      ensures IsThumbprint(g) <==> g.Str? && |g.s| == 43 && IsB64Url(g.s)
      ensures IsCompact(g) <==> g.Str? && IsJws(g.s)
    {
      ShapesOfJson(g);
    }
  }

  /** These refuse every text that lacks the shape. */
  lemma OpenShapes(m: Rules)
    ensures m.p.subject == "" ==> Accepts(m, "sub", g => IsSubject(g))
    ensures m.p.appId == 0 ==> Accepts(m, "app_sub", g => IsAppSubject(g))
    ensures m.p.email == "" ==> Accepts(m, "email", g => IsAddress(g))
    ensures m.p.tenantId == "" ==> Accepts(m, "tenant_id", g => IsId(g))
    ensures Accepts(m, "jti", g => IsId(g)) && Accepts(m, "kid", g => IsId(g))
  {
    AllShapes();
    hide Accepts, Decimal, IsDecimal, IsUuid, IsEmail, IsAppSub, IsSubject, IsAppSubject, IsAddress, IsId;
    if m.p.subject == "" { KindAccepts(m, KSub, g => IsSubject(g)); }
    if m.p.appId == 0 { KindAccepts(m, KAppSub, g => IsAppSubject(g)); }
    if m.p.email == "" { KindAccepts(m, KEmail, g => IsAddress(g)); }
    if m.p.tenantId == "" { KindAccepts(m, KTenantId, g => IsId(g)); }
    KindAccepts(m, KJti, g => IsId(g));
    KindAccepts(m, KKid, g => IsId(g));
  }

  lemma OpenEncodings(m: Rules)
    ensures Accepts(m, "at_hash", g => IsCode(g)) && Accepts(m, "n", g => IsCode(g))
    ensures m.p.jkt == "" ==> Accepts(m, "jkt", g => IsThumbprint(g))
  {
    AllShapes();
    hide Accepts, Decimal, IsB64Url, IsCode, IsThumbprint;
    KindAccepts(m, KAtHash, g => IsCode(g));
    KindAccepts(m, KModulus, g => IsCode(g));
    if m.p.jkt == "" { KindAccepts(m, KJkt, g => IsThumbprint(g)); }
  }

  lemma OpenTokens(m: Rules)
    ensures m.p.accessToken == "" ==> Accepts(m, "access_token", g => IsCompact(g))
    ensures m.p.refreshToken == "" ==> Accepts(m, "refresh_token", g => IsCompact(g))
    ensures m.p.idToken == "" ==> Accepts(m, "id_token", g => IsCompact(g))
  {
    AllShapes();
    hide Accepts, Decimal, IsJws, IsCompact;
    if m.p.accessToken == "" { KindAccepts(m, KAccessToken, g => IsCompact(g)); }
    if m.p.refreshToken == "" { KindAccepts(m, KRefreshToken, g => IsCompact(g)); }
    if m.p.idToken == "" { KindAccepts(m, KIdToken, g => IsCompact(g)); }
  }

  ghost predicate Counts(g: Json, n: nat) { n >= 1 && g == Num(n as real) }

  ghost predicate IsCount(g: Json) { exists n: nat :: Counts(g, n) }

  lemma IntegerIff(g: Json)
    ensures IntegerRule(g) <==> IsCount(g)
  {
    if IntegerRule(g) {
      assert Counts(g, g.n.Floor);
    }
  }

  lemma NumberAccepts(m: Rules, kind: Kind)
    requires IsTimeKind(kind) && (kind == KTokenVersion ==> m.p.tokenVersion <= 0)
    ensures Accepts(m, Name(kind), g => IsCount(g))
  {
    hide Accepts, IntegerRule, IsCount, Name;
    forall g ensures Satisfies(m.p, kind, "", g) <==> IsCount(g) {
      IntegerIff(g);
    }
    KindAccepts(m, kind, g => IsCount(g));
  }

  /** These refuse everything but whole numbers from one on. */
  lemma OpenNumbers(m: Rules)
    ensures Accepts(m, "iat", g => IsCount(g)) && Accepts(m, "nbf", g => IsCount(g))
    ensures Accepts(m, "exp", g => IsCount(g)) && Accepts(m, "refresh_exp", g => IsCount(g))
    ensures Accepts(m, "auth_time", g => IsCount(g)) && Accepts(m, "expires_in", g => IsCount(g))
    ensures m.p.tokenVersion <= 0 ==> Accepts(m, "token_version", g => IsCount(g))
  {
    hide Accepts, IsCount;
    NumberAccepts(m, KIat);
    NumberAccepts(m, KNbf);
    NumberAccepts(m, KAuthTime);
    NumberAccepts(m, KExp);
    NumberAccepts(m, KRefreshExp);
    NumberAccepts(m, KExpiresIn);
    if m.p.tokenVersion <= 0 { NumberAccepts(m, KTokenVersion); }
  }

  /** Any attribute but null, unless Params give one. */
  lemma OpenAttributes(m: Rules, path: string, arg: string, g: Json)
    requires IsArgument(arg) && (m.p.attributes.Some? ==> arg !in m.p.attributes.value)
    ensures Errors(m, path, TStr(MarkWith("attribute", arg)), g) == [] <==> g != Null
  {
    var s := MarkWith(Name(KAttribute), arg);
    ParseOfMark(KAttribute, arg);
    PlaceholderErrors(m, path, s, g);
    hide Errors, Parse, MarkWith;
  }

  /** Roles only, the given client among them with its given role. */
  ghost predicate IsRoleMap(p: Params, g: Json) {
    && g.Obj? && g.fields != map[] && (forall k :: k in g.fields ==> IsText(g.fields[k]))
    && (p.clientId != "" ==> p.clientId in g.fields)
    && (p.clientId != "" && p.role != "" ==> g.fields[p.clientId] == Str(p.role))
  }

  lemma OpenRoles(m: Rules)
    ensures Accepts(m, "app_roles", g => IsRoleMap(m.p, g))
  {
    hide Accepts, Decimal;
    KindAccepts(m, KAppRoles, g => IsRoleMap(m.p, g));
  }

  /** A literal that leaves the issuer open accepts itself and any text put in place of
      its first issuer. */
  lemma OpenLiterals(m: Rules, path: string, s: string, g: Json)
    requires Parse(s).Literal? && m.p.issuer == "" && Contains(s, ISSUER_TOKEN)
    ensures var i := Index(s, ISSUER_TOKEN);
      Errors(m, path, TStr(s), g) == [] <==>
      g.Str? && (g.s == s || exists x :: x != "" && g.s == s[..i] + x + s[i + |ISSUER_TOKEN|..])
  {
    hide Parse, Index, Satisfies;
    var i := Index(s, ISSUER_TOKEN);
    assert OccursAt(s, ISSUER_TOKEN, i);
    LiteralErrors(m, path, s, g);
    hide Errors;
    if g.Str? {
      FillsGap(g.s, s[..i], s[i + |ISSUER_TOKEN|..]);
    }
  }

  lemma LiteralErrors(m: Rules, path: string, s: string, g: Json)
    requires Parse(s).Literal?
    ensures Errors(m, path, TStr(s), g) == [] <==> g.Str? && LiteralMatches(m.p, s, g.s)
  {
    hide Parse, LiteralMatches, Satisfies;
  }

  lemma FillsGap(g: string, before: string, after: string)
    ensures before <= g && IsSuffix(after, g) && |g| > |before| + |after| <==>
      exists x :: x != "" && g == before + x + after
  {
    if before <= g && IsSuffix(after, g) && |g| > |before| + |after| {
      var x := g[|before|..|g| - |after|];
      assert g == before + x + after;
    }
    if x :| x != "" && g == before + x + after {
      assert g[|g| - |after|..] == after;
    }
  }

  /** An unknown name accepts nothing. */
  lemma UnknownAcceptsNothing(m: Rules, path: string, name: string, g: Json)
    requires IsName(name) && name != "" && KindOf(name) == KUnknown
    ensures Errors(m, path, TStr(Mark(name)), g) != []
  {
    ParseBare(name);
    hide Parse;
  }
}
