/** The generator and the checker undo each other: exactly when Match accepts
    what Load produced, for every template and all Params. */
module RoundTrip {
  import opened Text
  import opened Fixture
  import opened Resolver
  import opened Matcher
  import opened MatchLaws
  import opened Visits

  // ----- The exact condition -----

  /** The number a template resolves to, if it resolves to a number. */
  function NumberOf(r: Resolver, t: Tmpl): Option<real> {
    match t
    case TNum(n) => Some(n)
    case TStr(s) => (match Parse(s) case Literal => None case Whole(kind, arg) => NumberOfKind(r, kind, arg))
    case _ => None
  }

  function NumberOfKind(r: Resolver, kind: Kind, arg: string): Option<real> {
    match kind
    case KIat | KNbf => Some(Unix(r.now) as real)
    case KAuthTime => Some(Unix(AuthTime(r)) as real)
    case KExp => Some(Unix(r.now + Ttl(r.p)) as real)
    case KRefreshExp => Some(Unix(r.now + RefreshTtl(r.p)) as real)
    case KExpiresIn => Some((Ttl(r.p) / SECOND) as real)
    case KTokenVersion => Some((if r.p.tokenVersion > 0 then r.p.tokenVersion else 1) as real)
    case KAttribute => if arg in Attributes(r.p) then Number(Attributes(r.p)[arg]) else None
    case _ => None
  }

  function NumberAt(r: Resolver, e: map<string, Tmpl>, k: string): Option<real> {
    if k in e then NumberOf(r, e[k]) else None
  }

  /** What a placeholder needs of Params for its value to satisfy its own rule. */
  predicate LeafOk(r: Resolver, kind: Kind, arg: string) {
    var p := r.p;
    match kind
    case KScope => Or(p.scope, arg) != ""
    case KAttribute => arg in Attributes(p) && Attributes(p)[arg] != Null
    case KIat | KNbf => Unix(r.now) >= 1
    case KAuthTime => Unix(AuthTime(r)) >= 1
    case KExp => Unix(r.now + Ttl(p)) >= 1
    case KRefreshExp => Unix(r.now + RefreshTtl(p)) >= 1
    case KExpiresIn => Ttl(p) >= SECOND
    case KKid => HasKid(p) ==> IsUuid(p.keys[0].id)
    case KAccessToken => IsJws(p.accessToken)
    case KRefreshToken => IsJws(p.refreshToken)
    case KIdToken => IsJws(p.idToken)
    case _ => true
  }

  predicate AtMostOneIssuer(s: string) {
    var i := Index(s, ISSUER_TOKEN);
    i < 0 || !Contains(s[i + |ISSUER_TOKEN|..], ISSUER_TOKEN)
  }

  predicate LiteralOk(p: Params, s: string) { p.issuer != "" || AtMostOneIssuer(s) }

  /** The templates that survive the round trip under r. */
  predicate WellFormed(r: Resolver, t: Tmpl) {
    match t
    case TStr(s) => (match Parse(s) case Literal => LiteralOk(r.p, s) case Whole(kind, arg) => LeafOk(r, kind, arg))
    case TArr(items) =>
      var i := AudienceAt(items);
      (i < |items| ==> i == |items| - 1) && forall j :: 0 <= j < i ==> WellFormed(r, items[j])
    case TObj(entries) =>
      var e := Expected(Namespace(r.p), entries);
      (forall k :: k in e ==> WellFormed(r, e[k])) && TimesInOrder(NumberAt(r, e, "iat"), NumberAt(r, e, "exp"))
    case _ => true
  }

  // ----- Leaves -----

  lemma DefaultTenantIsUuid()
    ensures IsUuid(DEFAULT_TENANT_ID)
  {
  }

  lemma DefaultEmailIsEmail()
    ensures IsEmail(DEFAULT_EMAIL)
  {
    assert IsEmailAt(DEFAULT_EMAIL, 4);
  }

  /** A drawn value satisfies its rule: the lengths and shapes fit. */
  lemma DrawnRoundTrip(r: Resolver, kind: Kind, s: string, arg: string)
    requires IsDrawn(kind) && DrawnIs(r, kind, s)
    ensures Satisfies(r.p, kind, arg, Str(s)) <==> LeafOk(r, kind, arg)
  {
    AtHashShape(r);
    if kind == KNonce && r.p.nonce == "" {
      RandomShape(s, 12);
    } else if kind == KAtHash && r.p.accessToken == "" {
      RandomShape(s, 16);
    } else if kind == KJkt && r.p.jkt == "" {
      RandomShape(s, 32);
    }
    hide IsRandom, AtHash, IsB64Url, IsUuid;
  }

  predicate IsTimeKind(kind: Kind) {
    match kind
    case KIat | KNbf | KAuthTime | KExp | KRefreshExp | KExpiresIn | KTokenVersion => true
    case _ => false
  }

  lemma TimeRoundTrip(r: Resolver, kind: Kind, arg: string, out: Json)
    requires ValueIs(r, kind, arg, out) && IsTimeKind(kind)
    ensures Satisfies(r.p, kind, arg, out) <==> LeafOk(r, kind, arg)
  {
    hide DrawnIs, IsUuid, IsEmail, IsDecimal, IsB64Url, IsJws, Decimal, Attributes, IsAppSub;
  }

  lemma RolesRoundTrip(r: Resolver, arg: string, out: Json)
    requires ValueIs(r, KAppRoles, arg, out)
    ensures Satisfies(r.p, KAppRoles, arg, out)
  {
    assert Or(r.p.clientId, DEFAULT_CLIENT_ID) in out.fields;
  }

  lemma PlainRoundTrip(r: Resolver, kind: Kind, arg: string, out: Json)
    requires ValueIs(r, kind, arg, out) && !IsDrawn(kind) && !IsTimeKind(kind) && kind != KAppRoles
    ensures Satisfies(r.p, kind, arg, out) <==> LeafOk(r, kind, arg)
  {
    DefaultTenantIsUuid();
    DefaultEmailIsEmail();
    AppSubRoundTrip(if r.p.appId == 0 then DEFAULT_APP_ID else r.p.appId);
    hide DrawnIs, IsUuid, IsEmail, IsJws, Decimal, Unix, IsAppSub, IntegerRule;
  }

  lemma AppSubRoundTrip(id: nat)
    ensures IsAppSub("app:" + Decimal(id)) && "app:" + Decimal(id) != ""
  {
    assert ("app:" + Decimal(id))[4..] == Decimal(id);
  }

  lemma NumberOfValue(r: Resolver, kind: Kind, arg: string, out: Json)
    requires ValueIs(r, kind, arg, out)
    ensures Number(out) == NumberOfKind(r, kind, arg)
  {
    hide DrawnIs, Unix, Ttl, RefreshTtl, Attributes, Decimal;
  }

  /** What value returns satisfies its own rule exactly under LeafOk. */
  lemma LeafRoundTrip(r: Resolver, kind: Kind, arg: string, out: Json)
    requires ValueIs(r, kind, arg, out)
    ensures Satisfies(r.p, kind, arg, out) <==> LeafOk(r, kind, arg)
    ensures Number(out) == NumberOfKind(r, kind, arg)
  {
    NumberOfValue(r, kind, arg, out);
    if IsDrawn(kind) {
      DrawnRoundTrip(r, kind, out.s, arg);
    } else if IsTimeKind(kind) {
      TimeRoundTrip(r, kind, arg, out);
    } else if kind == KAppRoles {
      RolesRoundTrip(r, arg, out);
    } else {
      PlainRoundTrip(r, kind, arg, out);
    }
    hide Satisfies, LeafOk, DrawnIs, NumberOfKind;
  }

  /** Text d put between a and b takes part in no occurrence of pat, when pat
      starts with no character of d and lacks the first one. */
  lemma NoStraddle(a: string, d: string, b: string, pat: string, j: int)
    requires pat != "" && d != "" && pat[0] !in d && d[0] !in pat
    requires |a| - |pat| < j < |a| + |d|
    ensures !OccursAt(a + d + b, pat, j)
  {
    var g, k := a + d + b, if j >= |a| then 0 else |a| - j;
    if 0 <= j && j + |pat| <= |g| {
      assert g[j + k] == d[j + k - |a|] && pat[k] in pat;
      assert g[j..j + |pat|][k] == g[j + k];
    }
  }

  /** Texts that agree up to i have the same occurrences there. */
  lemma SamePrefix(s: string, g: string, pat: string, i: nat, j: nat)
    requires j + |pat| <= i <= |s| && i <= |g| && s[..i] == g[..i]
    ensures OccursAt(s, pat, j) <==> OccursAt(g, pat, j)
  {
    assert s[j..j + |pat|] == s[..i][j..j + |pat|] && g[j..j + |pat|] == g[..i][j..j + |pat|];
  }

  lemma IssuerDoesNotStraddle()
    ensures ISSUER_TOKEN[0] !in DEFAULT_ISSUER && DEFAULT_ISSUER[0] !in ISSUER_TOKEN
  {
  }

  /** Replacing every <issuer> by the default issuer leaves none behind. */
  lemma {:induction false} ReplacedHasNoToken(s: string, j: int)
    ensures !OccursAt(ReplaceAll(s, ISSUER_TOKEN, DEFAULT_ISSUER), ISSUER_TOKEN, j)
    decreases |s|
  {
    var i, n, d := Index(s, ISSUER_TOKEN), |ISSUER_TOKEN|, |DEFAULT_ISSUER|;
    if i >= 0 {
      var a, b := s[..i], ReplaceAll(s[i + n..], ISSUER_TOKEN, DEFAULT_ISSUER);
      var g := a + DEFAULT_ISSUER + b;
      if j >= i + d {
        ReplacedHasNoToken(s[i + n..], j - i - d);
        assert g[i + d..] == b;
        OccursShift(g, ISSUER_TOKEN, i + d, j);
      } else if j + n > i {
        IssuerDoesNotStraddle();
        NoStraddle(a, DEFAULT_ISSUER, b, ISSUER_TOKEN, j);
      } else if j >= 0 {
        assert g[..i] == a;
        SamePrefix(s, g, ISSUER_TOKEN, i, j);
      }
    }
  }

  /** A literal string is recognised after resolution, exactly when it is unambiguous. */
  lemma LiteralRoundTrip(p: Params, s: string)
    ensures LiteralMatches(p, s, ReplaceAll(s, ISSUER_TOKEN, Or(p.issuer, DEFAULT_ISSUER))) <==> LiteralOk(p, s)
  {
    if Index(s, ISSUER_TOKEN) >= 0 && p.issuer == "" {
      if AtMostOneIssuer(s) { OneIssuerIsRecognised(p, s); } else { TwoIssuersAreNot(p, s); }
    }
  }

  lemma OneIssuerIsRecognised(p: Params, s: string)
    requires p.issuer == "" && Contains(s, ISSUER_TOKEN) && AtMostOneIssuer(s)
    ensures LiteralMatches(p, s, ReplaceAll(s, ISSUER_TOKEN, DEFAULT_ISSUER))
  {
    var i := Index(s, ISSUER_TOKEN);
    var before, after := s[..i], s[i + |ISSUER_TOKEN|..];
    var g := ReplaceAll(s, ISSUER_TOKEN, DEFAULT_ISSUER);
    hide Index;
    assert ReplaceAll(after, ISSUER_TOKEN, DEFAULT_ISSUER) == after;
    assert g == before + DEFAULT_ISSUER + after;
    assert g[..i] == before && g[|g| - |after|..] == after;
  }

  lemma TwoIssuersAreNot(p: Params, s: string)
    requires p.issuer == "" && Contains(s, ISSUER_TOKEN) && !AtMostOneIssuer(s)
    ensures !LiteralMatches(p, s, ReplaceAll(s, ISSUER_TOKEN, DEFAULT_ISSUER))
  {
    hide ReplaceAll, Index, IsSuffix;
    var i := Index(s, ISSUER_TOKEN);
    assert i + |ISSUER_TOKEN| <= |s|;
    hide OccursAt;
    var after := s[i + |ISSUER_TOKEN|..];
    var g, k := ReplaceAll(s, ISSUER_TOKEN, DEFAULT_ISSUER), Index(after, ISSUER_TOKEN);
    ReplacedHasNoToken(s, i);
    ReplacedHasNoToken(s, |g| - |after| + k);
    if IsSuffix(after, g) {
      SuffixKeeps(after, g, ISSUER_TOKEN, k);
    }
  }

  lemma SuffixKeeps(after: string, g: string, pat: string, k: int)
    requires IsSuffix(after, g) && OccursAt(after, pat, k)
    ensures OccursAt(g, pat, |g| - |after| + k)
  {
    assert k >= 0;
    hide OccursAt;
    OccursShift(g, pat, |g| - |after|, |g| - |after| + k);
  }

  // ----- Trees -----

  function AudienceStrings(p: Params): seq<Json> {
    seq(|AudienceValues(p)|, j requires 0 <= j < |AudienceValues(p)| => Str(AudienceValues(p)[j]))
  }

  lemma ItemsStep(r: Resolver, items: seq<Tmpl>, outs: seq<Json>)
    requires ResolvesItems(r, items, outs)
    ensures items == [] ==> outs == [] && AudienceAt(items) == 0
    ensures items != [] && items[0] == AUDIENCE ==>
      AudienceAt(items) == 0 && (|items| == 1 ==> outs == AudienceStrings(r.p))
    ensures items != [] && items[0] != AUDIENCE ==>
      AudienceAt(items) == 1 + AudienceAt(items[1..]) && |outs| >= 1
      && Resolves(r, items[0], outs[0]) && ResolvesItems(r, items[1..], outs[1..])
  {
    hide Resolves;
    if |items| == 1 {
      assert items[1..] == [];
    }
  }

  /** Where the resolved elements of an array stand. */
  lemma {:induction false} ItemsShape(r: Resolver, items: seq<Tmpl>, outs: seq<Json>)
    requires ResolvesItems(r, items, outs)
    ensures var i := AudienceAt(items);
      && (i == |items| ==> |outs| == |items|)
      && |outs| >= i
      && (i == |items| - 1 ==> outs[i..] == AudienceStrings(r.p))
      && forall j :: 0 <= j < i ==> Resolves(r, items[j], outs[j])
  {
    hide *;
    ItemsStep(r, items, outs);
    var i := AudienceAt(items);
    if items == [] || items[0] == AUDIENCE {
      assert outs[0..] == outs;
    } else {
      ItemsShape(r, items[1..], outs[1..]);
      forall j | 0 <= j < i ensures Resolves(r, items[j], outs[j]) {
        if j > 0 {
          assert items[j] == items[1..][j - 1] && outs[j] == outs[1..][j - 1];
        }
      }
      assert outs[i..] == outs[1..][i - 1..];
    }
  }

  lemma AudiencesRoundTrip(p: Params)
    ensures AudiencesOk(p, AudienceStrings(p)) && AudienceStrings(p) != []
  {
  }

  lemma NumberResolves(r: Resolver, t: Tmpl, out: Json)
    requires Resolves(r, t, out)
    ensures Number(out) == NumberOf(r, t)
  {
    if t.TStr? && Parse(t.s).Whole? {
      LeafRoundTrip(r, Parse(t.s).kind, Parse(t.s).arg, out);
    }
  }

  /** The round trip: what resolve produces from t, match accepts for t, with the
      same Params, if and only if t is well-formed. */
  lemma {:induction false} RoundTrip(r: Resolver, path: string, t: Tmpl, out: Json)
    requires Resolves(r, t, out)
    ensures Errors(Rules(r.p, false), path, t, out) == [] <==> WellFormed(r, t)
  {
    hide *;
    TreeRoundTrip(r, path, t, out);
    NoErrorsIffConforms(Rules(r.p, false), path, t, out);
  }

  lemma {:induction false} TreeRoundTrip(r: Resolver, path: string, t: Tmpl, out: Json)
    requires Resolves(r, t, out)
    ensures Conforms(Rules(r.p, false), path, t, out) <==> WellFormed(r, t)
    decreases t, 1
  {
    match t {
      case TStr(s) =>
        match Parse(s) {
          case Literal => LiteralRoundTrip(r.p, s);
          case Whole(kind, arg) => LeafRoundTrip(r, kind, arg, out);
        }
      case TArr(items) => ArrayRoundTrip(r, path, t, out.items);
      case TObj(entries) => ObjectRoundTrip(r, path, t, out.fields);
      case _ =>
    }
  }

  lemma {:induction false} ArrayRoundTrip(r: Resolver, path: string, t: Tmpl, outs: seq<Json>)
    requires t.TArr? && ResolvesItems(r, t.items, outs)
    ensures ArrayConforms(Rules(r.p, false), path, t, outs) <==> WellFormed(r, t)
    decreases t, 0
  {
    hide *;
    var m, i := Rules(r.p, false), AudienceAt(t.items);
    ItemsShape(r, t.items, outs);
    ArrayConformsIs(m, path, t, outs);
    WellFormedArray(r, t);
    NotKeyList(m, path, t.items);
    forall j | 0 <= j < i ensures Conforms(m, Item(path, j), t.items[j], outs[j]) <==> WellFormed(r, t.items[j]) {
      TreeRoundTrip(r, Item(path, j), t.items[j], outs[j]);
    }
    AudiencesRoundTrip(r.p);
  }

  lemma WellFormedArray(r: Resolver, t: Tmpl)
    requires t.TArr?
    ensures var i := AudienceAt(t.items);
      WellFormed(r, t) <==>
      (i < |t.items| ==> i == |t.items| - 1) && forall j :: 0 <= j < i ==> WellFormed(r, t.items[j])
  {
  }

  lemma {:induction false} ObjectRoundTrip(r: Resolver, path: string, t: Tmpl, fields: map<string, Json>)
    requires t.TObj? && ResolvesFields(r, t.entries, fields)
    ensures ObjectConforms(Rules(r.p, false), path, t, fields) <==> WellFormed(r, t)
    decreases t, 0
  {
    hide *;
    var m := Rules(r.p, false);
    var e := Expected(Namespace(r.p), t.entries);
    FieldsShape(r, t.entries, fields);
    ObjectConformsIs(m, path, t, fields);
    WellFormedObject(r, t);
    forall k | k in e ensures Conforms(m, Join(path, k), e[k], fields[k]) <==> WellFormed(r, e[k]) {
      TreeRoundTrip(r, Join(path, k), e[k], fields[k]);
    }
    TimeResolves(r, t.entries, fields, "iat");
    TimeResolves(r, t.entries, fields, "exp");
  }

  lemma FieldsShape(r: Resolver, entries: seq<(string, Tmpl)>, fields: map<string, Json>)
    requires ResolvesFields(r, entries, fields)
    ensures var e := Expected(Namespace(r.p), entries);
      fields.Keys == e.Keys && forall k :: k in e ==> Resolves(r, e[k], fields[k])
  {
  }

  lemma WellFormedObject(r: Resolver, t: Tmpl)
    requires t.TObj?
    ensures var e := Expected(Namespace(r.p), t.entries);
      WellFormed(r, t) <==>
      (forall k :: k in e ==> WellFormed(r, e[k])) && TimesInOrder(NumberAt(r, e, "iat"), NumberAt(r, e, "exp"))
  {
  }

  lemma TimeResolves(r: Resolver, entries: seq<(string, Tmpl)>, fields: map<string, Json>, k: string)
    requires ResolvesFields(r, entries, fields)
    ensures Number(Lookup(fields, k)) == NumberAt(r, Expected(Namespace(r.p), entries), k)
  {
    hide Expected;
    hide Resolves;
    var e := Expected(Namespace(r.p), entries);
    if k in e {
      NumberResolves(r, e[k], fields[k]);
    }
  }

  /** The same, when the two runs visit the fixture's objects in different orders. */
  lemma RoundTripInAnyOrder(r: Resolver, path: string, t: Tmpl, u: Tmpl, out: Json)
    requires Resolves(r, t, out)
    requires Reordered(t, u) && Distinct(Namespace(r.p), t) && Distinct(Namespace(r.p), u)
    ensures Errors(Rules(r.p, false), path, u, out) == [] <==> WellFormed(r, t)
  {
    hide *;
    RoundTrip(r, path, t, out);
    OrderIndependent(Rules(r.p, false), path, t, u, out);
  }
}
