/** What a placeholder can resolve to, decided on two samples: a value is either fixed
    by the parameters or drawn at random, and no rule tells drawn texts apart unless it
    refuses one of two that differ at both ends. */
module Samples {
  import opened Text
  import opened Base64
  import opened Fixture
  import opened Resolver
  import opened Matcher

  predicate IsLeaf(t: Tmpl) {
    !t.TObj? && !t.TArr?
  }

  /** The value is drawn at random: Params do not give it. */
  predicate Varies(p: Params, kind: Kind) {
    match kind
    case KNonce => p.nonce == ""
    case KJti => true
    case KKid => !HasKid(p)
    case KAtHash => p.accessToken == ""
    case KJkt => p.jkt == ""
    case _ => false
  }

  function SampleByte(hi: bool): Byte {
    if hi then 255 else 0
  }

  function SampleText(n: nat, hi: bool): string {
    Encode(seq(n, _ => SampleByte(hi)))
  }

  function SampleUuid(hi: bool): string {
    seq(36, i => if i == 8 || i == 13 || i == 18 || i == 23 then '-' else if hi then 'f' else '0')
  }

  function SampleDrawn(r: Resolver, kind: Kind, hi: bool): string {
    match kind
    case KNonce => Or(r.p.nonce, SampleText(12, hi))
    case KKid => if HasKid(r.p) then r.p.keys[0].id else SampleUuid(hi)
    case KAtHash => if r.p.accessToken != "" then AtHash(r) else SampleText(16, hi)
    case KJkt => Or(r.p.jkt, SampleText(32, hi))
    case _ => SampleUuid(hi)
  }

  /** One value of a placeholder, and, where it varies, another. */
  function SampleValue(r: Resolver, kind: Kind, arg: string, hi: bool): Json {
    var p := r.p;
    match kind
    case KIssuer => Str(Or(p.issuer, DEFAULT_ISSUER))
    case KClientId => Str(Or(p.clientId, DEFAULT_CLIENT_ID))
    case KSub => Str(Or(p.subject, DEFAULT_SUBJECT))
    case KAppSub => Str("app:" + Decimal(if p.appId == 0 then DEFAULT_APP_ID else p.appId))
    case KRole => Str(Or(p.role, DEFAULT_ROLE))
    case KAppRoles => Obj(map[Or(p.clientId, DEFAULT_CLIENT_ID) := Str(Or(p.role, DEFAULT_ROLE))])
    case KEmail => Str(Or(p.email, DEFAULT_EMAIL))
    case KName => Str(Or(p.name, DEFAULT_NAME))
    case KTenantId => Str(Or(p.tenantId, DEFAULT_TENANT_ID))
    case KAttribute => if arg in Attributes(p) then Attributes(p)[arg] else Null
    case KScope => Str(Or(p.scope, arg))
    case KIat | KNbf => Num(Unix(r.now) as real)
    case KAuthTime => Num(Unix(AuthTime(r)) as real)
    case KExp => Num(Unix(r.now + Ttl(p)) as real)
    case KRefreshExp => Num(Unix(r.now + RefreshTtl(p)) as real)
    case KExpiresIn => Num((Ttl(p) / SECOND) as real)
    case KTokenVersion => Num((if p.tokenVersion > 0 then p.tokenVersion else 1) as real)
    case KAccessToken => Str(p.accessToken)
    case KRefreshToken => Str(p.refreshToken)
    case KIdToken => Str(p.idToken)
    case KNonce | KJti | KKid | KAtHash | KJkt => Str(SampleDrawn(r, kind, hi))
    case KModulus | KUnknown => Null
  }

  function Sample(r: Resolver, t: Tmpl, hi: bool): Json {
    match t
    case TBool(b) => Bool(b)
    case TNum(n) => Num(n)
    case TStr(s) =>
      (match Parse(s)
       case Literal => Str(ReplaceAll(s, ISSUER_TOKEN, Or(r.p.issuer, DEFAULT_ISSUER)))
       case Whole(kind, arg) => SampleValue(r, kind, arg, hi))
    case _ => Null
  }

  // ----- Samples are values -----

  lemma SampleIsRandom(n: nat, hi: bool)
    ensures IsRandom(SampleText(n, hi), n)
  {
    var b: seq<Byte> := seq(n, _ => SampleByte(hi));
    assert |b| == n && SampleText(n, hi) == Encode(b);
  }

  lemma SampleIsUuid(hi: bool)
    ensures IsUuid(SampleUuid(hi))
  {
  }

  lemma SampleIsDrawn(r: Resolver, kind: Kind, hi: bool)
    requires IsDrawn(kind)
    ensures DrawnIs(r, kind, SampleDrawn(r, kind, hi))
  {
    hide SampleText, SampleUuid, IsRandom, IsUuid, AtHash;
    match kind
    case KNonce => SampleIsRandom(12, hi);
    case KAtHash => SampleIsRandom(16, hi);
    case KJkt => SampleIsRandom(32, hi);
    case _ => SampleIsUuid(hi);
  }

  lemma SampleIsValue(r: Resolver, kind: Kind, arg: string, hi: bool)
    requires CanFill(r.p, kind, arg)
    ensures ValueIs(r, kind, arg, SampleValue(r, kind, arg, hi))
  {
    if IsDrawn(kind) {
      SampleIsDrawn(r, kind, hi);
    }
    hide DrawnIs, SampleDrawn, Decimal, Unix, Attributes;
  }

  lemma SampleResolves(r: Resolver, t: Tmpl, hi: bool)
    requires IsLeaf(t) && CanResolve(r.p, t)
    ensures Resolves(r, t, Sample(r, t, hi))
  {
    if t.TStr? && Parse(t.s).Whole? {
      SampleIsValue(r, Parse(t.s).kind, Parse(t.s).arg, hi);
    }
    hide ValueIs, SampleValue, Parse, CanFill;
  }

  // ----- A value that does not vary is its sample -----

  lemma FixedValue(r: Resolver, kind: Kind, arg: string, v: Json)
    requires ValueIs(r, kind, arg, v) && !Varies(r.p, kind)
    ensures v == SampleValue(r, kind, arg, false) == SampleValue(r, kind, arg, true)
  {
    hide IsRandom, AtHash, IsUuid, SampleText, SampleUuid, Decimal, Unix, Attributes;
  }

  predicate LeafVaries(p: Params, t: Tmpl) {
    t.TStr? && Parse(t.s).Whole? && Varies(p, Parse(t.s).kind)
  }

  lemma FixedLeaf(r: Resolver, t: Tmpl, v: Json)
    requires IsLeaf(t) && Resolves(r, t, v) && !LeafVaries(r.p, t)
    ensures v == Sample(r, t, false) == Sample(r, t, true)
  {
    if t.TStr? && Parse(t.s).Whole? {
      FixedValue(r, Parse(t.s).kind, Parse(t.s).arg, v);
    }
    hide ValueIs, SampleValue, Parse, Varies;
  }

  // ----- Texts that vary -----


  /** Two texts that differ at both ends. */
  ghost predicate FarApart(a: string, b: string) {
    a != "" && |a| == |b| && a[0] != b[0] && a[|a| - 1] != b[|b| - 1]
  }

  lemma EncodedShort(b: seq<Byte>, hi: bool)
    requires 0 < |b| <= 3 && forall i :: 0 <= i < |b| ==> b[i] == SampleByte(hi)
    ensures var s := Encode(b); |s| > 0 && s[0] == (if hi then '_' else 'A') && (s[|s| - 1] == 'A' <==> !hi)
  {
    if |b| == 3 {
      assert b[3..] == [];
    }
  }

  lemma {:induction false} EncodedEnds(b: seq<Byte>, hi: bool)
    requires |b| > 0 && forall i :: 0 <= i < |b| ==> b[i] == SampleByte(hi)
    ensures var s := Encode(b); |s| > 0 && s[0] == (if hi then '_' else 'A') && (s[|s| - 1] == 'A' <==> !hi)
    decreases |b|
  {
    if |b| <= 3 {
      EncodedShort(b, hi);
    } else {
      EncodedEnds(b[3..], hi);
      EncodedLonger(b);
      EncodedShort(b[..3], hi);
    }
  }

  lemma EncodedLonger(b: seq<Byte>)
    requires |b| > 3
    ensures var s, head, rest := Encode(b), Encode(b[..3]), Encode(b[3..]);
      |rest| > 0 && |head| > 0 && |s| > 0 && s[0] == head[0] && s[|s| - 1] == rest[|rest| - 1]
  {
    assert b[..3][3..] == [];
  }

  lemma SampleEnds(n: nat, hi: bool)
    requires n > 0
    ensures var s := SampleText(n, hi); |s| > 0 && s[0] == (if hi then '_' else 'A') && (s[|s| - 1] == 'A' <==> !hi)
    ensures |SampleText(n, hi)| == (4 * n + 2) / 3
  {
    EncodedEnds(seq(n, _ => SampleByte(hi)), hi);
  }

  lemma TextSamples(n: nat)
    requires n > 0
    ensures FarApart(SampleText(n, false), SampleText(n, true))
    ensures !IsDecimal(SampleText(n, false))
  {
    SampleEnds(n, false);
    SampleEnds(n, true);
    hide SampleText;
  }

  /** What all drawn texts of a kind share with its samples. */
  ghost predicate Shared(s: string, lo: string, hi: string) {
    && FarApart(lo, hi) && IsB64Url(lo) && IsB64Url(hi) && !IsDecimal(lo) && IsB64Url(s)
    && |s| == |lo| && (IsUuid(s) <==> IsUuid(lo))
  }

  lemma UuidShared(s: string)
    requires IsUuid(s)
    ensures Shared(s, SampleUuid(false), SampleUuid(true))
  {
    var lo, hi := SampleUuid(false), SampleUuid(true);
    assert lo[8] == '-';
  }

  lemma RandomShared(s: string, n: nat)
    requires IsRandom(s, n) && 0 < n && (4 * n + 2) / 3 != 36
    ensures Shared(s, SampleText(n, false), SampleText(n, true))
  {
    TextSamples(n);
    SampleIsRandom(n, false);
    SampleIsRandom(n, true);
    RandomShape(s, n);
    RandomShape(SampleText(n, false), n);
    RandomShape(SampleText(n, true), n);
    hide SampleText, IsB64Url, IsDecimal, FarApart, IsRandom;
  }

  lemma DrawnShared(r: Resolver, kind: Kind, s: string)
    requires Varies(r.p, kind) && DrawnIs(r, kind, s)
    ensures Shared(s, SampleDrawn(r, kind, false), SampleDrawn(r, kind, true))
  {
    hide Shared, IsRandom, IsUuid, SampleText, SampleUuid;
    match kind
    case KNonce => RandomShared(s, 12);
    case KAtHash => RandomShared(s, 16);
    case KJkt => RandomShared(s, 32);
    case KJti => UuidShared(s);
    case KKid => UuidShared(s);
  }

  // ----- Rules and literals cannot single out a drawn text -----

  lemma IssuerIsPlaceholder()
    ensures Parse(ISSUER_TOKEN).Whole?
  {
    var s: string := ISSUER_TOKEN;
    assert s[1..7] == [s[1], s[2], s[3], s[4], s[5], s[6]] == "issuer";
  }

  lemma LiteralRefusesOne(p: Params, w: string, lo: string, hi: string)
    requires Parse(w).Literal? && FarApart(lo, hi) && IsB64Url(lo) && IsB64Url(hi)
    ensures !(LiteralMatches(p, w, lo) && LiteralMatches(p, w, hi))
  {
    hide Parse, Index, IsB64Url;
    var i := Index(w, ISSUER_TOKEN);
    if i >= 0 && p.issuer == "" {
      OpenLiteral(w, i, lo);
      OpenLiteral(w, i, hi);
      var before, after := w[..i], w[i + |ISSUER_TOKEN|..];
      if before != "" {
        PrefixStarts(before, lo);
        PrefixStarts(before, hi);
      } else {
        SuffixEnds(after, lo);
        SuffixEnds(after, hi);
      }
    }
  }

  /** A literal that holds the issuer is longer than it, and no base64url text. */
  lemma OpenLiteral(w: string, i: nat, s: string)
    requires Parse(w).Literal? && OccursAt(w, ISSUER_TOKEN, i) && IsB64Url(s)
    ensures s != w && (i == 0 ==> w[i + |ISSUER_TOKEN|..] != "")
  {
    assert w[i..i + |ISSUER_TOKEN|][0] == w[i] == '<';
    IssuerIsPlaceholder();
    hide Parse;
    assert i == 0 ==> w == ISSUER_TOKEN + w[|ISSUER_TOKEN|..];
    assert ISSUER_TOKEN + "" == ISSUER_TOKEN;
  }

  lemma PrefixStarts(a: string, s: string)
    requires a != ""
    ensures a <= s ==> s != "" && s[0] == a[0]
  {
  }

  lemma SuffixEnds(a: string, s: string)
    requires a != ""
    ensures IsSuffix(a, s) ==> s != "" && s[|s| - 1] == a[|a| - 1]
  {
    if IsSuffix(a, s) {
      assert s[|s| - |a|..][|a| - 1] == s[|s| - 1];
    }
  }

  lemma PrefixAt(a: string, s: string, i: nat)
    requires i < |a|
    ensures a <= s ==> i < |s| && s[i] == a[i]
  {
  }

  lemma NoSpecialChars(s: string)
    requires IsB64Url(s)
    ensures !IsAppSub(s) && !IsEmail(s) && !IsJws(s)
  {
    var app: string := "app:";
    assert app[3] == ':';
    PrefixAt(app, s, 3);
  }

  /** A rule that takes both samples takes every text that looks like them. */
  lemma RuleTakesAll(p: Params, kind: Kind, arg: string, s: string, lo: string, hi: string)
    requires Shared(s, lo, hi) && Satisfies(p, kind, arg, Str(lo)) && Satisfies(p, kind, arg, Str(hi))
    ensures Satisfies(p, kind, arg, Str(s))
  {
    NoSpecialChars(lo);
    assert lo != hi && s != "";
    hide IsB64Url, IsUuid, IsDecimal, IsAppSub, IsEmail, IsJws, Decimal, FarApart;
  }

  /** A leaf that takes both samples of a varying value takes every value of it. */
  lemma LeafTakesAll(r: Resolver, m: Rules, path: string, kind: Kind, b: Tmpl, s: string)
    requires Varies(r.p, kind) && DrawnIs(r, kind, s) && IsLeaf(b)
    requires Conforms(m, path, b, Str(SampleDrawn(r, kind, false)))
    requires Conforms(m, path, b, Str(SampleDrawn(r, kind, true)))
    ensures Conforms(m, path, b, Str(s))
  {
    var lo, hi := SampleDrawn(r, kind, false), SampleDrawn(r, kind, true);
    DrawnShared(r, kind, s);
    hide SampleDrawn, DrawnIs, Varies, Satisfies, LiteralMatches;
    if b.TStr? && Parse(b.s).Literal? {
      LiteralRefusesOne(m.p, b.s, lo, hi);
    } else if b.TStr? {
      RuleTakesAll(m.p, Parse(b.s).kind, Parse(b.s).arg, s, lo, hi);
    }
  }

  lemma SamplesDiffer(r: Resolver, kind: Kind)
    requires Varies(r.p, kind)
    ensures var lo, hi := SampleDrawn(r, kind, false), SampleDrawn(r, kind, true); lo != hi && lo != "" && hi != ""
  {
    assert IsDrawn(kind);
    SampleIsDrawn(r, kind, false);
    DrawnShared(r, kind, SampleDrawn(r, kind, false));
    hide SampleDrawn, DrawnIs;
  }

  lemma DrawnIsText(r: Resolver, kind: Kind, s: string)
    requires Varies(r.p, kind) && DrawnIs(r, kind, s)
    ensures s != ""
  {
    DrawnShared(r, kind, s);
  }
}
