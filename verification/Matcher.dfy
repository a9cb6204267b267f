/** match.go: the checker that compares a document with a fixture, the errors it
    collects, and the declarative relation it decides. */
module Matcher {
  import opened Text
  import opened Fixture

  datatype Fault = Fault(path: string, what: What)

  datatype What =
    | WantObject | WantArray | WantString | Differs | Missing | NotInFixture | ExpNotAfterIat
    | NoKey | AudienceNotLast | TooFewEntries | WrongAudiences | WrongLength | BrokenRule | UnknownPlaceholder

  /** The matcher's configuration. */
  datatype Rules = Rules(p: Params, jwks: bool)

  function At(path: string, what: What): Fault { Fault(if path == "" then "(document)" else path, what) }

  function Join(path: string, key: string): string { if path == "" then key else path + "." + key }

  function Item(path: string, i: nat): string { path + "[" + Decimal(i) + "]" }

  // ----- Placeholder rules -----

  /** ^[^@\s]+@[^@\s]+$ */
  predicate IsEmail(s: string) {
    exists i :: 0 < i < |s| - 1 && IsEmailAt(s, i)
  }

  predicate IsEmailAt(s: string, i: nat)
    requires i < |s|
  {
    s[i] == '@' && forall j :: 0 <= j < |s| && j != i ==> s[j] != '@' && !IsSpace(s[j])
  }

  predicate IsSpace(c: char) { c == ' ' || c == '\t' || c == '\n' || c == '\r' || c == 12 as char }

  predicate IsAppSub(s: string) { "app:" <= s && IsDecimal(s[4..]) }

  /** A string that equals exact, or, with nothing to equal, has the given shape. */
  predicate StrRule(got: Json, exact: string, shape: string -> bool) {
    got.Str? && if exact != "" then got.s == exact else shape(got.s)
  }

  predicate IntegerRule(got: Json) {
    got.Num? && got.n == got.n.Floor as real && got.n >= 1.0
  }

  predicate TokenRule(got: Json, exact: string) {
    got.Str? && IsJws(got.s) && (exact != "" ==> got.s == exact)
  }

  /** math.Trunc: towards zero. */
  function Trunc(x: real): real {
    if x >= 0.0 then x.Floor as real else -((-x).Floor as real)
  }

  predicate IsStrKind(kind: Kind) {
    match kind
    case KIssuer | KClientId | KSub | KAppSub | KRole | KEmail | KName | KNonce | KTenantId => true
    case KJti | KKid | KAtHash | KModulus | KScope => true
    case _ => false
  }

  predicate RoleEntry(v: Json) { v.Str? && v.s != "" }

  /** The rule of each placeholder: got satisfies <kind:arg>. */
  predicate Satisfies(p: Params, kind: Kind, arg: string, got: Json) {
    match kind
    case KIssuer => StrRule(got, p.issuer, s => s != "")
    case KClientId => StrRule(got, p.clientId, s => s != "")
    case KSub => StrRule(got, p.subject, s => IsDecimal(s))
    case KAppSub => StrRule(got, if p.appId != 0 then "app:" + Decimal(p.appId) else "", s => IsAppSub(s))
    case KRole => StrRule(got, p.role, s => s != "")
    case KEmail => StrRule(got, p.email, s => IsEmail(s))
    case KName => StrRule(got, p.name, s => s != "")
    case KNonce => StrRule(got, p.nonce, s => s != "")
    case KTenantId => StrRule(got, p.tenantId, s => IsUuid(s))
    case KJti | KKid => got.Str? && IsUuid(got.s)
    case KAtHash | KModulus => got.Str? && IsB64Url(got.s)
    case KJkt => StrRule(got, p.jkt, s => |s| == 43 && IsB64Url(s))
    case KAccessToken => TokenRule(got, p.accessToken)
    case KRefreshToken => TokenRule(got, p.refreshToken)
    case KIdToken => TokenRule(got, p.idToken)
    case KScope => StrRule(got, Or(p.scope, arg), s => s != "")
    case KAttribute =>
      got != Null && (p.attributes.Some? && arg in p.attributes.value ==> got == p.attributes.value[arg])
    case KIat | KNbf | KAuthTime | KExp | KRefreshExp | KExpiresIn => IntegerRule(got)
    case KTokenVersion => if p.tokenVersion > 0 then got == Num(p.tokenVersion as real) else IntegerRule(got)
    case KAppRoles =>
      && got.Obj?
      && got.fields != map[]
      && (forall k :: k in got.fields ==> RoleEntry(got.fields[k]))
      && (p.clientId != "" ==> p.clientId in got.fields && (p.role != "" ==> got.fields[p.clientId] == Str(p.role)))
    case KUnknown => false
  }

  /** The errors rule appends. */
  ghost function RuleErrors(p: Params, path: string, kind: Kind, arg: string, got: Json): (r: seq<Fault>)
    ensures r == [] <==> Satisfies(p, kind, arg, got)
  {
    match kind
    case KAppRoles =>
      if !got.Obj? || got.fields == map[] then
        [At(path, BrokenRule)]
      else
        EntryErrors(path, got.fields, Sorted(got.fields.Keys)) +
        (if p.clientId == "" then []
         else if p.clientId !in got.fields then [At(path, BrokenRule)]
         else if p.role != "" && got.fields[p.clientId] != Str(p.role) then [At(Join(path, p.clientId), BrokenRule)]
         else [])
    case KUnknown => [At(path, UnknownPlaceholder)]
    case _ => if Satisfies(p, kind, arg, got) then [] else [At(path, BrokenRule)]
  }

  ghost function EntryErrors(path: string, fields: map<string, Json>, ks: seq<string>): (r: seq<Fault>)
    requires forall k :: k in ks ==> k in fields
    ensures r == [] <==> forall k :: k in ks ==> RoleEntry(fields[k])
  {
    if ks == [] then
      []
    else
      var k := ks[|ks| - 1];
      EntryErrors(path, fields, ks[..|ks| - 1]) + if RoleEntry(fields[k]) then [] else [At(Join(path, k), BrokenRule)]
  }

  // ----- The errors match collects -----

  /** The errors match appends. */
  ghost function Errors(m: Rules, path: string, w: Tmpl, g: Json): seq<Fault>
    decreases w, 1, 0
  {
    match w
    case TObj(_) => if g.Obj? then ObjectErrors(m, path, w, g.fields) else [At(path, WantObject)]
    case TArr(items) => if g.Arr? then ArrayErrors(m, path, w, g.items) else [At(path, WantArray)]
    case TStr(s) =>
      (match Parse(s)
       case Whole(kind, arg) => RuleErrors(m.p, path, kind, arg, g)
       case Literal =>
         if !g.Str? then [At(path, WantString)] else if LiteralMatches(m.p, s, g.s) then [] else [At(path, Differs)])
    case TBool(b) => if g == Bool(b) then [] else [At(path, Differs)]
    case TNum(n) => if g == Num(n) then [] else [At(path, Differs)]
    case TNull => if g == Null then [] else [At(path, Differs)]
  }

  /** A string with <issuer> inside stands for any issuer, unless one is given. */
  predicate LiteralMatches(p: Params, w: string, g: string) {
    var i := Index(w, ISSUER_TOKEN);
    if i < 0 then
      g == w
    else if p.issuer != "" then
      g == ReplaceAll(w, ISSUER_TOKEN, p.issuer)
    else
      var before, after := w[..i], w[i + |ISSUER_TOKEN|..];
      g == w || (before <= g && IsSuffix(after, g) && |g| > |before| + |after|)
  }

  predicate IsSuffix(a: string, s: string) { |a| <= |s| && s[|s| - |a|..] == a }

  ghost function ObjectErrors(m: Rules, path: string, w: Tmpl, g: map<string, Json>): seq<Fault>
    requires w.TObj?
    decreases w, 0, 1
  {
    var expected := Expected(Namespace(m.p), w.entries);
    KeyErrors(m, path, w, g, Sorted(expected.Keys)) +
    ExtraErrors(path, expected.Keys, Sorted(g.Keys)) +
    TimeErrors(path, g)
  }

  ghost function KeyErrors(m: Rules, path: string, w: Tmpl, g: map<string, Json>, ks: seq<string>): seq<Fault>
    requires w.TObj? && forall k :: k in ks ==> k in Expected(Namespace(m.p), w.entries)
    decreases w, 0, 0, |ks|
  {
    if ks == [] then
      []
    else
      var k := ks[|ks| - 1];
      KeyErrors(m, path, w, g, ks[..|ks| - 1]) +
      if k in g then Errors(m, Join(path, k), Expected(Namespace(m.p), w.entries)[k], g[k])
      else [At(Join(path, k), Missing)]
  }

  ghost function ExtraErrors(path: string, expected: set<string>, ks: seq<string>): (r: seq<Fault>)
    ensures r == [] <==> forall k :: k in ks ==> k in expected
  {
    if ks == [] then
      []
    else
      var k := ks[|ks| - 1];
      ExtraErrors(path, expected, ks[..|ks| - 1]) + if k in expected then [] else [At(Join(path, k), NotInFixture)]
  }

  predicate TimesInOrder(iat: Option<real>, exp: Option<real>) {
    iat.Some? && exp.Some? ==> exp.value > iat.value
  }

  function TimeErrors(path: string, g: map<string, Json>): seq<Fault> {
    if TimesInOrder(Number(Lookup(g, "iat")), Number(Lookup(g, "exp"))) then []
    else [At(Join(path, "exp"), ExpNotAfterIat)]
  }

  /** The position of the first <audience>, or the length. */
  function AudienceAt(items: seq<Tmpl>): (i: nat)
    ensures i <= |items|
    ensures i < |items| ==> items[i] == AUDIENCE
    ensures forall j :: 0 <= j < i ==> items[j] != AUDIENCE
  {
    if items == [] || items[0] == AUDIENCE then 0 else 1 + AudienceAt(items[1..])
  }

  /** The list of keys in a jwks document, where one template serves all elements. */
  predicate IsKeyList(m: Rules, path: string, items: seq<Tmpl>): (r: bool)
    ensures r ==> |items| == 1
  {
    m.jwks && path == "keys" && |items| == 1
  }

  ghost function ArrayErrors(m: Rules, path: string, w: Tmpl, g: seq<Json>): seq<Fault>
    requires w.TArr?
    decreases w, 0, 1
  {
    var items := w.items;
    var i := AudienceAt(items);
    if IsKeyList(m, path, items) then
      (if |g| == 0 then [At(path, NoKey)] else []) + EachErrors(m, path, w, g, |g|)
    else if i < |items| then
      if i != |items| - 1 then [At(path, AudienceNotLast)]
      else if |g| < i + 1 then [At(path, TooFewEntries)]
      else PairErrors(m, path, w, g, i) + AudienceErrors(m.p, path, i, g[i..])
    else if |g| != |items| then
      [At(path, WrongLength)]
    else
      PairErrors(m, path, w, g, |items|)
  }

  /** The first n elements against the single template. */
  ghost function EachErrors(m: Rules, path: string, w: Tmpl, g: seq<Json>, n: nat): seq<Fault>
    requires w.TArr? && |w.items| == 1 && n <= |g|
    decreases w, 0, 0, n
  {
    if n == 0 then [] else EachErrors(m, path, w, g, n - 1) + Errors(m, Item(path, n - 1), w.items[0], g[n - 1])
  }

  /** The first n elements, pairwise. */
  ghost function PairErrors(m: Rules, path: string, w: Tmpl, g: seq<Json>, n: nat): seq<Fault>
    requires w.TArr? && n <= |w.items| && n <= |g|
    decreases w, 0, 0, n
  {
    if n == 0 then [] else PairErrors(m, path, w, g, n - 1) + Errors(m, Item(path, n - 1), w.items[n - 1], g[n - 1])
  }

  ghost function AudienceErrors(p: Params, path: string, i: nat, rest: seq<Json>): (r: seq<Fault>)
    ensures r == [] <==> AudiencesOk(p, rest)
  {
    if p.audiences != [] && |rest| != |p.audiences| then [At(path, WrongAudiences)]
    else AudienceErrorsUpTo(p, path, i, rest, |rest|)
  }

  ghost function AudienceErrorsUpTo(p: Params, path: string, i: nat, rest: seq<Json>, n: nat): (r: seq<Fault>)
    requires n <= |rest|
    ensures r == [] <==> forall k :: 0 <= k < n ==> AudienceOk(p, k, rest[k])
  {
    if n == 0 then
      []
    else
      AudienceErrorsUpTo(p, path, i, rest, n - 1) +
      if AudienceOk(p, n - 1, rest[n - 1]) then [] else [At(Item(path, i + n - 1), BrokenRule)]
  }

  predicate AudienceOk(p: Params, j: nat, v: Json) {
    if j < |p.audiences| then StringOr(v) == p.audiences[j] else v.Str? && v.s != ""
  }

  /** A failed type assertion to string yields the empty string. */
  function StringOr(v: Json): string { if v.Str? then v.s else "" }

  predicate AudiencesOk(p: Params, rest: seq<Json>) {
    && (p.audiences != [] ==> |rest| == |p.audiences|)
    && forall j :: 0 <= j < |rest| ==> AudienceOk(p, j, rest[j])
  }

  // ----- The declarative relation -----

  /** The document g conforms to the fixture w: same keys, same lengths, equal
      literals, satisfied placeholders, at every depth. */
  ghost predicate Conforms(m: Rules, path: string, w: Tmpl, g: Json)
    decreases w, 1
  {
    match w
    case TObj(_) => g.Obj? && ObjectConforms(m, path, w, g.fields)
    case TArr(_) => g.Arr? && ArrayConforms(m, path, w, g.items)
    case TStr(s) =>
      (match Parse(s)
       case Whole(kind, arg) => Satisfies(m.p, kind, arg, g)
       case Literal => g.Str? && LiteralMatches(m.p, s, g.s))
    case TBool(b) => g == Bool(b)
    case TNum(n) => g == Num(n)
    case TNull => g == Null
  }

  ghost predicate ObjectConforms(m: Rules, path: string, w: Tmpl, g: map<string, Json>)
    requires w.TObj?
    decreases w, 0
  {
    var e := Expected(Namespace(m.p), w.entries);
    && g.Keys == e.Keys
    && (forall k :: k in e ==> k in g && Conforms(m, Join(path, k), e[k], g[k]))
    && TimesInOrder(Number(Lookup(g, "iat")), Number(Lookup(g, "exp")))
  }

  ghost predicate ArrayConforms(m: Rules, path: string, w: Tmpl, g: seq<Json>)
    requires w.TArr?
    decreases w, 0
  {
    var items, i := w.items, AudienceAt(w.items);
    if IsKeyList(m, path, items) then
      g != [] && forall j :: 0 <= j < |g| ==> Conforms(m, Item(path, j), items[0], g[j])
    else if i < |items| then
      && i == |items| - 1
      && |g| > i
      && (forall j :: 0 <= j < i ==> Conforms(m, Item(path, j), items[j], g[j]))
      && AudiencesOk(m.p, g[i..])
    else
      && |g| == |items|
      && forall j :: 0 <= j < |items| ==> Conforms(m, Item(path, j), items[j], g[j])
  }

  /** Match reports no error exactly on the conforming documents. */
  lemma {:induction false} NoErrorsIffConforms(m: Rules, path: string, w: Tmpl, g: Json)
    ensures Errors(m, path, w, g) == [] <==> Conforms(m, path, w, g)
    decreases w
  {
    hide ObjectErrors, ArrayErrors, ObjectConforms, ArrayConforms, RuleErrors, Satisfies, LiteralMatches, Parse;
    match w {
      case TObj(entries) =>
        if g.Obj? { ObjectNoErrors(m, path, w, g.fields); }
      case TArr(items) =>
        if g.Arr? { ArrayNoErrors(m, path, w, g.items); }
      case _ =>
    }
  }

  lemma {:induction false} ObjectNoErrors(m: Rules, path: string, w: Tmpl, g: map<string, Json>)
    requires w.TObj?
    ensures ObjectErrors(m, path, w, g) == [] <==> ObjectConforms(m, path, w, g)
    decreases w, 0
  {
    hide *;
    var e := Expected(Namespace(m.p), w.entries);
    KeyNoErrors(m, path, w, g, Sorted(e.Keys));
    ObjectErrorsSplit(m, path, w, g);
    ObjectConformsIs(m, path, w, g);
    assert ExtraErrors(path, e.Keys, Sorted(g.Keys)) == [] <==> g.Keys <= e.Keys;
    assert (forall k :: k in e ==> k in g) <==> e.Keys <= g.Keys;
  }

  lemma ObjectErrorsSplit(m: Rules, path: string, w: Tmpl, g: map<string, Json>)
    requires w.TObj?
    ensures var e := Expected(Namespace(m.p), w.entries);
      ObjectErrors(m, path, w, g) == [] <==>
      && KeyErrors(m, path, w, g, Sorted(e.Keys)) == []
      && ExtraErrors(path, e.Keys, Sorted(g.Keys)) == []
      && TimesInOrder(Number(Lookup(g, "iat")), Number(Lookup(g, "exp")))
  {
  }

  lemma ObjectConformsIs(m: Rules, path: string, w: Tmpl, g: map<string, Json>)
    requires w.TObj?
    ensures var e := Expected(Namespace(m.p), w.entries);
      ObjectConforms(m, path, w, g) <==>
      && g.Keys == e.Keys
      && (forall k :: k in e ==> k in g && Conforms(m, Join(path, k), e[k], g[k]))
      && TimesInOrder(Number(Lookup(g, "iat")), Number(Lookup(g, "exp")))
  {
  }

  lemma {:induction false} KeyNoErrors(m: Rules, path: string, w: Tmpl, g: map<string, Json>, ks: seq<string>)
    requires w.TObj? && forall k :: k in ks ==> k in Expected(Namespace(m.p), w.entries)
    ensures KeyErrors(m, path, w, g, ks) == [] <==>
      forall k :: k in ks ==> k in g && Conforms(m, Join(path, k), Expected(Namespace(m.p), w.entries)[k], g[k])
    decreases w, 0, |ks|
  {
    hide *;
    if ks == [] {
      KeyErrorsStep(m, path, w, g, [], "");
    } else {
      var k, front := ks[|ks| - 1], ks[..|ks| - 1];
      var e := Expected(Namespace(m.p), w.entries);
      if k in g { NoErrorsIffConforms(m, Join(path, k), e[k], g[k]); }
      KeyNoErrors(m, path, w, g, front);
      KeyErrorsStep(m, path, w, g, front, k);
      assert ks == front + [k];
      assert forall x :: x in ks <==> x == k || x in front;
    }
  }

  lemma {:induction false} ArrayNoErrors(m: Rules, path: string, w: Tmpl, g: seq<Json>)
    requires w.TArr?
    ensures ArrayErrors(m, path, w, g) == [] <==> ArrayConforms(m, path, w, g)
    decreases w, 0
  {
    hide *;
    ArrayErrorsAre(m, path, w, g);
    ArrayConformsIs(m, path, w, g);
    var i := AudienceAt(w.items);
    if IsKeyList(m, path, w.items) {
      EachNoErrors(m, path, w, g, |g|);
    } else if i < |w.items| {
      if i == |w.items| - 1 && |g| > i { PairNoErrors(m, path, w, g, i); }
    } else if |g| == |w.items| {
      PairNoErrors(m, path, w, g, |g|);
    }
  }

  lemma ArrayConformsIs(m: Rules, path: string, w: Tmpl, g: seq<Json>)
    requires w.TArr?
    ensures var items, i := w.items, AudienceAt(w.items);
      ArrayConforms(m, path, w, g) <==>
      if IsKeyList(m, path, items) then
        g != [] && forall j :: 0 <= j < |g| ==> Conforms(m, Item(path, j), items[0], g[j])
      else if i < |items| then
        && i == |items| - 1 && |g| > i && AudiencesOk(m.p, g[i..])
        && forall j :: 0 <= j < i ==> Conforms(m, Item(path, j), items[j], g[j])
      else
        |g| == |items| && forall j :: 0 <= j < |items| ==> Conforms(m, Item(path, j), items[j], g[j])
  {
  }

  lemma {:induction false} EachNoErrors(m: Rules, path: string, w: Tmpl, g: seq<Json>, n: nat)
    requires w.TArr? && |w.items| == 1 && n <= |g|
    ensures EachErrors(m, path, w, g, n) == [] <==>
      forall j :: 0 <= j < n ==> Conforms(m, Item(path, j), w.items[0], g[j])
    decreases w, 0, n
  {
    hide *;
    EachErrorsStep(m, path, w, g, n);
    if n > 0 {
      NoErrorsIffConforms(m, Item(path, n - 1), w.items[0], g[n - 1]);
      EachNoErrors(m, path, w, g, n - 1);
    }
  }

  lemma {:induction false} PairNoErrors(m: Rules, path: string, w: Tmpl, g: seq<Json>, n: nat)
    requires w.TArr? && n <= |w.items| && n <= |g|
    ensures PairErrors(m, path, w, g, n) == [] <==>
      forall j :: 0 <= j < n ==> Conforms(m, Item(path, j), w.items[j], g[j])
    decreases w, 0, n
  {
    hide *;
    PairErrorsStep(m, path, w, g, n);
    if n > 0 {
      NoErrorsIffConforms(m, Item(path, n - 1), w.items[n - 1], g[n - 1]);
      PairNoErrors(m, path, w, g, n - 1);
    }
  }

  // ----- The checker -----

  /** A matcher: it walks the document and appends what it finds. */
  class Checker {
    const m: Rules
    var errs: seq<Fault>

    constructor (m: Rules)
      ensures this.m == m && errs == []
    {
      this.m := m;
      errs := [];
    }

    method Fail(path: string, what: What)
      modifies this`errs
      ensures errs == old(errs) + [At(path, what)]
    {
      errs := errs + [At(path, what)];
    }

    method Match(path: string, w: Tmpl, g: Json)
      modifies this`errs
      ensures errs == old(errs) + Errors(m, path, w, g)
      decreases w, 1
    {
      hide ObjectErrors, ArrayErrors, RuleErrors, Satisfies, LiteralMatches, Parse;
      match w {
        case TObj(_) => if g.Obj? { MatchObject(path, w, g.fields); } else { Fail(path, WantObject); }
        case TArr(_) => if g.Arr? { MatchArray(path, w, g.items); } else { Fail(path, WantArray); }
        case TStr(s) =>
          match Parse(s) {
            case Whole(kind, arg) => Rule(path, kind, arg, g);
            case Literal =>
              if !g.Str? {
                Fail(path, WantString);
              } else if !LiteralMatches(m.p, s, g.s) {
                Fail(path, Differs);
              }
          }
        case TBool(b) => if g != Bool(b) { Fail(path, Differs); }
        case TNum(n) => if g != Num(n) { Fail(path, Differs); }
        case TNull => if g != Null { Fail(path, Differs); }
      }
    }

    method MatchObject(path: string, w: Tmpl, g: map<string, Json>)
      requires w.TObj?
      modifies this`errs
      ensures errs == old(errs) + ObjectErrors(m, path, w, g)
      decreases w, 0
    {
      hide *;
      var expected := BuildExpected(Namespace(m.p), w.entries);
      var ks := SortKeys(expected.Keys);
      MatchKeys(path, w, g, ks);
      var gs := SortKeys(g.Keys);
      FindExtras(path, expected.Keys, gs);
      if !TimesInOrder(Number(Lookup(g, "iat")), Number(Lookup(g, "exp"))) {
        Fail(Join(path, "exp"), ExpNotAfterIat);
      }
      ObjectErrorsAre(m, path, w, g);
    }

    method MatchKeys(path: string, w: Tmpl, g: map<string, Json>, ks: seq<string>)
      requires w.TObj? && forall k :: k in ks ==> k in Expected(Namespace(m.p), w.entries)
      modifies this`errs
      ensures errs == old(errs) + KeyErrors(m, path, w, g, ks)
      decreases w, 0, 0
    {
      hide *;
      var expected := Expected(Namespace(m.p), w.entries);
      KeyErrorsStep(m, path, w, g, [], "");
      var i := 0;
      while i < |ks|
        invariant 0 <= i <= |ks|
        invariant errs == old(errs) + KeyErrors(m, path, w, g, ks[..i])
      {
        var k := ks[i];
        KeyErrorsStep(m, path, w, g, ks[..i], k);
        assert ks[..i + 1] == ks[..i] + [k];
        if k in g {
          Match(Join(path, k), expected[k], g[k]);
        } else {
          Fail(Join(path, k), Missing);
        }
        i := i + 1;
      }
      assert ks[..i] == ks;
    }

    method FindExtras(path: string, expected: set<string>, ks: seq<string>)
      modifies this`errs
      ensures errs == old(errs) + ExtraErrors(path, expected, ks)
    {
      hide *;
      ExtraErrorsStep(path, expected, [], "");
      for i := 0 to |ks|
        invariant errs == old(errs) + ExtraErrors(path, expected, ks[..i])
      {
        ExtraErrorsStep(path, expected, ks[..i], ks[i]);
        assert ks[..i + 1] == ks[..i] + [ks[i]];
        if ks[i] !in expected {
          Fail(Join(path, ks[i]), NotInFixture);
        }
      }
      assert ks[..|ks|] == ks;
    }

    method MatchArray(path: string, w: Tmpl, g: seq<Json>)
      requires w.TArr?
      modifies this`errs
      ensures errs == old(errs) + ArrayErrors(m, path, w, g)
      decreases w, 0
    {
      hide *;
      ArrayErrorsAre(m, path, w, g);
      var items := w.items;
      if IsKeyList(m, path, items) {
        if |g| == 0 { Fail(path, NoKey); }
        MatchEach(path, w, g);
        return;
      }
      var i := 0;
      while i < |items| && items[i] != AUDIENCE
        invariant 0 <= i <= |items|
        invariant forall j :: 0 <= j < i ==> items[j] != AUDIENCE
      {
        i := i + 1;
      }
      AudienceAtIs(items, i);
      if i < |items| {
        if i != |items| - 1 { Fail(path, AudienceNotLast); return; }
        if |g| < i + 1 { Fail(path, TooFewEntries); return; }
        MatchPairs(path, w, g, i);
        MatchAudiences(path, i, g[i..]);
        return;
      }
      if |g| != |items| { Fail(path, WrongLength); return; }
      MatchPairs(path, w, g, |items|);
    }

    method MatchEach(path: string, w: Tmpl, g: seq<Json>)
      requires w.TArr? && |w.items| == 1
      modifies this`errs
      ensures errs == old(errs) + EachErrors(m, path, w, g, |g|)
      decreases w, 0, 0
    {
      hide *;
      EachErrorsStep(m, path, w, g, 0);
      for i := 0 to |g|
        invariant errs == old(errs) + EachErrors(m, path, w, g, i)
      {
        EachErrorsStep(m, path, w, g, i + 1);
        Match(Item(path, i), w.items[0], g[i]);
      }
    }

    method MatchPairs(path: string, w: Tmpl, g: seq<Json>, n: nat)
      requires w.TArr? && n <= |w.items| && n <= |g|
      modifies this`errs
      ensures errs == old(errs) + PairErrors(m, path, w, g, n)
      decreases w, 0, 0
    {
      hide *;
      PairErrorsStep(m, path, w, g, 0);
      for i := 0 to n
        invariant errs == old(errs) + PairErrors(m, path, w, g, i)
      {
        PairErrorsStep(m, path, w, g, i + 1);
        Match(Item(path, i), w.items[i], g[i]);
      }
    }

    method MatchAudiences(path: string, i: nat, rest: seq<Json>)
      modifies this`errs
      ensures errs == old(errs) + AudienceErrors(m.p, path, i, rest)
    {
      if m.p.audiences != [] && |rest| != |m.p.audiences| {
        Fail(path, WrongAudiences);
      } else {
        MatchRest(path, i, rest);
      }
    }

    method MatchRest(path: string, i: nat, rest: seq<Json>)
      modifies this`errs
      ensures errs == old(errs) + AudienceErrorsUpTo(m.p, path, i, rest, |rest|)
    {
      hide *;
      AudienceErrorsStep(m.p, path, i, rest, 0);
      for j := 0 to |rest|
        invariant errs == old(errs) + AudienceErrorsUpTo(m.p, path, i, rest, j)
      {
        AudienceErrorsStep(m.p, path, i, rest, j + 1);
        if !AudienceOk(m.p, j, rest[j]) {
          Fail(Item(path, i + j), BrokenRule);
        }
      }
    }

    /** A string that equals exact, or, with nothing to equal, has the given shape, or,
        with no shape either, is not empty. */
    method WantStr(path: string, got: Json, shape: Option<string -> bool>, exact: string)
      modifies this`errs
      ensures errs == old(errs) + if StrRule(got, exact, s => if shape.Some? then shape.value(s) else s != "")
        then [] else [At(path, BrokenRule)]
    {
      if !got.Str? {
        Fail(path, BrokenRule);
      } else if exact != "" && got.s != exact {
        Fail(path, BrokenRule);
      } else if exact == "" && shape.Some? && !shape.value(got.s) {
        Fail(path, BrokenRule);
      } else if exact == "" && shape.None? && got.s == "" {
        Fail(path, BrokenRule);
      }
    }

    method WantInteger(path: string, got: Json)
      modifies this`errs
      ensures errs == old(errs) + if IntegerRule(got) then [] else [At(path, BrokenRule)]
    {
      var n := Number(got);
      if n.None? || n.value != Trunc(n.value) || n.value < 1.0 {
        Fail(path, BrokenRule);
      }
    }

    method WantToken(path: string, got: Json, exact: string)
      modifies this`errs
      ensures errs == old(errs) + if TokenRule(got, exact) then [] else [At(path, BrokenRule)]
    {
      if !got.Str? || !IsJws(got.s) {
        Fail(path, BrokenRule);
      } else if exact != "" && got.s != exact {
        Fail(path, BrokenRule);
      }
    }

    method Rule(path: string, kind: Kind, arg: string, got: Json)
      modifies this`errs
      ensures errs == old(errs) + RuleErrors(m.p, path, kind, arg, got)
    {
      hide Sorted;
      match kind {
        case KAppRoles => RuleAppRoles(path, arg, got);
        case KUnknown => Fail(path, UnknownPlaceholder);
        case KIat | KNbf | KAuthTime | KExp | KRefreshExp | KExpiresIn => WantInteger(path, got);
        case KTokenVersion | KAttribute | KJkt => RuleOther(path, kind, arg, got);
        case KAccessToken => WantToken(path, got, m.p.accessToken);
        case KRefreshToken => WantToken(path, got, m.p.refreshToken);
        case KIdToken => WantToken(path, got, m.p.idToken);
        case _ => RuleStr(path, kind, arg, got);
      }
    }

    /** The placeholders that stand for strings. */
    method RuleStr(path: string, kind: Kind, arg: string, got: Json)
      requires IsStrKind(kind)
      modifies this`errs
      ensures errs == old(errs) + if Satisfies(m.p, kind, arg, got) then [] else [At(path, BrokenRule)]
    {
      var p := m.p;
      match kind {
        case KIssuer => WantStr(path, got, None, p.issuer);
        case KClientId => WantStr(path, got, None, p.clientId);
        case KSub => WantStr(path, got, Some(s => IsDecimal(s)), p.subject);
        case KAppSub =>
          var exact := "";
          if p.appId != 0 {
            exact := "app:" + Decimal(p.appId);
          }
          WantStr(path, got, Some(s => IsAppSub(s)), exact);
        case KRole => WantStr(path, got, None, p.role);
        case KEmail => WantStr(path, got, Some(s => IsEmail(s)), p.email);
        case KName => WantStr(path, got, None, p.name);
        case KNonce => WantStr(path, got, None, p.nonce);
        case KTenantId => WantStr(path, got, Some(s => IsUuid(s)), p.tenantId);
        case KJti | KKid => WantStr(path, got, Some(s => IsUuid(s)), "");
        case KAtHash | KModulus => WantStr(path, got, Some(s => IsB64Url(s)), "");
        case KScope => WantStr(path, got, None, Or(p.scope, arg));
      }
    }

    method RuleOther(path: string, kind: Kind, arg: string, got: Json)
      requires kind == KTokenVersion || kind == KAttribute || kind == KJkt
      modifies this`errs
      ensures errs == old(errs) + if Satisfies(m.p, kind, arg, got) then [] else [At(path, BrokenRule)]
    {
      var p := m.p;
      if kind == KJkt {
        if p.jkt != "" {
          WantStr(path, got, None, p.jkt);
        } else if !got.Str? || |got.s| != 43 || !IsB64Url(got.s) {
          Fail(path, BrokenRule);
        }
      } else if kind == KAttribute {
        if got == Null {
          Fail(path, BrokenRule);
        } else if p.attributes.Some? && arg in p.attributes.value && p.attributes.value[arg] != got {
          Fail(path, BrokenRule);
        }
      } else if p.tokenVersion > 0 {
        var n := Number(got);
        if n.None? || n.value != p.tokenVersion as real {
          Fail(path, BrokenRule);
        }
      } else {
        WantInteger(path, got);
      }
    }

    method MatchEntries(path: string, fields: map<string, Json>, ks: seq<string>)
      requires forall k :: k in ks ==> k in fields
      modifies this`errs
      ensures errs == old(errs) + EntryErrors(path, fields, ks)
    {
      for i := 0 to |ks|
        invariant errs == old(errs) + EntryErrors(path, fields, ks[..i])
      {
        assert ks[..i + 1][..i] == ks[..i];
        if !RoleEntry(fields[ks[i]]) {
          Fail(Join(path, ks[i]), BrokenRule);
        }
      }
      assert ks[..|ks|] == ks;
    }

    method RuleAppRoles(path: string, arg: string, got: Json)
      modifies this`errs
      ensures errs == old(errs) + RuleErrors(m.p, path, KAppRoles, arg, got)
    {
      hide *;
      AppRolesErrorsAre(m.p, path, arg, got);
      if !got.Obj? || got.fields == map[] {
        Fail(path, BrokenRule);
        return;
      }
      var ks := SortKeys(got.fields.Keys);
      MatchEntries(path, got.fields, ks);
      if m.p.clientId != "" {
        if m.p.clientId !in got.fields {
          Fail(path, BrokenRule);
        } else if m.p.role != "" && got.fields[m.p.clientId] != Str(m.p.role) {
          Fail(Join(path, m.p.clientId), BrokenRule);
        }
      }
    }
  }

  method BuildExpected(ns: string, entries: seq<(string, Tmpl)>) returns (expected: map<string, Tmpl>)
    ensures expected == Expected(ns, entries)
  {
    expected := map[];
    var i := 0;
    while i < |entries|
      invariant 0 <= i <= |entries|
      invariant expected == Expected(ns, entries[..i])
    {
      assert entries[..i + 1][..i] == entries[..i];
      expected := expected[Rename(ns, entries[i].0) := entries[i].1];
      i := i + 1;
    }
    assert entries[..i] == entries;
  }

  // The defining equations the loops use.

  lemma AppRolesErrorsAre(p: Params, path: string, arg: string, got: Json)
    ensures RuleErrors(p, path, KAppRoles, arg, got) ==
      if !got.Obj? || got.fields == map[] then
        [At(path, BrokenRule)]
      else
        EntryErrors(path, got.fields, Sorted(got.fields.Keys)) +
        (if p.clientId == "" then []
         else if p.clientId !in got.fields then [At(path, BrokenRule)]
         else if p.role != "" && got.fields[p.clientId] != Str(p.role) then [At(Join(path, p.clientId), BrokenRule)]
         else [])
  {
  }

  lemma ObjectErrorsAre(m: Rules, path: string, w: Tmpl, g: map<string, Json>)
    requires w.TObj?
    ensures var e := Expected(Namespace(m.p), w.entries);
      ObjectErrors(m, path, w, g) ==
      KeyErrors(m, path, w, g, Sorted(e.Keys)) + ExtraErrors(path, e.Keys, Sorted(g.Keys)) +
      if TimesInOrder(Number(Lookup(g, "iat")), Number(Lookup(g, "exp"))) then []
    else [At(Join(path, "exp"), ExpNotAfterIat)]
  {
  }

  lemma KeyErrorsStep(m: Rules, path: string, w: Tmpl, g: map<string, Json>, ks: seq<string>, k: string)
    requires w.TObj? && forall x :: x in ks ==> x in Expected(Namespace(m.p), w.entries)
    ensures ks == [] ==> KeyErrors(m, path, w, g, ks) == []
    ensures k in Expected(Namespace(m.p), w.entries) ==>
      KeyErrors(m, path, w, g, ks + [k]) == KeyErrors(m, path, w, g, ks) +
        if k in g then Errors(m, Join(path, k), Expected(Namespace(m.p), w.entries)[k], g[k])
      else [At(Join(path, k), Missing)]
  {
    assert (ks + [k])[..|ks|] == ks;
  }

  lemma EachErrorsStep(m: Rules, path: string, w: Tmpl, g: seq<Json>, n: nat)
    requires w.TArr? && |w.items| == 1 && n <= |g|
    ensures EachErrors(m, path, w, g, n) ==
      if n == 0 then [] else EachErrors(m, path, w, g, n - 1) + Errors(m, Item(path, n - 1), w.items[0], g[n - 1])
  {
  }

  lemma PairErrorsStep(m: Rules, path: string, w: Tmpl, g: seq<Json>, n: nat)
    requires w.TArr? && n <= |w.items| && n <= |g|
    ensures PairErrors(m, path, w, g, n) ==
      if n == 0 then [] else PairErrors(m, path, w, g, n - 1) + Errors(m, Item(path, n - 1), w.items[n - 1], g[n - 1])
  {
  }

  lemma AudienceErrorsStep(p: Params, path: string, i: nat, rest: seq<Json>, n: nat)
    requires n <= |rest|
    ensures AudienceErrorsUpTo(p, path, i, rest, n) ==
      if n == 0 then []
      else AudienceErrorsUpTo(p, path, i, rest, n - 1) +
           if AudienceOk(p, n - 1, rest[n - 1]) then [] else [At(Item(path, i + n - 1), BrokenRule)]
  {
  }

  lemma AudienceAtIs(items: seq<Tmpl>, i: nat)
    requires i <= |items| && (i < |items| ==> items[i] == AUDIENCE)
    requires forall j :: 0 <= j < i ==> items[j] != AUDIENCE
    ensures AudienceAt(items) == i
  {
  }

  lemma ArrayErrorsAre(m: Rules, path: string, w: Tmpl, g: seq<Json>)
    requires w.TArr?
    ensures var i := AudienceAt(w.items);
      ArrayErrors(m, path, w, g) ==
      if IsKeyList(m, path, w.items) then
        (if |g| == 0 then [At(path, NoKey)] else []) + EachErrors(m, path, w, g, |g|)
      else if i < |w.items| then
        if i != |w.items| - 1 then [At(path, AudienceNotLast)]
        else if |g| < i + 1 then [At(path, TooFewEntries)]
        else PairErrors(m, path, w, g, i) + AudienceErrors(m.p, path, i, g[i..])
      else if |g| != |w.items| then [At(path, WrongLength)]
      else PairErrors(m, path, w, g, |w.items|)
  {
  }

  lemma ExtraErrorsStep(path: string, expected: set<string>, ks: seq<string>, k: string)
    ensures ks == [] ==> ExtraErrors(path, expected, ks) == []
    ensures ExtraErrors(path, expected, ks + [k]) ==
      ExtraErrors(path, expected, ks) + if k in expected then [] else [At(Join(path, k), NotInFixture)]
  {
    assert (ks + [k])[..|ks|] == ks;
  }
}
