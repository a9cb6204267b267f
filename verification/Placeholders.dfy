/** The placeholder notation of a fixture: which strings are placeholders, what their
    kind and argument are, and what each named one resolves to. */
module Placeholders {
  import opened Text
  import opened Fixture
  import opened Resolver

  /** The placeholder of that name, without and with an argument. */
  function Mark(name: string): string { "<" + name + ">" }

  function MarkWith(name: string, arg: string): string { "<" + name + ":" + arg + ">" }

  predicate IsName(s: string) { '<' !in s && '>' !in s && ':' !in s }

  predicate IsArgument(s: string) { '<' !in s && '>' !in s }

  // ----- Which strings are placeholders -----

  /** The first ':' of a name, a ':' and an argument is the one between them. */
  lemma FirstColon(name: string, arg: string)
    requires ':' !in name
    ensures Index(name + ":" + arg, ":") == |name|
  {
    hide OccursAt;
    var s := name + ":" + arg;
    ColonAt(s, |name|);
    forall j | 0 <= j < |name| ensures !OccursAt(s, ":", j) {
      ColonAt(s, j);
    }
    hide Index;
  }

  lemma ParseWithArgument(name: string, arg: string)
    requires IsName(name) && IsArgument(arg)
    ensures Parse(MarkWith(name, arg)) == Whole(KindOf(name), arg)
  {
    var s, inner := MarkWith(name, arg), name + ":" + arg;
    assert s[1..|s| - 1] == inner;
    FirstColon(name, arg);
    assert inner[..|name|] == name && inner[|name| + 1..] == arg;
    hide Index, KindOf;
  }

  lemma ParseBare(name: string)
    requires IsName(name) && name != ""
    ensures Parse(Mark(name)) == Whole(KindOf(name), "")
  {
    var s := Mark(name);
    assert s[1..|s| - 1] == name;
    AbsentChar(name, ':');
    hide Index, KindOf;
  }

  ghost predicate IsBare(s: string) { exists name :: IsName(name) && name != "" && s == Mark(name) }

  ghost predicate HasArgument(s: string) {
    exists name, arg :: IsName(name) && IsArgument(arg) && s == MarkWith(name, arg)
  }

  /** Nothing else is a placeholder. */
  lemma PlaceholderIff(s: string)
    ensures Parse(s).Whole? <==> IsBare(s) || HasArgument(s)
  {
    hide Index, KindOf, MarkWith, HasArgument;
    if Parse(s).Whole? {
      WholeHasForm(s);
    }
    hide Parse;
    if IsBare(s) {
      var name :| IsName(name) && name != "" && s == Mark(name);
      ParseBare(name);
    }
    if HasArgument(s) {
      var name, arg := Arguments(s);
      ParseWithArgument(name, arg);
    }
  }

  lemma Arguments(s: string) returns (name: string, arg: string)
    requires HasArgument(s)
    ensures IsName(name) && IsArgument(arg) && s == MarkWith(name, arg)
  {
    name, arg :| IsName(name) && IsArgument(arg) && s == MarkWith(name, arg);
  }

  lemma BareIs(name: string)
    requires IsName(name) && name != ""
    ensures IsBare(Mark(name))
  {
  }

  lemma ArgumentIs(name: string, arg: string)
    requires IsName(name) && IsArgument(arg)
    ensures HasArgument(MarkWith(name, arg))
  {
  }

  lemma WholeHasForm(s: string)
    requires Parse(s).Whole?
    ensures IsBare(s) || HasArgument(s)
  {
    hide KindOf, Index, IsBare, HasArgument;
    var inner := s[1..|s| - 1];
    var i := Index(inner, ":");
    assert s == Mark(inner);
    hide Parse;
    if i < 0 {
      NoColon(inner);
      BareIs(inner);
    } else {
      SplitAtColon(inner, i);
      assert s == MarkWith(inner[..i], inner[i + 1..]);
      ArgumentIs(inner[..i], inner[i + 1..]);
    }
  }

  lemma NoColon(s: string)
    requires Index(s, ":") < 0
    ensures ':' !in s
  {
    hide Index, OccursAt;
    forall i | 0 <= i < |s| ensures s[i] != ':' {
      ColonAt(s, i);
    }
  }

  lemma SplitAtColon(s: string, i: nat)
    requires Index(s, ":") == i
    ensures i < |s| && s == s[..i] + ":" + s[i + 1..] && ':' !in s[..i]
  {
    hide Index, OccursAt;
    ColonAt(s, i);
    forall j | 0 <= j < i ensures s[j] != ':' {
      ColonAt(s, j);
    }
  }

  lemma ColonAt(s: string, i: nat)
    ensures OccursAt(s, ":", i) <==> i < |s| && s[i] == ':'
  {
    if i < |s| {
      assert s[i..i + 1] == [s[i]];
    }
  }

  // ----- The names -----

  /** Length and first letters tell the names apart. */
  function Guess(s: string): Kind {
    if |s| == 1 then KModulus
    else if |s| == 3 && s[0] == 's' then KSub
    else if |s| == 3 && s[0] == 'i' then KIat
    else if |s| == 3 && s[0] == 'n' then KNbf
    else if |s| == 3 && s[0] == 'e' then KExp
    else if |s| == 3 && s[0] == 'j' && s[1] == 't' then KJti
    else if |s| == 3 && s[0] == 'j' && s[1] == 'k' then KJkt
    else if |s| == 3 && s[0] == 'k' then KKid
    else if |s| == 4 && s[0] == 'r' then KRole
    else if |s| == 4 && s[0] == 'n' then KName
    else if |s| == 5 && s[0] == 'e' then KEmail
    else if |s| == 5 && s[0] == 'n' then KNonce
    else if |s| == 5 && s[0] == 's' then KScope
    else if |s| == 6 then KIssuer
    else if |s| == 7 && s[0] == 'a' && s[1] == 'p' then KAppSub
    else if |s| == 7 && s[0] == 'a' && s[1] == 't' then KAtHash
    else if |s| == 8 then KIdToken
    else if |s| == 9 && s[0] == 'c' then KClientId
    else if |s| == 9 && s[0] == 'a' && s[1] == 'p' then KAppRoles
    else if |s| == 9 && s[0] == 'a' && s[1] == 't' then KAttribute
    else if |s| == 9 && s[0] == 'a' && s[1] == 'u' then KAuthTime
    else if |s| == 9 && s[0] == 't' then KTenantId
    else if |s| == 10 then KExpiresIn
    else if |s| == 11 then KRefreshExp
    else if |s| == 12 then KAccessToken
    else if |s| == 13 && s[0] == 't' then KTokenVersion
    else if |s| == 13 && s[0] == 'r' then KRefreshToken
    else KUnknown
  }

  lemma GuessOfShort(kind: Kind)
    requires |Name(kind)| <= 6
    ensures Guess(Name(kind)) == kind
  {
  }

  lemma GuessOfLong(kind: Kind)
    requires |Name(kind)| > 6
    ensures Guess(Name(kind)) == kind
  {
  }

  lemma GuessOfName(kind: Kind)
    ensures Guess(Name(kind)) == kind
  {
    hide Name, Guess;
    if |Name(kind)| <= 6 {
      GuessOfShort(kind);
    } else {
      GuessOfLong(kind);
    }
  }

  lemma NamesDiffer(a: Kind, b: Kind)
    requires Name(a) == Name(b)
    ensures a == b
  {
    hide Name, Guess;
    GuessOfName(a);
    GuessOfName(b);
  }

  lemma NameLacks(kind: Kind, c: char)
    requires c == '<' || c == '>' || c == ':'
    ensures c !in Name(kind)
  {
  }

  lemma NamesAreNames(kind: Kind)
    ensures IsName(Name(kind)) && (kind != KUnknown ==> Name(kind) != "")
  {
    NameLacks(kind, '<');
    NameLacks(kind, '>');
    NameLacks(kind, ':');
    if Name(kind) == "" {
      NamesDiffer(kind, KUnknown);
    }
    hide Name;
  }

  lemma Listed(kind: Kind)
    requires kind != KUnknown
    ensures kind in KINDS
  {
  }

  lemma {:induction false} FirstOfName(ks: seq<Kind>, kind: Kind)
    ensures KindIn(ks, Name(kind)) == if kind in ks then kind else KUnknown
  {
    hide Name;
    if ks != [] {
      FirstOfName(ks[1..], kind);
      if Name(ks[0]) == Name(kind) {
        NamesDiffer(ks[0], kind);
      }
    }
  }

  lemma KindOfName(kind: Kind)
    ensures KindOf(Name(kind)) == kind
  {
    hide Name, KindIn;
    FirstOfName(KINDS, kind);
    if kind != KUnknown {
      Listed(kind);
    }
  }

  lemma {:induction false} NameOfFirst(ks: seq<Kind>, s: string)
    requires KindIn(ks, s) != KUnknown
    ensures Name(KindIn(ks, s)) == s
  {
    hide Name;
    if Name(ks[0]) != s {
      NameOfFirst(ks[1..], s);
    }
  }

  lemma NameOfKind(s: string)
    requires KindOf(s) != KUnknown
    ensures Name(KindOf(s)) == s
  {
    NameOfFirst(KINDS, s);
  }

  /** The notation and its reading are inverse: each kind has one name, and with an
      argument the reading gives both back. */
  lemma ParseOfMark(kind: Kind, arg: string)
    requires kind != KUnknown
    ensures Parse(Mark(Name(kind))) == Whole(kind, "")
    ensures IsArgument(arg) ==> Parse(MarkWith(Name(kind), arg)) == Whole(kind, arg)
  {
    hide *;
    KindOfName(kind);
    NamesAreNames(kind);
    ParseBare(Name(kind));
    if IsArgument(arg) {
      ParseWithArgument(Name(kind), arg);
    }
  }

  // ----- What each placeholder resolves to -----

  lemma MarkResolves(r: Resolver, kind: Kind, out: Json)
    requires kind != KUnknown
    ensures Resolves(r, TStr(Mark(Name(kind))), out) <==> ValueIs(r, kind, "", out)
    ensures CanResolve(r.p, TStr(Mark(Name(kind)))) <==> CanFill(r.p, kind, "")
  {
    ParseOfMark(kind, "");
    hide Parse, ValueIs, CanFill, Mark, Name;
  }

  lemma MarkWithResolves(r: Resolver, kind: Kind, arg: string, out: Json)
    requires kind != KUnknown && IsArgument(arg)
    ensures Resolves(r, TStr(MarkWith(Name(kind), arg)), out) <==> ValueIs(r, kind, arg, out)
    ensures CanResolve(r.p, TStr(MarkWith(Name(kind), arg))) <==> CanFill(r.p, kind, arg)
  {
    ParseOfMark(kind, arg);
    hide Parse, ValueIs, CanFill, MarkWith, Name;
  }

  /** The one value a text placeholder yields: what Params give, or the default. */
  ghost predicate YieldsText(r: Resolver, name: string, given: string, def: string) {
    forall out :: Resolves(r, TStr(Mark(name)), out) <==> out == Str(if given != "" then given else def)
  }

  lemma TextYields(r: Resolver, kind: Kind, given: string, def: string)
    requires kind != KUnknown
    requires forall out :: ValueIs(r, kind, "", out) <==> out == Str(if given != "" then given else def)
    ensures YieldsText(r, Name(kind), given, def)
  {
    hide ValueIs, Resolves, Mark, Name;
    forall out ensures Resolves(r, TStr(Mark(Name(kind))), out) <==> ValueIs(r, kind, "", out) {
      MarkResolves(r, kind, out);
    }
  }

  lemma TextsYielded(r: Resolver)
    ensures YieldsText(r, "issuer", r.p.issuer, "https://socrate.example.com")
    ensures YieldsText(r, "client_id", r.p.clientId, "my-app")
    ensures YieldsText(r, "sub", r.p.subject, "42")
    ensures YieldsText(r, "role", r.p.role, "user")
    ensures YieldsText(r, "email", r.p.email, "user@example.com")
    ensures YieldsText(r, "name", r.p.name, "Example User")
    ensures YieldsText(r, "tenant_id", r.p.tenantId, "00000000-0000-4000-8000-000000000001")
  {
    hide YieldsText, DrawnIs, Decimal, Unix, Attributes;
    var p := r.p;
    TextYields(r, KIssuer, p.issuer, DEFAULT_ISSUER);
    TextYields(r, KClientId, p.clientId, DEFAULT_CLIENT_ID);
    TextYields(r, KSub, p.subject, DEFAULT_SUBJECT);
    TextYields(r, KRole, p.role, DEFAULT_ROLE);
    TextYields(r, KEmail, p.email, DEFAULT_EMAIL);
    TextYields(r, KName, p.name, DEFAULT_NAME);
    TextYields(r, KTenantId, p.tenantId, DEFAULT_TENANT_ID);
  }

  /** The one value of a placeholder without argument. */
  ghost predicate Yields(r: Resolver, name: string, v: Json) {
    forall out :: Resolves(r, TStr(Mark(name)), out) <==> out == v
  }

  lemma KindYields(r: Resolver, kind: Kind, v: Json)
    requires kind != KUnknown && forall out :: ValueIs(r, kind, "", out) <==> out == v
    ensures Yields(r, Name(kind), v)
  {
    hide ValueIs, Resolves, Mark, Name;
    forall out ensures Resolves(r, TStr(Mark(Name(kind))), out) <==> ValueIs(r, kind, "", out) {
      MarkResolves(r, kind, out);
    }
  }

  /** Times are whole seconds since 1970. */
  lemma TimesYielded(r: Resolver)
    ensures var second := 1_000_000_000;
      && Yields(r, "iat", Num((r.now / second) as real))
      && Yields(r, "nbf", Num((r.now / second) as real))
      && Yields(r, "auth_time", Num(((if r.p.authTime.Some? then r.p.authTime.value else r.now) / second) as real))
    ensures Yields(r, "token_version", Num((if r.p.tokenVersion > 0 then r.p.tokenVersion else 1) as real))
  {
    hide Yields, DrawnIs, Decimal, Attributes;
    KindYields(r, KIat, Num(Unix(r.now) as real));
    KindYields(r, KNbf, Num(Unix(r.now) as real));
    KindYields(r, KAuthTime, Num(Unix(AuthTime(r)) as real));
    KindYields(r, KTokenVersion, Num((if r.p.tokenVersion > 0 then r.p.tokenVersion else 1) as real));
  }

  /** A quarter of an hour for a token, a week for a refresh token, unless Params say. */
  lemma LifetimesYielded(r: Resolver)
    ensures var second := 1_000_000_000;
      var ttl := if r.p.ttl > 0 then r.p.ttl else 900 * second;
      var refreshTtl := if r.p.refreshTtl > 0 then r.p.refreshTtl else 604_800 * second;
      && Yields(r, "exp", Num(((r.now + ttl) / second) as real))
      && Yields(r, "expires_in", Num((ttl / second) as real))
      && Yields(r, "refresh_exp", Num(((r.now + refreshTtl) / second) as real))
  {
    hide Yields, DrawnIs, Decimal, Attributes;
    KindYields(r, KExp, Num(Unix(r.now + Ttl(r.p)) as real));
    KindYields(r, KRefreshExp, Num(Unix(r.now + RefreshTtl(r.p)) as real));
    KindYields(r, KExpiresIn, Num((Ttl(r.p) / SECOND) as real));
  }

  lemma ApplicationsYielded(r: Resolver)
    ensures Yields(r, "app_sub", Str("app:" + Decimal(if r.p.appId != 0 then r.p.appId else 7)))
    ensures var client := if r.p.clientId != "" then r.p.clientId else "my-app";
      Yields(r, "app_roles", Obj(map[client := Str(if r.p.role != "" then r.p.role else "user")]))
  {
    hide Yields, DrawnIs, Decimal, Attributes, Unix;
    var p := r.p;
    KindYields(r, KAppSub, Str("app:" + Decimal(if p.appId == 0 then DEFAULT_APP_ID else p.appId)));
    KindYields(r, KAppRoles, Obj(map[Or(p.clientId, DEFAULT_CLIENT_ID) := Str(Or(p.role, DEFAULT_ROLE))]));
  }

  /** A token is yielded as given, and only if it is given. */
  ghost predicate YieldsToken(r: Resolver, name: string, given: string) {
    && (CanResolve(r.p, TStr(Mark(name))) <==> given != "")
    && forall out :: Resolves(r, TStr(Mark(name)), out) <==> given != "" && out == Str(given)
  }

  lemma TokenYields(r: Resolver, kind: Kind, given: string)
    requires kind != KUnknown && (CanFill(r.p, kind, "") <==> given != "")
    requires forall out :: ValueIs(r, kind, "", out) <==> given != "" && out == Str(given)
    ensures YieldsToken(r, Name(kind), given)
  {
    hide ValueIs, Resolves, CanFill, CanResolve, Mark, Name;
    MarkResolves(r, kind, Null);
    forall out ensures Resolves(r, TStr(Mark(Name(kind))), out) <==> ValueIs(r, kind, "", out) {
      MarkResolves(r, kind, out);
    }
  }

  lemma TokensYielded(r: Resolver)
    ensures YieldsToken(r, "access_token", r.p.accessToken)
    ensures YieldsToken(r, "refresh_token", r.p.refreshToken)
    ensures YieldsToken(r, "id_token", r.p.idToken)
  {
    hide YieldsToken, DrawnIs, Decimal, Attributes, Unix;
    TokenYields(r, KAccessToken, r.p.accessToken);
    TokenYields(r, KRefreshToken, r.p.refreshToken);
    TokenYields(r, KIdToken, r.p.idToken);
  }

  /** The scope Params give, or else the one named in the fixture; the attribute named in
      the fixture, if there is one of that name. */
  lemma ArgumentsYielded(r: Resolver, arg: string, out: Json)
    requires IsArgument(arg)
    ensures Resolves(r, TStr(MarkWith("scope", arg)), out) <==> out == Str(if r.p.scope != "" then r.p.scope else arg)
    ensures var given :=
        if r.p.attributes.Some? then r.p.attributes.value else map["department" := Str("engineering")];
      && (CanResolve(r.p, TStr(MarkWith("attribute", arg))) <==> arg in given)
      && (Resolves(r, TStr(MarkWith("attribute", arg)), out) <==> arg in given && out == given[arg])
  {
    MarkWithResolves(r, KScope, arg, out);
    MarkWithResolves(r, KAttribute, arg, out);
    hide Resolves, CanResolve, MarkWith, DrawnIs, Decimal, Unix;
  }

  /** A drawn value is a string; the given one, or one of the drawn shape. */
  ghost predicate YieldsDrawn(r: Resolver, name: string, given: Option<string>, drawn: string -> bool) {
    forall out :: Resolves(r, TStr(Mark(name)), out) <==>
      out.Str? && if given.Some? then out.s == given.value else drawn(out.s)
  }

  lemma DrawnValue(r: Resolver, kind: Kind, out: Json)
    requires IsDrawn(kind)
    ensures ValueIs(r, kind, "", out) <==> out.Str? && DrawnIs(r, kind, out.s)
  {
    hide DrawnIs;
  }

  lemma DrawnYields(r: Resolver, kind: Kind, given: Option<string>, drawn: string -> bool)
    requires IsDrawn(kind)
    requires forall s :: DrawnIs(r, kind, s) <==> if given.Some? then s == given.value else drawn(s)
    ensures YieldsDrawn(r, Name(kind), given, drawn)
  {
    hide DrawnIs, Resolves, Mark, Name, ValueIs;
    forall out
      ensures Resolves(r, TStr(Mark(Name(kind))), out) <==> out.Str? && DrawnIs(r, kind, out.s)
    {
      MarkResolves(r, kind, out);
      DrawnValue(r, kind, out);
    }
  }

  function Given(s: string): Option<string> { if s != "" then Some(s) else None }

  lemma DrawnYielded(r: Resolver)
    ensures YieldsDrawn(r, "nonce", Given(r.p.nonce), s => IsRandom(s, 12))
    ensures YieldsDrawn(r, "jkt", Given(r.p.jkt), s => IsRandom(s, 32))
    ensures YieldsDrawn(r, "at_hash", if r.p.accessToken != "" then Some(AtHash(r)) else None, s => IsRandom(s, 16))
    ensures YieldsDrawn(r, "jti", None, s => IsUuid(s))
    ensures YieldsDrawn(r, "kid", Given(if |r.p.keys| > 0 then r.p.keys[0].id else ""), s => IsUuid(s))
  {
    hide YieldsDrawn, IsRandom, IsUuid, AtHash;
    DrawnYields(r, KNonce, Given(r.p.nonce), s => IsRandom(s, 12));
    DrawnYields(r, KJkt, Given(r.p.jkt), s => IsRandom(s, 32));
    DrawnYields(r, KAtHash, if r.p.accessToken != "" then Some(AtHash(r)) else None, s => IsRandom(s, 16));
    DrawnYields(r, KJti, None, s => IsUuid(s));
    DrawnYields(r, KKid, Given(if |r.p.keys| > 0 then r.p.keys[0].id else ""), s => IsUuid(s));
  }

  lemma UnresolvedKind(r: Resolver, s: string, out: Json)
    requires Parse(s).Whole? && (Parse(s).kind == KUnknown || Parse(s).kind == KModulus)
    ensures !CanResolve(r.p, TStr(s)) && !Resolves(r, TStr(s), out)
  {
    hide Parse;
  }

  /** Any other name, the modulus of a key among them, cannot be resolved. */
  lemma UnknownIsRefused(r: Resolver, name: string, arg: string, out: Json)
    requires IsName(name) && name != "" && IsArgument(arg) && (KindOf(name) == KUnknown || name == "n")
    ensures !CanResolve(r.p, TStr(Mark(name))) && !Resolves(r, TStr(Mark(name)), out)
    ensures !CanResolve(r.p, TStr(MarkWith(name, arg))) && !Resolves(r, TStr(MarkWith(name, arg)), out)
  {
    KindOfName(KModulus);
    assert KindOf(name) == KUnknown || KindOf(name) == KModulus;
    hide *;
    ParseBare(name);
    ParseWithArgument(name, arg);
    UnresolvedKind(r, Mark(name), out);
    UnresolvedKind(r, MarkWith(name, arg), out);
  }

  /** All audiences, or the one default. */
  lemma AudiencesYielded(r: Resolver, out: Json)
    ensures var all := if r.p.audiences != [] then r.p.audiences else ["https://api.example.com"];
      Resolves(r, TArr([AUDIENCE]), out) <==>
      out.Arr? && |out.items| == |all| && forall j :: 0 <= j < |all| ==> out.items[j] == Str(all[j])
  {
    var a := AudienceValues(r.p);
    assert [AUDIENCE][1..] == [];
    if out.Arr? && |out.items| >= |a| {
      var rest := out.items[|a|..];
      assert ResolvesItems(r, [], rest) <==> rest == [];
      assert ResolvesItems(r, [AUDIENCE], out.items) <==>
        (forall j :: 0 <= j < |a| ==> out.items[j] == Str(a[j])) && ResolvesItems(r, [], rest);
    }
  }

  /** A key that starts with <ns> starts with the namespace, a key without it stays. */
  lemma NamespaceYielded(p: Params, k: string)
    requires !Contains(k, NS_TOKEN)
    ensures Rename(Namespace(p), k) == k
    ensures Rename(Namespace(p), "<ns>" + k) ==
      (if p.claimsNamespace != "" then p.claimsNamespace else "https://socrate/") + k
  {
    var s := "<ns>" + k;
    assert NS_TOKEN <= s && s[..0] == "" && s[|NS_TOKEN|..] == k;
  }
}
