/** The fixture language of conformance/: JSON documents, templates with
    placeholders, and the parameters that fill or pin them. */
module Fixture {
  import opened Text

  datatype Json =
    | Null
    | Bool(b: bool)
    | Num(n: real)
    | Str(s: string)
    | Arr(items: seq<Json>)
    | Obj(fields: map<string, Json>)

  /** A decoded fixture. The entries of an object stand in the order in which one
      run visits them: Go leaves that order open, so every sequence is a run. */
  datatype Tmpl =
    | TNull
    | TBool(b: bool)
    | TNum(n: real)
    | TStr(s: string)
    | TArr(items: seq<Tmpl>)
    | TObj(entries: seq<(string, Tmpl)>)

  /** An RSA key: its kid and the base64url forms of its modulus and exponent. */
  datatype Key = Key(id: string, hasPrivate: bool, n: string, e: string)

  /** Times and durations are in nanoseconds; a zero time.Time is None. */
  datatype Params = Params(
    issuer: string, clientId: string, audiences: seq<string>, subject: string, appId: nat,
    role: string, email: string, name: string, scope: string, nonce: string, tenantId: string,
    attributes: Option<map<string, Json>>, claimsNamespace: string, tokenVersion: int, jkt: string,
    now: Option<int>, authTime: Option<int>, ttl: int, refreshTtl: int,
    accessToken: string, refreshToken: string, idToken: string, keys: seq<Key>)

  const DEFAULT_ISSUER := "https://socrate.example.com"
  const DEFAULT_CLIENT_ID := "my-app"
  const DEFAULT_AUDIENCE := "https://api.example.com"
  const DEFAULT_SUBJECT := "42"
  const DEFAULT_APP_ID: nat := 7
  const DEFAULT_ROLE := "user"
  const DEFAULT_EMAIL := "user@example.com"
  const DEFAULT_NAME := "Example User"
  const DEFAULT_TENANT_ID := "00000000-0000-4000-8000-000000000001"
  const DEFAULT_CLAIMS_NAMESPACE := "https://socrate/"
  const SECOND: int := 1_000_000_000
  const DEFAULT_TTL: int := 15 * 60 * SECOND
  const DEFAULT_REFRESH_TTL: int := 7 * 24 * 3600 * SECOND

  const ISSUER_TOKEN := "<issuer>"
  const NS_TOKEN := "<ns>"
  const AUDIENCE := TStr("<audience>")

  function Or(v: string, def: string): string { if v != "" then v else def }

  function Namespace(p: Params): string { Or(p.claimsNamespace, DEFAULT_CLAIMS_NAMESPACE) }

  function Ttl(p: Params): int { if p.ttl > 0 then p.ttl else DEFAULT_TTL }

  function RefreshTtl(p: Params): int { if p.refreshTtl <= 0 then DEFAULT_REFRESH_TTL else p.refreshTtl }

  function Attributes(p: Params): map<string, Json> {
    if p.attributes.Some? then p.attributes.value else map["department" := Str("engineering")]
  }

  /** time.Time.Unix: whole seconds, rounded down. */
  function Unix(t: int): int { t / SECOND }

  // ----- Placeholders -----

  datatype Kind =
    | KIssuer | KClientId | KSub | KAppSub | KRole | KAppRoles | KEmail | KName | KNonce | KTenantId
    | KAttribute | KScope | KIat | KNbf | KAuthTime | KExp | KRefreshExp | KExpiresIn | KJti | KKid
    | KTokenVersion | KAtHash | KModulus | KJkt | KAccessToken | KRefreshToken | KIdToken | KUnknown

  /** What a kind is called in a fixture. */
  function Name(kind: Kind): string {
    match kind
    case KIssuer => "issuer"
    case KClientId => "client_id"
    case KSub => "sub"
    case KAppSub => "app_sub"
    case KRole => "role"
    case KAppRoles => "app_roles"
    case KEmail => "email"
    case KName => "name"
    case KNonce => "nonce"
    case KTenantId => "tenant_id"
    case KAttribute => "attribute"
    case KScope => "scope"
    case KIat => "iat"
    case KNbf => "nbf"
    case KAuthTime => "auth_time"
    case KExp => "exp"
    case KRefreshExp => "refresh_exp"
    case KExpiresIn => "expires_in"
    case KJti => "jti"
    case KKid => "kid"
    case KTokenVersion => "token_version"
    case KAtHash => "at_hash"
    case KModulus => "n"
    case KJkt => "jkt"
    case KAccessToken => "access_token"
    case KRefreshToken => "refresh_token"
    case KIdToken => "id_token"
    case KUnknown => ""
  }

  const KINDS := [
    KIssuer, KClientId, KSub, KAppSub, KRole, KAppRoles, KEmail, KName, KNonce, KTenantId,
    KAttribute, KScope, KIat, KNbf, KAuthTime, KExp, KRefreshExp, KExpiresIn, KJti, KKid,
    KTokenVersion, KAtHash, KModulus, KJkt, KAccessToken, KRefreshToken, KIdToken]

  /** The kind of that name, if there is one. */
  function KindOf(s: string): Kind { KindIn(KINDS, s) }

  function KindIn(kinds: seq<Kind>, s: string): Kind {
    if kinds == [] then KUnknown
    else if Name(kinds[0]) == s then kinds[0]
    else KindIn(kinds[1..], s)
  }

  datatype Placeholder = Whole(kind: Kind, arg: string) | Literal

  /** Whether s is one whole placeholder, with the part before its first ':' as
      the kind and the rest as the argument. */
  function Parse(s: string): Placeholder {
    if |s| < 3 || s[0] != '<' || s[|s| - 1] != '>' || '<' in s[1..|s| - 1] || '>' in s[1..|s| - 1] then
      Literal
    else
      var inner := s[1..|s| - 1];
      var i := Index(inner, ":");
      if i < 0 then Whole(KindOf(inner), "") else Whole(KindOf(inner[..i]), inner[i + 1..])
  }

  // ----- Objects -----

  function Rename(ns: string, k: string): string { ReplaceAll(k, NS_TOKEN, ns) }

  /** The keys an object template stands for, with <ns> expanded. When two keys
      expand alike, the entry visited last wins. */
  function Expected(ns: string, entries: seq<(string, Tmpl)>): (m: map<string, Tmpl>)
    ensures forall k :: k in m ==> 0 <= Winner(ns, entries, k) < |entries| && m[k] == entries[Winner(ns, entries, k)].1
    ensures forall k :: k in m <==> Winner(ns, entries, k) >= 0
  {
    if entries == [] then
      map[]
    else
      var last := entries[|entries| - 1];
      Expected(ns, entries[..|entries| - 1])[Rename(ns, last.0) := last.1]
  }

  /** The last entry whose key expands to k, or -1. */
  function Winner(ns: string, entries: seq<(string, Tmpl)>, k: string): (i: int)
    ensures -1 <= i < |entries|
    ensures i >= 0 ==> Rename(ns, entries[i].0) == k
    ensures forall j :: i < j < |entries| ==> Rename(ns, entries[j].0) != k
  {
    if entries == [] then -1
    else if Rename(ns, entries[|entries| - 1].0) == k then |entries| - 1
    else Winner(ns, entries[..|entries| - 1], k)
  }

  /** A JSON number, read as matcher's number does. */
  function Number(v: Json): Option<real> {
    if v.Num? then Some(v.n) else None
  }

  function Lookup(fields: map<string, Json>, k: string): Json {
    if k in fields then fields[k] else Null
  }

  // ----- Positions in a document -----

  datatype Step = Field(name: string) | Element(i: nat)

  /** The document at a position. */
  function DocAt(g: Json, pos: seq<Step>): Option<Json> {
    if pos == [] then
      Some(g)
    else
      match pos[0]
      case Field(k) => if g.Obj? && k in g.fields then DocAt(g.fields[k], pos[1..]) else None
      case Element(i) => if g.Arr? && i < |g.items| then DocAt(g.items[i], pos[1..]) else None
  }
}
