/** The signing-key cache: TTL, refetch cooldown, negative cache and stale-on-error
    fallback, for calls taken one at a time (jwtauth/middleware.go). Times are real
    numbers of seconds; a stamp that was never set is None. */
module Jwks {
  import opened Text

  datatype Config = Config(cacheTTL: real, minRefetch: real, negativeTTL: real)

  ghost predicate Positive(cfg: Config) {
    cfg.cacheTTL > 0.0 && cfg.minRefetch > 0.0 && cfg.negativeTTL > 0.0
  }

  datatype Key = Key(modulus: string, exponent: string)
  type KeySet = map<string, Key>

  // ----- What a JWKS document yields -----

  datatype Jwk = Jwk(kty: string, use: string, kid: string, n: string, e: string)

  datatype Reply = Broken | Keys(keys: KeySet)

  predicate Usable(k: Jwk, parse: (string, string) -> Option<Key>) {
    k.kty == "RSA" && k.use == "sig" && parse(k.n, k.e).Some?
  }

  /** The key a document gives a kid: that of its last usable entry. */
  ghost predicate Gives(doc: seq<Jwk>, parse: (string, string) -> Option<Key>, kid: string, key: Key) {
    exists i :: 0 <= i < |doc| && doc[i].kid == kid && Usable(doc[i], parse)
      && parse(doc[i].n, doc[i].e) == Some(key)
      && forall j :: i < j < |doc| && doc[j].kid == kid ==> !Usable(doc[j], parse)
  }

  lemma GivesStep(doc: seq<Jwk>, last: Jwk, parse: (string, string) -> Option<Key>, kid: string, key: Key)
    ensures Gives(doc + [last], parse, kid, key) <==>
      if last.kid == kid && Usable(last, parse) then parse(last.n, last.e) == Some(key)
      else Gives(doc, parse, kid, key)
  {
    var all := doc + [last];
    if last.kid == kid && Usable(last, parse) {
      assert all[|doc|] == last;
    } else if Gives(doc, parse, kid, key) {
      var i :| 0 <= i < |doc| && doc[i].kid == kid && Usable(doc[i], parse)
        && parse(doc[i].n, doc[i].e) == Some(key)
        && forall j :: i < j < |doc| && doc[j].kid == kid ==> !Usable(doc[j], parse);
      assert all[i] == doc[i];
    } else if Gives(all, parse, kid, key) {
      var i :| 0 <= i < |all| && all[i].kid == kid && Usable(all[i], parse)
        && parse(all[i].n, all[i].e) == Some(key)
        && forall j :: i < j < |all| && all[j].kid == kid ==> !Usable(all[j], parse);
      assert doc[i] == all[i];
      forall j | i < j < |doc| && doc[j].kid == kid ensures !Usable(doc[j], parse) {
        assert all[j] == doc[j];
      }
    }
  }

  /** An unreachable endpoint (None) or a document without usable keys is a failed fetch. */
  method ReadKeys(doc: Option<seq<Jwk>>, parse: (string, string) -> Option<Key>) returns (r: Reply)
    ensures r.Keys? ==> doc.Some? && r.keys != map[]
    ensures doc.Some? && r.Keys? ==>
      forall kid, key :: kid in r.keys && r.keys[kid] == key <==> Gives(doc.value, parse, kid, key)
    ensures doc.Some? && r.Broken? ==> forall kid, key :: !Gives(doc.value, parse, kid, key)
  {
    hide Gives;
    if doc.None? {
      return Broken;
    }
    var keys: KeySet := map[];
    GivesNothing(parse);
    for i := 0 to |doc.value|
      invariant forall kid, key :: (kid in keys && keys[kid] == key) <==> Gives(doc.value[..i], parse, kid, key)
    {
      var k := doc.value[i];
      ghost var seen := doc.value[..i + 1];
      assert seen == doc.value[..i] + [k];
      ghost var was := keys;
      if k.kty == "RSA" && k.use == "sig" {
        var pub := parse(k.n, k.e);
        if pub.Some? {
          keys := keys[k.kid := pub.value];
        }
      }
      forall kid, key ensures (kid in keys && keys[kid] == key) <==> Gives(seen, parse, kid, key) {
        GivesStep(doc.value[..i], k, parse, kid, key);
        assert (kid in was && was[kid] == key) <==> Gives(doc.value[..i], parse, kid, key);
      }
    }
    assert doc.value[..|doc.value|] == doc.value;
    if keys == map[] {
      forall kid, key ensures !Gives(doc.value, parse, kid, key) {
        assert kid !in keys;
      }
      return Broken;
    }
    r := Keys(keys);
  }

  /** A kid has a key exactly when an RSA signing key that parses stands under it. */
  lemma {:induction false} UsableIsGiven(doc: seq<Jwk>, parse: (string, string) -> Option<Key>, i: nat)
    returns (key: Key)
    requires i < |doc| && doc[i].kty == "RSA" && doc[i].use == "sig" && parse(doc[i].n, doc[i].e).Some?
    ensures Gives(doc, parse, doc[i].kid, key)
  {
    var front, last := doc[..|doc| - 1], doc[|doc| - 1];
    assert doc == front + [last];
    if last.kid == doc[i].kid && Usable(last, parse) {
      key := parse(last.n, last.e).value;
    } else {
      key := UsableIsGiven(front, parse, i);
    }
    GivesStep(front, last, parse, doc[i].kid, key);
  }

  lemma GivenIsUsable(doc: seq<Jwk>, parse: (string, string) -> Option<Key>, kid: string, key: Key) returns (i: nat)
    requires Gives(doc, parse, kid, key)
    ensures i < |doc| && doc[i].kid == kid && doc[i].kty == "RSA" && doc[i].use == "sig"
    ensures parse(doc[i].n, doc[i].e) == Some(key)
  {
    i :| 0 <= i < |doc| && doc[i].kid == kid && Usable(doc[i], parse) && parse(doc[i].n, doc[i].e) == Some(key)
      && forall j :: i < j < |doc| && doc[j].kid == kid ==> !Usable(doc[j], parse);
  }

  lemma GivesNothing(parse: (string, string) -> Option<Key>)
    ensures forall kid, key :: !Gives([], parse, kid, key)
  {
  }

  // ----- One call -----

  datatype Mem = Mem(keys: KeySet, lastFetch: Option<real>, lastAttempt: Option<real>, negative: map<string, real>)

  const EMPTY := Mem(map[], None, None, map[])

  /** A getKey call with its clock readings: the three comparisons, then, when it
      fetches, the attempt stamp, the endpoint's answer, the fetch stamp and the
      negative-cache stamp. */
  datatype Call = Call(kid: string, expiryAt: real, cooldownAt: real, negativeAt: real,
                       attempt: real, answered: real, installed: real, noted: real, reply: Reply)

  ghost predicate InOrder(c: Call) {
    c.expiryAt <= c.cooldownAt <= c.negativeAt <= c.attempt <= c.answered <= c.installed <= c.noted
  }

  datatype Result = Found(key: Key) | Unknown | Unavailable

  predicate Expired(m: Mem, cfg: Config, t: real) {
    m.lastFetch.None? || t - m.lastFetch.value > cfg.cacheTTL
  }

  predicate Cooling(m: Mem, cfg: Config, t: real) {
    m.lastAttempt.Some? && t - m.lastAttempt.value < cfg.minRefetch
  }

  predicate KnownMissing(m: Mem, cfg: Config, kid: string, t: real) {
    kid in m.negative && t - m.negative[kid] < cfg.negativeTTL
  }

  /** The call goes to the network. */
  predicate Fetches(m: Mem, cfg: Config, c: Call) {
    (if c.kid in m.keys then Expired(m, cfg, c.expiryAt) else !KnownMissing(m, cfg, c.kid, c.negativeAt))
    && !Cooling(m, cfg, c.cooldownAt)
  }

  function Pruned(negative: map<string, real>, ttl: real, now: real): map<string, real> {
    map k | k in negative && now - negative[k] < ttl :: negative[k]
  }

  function Next(m: Mem, cfg: Config, c: Call): Mem {
    if !Fetches(m, cfg, c) then m
    else if c.reply.Broken? then m.(lastAttempt := Some(c.attempt))
    else Mem(c.reply.keys, Some(c.installed), Some(c.attempt),
             if c.kid in c.reply.keys then map[] else map[c.kid := c.noted])
  }

  function Outcome(m: Mem, cfg: Config, c: Call): Result {
    if Fetches(m, cfg, c) && c.reply.Keys? then
      if c.kid in c.reply.keys then Found(c.reply.keys[c.kid]) else Unknown
    else if c.kid in m.keys then Found(m.keys[c.kid])
    else if Fetches(m, cfg, c) then Unavailable
    else Unknown
  }

  class Middleware {
    const cfg: Config
    var keys: KeySet
    var lastFetch: Option<real>
    var lastAttempt: Option<real>
    var negative: map<string, real>

    ghost function View(): Mem
      reads this
    {
      Mem(keys, lastFetch, lastAttempt, negative)
    }

    constructor (cfg: Config)
      ensures View() == EMPTY && this.cfg == cfg
    {
      this.cfg := cfg;
      keys, lastFetch, lastAttempt, negative := map[], None, None, map[];
    }

    method RememberUnknownKid(kid: string, now: real)
      modifies this`negative
      ensures negative == Pruned(old(negative), cfg.negativeTTL, now)[kid := now]
      ensures forall k :: k in negative <==>
        k == kid || (k in old(negative) && now - old(negative)[k] < cfg.negativeTTL)
    {
      var rest := negative.Keys;
      while rest != {}
        invariant rest <= old(negative).Keys
        invariant forall k :: k in negative <==> k in rest || k in Pruned(old(negative), cfg.negativeTTL, now)
        invariant forall k :: k in negative ==> k in old(negative) && negative[k] == old(negative)[k]
        decreases rest
      {
        var k :| k in rest;
        if now - negative[k] >= cfg.negativeTTL {
          negative := negative - {k};
        }
        rest := rest - {k};
      }
      assert negative == Pruned(old(negative), cfg.negativeTTL, now);
      negative := negative[kid := now];
    }

    method FetchJwks(reply: Reply, installed: real) returns (ok: bool)
      modifies this`keys, this`lastFetch, this`negative
      ensures ok == reply.Keys?
      ensures ok ==> keys == reply.keys && lastFetch == Some(installed) && negative == map[]
      ensures !ok ==> unchanged(this)
    {
      if reply.Broken? {
        return false;
      }
      keys, lastFetch, negative := reply.keys, Some(installed), map[];
      ok := true;
    }

    /** The key, and whether the endpoint was asked for it. A failed fetch falls back on
        the key held before. */
    method GetKey(c: Call) returns (r: Result, asked: bool)
      modifies this
      ensures View() == Next(old(View()), cfg, c)
      ensures r == Outcome(old(View()), cfg, c)
      ensures asked <==>
        && !(old(lastAttempt).Some? && c.cooldownAt - old(lastAttempt).value < cfg.minRefetch)
        && if c.kid in old(keys) then old(lastFetch).None? || c.expiryAt - old(lastFetch).value > cfg.cacheTTL
           else !(c.kid in old(negative) && c.negativeAt - old(negative)[c.kid] < cfg.negativeTTL)
      ensures keys == if asked && c.reply.Keys? then c.reply.keys else old(keys)
      ensures c.kid in keys ==> r == Found(keys[c.kid])
      ensures r == Unavailable <==> asked && c.reply.Broken? && c.kid !in old(keys)
    {
      var ok := c.kid in keys;
      var expired := lastFetch.None? || c.expiryAt - lastFetch.value > cfg.cacheTTL;
      var inCooldown := lastAttempt.Some? && c.cooldownAt - lastAttempt.value < cfg.minRefetch;
      var negFresh := c.kid in negative && c.negativeAt - negative[c.kid] < cfg.negativeTTL;
      if ok && !expired {
        return Found(keys[c.kid]), false;
      }
      if !ok && negFresh {
        return Unknown, false;
      }
      if inCooldown {
        return if ok then Found(keys[c.kid]) else Unknown, false;
      }
      var stale := if ok then Found(keys[c.kid]) else Unavailable;
      asked := true;
      lastAttempt := Some(c.attempt);
      var fetched := FetchJwks(c.reply, c.installed);
      if !fetched {
        return stale, true;
      }
      if c.kid !in keys {
        RememberUnknownKid(c.kid, c.noted);
        return Unknown, true;
      }
      r := Found(keys[c.kid]);
    }
  }

  // ----- Whole runs against an endpoint -----

  /** What the endpoint publishes at each moment. */
  type Endpoint = real -> KeySet

  /** The call is answered with what is published then, within delay of its own stamps. */
  ghost predicate Answered(c: Call, pub: Endpoint, delay: real) {
    InOrder(c) && c.reply == Keys(pub(c.answered)) && c.noted <= c.answered + delay
  }

  /** Calls one at a time. */
  ghost predicate Sequential(calls: seq<Call>) {
    && (forall i :: 0 <= i < |calls| ==> InOrder(calls[i]))
    && forall i, j :: 0 <= i < j < |calls| ==> calls[i].noted <= calls[j].expiryAt
  }

  ghost predicate AllAnswered(calls: seq<Call>, pub: Endpoint, delay: real) {
    forall i :: 0 <= i < |calls| ==> Answered(calls[i], pub, delay)
  }

  function After(cfg: Config, calls: seq<Call>): Mem {
    if calls == [] then EMPTY else Next(After(cfg, calls[..|calls| - 1]), cfg, calls[|calls| - 1])
  }

  function Last(cfg: Config, calls: seq<Call>): Result
    requires calls != []
  {
    Outcome(After(cfg, calls[..|calls| - 1]), cfg, calls[|calls| - 1])
  }

  // ----- Runs read off their history -----

  /** The last of the first n calls that asked the endpoint, or -1. */
  function LastTry(cfg: Config, calls: seq<Call>, n: nat): (i: int)
    requires n <= |calls|
    ensures -1 <= i < n
    decreases n, 0
  {
    if n == 0 then -1 else if Asks(cfg, calls, n - 1) then n - 1 else LastTry(cfg, calls, n - 1)
  }

  /** The last of them that was answered with keys, or -1. */
  function LastHit(cfg: Config, calls: seq<Call>, n: nat): (i: int)
    requires n <= |calls|
    ensures -1 <= i < n && (i >= 0 ==> calls[i].reply.Keys?)
    decreases n, 0
  {
    if n == 0 then -1
    else if Asks(cfg, calls, n - 1) && calls[n - 1].reply.Keys? then n - 1
    else LastHit(cfg, calls, n - 1)
  }

  /** Call n asks the endpoint: the last attempt is long enough ago, and its kid is in no
      young enough answer, nor did such an answer to the same question lack it. */
  predicate Asks(cfg: Config, calls: seq<Call>, n: nat)
    requires n < |calls|
    decreases n, 1
  {
    var c, t, h := calls[n], LastTry(cfg, calls, n), LastHit(cfg, calls, n);
    && (t >= 0 ==> c.cooldownAt - calls[t].attempt >= cfg.minRefetch)
    && (h >= 0 ==>
        if c.kid in calls[h].reply.keys then c.expiryAt - calls[h].installed > cfg.cacheTTL
        else calls[h].kid == c.kid ==> c.negativeAt - calls[h].noted >= cfg.negativeTTL)
  }

  /** The keys of the last answer with keys among the first n calls. */
  function Held(cfg: Config, calls: seq<Call>, n: nat): KeySet
    requires n <= |calls|
  {
    var h := LastHit(cfg, calls, n);
    if h < 0 then map[] else calls[h].reply.keys
  }

  /** The memory after n calls as its history tells it. */
  ghost predicate Remembers(cfg: Config, calls: seq<Call>, n: nat, m: Mem)
    requires n <= |calls|
  {
    var t, h := LastTry(cfg, calls, n), LastHit(cfg, calls, n);
    && m.keys == Held(cfg, calls, n)
    && m.lastAttempt == (if t < 0 then None else Some(calls[t].attempt))
    && m.lastFetch == (if h < 0 then None else Some(calls[h].installed))
    && m.negative == if h < 0 || calls[h].kid in calls[h].reply.keys then map[] else map[calls[h].kid := calls[h].noted]
  }

  lemma {:induction false} HistoryTells(cfg: Config, calls: seq<Call>, n: nat)
    requires n <= |calls|
    ensures Remembers(cfg, calls, n, After(cfg, calls[..n]))
    ensures n < |calls| ==> (Fetches(After(cfg, calls[..n]), cfg, calls[n]) <==> Asks(cfg, calls, n))
    decreases n
  {
    if n > 0 {
      HistoryTells(cfg, calls, n - 1);
      assert calls[..n][..n - 1] == calls[..n - 1];
    }
    hide After;
  }

  /** For every run, whatever the endpoint answers: the held keys are those of the last
      fetch answered with keys; a call whose own fetch fails or is not made returns the
      held key; and it is unavailable exactly when its own fetch failed without one. */
  lemma LastKeysAreServed(cfg: Config, calls: seq<Call>)
    requires calls != []
    ensures After(cfg, calls).keys == Held(cfg, calls, |calls|)
    ensures var n, c := |calls| - 1, calls[|calls| - 1];
      if Asks(cfg, calls, n) && c.reply.Keys?
      then Last(cfg, calls) == if c.kid in c.reply.keys then Found(c.reply.keys[c.kid]) else Unknown
      else c.kid in Held(cfg, calls, n) ==> Last(cfg, calls) == Found(Held(cfg, calls, n)[c.kid])
    ensures var n, c := |calls| - 1, calls[|calls| - 1];
      Last(cfg, calls) == Unavailable <==> Asks(cfg, calls, n) && c.reply.Broken? && c.kid !in Held(cfg, calls, n)
  {
    HistoryTells(cfg, calls, |calls|);
    HistoryTells(cfg, calls, |calls| - 1);
    assert calls[..|calls|] == calls;
    hide After, LastTry, LastHit, Asks, Held;
  }

  // ----- Answers against what is published -----

  /** The memory is what was published at v, stamped within delay of v. */
  ghost predicate Backed(m: Mem, pub: Endpoint, delay: real, v: real) {
    && m.keys == pub(v) && m.lastFetch.Some? && m.lastAttempt.Some?
    && m.lastAttempt.value <= v && m.lastFetch.value <= v + delay
    && forall k :: k in m.negative ==> k !in pub(v) && m.negative[k] <= v + delay
  }

  ghost predicate Sound(m: Mem, pub: Endpoint, delay: real, t: real) {
    m == EMPTY || exists v :: v <= t && Backed(m, pub, delay, v)
  }

  lemma NextIsSound(m: Mem, cfg: Config, pub: Endpoint, delay: real, c: Call, t: real)
    requires Sound(m, pub, delay, t) && t <= c.expiryAt && Answered(c, pub, delay)
    ensures Sound(Next(m, cfg, c), pub, delay, c.noted)
  {
    var n := Next(m, cfg, c);
    if Fetches(m, cfg, c) {
      assert Backed(n, pub, delay, c.answered);
    }
  }

  lemma {:induction false} RunIsSound(cfg: Config, pub: Endpoint, delay: real, calls: seq<Call>)
    requires Sequential(calls) && AllAnswered(calls, pub, delay)
    ensures After(cfg, calls) == EMPTY
      || (calls != [] && Sound(After(cfg, calls), pub, delay, calls[|calls| - 1].noted))
  {
    if calls != [] {
      var front, c := calls[..|calls| - 1], calls[|calls| - 1];
      RunIsSound(cfg, pub, delay, front);
      if front == [] {
        NextIsSound(EMPTY, cfg, pub, delay, c, c.expiryAt);
      } else {
        NextIsSound(After(cfg, front), cfg, pub, delay, c, front[|front| - 1].noted);
      }
    }
  }

  function Max(a: real, b: real): real {
    if a < b then b else a
  }

  /** How old an answer may be: a found key, and a missing one. */
  function FoundAge(cfg: Config, delay: real): real {
    Max(cfg.cacheTTL + delay, cfg.minRefetch)
  }

  function MissingAge(cfg: Config, delay: real): real {
    Max(cfg.minRefetch, cfg.negativeTTL + delay)
  }

  ghost predicate Publishes(pub: Endpoint, t: real, kid: string, key: Key) {
    kid in pub(t) && pub(t)[kid] == key
  }

  /** Every answer of every run is what the endpoint published at a recent moment. */
  lemma AnswersAreRecent(cfg: Config, pub: Endpoint, delay: real, calls: seq<Call>)
    requires Positive(cfg) && delay >= 0.0
    requires calls != [] && Sequential(calls) && AllAnswered(calls, pub, delay)
    ensures !Last(cfg, calls).Unavailable?
    ensures var c := calls[|calls| - 1];
      Last(cfg, calls).Found? ==> exists v ::
        c.expiryAt - FoundAge(cfg, delay) <= v <= c.noted && Publishes(pub, v, c.kid, Last(cfg, calls).key)
    ensures var c := calls[|calls| - 1];
      Last(cfg, calls).Unknown? ==> exists v :: c.expiryAt - MissingAge(cfg, delay) < v <= c.noted && c.kid !in pub(v)
  {
    var front, c := calls[..|calls| - 1], calls[|calls| - 1];
    RunIsSound(cfg, pub, delay, front);
    var m := After(cfg, front);
    if Fetches(m, cfg, c) {
      assert c.reply == Keys(pub(c.answered));
      assert Last(cfg, calls).Found? ==> Publishes(pub, c.answered, c.kid, Last(cfg, calls).key);
    } else {
      assert m != EMPTY;
      var v :| v <= front[|front| - 1].noted && Backed(m, pub, delay, v);
      assert Last(cfg, calls).Found? ==> Publishes(pub, v, c.kid, Last(cfg, calls).key);
      assert Last(cfg, calls).Unknown? ==> c.kid !in pub(v);
    }
  }

  ghost predicate PublishedFrom(pub: Endpoint, kid: string, t: real) {
    forall u :: u >= t ==> kid in pub(u)
  }

  ghost predicate WithdrawnFrom(pub: Endpoint, kid: string, t: real) {
    forall u :: u >= t ==> kid !in pub(u)
  }

  /** A run whose last call asks for a kid published from t on, at t + grace or later. */
  ghost predicate AsksPublished(delay: real, grace: real, pub: Endpoint, t: real, calls: seq<Call>) {
    calls != [] && Sequential(calls) && AllAnswered(calls, pub, delay)
    && PublishedFrom(pub, calls[|calls| - 1].kid, t) && calls[|calls| - 1].expiryAt >= t + grace
  }

  ghost predicate ResolvesWithin(cfg: Config, delay: real, grace: real) {
    forall pub, t, calls :: AsksPublished(delay, grace, pub, t, calls) ==> Last(cfg, calls).Found?
  }

  /** A run whose last call asks for a kid withdrawn from t on, later than t + grace. */
  ghost predicate AsksWithdrawn(delay: real, grace: real, pub: Endpoint, t: real, calls: seq<Call>) {
    calls != [] && Sequential(calls) && AllAnswered(calls, pub, delay)
    && WithdrawnFrom(pub, calls[|calls| - 1].kid, t) && calls[|calls| - 1].expiryAt > t + grace
  }

  ghost predicate ForgottenWithin(cfg: Config, delay: real, grace: real) {
    forall pub, t, calls :: AsksWithdrawn(delay, grace, pub, t, calls) ==> !Last(cfg, calls).Found?
  }

  /** A newly published kid resolves in every call from publication + grace on exactly
      when grace covers the cooldown, and the negative TTL plus the delay between an
      answer and its stamps. With no delay that is the larger of the two settings. */
  lemma PublishedKeyResolves(cfg: Config, delay: real, grace: real)
    requires Positive(cfg) && delay >= 0.0
    ensures ResolvesWithin(cfg, delay, grace) <==> grace >= MissingAge(cfg, delay)
  {
    if grace >= MissingAge(cfg, delay) {
      forall pub, t, calls | AsksPublished(delay, grace, pub, t, calls) ensures Last(cfg, calls).Found? {
        AnswersAreRecent(cfg, pub, delay, calls);
      }
    } else if grace < cfg.minRefetch {
      MissedInCooldown(cfg, delay, grace);
    } else {
      MissedInNegativeCache(cfg, delay, grace);
    }
  }

  /** A withdrawn kid resolves in no call after withdrawal + grace exactly when grace
      covers the cooldown, and the cache TTL plus that same delay. */
  lemma WithdrawnKeyIsForgotten(cfg: Config, delay: real, grace: real)
    requires Positive(cfg) && delay >= 0.0
    ensures ForgottenWithin(cfg, delay, grace) <==> grace >= FoundAge(cfg, delay)
  {
    if grace >= FoundAge(cfg, delay) {
      forall pub, t, calls | AsksWithdrawn(delay, grace, pub, t, calls) ensures !Last(cfg, calls).Found? {
        AnswersAreRecent(cfg, pub, delay, calls);
      }
    } else if grace < cfg.minRefetch {
      ServedInCooldown(cfg, delay, grace);
    } else {
      ServedFromCache(cfg, delay, grace);
    }
  }

  // ----- The runs that make both bounds tight -----

  function KeyA(): Key {
    Key("a", "a")
  }

  /** kid "a" is always published; kid "b" only before, or only from, time 0. */
  function BTill0(): Endpoint {
    u => if u < 0.0 then map["a" := KeyA(), "b" := KeyA()] else map["a" := KeyA()]
  }

  function BFrom0(): Endpoint {
    u => if u < 0.0 then map["a" := KeyA()] else map["a" := KeyA(), "b" := KeyA()]
  }

  function CallAt(pub: Endpoint, kid: string, t: real, stamped: real): Call {
    Call(kid, t, t, t, t, t, stamped, stamped, Keys(pub(t)))
  }

  function TwoCalls(pub: Endpoint, first: string, t: real, stamped: real, second: string, u: real): seq<Call> {
    [CallAt(pub, first, t, stamped), CallAt(pub, second, u, u)]
  }

  lemma TwoCallsRun(cfg: Config, delay: real, pub: Endpoint, first: string, t: real, stamped: real, second: string,
                    u: real)
    requires t <= stamped <= u && stamped <= t + delay && delay >= 0.0
    ensures var calls := TwoCalls(pub, first, t, stamped, second, u);
      && Sequential(calls) && AllAnswered(calls, pub, delay)
      && Last(cfg, calls) == Outcome(Next(EMPTY, cfg, calls[0]), cfg, calls[1])
  {
    var calls := TwoCalls(pub, first, t, stamped, second, u);
    var one := [calls[0]];
    assert calls[..1] == one && one[..0] == [];
    assert After(cfg, one) == Next(EMPTY, cfg, calls[0]);
  }

  lemma MissedInCooldown(cfg: Config, delay: real, grace: real)
    requires Positive(cfg) && delay >= 0.0 && grace < cfg.minRefetch
    ensures !ResolvesWithin(cfg, delay, grace)
  {
    var e := (cfg.minRefetch - grace) / 2.0;
    var u := Max(grace, -e);
    var calls := TwoCalls(BFrom0(), "a", -e, -e, "b", u);
    TwoCallsRun(cfg, delay, BFrom0(), "a", -e, -e, "b", u);
    assert AsksPublished(delay, grace, BFrom0(), 0.0, calls);
    assert Last(cfg, calls) == Unknown;
  }

  lemma MissedInNegativeCache(cfg: Config, delay: real, grace: real)
    requires Positive(cfg) && delay >= 0.0 && grace < cfg.negativeTTL + delay
    ensures !ResolvesWithin(cfg, delay, grace)
  {
    var e := (cfg.negativeTTL + delay - grace) / 2.0;
    var u := Max(grace, delay - e);
    var calls := TwoCalls(BFrom0(), "b", -e, delay - e, "b", u);
    TwoCallsRun(cfg, delay, BFrom0(), "b", -e, delay - e, "b", u);
    assert AsksPublished(delay, grace, BFrom0(), 0.0, calls);
    assert Last(cfg, calls) == Unknown;
  }

  lemma ServedInCooldown(cfg: Config, delay: real, grace: real)
    requires Positive(cfg) && delay >= 0.0 && grace < cfg.minRefetch
    ensures !ForgottenWithin(cfg, delay, grace)
  {
    var e := (cfg.minRefetch - grace) / 3.0;
    var u := Max(grace + e, -e);
    var calls := TwoCalls(BTill0(), "b", -e, -e, "b", u);
    TwoCallsRun(cfg, delay, BTill0(), "b", -e, -e, "b", u);
    assert AsksWithdrawn(delay, grace, BTill0(), 0.0, calls);
    assert Last(cfg, calls) == Found(KeyA());
  }

  lemma ServedFromCache(cfg: Config, delay: real, grace: real)
    requires Positive(cfg) && delay >= 0.0 && grace < cfg.cacheTTL + delay
    ensures !ForgottenWithin(cfg, delay, grace)
  {
    var e := (cfg.cacheTTL + delay - grace) / 2.0;
    var u := Max(grace + e, delay - e);
    var calls := TwoCalls(BTill0(), "b", -e, delay - e, "b", u);
    TwoCallsRun(cfg, delay, BTill0(), "b", -e, delay - e, "b", u);
    assert AsksWithdrawn(delay, grace, BTill0(), 0.0, calls);
    assert Last(cfg, calls) == Found(KeyA());
  }

  // ----- Fetches keep their distance -----

  lemma {:induction false} AttemptIsRemembered(cfg: Config, calls: seq<Call>, i: nat)
    requires Sequential(calls) && i < |calls| && Fetches(After(cfg, calls[..i]), cfg, calls[i])
    ensures After(cfg, calls).lastAttempt.Some? && After(cfg, calls).lastAttempt.value >= calls[i].attempt
  {
    var front := calls[..|calls| - 1];
    if i < |front| {
      assert front[..i] == calls[..i];
      AttemptIsRemembered(cfg, front, i);
    }
  }

  /** Calls one at a time: whatever kids are presented and whatever the endpoint
      answers, fetches start at least minRefetch apart. */
  lemma SequentialFetchesAreSpaced(cfg: Config, calls: seq<Call>, i: nat, j: nat)
    requires Sequential(calls) && i < j < |calls|
    requires Fetches(After(cfg, calls[..i]), cfg, calls[i]) && Fetches(After(cfg, calls[..j]), cfg, calls[j])
    ensures calls[j].attempt >= calls[i].attempt + cfg.minRefetch
  {
    var front := calls[..j];
    assert front[..i] == calls[..i];
    AttemptIsRemembered(cfg, front, i);
  }
}
