/** The feature-policy cache: a list kept for a while, refreshed under the write lock,
    dropped after every update, and served stale when a refresh fails
    (tiering/policy_service.go). Times are in seconds. */
module PolicyCache {
  import opened Text

  datatype FeatureType = Access | NumericLimit | Other

  datatype Policy = Policy(feature: string, kind: FeatureType, freemium: string, pro: string, enterprise: string)

  datatype TierRule = TierRule(allowed: Option<bool>, limit: Option<int>)

  // ----- The service, one call at a time -----

  predicate Suits(kind: FeatureType, rule: Option<TierRule>) {
    rule.Some? && (kind == Access ==> rule.value.allowed.Some?) && (kind == NumericLimit ==> rule.value.limit.Some?)
  }

  /** No rule at all, or one without the field its feature needs. */
  predicate Unsuited(kind: FeatureType, rule: Option<TierRule>) {
    match rule
    case None => true
    case Some(r) => (kind == Access && r.allowed == None) || (kind == NumericLimit && r.limit == None)
  }

  method ValidateTierRules(kind: FeatureType, tiers: seq<string>, decode: string -> Option<TierRule>) returns (ok: bool)
    ensures ok <==> forall i :: 0 <= i < |tiers| ==> Suits(kind, decode(tiers[i]))
    ensures ok && kind == Access ==> forall i :: 0 <= i < |tiers| ==>
      decode(tiers[i]).Some? && decode(tiers[i]).value.allowed.Some?
    ensures ok && kind == NumericLimit ==> forall i :: 0 <= i < |tiers| ==>
      decode(tiers[i]).Some? && decode(tiers[i]).value.limit.Some?
    ensures !ok ==> exists i :: 0 <= i < |tiers| && Unsuited(kind, decode(tiers[i]))
  {
    for i := 0 to |tiers|
      invariant forall j :: 0 <= j < i ==> Suits(kind, decode(tiers[j]))
    {
      var rule := decode(tiers[i]);
      if rule.None? {
        return false;
      }
      match kind {
        case Access => if rule.value.allowed.None? { return false; }
        case NumericLimit => if rule.value.limit.None? { return false; }
        case Other =>
      }
    }
    ok := true;
  }

  /** Where the policy of that name stands first. */
  ghost predicate FirstAt(policies: seq<Policy>, feature: string, i: int) {
    0 <= i < |policies| && policies[i].feature == feature
    && forall j :: 0 <= j < i ==> policies[j].feature != feature
  }

  /** ruleFor on a list: the first policy of that name decides, through the column the
      selector picks for the normalised plan; a rule that does not decode is an error. */
  method RuleFor(policies: seq<Policy>, feature: string, plan: string, normalise: string -> string,
                 selector: (string, Policy) -> string, decode: string -> Option<TierRule>)
    returns (r: Option<TierRule>)
    ensures forall i :: FirstAt(policies, feature, i) ==> r == decode(selector(normalise(plan), policies[i]))
    ensures (forall i :: 0 <= i < |policies| ==> policies[i].feature != feature) ==> r == None
  {
    var normalised := normalise(plan);
    for i := 0 to |policies|
      invariant forall j :: 0 <= j < i ==> policies[j].feature != feature
    {
      if policies[i].feature == feature {
        return decode(selector(normalised, policies[i]));
      }
    }
    r := None;
  }

  class PolicyService {
    var cached: Option<seq<Policy>>
    var cacheExpiry: Option<int>
    const cacheTTL: int

    constructor (ttl: int)
      ensures cached == None && cacheExpiry == None && cacheTTL == ttl
    {
      cached, cacheExpiry, cacheTTL := None, None, ttl;
    }

    predicate IsFresh(now: int)
      reads this
    {
      cached.Some? && cacheExpiry.Some? && now < cacheExpiry.value
    }

    /** now and again are the two freshness readings, listed the repository's answer
        (None: it failed), done the clock after it. */
    method All(now: int, again: int, listed: Option<seq<Policy>>, done: int) returns (r: Option<seq<Policy>>)
      modifies this
      ensures old(IsFresh(now) || IsFresh(again)) ==> r == old(cached) && unchanged(this)
      ensures !old(IsFresh(now) || IsFresh(again)) && listed.Some? ==>
        r == listed && cached == listed && cacheExpiry == Some(done + cacheTTL)
      ensures !old(IsFresh(now) || IsFresh(again)) && listed.None? ==> r == old(cached) && unchanged(this)
      ensures listed.Some? && r != listed ==>
        r == old(cached) && r.Some? && old(cacheExpiry).Some?
        && (now < old(cacheExpiry).value || again < old(cacheExpiry).value)
    {
      if cacheExpiry.Some? && now < cacheExpiry.value && cached.Some? {
        return cached;
      }
      if cacheExpiry.Some? && again < cacheExpiry.value && cached.Some? {
        return cached;
      }
      if listed.None? {
        return cached;
      }
      cached, cacheExpiry := listed, Some(done + cacheTTL);
      r := listed;
    }

    method Bust()
      modifies this
      ensures cached == None && cacheExpiry == None
    {
      cached, cacheExpiry := None, None;
    }

    /** existing is the stored row, saved whether the repository accepted the write. */
    method UpdatePolicy(existing: Option<Policy>, freemium: string, pro: string, enterprise: string,
                        decode: string -> Option<TierRule>, saved: bool) returns (r: Option<Policy>)
      modifies this
      ensures r.Some? <==>
        existing.Some? && saved
        && forall t :: t in [freemium, pro, enterprise] ==> Suits(existing.value.kind, decode(t))
      ensures r.Some? ==>
        cached == None && cacheExpiry == None
        && r.value == existing.value.(freemium := freemium, pro := pro, enterprise := enterprise)
      ensures r.None? ==> unchanged(this)
    {
      if existing.None? {
        return None;
      }
      var tiers := [freemium, pro, enterprise];
      var ok := ValidateTierRules(existing.value.kind, tiers, decode);
      assert ok ==> forall t :: t in tiers ==> Suits(existing.value.kind, decode(t));
      assert !ok ==> exists i :: 0 <= i < |tiers| && tiers[i] in tiers && !Suits(existing.value.kind, decode(tiers[i]));
      if !ok || !saved {
        return None;
      }
      Bust();
      r := Some(existing.value.(freemium := freemium, pro := pro, enterprise := enterprise));
    }
  }

  // ----- Every interleaving -----

  /** The stored rows after the first n saves. */
  ghost function Rows(seed: map<string, Policy>, saves: seq<Policy>, n: nat): map<string, Policy>
    requires n <= |saves|
  {
    if n == 0 then seed else Rows(seed, saves, n - 1)[saves[n - 1].feature := saves[n - 1]]
  }

  /** A read: since counts the saves behind updates that had returned when it was
      called, a version the saves behind the list it uses. */
  datatype Thread =
    | Called(since: nat)
    | Missed(since: nat)
    | Refreshing(since: nat)
    | Listed(since: nat, version: nat)
    | Answered(since: nat, version: nat)
    | Unavailable
    | Saved(version: nat)
    | Updated(version: nat)

  /** returned is the greatest version an update has returned after saving. */
  datatype State = State(now: int, saves: seq<Policy>, cached: Option<nat>, expiry: int, lock: Option<nat>,
                         returned: nat, threads: map<nat, Thread>)

  datatype Action =
    | Call(t: nat)
    | FastPath(t: nat)
    | SlowPath(t: nat)
    | Query(t: nat)
    | RefreshFails(t: nat)
    | Install(t: nat)
    | Save(t: nat, policy: Policy)
    | Drop(t: nat)
    | Advance(seconds: nat)

  const INITIAL := State(0, [], None, 0, None, 0, map[])

  ghost predicate Enabled(s: State, a: Action) {
    match a
    case Call(t) => t !in s.threads
    case FastPath(t) => t in s.threads && s.threads[t].Called? && s.lock == None
    case SlowPath(t) => t in s.threads && s.threads[t].Missed? && s.lock == None
    case Query(t) => t in s.threads && s.threads[t].Refreshing?
    case RefreshFails(t) => t in s.threads && s.threads[t].Refreshing?
    case Install(t) => t in s.threads && s.threads[t].Listed?
    case Save(t, _) => t !in s.threads
    case Drop(t) => t in s.threads && s.threads[t].Saved? && s.lock == None
    case Advance(_) => true
  }

  ghost predicate Fresh(s: State) {
    s.cached.Some? && s.now < s.expiry
  }

  ghost function Set(s: State, t: nat, p: Thread): State {
    s.(threads := s.threads[t := p])
  }

  /** A refresh holds the write lock from SlowPath until Install or RefreshFails; the
      repository reads its rows at Query, while updates may keep saving. */
  ghost function Do(s: State, a: Action, ttl: int): State
    requires Enabled(s, a)
  {
    match a
    case Call(t) => Set(s, t, Called(s.returned))
    case FastPath(t) =>
      var since := s.threads[t].since;
      Set(s, t, if Fresh(s) then Answered(since, s.cached.value) else Missed(since))
    case SlowPath(t) =>
      var since := s.threads[t].since;
      if Fresh(s) then Set(s, t, Answered(since, s.cached.value))
      else Set(s, t, Refreshing(since)).(lock := Some(t))
    case Query(t) => Set(s, t, Listed(s.threads[t].since, |s.saves|))
    case RefreshFails(t) =>
      var p := if s.cached.Some? then Answered(s.threads[t].since, s.cached.value) else Unavailable;
      Set(s, t, p).(lock := None)
    case Install(t) =>
      var l := s.threads[t];
      Set(s, t, Answered(l.since, l.version)).(lock := None, cached := Some(l.version), expiry := s.now + ttl)
    case Save(t, policy) => Set(s, t, Saved(|s.saves| + 1)).(saves := s.saves + [policy])
    case Drop(t) =>
      var v := s.threads[t].version;
      Set(s, t, Updated(v)).(cached := None, expiry := 0, returned := if v > s.returned then v else s.returned)
    case Advance(d) => s.(now := s.now + d)
  }

  ghost predicate IsRun(s: State, acts: seq<Action>, ttl: int)
    decreases |acts|
  {
    acts == [] || (Enabled(s, acts[0]) && IsRun(Do(s, acts[0], ttl), acts[1..], ttl))
  }

  ghost function Final(s: State, acts: seq<Action>, ttl: int): State
    requires IsRun(s, acts, ttl)
    decreases |acts|
  {
    if acts == [] then s else Final(Do(s, acts[0], ttl), acts[1..], ttl)
  }

  ghost predicate ThreadOk(s: State, t: nat, p: Thread) {
    match p
    case Called(since) => since <= s.returned
    case Missed(since) => since <= s.returned
    case Refreshing(since) => since <= s.returned && s.lock == Some(t)
    case Listed(since, v) => since <= s.returned <= v <= |s.saves| && s.lock == Some(t)
    case Answered(since, v) => since <= v <= |s.saves|
    case Unavailable => true
    case Saved(v) => 0 < v <= |s.saves|
    case Updated(v) => 0 < v <= s.returned
  }

  ghost predicate Inv(s: State) {
    && s.returned <= |s.saves|
    && (s.cached.Some? ==> s.returned <= s.cached.value <= |s.saves|)
    && forall t :: t in s.threads ==> ThreadOk(s, t, s.threads[t])
  }

  lemma DoKeepsInv(s: State, a: Action, ttl: int)
    requires Inv(s) && Enabled(s, a)
    ensures Inv(Do(s, a, ttl))
  {
  }

  lemma {:induction false} RunKeepsInv(s: State, acts: seq<Action>, ttl: int)
    requires Inv(s) && IsRun(s, acts, ttl)
    ensures Inv(Final(s, acts, ttl))
    decreases |acts|
  {
    if acts != [] {
      DoKeepsInv(s, acts[0], ttl);
      RunKeepsInv(Do(s, acts[0], ttl), acts[1..], ttl);
    }
  }

  lemma {:induction false} JoinedRuns(s: State, a: seq<Action>, b: seq<Action>, ttl: int)
    requires IsRun(s, a + b, ttl)
    ensures IsRun(s, a, ttl) && IsRun(Final(s, a, ttl), b, ttl)
    ensures Final(s, a + b, ttl) == Final(Final(s, a, ttl), b, ttl)
    decreases |a|
  {
    if a == [] {
      assert a + b == b;
    } else {
      assert (a + b)[1..] == a[1..] + b;
      JoinedRuns(Do(s, a[0], ttl), a[1..], b, ttl);
    }
  }

  /** A thread's since is fixed when it is called. */
  ghost predicate CalledSince(p: Thread, n: nat) {
    p.Unavailable? || ((p.Called? || p.Missed? || p.Refreshing? || p.Listed? || p.Answered?) && p.since == n)
  }

  lemma {:induction false} SinceIsKept(s: State, acts: seq<Action>, t: nat, n: nat, ttl: int)
    requires IsRun(s, acts, ttl) && t in s.threads && CalledSince(s.threads[t], n)
    ensures var f := Final(s, acts, ttl); t in f.threads && CalledSince(f.threads[t], n)
    decreases |acts|
  {
    if acts != [] {
      SinceIsKept(Do(s, acts[0], ttl), acts[1..], t, n, ttl);
    }
  }

  /** In every interleaving, a read called after an update had returned uses a list that
      was read after that update's save: whatever refresh overlapped it, and also when a
      later refresh failed and a stale list is served. */
  lemma ReadsSeeReturnedUpdates(before: seq<Action>, after: seq<Action>, reader: nat, updater: nat, ttl: int)
    requires IsRun(INITIAL, before + [Call(reader)] + after, ttl)
    ensures IsRun(INITIAL, before, ttl)
    ensures var s := Final(INITIAL, before, ttl);
      var f := Final(INITIAL, before + [Call(reader)] + after, ttl);
      updater in s.threads && s.threads[updater].Updated? && reader in f.threads && f.threads[reader].Answered? ==>
        f.threads[reader].version >= s.threads[updater].version
  {
    var call := [Call(reader)];
    var acts := before + call + after;
    JoinedRuns(INITIAL, before + call, after, ttl);
    JoinedRuns(INITIAL, before, call, ttl);
    var s := Final(INITIAL, before, ttl);
    RunKeepsInv(INITIAL, before, ttl);
    assert call[1..] == [];
    var c := Do(s, call[0], ttl);
    assert Final(s, call, ttl) == c;
    SinceIsKept(c, after, reader, s.returned, ttl);
    RunKeepsInv(INITIAL, acts, ttl);
    var f := Final(INITIAL, acts, ttl);
    assert updater in s.threads ==> ThreadOk(s, updater, s.threads[updater]);
    assert reader in f.threads ==> ThreadOk(f, reader, f.threads[reader]);
  }

  /** What such a list says of a feature: the row saved by the update, or by a later one. */
  lemma {:induction false} LaterListHasTheRow(seed: map<string, Policy>, saves: seq<Policy>, u: nat, v: nat)
    returns (k: nat)
    requires 0 < u <= v <= |saves|
    ensures u <= k <= v && saves[k - 1].feature == saves[u - 1].feature
    ensures saves[u - 1].feature in Rows(seed, saves, v)
    ensures Rows(seed, saves, v)[saves[u - 1].feature] == saves[k - 1]
    decreases v
  {
    if v == u || saves[v - 1].feature == saves[u - 1].feature {
      k := v;
    } else {
      k := LaterListHasTheRow(seed, saves, u, v - 1);
    }
  }

  lemma {:induction false} SavesGrow(s: State, acts: seq<Action>, ttl: int)
    requires IsRun(s, acts, ttl)
    ensures s.saves <= Final(s, acts, ttl).saves
    decreases |acts|
  {
    if acts != [] {
      SavesGrow(Do(s, acts[0], ttl), acts[1..], ttl);
    }
  }

  /** So in every interleaving the list such a reader uses holds, for the updated
      feature, the row that update saved or a later save of that feature. */
  lemma ReadersListHasTheRow(seed: map<string, Policy>, before: seq<Action>, after: seq<Action>, reader: nat,
                             updater: nat, ttl: int) returns (k: nat)
    requires IsRun(INITIAL, before, ttl) && IsRun(INITIAL, before + [Call(reader)] + after, ttl)
    requires var s, f := Final(INITIAL, before, ttl), Final(INITIAL, before + [Call(reader)] + after, ttl);
      updater in s.threads && s.threads[updater].Updated? && reader in f.threads && f.threads[reader].Answered?
    ensures var s, f := Final(INITIAL, before, ttl), Final(INITIAL, before + [Call(reader)] + after, ttl);
      var u, v := s.threads[updater].version, f.threads[reader].version;
      && 0 < u <= k <= v <= |f.saves| && u <= |s.saves| && f.saves[k - 1].feature == s.saves[u - 1].feature
      && s.saves[u - 1].feature in Rows(seed, f.saves, v)
      && Rows(seed, f.saves, v)[s.saves[u - 1].feature] == f.saves[k - 1]
  {
    ReadsSeeReturnedUpdates(before, after, reader, updater, ttl);
    var acts := before + [Call(reader)] + after;
    var s, f := Final(INITIAL, before, ttl), Final(INITIAL, acts, ttl);
    RunKeepsInv(INITIAL, before, ttl);
    RunKeepsInv(INITIAL, acts, ttl);
    assert ThreadOk(s, updater, s.threads[updater]) && ThreadOk(f, reader, f.threads[reader]);
    assert acts == before + ([Call(reader)] + after);
    JoinedRuns(INITIAL, before, [Call(reader)] + after, ttl);
    SavesGrow(s, [Call(reader)] + after, ttl);
    k := LaterListHasTheRow(seed, f.saves, s.threads[updater].version, f.threads[reader].version);
  }

  // ----- How old a list may be -----

  /** The states an interleaving goes through. */
  ghost predicate IsTrace(ss: seq<State>, acts: seq<Action>, ttl: int) {
    && |ss| == |acts| + 1 && ss[0] == INITIAL
    && forall i :: 0 <= i < |acts| ==> Enabled(ss[i], acts[i]) && ss[i + 1] == Do(ss[i], acts[i], ttl)
  }

  ghost function Trace(s: State, acts: seq<Action>, ttl: int): seq<State>
    requires IsRun(s, acts, ttl)
    decreases |acts|
  {
    if acts == [] then [s] else [s] + Trace(Do(s, acts[0], ttl), acts[1..], ttl)
  }

  lemma {:induction false} TraceSteps(s: State, acts: seq<Action>, ttl: int)
    requires IsRun(s, acts, ttl)
    ensures var ss := Trace(s, acts, ttl);
      && |ss| == |acts| + 1 && ss[0] == s && ss[|acts|] == Final(s, acts, ttl)
      && forall i :: 0 <= i < |acts| ==> Enabled(ss[i], acts[i]) && ss[i + 1] == Do(ss[i], acts[i], ttl)
    decreases |acts|
  {
    hide Enabled, Do;
    if acts != [] {
      var s1, rest := Do(s, acts[0], ttl), acts[1..];
      TraceSteps(s1, rest, ttl);
      var ss, tail := Trace(s, acts, ttl), Trace(s1, rest, ttl);
      assert ss == [s] + tail;
      forall i | 0 <= i < |acts| ensures Enabled(ss[i], acts[i]) && ss[i + 1] == Do(ss[i], acts[i], ttl) {
        if i > 0 {
          assert ss[i] == tail[i - 1] && ss[i + 1] == tail[i] && acts[i] == rest[i - 1];
        }
      }
    }
  }

  /** Every run has its trace. */
  lemma RunHasTrace(acts: seq<Action>, ttl: int)
    requires IsRun(INITIAL, acts, ttl)
    ensures IsTrace(Trace(INITIAL, acts, ttl), acts, ttl)
    ensures Trace(INITIAL, acts, ttl)[|acts|] == Final(INITIAL, acts, ttl)
  {
    TraceSteps(INITIAL, acts, ttl);
    hide Enabled, Do;
  }

  /** Step i put that version into the cache. */
  ghost predicate Installed(ss: seq<State>, acts: seq<Action>, n: nat, v: nat, i: nat) {
    && i < n <= |acts| < |ss| && acts[i].Install?
    && acts[i].t in ss[i].threads && ss[i].threads[acts[i].t].Listed? && ss[i].threads[acts[i].t].version == v
  }

  /** At step j reader t took a version that was put there at step i, less than ttl before. */
  ghost predicate TookYoung(ss: seq<State>, acts: seq<Action>, n: nat, t: nat, v: nat, ttl: int, i: nat, j: nat) {
    && i < j < n <= |acts| < |ss| && Installed(ss, acts, j, v, i)
    && (acts[j] == FastPath(t) || acts[j] == SlowPath(t)) && ss[j].now < ss[i].now + ttl
  }

  /** At step j reader t read the list itself, or failed to and took what was there. */
  ghost predicate Refreshed(ss: seq<State>, acts: seq<Action>, n: nat, t: nat, v: nat, j: nat) {
    && j < n <= |acts| < |ss|
    && (|| (acts[j] == Install(t) && Installed(ss, acts, n, v, j))
        || (acts[j] == RefreshFails(t) && ss[j].cached == Some(v)))
  }

  ghost predicate ReaderWhy(ss: seq<State>, acts: seq<Action>, n: nat, t: nat, p: Thread, ttl: int) {
    p.Answered? ==>
      || (exists i, j :: TookYoung(ss, acts, n, t, p.version, ttl, i, j))
      || (exists j :: Refreshed(ss, acts, n, t, p.version, j))
  }

  ghost predicate CacheWhy(ss: seq<State>, acts: seq<Action>, n: nat, s: State, ttl: int) {
    s.cached.Some? ==> exists i :: Filled(ss, acts, n, s, ttl, i)
  }

  ghost predicate Filled(ss: seq<State>, acts: seq<Action>, n: nat, s: State, ttl: int, i: nat) {
    s.cached.Some? && Installed(ss, acts, n, s.cached.value, i) && s.expiry == ss[i].now + ttl
  }

  lemma ReaderStays(ss: seq<State>, acts: seq<Action>, n: nat, t: nat, p: Thread, ttl: int)
    requires n < |acts| && ReaderWhy(ss, acts, n, t, p, ttl)
    ensures ReaderWhy(ss, acts, n + 1, t, p, ttl)
  {
    if p.Answered? {
      if i, j :| TookYoung(ss, acts, n, t, p.version, ttl, i, j) {
        assert TookYoung(ss, acts, n + 1, t, p.version, ttl, i, j);
      } else {
        var j :| Refreshed(ss, acts, n, t, p.version, j);
        assert Refreshed(ss, acts, n + 1, t, p.version, j);
      }
    }
  }

  lemma CacheStep(ss: seq<State>, acts: seq<Action>, n: nat, ttl: int)
    requires n < |acts| && |ss| == |acts| + 1 && Enabled(ss[n], acts[n]) && ss[n + 1] == Do(ss[n], acts[n], ttl)
    requires CacheWhy(ss, acts, n, ss[n], ttl)
    ensures CacheWhy(ss, acts, n + 1, ss[n + 1], ttl)
  {
    if acts[n].Install? {
      assert Filled(ss, acts, n + 1, ss[n + 1], ttl, n);
    } else if !acts[n].Drop? && ss[n].cached.Some? {
      var i :| Filled(ss, acts, n, ss[n], ttl, i);
      assert Filled(ss, acts, n + 1, ss[n + 1], ttl, i);
    }
  }

  lemma ReaderStep(ss: seq<State>, acts: seq<Action>, n: nat, t: nat, ttl: int)
    requires n < |acts| && |ss| == |acts| + 1 && Enabled(ss[n], acts[n]) && ss[n + 1] == Do(ss[n], acts[n], ttl)
    requires CacheWhy(ss, acts, n, ss[n], ttl) && t in ss[n + 1].threads
    requires t in ss[n].threads ==> ReaderWhy(ss, acts, n, t, ss[n].threads[t], ttl)
    ensures ReaderWhy(ss, acts, n + 1, t, ss[n + 1].threads[t], ttl)
  {
    var a := acts[n];
    if (a == FastPath(t) || a == SlowPath(t)) && Fresh(ss[n]) {
      var i :| Filled(ss, acts, n, ss[n], ttl, i);
      assert TookYoung(ss, acts, n + 1, t, ss[n].cached.value, ttl, i, n);
    } else if a == Install(t) {
      assert Refreshed(ss, acts, n + 1, t, ss[n].threads[t].version, n);
    } else if a == RefreshFails(t) && ss[n].cached.Some? {
      assert Refreshed(ss, acts, n + 1, t, ss[n].cached.value, n);
    } else if t in ss[n].threads {
      hide ReaderWhy, CacheWhy;
      ReaderStays(ss, acts, n, t, ss[n].threads[t], ttl);
      UnansweredWhy(ss, acts, n + 1, t, ss[n + 1].threads[t], ttl);
    }
  }

  lemma UnansweredWhy(ss: seq<State>, acts: seq<Action>, n: nat, t: nat, p: Thread, ttl: int)
    ensures !p.Answered? ==> ReaderWhy(ss, acts, n, t, p, ttl)
  {
  }

  lemma {:induction false} TraceIsExplained(ss: seq<State>, acts: seq<Action>, n: nat, t: nat, ttl: int)
    requires IsTrace(ss, acts, ttl) && n <= |acts|
    ensures CacheWhy(ss, acts, n, ss[n], ttl)
    ensures t in ss[n].threads ==> ReaderWhy(ss, acts, n, t, ss[n].threads[t], ttl)
  {
    if n > 0 {
      TraceIsExplained(ss, acts, n - 1, t, ttl);
      assert Enabled(ss[n - 1], acts[n - 1]) && ss[n] == Do(ss[n - 1], acts[n - 1], ttl);
      hide CacheWhy, ReaderWhy, Do, Enabled, IsTrace;
      CacheStep(ss, acts, n - 1, ttl);
      if t in ss[n].threads {
        ReaderStep(ss, acts, n - 1, t, ttl);
      }
    }
  }

  /** In every interleaving a read answers from a list put into the cache less than the
      cache TTL before, from the list it read itself, or, when it could not read one, from
      what was there. */
  lemma AnswersAreYoung(ss: seq<State>, acts: seq<Action>, n: nat, t: nat, ttl: int)
    requires IsTrace(ss, acts, ttl) && n <= |acts| && t in ss[n].threads && ss[n].threads[t].Answered?
    ensures var v := ss[n].threads[t].version;
      || (exists i, j :: TookYoung(ss, acts, n, t, v, ttl, i, j))
      || (exists j :: Refreshed(ss, acts, n, t, v, j))
  {
    TraceIsExplained(ss, acts, n, t, ttl);
    hide IsTrace, TookYoung, Refreshed;
  }
}
