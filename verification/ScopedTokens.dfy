/** Scoped service tokens: lookup, the per-entry lock held during an exchange, and
    invalidation, over every interleaving of callers
    (socrate/service_token_scopes.go, socrate/client.go). */
module ScopedTokens {
  import opened Text
  import opened Scopes

  const RENEW_BEFORE := 30

  /** The scope member of a token response, as it arrives. */
  datatype ScopeField = Missing | Null | NotText | Granted(text: string)

  datatype Answer = Failure | Response(value: string, expiry: int, scope: ScopeField)

  /** A cached token and the exchange it came from: the scope parameter sent, how many
      invalidations had happened when it began, and the scope member of the answer. */
  datatype Token = Token(value: string, expiry: int, asked: string, began: nat, scope: ScopeField)

  datatype Result = Failed | Issued(token: Token)

  predicate Reusable(t: Option<Token>, now: int) {
    t.Some? && t.value.value != "" && now + RENEW_BEFORE < t.value.expiry
  }

  /** Section 5.1 of RFC 6749: an absent scope means all that was asked for. */
  predicate CoversAll(scopes: set<string>, field: ScopeField) {
    match field
    case Missing => true
    case Null => true
    case NotText => false
    case Granted(text) => scopes <= Elements(Fields(text))
  }

  function Exchanged(asked: string, began: nat, scopes: set<string>, answer: Answer): Option<Token> {
    if answer.Response? && answer.value != "" && CoversAll(scopes, answer.scope) then
      Some(Token(answer.value, answer.expiry, asked, began, answer.scope))
    else
      None
  }

  /** The loop that collects the scopes an answer lacks. */
  method MissingScopes(scopes: seq<string>, granted: seq<string>) returns (missing: seq<string>)
    ensures Elements(missing) == Elements(scopes) - Elements(granted)
    ensures missing == [] <==> Elements(scopes) <= Elements(granted)
  {
    missing := [];
    for i := 0 to |scopes|
      invariant Elements(missing) == Elements(scopes[..i]) - Elements(granted)
    {
      assert scopes[..i + 1] == scopes[..i] + [scopes[i]];
      assert Elements(scopes[..i] + [scopes[i]]) == Elements(scopes[..i]) + {scopes[i]};
      if scopes[i] !in granted {
        assert Elements(missing + [scopes[i]]) == Elements(missing) + {scopes[i]};
        missing := missing + [scopes[i]];
      }
    }
    assert scopes[..|scopes|] == scopes;
    assert missing != [] ==> missing[0] in Elements(missing);
    assert forall x :: x in missing ==> x in Elements(missing);
    assert missing == [] <==> Elements(missing) == {};
  }

  // ----- One call at a time -----

  class Client {
    const hasSecret: bool
    const cache: ScopedCache
    var tokens: map<nat, Token>
    var svcToken: string
    var svcExpiry: int

    constructor (hasSecret: bool)
      ensures cache.Valid() && fresh(cache) && tokens == map[] && svcToken == "" && this.hasSecret == hasSecret
    {
      this.hasSecret := hasSecret;
      cache := new ScopedCache();
      tokens, svcToken, svcExpiry := map[], "", 0;
    }

    /** began stands for the number of invalidations so far, kept with the token only to
        say which exchange it came from. */
    method ServiceTokenWithScopes(scopes: seq<string>, began: nat, now: int, answer: Answer)
      returns (r: Result, exchanged: bool)
      requires cache.Valid()
      modifies this`tokens, cache
      ensures cache.Valid()
      ensures !Acceptable(scopes) || !hasSecret ==>
        r == Failed && tokens == old(tokens) && cache.View() == old(cache.View())
      ensures Acceptable(scopes) && hasSecret ==>
        var key := KeyOf(scopes);
        && cache.View() == Lookup(old(cache.View()), key)
        && key in cache.View().slots
        && var e := cache.View().slots[key];
        var held := if e in old(tokens) then Some(old(tokens)[e]) else None;
        if Reusable(held, now) then r == Issued(held.value) && tokens == old(tokens)
        else
          var t := Exchanged(key, began, Elements(scopes), answer);
          if t.Some? then r == Issued(t.value) && tokens == old(tokens)[e := t.value]
          else r == Failed && tokens == old(tokens)
      ensures Acceptable(scopes) && hasSecret ==> KeyOf(scopes) in cache.View().slots
      ensures Acceptable(scopes) && hasSecret ==>
        var e := cache.View().slots[KeyOf(scopes)];
        var lasts := e in old(tokens) && old(tokens)[e].value != "" && now + 30 < old(tokens)[e].expiry;
        (exchanged <==> !lasts) && (lasts ==> r == Issued(old(tokens)[e]))
      ensures exchanged ==>
        (r == Failed <==>
           || answer.Failure? || answer.value == "" || answer.scope.NotText?
           || (answer.scope.Granted? && !(Elements(scopes) <= Elements(Fields(answer.scope.text)))))
      ensures exchanged && r.Issued? ==>
        r.token.value == answer.value && r.token.expiry == answer.expiry && r.token.scope == answer.scope
    {
      assert RENEW_BEFORE == 30;
      hide *;
      CanonicalIs(scopes);
      var norm := NormaliseScopes(scopes);
      if norm.None? {
        return Failed, false;
      }
      if !hasSecret {
        return Failed, false;
      }
      var key := Join(norm.value);
      var e := cache.ScopedEntry(key);
      ReusableIs(if e in tokens then Some(tokens[e]) else None, now);
      ExchangedIs(key, began, norm.value, answer);
      if e in tokens && tokens[e].value != "" && now + RENEW_BEFORE < tokens[e].expiry {
        return Issued(tokens[e]), false;
      }
      exchanged := true;
      if answer.Failure? || answer.value == "" || answer.scope.NotText? {
        return Failed, true;
      }
      if answer.scope.Granted? {
        var granted := CollectRuns(answer.scope.text, c => !IsSpace(c));
        var missing := MissingScopes(norm.value, granted);
        FieldsIs(answer.scope.text);
        if |missing| > 0 {
          return Failed, true;
        }
      }
      var t := Token(answer.value, answer.expiry, key, began, answer.scope);
      tokens := tokens[e := t];
      r := Issued(t);
    }

    /** A token asked for without naming a scope has one slot to itself. */
    method ServiceToken(now: int, answer: Answer) returns (r: Option<(string, int)>)
      modifies this`svcToken, this`svcExpiry
      ensures old(svcToken) != "" && now + 30 < old(svcExpiry) ==>
        r == Some((old(svcToken), old(svcExpiry))) && unchanged(this)
      ensures !(old(svcToken) != "" && now + 30 < old(svcExpiry)) ==>
        if hasSecret && answer.Response? && answer.value != ""
        then r == Some((answer.value, answer.expiry)) && svcToken == answer.value && svcExpiry == answer.expiry
        else r == None && unchanged(this)
    {
      if svcToken != "" && now + RENEW_BEFORE < svcExpiry {
        return Some((svcToken, svcExpiry));
      }
      if !hasSecret || answer.Failure? || answer.value == "" {
        return None;
      }
      svcToken, svcExpiry := answer.value, answer.expiry;
      r := Some((svcToken, svcExpiry));
    }

    /** Both caches are dropped, so the next call of either kind exchanges again. */
    method InvalidateServiceToken()
      requires cache.Valid()
      modifies this`svcToken, this`svcExpiry, cache
      ensures cache.Valid() && cache.View() == Cleared(old(cache.View())) && svcToken == ""
    {
      svcToken, svcExpiry := "", 0;
      cache.Invalidate();
    }
  }

  lemma CanonicalIs(scopes: seq<string>)
    ensures Canonical(scopes).Some? <==> Acceptable(scopes)
    ensures Acceptable(scopes) ==> Join(Canonical(scopes).value) == KeyOf(scopes) != ""
    ensures Acceptable(scopes) ==> Elements(Canonical(scopes).value) == Elements(scopes)
  {
    if Acceptable(scopes) {
      KeyRecoversSet(scopes);
    }
  }

  lemma ReusableIs(t: Option<Token>, now: int)
    ensures Reusable(t, now) <==> t.Some? && t.value.value != "" && now + RENEW_BEFORE < t.value.expiry
  {
  }

  lemma ExchangedIs(asked: string, began: nat, scopes: seq<string>, answer: Answer)
    ensures var t := Exchanged(asked, began, Elements(scopes), answer);
      if answer.Response? && answer.value != "" && !answer.scope.NotText?
        && (answer.scope.Granted? ==> Elements(scopes) <= Elements(Fields(answer.scope.text)))
      then t == Some(Token(answer.value, answer.expiry, asked, began, answer.scope))
      else t == None
  {
  }

  lemma FieldsIs(text: string)
    ensures Runs(text, c => !IsSpace(c)) == Fields(text)
  {
  }

  // ----- Every interleaving -----

  /** A cache entry outlives its place in the cache while a caller holds it. */
  datatype Entry = Entry(key: string, born: nat, token: Option<Token>, holder: Option<nat>)

  datatype Caller =
    | Waiting(scopes: seq<string>, entry: nat, since: nat)
    | Exchanging(scopes: seq<string>, entry: nat, since: nat, began: nat)
    | Returned(scopes: seq<string>, since: nat, result: Result)

  /** epoch counts invalidations; since is the epoch a caller looked its entry up in. */
  datatype State = State(now: int, epoch: nat, cache: Cache, entries: map<nat, Entry>, callers: map<nat, Caller>)

  datatype Action =
    | Start(caller: nat, scopes: seq<string>)
    | Lock(caller: nat)
    | Finish(caller: nat, answer: Answer)
    | InvalidateAll
    | Advance(seconds: nat)

  const INITIAL := State(0, 0, Cache(map[], [], 0), map[], map[])

  ghost predicate Enabled(s: State, a: Action) {
    match a
    case Start(c, _) => c !in s.callers
    case Lock(c) =>
      c in s.callers && s.callers[c].Waiting? && s.callers[c].entry in s.entries
      && s.entries[s.callers[c].entry].holder == None
    case Finish(c, _) => c in s.callers && s.callers[c].Exchanging? && s.callers[c].entry in s.entries
    case InvalidateAll => true
    case Advance(_) => true
  }

  ghost function Do(s: State, a: Action): State
    requires Enabled(s, a)
  {
    match a
    case Start(c, scopes) => DoStart(s, c, scopes)
    case Lock(c) => DoLock(s, c)
    case Finish(c, answer) => DoFinish(s, c, answer)
    case InvalidateAll => s.(epoch := s.epoch + 1, cache := Cleared(s.cache))
    case Advance(d) => s.(now := s.now + d)
  }

  ghost function DoStart(s: State, c: nat, scopes: seq<string>): State {
    if !Acceptable(scopes) then
      s.(callers := s.callers[c := Returned(scopes, s.epoch, Failed)])
    else
      var key := KeyOf(scopes);
      var cache := Lookup(s.cache, key);
      var e := SlotFor(s.cache, key);
      var entries := if key in s.cache.slots then s.entries else s.entries[e := Entry(key, s.epoch, None, None)];
      s.(cache := cache, entries := entries, callers := s.callers[c := Waiting(scopes, e, s.epoch)])
  }

  function SlotFor(cache: Cache, key: string): nat {
    if key in cache.slots then cache.slots[key] else cache.next
  }

  ghost function DoLock(s: State, c: nat): State
    requires Enabled(s, Lock(c))
  {
    var w := s.callers[c];
    var e := s.entries[w.entry];
    if Reusable(e.token, s.now) then
      s.(callers := s.callers[c := Returned(w.scopes, w.since, Issued(e.token.value))])
    else
      s.(callers := s.callers[c := Exchanging(w.scopes, w.entry, w.since, s.epoch)],
         entries := s.entries[w.entry := e.(holder := Some(c))])
  }

  ghost function DoFinish(s: State, c: nat, answer: Answer): State
    requires Enabled(s, Finish(c, answer))
  {
    var x := s.callers[c];
    var e := s.entries[x.entry];
    var t := Exchanged(e.key, x.began, Elements(x.scopes), answer);
    var free := e.(holder := None, token := if t.Some? then t else e.token);
    s.(callers := s.callers[c := Returned(x.scopes, x.since, if t.Some? then Issued(t.value) else Failed)],
       entries := s.entries[x.entry := free])
  }

  ghost predicate IsRun(s: State, acts: seq<Action>)
    decreases |acts|
  {
    acts == [] || (Enabled(s, acts[0]) && IsRun(Do(s, acts[0]), acts[1..]))
  }

  ghost function Final(s: State, acts: seq<Action>): State
    requires IsRun(s, acts)
    decreases |acts|
  {
    if acts == [] then s else Final(Do(s, acts[0]), acts[1..])
  }

  // ----- The invariant -----

  /** The token's exchange asked for key, began no earlier than born, and got all of it. */
  ghost predicate TokenFits(t: Token, key: string, born: nat) {
    t.asked == key && t.began >= born && CoversAll(Elements(Fields(key)), t.scope)
  }

  ghost predicate EntryOk(e: Entry) {
    e.token.Some? ==> TokenFits(e.token.value, e.key, e.born)
  }

  ghost predicate CacheOk(s: State) {
    && Coherent(s.cache)
    && (forall i :: i in s.entries ==> i < s.cache.next)
    && forall k :: k in s.cache.slots ==>
      s.cache.slots[k] in s.entries && s.entries[s.cache.slots[k]].key == k
      && s.entries[s.cache.slots[k]].born == s.epoch
  }

  ghost predicate CallerOk(s: State, c: nat)
    requires c in s.callers
  {
    var p := s.callers[c];
    match p
    case Waiting(scopes, e, since) => Holds(s, scopes, e, since)
    case Exchanging(scopes, e, since, began) =>
      Holds(s, scopes, e, since) && s.entries[e].holder == Some(c) && since <= began
    case Returned(scopes, since, r) =>
      r.Issued? ==> Acceptable(scopes) && TokenFits(r.token, KeyOf(scopes), since)
  }

  ghost predicate Holds(s: State, scopes: seq<string>, e: nat, since: nat) {
    Acceptable(scopes) && e in s.entries && s.entries[e].key == KeyOf(scopes)
    && s.entries[e].born == since <= s.epoch
  }

  ghost predicate Inv(s: State) {
    && CacheOk(s)
    && (forall i :: i in s.entries ==> EntryOk(s.entries[i]))
    && forall c :: c in s.callers ==> CallerOk(s, c)
  }

  lemma StartKeepsCache(s: State, c: nat, scopes: seq<string>)
    requires CacheOk(s) && Acceptable(scopes)
    ensures var n := DoStart(s, c, scopes); var e := SlotFor(s.cache, KeyOf(scopes));
      CacheOk(n) && Holds(n, scopes, e, s.epoch)
      && (e in s.entries ==> n.entries == s.entries)
      && (e !in s.entries ==>
        n.entries == s.entries[e := Entry(KeyOf(scopes), s.epoch, None, None)])
  {
    var key := KeyOf(scopes);
    LookupKeepsCoherent(s.cache, key);
    var n := DoStart(s, c, scopes);
    forall k | k in n.cache.slots
      ensures n.cache.slots[k] in n.entries && n.entries[n.cache.slots[k]].key == k
        && n.entries[n.cache.slots[k]].born == n.epoch
    {
      assert k == key || k in s.cache.slots;
    }
  }

  lemma StartKeepsInv(s: State, c: nat, scopes: seq<string>)
    requires Inv(s) && c !in s.callers
    ensures Inv(DoStart(s, c, scopes))
  {
    hide Acceptable, KeyOf, TokenFits, Coherent, Lookup;
    var n := DoStart(s, c, scopes);
    if Acceptable(scopes) {
      StartKeepsCache(s, c, scopes);
    }
    forall d | d in n.callers && d != c ensures CallerOk(n, d) {
      assert CallerOk(s, d);
    }
  }

  lemma LockKeepsInv(s: State, c: nat)
    requires Inv(s) && Enabled(s, Lock(c))
    ensures Inv(DoLock(s, c))
  {
    hide KeyOf, Acceptable, TokenFits, Coherent;
    var n := DoLock(s, c);
    assert CallerOk(s, c);
    forall d | d in n.callers && d != c ensures CallerOk(n, d) {
      assert CallerOk(s, d);
    }
    forall i | i in n.entries ensures EntryOk(n.entries[i]) {
      assert EntryOk(s.entries[i]);
    }
  }

  lemma ExchangedFits(scopes: seq<string>, began: nat, answer: Answer, since: nat)
    requires Acceptable(scopes) && since <= began
    ensures var t := Exchanged(KeyOf(scopes), began, Elements(scopes), answer);
      t.Some? ==> TokenFits(t.value, KeyOf(scopes), since)
  {
    KeyRecoversSet(scopes);
  }

  lemma FinishKeepsInv(s: State, c: nat, answer: Answer)
    requires Inv(s) && Enabled(s, Finish(c, answer))
    ensures Inv(DoFinish(s, c, answer))
  {
    hide KeyOf, Acceptable, TokenFits, Coherent, Exchanged;
    var n, x := DoFinish(s, c, answer), s.callers[c];
    assert CallerOk(s, c);
    ExchangedFits(x.scopes, x.began, answer, x.since);
    forall d | d in n.callers && d != c ensures CallerOk(n, d) {
      assert CallerOk(s, d);
    }
    forall i | i in n.entries ensures EntryOk(n.entries[i]) {
      assert EntryOk(s.entries[i]);
    }
  }

  lemma InvalidateKeepsInv(s: State)
    requires Inv(s)
    ensures Inv(Do(s, InvalidateAll))
  {
    var n := Do(s, InvalidateAll);
    forall d | d in n.callers ensures CallerOk(n, d) {
      assert CallerOk(s, d);
    }
  }

  lemma DoKeepsInv(s: State, a: Action)
    requires Inv(s) && Enabled(s, a)
    ensures Inv(Do(s, a))
  {
    match a
    case Start(c, scopes) => StartKeepsInv(s, c, scopes);
    case Lock(c) => LockKeepsInv(s, c);
    case Finish(c, answer) => FinishKeepsInv(s, c, answer);
    case InvalidateAll => InvalidateKeepsInv(s);
    case Advance(d) =>
      forall c | c in s.callers ensures CallerOk(Do(s, a), c) {
        assert CallerOk(s, c);
      }
  }

  lemma {:induction false} RunKeepsInv(s: State, acts: seq<Action>)
    requires Inv(s) && IsRun(s, acts)
    ensures Inv(Final(s, acts))
    decreases |acts|
  {
    if acts != [] {
      DoKeepsInv(s, acts[0]);
      RunKeepsInv(Do(s, acts[0]), acts[1..]);
    }
  }

  /** In every interleaving, a returned token came from an exchange that asked for
      exactly the caller's scope set, that began at or after the last invalidation
      preceding the caller's lookup, and whose answer granted all of it or named no
      scope. */
  lemma ReturnedTokenIsFreshAndExact(acts: seq<Action>, c: nat)
    requires IsRun(INITIAL, acts)
    ensures var s := Final(INITIAL, acts);
      c in s.callers && s.callers[c].Returned? && s.callers[c].result.Issued? ==>
        var p := s.callers[c];
        var t := p.result.token;
        t.began >= p.since && Elements(Fields(t.asked)) == Elements(p.scopes)
        && !t.scope.NotText? && (t.scope.Granted? ==> Elements(p.scopes) <= Elements(Fields(t.scope.text)))
  {
    RunKeepsInv(INITIAL, acts);
    var s := Final(INITIAL, acts);
    if c in s.callers && s.callers[c].Returned? && s.callers[c].result.Issued? {
      assert CallerOk(s, c);
      KeyRecoversSet(s.callers[c].scopes);
    }
  }

  /** Two exchanges that run at the same time are for different entries: a caller of an
      entry whose exchange runs waits for its lock. */
  lemma OneExchangePerEntry(acts: seq<Action>, c: nat, d: nat)
    requires IsRun(INITIAL, acts)
    ensures var s := Final(INITIAL, acts);
      c in s.callers && d in s.callers && c != d && s.callers[c].Exchanging? && s.callers[d].Exchanging? ==>
        s.callers[c].entry != s.callers[d].entry
  {
    RunKeepsInv(INITIAL, acts);
    var s := Final(INITIAL, acts);
    if c in s.callers && d in s.callers {
      assert CallerOk(s, c) && CallerOk(s, d);
    }
  }

  // ----- How long a returned token lasts -----

  /** The states an interleaving goes through. */
  ghost predicate IsTrace(ss: seq<State>, acts: seq<Action>) {
    && |ss| == |acts| + 1 && ss[0] == INITIAL
    && forall i :: 0 <= i < |acts| ==> Enabled(ss[i], acts[i]) && ss[i + 1] == Do(ss[i], acts[i])
  }

  ghost function Trace(s: State, acts: seq<Action>): seq<State>
    requires IsRun(s, acts)
    decreases |acts|
  {
    if acts == [] then [s] else [s] + Trace(Do(s, acts[0]), acts[1..])
  }

  lemma {:induction false} TraceSteps(s: State, acts: seq<Action>)
    requires IsRun(s, acts)
    ensures var ss := Trace(s, acts);
      && |ss| == |acts| + 1 && ss[0] == s && ss[|acts|] == Final(s, acts)
      && forall i :: 0 <= i < |acts| ==> Enabled(ss[i], acts[i]) && ss[i + 1] == Do(ss[i], acts[i])
    decreases |acts|
  {
    hide Enabled, Do;
    if acts != [] {
      var s1, rest := Do(s, acts[0]), acts[1..];
      TraceSteps(s1, rest);
      var ss, tail := Trace(s, acts), Trace(s1, rest);
      assert ss == [s] + tail;
      forall i | 0 <= i < |acts| ensures Enabled(ss[i], acts[i]) && ss[i + 1] == Do(ss[i], acts[i]) {
        if i > 0 {
          assert ss[i] == tail[i - 1] && ss[i + 1] == tail[i] && acts[i] == rest[i - 1];
        }
      }
    }
  }

  /** Every run has its trace. */
  lemma RunHasTrace(acts: seq<Action>)
    requires IsRun(INITIAL, acts)
    ensures IsTrace(Trace(INITIAL, acts), acts) && Trace(INITIAL, acts)[|acts|] == Final(INITIAL, acts)
  {
    TraceSteps(INITIAL, acts);
    hide Enabled, Do;
  }

  /** At step j the caller got the lock of its entry. */
  ghost predicate Locked(ss: seq<State>, acts: seq<Action>, n: nat, c: nat, j: nat) {
    && j < n <= |acts| < |ss| && acts[j] == Lock(c) && c in ss[j].callers && ss[j].callers[c].Waiting?
    && ss[j].callers[c].entry in ss[j].entries
  }

  /** A token with more than half a minute left. */
  ghost predicate Lasts(t: Option<Token>, now: int) { t.Some? && t.value.value != "" && now + 30 < t.value.expiry }

  /** It found the token with more than half a minute left. */
  ghost predicate Reused(ss: seq<State>, acts: seq<Action>, n: nat, c: nat, t: Token, j: nat) {
    Locked(ss, acts, n, c, j) && ss[j].entries[ss[j].callers[c].entry].token == Some(t) && Lasts(Some(t), ss[j].now)
  }

  /** Its own exchange brought the token. */
  ghost predicate Brought(acts: seq<Action>, n: nat, c: nat, t: Token, j: nat) {
    && j < n <= |acts| && acts[j].Finish? && acts[j].caller == c && acts[j].answer.Response?
    && t.value == acts[j].answer.value != "" && t.expiry == acts[j].answer.expiry && t.scope == acts[j].answer.scope
  }

  /** It found no such token. */
  ghost predicate FoundNone(ss: seq<State>, acts: seq<Action>, n: nat, c: nat, j: nat) {
    Locked(ss, acts, n, c, j) && !Lasts(ss[j].entries[ss[j].callers[c].entry].token, ss[j].now)
  }

  ghost predicate CallerWhy(ss: seq<State>, acts: seq<Action>, n: nat, c: nat, p: Caller) {
    match p
    case Waiting(_, _, _) => true
    case Exchanging(_, _, _, _) => exists j :: FoundNone(ss, acts, n, c, j)
    case Returned(_, _, r) => r.Issued? ==>
      (exists j :: Reused(ss, acts, n, c, r.token, j)) || (exists j :: Brought(acts, n, c, r.token, j))
  }

  lemma CallerStays(ss: seq<State>, acts: seq<Action>, n: nat, c: nat, p: Caller)
    requires n < |acts| < |ss| && CallerWhy(ss, acts, n, c, p)
    ensures CallerWhy(ss, acts, n + 1, c, p)
  {
    if p.Exchanging? {
      var j :| FoundNone(ss, acts, n, c, j);
      assert FoundNone(ss, acts, n + 1, c, j);
    } else if p.Returned? && p.result.Issued? {
      if j :| Reused(ss, acts, n, c, p.result.token, j) {
        assert Reused(ss, acts, n + 1, c, p.result.token, j);
      } else {
        var j :| Brought(acts, n, c, p.result.token, j);
        assert Brought(acts, n + 1, c, p.result.token, j);
      }
    }
  }

  lemma CallerStep(ss: seq<State>, acts: seq<Action>, n: nat, c: nat)
    requires n < |acts| && |ss| == |acts| + 1 && Enabled(ss[n], acts[n]) && ss[n + 1] == Do(ss[n], acts[n])
    requires c in ss[n + 1].callers && (c in ss[n].callers ==> CallerWhy(ss, acts, n, c, ss[n].callers[c]))
    ensures CallerWhy(ss, acts, n + 1, c, ss[n + 1].callers[c])
  {
    hide KeyOf, Acceptable, Lookup, CoversAll;
    var a := acts[n];
    if a == Lock(c) {
      assert Locked(ss, acts, n + 1, c, n);
      var e := ss[n].entries[ss[n].callers[c].entry];
      if Reusable(e.token, ss[n].now) {
        assert Reused(ss, acts, n + 1, c, e.token.value, n);
      } else {
        assert FoundNone(ss, acts, n + 1, c, n);
      }
    } else if a.Finish? && a.caller == c {
      var r := ss[n + 1].callers[c].result;
      if r.Issued? {
        assert Brought(acts, n + 1, c, r.token, n);
      }
    } else if !(a.Start? && a.caller == c) {
      CallerStays(ss, acts, n, c, ss[n].callers[c]);
    }
  }

  lemma {:induction false} TraceIsExplained(ss: seq<State>, acts: seq<Action>, n: nat, c: nat)
    requires IsTrace(ss, acts) && n <= |acts| && c in ss[n].callers
    ensures CallerWhy(ss, acts, n, c, ss[n].callers[c])
  {
    if n > 0 {
      assert Enabled(ss[n - 1], acts[n - 1]) && ss[n] == Do(ss[n - 1], acts[n - 1]);
      if c in ss[n - 1].callers {
        TraceIsExplained(ss, acts, n - 1, c);
      }
      hide CallerWhy, Enabled, Do;
      CallerStep(ss, acts, n - 1, c);
    }
  }

  /** In every interleaving, a returned token had more than 30 seconds left when its
      caller found it, or its caller's own exchange brought it. */
  lemma ReturnedTokenLasts(ss: seq<State>, acts: seq<Action>, n: nat, c: nat)
    requires IsTrace(ss, acts) && n <= |acts| && c in ss[n].callers
    requires ss[n].callers[c].Returned? && ss[n].callers[c].result.Issued?
    ensures var t := ss[n].callers[c].result.token;
      (exists j :: Reused(ss, acts, n, c, t, j)) || (exists j :: Brought(acts, n, c, t, j))
  {
    TraceIsExplained(ss, acts, n, c);
    hide IsTrace, Reused, Brought;
  }

  /** And a caller exchanges only when it found no such token. */
  lemma ExchangedWithoutToken(ss: seq<State>, acts: seq<Action>, n: nat, c: nat)
    requires IsTrace(ss, acts) && n <= |acts| && c in ss[n].callers && ss[n].callers[c].Exchanging?
    ensures exists j :: FoundNone(ss, acts, n, c, j)
  {
    TraceIsExplained(ss, acts, n, c);
    hide IsTrace, FoundNone;
  }
}
