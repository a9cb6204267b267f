/** What concurrent key lookups answer: from the keys last installed, and, when their
    flight failed, from the keys held as they began (jwtauth/middleware.go). */
module JwksAnswers {
  import opened Text
  import opened Jwks
  import opened JwksFlights

  /** The states a run goes through. */
  ghost predicate IsTrace(cfg: Config, ss: seq<State>, acts: seq<Action>) {
    && |ss| == |acts| + 1 && ss[0] == INITIAL
    && forall i :: 0 <= i < |acts| ==> Enabled(ss[i], acts[i]) && ss[i + 1] == Do(ss[i], cfg, acts[i])
  }

  /** Every run has its trace. */
  lemma {:induction false} RunHasTrace(cfg: Config, acts: seq<Action>) returns (ss: seq<State>)
    requires IsRun(INITIAL, cfg, acts)
    ensures IsTrace(cfg, ss, acts) && ss[|acts|] == Final(INITIAL, cfg, acts)
  {
    hide Enabled, Effect;
    ss := Trace(INITIAL, cfg, acts);
    TraceSteps(INITIAL, cfg, acts);
  }

  ghost function Trace(s: State, cfg: Config, acts: seq<Action>): seq<State>
    requires IsRun(s, cfg, acts)
    decreases |acts|
  {
    if acts == [] then [s] else [s] + Trace(Do(s, cfg, acts[0]), cfg, acts[1..])
  }

  lemma {:induction false} TraceSteps(s: State, cfg: Config, acts: seq<Action>)
    requires IsRun(s, cfg, acts)
    ensures var ss := Trace(s, cfg, acts);
      && |ss| == |acts| + 1 && ss[0] == s && ss[|acts|] == Final(s, cfg, acts)
      && forall i :: 0 <= i < |acts| ==> Enabled(ss[i], acts[i]) && ss[i + 1] == Do(ss[i], cfg, acts[i])
    decreases |acts|
  {
    hide Enabled, Do;
    if acts != [] {
      var s1, rest := Do(s, cfg, acts[0]), acts[1..];
      TraceSteps(s1, cfg, rest);
      var ss, tail := Trace(s, cfg, acts), Trace(s1, cfg, rest);
      assert ss == [s] + tail;
      forall i | 0 <= i < |acts| ensures Enabled(ss[i], acts[i]) && ss[i + 1] == Do(ss[i], cfg, acts[i]) {
        if i > 0 {
          assert ss[i] == tail[i - 1] && ss[i + 1] == tail[i] && acts[i] == rest[i - 1];
        }
      }
    }
  }

  // ----- The keys held -----

  /** The keys of the last answer with keys among the first n steps. */
  function LastInstalled(acts: seq<Action>, n: nat): KeySet
    requires n <= |acts|
  {
    if n == 0 then map[]
    else if acts[n - 1].Install? && acts[n - 1].reply.Keys? then acts[n - 1].reply.keys
    else LastInstalled(acts, n - 1)
  }

  lemma {:induction false} HeldKeysAreLastInstalled(cfg: Config, ss: seq<State>, acts: seq<Action>, n: nat)
    requires IsTrace(cfg, ss, acts) && n <= |acts|
    ensures ss[n].mem.keys == LastInstalled(acts, n)
  {
    if n > 0 {
      HeldKeysAreLastInstalled(cfg, ss, acts, n - 1);
      assert ss[n] == Do(ss[n - 1], cfg, acts[n - 1]);
    }
  }

  // ----- Why a call returned what it did -----

  /** Call c began at step i, asking for kid. */
  ghost predicate Began(acts: seq<Action>, c: nat, kid: string, i: nat) { i < |acts| && acts[i] == Read(c, kid) }

  /** A flight was answered at step h and landed at step l. */
  ghost predicate Flew(acts: seq<Action>, ok: bool, h: nat, l: nat) {
    && h < l < |acts| && acts[h].Install? && acts[h].reply.Keys? == ok && acts[l] == Land(acts[h].thread)
    && NoLanding(acts, h, l)
  }

  ghost predicate NoLanding(acts: seq<Action>, h: nat, l: nat) {
    forall j :: h < j < l && j < |acts| ==> !acts[j].Land?
  }

  function Looked(keys: KeySet, kid: string, missing: Result): Result {
    if kid in keys then Found(keys[kid]) else missing
  }

  /** It returned at once: a young key, a known absence, or the cooldown. */
  ghost predicate AtOnce(acts: seq<Action>, n: nat, c: nat, result: Result, i: nat, kid: string) {
    i < n <= |acts| && Began(acts, c, kid, i) && result == Looked(LastInstalled(acts, i), kid, Unknown)
  }

  /** It was aboard a flight that failed. */
  ghost predicate AfterFailure(acts: seq<Action>, n: nat, c: nat, result: Result, i: nat, kid: string, h: nat, l: nat) {
    && i < l < n <= |acts| && Began(acts, c, kid, i) && Flew(acts, false, h, l)
    && result == Looked(LastInstalled(acts, i), kid, Unavailable)
  }

  /** It was aboard a flight that brought keys, and looked again at step r. */
  ghost predicate AfterSuccess(acts: seq<Action>, n: nat, c: nat, result: Result, i: nat, kid: string, h: nat, l: nat,
                               r: nat) {
    && i < l < r < n <= |acts| && Began(acts, c, kid, i) && Flew(acts, true, h, l) && acts[r] == Resume(c)
    && result == Looked(LastInstalled(acts, r), kid, Unknown)
  }

  ghost predicate Explained(acts: seq<Action>, n: nat, c: nat, result: Result) {
    || (exists i, kid :: AtOnce(acts, n, c, result, i, kid))
    || (exists i, kid, h, l :: AfterFailure(acts, n, c, result, i, kid, h, l))
    || (exists i, kid, h, l, r :: AfterSuccess(acts, n, c, result, i, kid, h, l, r))
  }

  /** What the state of a call says about the steps so far. */
  ghost predicate Waits(acts: seq<Action>, n: nat, c: nat, kid: string, stale: Option<Key>) {
    exists i: nat :: i < n <= |acts| && Began(acts, c, kid, i) && stale == Stale(acts, kid, i)
  }

  function Stale(acts: seq<Action>, kid: string, i: nat): Option<Key>
    requires i < |acts|
  {
    if kid in LastInstalled(acts, i) then Some(LastInstalled(acts, i)[kid]) else None
  }

  ghost predicate Lands(acts: seq<Action>, n: nat, c: nat, kid: string, stale: Option<Key>, ok: bool, i: nat, h: nat,
                        l: nat) {
    i < l < n <= |acts| && Began(acts, c, kid, i) && Flew(acts, ok, h, l) && stale == Stale(acts, kid, i)
  }

  ghost predicate LooksAgain(acts: seq<Action>, n: nat, c: nat, kid: string, i: nat, h: nat, l: nat, r: nat) {
    && i < l < r < n <= |acts| && Began(acts, c, kid, i) && Flew(acts, true, h, l)
    && acts[r] == Resume(c) && kid !in LastInstalled(acts, r)
  }

  ghost predicate ThreadWhy(acts: seq<Action>, n: nat, c: nat, t: Thread) {
    match t
    case Decided(kid, _, _, stale) => Waits(acts, n, c, kid, stale)
    case InFlight(kid, _, _, stale) => Waits(acts, n, c, kid, stale)
    case Resuming(kid, ok, stale) => exists i, h, l :: Lands(acts, n, c, kid, stale, ok, i, h, l)
    case Noting(kid) => exists i, h, l, r :: LooksAgain(acts, n, c, kid, i, h, l, r)
    case Returned(result) => Explained(acts, n, c, result)
  }

  ghost predicate FlightWhy(acts: seq<Action>, n: nat, f: Option<Flight>) {
    f.Some? && f.value.phase.Installed? ==> exists h :: Answered(acts, n, f.value, h)
  }

  ghost predicate Answered(acts: seq<Action>, n: nat, f: Flight, h: nat) {
    && h < n <= |acts| && acts[h].Install? && acts[h].thread == f.leader && f.phase == Installed(acts[h].reply.Keys?)
    && NoLanding(acts, h, n)
  }

  ghost predicate Why(acts: seq<Action>, n: nat, s: State) {
    FlightWhy(acts, n, s.flight) && forall c :: c in s.threads ==> ThreadWhy(acts, n, c, s.threads[c])
  }

  lemma ThreadStays(acts: seq<Action>, n: nat, c: nat, t: Thread)
    requires n < |acts| && ThreadWhy(acts, n, c, t)
    ensures ThreadWhy(acts, n + 1, c, t)
  {
    hide Began, Flew, Looked, Stale, LastInstalled;
    match t {
      case Decided(kid, _, _, stale) => WaitStays(acts, n, c, kid, stale);
      case InFlight(kid, _, _, stale) => WaitStays(acts, n, c, kid, stale);
      case Resuming(kid, ok, stale) =>
        var i, h, l :| Lands(acts, n, c, kid, stale, ok, i, h, l);
        assert Lands(acts, n + 1, c, kid, stale, ok, i, h, l);
      case Noting(kid) =>
        var i, h, l, r :| LooksAgain(acts, n, c, kid, i, h, l, r);
        assert LooksAgain(acts, n + 1, c, kid, i, h, l, r);
      case Returned(result) => ExplanationStays(acts, n, c, result);
    }
  }

  lemma WaitStays(acts: seq<Action>, n: nat, c: nat, kid: string, stale: Option<Key>)
    requires n < |acts| && Waits(acts, n, c, kid, stale)
    ensures Waits(acts, n + 1, c, kid, stale)
  {
    hide Stale;
  }

  lemma ExplanationStays(acts: seq<Action>, n: nat, c: nat, result: Result)
    requires n < |acts| && Explained(acts, n, c, result)
    ensures Explained(acts, n + 1, c, result)
  {
    hide Began, Flew, Looked, LastInstalled;
    if i, kid :| AtOnce(acts, n, c, result, i, kid) {
      assert AtOnce(acts, n + 1, c, result, i, kid);
    } else if i, kid, h, l :| AfterFailure(acts, n, c, result, i, kid, h, l) {
      assert AfterFailure(acts, n + 1, c, result, i, kid, h, l);
    } else {
      var i, kid, h, l, r :| AfterSuccess(acts, n, c, result, i, kid, h, l, r);
      assert AfterSuccess(acts, n + 1, c, result, i, kid, h, l, r);
    }
  }

  lemma FlightStays(acts: seq<Action>, n: nat, f: Option<Flight>)
    requires n < |acts| && FlightWhy(acts, n, f) && !acts[n].Land?
    ensures FlightWhy(acts, n + 1, f)
  {
    if f.Some? && f.value.phase.Installed? {
      var h :| Answered(acts, n, f.value, h);
      assert Answered(acts, n + 1, f.value, h);
    }
  }

  lemma ReadExplains(cfg: Config, s: State, acts: seq<Action>, n: nat, c: nat, kid: string)
    requires n < |acts| && acts[n] == Read(c, kid) && Enabled(s, acts[n]) && s.mem.keys == LastInstalled(acts, n)
    ensures ThreadWhy(acts, n + 1, c, Do(s, cfg, acts[n]).threads[c])
  {
    hide LastInstalled, Cooling, Expired, KnownMissing;
    var t := Do(s, cfg, acts[n]).threads[c];
    assert Began(acts, c, kid, n);
    if t.Returned? {
      assert AtOnce(acts, n + 1, c, t.result, n, kid);
    }
  }

  lemma LandExplains(cfg: Config, s: State, acts: seq<Action>, n: nat, c: nat)
    requires n < |acts| && acts[n].Land? && Enabled(s, acts[n]) && FlightWhy(acts, n, s.flight)
    requires c in s.threads && s.threads[c].InFlight? && ThreadWhy(acts, n, c, s.threads[c])
    ensures ThreadWhy(acts, n + 1, c, Do(s, cfg, acts[n]).threads[c])
  {
    hide Stale;
    var t := s.threads[c];
    var i: nat :| i < n <= |acts| && Began(acts, c, t.kid, i) && t.stale == Stale(acts, t.kid, i);
    var h :| Answered(acts, n, s.flight.value, h);
    assert Flew(acts, s.flight.value.phase.ok, h, n);
    assert Lands(acts, n + 1, c, t.kid, t.stale, s.flight.value.phase.ok, i, h, n);
  }

  lemma ResumeExplains(cfg: Config, s: State, acts: seq<Action>, n: nat, c: nat)
    requires n < |acts| && acts[n] == Resume(c) && Enabled(s, acts[n]) && s.mem.keys == LastInstalled(acts, n)
    requires ThreadWhy(acts, n, c, s.threads[c])
    ensures ThreadWhy(acts, n + 1, c, Do(s, cfg, acts[n]).threads[c])
  {
    hide LastInstalled, Began, Flew;
    var t, u := s.threads[c], Do(s, cfg, acts[n]).threads[c];
    var i, h, l :| Lands(acts, n, c, t.kid, t.stale, t.ok, i, h, l);
    if !t.ok {
      assert AfterFailure(acts, n + 1, c, u.result, i, t.kid, h, l);
    } else if u.Returned? {
      assert AfterSuccess(acts, n + 1, c, u.result, i, t.kid, h, l, n);
    } else {
      assert LooksAgain(acts, n + 1, c, t.kid, i, h, l, n);
    }
  }

  lemma NoteExplains(cfg: Config, s: State, acts: seq<Action>, n: nat, c: nat)
    requires n < |acts| && acts[n] == Note(c) && Enabled(s, acts[n]) && ThreadWhy(acts, n, c, s.threads[c])
    ensures ThreadWhy(acts, n + 1, c, Do(s, cfg, acts[n]).threads[c])
  {
    hide LastInstalled, Began, Flew, Pruned;
    var kid := s.threads[c].kid;
    var i, h, l, r :| LooksAgain(acts, n, c, kid, i, h, l, r);
    assert AfterSuccess(acts, n + 1, c, Unknown, i, kid, h, l, r);
  }

  lemma EnterExplains(cfg: Config, s: State, acts: seq<Action>, n: nat, c: nat)
    requires n < |acts| && acts[n] == Enter(c) && Enabled(s, acts[n]) && ThreadWhy(acts, n, c, s.threads[c])
    ensures ThreadWhy(acts, n + 1, c, Do(s, cfg, acts[n]).threads[c])
  {
    hide Waits;
    WaitStays(acts, n, c, s.threads[c].kid, s.threads[c].stale);
  }

  lemma StepExplainsThread(cfg: Config, s: State, acts: seq<Action>, n: nat, c: nat)
    requires n < |acts| && Enabled(s, acts[n]) && Why(acts, n, s) && s.mem.keys == LastInstalled(acts, n)
    requires c in Do(s, cfg, acts[n]).threads
    ensures ThreadWhy(acts, n + 1, c, Do(s, cfg, acts[n]).threads[c])
  {
    hide ThreadWhy, FlightWhy, LastInstalled, Fetches, Outcome, Pruned;
    var a := acts[n];
    if a.Read? && a.thread == c {
      ReadExplains(cfg, s, acts, n, c, a.kid);
    } else if a.Enter? && a.thread == c {
      EnterExplains(cfg, s, acts, n, c);
    } else if a.Land? && s.threads[c].InFlight? {
      LandExplains(cfg, s, acts, n, c);
    } else if a.Resume? && a.thread == c {
      ResumeExplains(cfg, s, acts, n, c);
    } else if a.Note? && a.thread == c {
      NoteExplains(cfg, s, acts, n, c);
    } else {
      ThreadStays(acts, n, c, s.threads[c]);
    }
  }

  lemma StepExplainsFlight(cfg: Config, s: State, acts: seq<Action>, n: nat)
    requires n < |acts| && Enabled(s, acts[n]) && FlightWhy(acts, n, s.flight)
    ensures FlightWhy(acts, n + 1, Do(s, cfg, acts[n]).flight)
  {
    hide Fetches, Outcome, Pruned;
    var f := Do(s, cfg, acts[n]).flight;
    if acts[n].Install? {
      assert Answered(acts, n + 1, f.value, n);
    } else if !acts[n].Land? {
      FlightStays(acts, n, s.flight);
    }
  }

  lemma {:induction false} TraceIsExplained(cfg: Config, ss: seq<State>, acts: seq<Action>, n: nat)
    requires IsTrace(cfg, ss, acts) && n <= |acts|
    ensures Why(acts, n, ss[n])
  {
    if n > 0 {
      TraceIsExplained(cfg, ss, acts, n - 1);
      HeldKeysAreLastInstalled(cfg, ss, acts, n - 1);
      assert ss[n] == Do(ss[n - 1], cfg, acts[n - 1]) && Enabled(ss[n - 1], acts[n - 1]);
      hide ThreadWhy, FlightWhy, Do, Enabled;
      StepExplainsFlight(cfg, ss[n - 1], acts, n - 1);
      forall c | c in ss[n].threads ensures ThreadWhy(acts, n, c, ss[n].threads[c]) {
        StepExplainsThread(cfg, ss[n - 1], acts, n - 1, c);
      }
    }
  }

  /** Over every interleaving a call returns what is held when it begins, if it needs no
      flight or its flight failed, and otherwise what is held when it looks again; it is
      unavailable only after a failed flight, without a key held as it began. */
  lemma AnswersAreExplained(cfg: Config, ss: seq<State>, acts: seq<Action>, n: nat, c: nat)
    requires IsTrace(cfg, ss, acts) && n <= |acts| && c in ss[n].threads && ss[n].threads[c].Returned?
    ensures Explained(acts, n, c, ss[n].threads[c].result)
    ensures ss[n].threads[c].result == Unavailable ==>
      exists i, kid, h, l :: AfterFailure(acts, n, c, Unavailable, i, kid, h, l) && kid !in LastInstalled(acts, i)
  {
    TraceIsExplained(cfg, ss, acts, n);
    hide Enabled, Do, LastInstalled, Flew, Began;
  }

  // ----- A failed flight -----

  lemma {:induction false} ThreadsStay(cfg: Config, ss: seq<State>, acts: seq<Action>, i: nat, n: nat)
    requires IsTrace(cfg, ss, acts) && i <= n <= |acts|
    ensures ss[i].threads.Keys <= ss[n].threads.Keys
  {
    if i < n {
      ThreadsStay(cfg, ss, acts, i, n - 1);
      assert ss[n] == Do(ss[n - 1], cfg, acts[n - 1]) && Enabled(ss[n - 1], acts[n - 1]);
      hide Fetches, Outcome, Pruned;
    }
  }

  lemma BeginsOnce(cfg: Config, ss: seq<State>, acts: seq<Action>, c: nat, kid: string, i: nat, kid': string, j: nat)
    requires IsTrace(cfg, ss, acts) && Began(acts, c, kid, i) && Began(acts, c, kid', j)
    ensures i == j && kid == kid'
  {
    if i < j {
      assert c in ss[i + 1].threads && Enabled(ss[j], acts[j]);
      ThreadsStay(cfg, ss, acts, i + 1, j);
    } else if j < i {
      assert c in ss[j + 1].threads && Enabled(ss[i], acts[i]);
      ThreadsStay(cfg, ss, acts, j + 1, i);
    }
  }

  lemma FailureLands(cfg: Config, ss: seq<State>, acts: seq<Action>, c: nat, kid: string, i: nat, l: nat)
    requires IsTrace(cfg, ss, acts) && Began(acts, c, kid, i) && l < |acts| && acts[l].Land?
    requires ss[l].flight.Some? && ss[l].flight.value.phase == Installed(false)
    requires c in ss[l].threads && ss[l].threads[c].InFlight?
    ensures c in ss[l + 1].threads && ss[l + 1].threads[c] == Resuming(kid, false, Stale(acts, kid, i))
  {
    TraceIsExplained(cfg, ss, acts, l);
    var t := ss[l].threads[c];
    assert ThreadWhy(acts, l, c, t);
    assert ss[l + 1] == Do(ss[l], cfg, acts[l]) && Enabled(ss[l], acts[l]);
    hide Stale, IsTrace, Fetches, Outcome, Pruned, FlightWhy, Explained;
    var j: nat :| j < l <= |acts| && Began(acts, c, t.kid, j) && t.stale == Stale(acts, t.kid, j);
    BeginsOnce(cfg, ss, acts, c, kid, i, t.kid, j);
  }

  lemma FailureStays(cfg: Config, s: State, a: Action, c: nat, kid: string, stale: Option<Key>)
    requires Enabled(s, a) && c in s.threads
    ensures var fallback := Returned(if stale.Some? then Found(stale.value) else Unavailable);
      s.threads[c] == Resuming(kid, false, stale) || s.threads[c] == fallback ==>
      c in Do(s, cfg, a).threads
      && (Do(s, cfg, a).threads[c] == Resuming(kid, false, stale) || Do(s, cfg, a).threads[c] == fallback)
  {
    hide Fetches, Outcome, Pruned;
  }

  /** Aboard a flight that fails, a call returns the key held as it began, and is
      unavailable if there was none. */
  lemma {:induction false} FailedFlightFallsBack(cfg: Config, ss: seq<State>, acts: seq<Action>, c: nat, kid: string,
                                                 i: nat, l: nat, n: nat)
    requires IsTrace(cfg, ss, acts) && Began(acts, c, kid, i) && l < n <= |acts| && acts[l].Land?
    requires ss[l].flight.Some? && ss[l].flight.value.phase == Installed(false)
    requires c in ss[l].threads && ss[l].threads[c].InFlight?
    ensures c in ss[n].threads
    ensures ss[n].threads[c] == Resuming(kid, false, Stale(acts, kid, i))
      || ss[n].threads[c] == Returned(Looked(LastInstalled(acts, i), kid, Unavailable))
    decreases n
  {
    if n == l + 1 {
      FailureLands(cfg, ss, acts, c, kid, i, l);
      hide IsTrace, LastInstalled;
    } else {
      FailedFlightFallsBack(cfg, ss, acts, c, kid, i, l, n - 1);
      assert ss[n] == Do(ss[n - 1], cfg, acts[n - 1]) && Enabled(ss[n - 1], acts[n - 1]);
      hide LastInstalled, Do, Enabled, IsTrace;
      FailureStays(cfg, ss[n - 1], acts[n - 1], c, kid, Stale(acts, kid, i));
    }
  }

  // ----- The negative cache -----

  /** Step h noted that kid was missing, and no keys were installed since. */
  ghost predicate Noted(ss: seq<State>, acts: seq<Action>, n: nat, kid: string, at: real, h: nat) {
    && h < n <= |acts| < |ss| && acts[h].Note? && acts[h].thread in ss[h].threads
    && ss[h].threads[acts[h].thread] == Noting(kid) && ss[h].now == at && NoKeysSince(acts, h, n)
  }

  ghost predicate NoKeysSince(acts: seq<Action>, h: nat, n: nat) {
    forall j :: h < j < n && j < |acts| ==> !(acts[j].Install? && acts[j].reply.Keys?)
  }

  ghost predicate NegativeWhy(ss: seq<State>, acts: seq<Action>, n: nat, kid: string, s: State) {
    kid in s.mem.negative ==> exists h :: Noted(ss, acts, n, kid, s.mem.negative[kid], h)
  }

  lemma NegativeStep(cfg: Config, ss: seq<State>, acts: seq<Action>, n: nat, kid: string)
    requires n < |acts| && |ss| == |acts| + 1 && Enabled(ss[n], acts[n]) && ss[n + 1] == Do(ss[n], cfg, acts[n])
    requires NegativeWhy(ss, acts, n, kid, ss[n])
    ensures NegativeWhy(ss, acts, n + 1, kid, ss[n + 1])
  {
    hide Fetches, Outcome;
    if kid in ss[n + 1].mem.negative {
      if acts[n].Note? && ss[n].threads[acts[n].thread].kid == kid {
        assert Noted(ss, acts, n + 1, kid, ss[n + 1].mem.negative[kid], n);
      } else {
        var h :| Noted(ss, acts, n, kid, ss[n].mem.negative[kid], h);
        assert Noted(ss, acts, n + 1, kid, ss[n + 1].mem.negative[kid], h);
      }
    }
  }

  /** Over every interleaving a kid is taken as missing only on a note made since keys were
      last installed, stamped when it was made. */
  lemma {:induction false} MissingWasNoted(cfg: Config, ss: seq<State>, acts: seq<Action>, n: nat, kid: string)
    requires IsTrace(cfg, ss, acts) && n <= |acts|
    ensures kid in ss[n].mem.negative ==> exists h :: Noted(ss, acts, n, kid, ss[n].mem.negative[kid], h)
  {
    if n > 0 {
      MissingWasNoted(cfg, ss, acts, n - 1, kid);
      assert Enabled(ss[n - 1], acts[n - 1]) && ss[n] == Do(ss[n - 1], cfg, acts[n - 1]);
      hide IsTrace, Enabled, Do, Noted;
      NegativeStep(cfg, ss, acts, n - 1, kid);
    }
  }
}
