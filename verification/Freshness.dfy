/** Which access tokens requests are forwarded with, and when the server is asked for a
    new one, over every interleaving on one gateway (bff/gateway.go). */
module Freshness {
  import opened Sessions
  import opened Refresh

  /** The states an interleaving goes through. */
  ghost predicate IsTrace(c: Config, ss: seq<State>, acts: seq<Action>) {
    && |ss| == |acts| + 1 && Initial(ss[0])
    && forall i :: 0 <= i < |acts| ==> Enabled(ss[i], acts[i]) && ss[i + 1] == Do(c, ss[i], acts[i])
  }

  function Trace(c: Config, s: State, acts: seq<Action>): seq<State>
    requires IsRun(c, s, acts)
    decreases |acts|
  {
    if acts == [] then [s] else [s] + Trace(c, Do(c, s, acts[0]), acts[1..])
  }

  lemma {:induction false} TraceSteps(c: Config, s: State, acts: seq<Action>)
    requires IsRun(c, s, acts)
    ensures var ss := Trace(c, s, acts);
      && |ss| == |acts| + 1 && ss[0] == s && ss[|acts|] == Final(c, s, acts)
      && forall i :: 0 <= i < |acts| ==> Enabled(ss[i], acts[i]) && ss[i + 1] == Do(c, ss[i], acts[i])
    decreases |acts|
  {
    hide Enabled, Do;
    if acts != [] {
      var s1, rest := Do(c, s, acts[0]), acts[1..];
      TraceSteps(c, s1, rest);
      var ss, tail := Trace(c, s, acts), Trace(c, s1, rest);
      assert ss == [s] + tail;
      forall i | 0 <= i < |acts| ensures Enabled(ss[i], acts[i]) && ss[i + 1] == Do(c, ss[i], acts[i]) {
        if i > 0 {
          assert ss[i] == tail[i - 1] && ss[i + 1] == tail[i] && acts[i] == rest[i - 1];
        }
      }
    }
  }

  /** Every run from an empty gateway has its trace. */
  lemma RunHasTrace(c: Config, s: State, acts: seq<Action>)
    requires Initial(s) && IsRun(c, s, acts)
    ensures IsTrace(c, Trace(c, s, acts), acts) && Trace(c, s, acts)[|acts|] == Final(c, s, acts)
  {
    TraceSteps(c, s, acts);
    hide Enabled, Do;
  }

  // ----- What a session holds -----

  /** The access token and its expiry after n steps: those of the last answer stored, an
      answer without a lifetime leaving the expiry as it was. */
  ghost function Holds(ss: seq<State>, acts: seq<Action>, id: string, n: nat): (string, Time)
    requires n <= |acts| < |ss|
  {
    if n == 0 then ("", 0)
    else
      var before, a, s := Holds(ss, acts, id, n - 1), acts[n - 1], ss[n - 1];
      if a.Login? && a.id == id then (a.snap.access, a.snap.accessExpiry)
      else if a.Store? && a.id == id && id in s.flights && s.flights[id].Answered? then
        var ts := s.flights[id].ts;
        (ts.access, if ts.expiresIn > 0 then a.now + ts.expiresIn else before.1)
      else before
  }

  lemma StepHolds(c: Config, s: State, a: Action, id: string)
    requires Enabled(s, a) && id in Do(c, s, a).sess
    ensures var s' := Do(c, s, a).sess[id];
      if a.Login? && a.id == id then s' == a.snap
      else if a.Store? && a.id == id then
        && id in s.sess && id in s.flights && s.flights[id].Answered? && s'.access == s.flights[id].ts.access
        && s'.accessExpiry == if s.flights[id].ts.expiresIn > 0 then a.now + s.flights[id].ts.expiresIn
                              else s.sess[id].accessExpiry
      else id in s.sess && s'.access == s.sess[id].access && s'.accessExpiry == s.sess[id].accessExpiry
  {
    hide AccessValid, Expired;
  }

  lemma SessionsStay(c: Config, s: State, a: Action)
    requires Enabled(s, a)
    ensures s.sess.Keys <= Do(c, s, a).sess.Keys
  {
    hide AccessValid, Expired;
  }

  lemma {:induction false} SessionHolds(c: Config, ss: seq<State>, acts: seq<Action>, id: string, n: nat)
    requires IsTrace(c, ss, acts) && n <= |acts| && id in ss[n].sess
    ensures (ss[n].sess[id].access, ss[n].sess[id].accessExpiry) == Holds(ss, acts, id, n)
  {
    if n > 0 {
      assert ss[n] == Do(c, ss[n - 1], acts[n - 1]) && Enabled(ss[n - 1], acts[n - 1]);
      StepHolds(c, ss[n - 1], acts[n - 1], id);
      hide Do, Enabled, IsTrace;
      if id in ss[n - 1].sess {
        SessionHolds(c, ss, acts, id, n - 1);
      }
    }
  }

  // ----- Readings -----

  /** A token that lasts beyond the leeway. */
  ghost predicate HeadRoom(c: Config, snap: Snapshot, now: Time) {
    snap.access != "" && now + c.leeway < snap.accessExpiry
  }

  /** Request t read the clock for session id at step j. */
  ghost predicate Checked(ss: seq<State>, acts: seq<Action>, t: nat, id: string, j: nat) {
    && j < |acts| < |ss| && acts[j].CheckAccess? && acts[j].t == t
    && t in ss[j].pcs && ss[j].pcs[t] == Holding(id) && id in ss[j].sess
  }

  ghost predicate Rechecked(ss: seq<State>, acts: seq<Action>, id: string, i: nat) {
    i < |acts| < |ss| && acts[i].RecheckAccess? && acts[i].id == id && id in ss[i].sess
  }

  /** At step i the flight of id read the token with head-room, or the server issued it. */
  ghost predicate Passed(c: Config, ss: seq<State>, acts: seq<Action>, id: string, access: string, i: nat) {
    || (Rechecked(ss, acts, id, i) && ss[i].sess[id].access == access && HeadRoom(c, ss[i].sess[id], acts[i].now))
    || (i < |acts| && acts[i].Serve? && acts[i].id == id && acts[i].answer.Issue? && acts[i].answer.ts.access == access)
  }

  /** The flight of id that was under way after step i has not ended before step n. */
  ghost predicate StillFlying(acts: seq<Action>, id: string, i: nat, n: nat) {
    forall j :: i < j < n && j < |acts| ==> acts[j] != Finish(id)
  }

  /** Request t checked at step j and saw head-room on this very token. */
  ghost predicate SeenFresh(c: Config, ss: seq<State>, acts: seq<Action>, t: nat, id: string, access: string, j: nat) {
    Checked(ss, acts, t, id, j) && ss[j].sess[id].access == access && HeadRoom(c, ss[j].sess[id], acts[j].now)
  }

  /** Request t checked at step j, and a flight that was not over by then passed the token. */
  ghost predicate FlownIn(c: Config, ss: seq<State>, acts: seq<Action>, t: nat, id: string, access: string, j: nat,
                          i: nat) {
    Checked(ss, acts, t, id, j) && Passed(c, ss, acts, id, access, i) && (i < j ==> StillFlying(acts, id, i, j))
  }

  ghost predicate IsFresh(c: Config, ss: seq<State>, acts: seq<Action>, n: nat, t: nat, id: string, access: string) {
    || (exists j: nat :: j < n && SeenFresh(c, ss, acts, t, id, access, j))
    || (exists j: nat, i: nat :: j < n && i < n && FlownIn(c, ss, acts, t, id, access, j, i))
  }

  /** The flight of id was started without head-room on what the session still holds. */
  ghost predicate RanOut(c: Config, ss: seq<State>, acts: seq<Action>, n: nat, id: string, i: nat) {
    && i < n < |ss| && Rechecked(ss, acts, id, i) && StillFlying(acts, id, i, n) && id in ss[n].sess
    && !HeadRoom(c, ss[i].sess[id], acts[i].now)
    && ss[n].sess[id].access == ss[i].sess[id].access && ss[n].sess[id].accessExpiry == ss[i].sess[id].accessExpiry
  }

  ghost predicate Issued(acts: seq<Action>, n: nat, id: string, ts: TokenSet, i: nat) {
    i < n <= |acts| && acts[i] == Serve(id, Issue(ts)) && StillFlying(acts, id, i, n)
  }

  ghost predicate PassedInFlight(c: Config, ss: seq<State>, acts: seq<Action>, n: nat, id: string, access: string,
                                 i: nat) {
    i < n <= |acts| && Passed(c, ss, acts, id, access, i) && StillFlying(acts, id, i, n)
  }

  // ----- The invariant -----

  ghost predicate PhaseWhy(c: Config, ss: seq<State>, acts: seq<Action>, n: nat, id: string, f: Phase)
    requires n < |ss|
  {
    && id in ss[n].sess
    && match f
       case Recheck => true
       case ReadRefresh => exists i :: RanOut(c, ss, acts, n, id, i)
       case Calling(_) => exists i :: RanOut(c, ss, acts, n, id, i)
       case Answered(ts) => exists i :: Issued(acts, n, id, ts, i)
       case Storing => exists i :: PassedInFlight(c, ss, acts, n, id, ss[n].sess[id].access, i)
       case ReadAccess => exists i :: PassedInFlight(c, ss, acts, n, id, ss[n].sess[id].access, i)
       case Done(o) => o.Fresh? ==> exists i :: PassedInFlight(c, ss, acts, n, id, o.access, i)
  }

  ghost predicate MustWait(c: Config, ss: seq<State>, acts: seq<Action>, n: nat, t: nat, id: string) {
    exists j: nat :: j < n && Checked(ss, acts, t, id, j) && !HeadRoom(c, ss[j].sess[id], acts[j].now)
  }

  ghost predicate PcWhy(c: Config, ss: seq<State>, acts: seq<Action>, n: nat, t: nat, pc: Pc)
    requires n < |ss|
  {
    match pc
    case FastRead(id) => id in ss[n].sess && IsFresh(c, ss, acts, n, t, id, ss[n].sess[id].access)
    case Joining(id) => MustWait(c, ss, acts, n, t, id)
    case Leading(id) => MustWait(c, ss, acts, n, t, id)
    case Waiting(id) => MustWait(c, ss, acts, n, t, id)
    case TouchCheck(id, access) => IsFresh(c, ss, acts, n, t, id, access)
    case Touching(id, access, _) => IsFresh(c, ss, acts, n, t, id, access)
    case WritingBack(id, access) => IsFresh(c, ss, acts, n, t, id, access)
    case Forwarded(access) => exists id :: IsFresh(c, ss, acts, n, t, id, access)
    case _ => true
  }

  ghost predicate Why(c: Config, ss: seq<State>, acts: seq<Action>, n: nat)
    requires n < |ss|
  {
    && (forall id :: id in ss[n].flights ==> PhaseWhy(c, ss, acts, n, id, ss[n].flights[id]))
    && (forall t :: t in ss[n].pcs ==> PcWhy(c, ss, acts, n, t, ss[n].pcs[t]))
  }

  /** Step n of a trace. */
  ghost predicate Steps(c: Config, ss: seq<State>, acts: seq<Action>, n: nat) {
    n < |acts| && |ss| == |acts| + 1 && Enabled(ss[n], acts[n]) && ss[n + 1] == Do(c, ss[n], acts[n])
  }

  lemma FreshStays(c: Config, ss: seq<State>, acts: seq<Action>, n: nat, t: nat, id: string, access: string)
    requires IsFresh(c, ss, acts, n, t, id, access)
    ensures IsFresh(c, ss, acts, n + 1, t, id, access)
  {
    hide SeenFresh, FlownIn;
  }

  lemma WaitStays(c: Config, ss: seq<State>, acts: seq<Action>, n: nat, t: nat, id: string)
    requires MustWait(c, ss, acts, n, t, id)
    ensures MustWait(c, ss, acts, n + 1, t, id)
  {
    hide Checked, HeadRoom;
  }

  lemma FlyingStays(acts: seq<Action>, id: string, i: nat, n: nat)
    requires n < |acts| && StillFlying(acts, id, i, n) && acts[n] != Finish(id)
    ensures StillFlying(acts, id, i, n + 1)
  {
  }

  // ----- Flights -----

  lemma RanOutStays(c: Config, ss: seq<State>, acts: seq<Action>, n: nat, id: string, i: nat)
    requires RanOut(c, ss, acts, n, id, i) && n + 1 < |ss| && n < |acts| && acts[n] != Finish(id)
    requires id in ss[n + 1].sess && ss[n + 1].sess[id].access == ss[n].sess[id].access
    requires ss[n + 1].sess[id].accessExpiry == ss[n].sess[id].accessExpiry
    ensures RanOut(c, ss, acts, n + 1, id, i)
  {
    hide Rechecked, HeadRoom, StillFlying;
    FlyingStays(acts, id, i, n);
  }

  lemma PassStays(c: Config, ss: seq<State>, acts: seq<Action>, n: nat, id: string, access: string, i: nat)
    requires PassedInFlight(c, ss, acts, n, id, access, i) && n < |acts| && acts[n] != Finish(id)
    ensures PassedInFlight(c, ss, acts, n + 1, id, access, i)
  {
    hide Passed, StillFlying;
    FlyingStays(acts, id, i, n);
  }

  /** A flight no step of its own touches. */
  lemma PhaseStays(c: Config, ss: seq<State>, acts: seq<Action>, n: nat, id: string, f: Phase)
    requires n < |acts| && n + 1 < |ss| && PhaseWhy(c, ss, acts, n, id, f) && acts[n] != Finish(id)
    requires id in ss[n + 1].sess && ss[n + 1].sess[id].access == ss[n].sess[id].access
    requires ss[n + 1].sess[id].accessExpiry == ss[n].sess[id].accessExpiry
    ensures PhaseWhy(c, ss, acts, n + 1, id, f)
  {
    hide RanOut, PassedInFlight, StillFlying;
    match f {
      case ReadRefresh =>
        var i :| RanOut(c, ss, acts, n, id, i);
        RanOutStays(c, ss, acts, n, id, i);
      case Calling(_) =>
        var i :| RanOut(c, ss, acts, n, id, i);
        RanOutStays(c, ss, acts, n, id, i);
      case Answered(ts) =>
        var i :| Issued(acts, n, id, ts, i);
        FlyingStays(acts, id, i, n);
        assert Issued(acts, n + 1, id, ts, i);
      case Storing =>
        var i :| PassedInFlight(c, ss, acts, n, id, ss[n].sess[id].access, i);
        PassStays(c, ss, acts, n, id, ss[n].sess[id].access, i);
      case ReadAccess =>
        var i :| PassedInFlight(c, ss, acts, n, id, ss[n].sess[id].access, i);
        PassStays(c, ss, acts, n, id, ss[n].sess[id].access, i);
      case Done(o) =>
        if o.Fresh? {
          var i :| PassedInFlight(c, ss, acts, n, id, o.access, i);
          PassStays(c, ss, acts, n, id, o.access, i);
        }
      case Recheck =>
    }
  }

  lemma RecheckStep(c: Config, ss: seq<State>, acts: seq<Action>, n: nat)
    requires Steps(c, ss, acts, n) && acts[n].RecheckAccess?
    ensures acts[n].id in ss[n + 1].flights
      && PhaseWhy(c, ss, acts, n + 1, acts[n].id, ss[n + 1].flights[acts[n].id])
  {
    var id := acts[n].id;
    assert Rechecked(ss, acts, id, n);
    if AccessValid(ss[n].sess[id], acts[n].now, c.leeway) {
      assert HeadRoom(c, ss[n].sess[id], acts[n].now);
      assert PassedInFlight(c, ss, acts, n + 1, id, ss[n].sess[id].access, n);
    } else {
      assert RanOut(c, ss, acts, n + 1, id, n);
    }
  }

  lemma ServeStep(c: Config, ss: seq<State>, acts: seq<Action>, n: nat)
    requires Steps(c, ss, acts, n) && acts[n].Serve?
    ensures acts[n].id in ss[n + 1].flights
      && PhaseWhy(c, ss, acts, n + 1, acts[n].id, ss[n + 1].flights[acts[n].id])
  {
    if acts[n].answer.Issue? {
      assert Issued(acts, n + 1, acts[n].id, acts[n].answer.ts, n);
    }
  }

  lemma StoreStep(c: Config, ss: seq<State>, acts: seq<Action>, n: nat) returns (i: nat)
    requires Steps(c, ss, acts, n) && acts[n].Store?
    requires PhaseWhy(c, ss, acts, n, acts[n].id, ss[n].flights[acts[n].id])
    ensures acts[n].id in ss[n + 1].flights
      && PhaseWhy(c, ss, acts, n + 1, acts[n].id, ss[n + 1].flights[acts[n].id])
    ensures PassedInFlight(c, ss, acts, n + 1, acts[n].id, ss[n + 1].sess[acts[n].id].access, i)
  {
    hide StillFlying;
    var id := acts[n].id;
    var ts := ss[n].flights[id].ts;
    i :| Issued(acts, n, id, ts, i);
    FlyingStays(acts, id, i, n);
    assert Passed(c, ss, acts, id, ts.access, i);
    assert PassedInFlight(c, ss, acts, n + 1, id, ts.access, i);
  }

  /** The flight's other own steps. */
  lemma FlightStep(c: Config, ss: seq<State>, acts: seq<Action>, n: nat)
    requires Steps(c, ss, acts, n) && (acts[n].TakeRefresh? || acts[n].PutBack? || acts[n].ReadBack?)
    requires PhaseWhy(c, ss, acts, n, acts[n].id, ss[n].flights[acts[n].id])
    ensures acts[n].id in ss[n + 1].flights
      && PhaseWhy(c, ss, acts, n + 1, acts[n].id, ss[n + 1].flights[acts[n].id])
  {
    hide RanOut, PassedInFlight, AccessValid, Expired;
    var id := acts[n].id;
    PhaseStays(c, ss, acts, n, id, ss[n].flights[id]);
  }

  lemma PhaseStep(c: Config, ss: seq<State>, acts: seq<Action>, n: nat, id: string)
    requires Steps(c, ss, acts, n) && id in ss[n + 1].flights
    requires id in ss[n].flights ==> PhaseWhy(c, ss, acts, n, id, ss[n].flights[id])
    ensures PhaseWhy(c, ss, acts, n + 1, id, ss[n + 1].flights[id])
  {
    assert id in ss[n].flights ==> id in ss[n].sess;
    hide PhaseWhy;
    var a := acts[n];
    if a.RecheckAccess? && a.id == id {
      RecheckStep(c, ss, acts, n);
    } else if a.Serve? && a.id == id {
      ServeStep(c, ss, acts, n);
    } else if a.Store? && a.id == id {
      var i := StoreStep(c, ss, acts, n);
    } else if (a.TakeRefresh? || a.PutBack? || a.ReadBack?) && a.id == id {
      FlightStep(c, ss, acts, n);
    } else if id !in ss[n].flights {
      StartStep(c, ss, acts, n, id);
    } else {
      OthersFlight(c, ss[n], a, id);
      SessionsStay(c, ss[n], a);
      StepHolds(c, ss[n], a, id);
      assert Enabled(ss[n], a);
      hide Steps, Do;
      PhaseStays(c, ss, acts, n, id, ss[n].flights[id]);
    }
  }

  lemma StartStep(c: Config, ss: seq<State>, acts: seq<Action>, n: nat, id: string)
    requires Steps(c, ss, acts, n) && id in ss[n + 1].flights && id !in ss[n].flights
    ensures PhaseWhy(c, ss, acts, n + 1, id, ss[n + 1].flights[id])
  {
    FlightStarts(c, ss[n], acts[n], id);
    hide Do, Enabled;
  }

  lemma FlightStarts(c: Config, s: State, a: Action, id: string)
    requires Enabled(s, a) && id in Do(c, s, a).flights && id !in s.flights
    ensures Do(c, s, a).flights[id] == Recheck && id in Do(c, s, a).sess
  {
    hide AccessValid, Expired;
  }

  /** What a step leaves of a flight that is not its own. */
  lemma OthersFlight(c: Config, s: State, a: Action, id: string)
    requires Enabled(s, a) && id in s.flights && id in Do(c, s, a).flights
    requires (a.RecheckAccess? || a.Serve? || a.Store? || a.TakeRefresh? || a.PutBack? || a.ReadBack?) ==> a.id != id
    ensures Do(c, s, a).flights[id] == s.flights[id] && a != Finish(id)
  {
    hide AccessValid, Expired, After;
  }

  // ----- Requests -----

  lemma CheckStep(c: Config, ss: seq<State>, acts: seq<Action>, n: nat)
    requires Steps(c, ss, acts, n) && acts[n].CheckAccess?
    ensures acts[n].t in ss[n + 1].pcs && PcWhy(c, ss, acts, n + 1, acts[n].t, ss[n + 1].pcs[acts[n].t])
  {
    var t := acts[n].t;
    var id := ss[n].pcs[t].id;
    assert Checked(ss, acts, t, id, n);
    if AccessValid(ss[n].sess[id], acts[n].now, c.leeway) {
      assert SeenFresh(c, ss, acts, t, id, ss[n].sess[id].access, n);
    }
  }

  /** A waiting request takes over what its flight passed. */
  lemma TakesOver(c: Config, ss: seq<State>, acts: seq<Action>, n: nat, t: nat, id: string, access: string, i: nat)
    requires MustWait(c, ss, acts, n, t, id) && PassedInFlight(c, ss, acts, n, id, access, i)
    ensures IsFresh(c, ss, acts, n, t, id, access)
  {
    hide HeadRoom, Passed;
    var j: nat :| j < n && Checked(ss, acts, t, id, j) && !HeadRoom(c, ss[j].sess[id], acts[j].now);
    assert FlownIn(c, ss, acts, t, id, access, j, i);
  }

  /** A request about to read the session when its flight stores a new token. */
  lemma ReadsNewer(c: Config, ss: seq<State>, acts: seq<Action>, n: nat, t: nat, id: string, old_: string,
                   access: string, i: nat)
    requires IsFresh(c, ss, acts, n, t, id, old_) && PassedInFlight(c, ss, acts, n, id, access, i)
    ensures IsFresh(c, ss, acts, n, t, id, access)
  {
    hide Checked, HeadRoom, Passed;
    if j: nat :| j < n && SeenFresh(c, ss, acts, t, id, old_, j) {
      assert FlownIn(c, ss, acts, t, id, access, j, i);
    } else {
      var j: nat, k: nat :| j < n && k < n && FlownIn(c, ss, acts, t, id, old_, j, k);
      assert FlownIn(c, ss, acts, t, id, access, j, i);
    }
  }

  lemma FinishStep(c: Config, ss: seq<State>, acts: seq<Action>, n: nat, t: nat)
    requires Steps(c, ss, acts, n) && acts[n].Finish? && t in ss[n].pcs
    requires ss[n].pcs[t] == Leading(acts[n].id) || ss[n].pcs[t] == Waiting(acts[n].id)
    requires PcWhy(c, ss, acts, n, t, ss[n].pcs[t])
    requires PhaseWhy(c, ss, acts, n, acts[n].id, ss[n].flights[acts[n].id])
    ensures t in ss[n + 1].pcs && PcWhy(c, ss, acts, n + 1, t, ss[n + 1].pcs[t])
  {
    hide IsFresh, MustWait, PassedInFlight;
    var id := acts[n].id;
    var o := ss[n].flights[id].outcome;
    if o.Fresh? {
      var i :| PassedInFlight(c, ss, acts, n, id, o.access, i);
      TakesOver(c, ss, acts, n, t, id, o.access, i);
      FreshStays(c, ss, acts, n, t, id, o.access);
    }
  }

  /** The request's own steps outside the check. */
  lemma RequestStep(c: Config, ss: seq<State>, acts: seq<Action>, n: nat, t: nat)
    requires Steps(c, ss, acts, n) && IsRequestStep(acts[n]) && acts[n].t == t
    requires t in ss[n].pcs ==> PcWhy(c, ss, acts, n, t, ss[n].pcs[t])
    ensures t in ss[n + 1].pcs && PcWhy(c, ss, acts, n + 1, t, ss[n + 1].pcs[t])
  {
    hide PcWhy, Do, Enabled;
    if acts[n].DecideTouch? || acts[n].Touch? || acts[n].WriteBack? {
      TouchStep(c, ss, acts, n, t);
    } else {
      PlainStep(c, ss, acts, n, t);
    }
  }

  lemma TouchStep(c: Config, ss: seq<State>, acts: seq<Action>, n: nat, t: nat)
    requires Steps(c, ss, acts, n) && (acts[n].DecideTouch? || acts[n].Touch? || acts[n].WriteBack?) && acts[n].t == t
    requires t in ss[n].pcs ==> PcWhy(c, ss, acts, n, t, ss[n].pcs[t])
    ensures t in ss[n + 1].pcs && PcWhy(c, ss, acts, n + 1, t, ss[n + 1].pcs[t])
  {
    hide IsFresh, MustWait, AccessValid, Expired;
    FreshStays(c, ss, acts, n, t, ss[n].pcs[t].id, ss[n].pcs[t].access);
  }

  lemma PlainStep(c: Config, ss: seq<State>, acts: seq<Action>, n: nat, t: nat)
    requires Steps(c, ss, acts, n) && IsRequestStep(acts[n]) && acts[n].t == t
    requires !acts[n].DecideTouch? && !acts[n].Touch? && !acts[n].WriteBack?
    requires t in ss[n].pcs ==> PcWhy(c, ss, acts, n, t, ss[n].pcs[t])
    ensures t in ss[n + 1].pcs && PcWhy(c, ss, acts, n + 1, t, ss[n + 1].pcs[t])
  {
    hide IsFresh, MustWait, AccessValid, Expired;
    if acts[n].ReadFast? {
      FreshStays(c, ss, acts, n, t, ss[n].pcs[t].id, ss[n].sess[ss[n].pcs[t].id].access);
    } else if acts[n].Join? {
      WaitStays(c, ss, acts, n, t, ss[n].pcs[t].id);
    }
  }

  predicate IsRequestStep(a: Action) {
    match a
    case Lookup(_, _) | CheckLifetime(_, _) | Expire(_) | ReadFast(_) | Join(_) => true
    case DecideTouch(_, _) | Touch(_) | WriteBack(_) | Delete(_) => true
    case _ => false
  }

  /** A request no step of its own touches. */
  lemma PcStays(c: Config, ss: seq<State>, acts: seq<Action>, n: nat, t: nat, pc: Pc)
    requires n + 1 < |ss| && PcWhy(c, ss, acts, n, t, pc)
    requires pc.FastRead? ==> pc.id in ss[n + 1].sess && ss[n + 1].sess[pc.id].access == ss[n].sess[pc.id].access
    ensures PcWhy(c, ss, acts, n + 1, t, pc)
  {
    hide IsFresh, MustWait;
    match pc {
      case FastRead(id) => FreshStays(c, ss, acts, n, t, id, ss[n].sess[id].access);
      case Joining(id) => WaitStays(c, ss, acts, n, t, id);
      case Leading(id) => WaitStays(c, ss, acts, n, t, id);
      case Waiting(id) => WaitStays(c, ss, acts, n, t, id);
      case TouchCheck(id, access) => FreshStays(c, ss, acts, n, t, id, access);
      case Touching(id, access, _) => FreshStays(c, ss, acts, n, t, id, access);
      case WritingBack(id, access) => FreshStays(c, ss, acts, n, t, id, access);
      case Forwarded(access) =>
        var id :| IsFresh(c, ss, acts, n, t, id, access);
        FreshStays(c, ss, acts, n, t, id, access);
      case _ =>
    }
  }

  lemma StoreUnder(c: Config, ss: seq<State>, acts: seq<Action>, n: nat, t: nat)
    requires Steps(c, ss, acts, n) && acts[n].Store? && t in ss[n].pcs && ss[n].pcs[t] == FastRead(acts[n].id)
    requires PcWhy(c, ss, acts, n, t, ss[n].pcs[t])
    requires PhaseWhy(c, ss, acts, n, acts[n].id, ss[n].flights[acts[n].id])
    ensures t in ss[n + 1].pcs && PcWhy(c, ss, acts, n + 1, t, ss[n + 1].pcs[t])
  {
    hide IsFresh, PassedInFlight, PhaseWhy;
    var id := acts[n].id;
    var i := StoreStep(c, ss, acts, n);
    FreshStays(c, ss, acts, n, t, id, ss[n].sess[id].access);
    ReadsNewer(c, ss, acts, n + 1, t, id, ss[n].sess[id].access, ss[n + 1].sess[id].access, i);
  }

  /** What a step leaves of a request that is not its own. */
  lemma OthersPc(c: Config, s: State, a: Action, t: nat)
    requires Enabled(s, a) && t in Do(c, s, a).pcs
    requires (a.CheckAccess? || IsRequestStep(a)) ==> a.t != t
    requires a.Finish? && t in s.pcs ==> s.pcs[t] != Leading(a.id) && s.pcs[t] != Waiting(a.id)
    ensures t in s.pcs && Do(c, s, a).pcs[t] == s.pcs[t]
  {
    hide AccessValid, Expired, After;
  }

  lemma PcStep(c: Config, ss: seq<State>, acts: seq<Action>, n: nat, t: nat)
    requires Steps(c, ss, acts, n) && t in ss[n + 1].pcs
    requires t in ss[n].pcs ==> PcWhy(c, ss, acts, n, t, ss[n].pcs[t])
    requires forall id :: id in ss[n].flights ==> PhaseWhy(c, ss, acts, n, id, ss[n].flights[id])
    ensures PcWhy(c, ss, acts, n + 1, t, ss[n + 1].pcs[t])
  {
    var a := acts[n];
    assert (a.Finish? || a.Store?) ==> a.id in ss[n].flights;
    assert t in ss[n].pcs && ss[n].pcs[t].FastRead? ==> ss[n].pcs[t].id in ss[n].sess;
    hide PcWhy, PhaseWhy, Do;
    if a.CheckAccess? && a.t == t {
      CheckStep(c, ss, acts, n);
    } else if IsRequestStep(a) && a.t == t {
      RequestStep(c, ss, acts, n, t);
    } else if a.Finish? && t in ss[n].pcs && (ss[n].pcs[t] == Leading(a.id) || ss[n].pcs[t] == Waiting(a.id)) {
      FinishStep(c, ss, acts, n, t);
    } else if a.Store? && t in ss[n].pcs && ss[n].pcs[t] == FastRead(a.id) {
      StoreUnder(c, ss, acts, n, t);
    } else {
      OthersPc(c, ss[n], a, t);
      if ss[n].pcs[t].FastRead? {
        SessionsStay(c, ss[n], acts[n]);
        StepHolds(c, ss[n], acts[n], ss[n].pcs[t].id);
      }
      PcStays(c, ss, acts, n, t, ss[n].pcs[t]);
    }
  }

  lemma StepIsExplained(c: Config, ss: seq<State>, acts: seq<Action>, n: nat)
    requires Steps(c, ss, acts, n) && Why(c, ss, acts, n)
    ensures Why(c, ss, acts, n + 1)
  {
    hide PhaseWhy, PcWhy, Do, Enabled;
    var m, s := n + 1, ss[n + 1];
    forall id | id in s.flights ensures PhaseWhy(c, ss, acts, m, id, s.flights[id]) {
      PhaseStep(c, ss, acts, n, id);
    }
    forall t | t in s.pcs ensures PcWhy(c, ss, acts, m, t, s.pcs[t]) {
      PcStep(c, ss, acts, n, t);
    }
  }

  lemma {:induction false} TraceIsExplained(c: Config, ss: seq<State>, acts: seq<Action>, n: nat)
    requires IsTrace(c, ss, acts) && n <= |acts|
    ensures Why(c, ss, acts, n)
  {
    if n == 0 {
      hide PhaseWhy, PcWhy, Do, Enabled;
    } else {
      TraceIsExplained(c, ss, acts, n - 1);
      assert Steps(c, ss, acts, n - 1);
      hide Why, Steps, IsTrace;
      StepIsExplained(c, ss, acts, n - 1);
    }
  }

  // ----- The theorems -----

  /** Over every interleaving: a request is forwarded with a token that had head-room when
      the request itself, or the flight it waited for, read it, or that the server issued
      to a flight not yet over when the request checked. */
  lemma ForwardedTokenIsFresh(c: Config, ss: seq<State>, acts: seq<Action>, n: nat, t: nat, access: string)
    requires IsTrace(c, ss, acts) && n <= |acts| && t in ss[n].pcs && ss[n].pcs[t] == Forwarded(access)
    ensures exists id :: IsFresh(c, ss, acts, n, t, id, access)
  {
    TraceIsExplained(c, ss, acts, n);
    hide IsTrace, IsFresh;
  }

  /** The server is only asked when the flight read a session without head-room and the
      session still holds what was read. */
  lemma ServerIsAskedWithoutHeadRoom(c: Config, ss: seq<State>, acts: seq<Action>, n: nat)
    requires IsTrace(c, ss, acts) && n < |acts| && acts[n].Serve?
    ensures exists i :: RanOut(c, ss, acts, n, acts[n].id, i)
  {
    TraceIsExplained(c, ss, acts, n);
    assert Enabled(ss[n], acts[n]);
    var id := acts[n].id;
    assert PhaseWhy(c, ss, acts, n, id, ss[n].flights[id]);
    hide RanOut, IsTrace;
  }

  /** A request waits for a flight only when its own reading showed no head-room. */
  lemma WaitingHadNoHeadRoom(c: Config, ss: seq<State>, acts: seq<Action>, n: nat, t: nat, id: string)
    requires IsTrace(c, ss, acts) && n <= |acts| && t in ss[n].pcs
    requires ss[n].pcs[t] == Joining(id) || ss[n].pcs[t] == Leading(id) || ss[n].pcs[t] == Waiting(id)
    ensures MustWait(c, ss, acts, n, t, id)
  {
    TraceIsExplained(c, ss, acts, n);
    assert PcWhy(c, ss, acts, n, t, ss[n].pcs[t]);
    hide MustWait, IsTrace;
  }

  // ----- Touches -----

  /** Request t decided at step j whether to touch session id. */
  ghost predicate Decided(ss: seq<State>, acts: seq<Action>, n: nat, t: nat, id: string, j: nat) {
    && j < n <= |acts| < |ss| && acts[j].DecideTouch? && acts[j].t == t
    && t in ss[j].pcs && ss[j].pcs[t].TouchCheck? && ss[j].pcs[t].id == id && id in ss[j].sess
  }

  ghost predicate Due(c: Config, snap: Snapshot, now: Time) {
    c.touchInterval < 0 || now >= snap.lastSeen + c.touchInterval
  }

  ghost predicate NotTouched(acts: seq<Action>, n: nat, t: nat) {
    forall i :: 0 <= i < n && i < |acts| ==> acts[i] != Touch(t)
  }

  /** Step i wrote the time read at step j into the session. */
  ghost predicate Touched(ss: seq<State>, acts: seq<Action>, n: nat, t: nat, id: string, j: nat, i: nat) {
    && j < i < n <= |acts| < |ss| && acts[i] == Touch(t) && acts[j].DecideTouch?
    && id in ss[i + 1].sess && ss[i + 1].sess[id].lastSeen == acts[j].now
  }

  /** The request touched the session exactly when that was due. */
  ghost predicate TouchedIfDue(c: Config, ss: seq<State>, acts: seq<Action>, n: nat, t: nat, id: string, j: nat) {
    && Decided(ss, acts, n, t, id, j)
    && if Due(c, ss[j].sess[id], acts[j].now) then exists i :: Touched(ss, acts, n, t, id, j, i)
       else NotTouched(acts, n, t)
  }

  ghost predicate WillTouch(c: Config, ss: seq<State>, acts: seq<Action>, n: nat, t: nat, id: string, now: Time,
                            j: nat) {
    Decided(ss, acts, n, t, id, j) && acts[j].now == now && Due(c, ss[j].sess[id], now)
  }

  ghost predicate DidTouch(c: Config, ss: seq<State>, acts: seq<Action>, n: nat, t: nat, id: string, j: nat, i: nat) {
    Decided(ss, acts, n, t, id, j) && Due(c, ss[j].sess[id], acts[j].now) && Touched(ss, acts, n, t, id, j, i)
  }

  ghost predicate TouchWhy(c: Config, ss: seq<State>, acts: seq<Action>, n: nat, t: nat)
    requires n < |ss|
  {
    if t !in ss[n].pcs then NotTouched(acts, n, t)
    else
      match ss[n].pcs[t]
      case Touching(id, _, now) => NotTouched(acts, n, t) && exists j :: WillTouch(c, ss, acts, n, t, id, now, j)
      case WritingBack(id, _) => exists j, i :: DidTouch(c, ss, acts, n, t, id, j, i)
      case Forwarded(_) => exists id, j :: TouchedIfDue(c, ss, acts, n, t, id, j)
      case _ => NotTouched(acts, n, t)
  }

  lemma NotTouchedStep(acts: seq<Action>, n: nat, t: nat)
    requires n < |acts| && NotTouched(acts, n, t) && acts[n] != Touch(t)
    ensures NotTouched(acts, n + 1, t)
  {
  }

  lemma TouchedStays(c: Config, ss: seq<State>, acts: seq<Action>, n: nat, t: nat, id: string, j: nat)
    requires n < |acts| && TouchedIfDue(c, ss, acts, n, t, id, j) && acts[n] != Touch(t)
    ensures TouchedIfDue(c, ss, acts, n + 1, t, id, j)
  {
    if Due(c, ss[j].sess[id], acts[j].now) {
      var i :| Touched(ss, acts, n, t, id, j, i);
      assert Touched(ss, acts, n + 1, t, id, j, i);
    }
  }

  lemma DecideStep(c: Config, ss: seq<State>, acts: seq<Action>, n: nat, t: nat)
    requires Steps(c, ss, acts, n) && acts[n].DecideTouch? && acts[n].t == t && TouchWhy(c, ss, acts, n, t)
    ensures TouchWhy(c, ss, acts, n + 1, t)
  {
    var id := ss[n].pcs[t].id;
    assert Decided(ss, acts, n + 1, t, id, n);
    NotTouchedStep(acts, n, t);
    hide NotTouched;
    if Due(c, ss[n].sess[id], acts[n].now) {
      assert WillTouch(c, ss, acts, n + 1, t, id, acts[n].now, n);
    } else {
      assert TouchedIfDue(c, ss, acts, n + 1, t, id, n);
    }
  }

  lemma WriteStep(c: Config, ss: seq<State>, acts: seq<Action>, n: nat, t: nat)
    requires Steps(c, ss, acts, n) && acts[n] == Touch(t) && TouchWhy(c, ss, acts, n, t)
    ensures TouchWhy(c, ss, acts, n + 1, t)
  {
    var id, now := ss[n].pcs[t].id, ss[n].pcs[t].now;
    var j :| WillTouch(c, ss, acts, n, t, id, now, j);
    assert DidTouch(c, ss, acts, n + 1, t, id, j, n);
  }

  lemma WriteBackStep(c: Config, ss: seq<State>, acts: seq<Action>, n: nat, t: nat)
    requires Steps(c, ss, acts, n) && acts[n] == WriteBack(t) && TouchWhy(c, ss, acts, n, t)
    ensures TouchWhy(c, ss, acts, n + 1, t)
  {
    var id := ss[n].pcs[t].id;
    var j, i :| DidTouch(c, ss, acts, n, t, id, j, i);
    assert Touched(ss, acts, n + 1, t, id, j, i);
    assert TouchedIfDue(c, ss, acts, n + 1, t, id, j);
  }

  /** The pcs that come before the touch, and how other steps move them. */
  lemma BeforeTouch(c: Config, s: State, a: Action, t: nat)
    requires Enabled(s, a) && a != Touch(t) && a != WriteBack(t) && !(a.DecideTouch? && a.t == t)
    ensures var s' := Do(c, s, a);
      if t in s.pcs && (s.pcs[t].Touching? || s.pcs[t].WritingBack? || s.pcs[t].Forwarded?)
      then t in s'.pcs && s'.pcs[t] == s.pcs[t]
      else t in s'.pcs ==> !s'.pcs[t].Touching? && !s'.pcs[t].WritingBack? && !s'.pcs[t].Forwarded?
  {
    hide AccessValid, Expired;
  }

  lemma OtherTouchStep(c: Config, ss: seq<State>, acts: seq<Action>, n: nat, t: nat)
    requires Steps(c, ss, acts, n) && TouchWhy(c, ss, acts, n, t)
    requires acts[n] != Touch(t) && acts[n] != WriteBack(t) && !(acts[n].DecideTouch? && acts[n].t == t)
    ensures TouchWhy(c, ss, acts, n + 1, t)
  {
    BeforeTouch(c, ss[n], acts[n], t);
    hide Do, Enabled, TouchedIfDue, NotTouched;
    if t in ss[n].pcs && ss[n].pcs[t].Touching? {
      var id, now := ss[n].pcs[t].id, ss[n].pcs[t].now;
      var j :| WillTouch(c, ss, acts, n, t, id, now, j);
      assert WillTouch(c, ss, acts, n + 1, t, id, now, j);
      NotTouchedStep(acts, n, t);
    } else if t in ss[n].pcs && ss[n].pcs[t].WritingBack? {
      var id := ss[n].pcs[t].id;
      var j, i :| DidTouch(c, ss, acts, n, t, id, j, i);
      assert DidTouch(c, ss, acts, n + 1, t, id, j, i);
    } else if t in ss[n].pcs && ss[n].pcs[t].Forwarded? {
      var id, j :| TouchedIfDue(c, ss, acts, n, t, id, j);
      TouchedStays(c, ss, acts, n, t, id, j);
    } else {
      NotTouchedStep(acts, n, t);
    }
  }

  lemma TouchesStep(c: Config, ss: seq<State>, acts: seq<Action>, n: nat, t: nat)
    requires Steps(c, ss, acts, n) && TouchWhy(c, ss, acts, n, t)
    ensures TouchWhy(c, ss, acts, n + 1, t)
  {
    hide TouchWhy, Do, Enabled;
    if acts[n] == Touch(t) {
      WriteStep(c, ss, acts, n, t);
    } else if acts[n] == WriteBack(t) {
      WriteBackStep(c, ss, acts, n, t);
    } else if acts[n].DecideTouch? && acts[n].t == t {
      DecideStep(c, ss, acts, n, t);
    } else {
      OtherTouchStep(c, ss, acts, n, t);
    }
  }

  lemma {:induction false} TraceTouches(c: Config, ss: seq<State>, acts: seq<Action>, n: nat, t: nat)
    requires IsTrace(c, ss, acts) && n <= |acts|
    ensures TouchWhy(c, ss, acts, n, t)
  {
    if n == 0 {
      hide Do, Enabled;
    } else {
      TraceTouches(c, ss, acts, n - 1, t);
      assert Steps(c, ss, acts, n - 1);
      hide TouchWhy, Steps, IsTrace;
      TouchesStep(c, ss, acts, n - 1, t);
    }
  }

  /** Over every interleaving: a forwarded request wrote its own reading of the clock into
      the session exactly when the last-seen time it read was a touch interval old. */
  lemma ForwardedTouchedIfDue(c: Config, ss: seq<State>, acts: seq<Action>, n: nat, t: nat)
    requires IsTrace(c, ss, acts) && n <= |acts| && t in ss[n].pcs && ss[n].pcs[t].Forwarded?
    ensures exists id, j :: TouchedIfDue(c, ss, acts, n, t, id, j)
  {
    TraceTouches(c, ss, acts, n, t);
    hide IsTrace, TouchedIfDue;
  }

  // ----- Refusals -----

  /** Request t was turned away at step j: its session was not there, or had expired. */
  ghost predicate TurnedAwayAtStep(ss: seq<State>, acts: seq<Action>, n: nat, t: nat, j: nat) {
    && j < n <= |acts| < |ss|
    && (|| (acts[j].Lookup? && acts[j].t == t && !(acts[j].id in ss[j].mem.live && acts[j].id in ss[j].sess))
        || acts[j] == Expire(t))
  }

  /** The server failed the flight of id at step i. */
  ghost predicate FailedAt(acts: seq<Action>, n: nat, id: string, i: nat) {
    i < n <= |acts| && acts[i] == Serve(id, Fail) && StillFlying(acts, id, i, n)
  }

  /** The flight request t waited for failed at step i and ended at step j. */
  ghost predicate FlightFailed(ss: seq<State>, acts: seq<Action>, n: nat, t: nat, id: string, i: nat, j: nat) {
    && j < n <= |acts| < |ss| && acts[j] == Finish(id) && FailedAt(acts, j, id, i)
    && t in ss[j].pcs && (ss[j].pcs[t] == Leading(id) || ss[j].pcs[t] == Waiting(id))
  }

  ghost predicate EndWhy(ss: seq<State>, acts: seq<Action>, n: nat, t: nat)
    requires n < |ss|
  {
    t in ss[n].pcs ==>
      match ss[n].pcs[t]
      case Unauthorized => exists j :: TurnedAwayAtStep(ss, acts, n, t, j)
      case BadGateway => exists id, i, j :: FlightFailed(ss, acts, n, t, id, i, j)
      case _ => true
  }

  ghost predicate DownWhy(ss: seq<State>, acts: seq<Action>, n: nat)
    requires n < |ss|
  {
    forall id :: id in ss[n].flights && ss[n].flights[id] == Done(Down) ==> exists i :: FailedAt(acts, n, id, i)
  }

  lemma DownStep(c: Config, ss: seq<State>, acts: seq<Action>, n: nat)
    requires Steps(c, ss, acts, n) && DownWhy(ss, acts, n)
    ensures DownWhy(ss, acts, n + 1)
  {
    var m, s := n + 1, ss[n + 1];
    forall id | id in s.flights && s.flights[id] == Done(Down) ensures exists i :: FailedAt(acts, m, id, i) {
      GoesDown(c, ss[n], acts[n], id);
      hide Do, Enabled, StillFlying;
      if acts[n] == Serve(id, Fail) {
        StartsFlying(acts, id, n);
        assert FailedAt(acts, m, id, n);
      } else {
        var i :| FailedAt(acts, n, id, i);
        FlyingStays(acts, id, i, n);
        assert FailedAt(acts, m, id, i);
      }
    }
  }

  lemma StartsFlying(acts: seq<Action>, id: string, n: nat)
    ensures StillFlying(acts, id, n, n + 1)
  {
  }

  lemma GoesDown(c: Config, s: State, a: Action, id: string)
    requires Enabled(s, a) && id in Do(c, s, a).flights && Do(c, s, a).flights[id] == Done(Down)
    ensures a == Serve(id, Fail) || (id in s.flights && s.flights[id] == Done(Down) && a != Finish(id))
  {
    hide AccessValid, Expired;
  }

  /** How a step brings a request to one of its two ends. */
  lemma ReachesEnd(c: Config, s: State, a: Action, t: nat)
    requires Enabled(s, a) && t in Do(c, s, a).pcs && !(t in s.pcs && s.pcs[t] == Do(c, s, a).pcs[t])
    ensures Do(c, s, a).pcs[t] == Unauthorized ==>
      (a.Lookup? && a.t == t && !(a.id in s.mem.live && a.id in s.sess)) || a == Expire(t)
    ensures Do(c, s, a).pcs[t] == BadGateway ==>
      && a.Finish? && a.id in s.flights && s.flights[a.id] == Done(Down)
      && t in s.pcs && (s.pcs[t] == Leading(a.id) || s.pcs[t] == Waiting(a.id))
  {
    hide AccessValid, Expired;
  }

  lemma EndStep(c: Config, ss: seq<State>, acts: seq<Action>, n: nat, t: nat)
    requires Steps(c, ss, acts, n) && EndWhy(ss, acts, n, t) && DownWhy(ss, acts, n)
    ensures EndWhy(ss, acts, n + 1, t)
  {
    if t in ss[n + 1].pcs {
      var pc := ss[n + 1].pcs[t];
      if t in ss[n].pcs && ss[n].pcs[t] == pc {
        hide Do, Enabled, DownWhy;
        if pc == Unauthorized {
          var j :| TurnedAwayAtStep(ss, acts, n, t, j);
          assert TurnedAwayAtStep(ss, acts, n + 1, t, j);
        } else if pc == BadGateway {
          var id, i, j :| FlightFailed(ss, acts, n, t, id, i, j);
          assert FlightFailed(ss, acts, n + 1, t, id, i, j);
        }
      } else {
        ReachesEnd(c, ss[n], acts[n], t);
        hide Do, Enabled;
        if pc == Unauthorized {
          assert TurnedAwayAtStep(ss, acts, n + 1, t, n);
        } else if pc == BadGateway {
          var id := acts[n].id;
          var i :| FailedAt(acts, n, id, i);
          assert FlightFailed(ss, acts, n + 1, t, id, i, n);
        }
      }
    }
  }

  lemma {:induction false} TraceEnds(c: Config, ss: seq<State>, acts: seq<Action>, n: nat, t: nat)
    requires IsTrace(c, ss, acts) && n <= |acts|
    ensures EndWhy(ss, acts, n, t) && DownWhy(ss, acts, n)
  {
    if n == 0 {
      hide Do, Enabled;
    } else {
      TraceEnds(c, ss, acts, n - 1, t);
      assert Steps(c, ss, acts, n - 1);
      hide EndWhy, DownWhy, Steps, IsTrace;
      EndStep(c, ss, acts, n - 1, t);
      DownStep(c, ss, acts, n - 1);
    }
  }

  /** Over every interleaving: a request is refused only because its session was not there
      or had expired, and answered with a bad gateway only after a flight the server failed. */
  lemma RefusedOnlyFor(c: Config, ss: seq<State>, acts: seq<Action>, n: nat, t: nat)
    requires IsTrace(c, ss, acts) && n <= |acts| && t in ss[n].pcs
    ensures ss[n].pcs[t] == Unauthorized ==> exists j :: TurnedAwayAtStep(ss, acts, n, t, j)
    ensures ss[n].pcs[t] == BadGateway ==> exists id, i, j :: FlightFailed(ss, acts, n, t, id, i, j)
  {
    TraceEnds(c, ss, acts, n, t);
    hide IsTrace, DownWhy, TurnedAwayAtStep, FlightFailed;
  }
}
