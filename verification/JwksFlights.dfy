/** Concurrent key lookups: one shared flight, the attempt stamp it sets, and callers
    that decided to fetch on what they read earlier (jwtauth/middleware.go). */
module JwksFlights {
  import opened Text
  import opened Jwks

  datatype Phase = Led | Stamped | Installed(ok: bool)

  datatype Flight = Flight(leader: nat, phase: Phase)

  /** A fetch: when and at which step it was stamped, at which step its leader had read
      the cooldown state, and the step it ended. */
  datatype Fetch = Fetch(at: real, step: nat, led: nat, ended: Option<nat>)

  datatype Thread =
    | Decided(kid: string, read: nat, at: real, stale: Option<Key>)
    | InFlight(kid: string, read: nat, at: real, stale: Option<Key>)
    | Resuming(kid: string, ok: bool, stale: Option<Key>)
    | Noting(kid: string)
    | Returned(result: Result)

  datatype State = State(now: real, step: nat, mem: Mem, flight: Option<Flight>,
                         threads: map<nat, Thread>, log: seq<Fetch>)

  const INITIAL := State(0.0, 0, EMPTY, None, map[], [])

  datatype Action =
    | Read(thread: nat, kid: string)
    | Enter(thread: nat)
    | Stamp(thread: nat)
    | Install(thread: nat, reply: Reply)
    | Land(thread: nat)
    | Resume(thread: nat)
    | Note(thread: nat)
    | Advance(seconds: real)

  ghost predicate Enabled(s: State, a: Action) {
    match a
    case Read(c, _) => c !in s.threads
    case Enter(c) => c in s.threads && s.threads[c].Decided?
    case Stamp(c) => s.flight == Some(Flight(c, Led)) && c in s.threads && s.threads[c].InFlight?
    case Install(c, _) => s.flight == Some(Flight(c, Stamped))
    case Land(c) => s.flight.Some? && s.flight.value.leader == c && s.flight.value.phase.Installed? && s.log != []
    case Resume(c) => c in s.threads && s.threads[c].Resuming?
    case Note(c) => c in s.threads && s.threads[c].Noting?
    case Advance(d) => d >= 0.0
  }

  /** The call as it reads its state: one reading of the clock under the read lock. */
  function Glance(kid: string, now: real): Call {
    Call(kid, now, now, now, now, now, now, now, Broken)
  }

  function StaleKey(mem: Mem, kid: string): Option<Key> {
    if kid in mem.keys then Some(mem.keys[kid]) else None
  }

  ghost function Effect(s: State, cfg: Config, a: Action): State
    requires Enabled(s, a)
  {
    match a
    case Read(c, kid) =>
      var g := Glance(kid, s.now);
      var t := if Fetches(s.mem, cfg, g) then Decided(kid, s.step, s.now, StaleKey(s.mem, kid))
               else Returned(Outcome(s.mem, cfg, g));
      s.(threads := s.threads[c := t])
    case Enter(c) =>
      var t := s.threads[c];
      s.(threads := s.threads[c := InFlight(t.kid, t.read, t.at, t.stale)],
         flight := if s.flight.None? then Some(Flight(c, Led)) else s.flight)
    case Stamp(c) =>
      s.(flight := Some(Flight(c, Stamped)), mem := s.mem.(lastAttempt := Some(s.now)),
         log := s.log + [Fetch(s.now, s.step, s.threads[c].read, None)])
    case Install(c, reply) =>
      s.(flight := Some(Flight(c, Installed(reply.Keys?))),
         mem := if reply.Broken? then s.mem else Mem(reply.keys, Some(s.now), s.mem.lastAttempt, map[]))
    case Land(c) =>
      s.(flight := None, threads := Landed(s.threads, s.flight.value.phase.ok),
         log := s.log[..|s.log| - 1] + [s.log[|s.log| - 1].(ended := Some(s.step))])
    case Resume(c) =>
      var t := s.threads[c];
      var n :=
        if !t.ok then Returned(if t.stale.Some? then Found(t.stale.value) else Unavailable)
        else if t.kid in s.mem.keys then Returned(Found(s.mem.keys[t.kid]))
        else Noting(t.kid);
      s.(threads := s.threads[c := n])
    case Note(c) =>
      var kid := s.threads[c].kid;
      s.(threads := s.threads[c := Returned(Unknown)],
         mem := s.mem.(negative := Pruned(s.mem.negative, cfg.negativeTTL, s.now)[kid := s.now]))
    case Advance(d) => s.(now := s.now + d)
  }

  /** Everyone aboard receives the flight's outcome. */
  function Landed(threads: map<nat, Thread>, ok: bool): map<nat, Thread> {
    map c | c in threads :: if threads[c].InFlight? then Resuming(threads[c].kid, ok, threads[c].stale) else threads[c]
  }

  ghost function Do(s: State, cfg: Config, a: Action): State
    requires Enabled(s, a)
  {
    Effect(s, cfg, a).(step := s.step + 1)
  }

  ghost predicate IsRun(s: State, cfg: Config, acts: seq<Action>)
    decreases |acts|
  {
    acts == [] || (Enabled(s, acts[0]) && IsRun(Do(s, cfg, acts[0]), cfg, acts[1..]))
  }

  ghost function Final(s: State, cfg: Config, acts: seq<Action>): State
    requires IsRun(s, cfg, acts)
    decreases |acts|
  {
    if acts == [] then s else Final(Do(s, cfg, acts[0]), cfg, acts[1..])
  }

  // ----- The invariant -----

  /** A decision read at a step and a time: it saw every earlier stamp cooled down. */
  ghost predicate Cooled(f: Fetch, cfg: Config, read: nat, at: real) {
    if f.step < read then at >= f.at + cfg.minRefetch else read < f.step
  }

  ghost predicate Disjoint(f: Fetch, g: Fetch) {
    f.ended.Some? && f.ended.value < g.step
  }

  ghost predicate Apart(f: Fetch, cfg: Config, g: Fetch) {
    if f.step < g.led then g.at >= f.at + cfg.minRefetch else g.led < f.step
  }

  ghost predicate LogOk(s: State, cfg: Config) {
    && (forall i :: 0 <= i < |s.log| ==>
      s.log[i].at <= s.now && s.log[i].step < s.step
      && (s.log[i].ended.Some? ==> s.log[i].step < s.log[i].ended.value))
    && (forall i, j :: 0 <= i < j < |s.log| ==>
      s.log[i].at <= s.log[j].at && s.log[i].step < s.log[j].step
      && Disjoint(s.log[i], s.log[j]) && Apart(s.log[i], cfg, s.log[j]))
    && s.mem.lastAttempt == (if s.log == [] then None else Some(s.log[|s.log| - 1].at))
  }

  ghost predicate FlightOk(s: State) {
    if s.flight.None? || s.flight.value.phase == Led
    then s.log != [] ==> s.log[|s.log| - 1].ended.Some? && s.log[|s.log| - 1].ended.value < s.step
    else s.log != []
  }

  ghost predicate ThreadOk(s: State, cfg: Config, t: Thread) {
    t.Decided? || t.InFlight? ==>
      t.read < s.step && t.at <= s.now && forall i :: 0 <= i < |s.log| ==> Cooled(s.log[i], cfg, t.read, t.at)
  }

  ghost predicate Inv(s: State, cfg: Config) {
    LogOk(s, cfg) && FlightOk(s) && forall c :: c in s.threads ==> ThreadOk(s, cfg, s.threads[c])
  }

  lemma ReadKeepsInv(s: State, cfg: Config, c: nat, kid: string)
    requires Inv(s, cfg) && Enabled(s, Read(c, kid))
    ensures Inv(Do(s, cfg, Read(c, kid)), cfg)
  {
    var n := Do(s, cfg, Read(c, kid));
    forall d | d in n.threads ensures ThreadOk(n, cfg, n.threads[d]) {
      if d != c {
        assert ThreadOk(s, cfg, s.threads[d]);
      } else if n.threads[c].Decided? {
        forall i | 0 <= i < |n.log| ensures Cooled(n.log[i], cfg, s.step, s.now) {
          assert s.log[i].at <= s.log[|s.log| - 1].at;
        }
      }
    }
  }

  lemma StampKeepsInv(s: State, cfg: Config, c: nat)
    requires Inv(s, cfg) && Enabled(s, Stamp(c))
    ensures Inv(Do(s, cfg, Stamp(c)), cfg)
  {
    var n := Do(s, cfg, Stamp(c));
    var t := s.threads[c];
    assert ThreadOk(s, cfg, t);
    forall i | 0 <= i < |s.log| ensures Disjoint(s.log[i], n.log[|s.log|]) && Apart(s.log[i], cfg, n.log[|s.log|]) {
      assert Cooled(s.log[i], cfg, t.read, t.at);
      assert i < |s.log| - 1 ==> Disjoint(s.log[i], s.log[|s.log| - 1]);
    }
    forall d | d in n.threads ensures ThreadOk(n, cfg, n.threads[d]) {
      assert ThreadOk(s, cfg, s.threads[d]);
    }
  }

  lemma LandKeepsInv(s: State, cfg: Config, c: nat)
    requires Inv(s, cfg) && Enabled(s, Land(c))
    ensures Inv(Do(s, cfg, Land(c)), cfg)
  {
    var n := Do(s, cfg, Land(c));
    var last := |s.log| - 1;
    assert forall i :: 0 <= i < last ==> n.log[i] == s.log[i];
    forall i | 0 <= i < last ensures Disjoint(n.log[i], n.log[last]) && Apart(n.log[i], cfg, n.log[last]) {
      assert Disjoint(s.log[i], s.log[last]) && Apart(s.log[i], cfg, s.log[last]);
    }
    forall d | d in n.threads ensures ThreadOk(n, cfg, n.threads[d]) {
      var t := s.threads[d];
      assert ThreadOk(s, cfg, t);
      if n.threads[d].Decided? {
        forall i | 0 <= i < |n.log| ensures Cooled(n.log[i], cfg, t.read, t.at) {
          assert Cooled(s.log[i], cfg, t.read, t.at);
        }
      }
    }
  }

  lemma OtherKeepsInv(s: State, cfg: Config, a: Action)
    requires Inv(s, cfg) && Enabled(s, a) && !a.Read? && !a.Stamp? && !a.Land?
    ensures Inv(Do(s, cfg, a), cfg)
  {
    hide Cooled, Apart, Disjoint, Pruned, Fetches, Outcome;
    var n := Do(s, cfg, a);
    forall d | d in n.threads ensures ThreadOk(n, cfg, n.threads[d]) {
      assert ThreadOk(s, cfg, s.threads[d]);
    }
  }

  lemma {:induction false} RunKeepsInv(s: State, cfg: Config, acts: seq<Action>)
    requires Inv(s, cfg) && IsRun(s, cfg, acts)
    ensures Inv(Final(s, cfg, acts), cfg)
    decreases |acts|
  {
    hide Inv, Effect;
    if acts != [] {
      match acts[0] {
        case Read(c, kid) => ReadKeepsInv(s, cfg, c, kid);
        case Stamp(c) => StampKeepsInv(s, cfg, c);
        case Land(c) => LandKeepsInv(s, cfg, c);
        case _ => OtherKeepsInv(s, cfg, acts[0]);
      }
      RunKeepsInv(Do(s, cfg, acts[0]), cfg, acts[1..]);
    }
  }

  /** In every interleaving fetches never overlap: each ends before the next is stamped. */
  lemma FetchesNeverOverlap(cfg: Config, acts: seq<Action>, i: nat, j: nat)
    requires IsRun(INITIAL, cfg, acts)
    requires i < j < |Final(INITIAL, cfg, acts).log|
    ensures var log := Final(INITIAL, cfg, acts).log;
      log[i].ended.Some? && log[i].step < log[j].step && log[i].ended.value < log[j].step
  {
    RunKeepsInv(INITIAL, cfg, acts);
    var s := Final(INITIAL, cfg, acts);
    assert Disjoint(s.log[i], s.log[j]);
  }

  /** In every interleaving a fetch stamped less than minRefetch after an earlier stamp
      was led by a call that had read its cooldown state before that stamp. */
  lemma CloseFetchWasDecidedEarlier(cfg: Config, acts: seq<Action>, i: nat, j: nat)
    requires IsRun(INITIAL, cfg, acts)
    requires i < j < |Final(INITIAL, cfg, acts).log|
    ensures var log := Final(INITIAL, cfg, acts).log;
      log[j].at - log[i].at < cfg.minRefetch ==> log[j].led < log[i].step
  {
    RunKeepsInv(INITIAL, cfg, acts);
    var s := Final(INITIAL, cfg, acts);
    assert Apart(s.log[i], cfg, s.log[j]);
  }

  /** So a fetch whose call began after an earlier fetch had ended keeps its distance. */
  lemma LaterCallKeepsItsDistance(cfg: Config, acts: seq<Action>, i: nat, j: nat)
    requires IsRun(INITIAL, cfg, acts)
    requires i < j < |Final(INITIAL, cfg, acts).log|
    ensures var log := Final(INITIAL, cfg, acts).log;
      log[i].ended.Some? && (log[j].led > log[i].ended.value ==> log[j].at >= log[i].at + cfg.minRefetch)
  {
    RunKeepsInv(INITIAL, cfg, acts);
    var s := Final(INITIAL, cfg, acts);
    assert Disjoint(s.log[i], s.log[j]) && Apart(s.log[i], cfg, s.log[j]);
  }
}
