/** The policy enforcement point: modes, a floor under them, obligations, and what an
    unreachable decision point means (pep/pep.go). */
module Pep {
  import opened Text

  const OFF := "off"
  const SHADOW := "shadow"
  const ENFORCE := "enforce"
  const FRESH_AUTH := "require_fresh_auth"
  const MFA := "require_mfa"
  const DEFAULT_FRESH_AUTH_MAX_AGE := 300

  datatype Decision = Decision(allow: bool, mode: string, obligations: seq<string>, pepModeAccepted: bool)

  /** The decision point answers, or fails: perhaps with a decision that carries its
      mode, perhaps rejecting the request as malformed. */
  datatype Answer = Answered(d: Decision) | Failed(carried: Option<Decision>, rejected: bool)

  datatype Outcome = Pass | Denied(code: string)

  datatype Config = Config(floor: string, failOpen: bool, freshAuthMaxAge: int)

  /** What the user's token says: when they signed in, and by which methods. */
  datatype Facts = Facts(authTime: int, amr: seq<string>, now: int)

  /** One request: whether it carries a token, its facts, and what the decision point
      answers to each pep_mode. */
  datatype Request = Request(hasToken: bool, facts: Facts, ask: string -> Answer)

  datatype Mem = Mem(lastMode: string, pepModeAccepted: bool)

  const FRESH := Mem("", false)

  predicate Known(mode: string) {
    mode == OFF || mode == SHADOW || mode == ENFORCE
  }

  function Rank(mode: string): nat {
    if mode == ENFORCE then 2 else if mode == SHADOW then 1 else 0
  }

  ghost predicate Accepted(cfg: Config) {
    Known(cfg.floor) && !(cfg.floor == ENFORCE && cfg.failOpen)
  }

  // ----- Obligations -----

  predicate Met(o: string, f: Facts, cfg: Config) {
    (o == FRESH_AUTH && f.authTime != 0 && f.now - f.authTime <= cfg.freshAuthMaxAge)
    || (o == MFA && "mfa" in f.amr)
  }

  predicate AllMet(obligations: seq<string>, f: Facts, cfg: Config) {
    forall i :: 0 <= i < |obligations| ==> Met(obligations[i], f, cfg)
  }

  /** The first obligation the token does not satisfy, "" for none. */
  function Unmet(obligations: seq<string>, f: Facts, cfg: Config): string {
    if obligations == [] then ""
    else if Met(obligations[0], f, cfg) then Unmet(obligations[1..], f, cfg)
    else obligations[0]
  }

  method UnmetObligation(obligations: seq<string>, f: Facts, cfg: Config) returns (r: string)
    ensures r == Unmet(obligations, f, cfg)
  {
    for i := 0 to |obligations|
      invariant Unmet(obligations[i..], f, cfg) == Unmet(obligations, f, cfg)
    {
      var o := obligations[i];
      assert obligations[i..][1..] == obligations[i + 1..];
      if o == FRESH_AUTH {
        if f.authTime == 0 || f.now - f.authTime > cfg.freshAuthMaxAge {
          return o;
        }
      } else if o == MFA {
        if "mfa" !in f.amr {
          return o;
        }
      } else {
        return o;
      }
    }
    r := "";
  }

  /** The obligations before the first empty name. */
  function BeforeEmpty(obligations: seq<string>): seq<string> {
    if obligations == [] || obligations[0] == "" then [] else [obligations[0]] + BeforeEmpty(obligations[1..])
  }

  /** Nothing is reported unmet exactly when all up to the first empty name are met: an
      empty name is unmet too, but reads as "none". */
  lemma {:induction false} NothingUnmetIff(obligations: seq<string>, f: Facts, cfg: Config)
    ensures Unmet(obligations, f, cfg) == "" <==> AllMet(BeforeEmpty(obligations), f, cfg)
  {
    if obligations != [] && obligations[0] != "" {
      var rest := obligations[1..];
      NothingUnmetIff(rest, f, cfg);
      AllMetCons(obligations[0], BeforeEmpty(rest), f, cfg);
    }
  }

  lemma AllMetCons(o: string, rest: seq<string>, f: Facts, cfg: Config)
    ensures AllMet([o] + rest, f, cfg) <==> Met(o, f, cfg) && AllMet(rest, f, cfg)
  {
    var all := [o] + rest;
    if AllMet(all, f, cfg) {
      assert Met(all[0], f, cfg);
      forall i | 0 <= i < |rest| ensures Met(rest[i], f, cfg) {
        assert all[i + 1] == rest[i];
      }
    }
  }

  /** Whatever the token, nothing reported unmet means all obligations met. */
  ghost predicate MissesNothing(obligations: seq<string>, cfg: Config) {
    forall f :: Unmet(obligations, f, cfg) == "" ==> AllMet(obligations, f, cfg)
  }

  predicate Honourable(o: string) {
    o == FRESH_AUTH || o == MFA
  }

  lemma {:induction false} BeforeEmptyIs(obligations: seq<string>)
    ensures "" !in obligations ==> BeforeEmpty(obligations) == obligations
    ensures "" !in BeforeEmpty(obligations)
  {
    if obligations != [] {
      BeforeEmptyIs(obligations[1..]);
      assert obligations == [obligations[0]] + obligations[1..];
    }
  }

  /** The obligation check misses nothing exactly when no name is empty, or one before
      the first empty name is unknown and so always unmet. */
  lemma MissesNothingIff(obligations: seq<string>, cfg: Config)
    requires cfg.freshAuthMaxAge > 0
    ensures MissesNothing(obligations, cfg)
      <==> "" !in obligations || exists o :: o in BeforeEmpty(obligations) && !Honourable(o)
  {
    BeforeEmptyIs(obligations);
    var asked := BeforeEmpty(obligations);
    forall f ensures Unmet(obligations, f, cfg) == "" <==> AllMet(asked, f, cfg) {
      NothingUnmetIff(obligations, f, cfg);
    }
    if "" in obligations && forall o :: o in asked ==> Honourable(o) {
      var f := Facts(1, ["mfa"], 1);
      assert "mfa" == f.amr[0];
      forall i | 0 <= i < |asked| ensures Met(asked[i], f, cfg) {
        assert asked[i] in asked;
      }
      var i :| 0 <= i < |obligations| && obligations[i] == "";
      assert !Met(obligations[i], f, cfg) && !AllMet(obligations, f, cfg);
      assert Unmet(obligations, f, cfg) == "";
    } else if o :| o in asked && !Honourable(o) {
      forall f ensures !AllMet(asked, f, cfg) {
        assert !Met(o, f, cfg);
      }
    }
  }

  // ----- Modes -----

  /** The stricter of the server's mode and the floor; an unknown mode stands as it is. */
  function EffectiveMode(server: string, cfg: Config): string {
    if !Known(server) && server != "" then server
    else if Rank(cfg.floor) > Rank(server) then cfg.floor
    else server
  }

  lemma EffectiveModeIsStricter(server: string, cfg: Config)
    requires Known(cfg.floor)
    ensures Known(server) ==>
      Known(EffectiveMode(server, cfg))
      && Rank(EffectiveMode(server, cfg)) == if Rank(server) < Rank(cfg.floor) then Rank(cfg.floor) else Rank(server)
    ensures server == "" && cfg.floor != OFF ==> EffectiveMode(server, cfg) == cfg.floor
    ensures server == "" && cfg.floor == OFF ==> EffectiveMode(server, cfg) == ""
    ensures !Known(server) && server != "" ==> EffectiveMode(server, cfg) == server
  {
  }

  // ----- One check -----

  /** pep_mode is sent only under a floor, to a server that advertised it. */
  predicate Sends(m: Mem, cfg: Config) {
    cfg.floor != OFF && m.pepModeAccepted
  }

  function Reply(m: Mem, cfg: Config, ask: string -> Answer): Answer {
    var first := ask(if Sends(m, cfg) then cfg.floor else "");
    if Sends(m, cfg) && first.Failed? && first.rejected then ask("") else first
  }

  function CodeFor(unmet: string): string {
    if unmet == FRESH_AUTH then "elevation_required" else if unmet == MFA then "mfa_required" else "policy_denied"
  }

  function OnDecision(d: Decision, f: Facts, cfg: Config): Outcome {
    var unmet := if d.allow then Unmet(d.obligations, f, cfg) else "";
    var mode := EffectiveMode(d.mode, cfg);
    if (d.allow && unmet == "") || mode == OFF || mode == SHADOW then Pass else Denied(CodeFor(unmet))
  }

  /** The mode an error is judged by: the one it carries, else the last one seen. */
  function ModeOnError(m: Mem, carried: Option<Decision>): string {
    if carried.Some? && carried.value.mode != "" then carried.value.mode else m.lastMode
  }

  function OnError(m: Mem, carried: Option<Decision>, cfg: Config): Outcome {
    var seen := ModeOnError(m, carried);
    var mode := if seen != "" || cfg.floor == ENFORCE then EffectiveMode(seen, cfg) else seen;
    if mode == OFF || mode == SHADOW || (mode == "" && cfg.failOpen) then Pass else Denied("policy_unavailable")
  }

  function Result(m: Mem, cfg: Config, r: Request): Outcome {
    if !r.hasToken then Denied("unauthenticated")
    else
      match Reply(m, cfg, r.ask)
      case Answered(d) => OnDecision(d, r.facts, cfg)
      case Failed(carried, _) => OnError(m, carried, cfg)
  }

  function Next(m: Mem, cfg: Config, r: Request): Mem {
    if !r.hasToken then m
    else
      var first := r.ask(if Sends(m, cfg) then cfg.floor else "");
      var cleared := Sends(m, cfg) && first.Failed? && first.rejected;
      match Reply(m, cfg, r.ask)
      case Answered(d) => Mem(d.mode, d.pepModeAccepted)
      case Failed(carried, _) => Mem(ModeOnError(m, carried), m.pepModeAccepted && !cleared)
  }

  class Enforcer {
    const cfg: Config
    var lastMode: string
    var pepModeAccepted: bool

    ghost function View(): Mem
      reads this
    {
      Mem(lastMode, pepModeAccepted)
    }

    constructor (cfg: Config)
      requires Accepted(cfg)
      ensures this.cfg == cfg && View() == FRESH
    {
      this.cfg := cfg;
      lastMode, pepModeAccepted := "", false;
    }

    method Check(r: Request) returns (o: Outcome)
      modifies this
      ensures o == Result(old(View()), cfg, r) && View() == Next(old(View()), cfg, r)
    {
      hide Unmet, EffectiveMode;
      if !r.hasToken {
        return Denied("unauthenticated");
      }
      var answer := Decide(r.ask);
      if answer.Failed? {
        o := Unavailable(answer.carried);
        return;
      }
      var d := answer.d;
      lastMode := d.mode;
      var unmet := "";
      if d.allow {
        unmet := UnmetObligation(d.obligations, r.facts, cfg);
      }
      var allowed := d.allow && unmet == "";
      var mode := EffectiveMode(d.mode, cfg);
      if allowed || mode == OFF {
        return Pass;
      }
      if mode == SHADOW {
        return Pass;
      }
      var code := "policy_denied";
      if unmet == FRESH_AUTH {
        code := "elevation_required";
      } else if unmet == MFA {
        code := "mfa_required";
      }
      o := Denied(code);
    }

    method Decide(ask: string -> Answer) returns (a: Answer)
      modifies this`pepModeAccepted
      ensures a == Reply(old(View()), cfg, ask)
      ensures var first := ask(if Sends(old(View()), cfg) then cfg.floor else "");
        var cleared := Sends(old(View()), cfg) && first.Failed? && first.rejected;
        pepModeAccepted == if a.Answered? then a.d.pepModeAccepted else old(pepModeAccepted) && !cleared
    {
      var sent := cfg.floor != OFF && pepModeAccepted;
      a := ask(if sent then cfg.floor else "");
      if sent && a.Failed? && a.rejected {
        pepModeAccepted := false;
        a := ask("");
      }
      if a.Answered? {
        pepModeAccepted := a.d.pepModeAccepted;
      }
    }

    method Unavailable(carried: Option<Decision>) returns (o: Outcome)
      modifies this`lastMode
      ensures o == OnError(old(View()), carried, cfg) && lastMode == ModeOnError(old(View()), carried)
    {
      hide EffectiveMode;
      var mode := "";
      if carried.Some? && carried.value.mode != "" {
        mode := carried.value.mode;
        lastMode := mode;
      } else {
        mode := lastMode;
      }
      if mode != "" || cfg.floor == ENFORCE {
        mode := EffectiveMode(mode, cfg);
      }
      if mode == OFF || mode == SHADOW {
        return Pass;
      }
      if mode == "" && cfg.failOpen {
        return Pass;
      }
      o := Denied("policy_unavailable");
    }
  }

  /** An empty floor means off, an unknown one or an open-failing enforce floor is refused. */
  method New(floor: string, failOpen: bool, freshAuthMaxAge: int) returns (e: Enforcer?)
    ensures e != null <==>
      floor in ["", "off", "shadow"] || (floor == "enforce" && !failOpen)
    ensures e != null ==>
      fresh(e) && e.View() == FRESH && Accepted(e.cfg) && e.cfg.freshAuthMaxAge > 0
      && e.cfg.failOpen == failOpen && e.cfg.floor == (if floor == "" then "off" else floor)
      && e.cfg.freshAuthMaxAge == if freshAuthMaxAge > 0 then freshAuthMaxAge else 5 * 60
  {
    var f := if floor == "" then OFF else floor;
    if !Known(f) {
      return null;
    }
    if f == ENFORCE && failOpen {
      return null;
    }
    var age := if freshAuthMaxAge <= 0 then DEFAULT_FRESH_AUTH_MAX_AGE else freshAuthMaxAge;
    e := new Enforcer(Config(f, failOpen, age));
  }

  // ----- Guarantees over every history -----

  function After(cfg: Config, rs: seq<Request>): Mem {
    if rs == [] then FRESH else Next(After(cfg, rs[..|rs| - 1]), cfg, rs[|rs| - 1])
  }

  /** What the last check of a history returned. */
  function Last(cfg: Config, rs: seq<Request>): Outcome
    requires rs != []
  {
    Result(After(cfg, rs[..|rs| - 1]), cfg, rs[|rs| - 1])
  }

  function LastReply(cfg: Config, rs: seq<Request>): Answer
    requires rs != []
  {
    Reply(After(cfg, rs[..|rs| - 1]), cfg, rs[|rs| - 1].ask)
  }

  /** Floor enforce, any history: a check passes exactly on a token and an error-free
      allow none of whose obligations up to an empty name is unmet. */
  lemma EnforceFloorPassesIff(cfg: Config, rs: seq<Request>)
    requires Accepted(cfg) && cfg.floor == ENFORCE && rs != []
    ensures var r := rs[|rs| - 1]; var a := LastReply(cfg, rs);
      Last(cfg, rs) == Pass
      <==> r.hasToken && a.Answered? && a.d.allow && AllMet(BeforeEmpty(a.d.obligations), r.facts, cfg)
  {
    var r, a := rs[|rs| - 1], LastReply(cfg, rs);
    if a.Answered? {
      NothingUnmetIff(a.d.obligations, r.facts, cfg);
      EffectiveModeIsStricter(a.d.mode, cfg);
    } else {
      EffectiveModeIsStricter(ModeOnError(After(cfg, rs[..|rs| - 1]), a.carried), cfg);
    }
  }

  /** The token meets the obligation: a recent sign-in, or a second factor. */
  ghost predicate Honours(o: string, f: Facts, maxAge: int) {
    || (o == "require_fresh_auth" && f.authTime != 0 && f.now <= f.authTime + maxAge)
    || (o == "require_mfa" && "mfa" in f.amr)
  }

  lemma HonoursAll(obligations: seq<string>, f: Facts, cfg: Config)
    ensures Unmet(obligations, f, cfg) == "" <==>
      forall o :: o in BeforeEmpty(obligations) ==> Honours(o, f, cfg.freshAuthMaxAge)
  {
    NothingUnmetIff(obligations, f, cfg);
    var asked := BeforeEmpty(obligations);
    if AllMet(asked, f, cfg) {
      forall o | o in asked ensures Honours(o, f, cfg.freshAuthMaxAge) {
        var i :| 0 <= i < |asked| && asked[i] == o;
        assert Met(asked[i], f, cfg);
      }
    } else {
      var i :| 0 <= i < |asked| && !Met(asked[i], f, cfg);
      assert asked[i] in asked && !Honours(asked[i], f, cfg.freshAuthMaxAge);
    }
  }

  /** Any floor, any history: an answered check passes exactly when it is allowed with
      every obligation up to an empty name honoured, or when floor and server are both
      lenient, a server that names no mode counting as lenient under floor shadow only. */
  lemma DecisionPassesIff(cfg: Config, rs: seq<Request>)
    requires Accepted(cfg) && rs != [] && rs[|rs| - 1].hasToken && LastReply(cfg, rs).Answered?
    ensures var r, d := rs[|rs| - 1], LastReply(cfg, rs).d;
      Last(cfg, rs) == Pass <==>
      || (d.allow && forall o :: o in BeforeEmpty(d.obligations) ==> Honours(o, r.facts, cfg.freshAuthMaxAge))
      || (cfg.floor != "enforce"
          && (d.mode == "off" || d.mode == "shadow" || (d.mode == "" && cfg.floor == "shadow")))
  {
    HonoursAll(LastReply(cfg, rs).d.obligations, rs[|rs| - 1].facts, cfg);
    hide Unmet, After;
  }

  /** The mode reported last, whether by an answer or along with an error. */
  function LastReported(cfg: Config, rs: seq<Request>): string {
    if rs == [] then ""
    else if !rs[|rs| - 1].hasToken then LastReported(cfg, rs[..|rs| - 1])
    else
      match LastReply(cfg, rs)
      case Answered(d) => d.mode
      case Failed(carried, _) =>
        if carried.Some? && carried.value.mode != "" then carried.value.mode else LastReported(cfg, rs[..|rs| - 1])
  }

  lemma {:induction false} RemembersMode(cfg: Config, rs: seq<Request>)
    ensures After(cfg, rs).lastMode == LastReported(cfg, rs)
  {
    if rs != [] {
      RemembersMode(cfg, rs[..|rs| - 1]);
    }
  }

  /** Any floor, any history: a check whose decision point fails passes exactly when the
      floor is not enforce and the mode reported last is lenient, or none ever was and the
      point fails open. */
  lemma ErrorPassesIff(cfg: Config, rs: seq<Request>)
    requires Accepted(cfg) && rs != [] && rs[|rs| - 1].hasToken && LastReply(cfg, rs).Failed?
    ensures var mode := LastReported(cfg, rs);
      Last(cfg, rs) == Pass <==>
      cfg.floor != "enforce" && (mode == "off" || mode == "shadow" || (mode == "" && cfg.failOpen))
  {
    RemembersMode(cfg, rs);
    RemembersMode(cfg, rs[..|rs| - 1]);
    hide After;
  }

  /** Obligation i is the first the token does not honour. */
  ghost predicate FirstMissed(obligations: seq<string>, f: Facts, maxAge: int, i: nat) {
    && i < |obligations| && !Honours(obligations[i], f, maxAge)
    && forall j :: 0 <= j < i ==> Honours(obligations[j], f, maxAge)
  }

  lemma {:induction false} UnmetIsFirst(obligations: seq<string>, f: Facts, cfg: Config) returns (i: nat)
    requires Unmet(obligations, f, cfg) != ""
    ensures FirstMissed(obligations, f, cfg.freshAuthMaxAge, i) && obligations[i] == Unmet(obligations, f, cfg)
  {
    if Met(obligations[0], f, cfg) {
      var k := UnmetIsFirst(obligations[1..], f, cfg);
      i := k + 1;
      forall j | 0 <= j < i ensures Honours(obligations[j], f, cfg.freshAuthMaxAge) {
        assert j > 0 ==> obligations[j] == obligations[1..][j - 1];
      }
    } else {
      i := 0;
    }
  }

  /** What a refusal says: no token, no decision point, the first obligation missed, or a
      plain no. */
  lemma RefusalSays(cfg: Config, rs: seq<Request>)
    requires rs != [] && Last(cfg, rs).Denied?
    ensures var r, a, code := rs[|rs| - 1], LastReply(cfg, rs), Last(cfg, rs).code;
      if !r.hasToken then code == "unauthenticated"
      else if a.Failed? then code == "policy_unavailable"
      else if !a.d.allow then code == "policy_denied"
      else exists i :: NamesMissed(a.d.obligations, r.facts, cfg.freshAuthMaxAge, i, code)
  {
    var r, a := rs[|rs| - 1], LastReply(cfg, rs);
    if r.hasToken && a.Answered? && a.d.allow {
      var i := UnmetIsFirst(a.d.obligations, r.facts, cfg);
      assert NamesMissed(a.d.obligations, r.facts, cfg.freshAuthMaxAge, i, Last(cfg, rs).code);
    }
    hide Unmet, After, NamesMissed;
  }

  ghost predicate NamesMissed(obligations: seq<string>, f: Facts, maxAge: int, i: nat, code: string) {
    && FirstMissed(obligations, f, maxAge, i)
    && code == if obligations[i] == "require_fresh_auth" then "elevation_required"
               else if obligations[i] == "require_mfa" then "mfa_required" else "policy_denied"
  }

  /** Whether the server last said it takes pep_mode, and has not rejected one since. */
  function Advertised(cfg: Config, rs: seq<Request>): bool {
    if rs == [] then false
    else
      var before, r := Advertised(cfg, rs[..|rs| - 1]), rs[|rs| - 1];
      if !r.hasToken then before
      else
        match LastReply(cfg, rs)
        case Answered(d) => d.pepModeAccepted
        case Failed(_, _) => before && !(cfg.floor != "off" && r.ask(cfg.floor).Failed? && r.ask(cfg.floor).rejected)
  }

  lemma {:induction false} RemembersAdvertised(cfg: Config, rs: seq<Request>)
    ensures After(cfg, rs).pepModeAccepted == Advertised(cfg, rs)
  {
    if rs != [] {
      RemembersAdvertised(cfg, rs[..|rs| - 1]);
    }
  }

  /** The floor goes along exactly when there is one and the server takes it; a request
      rejected with it is made once more without. */
  lemma FloorIsSentIffAdvertised(cfg: Config, rs: seq<Request>)
    requires rs != []
    ensures var ask := rs[|rs| - 1].ask;
      LastReply(cfg, rs) ==
      if cfg.floor != "off" && Advertised(cfg, rs[..|rs| - 1])
      then if ask(cfg.floor).Failed? && ask(cfg.floor).rejected then ask("") else ask(cfg.floor)
      else ask("")
  {
    RemembersAdvertised(cfg, rs[..|rs| - 1]);
    hide After, Advertised;
  }

  /** So it passes only with every obligation met when no name is empty. */
  lemma EnforceFloorIsStrict(cfg: Config, rs: seq<Request>)
    requires Accepted(cfg) && cfg.floor == ENFORCE && rs != [] && Last(cfg, rs) == Pass
    ensures var a := LastReply(cfg, rs);
      a.Answered? && a.d.allow
      && ("" !in a.d.obligations ==> AllMet(a.d.obligations, rs[|rs| - 1].facts, cfg))
  {
    EnforceFloorPassesIff(cfg, rs);
    BeforeEmptyIs(LastReply(cfg, rs).d.obligations);
  }

  /** Under floor enforce a check passes with an obligation unmet exactly when an empty
      name is among them and all before it are met. */
  lemma PassesUnmetIff(cfg: Config, rs: seq<Request>)
    requires Accepted(cfg) && cfg.floor == ENFORCE && rs != []
    ensures var r, a := rs[|rs| - 1], LastReply(cfg, rs);
      Last(cfg, rs) == Pass && a.Answered? && !AllMet(a.d.obligations, r.facts, cfg)
      <==>
        r.hasToken && a.Answered? && a.d.allow && "" in a.d.obligations
        && AllMet(BeforeEmpty(a.d.obligations), r.facts, cfg)
  {
    EnforceFloorPassesIff(cfg, rs);
    var a := LastReply(cfg, rs);
    if a.Answered? {
      BeforeEmptyIs(a.d.obligations);
      if i :| 0 <= i < |a.d.obligations| && a.d.obligations[i] == "" {
        assert !Met(a.d.obligations[i], rs[|rs| - 1].facts, cfg);
      }
    }
  }

  /** Such an input: an allow with the one obligation "", under floor enforce. */
  lemma EmptyObligationPasses(cfg: Config, f: Facts, mode: string)
    requires Accepted(cfg) && cfg.floor == ENFORCE
    ensures var d := Decision(true, mode, [""], false);
      Last(cfg, [Request(true, f, _ => Answered(d))]) == Pass && !AllMet(d.obligations, f, cfg)
  {
    var d := Decision(true, mode, [""], false);
    assert !Met(d.obligations[0], f, cfg);
    assert Unmet(d.obligations, f, cfg) == "";
  }

  predicate Lenient(mode: string) {
    mode == OFF || mode == SHADOW
  }

  /** The answer's mode, if it has one, is off or shadow; a success has one. */
  predicate LenientAnswer(a: Answer) {
    match a
    case Answered(d) => Lenient(d.mode)
    case Failed(carried, _) => carried.Some? && carried.value.mode != "" ==> Lenient(carried.value.mode)
  }

  predicate Reports(a: Answer) {
    a.Answered? || (a.carried.Some? && a.carried.value.mode != "")
  }

  ghost predicate AllLenient(cfg: Config, rs: seq<Request>) {
    forall i :: 0 < i <= |rs| && rs[i - 1].hasToken ==> LenientAnswer(LastReply(cfg, rs[..i]))
  }

  lemma {:induction false} LenientModeIsKept(cfg: Config, rs: seq<Request>)
    requires AllLenient(cfg, rs)
    ensures var m := After(cfg, rs);
      (m.lastMode == "" || Lenient(m.lastMode))
      && ((exists i :: 0 < i <= |rs| && rs[i - 1].hasToken && Reports(LastReply(cfg, rs[..i]))) ==> Lenient(m.lastMode))
  {
    if rs != [] {
      var front := rs[..|rs| - 1];
      assert forall i :: 0 < i <= |front| ==> front[..i] == rs[..i];
      LenientModeIsKept(cfg, front);
      assert rs[..|rs|] == rs;
      assert rs[|rs| - 1].hasToken ==> LenientAnswer(LastReply(cfg, rs));
      if i :| 0 < i <= |rs| && rs[i - 1].hasToken && Reports(LastReply(cfg, rs[..i])) {
        assert i < |rs| ==> Reports(LastReply(cfg, front[..i])) && front[i - 1].hasToken;
      }
    }
  }

  /** Below enforce, while the decision point only ever reports off or shadow: once it
      has reported a mode, no check that carries a token is refused. */
  lemma NeverRefusedWhileLenient(cfg: Config, rs: seq<Request>)
    requires Accepted(cfg) && cfg.floor != ENFORCE && rs != [] && AllLenient(cfg, rs) && rs[|rs| - 1].hasToken
    requires exists i :: 0 < i <= |rs| && rs[i - 1].hasToken && Reports(LastReply(cfg, rs[..i]))
    ensures Last(cfg, rs) == Pass
  {
    var front, a := rs[..|rs| - 1], LastReply(cfg, rs);
    var m := After(cfg, front);
    assert rs[..|rs|] == rs;
    assert LenientAnswer(a);
    assert forall i :: 0 < i <= |front| ==> front[..i] == rs[..i];
    LenientModeIsKept(cfg, front);
    if !Reports(a) {
      var i :| 0 < i <= |rs| && rs[i - 1].hasToken && Reports(LastReply(cfg, rs[..i]));
      assert front[i - 1].hasToken && Reports(LastReply(cfg, front[..i]));
    }
  }

  // ----- Stricter floors -----

  ghost predicate Stricter(weak: Config, strict: Config) {
    Accepted(weak) && Accepted(strict) && Rank(weak.floor) <= Rank(strict.floor)
    && weak.freshAuthMaxAge == strict.freshAuthMaxAge
    && (strict.failOpen ==> weak.failOpen)
  }

  /** On one answer a stricter floor passes what a weaker one refuses in exactly one
      case: a successful answer without a mode, refusing, under floors off and shadow. */
  lemma StricterPassesMoreIff(weak: Config, strict: Config, m: Mem, a: Answer, f: Facts)
    requires Stricter(weak, strict)
    ensures var w := if a.Answered? then OnDecision(a.d, f, weak) else OnError(m, a.carried, weak);
      var s := if a.Answered? then OnDecision(a.d, f, strict) else OnError(m, a.carried, strict);
      w.Denied? && s == Pass
      <==>
        a.Answered? && a.d.mode == "" && weak.floor == OFF && strict.floor == SHADOW
        && !(a.d.allow && Unmet(a.d.obligations, f, weak) == "")
  {
    if a.Answered? {
      SameObligations(a.d.obligations, f, weak, strict);
      EffectiveModeIsStricter(a.d.mode, weak);
      EffectiveModeIsStricter(a.d.mode, strict);
    } else {
      EffectiveModeIsStricter(ModeOnError(m, a.carried), weak);
      EffectiveModeIsStricter(ModeOnError(m, a.carried), strict);
    }
  }

  /** Such an input: a refusal without a mode, which floor off denies and shadow passes. */
  lemma ShadowPassesWhatOffDenies(off: Config, shadow: Config, f: Facts)
    requires Stricter(off, shadow) && off.floor == OFF && shadow.floor == SHADOW
    ensures var rs := [Request(true, f, _ => Answered(Decision(false, "", [], false)))];
      Last(off, rs).Denied? && Last(shadow, rs) == Pass
  {
  }

  lemma {:induction false} SameObligations(obligations: seq<string>, f: Facts, c: Config, d: Config)
    requires c.freshAuthMaxAge == d.freshAuthMaxAge
    ensures Unmet(obligations, f, c) == Unmet(obligations, f, d)
  {
    if obligations != [] {
      SameObligations(obligations[1..], f, c, d);
    }
  }

  /** The decision point does not look at pep_mode. */
  ghost predicate IgnoresPepMode(rs: seq<Request>) {
    forall i, mode :: 0 <= i < |rs| ==> rs[i].ask(mode) == rs[i].ask("")
  }

  lemma {:induction false} SameModes(c: Config, d: Config, rs: seq<Request>)
    requires IgnoresPepMode(rs)
    ensures After(c, rs).lastMode == After(d, rs).lastMode
  {
    if rs != [] {
      var front, r := rs[..|rs| - 1], rs[|rs| - 1];
      SameModes(c, d, front);
      assert Reply(After(c, front), c, r.ask) == r.ask("") == Reply(After(d, front), d, r.ask);
    }
  }

  /** Over every history: if answers ignore pep_mode and every success carries a mode, a
      stricter floor never passes what a weaker one refuses. */
  lemma StricterNeverPassesMore(weak: Config, strict: Config, rs: seq<Request>)
    requires Stricter(weak, strict) && rs != [] && IgnoresPepMode(rs)
    requires rs[|rs| - 1].ask("").Answered? ==> rs[|rs| - 1].ask("").d.mode != ""
    ensures Last(weak, rs).Denied? ==> Last(strict, rs).Denied?
  {
    var front, r := rs[..|rs| - 1], rs[|rs| - 1];
    SameModes(weak, strict, front);
    var m, n, a := After(weak, front), After(strict, front), r.ask("");
    assert Reply(m, weak, r.ask) == a == Reply(n, strict, r.ask);
    StricterPassesMoreIff(weak, strict, m, a, r.facts);
    assert a.Failed? ==> OnError(m, a.carried, strict) == OnError(n, a.carried, strict);
  }
}
