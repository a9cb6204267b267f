/** bff/gateway.go under concurrency: every interleaving of requests on one
    Gateway whose MemoryStore hands out live sessions, against an authorization
    server that rotates refresh tokens (section 6 of RFC 6749). */
module Refresh {
  import opened Sessions
  import StoreRuns

  datatype Config = Config(leeway: Time, touchInterval: Time, lifetimes: Lifetimes)

  /** What EnsureFresh hands to its callers. */
  datatype Outcome = Fresh(access: string) | Rejected | Down

  /** Where the function run by the single flight of a session stands. */
  datatype Phase =
    | Recheck
    | ReadRefresh
    | Calling(token: string)
    | Answered(ts: TokenSet)
    | Storing
    | ReadAccess
    | Done(outcome: Outcome)

  /** Where one request stands in ProxyWithSession. */
  datatype Pc =
    | Found(id: string)
    | Expiring(id: string)
    | Holding(id: string)
    | FastRead(id: string)
    | Joining(id: string)
    | Leading(id: string)
    | Waiting(id: string)
    | TouchCheck(id: string, access: string)
    | Touching(id: string, access: string, now: Time)
    | WritingBack(id: string, access: string)
    | Deleting(id: string)
    | Forwarded(access: string)
    | Unauthorized
    | LoggedOut
    | BadGateway

  /** A refresh token presented to the server, and whether the call succeeded. */
  datatype Call = Call(token: string, ok: bool)

  /** The server's answer to one refresh call. */
  datatype Answer = Issue(ts: TokenSet) | Reject | Fail

  datatype State = State(
    clock: Time, mem: Mem, sess: map<string, Snapshot>, flights: map<string, Phase>, pcs: map<nat, Pc>,
    issued: set<string>, spent: set<string>, log: seq<Call>)

  /** One atomic step: a locked operation, a network answer, or the environment. A
      clock reading used under a lock may be older than the step itself. */
  datatype Action =
    | Tick(d: nat)
    | Login(id: string, snap: Snapshot)
    | Logout(id: string)
    | Sweep(expired: set<string>)
    | Lookup(t: nat, id: string)
    | CheckLifetime(t: nat, now: Time)
    | Expire(t: nat)
    | CheckAccess(t: nat, now: Time)
    | ReadFast(t: nat)
    | Join(t: nat)
    | RecheckAccess(id: string, now: Time)
    | TakeRefresh(id: string)
    | Serve(id: string, answer: Answer)
    | Store(id: string, now: Time)
    | PutBack(id: string)
    | ReadBack(id: string)
    | Finish(id: string)
    | DecideTouch(t: nat, now: Time)
    | Touch(t: nat)
    | WriteBack(t: nat)
    | Delete(t: nat)

  predicate At(s: State, t: nat, p: Pc -> bool) { t in s.pcs && p(s.pcs[t]) && PcIdKnown(s, s.pcs[t]) }

  predicate PcIdKnown(s: State, pc: Pc) {
    match pc
    case Forwarded(_) | Unauthorized | LoggedOut | BadGateway => true
    case _ => pc.id in s.sess
  }

  predicate InFlight(s: State, id: string, p: Phase -> bool) { id in s.flights && id in s.sess && p(s.flights[id]) }

  /** What the code and the server allow. The server rotates on success, rejects
      only spent tokens, and spends nothing on a failed call. */
  predicate Enabled(s: State, a: Action) {
    match a
    case Tick(_) | Logout(_) | Sweep(_) => true
    case Login(id, snap) => id !in s.sess && snap.id == id && snap.refresh != "" && snap.refresh !in s.issued
    case Lookup(t, _) => t !in s.pcs
    case CheckLifetime(t, now) => now <= s.clock && At(s, t, (pc: Pc) => pc.Found?)
    case Expire(t) => At(s, t, (pc: Pc) => pc.Expiring?)
    case CheckAccess(t, now) => now <= s.clock && At(s, t, (pc: Pc) => pc.Holding?)
    case ReadFast(t) => At(s, t, (pc: Pc) => pc.FastRead?)
    case Join(t) => At(s, t, (pc: Pc) => pc.Joining?)
    case RecheckAccess(id, now) => now <= s.clock && InFlight(s, id, (f: Phase) => f.Recheck?)
    case TakeRefresh(id) => InFlight(s, id, (f: Phase) => f.ReadRefresh?)
    case Serve(id, answer) =>
      && InFlight(s, id, (f: Phase) => f.Calling?)
      && (match answer
          case Issue(ts) => s.flights[id].token !in s.spent && ts.refresh != "" && ts.refresh !in s.issued
          case Reject => s.flights[id].token in s.spent
          case Fail => true)
    case Store(id, now) => now <= s.clock && InFlight(s, id, (f: Phase) => f.Answered?)
    case PutBack(id) => InFlight(s, id, (f: Phase) => f.Storing?)
    case ReadBack(id) => InFlight(s, id, (f: Phase) => f.ReadAccess?)
    case Finish(id) => InFlight(s, id, (f: Phase) => f.Done?)
    case DecideTouch(t, now) => now <= s.clock && At(s, t, (pc: Pc) => pc.TouchCheck?)
    case Touch(t) => At(s, t, (pc: Pc) => pc.Touching?)
    case WriteBack(t) => At(s, t, (pc: Pc) => pc.WritingBack?)
    case Delete(t) => At(s, t, (pc: Pc) => pc.Deleting?)
  }

  function Goto(s: State, t: nat, pc: Pc): State { s.(pcs := s.pcs[t := pc]) }

  function Phased(s: State, id: string, f: Phase): State { s.(flights := s.flights[id := f]) }

  /** Where a request continues once EnsureFresh has returned. */
  function After(id: string, o: Outcome): Pc {
    match o
    case Fresh(access) => TouchCheck(id, access)
    case Rejected => Deleting(id)
    case Down => BadGateway
  }

  function Do(c: Config, s: State, a: Action): State
    requires Enabled(s, a)
  {
    match a
    case Tick(d) => s.(clock := s.clock + d)
    case Login(id, snap) =>
      s.(sess := s.sess[id := snap], issued := s.issued + {snap.refresh}, mem := MemPut(s.mem, id))
    case Logout(id) => s.(mem := MemDelete(s.mem, id, s.clock))
    case Sweep(expired) => s.(mem := MemSweep(s.mem, expired, s.clock))
    case Lookup(t, id) => Goto(s, t, if id in s.mem.live && id in s.sess then Found(id) else Unauthorized)
    case CheckLifetime(t, now) =>
      var id := s.pcs[t].id;
      var over := Expired(c.lifetimes, s.sess[id].created, s.sess[id].lastSeen, now);
      Goto(s, t, if over then Expiring(id) else Holding(id))
    case Expire(t) => Goto(s.(mem := MemDelete(s.mem, s.pcs[t].id, s.clock)), t, Unauthorized)
    case CheckAccess(t, now) =>
      var id := s.pcs[t].id;
      Goto(s, t, if AccessValid(s.sess[id], now, c.leeway) then FastRead(id) else Joining(id))
    case ReadFast(t) => Goto(s, t, TouchCheck(s.pcs[t].id, s.sess[s.pcs[t].id].access))
    case Join(t) =>
      var id := s.pcs[t].id;
      if id in s.flights then Goto(s, t, Waiting(id)) else Phased(Goto(s, t, Leading(id)), id, Recheck)
    case RecheckAccess(id, now) =>
      Phased(s, id, if AccessValid(s.sess[id], now, c.leeway) then ReadAccess else ReadRefresh)
    case TakeRefresh(id) => Phased(s, id, Calling(s.sess[id].refresh))
    case Serve(id, answer) =>
      var token := s.flights[id].token;
      (match answer
       case Issue(ts) =>
         Phased(s.(spent := s.spent + {token}, issued := s.issued + {ts.refresh},
                   log := s.log + [Call(token, true)]), id, Answered(ts))
       case Reject => Phased(s.(log := s.log + [Call(token, false)]), id, Done(Rejected))
       case Fail => Phased(s.(log := s.log + [Call(token, false)]), id, Done(Down)))
    case Store(id, now) => Phased(s.(sess := s.sess[id := ApplyTokens(s.sess[id], s.flights[id].ts, now)]), id, Storing)
    case PutBack(id) => Phased(s.(mem := MemPut(s.mem, id)), id, ReadAccess)
    case ReadBack(id) => Phased(s, id, Done(Fresh(s.sess[id].access)))
    case Finish(id) =>
      s.(flights := s.flights - {id},
         pcs := map t | t in s.pcs ::
           if s.pcs[t] == Leading(id) || s.pcs[t] == Waiting(id) then After(id, s.flights[id].outcome) else s.pcs[t])
    case DecideTouch(t, now) =>
      var id, access := s.pcs[t].id, s.pcs[t].access;
      var due := c.touchInterval < 0 || now - s.sess[id].lastSeen >= c.touchInterval;
      Goto(s, t, if due then Touching(id, access, now) else Forwarded(access))
    case Touch(t) =>
      var id := s.pcs[t].id;
      Goto(s.(sess := s.sess[id := s.sess[id].(lastSeen := s.pcs[t].now)]), t, WritingBack(id, s.pcs[t].access))
    case WriteBack(t) => Goto(s.(mem := MemPut(s.mem, s.pcs[t].id)), t, Forwarded(s.pcs[t].access))
    case Delete(t) => Goto(s.(mem := MemDelete(s.mem, s.pcs[t].id, s.clock)), t, LoggedOut)
  }

  ghost predicate IsRun(c: Config, s: State, actions: seq<Action>)
    decreases |actions|
  {
    actions == [] || (Enabled(s, actions[0]) && IsRun(c, Do(c, s, actions[0]), actions[1..]))
  }

  function Final(c: Config, s: State, actions: seq<Action>): State
    requires IsRun(c, s, actions)
    decreases |actions|
  {
    if actions == [] then s else Final(c, Do(c, s, actions[0]), actions[1..])
  }

  /** Before the first login. */
  ghost predicate Initial(s: State) {
    s.mem == Mem({}, map[]) && s.sess == map[] && s.flights == map[] && s.pcs == map[] && s.log == [] && s.spent == {}
  }

  // ----- The invariant -----

  /** The refresh token a session will present next: the one it holds, or, between
      the server's answer and SetTokens, the one just issued. */
  function Current(s: State, id: string): string
    requires id in s.sess
  {
    if id in s.flights && s.flights[id].Answered? then s.flights[id].ts.refresh else s.sess[id].refresh
  }

  /** Every session's current token is unspent and its own. */
  ghost predicate TokensLive(s: State) {
    && s.spent <= s.issued
    && s.flights.Keys <= s.sess.Keys
    && (forall id :: id in s.sess ==> Current(s, id) != "" && Current(s, id) in s.issued && Current(s, id) !in s.spent)
    && (forall i, j :: i in s.sess && j in s.sess && Current(s, i) == Current(s, j) ==> i == j)
    && (forall id :: id in s.flights && s.flights[id].Calling? ==> s.flights[id].token == s.sess[id].refresh)
  }

  /** No refresh was rejected, so no request is on the fatal branch. */
  ghost predicate NoRejection(s: State) {
    && (forall id :: id in s.flights ==> s.flights[id] != Done(Rejected))
    && (forall t :: t in s.pcs ==> !s.pcs[t].Deleting? && !s.pcs[t].LoggedOut?)
  }

  /** A token that succeeded is never presented again. */
  ghost predicate NeverReplayed(log: seq<Call>) {
    forall i, j :: 0 <= i < j < |log| && log[i].ok ==> log[j].token != log[i].token
  }

  ghost predicate LogSound(s: State) {
    && NeverReplayed(s.log)
    && (forall i :: 0 <= i < |s.log| && s.log[i].ok ==> s.log[i].token in s.spent)
  }

  ghost predicate Inv(s: State) { TokensLive(s) && NoRejection(s) && LogSound(s) }

  lemma StepKeepsTokens(c: Config, s: State, a: Action)
    requires TokensLive(s) && Enabled(s, a)
    ensures TokensLive(Do(c, s, a))
  {
    hide Do, Enabled, TokensLive;
    match a {
      case Serve(id, answer) => ServeKeepsTokens(c, s, id, answer);
      case Login(id, snap) => LoginKeepsTokens(c, s, id, snap);
      case Join(_) | Finish(_) => FlightEndsKeepTokens(c, s, a);
      case RecheckAccess(_, _) | TakeRefresh(_) | PutBack(_) | ReadBack(_) => FlightStepsKeepTokens(c, s, a);
      case Store(id, now) => StoreKeepsTokens(c, s, id, now);
      case _ => RequestStepsKeepTokens(c, s, a);
    }
  }

  predicate IsFlightStep(a: Action) { a.RecheckAccess? || a.TakeRefresh? || a.PutBack? || a.ReadBack? }

  /** The steps of a request outside the flight touch no token. */
  lemma RequestStepsKeepTokens(c: Config, s: State, a: Action)
    requires TokensLive(s) && Enabled(s, a) && !IsFlightStep(a)
    requires !a.Join? && !a.Finish? && !a.Store? && !a.Serve? && !a.Login?
    ensures TokensLive(Do(c, s, a))
  {
    hide Do, Enabled, IsFlightStep;
    RequestStepShape(c, s, a);
    SameTokens(s, Do(c, s, a));
  }

  lemma RequestStepShape(c: Config, s: State, a: Action)
    requires Enabled(s, a) && !IsFlightStep(a) && !a.Join? && !a.Finish? && !a.Store? && !a.Serve? && !a.Login?
    ensures var s' := Do(c, s, a);
      && s'.flights == s.flights && s'.issued == s.issued && s'.spent == s.spent && s'.sess.Keys == s.sess.Keys
      && forall i :: i in s.sess ==> s'.sess[i].refresh == s.sess[i].refresh
  {
  }

  /** The flight's own steps leave each session's current token what it was. */
  lemma FlightStepsKeepTokens(c: Config, s: State, a: Action)
    requires TokensLive(s) && Enabled(s, a) && IsFlightStep(a)
    ensures TokensLive(Do(c, s, a))
  {
    FlightStepShape(c, s, a);
    hide Do, Enabled, TokensLive;
    TokensFacts(s);
    SameTokens(s, Do(c, s, a));
  }

  lemma FlightStepShape(c: Config, s: State, a: Action)
    requires Enabled(s, a) && IsFlightStep(a)
    ensures var s', id := Do(c, s, a), a.id;
      && id in s.flights && id in s.sess && id in s'.flights
      && s'.flights == s.flights[id := s'.flights[id]] && s'.sess == s.sess
      && s'.issued == s.issued && s'.spent == s.spent
      && !s'.flights[id].Answered? && !s.flights[id].Answered?
      && (s'.flights[id].Calling? ==> s'.flights[id].token == s.sess[id].refresh)
  {
  }

  lemma FlightEndsKeepTokens(c: Config, s: State, a: Action)
    requires TokensLive(s) && Enabled(s, a) && (a.Join? || a.Finish?)
    ensures TokensLive(Do(c, s, a))
  {
    hide Do, Enabled, TokensLive;
    var id := FlightEndsShape(c, s, a);
    TokensFacts(s);
    SameTokens(s, Do(c, s, a));
  }

  lemma TokensFacts(s: State)
    requires TokensLive(s)
    ensures s.flights.Keys <= s.sess.Keys
    ensures forall id :: id in s.flights && s.flights[id].Calling? ==> s.flights[id].token == s.sess[id].refresh
  {
  }

  lemma FlightEndsShape(c: Config, s: State, a: Action) returns (id: string)
    requires Enabled(s, a) && (a.Join? || a.Finish?)
    ensures id in s.sess
    ensures var s' := Do(c, s, a);
      && s'.sess == s.sess && s'.issued == s.issued && s'.spent == s.spent
      && (s'.flights == s.flights ||
          (!(id in s.flights && s.flights[id].Answered?) &&
           (s'.flights == s.flights[id := Recheck] || s'.flights == s.flights - {id})))
  {
    id := if a.Join? then s.pcs[a.t].id else a.id;
  }

  lemma StoreKeepsTokens(c: Config, s: State, id: string, now: Time)
    requires TokensLive(s) && Enabled(s, Store(id, now))
    ensures TokensLive(Do(c, s, Store(id, now)))
  {
    var s' := Do(c, s, Store(id, now));
    assert Current(s, id) == s.flights[id].ts.refresh != "";
    hide Do, Enabled, TokensLive;
    SameTokens(s, s');
  }

  lemma SameTokens(s: State, s': State)
    requires TokensLive(s)
    requires s'.issued == s.issued && s'.spent == s.spent
    requires s'.sess.Keys == s.sess.Keys && s'.flights.Keys <= s.sess.Keys
    requires forall i :: i in s.sess ==> Current(s', i) == Current(s, i)
    requires forall i :: i in s'.flights && s'.flights[i].Calling? ==> s'.flights[i].token == s'.sess[i].refresh
    ensures TokensLive(s')
  {
    hide Current;
  }

  lemma LoginKeepsTokens(c: Config, s: State, id: string, snap: Snapshot)
    requires TokensLive(s) && Enabled(s, Login(id, snap))
    ensures TokensLive(Do(c, s, Login(id, snap)))
  {
    var s' := Do(c, s, Login(id, snap));
    assert forall i :: i in s.sess ==> Current(s', i) == Current(s, i);
    assert Current(s', id) == snap.refresh;
    hide Current;
  }

  lemma ServeKeepsTokens(c: Config, s: State, id: string, answer: Answer)
    requires TokensLive(s) && Enabled(s, Serve(id, answer))
    ensures TokensLive(Do(c, s, Serve(id, answer)))
  {
    hide Do, Enabled, TokensLive;
    ServeShape(c, s, id, answer);
    TokensFacts(s);
    var s' := Do(c, s, Serve(id, answer));
    if answer.Issue? {
      OneRotates(s, s', id, answer.ts.refresh);
    } else {
      SameTokens(s, s');
    }
  }

  /** One session's current token is spent and replaced by a new one. */
  lemma OneRotates(s: State, s': State, id: string, token: string)
    requires TokensLive(s) && id in s.sess && token != "" && token !in s.issued
    requires s'.spent == s.spent + {Current(s, id)} && s'.issued == s.issued + {token}
    requires s'.sess == s.sess && s'.flights.Keys <= s.sess.Keys
    requires Current(s', id) == token && forall i :: i in s.sess && i != id ==> Current(s', i) == Current(s, i)
    requires forall i :: i in s'.flights && s'.flights[i].Calling? ==> s'.flights[i].token == s'.sess[i].refresh
    ensures TokensLive(s')
  {
    hide Current;
  }

  lemma ServeShape(c: Config, s: State, id: string, answer: Answer)
    requires Enabled(s, Serve(id, answer))
    ensures var s' := Do(c, s, Serve(id, answer));
      && id in s.flights && id in s.sess && s.flights[id].Calling? && s'.sess == s.sess && id in s'.flights
      && s'.flights == s.flights[id := s'.flights[id]] && !s'.flights[id].Calling?
      && (answer.Issue? ==>
          s'.flights[id] == Answered(answer.ts) && s'.spent == s.spent + {s.flights[id].token}
          && s'.issued == s.issued + {answer.ts.refresh} && answer.ts.refresh != "" && answer.ts.refresh !in s.issued)
      && (!answer.Issue? ==> !s'.flights[id].Answered? && s'.spent == s.spent && s'.issued == s.issued)
  {
  }

  /** A token is unspent when it is presented. */
  lemma PresentedIsUnspent(s: State, id: string)
    requires TokensLive(s) && id in s.flights && s.flights[id].Calling?
    ensures s.flights[id].token !in s.spent
  {
    assert s.flights[id].token == Current(s, id);
  }

  lemma StepKeepsCalm(c: Config, s: State, a: Action)
    requires TokensLive(s) && NoRejection(s) && Enabled(s, a)
    ensures NoRejection(Do(c, s, a))
  {
    hide TokensLive;
    if a.Serve? { PresentedIsUnspent(s, a.id); }
  }

  lemma StepKeepsLog(c: Config, s: State, a: Action)
    requires TokensLive(s) && LogSound(s) && Enabled(s, a)
    ensures LogSound(Do(c, s, a))
  {
    hide TokensLive;
    if a.Serve? { PresentedIsUnspent(s, a.id); }
  }

  /** The invariant holds in every state of every run. */
  lemma {:induction false} RunKeepsInvariant(c: Config, s: State, actions: seq<Action>)
    requires Inv(s) && IsRun(c, s, actions)
    ensures Inv(Final(c, s, actions))
    decreases |actions|
  {
    if actions != [] {
      hide Do, Enabled, TokensLive, NoRejection, LogSound;
      var a := actions[0];
      StepKeepsTokens(c, s, a);
      StepKeepsCalm(c, s, a);
      StepKeepsLog(c, s, a);
      RunKeepsInvariant(c, Do(c, s, a), actions[1..]);
    }
  }

  /** Over every interleaving from an empty gateway, no refresh token is presented
      again after it succeeded, and no request takes the fatal branch. */
  lemma NoRefreshTokenIsReplayed(c: Config, s: State, actions: seq<Action>)
    requires Initial(s) && IsRun(c, s, actions)
    ensures NeverReplayed(Final(c, s, actions).log)
    ensures NoRejection(Final(c, s, actions))
  {
    RunKeepsInvariant(c, s, actions);
  }

  // ----- The gateway uses the store only through its locked operations -----

  function OpOf(s: State, a: Action): StoreRuns.Op
    requires Enabled(s, a)
  {
    match a
    case Tick(d) => StoreRuns.Tick(d)
    case Login(id, _) => StoreRuns.Put(id)
    case Logout(id) => StoreRuns.Delete(id)
    case Sweep(expired) => StoreRuns.Sweep(expired)
    case Expire(t) => StoreRuns.Delete(s.pcs[t].id)
    case PutBack(id) => StoreRuns.Put(id)
    case WriteBack(t) => StoreRuns.Put(s.pcs[t].id)
    case Delete(t) => StoreRuns.Delete(s.pcs[t].id)
    case Lookup(_, id) => StoreRuns.Read(id)
    case _ => StoreRuns.Tick(0)
  }

  function OpsOf(c: Config, s: State, actions: seq<Action>): seq<StoreRuns.Op>
    requires IsRun(c, s, actions)
    decreases |actions|
  {
    if actions == [] then [] else [OpOf(s, actions[0])] + OpsOf(c, Do(c, s, actions[0]), actions[1..])
  }

  function StoreView(s: State): StoreRuns.State { StoreRuns.State(s.mem, s.clock) }

  /** Every interleaving of requests is one of the store's runs, so what holds of
      those (tombstones, the hour after a Delete) holds here. */
  lemma {:induction false} GatewayRunsAreStoreRuns(c: Config, s: State, actions: seq<Action>)
    requires IsRun(c, s, actions)
    ensures StoreRuns.Run(StoreView(s), OpsOf(c, s, actions)) == StoreView(Final(c, s, actions))
    decreases |actions|
  {
    if actions != [] {
      var s1, rest := Do(c, s, actions[0]), actions[1..];
      GatewayRunsAreStoreRuns(c, s1, rest);
      assert OpsOf(c, s, actions)[1..] == OpsOf(c, s1, rest);
      assert StoreRuns.Step(StoreView(s), OpOf(s, actions[0])) == StoreView(s1);
    }
  }

  /** A session deleted by one request stays away from every later Get for an hour,
      although refreshes and touches already in flight still write it back. */
  lemma DeletedSessionStaysAway(c: Config, s: State, a: Action, rest: seq<Action>)
    requires StoreRuns.Disjoint(StoreView(s)) && IsRun(c, s, [a] + rest)
    requires OpOf(s, a).Delete?
    requires Final(c, s, [a] + rest).clock <= s.clock + TOMBSTONE_TTL
    ensures OpOf(s, a).id !in Final(c, s, [a] + rest).mem.live
  {
    hide Do, Enabled;
    var s1, id := Do(c, s, a), OpOf(s, a).id;
    assert ([a] + rest)[1..] == rest;
    GatewayRunsAreStoreRuns(c, s, [a]);
    GatewayRunsAreStoreRuns(c, s1, rest);
    assert OpsOf(c, s, [a]) == [OpOf(s, a)];
    StoreRuns.DeletedIsNotFoundForAnHour(StoreView(s), id, OpsOf(c, s1, rest));
  }

  // ----- The absolute lifetime -----

  /** Nothing changes when a session was created. */
  lemma {:induction false} CreationIsKept(c: Config, s: State, actions: seq<Action>, id: string)
    requires IsRun(c, s, actions) && id in s.sess
    ensures var f := Final(c, s, actions); id in f.sess && f.sess[id].created == s.sess[id].created
    decreases |actions|
  {
    if actions != [] {
      CreationIsKept(c, Do(c, s, actions[0]), actions[1..], id);
    }
  }

  /** The request is turned away, or about to be. */
  ghost predicate TurnedAway(s: State, t: nat) {
    t in s.pcs && (s.pcs[t].Expiring? || s.pcs[t].Unauthorized?)
  }

  lemma {:induction false} StaysTurnedAway(c: Config, s: State, actions: seq<Action>, t: nat)
    requires IsRun(c, s, actions) && TurnedAway(s, t)
    ensures TurnedAway(Final(c, s, actions), t)
    decreases |actions|
  {
    if actions != [] {
      StaysTurnedAway(c, Do(c, s, actions[0]), actions[1..], t);
    }
  }

  /** A request is turned away exactly when it reads the clock at or past one of the two
      bounds that are set. */
  lemma TurnedAwayAt(c: Config, s: State, t: nat, now: Time)
    requires Enabled(s, CheckLifetime(t, now))
    ensures var snap := s.sess[s.pcs[t].id];
      TurnedAway(Do(c, s, CheckLifetime(t, now)), t) <==>
      || (c.lifetimes.absolute > 0 && now >= snap.created + c.lifetimes.absolute)
      || (c.lifetimes.idle > 0 && now >= snap.lastSeen + c.lifetimes.idle)
  {
  }

  /** So a session not seen for the idle time is turned away for good. */
  lemma IdleSessionIsTurnedAway(c: Config, s: State, t: nat, now: Time, after: seq<Action>)
    requires c.lifetimes.idle > 0 && Enabled(s, CheckLifetime(t, now))
    requires now >= s.sess[s.pcs[t].id].lastSeen + c.lifetimes.idle
    requires IsRun(c, Do(c, s, CheckLifetime(t, now)), after)
    ensures TurnedAway(Final(c, Do(c, s, CheckLifetime(t, now)), after), t)
  {
    TurnedAwayAt(c, s, t, now);
    hide Enabled, Do;
    StaysTurnedAway(c, Do(c, s, CheckLifetime(t, now)), after, t);
  }

  /** Over every interleaving, whatever touches and refreshes came before: a request
      that reads the clock at or past created + absolute is turned away for good. */
  lemma AbsoluteLifetimeIsFinal(c: Config, s: State, before: seq<Action>, t: nat, now: Time, after: seq<Action>,
                                id: string)
    requires c.lifetimes.absolute > 0 && IsRun(c, s, before) && id in s.sess
    requires var m := Final(c, s, before);
      && Enabled(m, CheckLifetime(t, now)) && m.pcs[t].id == id
      && IsRun(c, Do(c, m, CheckLifetime(t, now)), after)
    requires now >= s.sess[id].created + c.lifetimes.absolute
    ensures TurnedAway(Final(c, Do(c, Final(c, s, before), CheckLifetime(t, now)), after), t)
  {
    CreationIsKept(c, s, before, id);
    hide Enabled, Do;
    TurnedAwayAt(c, Final(c, s, before), t, now);
    StaysTurnedAway(c, Do(c, Final(c, s, before), CheckLifetime(t, now)), after, t);
  }
}
