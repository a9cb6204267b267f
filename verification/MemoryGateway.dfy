/** bff/gateway.go over the in-memory store, requests one at a time: what the touch
    throttle does to the idle bound when every request changes the shared session. */
module MemoryGateway {
  import opened Text
  import opened Sessions
  import opened Gateway

  /** The live sessions, the tombstones, and the ids ever logged in. */
  datatype World = World(live: map<string, Snapshot>, tombstones: map<string, Time>, used: set<string>, clock: Time)

  datatype Event =
    | Login(snap: Snapshot)
    | Request(id: string, k: Clocks, answer: Answer)
    | Logout(id: string)
    | Cleanup
    | Tick(d: nat)

  /** The session Get hands to a request, if any. */
  function Found(c: Config, live: map<string, Snapshot>, id: string, now: Time): Option<Snapshot> {
    if id in live && !Expired(c.lifetimes, live[id].created, live[id].lastSeen, now) then Some(live[id]) else None
  }

  /** One request on the live sessions: an expired session or a rejected refresh deletes
      it, anything else changes it in place. */
  function Served(c: Config, live: map<string, Snapshot>, id: string, k: Clocks, answer: Answer)
    : map<string, Snapshot>
  {
    match Found(c, live, id, k.get)
    case None => live - {id}
    case Some(snap) =>
      var h := Handle(c, snap, k, answer);
      if h.reply.SessionExpired? then live - {id} else live[id := h.snap]
  }

  function Replied(c: Config, live: map<string, Snapshot>, id: string, k: Clocks, answer: Answer): Reply {
    match Found(c, live, id, k.get)
    case None => Unauthorized
    case Some(snap) => Handle(c, snap, k, answer).reply
  }

  function Buried(c: Config, live: map<string, Snapshot>, tombstones: map<string, Time>, id: string, k: Clocks,
                  answer: Answer): map<string, Time>
  {
    if id in live && Found(c, live, id, k.get).None? then tombstones[id := k.get]
    else if Replied(c, live, id, k, answer).SessionExpired? then tombstones[id := k.last]
    else tombstones
  }

  /** ProxyWithSession over a MemoryStore. */
  class Proxy {
    const c: Config
    const store: MemoryStore

    constructor (c: Config, store: MemoryStore)
      requires store.lifetimes == c.lifetimes
      ensures this.c == c && this.store == store
    {
      this.c, this.store := c, store;
    }

    ghost function Live(): map<string, Snapshot>
      reads this, store, store.sessions.Values
    {
      map k | k in store.sessions :: store.sessions[k].State()
    }

    /** EnsureFresh on the shared session; the write-back finds it in the store already. */
    method EnsureFresh(s: Session, k: Clocks, answer: Answer)
      returns (access: Option<string>, presented: Option<string>)
      requires store.Valid() && s.id in store.sessions && store.sessions[s.id] == s && s.id !in store.tombstones
      modifies s, store
      ensures store.Valid() && store.sessions == old(store.sessions) && store.tombstones == old(store.tombstones)
      ensures access.Some? <==> !NeedsRefresh(c, old(s.State()), k) || answer.Issue?
      ensures access.Some? ==> access.value == s.State().access
      ensures s.State() == if NeedsRefresh(c, old(s.State()), k) && answer.Issue?
        then ApplyTokens(old(s.State()), answer.ts, k.stored) else old(s.State())
      ensures presented.None? <==>
        && old(s.access) != ""
        && (k.check + c.leeway < old(s.accessExpiry) || k.recheck + c.leeway < old(s.accessExpiry))
      ensures presented.None? ==> access == Some(old(s.access))
      ensures presented.Some? ==>
        presented.value == old(s.refresh) && access == if answer.Issue? then Some(answer.ts.access) else None
      ensures presented.Some? && answer.Issue? && answer.ts.expiresIn > 0 ==>
        s.accessExpiry == k.stored + answer.ts.expiresIn
    {
      var snap := s.Capture();
      if AccessValid(snap, k.check, c.leeway) || AccessValid(snap, k.recheck, c.leeway) {
        return Some(snap.access), None;
      }
      presented := Some(snap.refresh);
      match answer {
        case Issue(ts) =>
          s.SetTokens(ts, k.stored);
          store.Put(s);
          access := Some(s.access);
        case _ =>
          access := None;
      }
    }

    /** One whole request: its reply, and the refresh token if it presented one. */
    method Serve(id: string, k: Clocks, answer: Answer) returns (reply: Reply, presented: Option<string>)
      requires store.Valid() && store.lifetimes == c.lifetimes && store.sessions.Keys !! store.tombstones.Keys
      modifies store, store.sessions.Values
      ensures store.Valid() && Live() == Served(c, old(Live()), id, k, answer)
      ensures reply == Replied(c, old(Live()), id, k, answer)
      ensures store.tombstones == Buried(c, old(Live()), old(store.tombstones), id, k, answer)
      ensures var found := Found(c, old(Live()), id, k.get);
        if found.None? then presented.None? else Answers(c, found.value, k, answer, reply, presented)
    {
      hide Served, Replied, Buried, Expired;
      ghost var was := Live();
      ServedIs(c, was, store.tombstones, id, k, answer);
      var s := store.Get(id, k.get);
      if s == null {
        assert Live() == was - {id};
        return Unauthorized, None;
      }
      assert Live() == was;
      reply, presented := ServeHeld(s, k, answer);
    }

    method ServeHeld(s: Session, k: Clocks, answer: Answer) returns (reply: Reply, presented: Option<string>)
      requires store.Valid() && s.id in store.sessions && store.sessions[s.id] == s && s.id !in store.tombstones
      requires !Expired(c.lifetimes, s.created, s.lastSeen, k.get)
      modifies s, store
      ensures store.Valid() && Live() == Served(c, old(Live()), s.id, k, answer)
      ensures reply == Replied(c, old(Live()), s.id, k, answer)
      ensures store.tombstones == Buried(c, old(Live()), old(store.tombstones), s.id, k, answer)
      ensures Answers(c, old(s.State()), k, answer, reply, presented)
    {
      hide Served, Replied, Buried, Expired, NeedsRefresh, Refreshed, Slid;
      ghost var was := Live();
      ServedIs(c, was, store.tombstones, s.id, k, answer);
      reply, presented := ServeFound(s, k, answer);
      OthersKept(s);
      assert was[s.id := was[s.id]] == was;
    }

    /** Only s changed, and at most its own place in the store. */
    twostate lemma OthersKept(s: Session)
      requires old(store.Valid()) && s.id in old(store.sessions) && old(store.sessions)[s.id] == s
      requires forall i :: i in old(store.sessions) && old(store.sessions)[i] != s ==> unchanged(old(store.sessions)[i])
      ensures store.sessions == old(store.sessions) ==> Live() == old(Live())[s.id := s.State()]
      ensures store.sessions == old(store.sessions) - {s.id} ==> Live() == old(Live()) - {s.id}
    {
      assert forall i :: i in old(store.sessions) && i != s.id ==> old(store.sessions)[i] != s;
    }

    /** The request once it holds its session. */
    method ServeFound(s: Session, k: Clocks, answer: Answer) returns (reply: Reply, presented: Option<string>)
      requires store.Valid() && s.id in store.sessions && store.sessions[s.id] == s && s.id !in store.tombstones
      modifies s, store
      ensures store.Valid()
      ensures NeedsRefresh(c, old(s.State()), k) && answer.Reject? ==>
        store.sessions == old(store.sessions) - {s.id} && store.tombstones == old(store.tombstones)[s.id := k.last]
        && reply == SessionExpired
      ensures !(NeedsRefresh(c, old(s.State()), k) && answer.Reject?) ==>
        store.sessions == old(store.sessions) && store.tombstones == old(store.tombstones)
      ensures NeedsRefresh(c, old(s.State()), k) && answer.Fail? ==>
        s.State() == old(s.State()) && reply == BadGateway
      ensures !NeedsRefresh(c, old(s.State()), k) || answer.Issue? ==>
        var f := Refreshed(c, old(s.State()), k, answer);
        s.State() == Slid(c, f, k.last) && reply == Forward(f.access)
      ensures Answers(c, old(s.State()), k, answer, reply, presented)
    {
      hide NeedsRefresh, ApplyTokens;
      var access;
      access, presented := EnsureFresh(s, k, answer);
      if access.None? {
        if answer.Reject? {
          store.Delete(s.id, k.last);
          return SessionExpired, presented;
        }
        return BadGateway, presented;
      }
      if c.touchInterval < 0 || k.last - s.lastSeen >= c.touchInterval {
        s.Touch(k.last);
        store.Put(s);
      }
      reply := Forward(access.value);
    }
  }

  function Refreshed(c: Config, snap: Snapshot, k: Clocks, answer: Answer): Snapshot {
    if NeedsRefresh(c, snap, k) && answer.Issue? then ApplyTokens(snap, answer.ts, k.stored) else snap
  }

  function Slid(c: Config, snap: Snapshot, now: Time): Snapshot {
    if TouchDue(c, snap, now) then snap.(lastSeen := now) else snap
  }

  lemma ServedIs(c: Config, live: map<string, Snapshot>, stones: map<string, Time>, id: string, k: Clocks,
                 answer: Answer)
    ensures var found := id in live && !Expired(c.lifetimes, live[id].created, live[id].lastSeen, k.get);
      var served, replied, buried :=
        Served(c, live, id, k, answer), Replied(c, live, id, k, answer), Buried(c, live, stones, id, k, answer);
      if !found then
        served == live - {id} && replied == Unauthorized && buried == if id in live then stones[id := k.get] else stones
      else if NeedsRefresh(c, live[id], k) && answer.Reject? then
        served == live - {id} && replied == SessionExpired && buried == stones[id := k.last]
      else if NeedsRefresh(c, live[id], k) && answer.Fail? then
        served == live && replied == BadGateway && buried == stones
      else
        var f := Refreshed(c, live[id], k, answer);
        served == live[id := Slid(c, f, k.last)] && replied == Forward(f.access) && buried == stones
  {
  }

  // ----- Runs -----

  /** Logins use new ids and start at the current time; clocks never go back. */
  ghost predicate Allowed(w: World, e: Event) {
    match e
    case Login(snap) => snap.id !in w.used && snap.created == snap.lastSeen == w.clock
    case Request(_, k, _) => Ordered(k, w.clock)
    case _ => true
  }

  function Next(c: Config, w: World, e: Event): World {
    match e
    case Login(snap) =>
      w.(used := w.used + {snap.id},
         live := if snap.id in w.tombstones then w.live else w.live[snap.id := snap])
    case Request(id, k, answer) =>
      w.(live := Served(c, w.live, id, k, answer),
         tombstones := Buried(c, w.live, w.tombstones, id, k, answer), clock := k.last)
    case Logout(id) => w.(live := w.live - {id}, tombstones := w.tombstones[id := w.clock])
    case Cleanup =>
      w.(live := map k | k in w.live && Found(c, w.live, k, w.clock).Some? :: w.live[k],
         tombstones := map k | k in w.tombstones && !(w.tombstones[k] < w.clock - TOMBSTONE_TTL) :: w.tombstones[k])
    case Tick(d) => w.(clock := w.clock + d)
  }

  ghost predicate IsRun(c: Config, w: World, es: seq<Event>)
    decreases |es|
  {
    es == [] || (Allowed(w, es[0]) && IsRun(c, Next(c, w, es[0]), es[1..]))
  }

  function After(c: Config, w: World, es: seq<Event>): World
    decreases |es|
  {
    if es == [] then w else After(c, Next(c, w, es[0]), es[1..])
  }

  /** The time of the last forwarded request of the session. */
  function Forwarded(c: Config, w: World, id: string, e: Event, since: Time): Time {
    if e.Request? && e.id == id && Replied(c, w.live, id, e.k, e.answer).Forward? then e.k.last else since
  }

  function LastForwarded(c: Config, w: World, id: string, es: seq<Event>, since: Time): Time
    decreases |es|
  {
    if es == [] then since
    else LastForwarded(c, Next(c, w, es[0]), id, es[1..], Forwarded(c, w, id, es[0], since))
  }

  /** Created then, and last seen less than TouchInterval before the last forwarded request. */
  ghost predicate Lags(c: Config, w: World, id: string, created: Time, since: Time) {
    id in w.used && (id in w.live ==> w.live[id].created == created && since - w.live[id].lastSeen < c.touchInterval)
  }

  lemma StepLags(c: Config, w: World, id: string, created: Time, since: Time, e: Event)
    requires 0 < c.touchInterval && Lags(c, w, id, created, since) && Allowed(w, e)
    ensures Lags(c, Next(c, w, e), id, created, Forwarded(c, w, id, e, since))
  {
    if e.Request? && e.id == id && id in w.live {
      RequestOutcome(c, w.live[id], e.k, e.answer);
      hide Handle;
    }
  }

  /** In every run the recorded last-seen time lags the last forwarded request by less
      than TouchInterval, and the creation time stays what it was. */
  lemma {:induction false} LastSeenLags(c: Config, w: World, id: string, created: Time, since: Time, es: seq<Event>)
    requires 0 < c.touchInterval && Lags(c, w, id, created, since) && IsRun(c, w, es)
    ensures Lags(c, After(c, w, es), id, created, LastForwarded(c, w, id, es, since))
    decreases |es|
  {
    if es != [] {
      StepLags(c, w, id, created, since, es[0]);
      hide Next, Allowed, Lags, Forwarded;
      LastSeenLags(c, Next(c, w, es[0]), id, created, Forwarded(c, w, id, es[0], since), es[1..]);
    }
  }

  ghost predicate InTime(c: Config, w: World, id: string, created: Time, since: Time, e: Event) {
    match e
    case Request(i, k, answer) =>
      i == id ==> InTimeAt(c, created, since, k.get) && !Replied(c, w.live, id, k, answer).SessionExpired?
    case Cleanup => InTimeAt(c, created, since, w.clock)
    case Logout(i) => i != id
    case _ => true
  }

  /** A run in which the user comes back in time and does not log out. */
  ghost predicate Attended(c: Config, w: World, id: string, created: Time, since: Time, es: seq<Event>)
    decreases |es|
  {
    es == [] ||
    (InTime(c, w, id, created, since, es[0]) &&
     Attended(c, Next(c, w, es[0]), id, created, Forwarded(c, w, id, es[0], since), es[1..]))
  }

  lemma StepKeepsLive(c: Config, w: World, id: string, created: Time, since: Time, e: Event)
    requires 0 < c.touchInterval < c.lifetimes.idle && id in w.live && Lags(c, w, id, created, since)
    requires Allowed(w, e) && InTime(c, w, id, created, since, e)
    ensures id in Next(c, w, e).live
    ensures e.Request? && e.id == id ==> Found(c, w.live, id, e.k.get).Some?
  {
    hide Handle;
  }

  /** With 0 < TouchInterval < idle, a session whose requests are forwarded at gaps of at
      most idle - TouchInterval stays live, and every request of it finds it. */
  lemma {:induction false} AttendedSessionNeverIdlesOut(c: Config, w: World, id: string, created: Time, since: Time,
                                                        es: seq<Event>)
    requires 0 < c.touchInterval < c.lifetimes.idle && id in w.live && Lags(c, w, id, created, since)
    requires IsRun(c, w, es) && Attended(c, w, id, created, since, es)
    ensures id in After(c, w, es).live
    ensures forall i :: 0 <= i < |es| && es[i].Request? && es[i].id == id ==>
      Found(c, After(c, w, es[..i]).live, id, es[i].k.get).Some?
    decreases |es|
  {
    if es != [] {
      StepLags(c, w, id, created, since, es[0]);
      StepKeepsLive(c, w, id, created, since, es[0]);
      hide Next, Allowed, InTime, Found, Lags, Forwarded;
      AttendedSessionNeverIdlesOut(c, Next(c, w, es[0]), id, created, Forwarded(c, w, id, es[0], since), es[1..]);
      forall i | 0 <= i < |es| && es[i].Request? && es[i].id == id
        ensures Found(c, After(c, w, es[..i]).live, id, es[i].k.get).Some?
      {
        if i > 0 {
          assert es[..i][0] == es[0] && es[..i][1..] == es[1..][..i - 1];
          assert es[1..][i - 1] == es[i];
        }
      }
    }
  }

  // ----- Without requests -----

  /** The recorded last-seen time is no later than the last forwarded request. */
  ghost predicate SeenBy(w: World, id: string, since: Time) {
    id in w.used && since <= w.clock && (id in w.live ==> w.live[id].lastSeen <= since)
  }

  lemma StepSeenBy(c: Config, w: World, id: string, since: Time, e: Event)
    requires SeenBy(w, id, since) && Allowed(w, e)
    ensures SeenBy(Next(c, w, e), id, Forwarded(c, w, id, e, since))
  {
    if e.Request? && e.id == id && id in w.live {
      SeenOutcome(c, w.live[id], e.k, e.answer);
      hide Handle;
    }
  }

  /** In every run, whatever the touch interval: a session no request of which was
      forwarded for the idle time is not found any more. */
  lemma {:induction false} UnattendedSessionIdlesOut(c: Config, w: World, id: string, since: Time, es: seq<Event>,
                                                     now: Time)
    requires c.lifetimes.idle > 0 && SeenBy(w, id, since) && IsRun(c, w, es)
    requires now >= LastForwarded(c, w, id, es, since) + c.lifetimes.idle
    ensures Found(c, After(c, w, es).live, id, now).None?
    decreases |es|
  {
    if es != [] {
      StepSeenBy(c, w, id, since, es[0]);
      hide Next, Allowed, SeenBy, Forwarded, Found;
      UnattendedSessionIdlesOut(c, Next(c, w, es[0]), id, Forwarded(c, w, id, es[0], since), es[1..], now);
    }
  }

  // ----- From a login -----

  const START := World.World(map[], map[], {}, 0)

  /** Live ids have been logged in, and none of them is tombstoned. */
  ghost predicate Known(w: World) {
    w.live.Keys <= w.used && w.live.Keys !! w.tombstones.Keys
  }

  lemma {:induction false} RunKeepsKnown(c: Config, w: World, es: seq<Event>)
    requires Known(w) && IsRun(c, w, es)
    ensures Known(After(c, w, es))
    decreases |es|
  {
    if es != [] {
      RunKeepsKnown(c, Next(c, w, es[0]), es[1..]);
    }
  }

  lemma LoginLags(c: Config, w: World, snap: Snapshot)
    requires 0 < c.touchInterval && Allowed(w, Event.Login(snap)) && Known(w)
    ensures Lags(c, Next(c, w, Event.Login(snap)), snap.id, w.clock, w.clock)
  {
  }

  /** Counted from a login after any run: whatever follows, the recorded last-seen time
      lags the last forwarded request, or the login itself, by less than TouchInterval. */
  lemma LastSeenLagsFromLogin(c: Config, before: seq<Event>, snap: Snapshot, after: seq<Event>)
    requires 0 < c.touchInterval && IsRun(c, START, before)
    requires var w := After(c, START, before);
      Allowed(w, Event.Login(snap)) && IsRun(c, Next(c, w, Event.Login(snap)), after)
    ensures var w := After(c, START, before);
      var w1 := Next(c, w, Event.Login(snap));
      Lags(c, After(c, w1, after), snap.id, w.clock, LastForwarded(c, w1, snap.id, after, w.clock))
  {
    var w := After(c, START, before);
    RunKeepsKnown(c, START, before);
    LoginLags(c, w, snap);
    LastSeenLags(c, Next(c, w, Event.Login(snap)), snap.id, w.clock, w.clock, after);
  }

  /** Counted from a login of an id not logged out before: if the user comes back in
      time, the session stays live and every request finds it. */
  lemma NeverIdlesOutFromLogin(c: Config, before: seq<Event>, snap: Snapshot, after: seq<Event>)
    requires 0 < c.touchInterval < c.lifetimes.idle && IsRun(c, START, before)
    requires var w := After(c, START, before);
      && Allowed(w, Event.Login(snap)) && snap.id !in w.tombstones
      && IsRun(c, Next(c, w, Event.Login(snap)), after)
      && Attended(c, Next(c, w, Event.Login(snap)), snap.id, w.clock, w.clock, after)
    ensures var w1 := Next(c, After(c, START, before), Event.Login(snap));
      && snap.id in After(c, w1, after).live
      && forall i :: 0 <= i < |after| && after[i].Request? && after[i].id == snap.id ==>
        Found(c, After(c, w1, after[..i]).live, snap.id, after[i].k.get).Some?
  {
    var w := After(c, START, before);
    RunKeepsKnown(c, START, before);
    LoginLags(c, w, snap);
    assert snap.id in Next(c, w, Event.Login(snap)).live;
    hide Next, Allowed, Attended, Found, Lags;
    AttendedSessionNeverIdlesOut(c, Next(c, w, Event.Login(snap)), snap.id, w.clock, w.clock, after);
  }

  // ----- Touches keep their distance -----

  function SeenAs(w: World, id: string): Option<Snapshot> {
    if id in w.live then Some(w.live[id]) else None
  }

  /** The event touches this session. */
  predicate Touches(c: Config, w: World, id: string, e: Event) {
    e.Request? && e.id == id && Found(c, w.live, id, e.k.get).Some?
    && Handle(c, Found(c, w.live, id, e.k.get).value, e.k, e.answer).touched
  }

  function TouchTimes(c: Config, w: World, id: string, es: seq<Event>): seq<Time>
    decreases |es|
  {
    if es == [] then []
    else (if Touches(c, w, id, es[0]) then [es[0].k.last] else []) + TouchTimes(c, Next(c, w, es[0]), id, es[1..])
  }

  lemma TouchStep(c: Config, w: World, id: string, e: Event)
    requires 0 < c.touchInterval && id in w.used && Allowed(w, e)
    ensures id in Next(c, w, e).used
    ensures var was, now := SeenAs(w, id), SeenAs(Next(c, w, e), id);
      && (now.Some? ==> was.Some?)
      && (if Touches(c, w, id, e)
          then was.Some? && e.k.last - was.value.lastSeen >= c.touchInterval
            && (now.Some? ==> now.value.lastSeen == e.k.last)
          else now.Some? ==> now.value.lastSeen == was.value.lastSeen)
  {
    if e.Request? && e.id == id && id in w.live {
      RequestOutcome(c, w.live[id], e.k, e.answer);
      hide Handle;
    }
  }

  /** Over every run touches of a session are at least TouchInterval apart, and the first
      at least that long after its last-seen time. */
  lemma {:induction false} TouchesAreSpaced(c: Config, w: World, id: string, es: seq<Event>)
    requires 0 < c.touchInterval && id in w.used && IsRun(c, w, es)
    ensures var ts := TouchTimes(c, w, id, es);
      Spaced(ts, c.touchInterval) && Follows(ts, SeenAs(w, id), c.touchInterval)
    decreases |es|
  {
    if es != [] {
      var e, w1 := es[0], Next(c, w, es[0]);
      TouchStep(c, w, id, e);
      TouchesAreSpaced(c, w1, id, es[1..]);
      hide Next, Allowed, SeenAs, Touches;
      var ts := TouchTimes(c, w1, id, es[1..]);
      if Touches(c, w, id, e) {
        FollowsCons(e.k.last, ts, SeenAs(w, id), SeenAs(w1, id), c.touchInterval);
      } else {
        assert TouchTimes(c, w, id, es) == ts by { assert [] + ts == ts; }
      }
    }
  }

  // ----- The absolute lifetime -----

  /** The session, if still live, was created then. */
  ghost predicate CreatedAt(w: World, id: string, created: Time) {
    id in w.used && (id in w.live ==> w.live[id].created == created)
  }

  lemma {:induction false} CreationIsKept(c: Config, w: World, id: string, created: Time, es: seq<Event>)
    requires CreatedAt(w, id, created) && IsRun(c, w, es)
    ensures CreatedAt(After(c, w, es), id, created)
    decreases |es|
  {
    if es != [] {
      CreationIsKept(c, Next(c, w, es[0]), id, created, es[1..]);
    }
  }

  /** Nothing extends the absolute lifetime: after any run, whatever the touch interval,
      a request at or past created + absolute finds nothing. */
  lemma AbsoluteLifetimeIsFinal(c: Config, w: World, id: string, created: Time, es: seq<Event>, now: Time)
    requires c.lifetimes.absolute > 0 && CreatedAt(w, id, created) && IsRun(c, w, es)
    requires now >= created + c.lifetimes.absolute
    ensures Found(c, After(c, w, es).live, id, now).None?
  {
    CreationIsKept(c, w, id, created, es);
  }
}
