/** bff/gateway.go over a store that rehydrates a fresh session for every
    request: requests handled one at a time. */
module Gateway {
  import opened Text
  import opened Sessions
  import opened PostgresStore

  datatype Config = Config(leeway: Time, touchInterval: Time, lifetimes: Lifetimes)

  /** The clock readings of one request, in the order the code takes them: in the
      store's Get, in EnsureFresh, in the flight, after the server's answer, and at
      the touch or the deletion. */
  datatype Clocks = Clocks(get: Time, check: Time, recheck: Time, stored: Time, last: Time)

  ghost predicate Ordered(k: Clocks, from: Time) {
    from <= k.get <= k.check <= k.recheck <= k.stored <= k.last
  }

  datatype Answer = Issue(ts: TokenSet) | Reject | Fail

  datatype Reply = Forward(access: string) | Unauthorized | SessionExpired | BadGateway

  /** What a request does to the session it was given: the session afterwards,
      whether the refresh and the touch wrote it back, and the reply. */
  datatype Handled = Handled(snap: Snapshot, refreshed: bool, touched: bool, reply: Reply)

  predicate NeedsRefresh(c: Config, snap: Snapshot, k: Clocks) {
    !AccessValid(snap, k.check, c.leeway) && !AccessValid(snap, k.recheck, c.leeway)
  }

  predicate TouchDue(c: Config, snap: Snapshot, now: Time) {
    c.touchInterval < 0 || now - snap.lastSeen >= c.touchInterval
  }

  function Slide(c: Config, snap: Snapshot, now: Time, refreshed: bool): Handled {
    if TouchDue(c, snap, now) then Handled(snap.(lastSeen := now), refreshed, true, Forward(snap.access))
    else Handled(snap, refreshed, false, Forward(snap.access))
  }

  function Handle(c: Config, snap: Snapshot, k: Clocks, answer: Answer): Handled {
    if !NeedsRefresh(c, snap, k) then Slide(c, snap, k.last, false)
    else match answer
      case Issue(ts) => Slide(c, ApplyTokens(snap, ts, k.stored), k.last, true)
      case Reject => Handled(snap, false, false, SessionExpired)
      case Fail => Handled(snap, false, false, BadGateway)
  }

  /** The rows after the request's write-backs or its deletion. */
  function Written(c: Config, rows: Rows, snap: Snapshot, k: Clocks, answer: Answer): Rows {
    var h := Handle(c, snap, k, answer);
    if h.reply.SessionExpired? then Delete(rows, snap.id, k.last)
    else
      var r1 := if h.refreshed then Put(rows, h.snap.(lastSeen := snap.lastSeen)) else rows;
      if h.touched then Put(r1, h.snap) else r1
  }

  /** The token held is forwarded without a call while it lasts beyond the leeway; otherwise
      the refresh token is presented, and the server's answer decides. */
  ghost predicate Answers(c: Config, snap: Snapshot, k: Clocks, answer: Answer, reply: Reply,
                          presented: Option<string>) {
    var lasts := k.check + c.leeway < snap.accessExpiry || k.recheck + c.leeway < snap.accessExpiry;
    if snap.access != "" && lasts then
      presented.None? && reply == Forward(snap.access)
    else
      && presented == Some(snap.refresh)
      && match answer
         case Issue(ts) => reply == Forward(ts.access)
         case Reject => reply == SessionExpired
         case Fail => reply == BadGateway
  }

  /** ProxyWithSession for one request, start to end. */
  class Proxy {
    const c: Config
    const store: Store

    constructor (c: Config, store: Store)
      requires store.lifetimes == c.lifetimes
      ensures this.c == c && this.store == store
    {
      this.c, this.store := c, store;
    }

    /** EnsureFresh for one caller: the access token, or the error, and the refresh token
        if one was presented. */
    method EnsureFresh(s: Session, k: Clocks, answer: Answer)
      returns (access: Option<string>, presented: Option<string>)
      requires store.lifetimes == c.lifetimes
      modifies s, store
      ensures access.Some? <==> !NeedsRefresh(c, old(s.State()), k) || answer.Issue?
      ensures access.Some? ==> access.value == s.State().access
      ensures s.State() == if NeedsRefresh(c, old(s.State()), k) && answer.Issue?
        then ApplyTokens(old(s.State()), answer.ts, k.stored) else old(s.State())
      ensures store.rows == if NeedsRefresh(c, old(s.State()), k) && answer.Issue?
        then Put(old(store.rows), s.State()) else old(store.rows)
      ensures presented.None? <==>
        && old(s.access) != ""
        && (k.check + c.leeway < old(s.accessExpiry) || k.recheck + c.leeway < old(s.accessExpiry))
      ensures presented.None? ==> access == Some(old(s.access))
      ensures presented.Some? ==>
        presented.value == old(s.refresh) && access == if answer.Issue? then Some(answer.ts.access) else None
      ensures presented.Some? && answer.Issue? && answer.ts.expiresIn > 0 ==>
        s.accessExpiry == k.stored + answer.ts.expiresIn
    {
      var snap := s.Capture();
      if AccessValid(snap, k.check, c.leeway) || AccessValid(snap, k.recheck, c.leeway) {
        return Some(snap.access), None;
      }
      presented := Some(snap.refresh);
      match answer {
        case Issue(ts) =>
          s.SetTokens(ts, k.stored);
          store.Save(s);
          access := Some(s.access);
        case _ =>
          access := None;
      }
    }

    /** One whole request: its reply, and the refresh token if it presented one. */
    method Serve(id: string, k: Clocks, answer: Answer) returns (reply: Reply, presented: Option<string>)
      requires store.lifetimes == c.lifetimes
      modifies store
      ensures var (rows, snap) := Get(c.lifetimes, old(store.rows), id, k.get);
        if snap.None? then reply == Unauthorized && store.rows == rows
        else reply == Handle(c, snap.value, k, answer).reply && store.rows == Written(c, rows, snap.value, k, answer)
      ensures var snap := Get(c.lifetimes, old(store.rows), id, k.get).1;
        if snap.None? then presented.None? else Answers(c, snap.value, k, answer, reply, presented)
    {
      var s := store.Fetch(id, k.get);
      if s == null {
        return Unauthorized, None;
      }
      ghost var snap := s.State();
      assert snap.id == id;
      var access;
      access, presented := EnsureFresh(s, k, answer);
      if access.None? {
        if answer.Reject? {
          store.Wipe(id, k.last);
          return SessionExpired, presented;
        }
        return BadGateway, presented;
      }
      if c.touchInterval < 0 || k.last - s.lastSeen >= c.touchInterval {
        s.Touch(k.last);
        store.Save(s);
      }
      reply := Forward(access.value);
    }
  }

  // ----- Runs of requests -----

  /** The server remembers, for each session, the last refresh token it issued. */
  datatype World = World(rows: Rows, clock: Time, last: map<string, TokenSet>, issued: set<string>, spent: set<string>)

  datatype Event =
    | Login(id: string, ts: TokenSet, snap: Snapshot)
    | Request(id: string, k: Clocks, answer: Answer)
    | Logout(id: string)
    | Cleanup
    | Tick(d: nat)

  /** The session a request is given, if any. */
  function Given(c: Config, w: World, e: Event): Option<Snapshot>
    requires e.Request?
  {
    Get(c.lifetimes, w.rows, e.id, e.k.get).1
  }

  /** Whether the request presents its refresh token to the server. */
  predicate Presents(c: Config, w: World, e: Event) {
    e.Request? && Given(c, w, e).Some? && NeedsRefresh(c, Given(c, w, e).value, e.k)
  }

  /** A new token set has a refresh token never seen before. */
  predicate Rotates(w: World, ts: TokenSet) { ts.refresh != "" && ts.refresh !in w.issued }

  /** What the clock and the server allow: the server rotates on success, loses no
      answer, and rejects exactly the spent tokens. */
  ghost predicate Allowed(c: Config, w: World, e: Event) {
    match e
    case Login(id, ts, snap) =>
      && id !in w.last && id !in w.rows && Rotates(w, ts)
      && snap.id == id && snap.refresh == ts.refresh && snap.access == ts.access
    case Request(id, k, answer) =>
      && Ordered(k, w.clock)
      && (Presents(c, w, e) ==>
            match answer
            case Issue(ts) => Given(c, w, e).value.refresh !in w.spent && Rotates(w, ts)
            case Reject => Given(c, w, e).value.refresh in w.spent
            case Fail => true)
    case _ => true
  }

  function Next(c: Config, w: World, e: Event): World {
    match e
    case Login(id, ts, snap) =>
      w.(rows := Put(w.rows, snap), last := w.last[id := ts], issued := w.issued + {ts.refresh})
    case Request(id, k, answer) =>
      var (rows, snap) := Get(c.lifetimes, w.rows, id, k.get);
      if snap.None? then w.(rows := rows, clock := k.last)
      else
        var w1 := w.(rows := Written(c, rows, snap.value, k, answer), clock := k.last);
        if Presents(c, w, e) && answer.Issue?
        then w1.(last := w.last[id := answer.ts], issued := w.issued + {answer.ts.refresh},
                 spent := w.spent + {snap.value.refresh})
        else w1
    case Logout(id) => w.(rows := Delete(w.rows, id, w.clock))
    case Cleanup => w.(rows := Sweep(c.lifetimes, w.rows, w.clock))
    case Tick(d) => w.(clock := w.clock + d)
  }

  ghost predicate IsRun(c: Config, w: World, es: seq<Event>)
    decreases |es|
  {
    es == [] || (Allowed(c, w, es[0]) && IsRun(c, Next(c, w, es[0]), es[1..]))
  }

  function After(c: Config, w: World, es: seq<Event>): World
    decreases |es|
  {
    if es == [] then w else After(c, Next(c, w, es[0]), es[1..])
  }

  // ----- The stored snapshot carries the last tokens issued -----

  /** Every readable row holds the last tokens the server issued for it. */
  ghost predicate UpToDate(w: World) {
    forall id :: id in w.rows && w.rows[id].deletedAt.None? ==>
      && id in w.last
      && Open(id, w.rows[id].data).Some?
      && Open(id, w.rows[id].data).value.refresh == w.last[id].refresh
      && Open(id, w.rows[id].data).value.access == w.last[id].access
  }

  /** The last token of each session is unspent and no other session's. */
  ghost predicate LastUnspent(w: World) {
    && w.spent <= w.issued
    && (forall id :: id in w.last ==> w.last[id].refresh in w.issued && w.last[id].refresh !in w.spent)
    && (forall i, j :: i in w.last && j in w.last && w.last[i].refresh == w.last[j].refresh ==> i == j)
  }

  ghost predicate KnownIds(w: World) { w.rows.Keys <= w.last.Keys }

  ghost predicate Inv(w: World) { UpToDate(w) && LastUnspent(w) && KnownIds(w) }

  lemma GivenIsLast(c: Config, w: World, e: Event)
    requires Inv(w) && e.Request? && Given(c, w, e).Some?
    ensures e.id in w.last && Given(c, w, e).value.refresh == w.last[e.id].refresh && Given(c, w, e).value.id == e.id
    ensures e.id in w.rows && w.rows[e.id].deletedAt.None? && Get(c.lifetimes, w.rows, e.id, e.k.get).0 == w.rows
  {
  }

  /** The row a request leaves behind: gone from sight, or holding its session. */
  lemma WrittenRow(c: Config, rows: Rows, snap: Snapshot, k: Clocks, answer: Answer)
    requires snap.id in rows && rows[snap.id].deletedAt.None? && Open(snap.id, rows[snap.id].data) == Some(snap)
    ensures var h, out := Handle(c, snap, k, answer), Written(c, rows, snap, k, answer);
      && out.Keys == rows.Keys
      && (forall i :: i in rows && i != snap.id ==> out[i] == rows[i])
      && (h.reply.SessionExpired? <==> out[snap.id].deletedAt.Some?)
      && (!h.reply.SessionExpired? ==> Open(snap.id, out[snap.id].data) == Some(h.snap))
      && out[snap.id].createdAt == rows[snap.id].createdAt
  {
  }

  lemma HandledTokens(c: Config, snap: Snapshot, k: Clocks, answer: Answer)
    ensures var h := Handle(c, snap, k, answer);
      && h.snap.id == snap.id
      && (h.reply.SessionExpired? <==> NeedsRefresh(c, snap, k) && answer.Reject?)
      && (if NeedsRefresh(c, snap, k) && answer.Issue?
          then h.snap.refresh == (if answer.ts.refresh != "" then answer.ts.refresh else snap.refresh)
            && h.snap.access == answer.ts.access
          else h.snap.refresh == snap.refresh && h.snap.access == snap.access)
  {
  }

  lemma RequestKeepsRows(c: Config, w: World, e: Event)
    requires Inv(w) && Allowed(c, w, e) && e.Request?
    ensures UpToDate(Next(c, w, e)) && KnownIds(Next(c, w, e))
  {
    var given := Given(c, w, e);
    if given.Some? {
      GivenIsLast(c, w, e);
      WrittenRow(c, w.rows, given.value, e.k, e.answer);
      HandledTokens(c, given.value, e.k, e.answer);
      hide Written, Get, Select, Handle, LastUnspent;
    }
  }

  lemma RequestKeepsUnspent(c: Config, w: World, e: Event)
    requires Inv(w) && Allowed(c, w, e) && e.Request?
    ensures LastUnspent(Next(c, w, e))
  {
    if Given(c, w, e).Some? {
      GivenIsLast(c, w, e);
    }
    hide UpToDate, Written, Get, NeedsRefresh;
  }

  lemma RequestKeepsInv(c: Config, w: World, e: Event)
    requires Inv(w) && Allowed(c, w, e) && e.Request?
    ensures Inv(Next(c, w, e))
  {
    RequestKeepsRows(c, w, e);
    RequestKeepsUnspent(c, w, e);
  }

  lemma StepKeepsInv(c: Config, w: World, e: Event)
    requires Inv(w) && Allowed(c, w, e)
    ensures Inv(Next(c, w, e))
  {
    if e.Request? {
      RequestKeepsInv(c, w, e);
    }
  }

  lemma {:induction false} RunKeepsInv(c: Config, w: World, es: seq<Event>)
    requires Inv(w) && IsRun(c, w, es)
    ensures Inv(After(c, w, es))
    decreases |es|
  {
    if es != [] {
      hide Inv, Allowed, Next;
      StepKeepsInv(c, w, es[0]);
      RunKeepsInv(c, Next(c, w, es[0]), es[1..]);
    }
  }

  ghost predicate Empty(w: World) { w.rows == map[] && w.last == map[] && w.spent == {} }

  /** After every run the stored snapshots carry the last tokens issued, and no
      request can be about to present a spent refresh token, so none is rejected. */
  lemma NoSpentTokenIsPresented(c: Config, w: World, es: seq<Event>, e: Event)
    requires Empty(w) && IsRun(c, w, es) && Allowed(c, After(c, w, es), e)
    ensures UpToDate(After(c, w, es))
    ensures Presents(c, After(c, w, es), e) ==>
      Given(c, After(c, w, es), e).value.refresh !in After(c, w, es).spent && !e.answer.Reject?
  {
    RunKeepsInv(c, w, es);
    if Presents(c, After(c, w, es), e) {
      GivenIsLast(c, After(c, w, es), e);
    }
  }

  // ----- Touches, the idle window and the absolute lifetime -----

  /** How one event changes what a later Get can see of a logged-in session: it
      becomes what the request left, or stays, or disappears. */
  lemma SeenAfter(c: Config, w: World, e: Event, id: string)
    requires id in w.last && Allowed(c, w, e) && Select(Next(c, w, e).rows, id).Some?
    ensures Select(w.rows, id).Some?
    ensures if e.Request? && e.id == id
      then Given(c, w, e).Some?
        && Select(Next(c, w, e).rows, id).value == Handle(c, Given(c, w, e).value, e.k, e.answer).snap
      else Select(Next(c, w, e).rows, id) == Select(w.rows, id)
  {
    if e.Request? && Given(c, w, e).Some? {
      WrittenRow(c, w.rows, Given(c, w, e).value, e.k, e.answer);
      hide Written, Handle, Expired;
    }
  }

  lemma RequestOutcome(c: Config, snap: Snapshot, k: Clocks, answer: Answer)
    requires 0 < c.touchInterval
    ensures var h := Handle(c, snap, k, answer);
      && h.snap.created == snap.created && h.snap.id == snap.id
      && (h.reply.Forward? ==> k.last - h.snap.lastSeen < c.touchInterval)
      && (!h.touched ==> h.snap.lastSeen == snap.lastSeen)
      && (h.touched ==> h.reply.Forward? && h.snap.lastSeen == k.last && k.last - snap.lastSeen >= c.touchInterval)
  {
  }

  /** The event writes a touch of this session. */
  predicate Touches(c: Config, w: World, id: string, e: Event) {
    e.Request? && e.id == id && Given(c, w, e).Some? && Handle(c, Given(c, w, e).value, e.k, e.answer).touched
  }

  /** The times at which a run of requests wrote a touch of this session. */
  function TouchTimes(c: Config, w: World, id: string, es: seq<Event>): seq<Time>
    decreases |es|
  {
    if es == [] then []
    else (if Touches(c, w, id, es[0]) then [es[0].k.last] else []) + TouchTimes(c, Next(c, w, es[0]), id, es[1..])
  }

  ghost predicate Spaced(ts: seq<Time>, gap: Time) {
    forall i, j :: 0 <= i < j < |ts| ==> ts[j] - ts[i] >= gap
  }

  /** No time without a session on record, else all at least a gap after its last-seen. */
  ghost predicate Follows(ts: seq<Time>, seen: Option<Snapshot>, gap: Time) {
    if seen.None? then ts == [] else forall i :: 0 <= i < |ts| ==> ts[i] - seen.value.lastSeen >= gap
  }

  lemma TouchStep(c: Config, w: World, id: string, e: Event)
    requires 0 < c.touchInterval && id in w.last && Allowed(c, w, e)
    ensures var was, now := Select(w.rows, id), Select(Next(c, w, e).rows, id);
      && (now.Some? ==> was.Some?)
      && (if Touches(c, w, id, e)
          then was.Some? && e.k.last - was.value.lastSeen >= c.touchInterval
            && (now.Some? ==> now.value.lastSeen == e.k.last)
          else now.Some? ==> now.value.lastSeen == was.value.lastSeen)
  {
    if Select(Next(c, w, e).rows, id).Some? {
      SeenAfter(c, w, e, id);
    }
    GivenIsSelected(c, w, e);
    if e.Request? && e.id == id && Given(c, w, e).Some? {
      RequestOutcome(c, Given(c, w, e).value, e.k, e.answer);
    }
    hide Next, Allowed, Handle, Select, Get;
  }

  lemma FollowsCons(t: Time, ts: seq<Time>, was: Option<Snapshot>, now: Option<Snapshot>, gap: Time)
    requires gap > 0 && Spaced(ts, gap) && Follows(ts, now, gap)
    requires was.Some? && t - was.value.lastSeen >= gap && (now.Some? ==> now.value.lastSeen == t)
    ensures Spaced([t] + ts, gap) && Follows([t] + ts, was, gap)
  {
    forall i | 0 <= i < |ts| ensures ts[i] - t >= gap {
    }
  }

  /** Touch writes are at least TouchInterval apart, and the first one at least
      that long after the last-seen time on record. */
  lemma {:induction false} TouchesAreSpaced(c: Config, w: World, id: string, es: seq<Event>)
    requires 0 < c.touchInterval && id in w.last && IsRun(c, w, es)
    ensures var ts := TouchTimes(c, w, id, es);
      Spaced(ts, c.touchInterval) && Follows(ts, Select(w.rows, id), c.touchInterval)
    decreases |es|
  {
    if es != [] {
      var e, w1 := es[0], Next(c, w, es[0]);
      TouchStep(c, w, id, e);
      LoggedInStays(c, w, e, id);
      TouchesAreSpaced(c, w1, id, es[1..]);
      hide Next, Allowed, Select, Touches;
      var ts := TouchTimes(c, w1, id, es[1..]);
      if Touches(c, w, id, e) {
        FollowsCons(e.k.last, ts, Select(w.rows, id), Select(w1.rows, id), c.touchInterval);
      } else {
        assert TouchTimes(c, w, id, es) == ts by { assert [] + ts == ts; }
      }
    }
  }

  lemma LoggedInStays(c: Config, w: World, e: Event, id: string)
    requires id in w.last
    ensures id in Next(c, w, e).last
  {
  }

  lemma GivenIsSelected(c: Config, w: World, e: Event)
    ensures e.Request? && Given(c, w, e).Some? ==> Given(c, w, e) == Select(w.rows, e.id)
  {
  }

  /** The time of the last forwarded request of the session. */
  function Forwarded(c: Config, w: World, id: string, e: Event, since: Time): Time {
    if e.Request? && e.id == id && Given(c, w, e).Some? && Handle(c, Given(c, w, e).value, e.k, e.answer).reply.Forward?
    then e.k.last else since
  }

  function LastForwarded(c: Config, w: World, id: string, es: seq<Event>, since: Time): Time
    decreases |es|
  {
    if es == [] then since
    else LastForwarded(c, Next(c, w, es[0]), id, es[1..], Forwarded(c, w, id, es[0], since))
  }

  /** In every run, the recorded last-seen time lags the last forwarded request by less
      than TouchInterval. */
  lemma {:induction false} LastSeenLags(c: Config, w: World, id: string, since: Time, es: seq<Event>)
    requires 0 < c.touchInterval && id in w.last && IsRun(c, w, es)
    requires Select(w.rows, id).Some? ==> since - Select(w.rows, id).value.lastSeen < c.touchInterval
    ensures var seen := Select(After(c, w, es).rows, id);
      seen.Some? ==> LastForwarded(c, w, id, es, since) - seen.value.lastSeen < c.touchInterval
    decreases |es|
  {
    if es != [] {
      var e, w1 := es[0], Next(c, w, es[0]);
      LoggedInStays(c, w, e, id);
      LagStep(c, w, id, since, e);
      hide Next, Allowed, Select, Forwarded;
      LastSeenLags(c, w1, id, Forwarded(c, w, id, e, since), es[1..]);
    }
  }

  lemma LagStep(c: Config, w: World, id: string, since: Time, e: Event)
    requires 0 < c.touchInterval && id in w.last && Allowed(c, w, e)
    requires Select(w.rows, id).Some? ==> since - Select(w.rows, id).value.lastSeen < c.touchInterval
    ensures var seen := Select(Next(c, w, e).rows, id);
      seen.Some? ==> Forwarded(c, w, id, e, since) - seen.value.lastSeen < c.touchInterval
  {
    if Select(Next(c, w, e).rows, id).Some? {
      SeenAfter(c, w, e, id);
      GivenIsSelected(c, w, e);
      if e.Request? && e.id == id {
        RequestOutcome(c, Given(c, w, e).value, e.k, e.answer);
      }
      hide Next, Allowed, Handle, Select, Get, Given;
    }
  }

  /** A run in which the user comes back in time: each request and each sweep finds
      the last forwarded request at most idle - TouchInterval ago and the absolute
      lifetime not over, and the user does not log out. */
  ghost predicate Attended(c: Config, w: World, id: string, created: Time, since: Time, es: seq<Event>)
    decreases |es|
  {
    es == [] ||
    (InTime(c, w, id, created, since, es[0]) &&
     Attended(c, Next(c, w, es[0]), id, created, Forwarded(c, w, id, es[0], since), es[1..]))
  }

  ghost predicate InTime(c: Config, w: World, id: string, created: Time, since: Time, e: Event) {
    match e
    case Request(i, k, answer) =>
      i == id ==> InTimeAt(c, created, since, k.get) && !(Presents(c, w, e) && answer.Reject?)
    case Cleanup => InTimeAt(c, created, since, w.clock)
    case Logout(i) => i != id
    case _ => true
  }

  predicate InTimeAt(c: Config, created: Time, since: Time, at: Time) {
    at - since <= c.lifetimes.idle - c.touchInterval
    && (c.lifetimes.absolute > 0 ==> at - created < c.lifetimes.absolute)
  }

  /** The session is on record, created then, and its last-seen time lags the last
      forwarded request by less than TouchInterval. */
  ghost predicate Tracked(c: Config, w: World, id: string, created: Time, since: Time) {
    && id in w.last
    && Select(w.rows, id).Some?
    && Select(w.rows, id).value.created == created == w.rows[id].createdAt
    && Select(w.rows, id).value.lastSeen == w.rows[id].lastSeen
    && since - w.rows[id].lastSeen < c.touchInterval
  }

  /** The columns a request leaves in its row. */
  lemma WrittenColumns(c: Config, rows: Rows, snap: Snapshot, k: Clocks, answer: Answer)
    requires snap.id in rows && rows[snap.id].deletedAt.None? && Open(snap.id, rows[snap.id].data) == Some(snap)
    requires rows[snap.id].lastSeen == snap.lastSeen && rows[snap.id].createdAt == snap.created
    ensures var h, out := Handle(c, snap, k, answer), Written(c, rows, snap, k, answer);
      !h.reply.SessionExpired? ==>
        out[snap.id].lastSeen == h.snap.lastSeen && out[snap.id].createdAt == h.snap.created
        && out[snap.id].deletedAt.None?
  {
  }

  /** A login starts being tracked from its own last-seen time. */
  lemma LoginIsTracked(c: Config, w: World, e: Event)
    requires 0 < c.touchInterval && e.Login? && Allowed(c, w, e)
    ensures Tracked(c, Next(c, w, e), e.id, e.snap.created, e.snap.lastSeen)
  {
  }

  lemma StaysTracked(c: Config, w: World, id: string, created: Time, since: Time, e: Event)
    requires 0 < c.touchInterval < c.lifetimes.idle
    requires Tracked(c, w, id, created, since) && Allowed(c, w, e) && InTime(c, w, id, created, since, e)
    ensures Tracked(c, Next(c, w, e), id, created, Forwarded(c, w, id, e, since))
    ensures e.Request? && e.id == id ==> Given(c, w, e).Some?
  {
    if e.Request? && Given(c, w, e).Some? {
      var snap := Given(c, w, e).value;
      WrittenRow(c, w.rows, snap, e.k, e.answer);
      if e.id == id {
        WrittenColumns(c, w.rows, snap, e.k, e.answer);
        RequestOutcome(c, snap, e.k, e.answer);
        RejectionIs(c, w, e);
      }
      hide Written, Handle;
    }
  }

  lemma RejectionIs(c: Config, w: World, e: Event)
    requires e.Request? && Given(c, w, e).Some?
    ensures Handle(c, Given(c, w, e).value, e.k, e.answer).reply.SessionExpired?
      <==> Presents(c, w, e) && e.answer.Reject?
  {
  }

  /** With 0 < TouchInterval < idle: a session whose forwarded requests follow each
      other within idle - TouchInterval never expires from idleness, and its
      recorded last-seen time lags the last of them by less than TouchInterval. */
  lemma {:induction false} AttendedSessionNeverIdlesOut(c: Config, w: World, id: string, created: Time, since: Time,
                                                        es: seq<Event>)
    requires 0 < c.touchInterval < c.lifetimes.idle
    requires Tracked(c, w, id, created, since) && IsRun(c, w, es) && Attended(c, w, id, created, since, es)
    ensures Tracked(c, After(c, w, es), id, created, LastForwarded(c, w, id, es, since))
    ensures forall e, i :: 0 <= i < |es| && es[i] == e && e.Request? && e.id == id ==>
      Given(c, After(c, w, es[..i]), e).Some?
    decreases |es|
  {
    if es != [] {
      StaysTracked(c, w, id, created, since, es[0]);
      hide Next, Allowed, InTime, Given, Tracked, Forwarded;
      AttendedSessionNeverIdlesOut(c, Next(c, w, es[0]), id, created, Forwarded(c, w, id, es[0], since), es[1..]);
      forall i, e | 0 <= i < |es| && es[i] == e && e.Request? && e.id == id
        ensures Given(c, After(c, w, es[..i]), e).Some?
      {
        if i > 0 {
          assert es[..i][0] == es[0] && es[..i][1..] == es[1..][..i - 1];
          assert es[1..][i - 1] == e;
        }
      }
    }
  }

  /** The recorded last-seen time is no later than the last forwarded request. */
  ghost predicate SeenBy(w: World, id: string, since: Time) {
    id in w.last && since <= w.clock && (Select(w.rows, id).Some? ==> Select(w.rows, id).value.lastSeen <= since)
  }

  lemma StepSeenBy(c: Config, w: World, id: string, since: Time, e: Event)
    requires SeenBy(w, id, since) && Allowed(c, w, e)
    ensures SeenBy(Next(c, w, e), id, Forwarded(c, w, id, e, since))
  {
    LoggedInStays(c, w, e, id);
    ClockGrows(c, w, e);
    GivenIsSelected(c, w, e);
    if Select(Next(c, w, e).rows, id).Some? {
      SeenAfter(c, w, e, id);
      if e.Request? && e.id == id {
        SeenOutcome(c, Given(c, w, e).value, e.k, e.answer);
      }
    }
    hide Next, Allowed, Handle, Select, Get, Given;
  }

  lemma ClockGrows(c: Config, w: World, e: Event)
    requires Allowed(c, w, e)
    ensures w.clock <= Next(c, w, e).clock && (e.Request? ==> w.clock <= e.k.last == Next(c, w, e).clock)
  {
  }

  lemma SeenOutcome(c: Config, snap: Snapshot, k: Clocks, answer: Answer)
    ensures var h := Handle(c, snap, k, answer);
      h.snap.lastSeen == snap.lastSeen || (h.snap.lastSeen == k.last && h.reply.Forward?)
  {
  }

  /** In every run, whatever the touch interval: a session no request of which was
      forwarded for the idle time is refused. */
  lemma {:induction false} UnattendedSessionIdlesOut(c: Config, w: World, id: string, since: Time, es: seq<Event>,
                                                     e: Event)
    requires c.lifetimes.idle > 0 && SeenBy(w, id, since) && IsRun(c, w, es) && e.Request? && e.id == id
    requires e.k.get >= LastForwarded(c, w, id, es, since) + c.lifetimes.idle
    ensures Given(c, After(c, w, es), e).None?
    decreases |es|
  {
    if es != [] {
      StepSeenBy(c, w, id, since, es[0]);
      hide Next, Allowed, SeenBy, Forwarded, Given;
      UnattendedSessionIdlesOut(c, Next(c, w, es[0]), id, Forwarded(c, w, id, es[0], since), es[1..], e);
    }
  }

  /** Counted from a login: whatever follows, the recorded last-seen time lags the last
      forwarded request, or the login itself, by less than TouchInterval. */
  lemma LastSeenLagsFromLogin(c: Config, w: World, e: Event, es: seq<Event>)
    requires 0 < c.touchInterval && e.Login? && IsRun(c, w, [e] + es)
    ensures var seen := Select(After(c, w, [e] + es).rows, e.id);
      seen.Some? ==> LastForwarded(c, Next(c, w, e), e.id, es, e.snap.lastSeen) - seen.value.lastSeen < c.touchInterval
  {
    assert ([e] + es)[1..] == es;
    LoginIsTracked(c, w, e);
    hide Next, Allowed;
    LastSeenLags(c, Next(c, w, e), e.id, e.snap.lastSeen, es);
  }

  /** Counted from a login: if the user comes back in time, every request finds the session. */
  lemma NeverIdlesOutFromLogin(c: Config, w: World, e: Event, es: seq<Event>, i: nat)
    requires 0 < c.touchInterval < c.lifetimes.idle && e.Login? && IsRun(c, w, [e] + es)
    requires Attended(c, Next(c, w, e), e.id, e.snap.created, e.snap.lastSeen, es)
    requires i < |es| && es[i].Request? && es[i].id == e.id
    ensures Given(c, After(c, Next(c, w, e), es[..i]), es[i]).Some?
  {
    assert ([e] + es)[1..] == es;
    LoginIsTracked(c, w, e);
    hide Next, Allowed, Attended, Tracked, Given;
    AttendedSessionNeverIdlesOut(c, Next(c, w, e), e.id, e.snap.created, e.snap.lastSeen, es);
  }

  /** Nothing extends the absolute lifetime: after any run, a request at or past
      created + absolute is refused. */
  lemma {:induction false} AbsoluteLifetimeIsFinal(c: Config, w: World, id: string, created: Time, es: seq<Event>,
                                                   e: Event)
    requires c.lifetimes.absolute > 0 && id in w.last && IsRun(c, w, es)
    requires Select(w.rows, id).Some? ==> Select(w.rows, id).value.created == created
    requires e.Request? && e.id == id && e.k.get >= created + c.lifetimes.absolute
    ensures Given(c, After(c, w, es), e).None?
    decreases |es|
  {
    if es != [] {
      var w1 := Next(c, w, es[0]);
      LoggedInStays(c, w, es[0], id);
      if Select(w1.rows, id).Some? {
        SeenAfter(c, w, es[0], id);
        CreationIsKept(c, w, es[0]);
        GivenIsSelected(c, w, es[0]);
      }
      hide Next, Allowed, Handle, Select, Get, Given;
      AbsoluteLifetimeIsFinal(c, w1, id, created, es[1..], e);
    }
  }

  lemma CreationIsKept(c: Config, w: World, e: Event)
    ensures e.Request? && Given(c, w, e).Some? ==>
      Handle(c, Given(c, w, e).value, e.k, e.answer).snap.created == Given(c, w, e).value.created
  {
  }
}
