/** bff/session.go: the session record, the in-memory session store, and what
    its tombstones guarantee over every run. */
module Sessions {
  /** Nanoseconds. */
  type Time = int
  const HOUR: Time := 3600 * 1_000_000_000
  const TOMBSTONE_TTL: Time := HOUR

  /** A token response; an empty string or a non-positive lifetime is an absent field. */
  datatype TokenSet = TokenSet(access: string, refresh: string, idToken: string, expiresIn: Time)

  /** A session's full state: SessionSnapshot. */
  datatype Snapshot = Snapshot(
    id: string, access: string, refresh: string, idToken: string, accessExpiry: Time,
    csrf: string, user: string, created: Time, lastSeen: Time)

  function ApplyTokens(s: Snapshot, ts: TokenSet, now: Time): Snapshot {
    s.(access := ts.access,
       refresh := if ts.refresh != "" then ts.refresh else s.refresh,
       idToken := if ts.idToken != "" then ts.idToken else s.idToken,
       accessExpiry := if ts.expiresIn > 0 then now + ts.expiresIn else s.accessExpiry)
  }

  predicate AccessValid(s: Snapshot, now: Time, leeway: Time) {
    s.access != "" && now + leeway < s.accessExpiry
  }

  /** Zero disables a bound. */
  datatype Lifetimes = Lifetimes(idle: Time, absolute: Time)

  predicate Expired(l: Lifetimes, created: Time, lastSeen: Time, now: Time) {
    (l.absolute > 0 && now - created >= l.absolute) || (l.idle > 0 && now - lastSeen >= l.idle)
  }

  /** One logged-in browser. Every method runs under the session's lock. */
  class Session {
    const id: string
    const csrf: string
    const created: Time
    var access: string
    var refresh: string
    var idToken: string
    var accessExpiry: Time
    var user: string
    var lastSeen: Time

    ghost function State(): Snapshot
      reads this
    {
      Snapshot(id, access, refresh, idToken, accessExpiry, csrf, user, created, lastSeen)
    }

    /** NewSessionFromSnapshot. */
    constructor (snap: Snapshot)
      ensures State() == snap
    {
      id, csrf, created := snap.id, snap.csrf, snap.created;
      access, refresh, idToken, accessExpiry := snap.access, snap.refresh, snap.idToken, snap.accessExpiry;
      user, lastSeen := snap.user, snap.lastSeen;
    }

    method Capture() returns (snap: Snapshot)
      ensures snap == State()
    {
      snap := Snapshot(id, access, refresh, idToken, accessExpiry, csrf, user, created, lastSeen);
    }

    method SetTokens(ts: TokenSet, now: Time)
      modifies this
      ensures State() == ApplyTokens(old(State()), ts, now)
      ensures access == ts.access && refresh == (if ts.refresh != "" then ts.refresh else old(refresh))
      ensures idToken == (if ts.idToken != "" then ts.idToken else old(idToken))
      ensures accessExpiry == (if ts.expiresIn > 0 then now + ts.expiresIn else old(accessExpiry))
      ensures user == old(user) && lastSeen == old(lastSeen)
    {
      access := ts.access;
      if ts.refresh != "" { refresh := ts.refresh; }
      if ts.idToken != "" { idToken := ts.idToken; }
      if ts.expiresIn > 0 { accessExpiry := now + ts.expiresIn; }
    }

    method Touch(now: Time)
      modifies this
      ensures State() == old(State()).(lastSeen := now)
    {
      lastSeen := now;
    }
  }

  // ----- The store as a value -----

  /** Which ids the store would hand out, and when each deleted one was deleted. */
  datatype Mem = Mem(live: set<string>, tombstones: map<string, Time>)

  function MemPut(m: Mem, id: string): Mem {
    if id in m.tombstones then m else m.(live := m.live + {id})
  }

  function MemDelete(m: Mem, id: string, now: Time): Mem {
    Mem(m.live - {id}, m.tombstones[id := now])
  }

  function MemSweep(m: Mem, expired: set<string>, now: Time): Mem {
    Mem(m.live - expired, map id | id in m.tombstones && !(m.tombstones[id] < now - TOMBSTONE_TTL) :: m.tombstones[id])
  }

  class MemoryStore {
    var sessions: map<string, Session>
    var tombstones: map<string, Time>
    const lifetimes: Lifetimes

    ghost function State(): Mem
      reads this
    {
      Mem(sessions.Keys, tombstones)
    }

    /** Every session is filed under its own id. */
    ghost predicate Valid()
      reads this
    {
      forall k :: k in sessions ==> sessions[k].id == k
    }

    constructor (lifetimes: Lifetimes)
      ensures Valid() && State() == Mem({}, map[]) && this.lifetimes == lifetimes
    {
      this.lifetimes := lifetimes;
      sessions, tombstones := map[], map[];
    }

    method Get(id: string, now: Time) returns (s: Session?)
      requires Valid()
      modifies this
      ensures Valid() && sessions == (if s == null then old(sessions) - {id} else old(sessions))
      ensures s != null <==>
        id in old(sessions) && !Expired(lifetimes, old(sessions)[id].created, old(sessions)[id].lastSeen, now)
      ensures s != null <==>
        && id in old(sessions)
        && !(lifetimes.absolute > 0 && now >= old(sessions)[id].created + lifetimes.absolute)
        && !(lifetimes.idle > 0 && now >= old(sessions)[id].lastSeen + lifetimes.idle)
      ensures s != null ==> s == old(sessions)[id] && s.id == id
      ensures State() == if id in old(sessions) && s == null then MemDelete(old(State()), id, now) else old(State())
    {
      if id !in sessions {
        return null;
      }
      s := sessions[id];
      if Expired(lifetimes, s.created, s.lastSeen, now) {
        Delete(id, now);
        return null;
      }
    }

    method Put(s: Session)
      requires Valid()
      modifies this
      ensures Valid() && State() == MemPut(old(State()), s.id)
      ensures sessions == if s.id in old(tombstones) then old(sessions) else old(sessions)[s.id := s]
    {
      if s.id in tombstones {
        return;
      }
      sessions := sessions[s.id := s];
    }

    method Delete(id: string, now: Time)
      requires Valid()
      modifies this
      ensures Valid() && State() == MemDelete(old(State()), id, now) && sessions == old(sessions) - {id}
    {
      sessions := sessions - {id};
      tombstones := tombstones[id := now];
    }

    method Sweep(now: Time)
      requires Valid()
      modifies this
      ensures Valid()
      ensures var expired := set k | k in old(sessions)
          && Expired(lifetimes, old(sessions)[k].created, old(sessions)[k].lastSeen, now);
        State() == MemSweep(old(State()), expired, now) && sessions == old(sessions) - expired
    {
      ghost var all := sessions;
      var todo := sessions.Keys;
      while todo != {}
        modifies `sessions
        invariant todo <= all.Keys
        invariant sessions ==
          all - (set k | k in all && k !in todo && Expired(lifetimes, all[k].created, all[k].lastSeen, now))
        decreases todo
      {
        var id :| id in todo;
        assert id in sessions && sessions[id] == all[id];
        if Expired(lifetimes, sessions[id].created, sessions[id].lastSeen, now) {
          sessions := sessions - {id};
        }
        todo := todo - {id};
      }
      assert sessions == all - set k | k in all && Expired(lifetimes, all[k].created, all[k].lastSeen, now);
      var cutoff := now - TOMBSTONE_TTL;
      ghost var stones := tombstones;
      todo := tombstones.Keys;
      while todo != {}
        modifies `tombstones
        invariant todo <= stones.Keys
        invariant tombstones == map k | k in stones && (k in todo || !(stones[k] < cutoff)) :: stones[k]
        decreases todo
      {
        var id :| id in todo;
        if tombstones[id] < cutoff {
          tombstones := tombstones - {id};
        }
        todo := todo - {id};
      }
    }
  }
}

/** Every run of the in-memory store under concurrent use: any number of
    requests, write-backs, logouts and sweeps, each locked operation one step. */
module StoreRuns {
  import opened Sessions

  datatype State = State(mem: Mem, clock: Time)

  /** One locked operation, or the passing of time. Put is a login or a gateway's
      refresh or touch write-back; Delete is a logout, a fatal refresh, or a Get
      that found the session expired. */
  datatype Op = Put(id: string) | Delete(id: string) | Sweep(expired: set<string>) | Read(id: string) | Tick(d: nat)

  function Step(s: State, op: Op): State {
    match op
    case Put(id) => s.(mem := MemPut(s.mem, id))
    case Delete(id) => s.(mem := MemDelete(s.mem, id, s.clock))
    case Sweep(expired) => s.(mem := MemSweep(s.mem, expired, s.clock))
    case Read(_) => s
    case Tick(d) => s.(clock := s.clock + d)
  }

  function Run(s: State, ops: seq<Op>): State
    decreases |ops|
  {
    if ops == [] then s else Run(Step(s, ops[0]), ops[1..])
  }

  /** What the map read of a Get finds. */
  predicate Finds(s: State, id: string) { id in s.mem.live }

  ghost predicate Disjoint(s: State) { s.mem.live !! s.mem.tombstones.Keys }

  /** Live and tombstoned ids stay disjoint. */
  lemma {:induction false} LiveAndTombstonedStayDisjoint(s: State, ops: seq<Op>)
    requires Disjoint(s)
    ensures Disjoint(Run(s, ops)) && Run(s, ops).clock >= s.clock
    decreases |ops|
  {
    if ops != [] {
      LiveAndTombstonedStayDisjoint(Step(s, ops[0]), ops[1..]);
    }
  }

  ghost predicate BuriedSince(s: State, id: string, t: Time) {
    id in s.mem.tombstones && s.mem.tombstones[id] >= t
  }

  lemma {:induction false} StaysBuried(s: State, id: string, t: Time, ops: seq<Op>)
    requires Disjoint(s) && BuriedSince(s, id, t) && t <= s.clock
    requires Run(s, ops).clock <= t + TOMBSTONE_TTL
    ensures Disjoint(Run(s, ops)) && BuriedSince(Run(s, ops), id, t)
    decreases |ops|
  {
    if ops != [] {
      var s1 := Step(s, ops[0]);
      LiveAndTombstonedStayDisjoint(s1, ops[1..]);
      assert s1.clock <= t + TOMBSTONE_TTL;
      StaysBuried(s1, id, t, ops[1..]);
    }
  }

  /** After a Delete at time t, whatever runs next, no Get finds the id until the
      clock passes t plus one hour. */
  lemma DeletedIsNotFoundForAnHour(s: State, id: string, ops: seq<Op>)
    requires Disjoint(s)
    requires Run(Step(s, Delete(id)), ops).clock <= s.clock + TOMBSTONE_TTL
    ensures !Finds(Run(Step(s, Delete(id)), ops), id)
  {
    StaysBuried(Step(s, Delete(id)), id, s.clock, ops);
  }

  /** The hour is exact: one nanosecond later a sweep and a late write-back can
      bring the id back. */
  lemma TheHourIsTight(s: State, id: string)
    requires Disjoint(s)
    ensures Finds(Run(s, [Delete(id), Tick(TOMBSTONE_TTL + 1), Sweep({}), Put(id)]), id)
  {
    var a := Step(s, Delete(id));
    var b := Step(a, Tick(TOMBSTONE_TTL + 1));
    var c := Step(b, Sweep({}));
    assert Run(c, [Put(id)]) == Step(c, Put(id));
    assert Run(b, [Sweep({}), Put(id)]) == Run(c, [Put(id)]);
    assert Run(a, [Tick(TOMBSTONE_TTL + 1), Sweep({}), Put(id)]) == Run(b, [Sweep({}), Put(id)]);
  }
}
