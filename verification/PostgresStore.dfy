/** bff/postgres_store.go: the durable session store as rows of one table, each
    operation one statement, and what its columns and tombstones guarantee. */
module PostgresStore {
  import opened Text
  import opened Sessions

  /** The encrypted data column: the snapshot sealed under a session id, or wiped. */
  datatype Data = Sealed(id: string, snap: Snapshot) | Wiped

  datatype Row = Row(data: Data, createdAt: Time, lastSeen: Time, deletedAt: Option<Time>)

  type Rows = map<string, Row>

  /** Opening succeeds only under the id the data was sealed with. */
  function Open(id: string, d: Data): Option<Snapshot> {
    if d.Sealed? && d.id == id && d.snap.id == id then Some(d.snap) else None
  }

  /** What a SELECT of a live row yields. */
  function Select(rows: Rows, id: string): Option<Snapshot> {
    if id in rows && rows[id].deletedAt.None? then Open(id, rows[id].data) else None
  }

  function Get(l: Lifetimes, rows: Rows, id: string, now: Time): (Rows, Option<Snapshot>) {
    var snap := Select(rows, id);
    if snap.None? then (rows, None)
    else if Expired(l, snap.value.created, snap.value.lastSeen, now) then (rows - {id}, None)
    else (rows, snap)
  }

  function Put(rows: Rows, snap: Snapshot): Rows {
    var id, data := snap.id, Sealed(snap.id, snap);
    if id !in rows then rows[id := Row(data, snap.created, snap.lastSeen, None)]
    else if rows[id].deletedAt.None? then rows[id := rows[id].(data := data, lastSeen := snap.lastSeen)]
    else rows
  }

  function Delete(rows: Rows, id: string, now: Time): Rows {
    if id in rows then rows[id := rows[id].(data := Wiped, deletedAt := Some(now))] else rows
  }

  /** The WHERE clause of Sweep. */
  predicate Swept(l: Lifetimes, r: Row, now: Time) {
    || (r.deletedAt.Some? && r.deletedAt.value < now - TOMBSTONE_TTL)
    || (l.absolute > 0 && r.deletedAt.None? && r.createdAt <= now - l.absolute)
    || (l.idle > 0 && r.deletedAt.None? && r.lastSeen <= now - l.idle)
  }

  function Sweep(l: Lifetimes, rows: Rows, now: Time): Rows {
    map id | id in rows && !Swept(l, rows[id], now) :: rows[id]
  }

  class Store {
    var rows: Rows
    const lifetimes: Lifetimes

    constructor (lifetimes: Lifetimes)
      ensures rows == map[] && this.lifetimes == lifetimes
    {
      this.lifetimes := lifetimes;
      rows := map[];
    }

    /** Get rehydrates a new session object from the row. */
    method Fetch(id: string, now: Time) returns (s: Session?)
      modifies this
      ensures rows == Get(lifetimes, old(rows), id, now).0
      ensures s != null <==> Get(lifetimes, old(rows), id, now).1.Some?
      ensures s != null ==> fresh(s) && s.State() == Get(lifetimes, old(rows), id, now).1.value
      ensures s != null ==>
        && id in old(rows) && old(rows)[id].deletedAt.None? && old(rows)[id].data == Sealed(id, s.State())
        && !(lifetimes.absolute > 0 && now >= s.created + lifetimes.absolute)
        && !(lifetimes.idle > 0 && now >= s.lastSeen + lifetimes.idle)
      ensures s == null ==>
        || rows == old(rows) - {id}
        || (id in old(rows) && (old(rows)[id].deletedAt.Some? || Open(id, old(rows)[id].data).None?))
    {
      if id !in rows || rows[id].deletedAt.Some? {
        return null;
      }
      var snap := Open(id, rows[id].data);
      if snap.None? {
        return null;
      }
      if Expired(lifetimes, snap.value.created, snap.value.lastSeen, now) {
        rows := rows - {id};
        return null;
      }
      s := new Session(snap.value);
    }

    method Save(s: Session)
      modifies this
      ensures rows == Put(old(rows), s.State())
    {
      var snap := s.Capture();
      var data := Sealed(snap.id, snap);
      if snap.id !in rows {
        rows := rows[snap.id := Row(data, snap.created, snap.lastSeen, None)];
      } else if rows[snap.id].deletedAt.None? {
        rows := rows[snap.id := rows[snap.id].(data := data, lastSeen := snap.lastSeen)];
      }
    }

    method Wipe(id: string, now: Time)
      modifies this
      ensures rows == Delete(old(rows), id, now)
    {
      if id in rows {
        rows := rows[id := rows[id].(data := Wiped, deletedAt := Some(now))];
      }
    }

    method Prune(now: Time)
      modifies this
      ensures rows == Sweep(lifetimes, old(rows), now)
    {
      rows := map id | id in rows && !Swept(lifetimes, rows[id], now) :: rows[id];
    }
  }

  // ----- Runs -----

  datatype State = State(rows: Rows, clock: Time)

  datatype Op = OpGet(id: string) | OpPut(snap: Snapshot) | OpDelete(id: string) | OpSweep | OpTick(d: nat)

  function Step(l: Lifetimes, s: State, op: Op): State {
    match op
    case OpGet(id) => s.(rows := Get(l, s.rows, id, s.clock).0)
    case OpPut(snap) => s.(rows := Put(s.rows, snap))
    case OpDelete(id) => s.(rows := Delete(s.rows, id, s.clock))
    case OpSweep => s.(rows := Sweep(l, s.rows, s.clock))
    case OpTick(d) => s.(clock := s.clock + d)
  }

  function Run(l: Lifetimes, s: State, ops: seq<Op>): State
    decreases |ops|
  {
    if ops == [] then s else Run(l, Step(l, s, ops[0]), ops[1..])
  }

  /** Each session id has one creation time. */
  ghost predicate OneCreation(born: string -> Time, ops: seq<Op>) {
    forall i :: 0 <= i < |ops| && ops[i].OpPut? ==> ops[i].snap.created == born(ops[i].snap.id)
  }

  /** A live row's columns say what its sealed snapshot says. */
  ghost predicate Agrees(born: string -> Time, rows: Rows) {
    forall id :: id in rows ==>
      && rows[id].createdAt == born(id)
      && (rows[id].deletedAt.None? ==>
            && Open(id, rows[id].data).Some?
            && Open(id, rows[id].data).value.created == rows[id].createdAt
            && Open(id, rows[id].data).value.lastSeen == rows[id].lastSeen)
  }

  lemma {:induction false} ColumnsAgree(l: Lifetimes, born: string -> Time, s: State, ops: seq<Op>)
    requires Agrees(born, s.rows) && OneCreation(born, ops)
    ensures Agrees(born, Run(l, s, ops).rows)
    decreases |ops|
  {
    if ops != [] {
      assert OneCreation(born, [ops[0]]) && OneCreation(born, ops[1..]);
      ColumnsAgree(l, born, Step(l, s, ops[0]), ops[1..]);
    }
  }

  /** In every reachable state, Sweep removes exactly the live rows a Get would
      refuse as expired, and the tombstones older than an hour. */
  lemma SweepRemovesWhatGetRefuses(l: Lifetimes, born: string -> Time, s: State, ops: seq<Op>, id: string)
    requires s.rows == map[] && OneCreation(born, ops)
    requires id in Run(l, s, ops).rows
    ensures var t := Run(l, s, ops); var r := t.rows[id];
      id !in Sweep(l, t.rows, t.clock) <==>
      if r.deletedAt.None? then Get(l, t.rows, id, t.clock).1.None? else r.deletedAt.value < t.clock - TOMBSTONE_TTL
  {
    ColumnsAgree(l, born, s, ops);
  }

  /** Without one creation time per id the two disagree: the row keeps the first
      creation time, the snapshot the second. */
  lemma TwoCreationTimesDisagree()
    ensures var l, first := Lifetimes(0, 10), Snapshot("a", "", "", "", 0, "", "", 0, 0);
      var t := Run(l, State(map[], 0), [OpPut(first), OpPut(first.(created := 5)), OpTick(10)]);
      "a" in t.rows && "a" !in Sweep(l, t.rows, t.clock) && Get(l, t.rows, "a", t.clock).1.Some?
  {
    var l, first := Lifetimes(0, 10), Snapshot("a", "", "", "", 0, "", "", 0, 0);
    var second := first.(created := 5);
    var a := Step(l, State(map[], 0), OpPut(first));
    var b := Step(l, a, OpPut(second));
    assert Run(l, b, [OpTick(10)]) == Step(l, b, OpTick(10));
    assert Run(l, a, [OpPut(second), OpTick(10)]) == Run(l, b, [OpTick(10)]);
  }

  /** Both columns and snapshot reach the idle bound first. */
  predicate IdleFirst(l: Lifetimes, created: Time, lastSeen: Time) {
    l.idle > 0 && lastSeen + l.idle <= created + l.absolute
  }

  /** A live row and its snapshot with the same last-seen time agree on expiry at every
      moment exactly when there is no absolute bound, their creation times agree, or
      the idle bound comes first for both. */
  lemma AgreementNeedsOneCreation(l: Lifetimes, r: Row, snap: Snapshot)
    requires r.deletedAt.None? && r.lastSeen == snap.lastSeen
    ensures (forall now :: Swept(l, r, now) <==> Expired(l, snap.created, snap.lastSeen, now)) <==>
      l.absolute <= 0 || r.createdAt == snap.created
      || (IdleFirst(l, r.createdAt, r.lastSeen) && IdleFirst(l, snap.created, snap.lastSeen))
  {
    var now := l.absolute + if r.createdAt < snap.created then r.createdAt else snap.created;
    if l.absolute > 0 && r.createdAt != snap.created
      && !(IdleFirst(l, r.createdAt, r.lastSeen) && IdleFirst(l, snap.created, snap.lastSeen))
    {
      assert Swept(l, r, now) != Expired(l, snap.created, snap.lastSeen, now);
    }
  }

  ghost predicate Buried(s: State, id: string) {
    id in s.rows && s.rows[id].data == Wiped && s.rows[id].deletedAt.Some?
  }

  /** No sweep of the run removes the row. */
  ghost predicate NotSwept(l: Lifetimes, s: State, id: string, ops: seq<Op>)
    decreases |ops|
  {
    ops == [] ||
    ((ops[0].OpSweep? ==> id in Step(l, s, ops[0]).rows) && NotSwept(l, Step(l, s, ops[0]), id, ops[1..]))
  }

  lemma {:induction false} StaysBuried(l: Lifetimes, s: State, id: string, ops: seq<Op>)
    requires Buried(s, id) && NotSwept(l, s, id, ops)
    ensures Buried(Run(l, s, ops), id)
    decreases |ops|
  {
    if ops != [] {
      StaysBuried(l, Step(l, s, ops[0]), id, ops[1..]);
    }
  }

  /** A row deleted while present stays there, wiped and unreadable at any time, through
      every run until a sweep removes its tombstone, however old that is. */
  lemma DeletedRowStaysUnreadable(l: Lifetimes, s: State, id: string, ops: seq<Op>, now: Time)
    requires id in s.rows && NotSwept(l, Step(l, s, OpDelete(id)), id, ops)
    ensures var t := Run(l, Step(l, s, OpDelete(id)), ops);
      id in t.rows && t.rows[id].data == Wiped && Get(l, t.rows, id, now).1.None?
  {
    StaysBuried(l, Step(l, s, OpDelete(id)), id, ops);
  }

  /** Buried, and no earlier than t. */
  ghost predicate BuriedSince(s: State, id: string, t: Time) {
    Buried(s, id) && s.rows[id].deletedAt.value >= t
  }

  /** No sweep within the hour removes it. */
  lemma {:induction false} KeptForAnHour(l: Lifetimes, s: State, id: string, t: Time, ops: seq<Op>)
    requires BuriedSince(s, id, t) && t <= s.clock && Run(l, s, ops).clock <= t + TOMBSTONE_TTL
    ensures NotSwept(l, s, id, ops)
    decreases |ops|
  {
    if ops != [] {
      var s1 := Step(l, s, ops[0]);
      ClockGrows(l, s1, ops[1..]);
      KeptForAnHour(l, s1, id, t, ops[1..]);
    }
  }

  lemma {:induction false} ClockGrows(l: Lifetimes, s: State, ops: seq<Op>)
    ensures Run(l, s, ops).clock >= s.clock
    decreases |ops|
  {
    if ops != [] {
      ClockGrows(l, Step(l, s, ops[0]), ops[1..]);
    }
  }

  /** So whatever runs, it is unreadable for an hour. */
  lemma DeletedRowIsAwayForAnHour(l: Lifetimes, s: State, id: string, ops: seq<Op>, now: Time)
    requires id in s.rows && Run(l, Step(l, s, OpDelete(id)), ops).clock <= s.clock + TOMBSTONE_TTL
    ensures Get(l, Run(l, Step(l, s, OpDelete(id)), ops).rows, id, now).1.None?
  {
    KeptForAnHour(l, Step(l, s, OpDelete(id)), id, s.clock, ops);
    DeletedRowStaysUnreadable(l, s, id, ops, now);
  }
}
