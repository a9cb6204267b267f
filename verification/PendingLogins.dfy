/** Pending logins between the redirect and the callback: a bounded, lazily swept map
    and a table of rows, both answering as an ideal store of unexpired logins
    (bff/pending_login.go). Times are in seconds. */
module PendingLogins {
  import opened Text

  const DEFAULT_TTL := 600
  const DEFAULT_MAX := 10000

  datatype Login = Login(verifier: string, nonce: string, returnTo: string, created: int)

  type Held = map<string, Login>

  predicate Expired(p: Login, ttl: int, now: int) {
    now - p.created > ttl
  }

  function Unexpired(m: Held, ttl: int, now: int): Held {
    map k | k in m && !Expired(m[k], ttl, now) :: m[k]
  }

  datatype PutResult = Stored | EmptyState | Full

  // ----- The bounded map -----

  function PutAnswer(m: Held, state: string, max: nat, ttl: int, now: int): PutResult {
    if state == "" then EmptyState
    else if state !in m && |m| >= max && |Unexpired(m, ttl, now)| >= max then Full
    else Stored
  }

  function PutNext(m: Held, state: string, p: Login, max: nat, ttl: int, now: int): Held {
    if state == "" then m
    else if state !in m && |m| >= max then
      var swept := Unexpired(m, ttl, now);
      if |swept| >= max then swept else swept[state := p]
    else m[state := p]
  }

  function TakeAnswer(m: Held, state: string, ttl: int, now: int): Option<Login> {
    if state in m && !Expired(m[state], ttl, now) then Some(m[state]) else None
  }

  class MemoryPendingLoginStore {
    var m: Held
    const ttl: int
    const max: nat

    constructor (ttl: int, max: int)
      ensures m == map[] && this.ttl > 0 && this.max > 0
      ensures this.ttl == (if ttl <= 0 then 10 * 60 else ttl)
      ensures this.max == (if max <= 0 then 10_000 else max)
    {
      this.ttl := if ttl <= 0 then DEFAULT_TTL else ttl;
      this.max := if max <= 0 then DEFAULT_MAX else max;
      m := map[];
    }

    /** stamped is the clock when a missing creation time is filled in, now the clock
        when expired entries are dropped. */
    method Put(state: string, verifier: string, nonce: string, returnTo: string,
               created: Option<int>, stamped: int, now: int) returns (r: PutResult)
      modifies this
      ensures var p := Login(verifier, nonce, returnTo, if created.Some? then created.value else stamped);
        r == PutAnswer(old(m), state, max, ttl, now) && m == PutNext(old(m), state, p, max, ttl, now)
    {
      if state == "" {
        return EmptyState;
      }
      var p := Login(verifier, nonce, returnTo, if created.Some? then created.value else stamped);
      if state !in m && |m| >= max {
        SweepLocked(now);
        if |m| >= max {
          return Full;
        }
      }
      m := m[state := p];
      r := Stored;
    }

    method Take(state: string, now: int) returns (r: Option<Login>)
      modifies this
      ensures r == TakeAnswer(old(m), state, ttl, now) && m == old(m) - {state}
      ensures r.Some? <==> state in old(m) && now - old(m)[state].created <= ttl
      ensures r.Some? ==> r.value == old(m)[state]
    {
      if state !in m {
        return None;
      }
      var p := m[state];
      m := m - {state};
      if now - p.created > ttl {
        return None;
      }
      r := Some(p);
    }

    method Sweep(now: int)
      modifies this
      ensures m == Unexpired(old(m), ttl, now)
    {
      SweepLocked(now);
    }

    method SweepLocked(now: int)
      modifies this
      ensures m == Unexpired(old(m), ttl, now)
      ensures forall k :: k in m <==> k in old(m) && now - old(m)[k].created <= ttl
    {
      var rest := m.Keys;
      while rest != {}
        invariant rest <= m.Keys <= old(m).Keys
        invariant forall k :: k in m ==> m[k] == old(m)[k]
        invariant forall k :: k in old(m) && k !in rest ==> (k in m <==> !Expired(old(m)[k], ttl, now))
        decreases rest
      {
        var k :| k in rest;
        if now - m[k].created > ttl {
          m := m - {k};
        }
        rest := rest - {k};
      }
    }
  }

  // ----- The table -----

  /** Opening a sealed login under its own state gives it back, so a row's data is the
      login itself. */
  datatype Row = Row(data: Login, createdAt: int)

  class PostgresPendingLoginStore {
    var rows: map<string, Row>
    const ttl: int

    constructor (ttl: int)
      ensures rows == map[] && this.ttl == (if ttl <= 0 then 10 * 60 else ttl)
    {
      this.ttl := if ttl <= 0 then DEFAULT_TTL else ttl;
      rows := map[];
    }

    ghost predicate Valid()
      reads this
    {
      forall k :: k in rows ==> rows[k].createdAt == rows[k].data.created
    }

    ghost function View(): Held
      reads this
    {
      map k | k in rows :: rows[k].data
    }

    method Put(state: string, verifier: string, nonce: string, returnTo: string,
               created: Option<int>, stamped: int) returns (r: PutResult)
      requires Valid()
      modifies this
      ensures var p := Login(verifier, nonce, returnTo, if created.Some? then created.value else stamped);
        r == (if state == "" then EmptyState else Stored)
        && View() == (if state == "" then old(View()) else old(View())[state := p])
      ensures Valid()
    {
      if state == "" {
        return EmptyState;
      }
      var p := Login(verifier, nonce, returnTo, if created.Some? then created.value else stamped);
      rows := rows[state := Row(p, p.created)];
      r := Stored;
    }

    method Take(state: string, now: int) returns (r: Option<Login>)
      requires Valid()
      modifies this
      ensures Valid() && r == TakeAnswer(old(View()), state, ttl, now) && View() == old(View()) - {state}
    {
      if state !in rows {
        return None;
      }
      var p := rows[state].data;
      rows := rows - {state};
      if now - p.created > ttl {
        return None;
      }
      r := Some(p);
    }

    /** The sweep compares the created_at column, not the sealed login. */
    method Sweep(now: int)
      requires Valid()
      modifies this
      ensures Valid() && View() == Unexpired(old(View()), ttl, now)
    {
      rows := map k | k in rows && !(rows[k].createdAt < now - ttl) :: rows[k];
    }
  }

  // ----- Runs -----

  /** now is when an operation happens; a Put's login may have been stamped earlier. */
  datatype Op =
    | PutOp(state: string, login: Login, now: int)
    | TakeOp(state: string, now: int)
    | SweepOp(now: int)

  ghost predicate InTimeOrder(ops: seq<Op>) {
    forall i, j :: 0 <= i < j < |ops| ==> ops[i].now <= ops[j].now
  }

  function Next(m: Held, op: Op, max: nat, ttl: int): Held {
    match op
    case PutOp(state, p, now) => PutNext(m, state, p, max, ttl, now)
    case TakeOp(state, _) => m - {state}
    case SweepOp(now) => Unexpired(m, ttl, now)
  }

  datatype Answer = Put(result: PutResult) | Took(login: Option<Login>) | Swept

  function Answered(m: Held, op: Op, max: nat, ttl: int): Answer {
    match op
    case PutOp(state, p, now) => Put(PutAnswer(m, state, max, ttl, now))
    case TakeOp(state, now) => Took(TakeAnswer(m, state, ttl, now))
    case SweepOp(_) => Swept
  }

  function After(ops: seq<Op>, max: nat, ttl: int): Held {
    if ops == [] then map[] else Next(After(ops[..|ops| - 1], max, ttl), ops[|ops| - 1], max, ttl)
  }

  // ----- The ideal store: unexpired logins only, swept continuously -----

  function IdealAnswer(i: Held, op: Op, max: nat, ttl: int): Answer {
    var live := Unexpired(i, ttl, op.now);
    match op
    case PutOp(state, _, _) =>
      Put(if state == "" then EmptyState else if |live - {state}| >= max then Full else Stored)
    case TakeOp(state, _) => Took(if state in live then Some(live[state]) else None)
    case SweepOp(_) => Swept
  }

  function IdealNext(i: Held, op: Op, max: nat, ttl: int): Held {
    var live := Unexpired(i, ttl, op.now);
    match op
    case PutOp(state, p, now) =>
      if IdealAnswer(i, op, max, ttl) == Put(Stored) then Unexpired(live[state := p], ttl, now) else live
    case TakeOp(state, _) => live - {state}
    case SweepOp(_) => live
  }

  function IdealAfter(ops: seq<Op>, max: nat, ttl: int): Held {
    if ops == [] then map[] else IdealNext(IdealAfter(ops[..|ops| - 1], max, ttl), ops[|ops| - 1], max, ttl)
  }

  /** The two stores agree on what is unexpired at t, hence from t on. */
  ghost predicate Agree(m: Held, i: Held, ttl: int, t: int) {
    Unexpired(m, ttl, t) == Unexpired(i, ttl, t)
  }

  lemma UnexpiredLater(m: Held, ttl: int, t: int, u: int)
    requires t <= u
    ensures Unexpired(Unexpired(m, ttl, t), ttl, u) == Unexpired(m, ttl, u)
  {
  }

  lemma UnexpiredOfPut(m: Held, state: string, p: Login, ttl: int, t: int)
    ensures Unexpired(Unexpired(m, ttl, t)[state := p], ttl, t) == Unexpired(m[state := p], ttl, t)
  {
  }

  lemma UnexpiredOfDrop(m: Held, state: string, ttl: int, t: int)
    ensures Unexpired(m - {state}, ttl, t) == Unexpired(m, ttl, t) - {state}
    ensures Unexpired(Unexpired(m, ttl, t) - {state}, ttl, t) == Unexpired(m, ttl, t) - {state}
  {
  }

  lemma SizeWithin(a: Held, b: Held)
    requires a.Keys <= b.Keys
    ensures |a| <= |b|
  {
    Subset(a.Keys, b.Keys);
  }

  lemma Subset(a: set<string>, b: set<string>)
    requires a <= b
    ensures |a| <= |b| && (a != b ==> |a| < |b|)
  {
    if a != {} {
      var x :| x in a;
      Subset(a - {x}, b - {x});
    } else if b != {} {
      var y :| y in b;
      assert |b| == |b - {y}| + 1;
    }
  }

  /** The other states whose logins were created no more than ttl ago. */
  function Others(m: Held, state: string, ttl: int, now: int): set<string> {
    set k | k in m && k != state && now <= m[k].created + ttl
  }

  lemma OthersAre(m: Held, state: string, ttl: int, now: int)
    ensures |Unexpired(m, ttl, now) - {state}| == |Others(m, state, ttl, now)|
  {
    assert (Unexpired(m, ttl, now) - {state}).Keys == Others(m, state, ttl, now);
  }

  /** A Put is refused exactly when max unexpired logins stand under other states. */
  lemma RefusedIffFull(m: Held, state: string, max: nat, ttl: int, now: int)
    requires |m| <= max && state != ""
    ensures PutAnswer(m, state, max, ttl, now) == Full <==> |Unexpired(m, ttl, now) - {state}| >= max
    ensures PutAnswer(m, state, max, ttl, now) == Full <==> |Others(m, state, ttl, now)| >= max
  {
    OthersAre(m, state, ttl, now);
    hide Others;
    var live := Unexpired(m, ttl, now);
    UnexpiredKeys(m, ttl, now);
    hide Unexpired;
    Subset(live.Keys, m.Keys);
    assert (live - {state}).Keys == live.Keys - {state};
    Subset(live.Keys - {state}, m.Keys);
    if state !in m {
      assert live - {state} == live;
    }
  }

  lemma UnexpiredKeys(m: Held, ttl: int, now: int)
    ensures Unexpired(m, ttl, now).Keys <= m.Keys
  {
  }

  lemma UnexpiredIs(m: Held, state: string, ttl: int, t: int)
    ensures state in Unexpired(m, ttl, t) <==> state in m && !Expired(m[state], ttl, t)
    ensures state in Unexpired(m, ttl, t) ==> Unexpired(m, ttl, t)[state] == m[state]
    ensures |Unexpired(m, ttl, t)| <= |m|
  {
    SizeWithin(Unexpired(m, ttl, t), m);
  }

  lemma StepAgrees(m: Held, i: Held, op: Op, max: nat, ttl: int, t: int)
    requires Agree(m, i, ttl, t) && t <= op.now && |m| <= max
    ensures Answered(m, op, max, ttl) == IdealAnswer(i, op, max, ttl)
    ensures Agree(Next(m, op, max, ttl), IdealNext(i, op, max, ttl), ttl, op.now)
    ensures |Next(m, op, max, ttl)| <= max
  {
    hide Unexpired, PutNext, PutAnswer;
    var now := op.now;
    UnexpiredLater(m, ttl, t, now);
    UnexpiredLater(i, ttl, t, now);
    UnexpiredLater(m, ttl, now, now);
    match op
    case PutOp(state, p, _) => PutAgrees(m, i, op, max, ttl);
    case TakeOp(state, _) =>
      UnexpiredIs(m, state, ttl, now);
      UnexpiredOfDrop(m, state, ttl, now);
      SizeWithin(m - {state}, m);
    case SweepOp(_) => UnexpiredIs(m, "", ttl, now);
  }

  lemma PutAgrees(m: Held, i: Held, op: Op, max: nat, ttl: int)
    requires Agree(m, i, ttl, op.now) && op.PutOp? && |m| <= max
    ensures Answered(m, op, max, ttl) == IdealAnswer(i, op, max, ttl)
    ensures Agree(Next(m, op, max, ttl), IdealNext(i, op, max, ttl), ttl, op.now)
    ensures |Next(m, op, max, ttl)| <= max
  {
    var state, p, now := op.state, op.login, op.now;
    UnexpiredLater(m, ttl, now, now);
    UnexpiredOfPut(m, state, p, ttl, now);
    UnexpiredIs(m, state, ttl, now);
    if state != "" {
      RefusedIffFull(m, state, max, ttl, now);
    }
    hide Unexpired;
    PutSize(m, state, p);
    PutSize(Unexpired(m, ttl, now), state, p);
  }

  lemma PutSize(m: Held, state: string, p: Login)
    ensures |m[state := p]| == if state in m then |m| else |m| + 1
  {
    assert m[state := p].Keys == m.Keys + {state};
  }

  /** Over every run the bounded store answers as the ideal one and never outgrows max. */
  lemma {:induction false} AnswersAsIdeal(ops: seq<Op>, max: nat, ttl: int)
    requires InTimeOrder(ops) && max > 0
    ensures ops != [] ==>
      var front, op := ops[..|ops| - 1], ops[|ops| - 1];
      Answered(After(front, max, ttl), op, max, ttl) == IdealAnswer(IdealAfter(front, max, ttl), op, max, ttl)
      && Agree(After(ops, max, ttl), IdealAfter(ops, max, ttl), ttl, op.now)
    ensures |After(ops, max, ttl)| <= max
  {
    if ops != [] {
      var front, op := ops[..|ops| - 1], ops[|ops| - 1];
      AnswersAsIdeal(front, max, ttl);
      var t := if front == [] then op.now else front[|front| - 1].now;
      StepAgrees(After(front, max, ttl), IdealAfter(front, max, ttl), op, max, ttl, t);
    }
  }

  // ----- Each login is taken at most once, with its latest value -----

  /** The latest stored login under state that no Take has asked for since. */
  function Waiting(ops: seq<Op>, state: string, max: nat, ttl: int): Option<Login> {
    if ops == [] then None
    else
      var front, op := ops[..|ops| - 1], ops[|ops| - 1];
      if op.PutOp? && op.state == state && Answered(After(front, max, ttl), op, max, ttl) == Put(Stored)
      then Some(op.login)
      else if op.TakeOp? && op.state == state then None
      else Waiting(front, state, max, ttl)
  }

  /** m holds what is waiting under state, unless that has expired. */
  ghost predicate HoldsWaiting(m: Held, w: Option<Login>, state: string, ttl: int, t: int) {
    if state in m then w == Some(m[state]) else w.Some? ==> Expired(w.value, ttl, t)
  }

  ghost predicate NotAfter(ops: seq<Op>, t: int) {
    forall i :: 0 <= i < |ops| ==> ops[i].now <= t
  }

  lemma {:induction false} RunHoldsWaiting(ops: seq<Op>, state: string, max: nat, ttl: int, t: int)
    requires InTimeOrder(ops) && NotAfter(ops, t)
    ensures HoldsWaiting(After(ops, max, ttl), Waiting(ops, state, max, ttl), state, ttl, t)
  {
    if ops != [] {
      var front, op := ops[..|ops| - 1], ops[|ops| - 1];
      RunHoldsWaiting(front, state, max, ttl, op.now);
      UnexpiredIs(After(front, max, ttl), state, ttl, op.now);
      hide Unexpired;
    }
  }

  /** Take answers with the latest login put under the state and not yet taken, unless
      it has expired; the bound and the sweeps never show. */
  lemma TakeReturnsLatestPut(ops: seq<Op>, state: string, max: nat, ttl: int, now: int)
    requires InTimeOrder(ops) && NotAfter(ops, now)
    ensures var w := Waiting(ops, state, max, ttl);
      TakeAnswer(After(ops, max, ttl), state, ttl, now) == if w.Some? && now <= w.value.created + ttl then w else None
  {
    RunHoldsWaiting(ops, state, max, ttl, now);
  }

  /** Operation k stored login under state, and no Take of state stands between k and the end. */
  ghost predicate PutAndUntaken(ops: seq<Op>, k: nat, state: string, login: Login, max: nat, ttl: int) {
    && k < |ops| && ops[k] == PutOp(state, login, ops[k].now)
    && Answered(After(ops[..k], max, ttl), ops[k], max, ttl) == Put(Stored)
    && forall j :: k < j < |ops| ==> !(ops[j].TakeOp? && ops[j].state == state)
  }

  lemma {:induction false} WaitingWasPut(ops: seq<Op>, state: string, max: nat, ttl: int) returns (k: nat)
    requires Waiting(ops, state, max, ttl).Some?
    ensures PutAndUntaken(ops, k, state, Waiting(ops, state, max, ttl).value, max, ttl)
  {
    hide Answered, After;
    var front, op := ops[..|ops| - 1], ops[|ops| - 1];
    if op.PutOp? && op.state == state && Answered(After(front, max, ttl), op, max, ttl) == Put(Stored) {
      k := |front|;
    } else {
      k := WaitingWasPut(front, state, max, ttl);
      assert front[..k] == ops[..k];
    }
  }

  /** Between two Takes that both get a login under one state, a login was put there. */
  lemma TakenAtMostOnce(ops: seq<Op>, i: nat, j: nat, max: nat, ttl: int) returns (k: nat)
    requires InTimeOrder(ops) && i < j < |ops| && ops[i].TakeOp? && ops[j].TakeOp? && ops[i].state == ops[j].state
    requires TakeAnswer(After(ops[..j], max, ttl), ops[j].state, ttl, ops[j].now).Some?
    ensures i < k < j && ops[k].PutOp? && ops[k].state == ops[j].state
    ensures TakeAnswer(After(ops[..j], max, ttl), ops[j].state, ttl, ops[j].now) == Some(ops[k].login)
  {
    var front := ops[..j];
    TakeReturnsLatestPut(front, ops[j].state, max, ttl, ops[j].now);
    k := WaitingWasPut(front, ops[j].state, max, ttl);
    assert front[i] == ops[i] && front[k] == ops[k];
  }

  // ----- The table gives the same Takes -----

  function RowsNext(m: Held, op: Op, ttl: int): Held {
    match op
    case PutOp(state, p, _) => if state == "" then m else m[state := p]
    case TakeOp(state, _) => m - {state}
    case SweepOp(now) => Unexpired(m, ttl, now)
  }

  function RowsAfter(ops: seq<Op>, ttl: int): Held {
    if ops == [] then map[] else RowsNext(RowsAfter(ops[..|ops| - 1], ttl), ops[|ops| - 1], ttl)
  }

  ghost predicate NoneRefused(ops: seq<Op>, max: nat, ttl: int) {
    forall i :: 0 <= i < |ops| ==> Answered(After(ops[..i], max, ttl), ops[i], max, ttl) != Put(Full)
  }

  lemma {:induction false} RowsHoldWaiting(ops: seq<Op>, state: string, max: nat, ttl: int, t: int)
    requires InTimeOrder(ops) && NotAfter(ops, t) && NoneRefused(ops, max, ttl)
    ensures HoldsWaiting(RowsAfter(ops, ttl), Waiting(ops, state, max, ttl), state, ttl, t)
  {
    if ops != [] {
      var front, op := ops[..|ops| - 1], ops[|ops| - 1];
      forall i | 0 <= i < |front| ensures Answered(After(front[..i], max, ttl), front[i], max, ttl) != Put(Full) {
        assert front[..i] == ops[..i] && front[i] == ops[i];
      }
      RowsHoldWaiting(front, state, max, ttl, op.now);
      UnexpiredIs(RowsAfter(front, ttl), state, ttl, op.now);
      assert Answered(After(front, max, ttl), op, max, ttl) != Put(Full);
      hide Unexpired;
    }
  }

  /** Whenever the bounded store refused no Put, the table answers every Take alike. */
  lemma RowsTakeTheSame(ops: seq<Op>, state: string, max: nat, ttl: int, now: int)
    requires InTimeOrder(ops) && NotAfter(ops, now) && NoneRefused(ops, max, ttl)
    ensures TakeAnswer(RowsAfter(ops, ttl), state, ttl, now) == TakeAnswer(After(ops, max, ttl), state, ttl, now)
  {
    RunHoldsWaiting(ops, state, max, ttl, now);
    RowsHoldWaiting(ops, state, max, ttl, now);
  }
}
