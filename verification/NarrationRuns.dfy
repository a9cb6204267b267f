/** Runs of the narration cache: calls one after another, then every interleaving of
    its locked steps (ainarration/cache.go). */
module NarrationRuns {
  import opened Text
  import opened Lru
  import opened Narration

  // ----- Calls one after another -----

  datatype Op = GetOp(key: string, now: int) | PutOp(key: string, output: string, now: int) | FlushOp

  function Step(c: Cache, op: Op, max: nat, ttl: int): Cache {
    match op
    case GetOp(key, now) => Got(c, key, now, ttl)
    case PutOp(key, output, now) => Stored(c, key, Entry(output, now), max)
    case FlushOp => EMPTY
  }

  function After(ops: seq<Op>, max: nat, ttl: int): Cache {
    if ops == [] then EMPTY else Step(After(ops[..|ops| - 1], max, ttl), ops[|ops| - 1], max, ttl)
  }

  /** What the last Put of k stored. */
  function LastPut(ops: seq<Op>, k: string): Option<Entry> {
    if ops == [] then None
    else
      var op := ops[|ops| - 1];
      if op.PutOp? && op.key == k then Some(Entry(op.output, op.now)) else LastPut(ops[..|ops| - 1], k)
  }

  /** In state c, op uses k: it stores k or finds it. */
  predicate Uses(c: Cache, op: Op, k: string, ttl: int) {
    !op.FlushOp? && op.key == k && (op.GetOp? ==> Answer(c, k, op.now, ttl).Some?)
  }

  /** The index of the last use of k, or -1. */
  function LastUse(ops: seq<Op>, k: string, max: nat, ttl: int): int {
    if ops == [] then -1
    else
      var front := ops[..|ops| - 1];
      if Uses(After(front, max, ttl), ops[|ops| - 1], k, ttl) then |ops| - 1 else LastUse(front, k, max, ttl)
  }

  lemma {:induction false} LastUseIsPast(ops: seq<Op>, k: string, max: nat, ttl: int)
    ensures -1 <= LastUse(ops, k, max, ttl) < |ops|
  {
    if ops != [] {
      LastUseIsPast(ops[..|ops| - 1], k, max, ttl);
    }
  }

  ghost predicate HoldsLastPuts(c: Cache, ops: seq<Op>) {
    forall k :: k in c.entries ==> LastPut(ops, k) == Some(c.entries[k])
  }

  ghost function Rank(ops: seq<Op>, max: nat, ttl: int): string -> int {
    k => LastUse(ops, k, max, ttl)
  }

  lemma StepKeepsCoherent(c: Cache, op: Op, max: nat, ttl: int)
    requires Coherent(c, max) && max > 0
    ensures Coherent(Step(c, op, max, ttl), max)
  {
    match op
    case GetOp(key, now) =>
      ExpireKeepsCoherent(c, key, max);
      PromoteKeepsCoherent(c, key, max);
    case PutOp(key, output, now) => StoredKeepsCoherent(c, key, Entry(output, now), max);
    case FlushOp =>
  }

  lemma StepKeepsLastPuts(c: Cache, ops: seq<Op>, op: Op, max: nat, ttl: int)
    requires HoldsLastPuts(c, ops)
    ensures HoldsLastPuts(Step(c, op, max, ttl), ops + [op])
  {
    hide Without, Use;
    assert (ops + [op])[..|ops|] == ops;
    var d := Step(c, op, max, ttl);
    forall k | k in d.entries ensures LastPut(ops + [op], k) == Some(d.entries[k]) {
      assert !(op.PutOp? && op.key == k) ==> k in c.entries && d.entries[k] == c.entries[k];
    }
  }

  /** The keys an op leaves where they are. */
  function Kept(order: seq<string>, op: Op, max: nat): seq<string>
    requires !op.FlushOp?
  {
    if op.PutOp? && op.key !in order && |order| >= max && order != [] then order[1..] else Without(order, op.key)
  }

  lemma StepOrder(c: Cache, op: Op, max: nat, ttl: int)
    requires Coherent(c, max) && !op.FlushOp?
    ensures var d := Step(c, op, max, ttl);
      d.order == Kept(c.order, op, max) || (d.order == Kept(c.order, op, max) + [op.key] && Uses(c, op, op.key, ttl))
    ensures op.key !in Kept(c.order, op, max)
  {
    hide Without;
    assert forall k :: k in c.entries <==> k in Elements(c.order);
    WithoutMembers(c.order, op.key);
    if op.key !in c.order {
      WithoutAbsent(c.order, op.key);
    }
  }

  lemma KeptIsRanked(order: seq<string>, op: Op, max: nat, rank: string -> int)
    requires Ranked(order, rank) && !op.FlushOp?
    ensures Ranked(Kept(order, op, max), rank)
  {
    hide Without;
    WithoutKeepsRanked(order, rank, op.key);
  }

  /** Used keys move behind all others; the rest keep their order. */
  lemma StepKeepsRanked(c: Cache, ops: seq<Op>, op: Op, max: nat, ttl: int)
    requires c == After(ops, max, ttl) && Coherent(c, max) && Ranked(c.order, Rank(ops, max, ttl))
    ensures Ranked(Step(c, op, max, ttl).order, Rank(ops + [op], max, ttl))
  {
    if !op.FlushOp? {
      StepOrder(c, op, max, ttl);
      KeptIsRanked(c.order, op, max, Rank(ops, max, ttl));
      hide Coherent, Step, Kept, After;
      var was, now, kept := Rank(ops, max, ttl), Rank(ops + [op], max, ttl), Kept(c.order, op, max);
      assert (ops + [op])[..|ops|] == ops;
      forall i | 0 <= i < |kept| ensures now(kept[i]) == was(kept[i]) < |ops| {
        assert kept[i] != op.key;
        LastUseIsPast(ops, kept[i], max, ttl);
      }
      assert Uses(c, op, op.key, ttl) ==> now(op.key) == |ops|;
    }
  }

  lemma {:induction false} RunIsOneRecencyList(ops: seq<Op>, max: nat, ttl: int)
    requires max > 0
    ensures var c := After(ops, max, ttl);
      Coherent(c, max) && HoldsLastPuts(c, ops) && Ranked(c.order, Rank(ops, max, ttl))
  {
    if ops != [] {
      var front, op := ops[..|ops| - 1], ops[|ops| - 1];
      assert ops == front + [op];
      RunIsOneRecencyList(front, max, ttl);
      var c := After(front, max, ttl);
      StepKeepsCoherent(c, op, max, ttl);
      StepKeepsLastPuts(c, front, op, max, ttl);
      StepKeepsRanked(c, front, op, max, ttl);
    }
  }

  /** A hit returns what the last Put of the key stored, aged at most the TTL. */
  lemma HitReturnsLastPut(ops: seq<Op>, key: string, now: int, max: nat, ttl: int)
    requires max > 0
    ensures var r := Answer(After(ops, max, ttl), key, now, ttl);
      r.Some? ==>
        LastPut(ops, key).Some? && r.value == LastPut(ops, key).value.output
        && now - LastPut(ops, key).value.createdAt <= ttl
  {
    RunIsOneRecencyList(ops, max, ttl);
  }

  /** A key that a Put drops was the one used least recently, in a full cache. */
  lemma EvictsLeastRecentlyUsed(ops: seq<Op>, key: string, e: Entry, victim: string, max: nat, ttl: int)
    requires max > 0
    requires var c := After(ops, max, ttl);
      victim in c.entries && victim !in Stored(c, key, e, max).entries
    ensures var c := After(ops, max, ttl);
      && |c.entries| == max && key !in c.entries
      && Stored(c, key, e, max).entries.Keys == c.entries.Keys - {victim} + {key}
      && forall k :: k in c.entries && k != victim ==> LastUse(ops, victim, max, ttl) < LastUse(ops, k, max, ttl)
  {
    hide Without;
    RunIsOneRecencyList(ops, max, ttl);
    var c := After(ops, max, ttl);
    SizeIs(c, max);
    assert c.order != [] && victim == c.order[0];
    forall k | k in c.entries && k != victim ensures LastUse(ops, victim, max, ttl) < LastUse(ops, k, max, ttl) {
      assert k in Elements(c.order);
      var i :| 0 <= i < |c.order| && c.order[i] == k;
      assert Rank(ops, max, ttl)(c.order[0]) < Rank(ops, max, ttl)(c.order[i]);
    }
  }

  // ----- Which keys are cached -----

  predicate MeetsExpired(c: Cache, op: Op, ttl: int) {
    op.GetOp? && op.key in c.entries && op.now - c.entries[op.key].createdAt > ttl
  }

  /** After ops a lookup of k at now is young enough: judged by the last Put alone. */
  predicate Young(ops: seq<Op>, k: string, now: int, ttl: int) {
    LastPut(ops, k).Some? && now - LastPut(ops, k).value.createdAt <= ttl
  }

  /** After the history ops, op is a use of its key: a Put, or a Get of a key that
      survives and is young enough. */
  predicate IsUse(ops: seq<Op>, op: Op, max: nat, ttl: int)
    decreases |ops|, 2
  {
    op.PutOp? || (op.GetOp? && Survives(ops, op.key, max, ttl) && Young(ops, op.key, op.now, ttl))
  }

  /** After the history ops, op is a Get that finds its key too old. */
  predicate IsDrop(ops: seq<Op>, op: Op, max: nat, ttl: int)
    decreases |ops|, 2
  {
    op.GetOp? && Survives(ops, op.key, max, ttl) && !Young(ops, op.key, op.now, ttl)
  }

  /** The keys used since the last use of k and not found too old since their own. */
  function Followers(ops: seq<Op>, k: string, max: nat, ttl: int): set<string>
    decreases |ops|, 0
  {
    if ops == [] || ops[|ops| - 1].FlushOp? then {}
    else
      var front, op := ops[..|ops| - 1], ops[|ops| - 1];
      var was := Followers(front, k, max, ttl);
      if IsUse(front, op, max, ttl) then if op.key == k then {} else was + {op.key}
      else if IsDrop(front, op, max, ttl) then was - {op.key}
      else was
  }

  /** Since its last use k was neither flushed nor found too old, and never had max
      followers. Said of the history alone. */
  predicate Survives(ops: seq<Op>, k: string, max: nat, ttl: int)
    decreases |ops|, 1
  {
    if ops == [] || ops[|ops| - 1].FlushOp? then false
    else
      var front, op := ops[..|ops| - 1], ops[|ops| - 1];
      if IsUse(front, op, max, ttl) && op.key == k then true
      else if IsDrop(front, op, max, ttl) && op.key == k then false
      else Survives(front, k, max, ttl) && |Followers(ops, k, max, ttl)| < max
  }

  /** The history tells what the cache does. */
  lemma HistoryTells(c: Cache, ops: seq<Op>, op: Op, max: nat, ttl: int)
    requires Coherent(c, max) && HoldsLastPuts(c, ops) && !op.FlushOp? && Tells(c, ops, op.key, max, ttl)
    ensures IsUse(ops, op, max, ttl) <==> Uses(c, op, op.key, ttl)
    ensures IsDrop(ops, op, max, ttl) <==> MeetsExpired(c, op, ttl)
  {
    hide Survives, Followers, FollowedBy, LastPut;
    assert op.key in c.entries <==> op.key in Elements(c.order);
  }

  /** What stands behind k in the list. */
  ghost predicate FollowedBy(order: seq<string>, k: string, f: set<string>) {
    k in order && Elements(Lru.After(order, k)) == f
  }

  lemma FewFollow(order: seq<string>, k: string, f: set<string>)
    requires NoDuplicates(order) && FollowedBy(order, k, f)
    ensures |f| < |order|
  {
    var i := LastAt(order, k);
    assert order == order[..i + 1] + order[i + 1..];
    DistinctPart(order[..i + 1], order[i + 1..]);
    NoDuplicatesSize(order[i + 1..]);
  }

  lemma UsedIsLast(order: seq<string>, k: string)
    requires k !in order
    ensures FollowedBy(order + [k], k, {})
  {
    AfterIs(order, k, []);
    assert order + [k] + [] == order + [k];
  }

  lemma AppendFollows(order: seq<string>, k: string, f: set<string>, x: string)
    requires FollowedBy(order, k, f) && x != k
    ensures FollowedBy(order + [x], k, f + {x})
  {
    AfterStep(order, x, k);
    assert Elements(Lru.After(order, k) + [x]) == Elements(Lru.After(order, k)) + {x};
  }

  lemma DropFirstFollows(order: seq<string>, k: string, f: set<string>)
    requires NoDuplicates(order) && FollowedBy(order, k, f)
    ensures k != order[0] ==> FollowedBy(order[1..], k, f)
    ensures k == order[0] ==> f == Elements(order[1..]) && k !in order[1..]
  {
    var i := LastAt(order, k);
    var b := order[i + 1..];
    AfterLacks(order, k);
    if i > 0 {
      assert order[1..] == order[1..i] + [k] + b;
      AfterIs(order[1..i], k, b);
    }
  }

  /** Using x: k keeps its followers and gains x, unless x is new and k is evicted. */
  lemma UseFollows(order: seq<string>, k: string, f: set<string>, x: string, max: nat)
    requires NoDuplicates(order) && |order| <= max && max > 0 && FollowedBy(order, k, f) && x != k
    ensures k in Use(order, x, max) <==> |f + {x}| < max
    ensures k in Use(order, x, max) ==> FollowedBy(Use(order, x, max), k, f + {x})
  {
    hide Without, FollowedBy;
    FewFollow(order, k, f);
    if x in order {
      FollowsRefreshed(order, k, f, x);
      WithoutKeepsDistinct(order, x);
      WithoutMembers(order, x);
      WithoutLength(order, x);
      DistinctAppend(Without(order, x), x);
      FewFollow(Without(order, x) + [x], k, f + {x});
      FollowedIn(Without(order, x) + [x], k, f + {x});
    } else if |order| < max {
      AppendFollows(order, k, f, x);
      DistinctAppend(order, x);
      FewFollow(order + [x], k, f + {x});
      FollowedIn(order + [x], k, f + {x});
    } else {
      FullUseFollows(order, k, f, x, max);
    }
  }

  lemma FollowedIn(order: seq<string>, k: string, f: set<string>)
    requires FollowedBy(order, k, f)
    ensures k in order
  {
  }

  lemma FollowsRefreshed(order: seq<string>, k: string, f: set<string>, x: string)
    requires FollowedBy(order, k, f) && x != k
    ensures FollowedBy(Without(order, x) + [x], k, f + {x})
  {
    RefreshOther(order, k, x);
  }

  lemma FullUseFollows(order: seq<string>, k: string, f: set<string>, x: string, max: nat)
    requires NoDuplicates(order) && |order| == max && max > 0 && FollowedBy(order, k, f) && x != k && x !in order
    ensures k in order[1..] + [x] <==> |f + {x}| < max
    ensures k in order[1..] + [x] ==> FollowedBy(order[1..] + [x], k, f + {x})
  {
    DropFirstFollows(order, k, f);
    assert order == [order[0]] + order[1..];
    DistinctPart([order[0]], order[1..]);
    DistinctAppend(order[1..], x);
    hide FollowedBy;
    if k == order[0] {
      NoDuplicatesSize(order[1..] + [x]);
      assert Elements(order[1..] + [x]) == f + {x};
    } else {
      AppendFollows(order[1..], k, f, x);
      FewFollow(order[1..] + [x], k, f + {x});
      FollowedIn(order[1..] + [x], k, f + {x});
    }
  }

  lemma ExpireFollows(order: seq<string>, k: string, f: set<string>, x: string)
    requires NoDuplicates(order) && FollowedBy(order, k, f) && x != k
    ensures FollowedBy(Without(order, x), k, f - {x})
  {
    WithoutAfter(order, k, x);
  }

  ghost predicate Tells(c: Cache, ops: seq<Op>, k: string, max: nat, ttl: int) {
    && (k in c.order <==> Survives(ops, k, max, ttl))
    && (k in c.order ==> FollowedBy(c.order, k, Followers(ops, k, max, ttl)))
  }

  /** What a use does to survival. */
  lemma UseStep(ops: seq<Op>, op: Op, k: string, max: nat, ttl: int)
    requires !op.FlushOp? && IsUse(ops, op, max, ttl)
    ensures var f := Followers(ops, k, max, ttl) + {op.key};
      if op.key == k then
        Followers(ops + [op], k, max, ttl) == {} && Survives(ops + [op], k, max, ttl)
      else
        Followers(ops + [op], k, max, ttl) == f
        && (Survives(ops + [op], k, max, ttl) <==> Survives(ops, k, max, ttl) && |f| < max)
  {
    assert (ops + [op])[..|ops|] == ops;
    assert !IsDrop(ops, op, max, ttl);
    hide IsUse, IsDrop;
  }

  lemma UseTells(c: Cache, ops: seq<Op>, op: Op, k: string, max: nat, ttl: int)
    requires Coherent(c, max) && max > 0 && Tells(c, ops, k, max, ttl)
    requires !op.FlushOp? && Uses(c, op, op.key, ttl) && IsUse(ops, op, max, ttl)
    ensures Tells(Step(c, op, max, ttl), ops + [op], k, max, ttl)
  {
    UseOrder(c, op, max, ttl);
    UseStep(ops, op, k, max, ttl);
    var x, f := op.key, Followers(ops, k, max, ttl);
    hide Coherent, Step, Without, FollowedBy, Use, Survives, Followers, IsUse;
    if x == k {
      UsedKeyIsLast(c.order, k, max);
      FollowedIn(Use(c.order, k, max), k, {});
    } else if k in c.order {
      UseFollows(c.order, k, f, x, max);
    } else {
      UseAddsOnly(c.order, x, k, max);
    }
  }

  lemma UseOrder(c: Cache, op: Op, max: nat, ttl: int)
    requires Coherent(c, max) && !op.FlushOp? && Uses(c, op, op.key, ttl)
    ensures Step(c, op, max, ttl).order == Use(c.order, op.key, max) && NoDuplicates(c.order) && |c.order| <= max
    ensures !MeetsExpired(c, op, ttl)
  {
    hide Without;
    assert op.key in c.entries <==> op.key in Elements(c.order);
  }

  lemma UsedKeyIsLast(order: seq<string>, k: string, max: nat)
    requires NoDuplicates(order)
    ensures FollowedBy(Use(order, k, max), k, {})
  {
    hide Without, FollowedBy;
    if k in order {
      WithoutMembers(order, k);
      UsedIsLast(Without(order, k), k);
    } else if |order| >= max && order != [] {
      UsedIsLast(order[1..], k);
    } else {
      UsedIsLast(order, k);
    }
  }

  lemma UseAddsOnly(order: seq<string>, x: string, k: string, max: nat)
    requires k !in order && k != x
    ensures k !in Use(order, x, max)
  {
    hide Without;
    WithoutMembers(order, x);
  }

  /** What a lookup that is no hit does to survival. */
  lemma MissStep(ops: seq<Op>, op: Op, k: string, max: nat, ttl: int)
    requires op.GetOp? && !IsUse(ops, op, max, ttl)
    ensures var was, drop := Followers(ops, k, max, ttl), IsDrop(ops, op, max, ttl);
      var f := if drop then was - {op.key} else was;
      && Followers(ops + [op], k, max, ttl) == f
      && (Survives(ops + [op], k, max, ttl) <==> !(drop && op.key == k) && Survives(ops, k, max, ttl) && |f| < max)
  {
    assert (ops + [op])[..|ops|] == ops;
    hide IsUse, IsDrop;
  }

  lemma MissTells(c: Cache, ops: seq<Op>, op: Op, k: string, max: nat, ttl: int)
    requires Coherent(c, max) && Tells(c, ops, k, max, ttl) && op.GetOp?
    requires !Uses(c, op, op.key, ttl) && !IsUse(ops, op, max, ttl)
    requires !MeetsExpired(c, op, ttl) && !IsDrop(ops, op, max, ttl)
    ensures Tells(Step(c, op, max, ttl), ops + [op], k, max, ttl)
  {
    GetOrder(c, op, max, ttl);
    MissStep(ops, op, k, max, ttl);
    hide Step, Uses, MeetsExpired, FollowedBy, Survives, Followers, IsUse, IsDrop;
    if k in c.order {
      FewFollow(c.order, k, Followers(ops, k, max, ttl));
    }
  }

  lemma DropTells(c: Cache, ops: seq<Op>, op: Op, k: string, max: nat, ttl: int)
    requires Coherent(c, max) && Tells(c, ops, k, max, ttl) && op.GetOp?
    requires !Uses(c, op, op.key, ttl) && !IsUse(ops, op, max, ttl)
    requires MeetsExpired(c, op, ttl) && IsDrop(ops, op, max, ttl)
    ensures Tells(Step(c, op, max, ttl), ops + [op], k, max, ttl)
  {
    GetOrder(c, op, max, ttl);
    MissStep(ops, op, k, max, ttl);
    hide Step, Uses, MeetsExpired, FollowedBy, Survives, Followers, Without, IsUse, IsDrop;
    var x, f := op.key, Followers(ops, k, max, ttl);
    WithoutMembers(c.order, x);
    if k in c.order && k != x {
      FewFollow(c.order, k, f);
      ExpireFollows(c.order, k, f, x);
      FewerIn(f, x);
    }
  }

  lemma FlushTells(c: Cache, ops: seq<Op>, k: string, max: nat, ttl: int)
    ensures Tells(Step(c, FlushOp, max, ttl), ops + [FlushOp], k, max, ttl)
  {
  }

  lemma FewerIn(f: set<string>, x: string)
    ensures |f - {x}| <= |f|
  {
    if x in f {
      assert |f - {x}| == |f| - 1;
    } else {
      assert f - {x} == f;
    }
  }

  lemma GetOrder(c: Cache, op: Op, max: nat, ttl: int)
    requires Coherent(c, max) && !op.FlushOp? && !Uses(c, op, op.key, ttl)
    ensures op.GetOp?
    ensures Step(c, op, max, ttl).order == if MeetsExpired(c, op, ttl) then Without(c.order, op.key) else c.order
  {
  }

  lemma {:induction false} OrderTells(ops: seq<Op>, k: string, max: nat, ttl: int)
    requires max > 0
    ensures Tells(After(ops, max, ttl), ops, k, max, ttl)
  {
    if ops != [] {
      var front, op := ops[..|ops| - 1], ops[|ops| - 1];
      assert ops == front + [op];
      OrderTells(front, k, max, ttl);
      RunIsOneRecencyList(front, max, ttl);
      var c := After(front, max, ttl);
      hide Tells, Coherent, Step, Uses, MeetsExpired, IsUse, IsDrop, HoldsLastPuts;
      if op.FlushOp? {
        FlushTells(c, front, k, max, ttl);
      } else {
        OrderTells(front, op.key, max, ttl);
        HistoryTells(c, front, op, max, ttl);
        if Uses(c, op, op.key, ttl) {
          UseTells(c, front, op, k, max, ttl);
        } else {
          GetOrder(c, op, max, ttl);
          if MeetsExpired(c, op, ttl) {
            DropTells(c, front, op, k, max, ttl);
          } else {
            MissTells(c, front, op, k, max, ttl);
          }
        }
      }
    }
  }

  /** After every sequential run a key is cached exactly when, since its last use, it was
      neither flushed nor found expired and never as many as max other keys were used
      and still unexpired. */
  lemma CachedIffSurvives(ops: seq<Op>, k: string, max: nat, ttl: int)
    requires max > 0
    ensures k in After(ops, max, ttl).entries <==> Survives(ops, k, max, ttl)
  {
    OrderTells(ops, k, max, ttl);
    RunIsOneRecencyList(ops, max, ttl);
    var c := After(ops, max, ttl);
    assert k in c.entries <==> k in Elements(c.order);
  }

  // ----- Every interleaving of the locked steps -----

  /** A Get in progress: it has read an entry; it has judged it expired or fresh; it is done. */
  datatype Getter =
    | Holding(key: string, entry: Entry)
    | Dropping(key: string)
    | Promoting(key: string, entry: Entry, judged: int)
    | Hit(key: string, entry: Entry, judged: int)
    | Miss

  datatype State = State(now: int, cache: Cache, getters: map<nat, Getter>, puts: set<(string, Entry)>)

  datatype Action =
    | Look(getter: nat, key: string)
    | Judge(getter: nat)
    | Drop(getter: nat)
    | Touch(getter: nat)
    | Put(key: string, output: string)
    | Flush
    | Advance(seconds: nat)

  const INITIAL := State(0, EMPTY, map[], {})

  ghost predicate Enabled(s: State, a: Action) {
    match a
    case Look(g, _) => g !in s.getters
    case Judge(g) => g in s.getters && s.getters[g].Holding?
    case Drop(g) => g in s.getters && s.getters[g].Dropping?
    case Touch(g) => g in s.getters && s.getters[g].Promoting?
    case _ => true
  }

  ghost function Do(s: State, a: Action, max: nat, ttl: int): State
    requires Enabled(s, a)
  {
    match a
    case Look(g, key) =>
      s.(getters := s.getters[g := if key in s.cache.entries then Holding(key, s.cache.entries[key]) else Miss])
    case Judge(g) =>
      var h := s.getters[g];
      var n := if s.now - h.entry.createdAt > ttl then Dropping(h.key) else Promoting(h.key, h.entry, s.now);
      s.(getters := s.getters[g := n])
    case Drop(g) => s.(cache := Expire(s.cache, s.getters[g].key), getters := s.getters[g := Miss])
    case Touch(g) =>
      var h := s.getters[g];
      s.(cache := Promote(s.cache, h.key), getters := s.getters[g := Hit(h.key, h.entry, h.judged)])
    case Put(key, output) =>
      var e := Entry(output, s.now);
      s.(cache := Stored(s.cache, key, e, max), puts := s.puts + {(key, e)})
    case Flush => s.(cache := EMPTY)
    case Advance(d) => s.(now := s.now + d)
  }

  ghost predicate IsRun(s: State, acts: seq<Action>, max: nat, ttl: int)
    decreases |acts|
  {
    acts == [] || (Enabled(s, acts[0]) && IsRun(Do(s, acts[0], max, ttl), acts[1..], max, ttl))
  }

  ghost function Final(s: State, acts: seq<Action>, max: nat, ttl: int): State
    requires IsRun(s, acts, max, ttl)
    decreases |acts|
  {
    if acts == [] then s else Final(Do(s, acts[0], max, ttl), acts[1..], max, ttl)
  }

  ghost predicate GetterOk(s: State, g: Getter, ttl: int) {
    match g
    case Holding(key, e) => (key, e) in s.puts
    case Promoting(key, e, judged) => (key, e) in s.puts && judged - e.createdAt <= ttl
    case Hit(key, e, judged) => (key, e) in s.puts && judged - e.createdAt <= ttl
    case _ => true
  }

  ghost predicate Inv(s: State, max: nat, ttl: int) {
    && Coherent(s.cache, max)
    && (forall k :: k in s.cache.entries ==> (k, s.cache.entries[k]) in s.puts)
    && forall g :: g in s.getters ==> GetterOk(s, s.getters[g], ttl)
  }

  lemma DoKeepsInv(s: State, a: Action, max: nat, ttl: int)
    requires Inv(s, max, ttl) && Enabled(s, a) && max > 0
    ensures Inv(Do(s, a, max, ttl), max, ttl)
  {
    hide Without, Use, Coherent;
    match a
    case Drop(g) => ExpireKeepsCoherent(s.cache, s.getters[g].key, max);
    case Touch(g) => PromoteKeepsCoherent(s.cache, s.getters[g].key, max);
    case Put(key, output) => StoredKeepsCoherent(s.cache, key, Entry(output, s.now), max);
    case Flush => EmptyIsCoherent(max);
    case _ =>
  }

  lemma EmptyIsCoherent(max: nat)
    ensures Coherent(EMPTY, max)
  {
  }

  lemma {:induction false} RunKeepsInv(s: State, acts: seq<Action>, max: nat, ttl: int)
    requires Inv(s, max, ttl) && IsRun(s, acts, max, ttl) && max > 0
    ensures Inv(Final(s, acts, max, ttl), max, ttl)
    decreases |acts|
  {
    if acts != [] {
      DoKeepsInv(s, acts[0], max, ttl);
      RunKeepsInv(Do(s, acts[0], max, ttl), acts[1..], max, ttl);
    }
  }

  /** After every locked step of any interleaving the slice holds the map's keys once
      each, and there are at most max of them. */
  lemma InterleavingKeepsOneList(acts: seq<Action>, max: nat, ttl: int)
    requires IsRun(INITIAL, acts, max, ttl) && max > 0
    ensures var c := Final(INITIAL, acts, max, ttl).cache;
      NoDuplicates(c.order) && Elements(c.order) == c.entries.Keys && |c.entries| == |c.order| <= max
  {
    RunKeepsInv(INITIAL, acts, max, ttl);
    SizeIs(Final(INITIAL, acts, max, ttl).cache, max);
  }

  /** A hit, however it was interleaved, is something that was put under its key, not
      older than the TTL when it was judged. */
  lemma InterleavedHitWasPut(acts: seq<Action>, g: nat, max: nat, ttl: int)
    requires IsRun(INITIAL, acts, max, ttl) && max > 0
    ensures var s := Final(INITIAL, acts, max, ttl);
      g in s.getters && s.getters[g].Hit? ==>
        var h := s.getters[g];
        (h.key, h.entry) in s.puts && h.judged - h.entry.createdAt <= ttl
  {
    RunKeepsInv(INITIAL, acts, max, ttl);
  }
}
