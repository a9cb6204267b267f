/** The narration cache: a map and an in-place-shifted slice that together form one
    recency list with a time-to-live (ainarration/cache.go). */
module Narration {
  import opened Text
  import opened Lru

  const DEFAULT_SIZE := 200
  const DEFAULT_TTL := 7200

  datatype Entry = Entry(output: string, createdAt: int)

  /** The cache as a value; order lists the keys oldest use first. */
  datatype Cache = Cache(entries: map<string, Entry>, order: seq<string>)

  const EMPTY := Cache(map[], [])

  ghost predicate Coherent(c: Cache, max: nat) {
    NoDuplicates(c.order) && Elements(c.order) == c.entries.Keys && |c.order| <= max
  }

  // ----- The locked steps -----

  function Expire(c: Cache, key: string): Cache {
    Cache(c.entries - {key}, Without(c.order, key))
  }

  function Promote(c: Cache, key: string): Cache {
    if key in c.order then c.(order := Without(c.order, key) + [key]) else c
  }

  function Stored(c: Cache, key: string, e: Entry, max: nat): Cache {
    var order := Use(c.order, key, max);
    if key in c.entries || |c.order| < max then Cache(c.entries[key := e], order)
    else Cache((if c.order == [] then c.entries else c.entries - {c.order[0]})[key := e], order)
  }

  lemma ExpireKeepsCoherent(c: Cache, key: string, max: nat)
    requires Coherent(c, max)
    ensures Coherent(Expire(c, key), max)
  {
    WithoutMembers(c.order, key);
    WithoutKeepsDistinct(c.order, key);
    if key in c.order {
      WithoutLength(c.order, key);
    } else {
      WithoutAbsent(c.order, key);
    }
  }

  lemma PromoteKeepsCoherent(c: Cache, key: string, max: nat)
    requires Coherent(c, max)
    ensures Coherent(Promote(c, key), max)
  {
    if key in c.order {
      WithoutMembers(c.order, key);
      WithoutKeepsDistinct(c.order, key);
      WithoutLength(c.order, key);
      DistinctAppend(Without(c.order, key), key);
    }
  }

  lemma StoredKeepsCoherent(c: Cache, key: string, e: Entry, max: nat)
    requires Coherent(c, max) && max > 0
    ensures Coherent(Stored(c, key, e, max), max)
  {
    hide Without;
    assert key in c.entries <==> key in Elements(c.order);
    if key in c.order {
      PromoteKeepsCoherent(c, key, max);
    } else if |c.order| >= max {
      RestIs(c.order);
      DistinctAppend(c.order[1..], key);
      assert Elements(c.order[1..] + [key]) == Elements(c.order[1..]) + {key};
    } else {
      DistinctAppend(c.order, key);
      assert Elements(c.order + [key]) == Elements(c.order) + {key};
    }
  }

  lemma RestIs(s: seq<string>)
    requires NoDuplicates(s) && s != []
    ensures NoDuplicates(s[1..]) && Elements(s[1..]) == Elements(s) - {s[0]}
  {
    assert s == [s[0]] + s[1..];
    assert s[0] !in s[1..];
  }

  // ----- The cache as it is kept: a map and a slice of a backing array -----

  class NarrationCache {
    const max: nat
    const ttl: int
    var entries: map<string, Entry>
    var buf: array<string>
    var lo: nat
    var hi: nat

    ghost predicate Shape()
      reads this
    {
      lo <= hi <= buf.Length && max > 0 && ttl > 0
    }

    ghost function Order(): seq<string>
      reads this, buf
      requires Shape()
    {
      buf[lo..hi]
    }

    ghost function View(): Cache
      reads this, buf
      requires Shape()
    {
      Cache(entries, Order())
    }

    ghost predicate Valid()
      reads this, buf
    {
      Shape() && Coherent(View(), max)
    }

    constructor (maxSize: int, ttl: int)
      ensures Valid() && fresh(buf) && View() == EMPTY
      ensures max == (if maxSize <= 0 then 200 else maxSize)
      ensures this.ttl == (if ttl <= 0 then 2 * 60 * 60 else ttl)
    {
      max := if maxSize <= 0 then DEFAULT_SIZE else maxSize;
      this.ttl := if ttl <= 0 then DEFAULT_TTL else ttl;
      entries, lo, hi := map[], 0, 0;
      buf := new string[if maxSize <= 0 then DEFAULT_SIZE else maxSize];
    }

    /** append(order[:i], order[i+1:]...): the tail moves down in place. */
    method RemoveAt(i: nat)
      requires Shape() && lo + i < hi
      modifies this`hi, buf
      ensures Shape() && hi == old(hi) - 1
      ensures Order() == old(Order())[..i] + old(Order())[i + 1..]
    {
      hide Shifted;
      ghost var was := Order();
      ShiftedNone(was, i);
      for j := lo + i to hi - 1
        invariant hi == old(hi) && Order() == Shifted(was, i, j - lo)
      {
        ghost var now := Order();
        buf[j] := buf[j + 1];
        assert Order() == now[j - lo := now[j - lo + 1]];
        ShiftedStep(was, i, j - lo);
      }
      assert buf[lo..hi - 1] == Order()[..|was| - 1];
      hi := hi - 1;
      ShiftedAll(was, i);
    }

    /** append(order, key): in place while the backing array has room, else in a copy. */
    method Append(key: string)
      requires Shape()
      modifies this`buf, this`lo, this`hi, buf
      ensures Shape() && (buf == old(buf) || fresh(buf))
      ensures Order() == old(Order()) + [key]
    {
      if hi == buf.Length {
        var n := hi - lo;
        var grown := new string[2 * n + 1];
        for j := 0 to n
          invariant unchanged(this) && unchanged(buf)
          invariant forall k :: 0 <= k < j ==> grown[k] == buf[lo + k]
        {
          grown[j] := buf[lo + j];
        }
        buf, lo, hi := grown, 0, n;
        assert buf[..hi] == old(Order());
      }
      buf[hi] := key;
      hi := hi + 1;
    }

    method Find(key: string) returns (i: nat)
      requires Shape()
      ensures i <= hi - lo && (i < hi - lo ==> Order()[i] == key)
      ensures key !in Order()[..i]
    {
      i := 0;
      while i < hi - lo && buf[lo + i] != key
        invariant i <= hi - lo
        invariant key !in Order()[..i]
      {
        assert Order()[..i + 1] == Order()[..i] + [Order()[i]];
        i := i + 1;
      }
    }

    method MoveToEnd(key: string)
      requires Valid()
      modifies this`buf, this`lo, this`hi, buf
      ensures Valid() && (buf == old(buf) || fresh(buf))
      ensures View() == Promote(old(View()), key)
    {
      PromoteKeepsCoherent(View(), key, max);
      ghost var was := Order();
      var i := Find(key);
      if i < hi - lo {
        OneRemoved(was, i);
        RemoveAt(i);
        Append(key);
      } else {
        assert was[..i] == was;
      }
    }

    method RemoveFromOrder(key: string)
      requires Shape() && NoDuplicates(Order())
      modifies this`hi, buf
      ensures Shape() && Order() == Without(old(Order()), key)
    {
      ghost var was := Order();
      var i := Find(key);
      if i < hi - lo {
        OneRemoved(was, i);
        RemoveAt(i);
      } else {
        assert was[..i] == was;
        WithoutAbsent(was, key);
      }
    }

    method Get(key: string, now: int) returns (r: Option<string>)
      requires Valid()
      modifies this`entries, this`buf, this`lo, this`hi, buf
      ensures Valid() && (buf == old(buf) || fresh(buf))
      ensures r == Answer(old(View()), key, now, ttl)
      ensures View() == Got(old(View()), key, now, ttl)
    {
      if key !in entries {
        return None;
      }
      var e := entries[key];
      if now - e.createdAt > ttl {
        ExpireKeepsCoherent(View(), key, max);
        RemoveFromOrder(key);
        entries := entries - {key};
        return None;
      }
      assert key in Elements(Order());
      MoveToEnd(key);
      r := Some(e.output);
    }

    /** The eviction loop. */
    method MakeRoom()
      requires Valid()
      modifies this`entries, this`lo
      ensures Shape() && View() == Roomy(old(View()), max)
    {
      hide Coherent;
      ghost var was := View();
      SizeIs(was, max);
      while |entries| >= max && hi - lo > 0
        invariant Shape() && buf == old(buf) && hi == old(hi) && |entries| == hi - lo <= max
        invariant View() == was || (|was.order| == max && |entries| < max && View() == Roomy(was, max))
        decreases hi - lo
      {
        RoomyShrinks(was, max);
        var oldest := buf[lo];
        assert oldest == was.order[0];
        lo := lo + 1;
        entries := entries - {oldest};
        assert Order() == was.order[1..];
      }
    }

    method Put(key: string, output: string, now: int)
      requires Valid()
      modifies this`entries, this`buf, this`lo, this`hi, buf
      ensures Valid() && (buf == old(buf) || fresh(buf))
      ensures View() == Stored(old(View()), key, Entry(output, now), max)
    {
      hide Coherent, Without, Stored, Promote;
      ghost var was, stored := View(), Stored(View(), key, Entry(output, now), max);
      StoredKeepsCoherent(was, key, Entry(output, now), max);
      StoredIs(was, key, Entry(output, now), max);
      if key in entries {
        MoveToEnd(key);
        entries := entries[key := Entry(output, now)];
        assert View() == stored;
      } else {
        Add(key, Entry(output, now));
        assert View() == stored;
      }
    }

    /** A key that is not cached yet. */
    method Add(key: string, e: Entry)
      requires Valid()
      modifies this`entries, this`buf, this`lo, this`hi, buf
      ensures Shape() && (buf == old(buf) || fresh(buf))
      ensures View() == Cache(Roomy(old(View()), max).entries[key := e], Roomy(old(View()), max).order + [key])
    {
      hide Coherent, Roomy;
      MakeRoom();
      ghost var roomy := View();
      entries := entries[key := e];
      Append(key);
      assert View().order == roomy.order + [key];
    }

    method Flush()
      requires Valid()
      modifies this`entries, this`hi
      ensures Valid() && View() == EMPTY
    {
      entries, hi := map[], lo;
    }
  }

  /** s with the elements i + 1 to j moved down one place. */
  function Shifted(s: seq<string>, i: nat, j: nat): (r: seq<string>)
    requires i <= j < |s|
    ensures |r| == |s|
  {
    s[..i] + s[i + 1..j + 1] + s[j..]
  }

  lemma ShiftedNone(s: seq<string>, i: nat)
    requires i < |s|
    ensures Shifted(s, i, i) == s
  {
  }

  lemma ShiftedStep(s: seq<string>, i: nat, j: nat)
    requires i <= j < |s| - 1
    ensures var t := Shifted(s, i, j); t[j := t[j + 1]] == Shifted(s, i, j + 1)
  {
  }

  lemma ShiftedAll(s: seq<string>, i: nat)
    requires i < |s|
    ensures Shifted(s, i, |s| - 1)[..|s| - 1] == s[..i] + s[i + 1..]
  {
  }

  function Roomy(c: Cache, max: nat): Cache {
    if |c.order| >= max && c.order != [] then Cache(c.entries - {c.order[0]}, c.order[1..]) else c
  }

  lemma RoomyShrinks(c: Cache, max: nat)
    requires Coherent(c, max) && c.order != []
    ensures c.order[0] in c.entries && |c.entries - {c.order[0]}| == |c.entries| - 1
  {
    assert c.order[0] in Elements(c.order);
    assert (c.entries - {c.order[0]}).Keys == c.entries.Keys - {c.order[0]};
  }

  lemma StoredIs(c: Cache, key: string, e: Entry, max: nat)
    requires Coherent(c, max) && max > 0
    ensures key in c.entries ==> Stored(c, key, e, max) == Cache(c.entries[key := e], Promote(c, key).order)
    ensures key in c.entries ==> Promote(c, key).entries == c.entries
    ensures key !in c.entries ==>
      Stored(c, key, e, max) == Cache(Roomy(c, max).entries[key := e], Roomy(c, max).order + [key])
  {
    hide Without;
    assert key in c.entries <==> key in Elements(c.order);
  }

  lemma OneRemoved(s: seq<string>, i: nat)
    requires NoDuplicates(s) && i < |s|
    ensures s[..i] + s[i + 1..] == Without(s, s[i]) && s[i] in s
  {
    hide *;
    var k, a, b := s[i], s[..i], s[i + 1..];
    PartsLack(s, i);
    assert s == a + ([k] + b);
    WithoutMiddle(a, k, b);
  }

  lemma PartsLack(s: seq<string>, i: nat)
    requires NoDuplicates(s) && i < |s|
    ensures s[i] !in s[..i] && s[i] !in s[i + 1..]
  {
  }

  lemma WithoutMiddle(a: seq<string>, k: string, b: seq<string>)
    requires k !in a && k !in b
    ensures Without(a + ([k] + b), k) == a + b
  {
    hide *;
    WithoutSplit(a, [k] + b, k);
    WithoutSplit([k], b, k);
    WithoutItself(k);
    WithoutAbsent(a, k);
    WithoutAbsent(b, k);
    assert [] + b == b;
  }

  lemma WithoutItself(k: string)
    ensures Without([k], k) == []
  {
    assert [k][..0] == [];
  }

  lemma SizeIs(c: Cache, max: nat)
    requires Coherent(c, max)
    ensures |c.entries| == |c.order| <= max
  {
    NoDuplicatesSize(c.order);
  }

  // ----- Calls one after another -----

  function Answer(c: Cache, key: string, now: int, ttl: int): Option<string> {
    if key in c.entries && now - c.entries[key].createdAt <= ttl then Some(c.entries[key].output) else None
  }

  function Got(c: Cache, key: string, now: int, ttl: int): Cache {
    if key !in c.entries then c
    else if now - c.entries[key].createdAt > ttl then Expire(c, key)
    else Promote(c, key)
  }
}
