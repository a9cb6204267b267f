/** Recency lists: the specification both least-recently-used caches refine. */
module Lru {
  import opened Text

  predicate NoDuplicates(s: seq<string>) {
    forall i, j :: 0 <= i < j < |s| ==> s[i] != s[j]
  }

  function Without(s: seq<string>, x: string): seq<string> {
    if s == [] then []
    else if s[|s| - 1] == x then Without(s[..|s| - 1], x)
    else Without(s[..|s| - 1], x) + [s[|s| - 1]]
  }

  lemma {:induction false} WithoutMembers(s: seq<string>, x: string)
    ensures forall y :: y in Without(s, x) <==> y in s && y != x
  {
    if s != [] {
      var front, last := s[..|s| - 1], s[|s| - 1];
      assert s == front + [last];
      WithoutMembers(front, x);
    }
  }

  lemma {:induction false} WithoutKeepsDistinct(s: seq<string>, x: string)
    requires NoDuplicates(s)
    ensures NoDuplicates(Without(s, x))
  {
    if s != [] {
      var front, last := s[..|s| - 1], s[|s| - 1];
      WithoutKeepsDistinct(front, x);
      WithoutMembers(front, x);
      assert last !in front;
    }
  }

  lemma {:induction false} WithoutAbsent(s: seq<string>, x: string)
    requires x !in s
    ensures Without(s, x) == s
  {
    if s != [] {
      assert s == s[..|s| - 1] + [s[|s| - 1]];
      WithoutAbsent(s[..|s| - 1], x);
    }
  }

  lemma {:induction false} WithoutLength(s: seq<string>, x: string)
    requires NoDuplicates(s) && x in s
    ensures |Without(s, x)| == |s| - 1
  {
    var front, last := s[..|s| - 1], s[|s| - 1];
    assert s == front + [last];
    if last == x {
      assert x !in front;
      WithoutAbsent(front, x);
    } else {
      WithoutLength(front, x);
    }
  }

  /** Removing an element commutes with cutting the list in two. */
  lemma {:induction false} WithoutSplit(a: seq<string>, b: seq<string>, x: string)
    ensures Without(a + b, x) == Without(a, x) + Without(b, x)
  {
    if b == [] {
      assert a + b == a;
    } else {
      var front, last := b[..|b| - 1], b[|b| - 1];
      assert (a + b)[..|a + b| - 1] == a + front;
      WithoutSplit(a, front, x);
    }
  }

  /** The list ascends strictly in rank. */
  ghost predicate Ranked(s: seq<string>, rank: string -> int) {
    forall i, j :: 0 <= i < j < |s| ==> rank(s[i]) < rank(s[j])
  }

  lemma {:induction false} WithoutKeepsRanked(s: seq<string>, rank: string -> int, x: string)
    requires Ranked(s, rank)
    ensures Ranked(Without(s, x), rank)
  {
    if s != [] {
      var front, last := s[..|s| - 1], s[|s| - 1];
      WithoutKeepsRanked(front, rank, x);
      WithoutMembers(front, x);
      var w := Without(front, x);
      forall i | 0 <= i < |w| ensures rank(w[i]) < rank(last) {
        assert w[i] in front;
      }
    }
  }

  /** Use of a key in a cache of cap entries; the list is oldest first. A new key
      drops the oldest one when the cache is full. */
  function Use(order: seq<string>, k: string, cap: nat): seq<string> {
    if k in order then Without(order, k) + [k]
    else if |order| >= cap && order != [] then order[1..] + [k]
    else order + [k]
  }

  function UseAll(hist: seq<string>, cap: nat): seq<string> {
    if hist == [] then [] else Use(UseAll(hist[..|hist| - 1], cap), hist[|hist| - 1], cap)
  }

  /** The distinct keys of a history, by last use. */
  function ByLastUse(hist: seq<string>): seq<string> {
    if hist == [] then []
    else Without(ByLastUse(hist[..|hist| - 1]), hist[|hist| - 1]) + [hist[|hist| - 1]]
  }

  lemma {:induction false} ByLastUseIsTheDistinctKeys(hist: seq<string>)
    ensures NoDuplicates(ByLastUse(hist))
    ensures forall k :: k in ByLastUse(hist) <==> k in hist
  {
    if hist != [] {
      var front, last := hist[..|hist| - 1], hist[|hist| - 1];
      assert hist == front + [last];
      ByLastUseIsTheDistinctKeys(front);
      WithoutKeepsDistinct(ByLastUse(front), last);
      WithoutMembers(ByLastUse(front), last);
      DistinctAppend(Without(ByLastUse(front), last), last);
    }
  }

  lemma DistinctAppend(s: seq<string>, x: string)
    requires NoDuplicates(s) && x !in s
    ensures NoDuplicates(s + [x])
  {
  }

  /** How far into s its last n elements begin. */
  function Cut(s: seq<string>, n: nat): (i: nat)
    ensures i <= |s|
  {
    if |s| <= n then 0 else |s| - n
  }

  lemma {:induction false} BoundedIsSuffix(hist: seq<string>, cap: nat)
    requires cap > 0
    ensures var u := ByLastUse(hist); UseAll(hist, cap) == u[Cut(u, cap)..]
  {
    if hist != [] {
      var front, k := hist[..|hist| - 1], hist[|hist| - 1];
      BoundedIsSuffix(front, cap);
      var u := ByLastUse(front);
      ByLastUseIsTheDistinctKeys(front);
      var n := Cut(u, cap);
      assert u == u[..n] + u[n..];
      SuffixUse(u[..n], u[n..], k, cap);
    }
  }

  lemma SuffixUse(a: seq<string>, b: seq<string>, k: string, cap: nat)
    requires cap > 0 && NoDuplicates(a + b) && |b| <= cap && (|b| < cap ==> a == [])
    ensures var w := Without(a + b, k) + [k]; Use(b, k, cap) == w[Cut(w, cap)..]
  {
    hide Without;
    WithoutSplit(a, b, k);
    var w := Without(a + b, k) + [k];
    if k in b {
      var j :| 0 <= j < |b| && b[j] == k;
      forall i | 0 <= i < |a| ensures a[i] != k {
        assert (a + b)[i] != (a + b)[|a| + j];
      }
      WithoutAbsent(a, k);
      DistinctPart(a, b);
      WithoutLength(b, k);
      assert w == a + (Without(b, k) + [k]);
    } else {
      WithoutAbsent(b, k);
      if |b| == cap {
        assert w == (Without(a, k) + b[..1]) + (b[1..] + [k]);
      } else {
        WithoutAbsent(a, k);
        assert w == b + [k];
      }
    }
  }

  lemma DistinctPart(a: seq<string>, b: seq<string>)
    requires NoDuplicates(a + b)
    ensures NoDuplicates(b)
  {
    forall i, j | 0 <= i < j < |b| ensures b[i] != b[j] {
      assert (a + b)[|a| + i] != (a + b)[|a| + j];
    }
  }

  // ----- What is in the cache, said of the history alone -----

  /** The last position of k. */
  function LastAt(s: seq<string>, k: string): (i: nat)
    requires k in s
    ensures i < |s| && s[i] == k
  {
    if s[|s| - 1] == k then |s| - 1
    else
      assert s == s[..|s| - 1] + [s[|s| - 1]];
      LastAt(s[..|s| - 1], k)
  }

  /** What follows the last k. */
  function After(s: seq<string>, k: string): seq<string>
    requires k in s
  {
    s[LastAt(s, k) + 1..]
  }

  lemma {:induction false} AfterIs(a: seq<string>, k: string, b: seq<string>)
    requires k !in b
    ensures After(a + [k] + b, k) == b
  {
    var s := a + [k] + b;
    if b != [] {
      var front := b[..|b| - 1];
      assert s[..|s| - 1] == a + [k] + front;
      AfterIs(a, k, front);
      assert After(s, k) == front + [b[|b| - 1]];
    }
  }

  lemma {:induction false} AfterStep(s: seq<string>, x: string, k: string)
    requires k in s
    ensures After(s + [x], k) == if x == k then [] else After(s, k) + [x]
  {
    assert (s + [x])[..|s|] == s;
  }

  lemma {:induction false} AfterLacks(s: seq<string>, k: string)
    requires k in s
    ensures k !in After(s, k)
  {
    var front, last := s[..|s| - 1], s[|s| - 1];
    assert s == front + [last];
    if last != k {
      AfterStep(front, last, k);
      AfterLacks(front, k);
    }
  }

  /** Behind k in the recency list stand exactly the keys used since k. */
  lemma {:induction false} FollowersWereUsedSince(hist: seq<string>, k: string)
    requires k in hist
    ensures k in ByLastUse(hist)
    ensures Elements(After(ByLastUse(hist), k)) == Elements(After(hist, k))
  {
    hide Without, After;
    var front, last := hist[..|hist| - 1], hist[|hist| - 1];
    assert hist == front + [last];
    ByLastUseIsTheDistinctKeys(hist);
    if last == k {
      AfterIs(front, k, []);
      AfterIs(Without(ByLastUse(front), k), k, []);
      assert hist == front + [k] + [] && ByLastUse(hist) == Without(ByLastUse(front), k) + [k] + [];
    } else {
      FollowersWereUsedSince(front, k);
      AfterStep(front, last, k);
      RefreshOther(ByLastUse(front), k, last);
      assert Elements(After(front, k) + [last]) == Elements(After(front, k)) + {last};
    }
  }

  lemma RefreshOther(v: seq<string>, k: string, x: string)
    requires k in v && k != x
    ensures k in Without(v, x) + [x]
    ensures Elements(After(Without(v, x) + [x], k)) == Elements(After(v, k)) + {x}
  {
    hide Without;
    hide Elements;
    var i := LastAt(v, k);
    var a, b := v[..i], v[i + 1..];
    AfterLacks(v, k);
    assert v == a + ([k] + b);
    WithoutSplit(a, [k] + b, x);
    WithoutSplit([k], b, x);
    WithoutAbsent([k], x);
    assert k !in Without(b, x) by { WithoutMembers(b, x); }
    var b' := Without(b, x) + [x];
    assert Without(v, x) + [x] == Without(a, x) + [k] + b';
    AfterIs(Without(a, x), k, b');
    assert Elements(b') == Elements(b) + {x} by { RefreshedElements(b, x); }
  }

  lemma WithoutAfter(v: seq<string>, k: string, x: string)
    requires k in v && k != x
    ensures k in Without(v, x)
    ensures Elements(After(Without(v, x), k)) == Elements(After(v, k)) - {x}
  {
    hide Without;
    var i := LastAt(v, k);
    var a, b := v[..i], v[i + 1..];
    AfterLacks(v, k);
    assert v == a + ([k] + b);
    WithoutSplit(a, [k] + b, x);
    WithoutSplit([k], b, x);
    WithoutAbsent([k], x);
    WithoutMembers(b, x);
    assert Without(v, x) == Without(a, x) + [k] + Without(b, x);
    AfterIs(Without(a, x), k, Without(b, x));
  }

  lemma RefreshedElements(b: seq<string>, x: string)
    ensures Elements(Without(b, x) + [x]) == Elements(b) + {x}
  {
    WithoutMembers(b, x);
  }

  lemma {:induction false} NoDuplicatesSize(s: seq<string>)
    requires NoDuplicates(s)
    ensures |Elements(s)| == |s|
  {
    if s != [] {
      var front, last := s[..|s| - 1], s[|s| - 1];
      assert s == front + [last];
      assert Elements(s) == Elements(front) + {last} && last !in front;
      NoDuplicatesSize(front);
    }
  }

  /** How many distinct other keys were used since the last use of k. */
  function UsedSince(hist: seq<string>, k: string): nat
    requires k in hist
  {
    |Elements(After(hist, k))|
  }

  /** After any history the cache holds exactly the cap most recently used distinct
      keys: those since whose last use fewer than cap other keys were used. */
  lemma CacheHoldsMostRecent(hist: seq<string>, cap: nat, k: string)
    requires cap > 0
    ensures k in UseAll(hist, cap) <==> k in hist && UsedSince(hist, k) < cap
    ensures |UseAll(hist, cap)| <= cap && NoDuplicates(UseAll(hist, cap))
  {
    hide UseAll, ByLastUse;
    BoundedIsSuffix(hist, cap);
    ByLastUseIsTheDistinctKeys(hist);
    var u := ByLastUse(hist);
    if k in hist {
      FollowersWereUsedSince(hist, k);
      var i, n := LastAt(u, k), Cut(u, cap);
      NoDuplicatesSize(u[i + 1..]);
      if i >= n {
        assert u[n..][i - n] == k;
      } else {
        assert forall j :: n <= j < |u| ==> u[j] != k;
      }
    }
  }
}
