/** Scope sets: validation, the canonical cache key, and the bounded cache of entries
    keyed by it (socrate/service_token_scopes.go). */
module Scopes {
  import opened Text
  import opened Lru

  // ----- Scope-tokens and canonical sets -----

  /** A scope-token of section 3.3 of RFC 6749: 1*( %x21 / %x23-5B / %x5D-7E ). */
  predicate ScopeToken(s: string) {
    s != "" && forall i :: 0 <= i < |s| ==> ScopeChar(s[i])
  }

  predicate ScopeChar(c: char) {
    c == '\U{21}' || '\U{23}' <= c <= '\U{5b}' || '\U{5d}' <= c <= '\U{7e}'
  }

  /** isScopeToken's loop, with its own four-way rejection. */
  method IsScopeToken(s: string) returns (ok: bool)
    ensures ok == ScopeToken(s)
  {
    if s == "" {
      return false;
    }
    for i := 0 to |s|
      invariant forall j :: 0 <= j < i ==> ScopeChar(s[j])
    {
      var ch := s[i];
      if ch < '\U{21}' || ch > '\U{7e}' || ch == '"' || ch == '\\' {
        return false;
      }
    }
    ok := true;
  }

  predicate Acceptable(scopes: seq<string>) {
    scopes != [] && forall i :: 0 <= i < |scopes| ==> ScopeToken(scopes[i])
  }

  /** Sorting keeps repeats; Compact then drops them. */
  predicate Ascending(s: seq<string>) {
    forall i, j :: 0 <= i < j < |s| ==> s[i] == s[j] || Less(s[i], s[j])
  }

  method InsertAscending(x: string, s: seq<string>) returns (r: seq<string>)
    requires Ascending(s)
    ensures Ascending(r) && multiset(r) == multiset(s) + multiset{x}
  {
    hide Less, Ascending;
    var i := 0;
    while i < |s| && Less(s[i], x)
      invariant 0 <= i <= |s|
      invariant forall j :: 0 <= j < i ==> Less(s[j], x)
    {
      i := i + 1;
    }
    r := s[..i] + [x] + s[i..];
    assert s == s[..i] + s[i..];
    InsertedAscends(s, i, x);
  }

  lemma InsertedAscends(s: seq<string>, i: nat, x: string)
    requires Ascending(s) && i <= |s| && (forall j :: 0 <= j < i ==> Less(s[j], x)) && (i < |s| ==> !Less(s[i], x))
    ensures Ascending(s[..i] + [x] + s[i..])
  {
    hide Less;
    forall j | i <= j < |s| ensures x == s[j] || Less(x, s[j]) {
      LessTotal(s[i], x);
      if s[i] != x && j > i && s[i] != s[j] {
        LessTransitive(x, s[i], s[j]);
      }
    }
  }

  method SortScopes(scopes: seq<string>) returns (r: seq<string>)
    ensures Ascending(r) && multiset(r) == multiset(scopes)
  {
    r := [];
    for i := 0 to |scopes|
      invariant Ascending(r) && multiset(r) == multiset(scopes[..i])
    {
      r := InsertAscending(scopes[i], r);
      assert scopes[..i + 1] == scopes[..i] + [scopes[i]];
    }
    assert scopes[..|scopes|] == scopes;
  }

  /** Compact keeps the first of each run of equal elements. */
  method Compact(s: seq<string>) returns (r: seq<string>)
    requires Ascending(s)
    ensures StrictlySorted(r) && Elements(r) == Elements(s)
  {
    r := [];
    for i := 0 to |s|
      invariant StrictlySorted(r) && Elements(r) == Elements(s[..i])
      invariant i > 0 ==> r != [] && r[|r| - 1] == s[i - 1]
      invariant i == 0 ==> r == []
    {
      assert s[..i + 1] == s[..i] + [s[i]];
      assert Elements(s[..i] + [s[i]]) == Elements(s[..i]) + {s[i]};
      assert Elements(r + [s[i]]) == Elements(r) + {s[i]};
      if i == 0 || s[i] != s[i - 1] {
        forall j | 0 <= j < |r| ensures Less(r[j], s[i]) {
          if j < |r| - 1 {
            LessTransitive(r[j], s[i - 1], s[i]);
          }
        }
        r := r + [s[i]];
      } else {
        assert s[i] == s[..i][i - 1];
      }
    }
    assert s[..|s|] == s;
  }

  /** The scope set in canonical form; None when there is none or one is malformed. */
  ghost function Canonical(scopes: seq<string>): Option<seq<string>> {
    if Acceptable(scopes) then Some(Sorted(Elements(scopes))) else None
  }

  method NormaliseScopes(scopes: seq<string>) returns (r: Option<seq<string>>)
    ensures r == Canonical(scopes)
  {
    if |scopes| == 0 {
      return None;
    }
    var list: seq<string> := [];
    for i := 0 to |scopes|
      invariant forall j :: 0 <= j < i ==> ScopeToken(scopes[j])
      invariant list == scopes[..i]
    {
      var ok := IsScopeToken(scopes[i]);
      if !ok {
        return None;
      }
      list := list + [scopes[i]];
    }
    assert list == scopes;
    var sorted := SortScopes(list);
    var compact := Compact(sorted);
    assert forall x :: x in sorted <==> x in multiset(sorted);
    assert forall x :: x in scopes <==> x in multiset(scopes);
    assert forall x :: x in compact <==> x in Elements(compact);
    SortedIsUnique(compact, Sorted(Elements(scopes)));
    r := Some(compact);
  }

  // ----- The cache key -----

  function Join(xs: seq<string>): string {
    if xs == [] then "" else if |xs| == 1 then xs[0] else Join(xs[..|xs| - 1]) + [' '] + xs[|xs| - 1]
  }

  /** Unicode white space, as strings.Fields sees it. */
  predicate IsSpace(c: char) {
    '\U{9}' <= c <= '\U{d}' || c == ' ' || c == '\U{85}' || c == '\U{a0}' || c == '\U{1680}'
    || '\U{2000}' <= c <= '\U{200a}' || c == '\U{2028}' || c == '\U{2029}' || c == '\U{202f}'
    || c == '\U{205f}' || c == '\U{3000}'
  }

  function Fields(s: string): seq<string> {
    Runs(s, c => !IsSpace(c))
  }

  /** Any white space separates, the ASCII kinds and the others Unicode knows; a text
      without any is one field. */
  lemma FieldsOfText(a: string, c: char, b: string)
    requires c in "\t\n\U{b}\U{c}\r " || c in "\U{85}\U{a0}\U{1680}\U{2028}\U{2029}\U{202f}\U{205f}\U{3000}"
      || 0x2000 <= c as int <= 0x200a
    ensures Fields(a + [c] + b) == Fields(a) + Fields(b)
    ensures a != "" && (forall i :: 0 <= i < |a| ==> '!' <= a[i] <= '~') ==> Fields(a) == [a]
  {
    var p := c => !IsSpace(c);
    assert IsSpace(c);
    RunsOfJoined(a, c, b, p);
    if a != "" && forall i :: 0 <= i < |a| ==> '!' <= a[i] <= '~' {
      WholeRun(a, p);
    }
  }

  /** Splitting a joined list gives the list back. */
  lemma {:induction false} FieldsOfJoin(xs: seq<string>)
    requires forall i :: 0 <= i < |xs| ==> ScopeToken(xs[i])
    ensures Fields(Join(xs)) == xs
  {
    var p := c => !IsSpace(c);
    if xs == [] {
      WholeRun("", p);
    } else {
      var front, last := xs[..|xs| - 1], xs[|xs| - 1];
      assert forall i :: 0 <= i < |last| ==> ScopeChar(last[i]) && p(last[i]);
      WholeRun(last, p);
      if |xs| > 1 {
        FieldsOfJoin(front);
        RunsOfJoined(Join(front), ' ', last, p);
        assert xs == front + [last];
      } else {
        assert xs == [last];
      }
    }
  }

  ghost function KeyOf(scopes: seq<string>): string
    requires Acceptable(scopes)
  {
    Join(Sorted(Elements(scopes)))
  }

  lemma KeyRecoversSet(scopes: seq<string>)
    requires Acceptable(scopes)
    ensures Elements(Fields(KeyOf(scopes))) == Elements(scopes)
    ensures KeyOf(scopes) != ""
  {
    var xs := Sorted(Elements(scopes));
    forall i | 0 <= i < |xs| ensures ScopeToken(xs[i]) {
      assert xs[i] in xs;
    }
    FieldsOfJoin(xs);
    assert scopes[0] in xs;
    assert Fields("") == [] by { WholeRun("", c => !IsSpace(c)); }
  }

  /** Sort, drop repeats, join: one key per scope set, and no two sets share one. */
  lemma SameKeyIffSameSet(a: seq<string>, b: seq<string>)
    requires Acceptable(a) && Acceptable(b)
    ensures KeyOf(a) == KeyOf(b) <==> Elements(a) == Elements(b)
  {
    KeyRecoversSet(a);
    KeyRecoversSet(b);
  }

  // ----- The bounded cache -----

  const MAX_SETS := 16

  /** Entry numbers by key, the keys by last use (oldest first), and the next number. */
  datatype Cache = Cache(slots: map<string, nat>, order: seq<string>, next: nat)

  ghost predicate Coherent(c: Cache) {
    NoDuplicates(c.order) && Elements(c.order) == c.slots.Keys && |c.order| <= MAX_SETS
    && forall k :: k in c.slots ==> c.slots[k] < c.next
  }

  function Lookup(c: Cache, key: string): Cache {
    var order := Use(c.order, key, MAX_SETS);
    if key in c.slots then c.(order := order)
    else if |c.order| >= MAX_SETS then Cache((c.slots - {c.order[0]})[key := c.next], order, c.next + 1)
    else Cache(c.slots[key := c.next], order, c.next + 1)
  }

  function Cleared(c: Cache): Cache {
    c.(slots := map[], order := [])
  }

  lemma LookupKeepsCoherent(c: Cache, key: string)
    requires Coherent(c)
    ensures Coherent(Lookup(c, key)) && key in Lookup(c, key).slots
  {
    var d := Lookup(c, key);
    if key in c.slots {
      assert key in c.order;
      WithoutKeepsDistinct(c.order, key);
      WithoutMembers(c.order, key);
      WithoutLength(c.order, key);
      DistinctAppend(Without(c.order, key), key);
    } else {
      assert key !in c.order;
      if |c.order| >= MAX_SETS {
        var rest := c.order[1..];
        assert c.order == [c.order[0]] + rest;
        DistinctPart([c.order[0]], rest);
        assert c.order[0] !in rest;
        DistinctAppend(rest, key);
      } else {
        DistinctAppend(c.order, key);
      }
    }
  }

  datatype CacheOp = Ask(key: string) | Invalidate

  ghost function CacheAfter(ops: seq<CacheOp>): Cache {
    if ops == [] then Cache(map[], [], 0)
    else
      var c := CacheAfter(ops[..|ops| - 1]);
      match ops[|ops| - 1]
      case Ask(key) => Lookup(c, key)
      case Invalidate => Cleared(c)
  }

  /** The keys asked for since the last invalidation. */
  function Asked(ops: seq<CacheOp>): seq<string> {
    if ops == [] then []
    else
      match ops[|ops| - 1]
      case Ask(key) => Asked(ops[..|ops| - 1]) + [key]
      case Invalidate => []
  }

  lemma {:induction false} CacheIsRecencyList(ops: seq<CacheOp>)
    ensures Coherent(CacheAfter(ops)) && CacheAfter(ops).order == UseAll(Asked(ops), MAX_SETS)
  {
    if ops != [] {
      CacheIsRecencyList(ops[..|ops| - 1]);
      var c := CacheAfter(ops[..|ops| - 1]);
      if ops[|ops| - 1].Ask? {
        var key := ops[|ops| - 1].key;
        LookupKeepsCoherent(c, key);
        var asked := Asked(ops);
        assert asked[..|asked| - 1] == Asked(ops[..|ops| - 1]);
      }
    }
  }

  /** After any history the cache holds exactly the sets asked for since the last
      invalidation that fewer than 16 other sets have been asked for since. */
  lemma HoldsSixteenMostRecent(ops: seq<CacheOp>, key: string)
    ensures key in CacheAfter(ops).slots
      <==> key in Asked(ops) && UsedSince(Asked(ops), key) < 16
    ensures |CacheAfter(ops).slots| <= 16
  {
    CacheIsRecencyList(ops);
    CacheHoldsMostRecent(Asked(ops), MAX_SETS, key);
    NoDuplicatesSize(CacheAfter(ops).order);
    assert key in CacheAfter(ops).slots <==> key in Elements(CacheAfter(ops).order);
  }

  // ----- The cache as the client keeps it: a map, ticks, and a scan for the oldest -----

  datatype Slot = Slot(entry: nat, lastUsed: nat)

  ghost predicate InTickOrder(order: seq<string>, scoped: map<string, Slot>, tick: nat) {
    && (forall i :: 0 <= i < |order| ==> order[i] in scoped && scoped[order[i]].lastUsed <= tick)
    && (forall i, j :: 0 <= i < j < |order| ==>
      order[i] in scoped && order[j] in scoped && scoped[order[i]].lastUsed < scoped[order[j]].lastUsed)
  }

  lemma {:induction false} WithoutKeepsTickOrder(order: seq<string>, scoped: map<string, Slot>, tick: nat, x: string)
    requires InTickOrder(order, scoped, tick)
    ensures InTickOrder(Without(order, x), scoped, tick)
  {
    if order != [] {
      var front, last := order[..|order| - 1], order[|order| - 1];
      WithoutKeepsTickOrder(front, scoped, tick, x);
      WithoutMembers(front, x);
      var w := Without(front, x);
      forall i | 0 <= i < |w| ensures last in scoped && scoped[w[i]].lastUsed < scoped[last].lastUsed {
        assert w[i] in front;
      }
    }
  }

  lemma ReusedKeepsTickOrder(order: seq<string>, scoped: map<string, Slot>, tick: nat, key: string, slot: Slot)
    requires InTickOrder(order, scoped, tick) && key !in order && slot.lastUsed == tick + 1
    ensures InTickOrder(order + [key], scoped[key := slot], tick + 1)
  {
  }

  ghost predicate ValidSlots(scoped: map<string, Slot>, order: seq<string>, next: nat, tick: nat) {
    Coherent(ViewOf(scoped, order, next)) && "" !in scoped && InTickOrder(order, scoped, tick)
  }

  ghost function ViewOf(scoped: map<string, Slot>, order: seq<string>, next: nat): Cache {
    Cache(map k | k in scoped :: scoped[k].entry, order, next)
  }

  lemma HitRefines(scoped: map<string, Slot>, order: seq<string>, next: nat, tick: nat, key: string)
    requires ValidSlots(scoped, order, next, tick) && key in scoped
    ensures var d := scoped[key := scoped[key].(lastUsed := tick + 1)];
      var order' := Without(order, key) + [key];
      ValidSlots(d, order', next, tick + 1)
      && ViewOf(d, order', next) == Lookup(ViewOf(scoped, order, next), key)
  {
    hide Without;
    LookupKeepsCoherent(ViewOf(scoped, order, next), key);
    assert key in Elements(order);
    WithoutMembers(order, key);
    WithoutKeepsTickOrder(order, scoped, tick, key);
    ReusedKeepsTickOrder(Without(order, key), scoped, tick, key, scoped[key].(lastUsed := tick + 1));
    var d := scoped[key := scoped[key].(lastUsed := tick + 1)];
    assert ViewOf(d, order, next).slots == ViewOf(scoped, order, next).slots;
  }

  lemma MissRefines(scoped: map<string, Slot>, order: seq<string>, next: nat, tick: nat, key: string)
    requires ValidSlots(scoped, order, next, tick) && key !in scoped && key != "" && |order| < MAX_SETS
    ensures var d, order' := scoped[key := Slot(next, tick + 1)], order + [key];
      ValidSlots(d, order', next + 1, tick + 1)
      && ViewOf(d, order', next + 1) == Lookup(ViewOf(scoped, order, next), key)
  {
    LookupKeepsCoherent(ViewOf(scoped, order, next), key);
    assert key !in Elements(order);
    ReusedKeepsTickOrder(order, scoped, tick, key, Slot(next, tick + 1));
    var d := scoped[key := Slot(next, tick + 1)];
    assert ViewOf(d, order, next).slots == ViewOf(scoped, order, next).slots[key := next];
  }

  /** Dropping the oldest first, then adding, is what a full cache does. */
  lemma EvictionRefines(scoped: map<string, Slot>, order: seq<string>, next: nat, tick: nat, key: string)
    requires ValidSlots(scoped, order, next, tick) && key !in scoped && |order| == MAX_SETS
    ensures var d, order' := scoped - {order[0]}, order[1..];
      ValidSlots(d, order', next, tick) && |order'| < MAX_SETS
      && Lookup(ViewOf(d, order', next), key) == Lookup(ViewOf(scoped, order, next), key)
  {
    hide InTickOrder, Without;
    var oldest, rest := order[0], order[1..];
    var d := scoped - {oldest};
    RestElements(order);
    RestInTickOrder(order, scoped, tick);
    assert key !in Elements(order) && key !in Elements(rest);
    assert Elements(rest) == d.Keys;
    assert ViewOf(d, rest, next).slots == ViewOf(scoped, order, next).slots - {oldest};
    assert key !in order && key !in rest;
  }

  lemma RestElements(order: seq<string>)
    requires NoDuplicates(order) && order != []
    ensures NoDuplicates(order[1..]) && Elements(order[1..]) == Elements(order) - {order[0]}
  {
    assert order == [order[0]] + order[1..];
    assert order[0] !in order[1..];
  }

  lemma RestInTickOrder(order: seq<string>, scoped: map<string, Slot>, tick: nat)
    requires InTickOrder(order, scoped, tick) && order != []
    ensures InTickOrder(order[1..], scoped - {order[0]}, tick)
  {
  }

  lemma SizeIs(scoped: map<string, Slot>, order: seq<string>, next: nat, tick: nat)
    requires ValidSlots(scoped, order, next, tick)
    ensures |order| == |scoped| <= MAX_SETS
    ensures ViewOf(scoped, order, next).slots.Keys == scoped.Keys
    ensures forall k :: k in scoped ==> ViewOf(scoped, order, next).slots[k] == scoped[k].entry
  {
    NoDuplicatesSize(order);
    assert Elements(order) == scoped.Keys;
  }

  class ScopedCache {
    var scoped: map<string, Slot>
    var tick: nat
    var next: nat
    ghost var order: seq<string>

    ghost predicate Valid()
      reads this
    {
      ValidSlots(scoped, order, next, tick)
    }

    ghost function View(): Cache
      reads this
    {
      ViewOf(scoped, order, next)
    }

    constructor ()
      ensures Valid() && View() == CacheAfter([])
    {
      scoped, tick, next, order := map[], 0, 0, [];
    }

    /** The key with the smallest tick, whatever order the map is visited in. */
    method Oldest() returns (oldest: string)
      requires tick > 0 && ValidSlots(scoped, order, next, tick - 1) && scoped != map[]
      ensures order != [] && oldest == order[0]
    {
      oldest := "";
      var oldestTick, rest := 0, scoped.Keys;
      while rest != {}
        invariant rest <= scoped.Keys && (oldest == "" ==> rest == scoped.Keys)
        invariant oldest != "" ==> oldest in scoped && scoped[oldest].lastUsed == oldestTick
        invariant oldest != "" ==> forall k :: k in scoped.Keys - rest ==> oldestTick <= scoped[k].lastUsed
        decreases rest
      {
        var k :| k in rest;
        if oldest == "" || scoped[k].lastUsed < oldestTick {
          oldest, oldestTick := k, scoped[k].lastUsed;
        }
        rest := rest - {k};
      }
      SizeIs(scoped, order, next, tick - 1);
      assert oldest in Elements(order);
      ghost var i :| 0 <= i < |order| && order[i] == oldest;
      assert order[0] in scoped.Keys - {} && scoped[order[i]].lastUsed <= scoped[order[0]].lastUsed;
    }

    method ScopedEntry(key: string) returns (entry: nat)
      requires Valid() && key != ""
      modifies this
      ensures Valid() && View() == Lookup(old(View()), key)
      ensures key in View().slots && entry == View().slots[key]
    {
      hide ValidSlots, ViewOf, Lookup, Use, Without;
      SizeIs(scoped, order, next, tick);
      tick := tick + 1;
      if key in scoped {
        HitRefines(scoped, order, next, tick - 1, key);
        scoped := scoped[key := scoped[key].(lastUsed := tick)];
        order := Without(order, key) + [key];
        SizeIs(scoped, order, next, tick);
        return scoped[key].entry;
      }
      if |scoped| >= MAX_SETS {
        EvictionRefines(scoped, order, next, tick - 1, key);
        var oldest := Oldest();
        scoped := scoped - {oldest};
        order := order[1..];
      }
      MissRefines(scoped, order, next, tick - 1, key);
      entry := next;
      scoped := scoped[key := Slot(entry, tick)];
      order := order + [key];
      next := next + 1;
      SizeIs(scoped, order, next, tick);
    }

    method Invalidate()
      requires Valid()
      modifies this
      ensures Valid() && View() == Cleared(old(View()))
    {
      scoped, order := map[], [];
    }
  }
}
