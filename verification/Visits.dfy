/** Go visits a map in an order of its own at every pass. Here a fixture is a tree of
    maps, a visit is one order of their entries at every depth, and the generator and
    the checker each make their own visit. */
module Visits {
  import opened Text
  import opened Fixture
  import opened Resolver
  import opened Matcher
  import opened MatchLaws

  predicate DistinctKeys(a: seq<(string, Tmpl)>) {
    forall i, j :: 0 <= i < j < |a| ==> a[i].0 != a[j].0
  }

  /** A decoded fixture: no object has a key twice. */
  predicate IsFixture(t: Tmpl) {
    match t
    case TObj(a) => DistinctKeys(a) && forall i :: 0 <= i < |a| ==> IsFixture(a[i].1)
    case TArr(a) => forall i :: 0 <= i < |a| ==> IsFixture(a[i])
    case _ => true
  }

  /** u lists the entries of t in the order of one visit. */
  ghost predicate Visit(t: Tmpl, u: Tmpl) {
    IsFixture(u) && Reordered(t, u)
  }

  /** Some visit of t resolves to out. */
  ghost predicate Produces(r: Resolver, t: Tmpl, out: Json) {
    exists u :: Visit(t, u) && Resolves(r, u, out)
  }

  /** Every visit of t accepts g. */
  ghost predicate Accepts(m: Rules, path: string, t: Tmpl, g: Json) {
    forall u :: Visit(t, u) ==> Conforms(m, path, u, g)
  }

  ghost function VisitFor(r: Resolver, t: Tmpl, out: Json): (u: Tmpl)
    requires Produces(r, t, out)
    ensures Visit(t, u) && Resolves(r, u, out)
  {
    var u :| Visit(t, u) && Resolves(r, u, out);
    u
  }

  // ----- Parts of a visit -----

  lemma {:induction false} OwnVisit(t: Tmpl)
    requires IsFixture(t)
    ensures Visit(t, t)
    decreases t
  {
    match t {
      case TObj(a) =>
        forall i | 0 <= i < |a| ensures HasCounterpart(a[i].0, a[i].1, a) {
          OwnVisit(a[i].1);
        }
        assert forall j :: 0 <= j < |a| ==> HasKey(a, a[j].0);
      case TArr(a) =>
        forall i | 0 <= i < |a| ensures Reordered(a[i], a[i]) {
          OwnVisit(a[i]);
        }
      case _ =>
    }
  }

  /** The entry of t that entry j of a visit lists. */
  lemma EntryOf(t: Tmpl, u: Tmpl, j: nat) returns (i: nat)
    requires t.TObj? && u.TObj? && Visit(t, u) && j < |u.entries|
    ensures i < |t.entries| && t.entries[i].0 == u.entries[j].0 && Visit(t.entries[i].1, u.entries[j].1)
  {
    assert HasKey(t.entries, u.entries[j].0);
    var k :| 0 <= k < |t.entries| && t.entries[k].0 == u.entries[j].0;
    i := k;
    var l := CounterpartOf(t, u, i);
    assert l == j;
  }

  /** Where a visit lists entry i of t. */
  lemma EntryIn(t: Tmpl, u: Tmpl, i: nat) returns (j: nat)
    requires t.TObj? && u.TObj? && Visit(t, u) && i < |t.entries|
    ensures j < |u.entries| && t.entries[i].0 == u.entries[j].0 && Visit(t.entries[i].1, u.entries[j].1)
  {
    j := CounterpartOf(t, u, i);
  }

  lemma VisitKinds(t: Tmpl, u: Tmpl)
    requires Visit(t, u)
    ensures t.TObj? <==> u.TObj?
    ensures t.TArr? <==> u.TArr?
    ensures !t.TObj? && !t.TArr? ==> u == t
  {
  }

  lemma {:induction false} CanResolveInVisit(p: Params, t: Tmpl, u: Tmpl)
    requires Visit(t, u)
    ensures CanResolve(p, t) <==> CanResolve(p, u)
    decreases t
  {
    match t {
      case TObj(a) =>
        forall i | 0 <= i < |a| ensures CanResolve(p, u) ==> CanResolve(p, a[i].1) {
          var j := EntryIn(t, u, i);
          CanResolveInVisit(p, a[i].1, u.entries[j].1);
        }
        forall j | 0 <= j < |u.entries| ensures CanResolve(p, t) ==> CanResolve(p, u.entries[j].1) {
          var i := EntryOf(t, u, j);
          CanResolveInVisit(p, a[i].1, u.entries[j].1);
        }
      case TArr(a) =>
        ReorderedArray(t, u);
        forall i | 0 <= i < |a| ensures CanResolve(p, a[i]) <==> CanResolve(p, u.items[i]) {
          CanResolveInVisit(p, a[i], u.items[i]);
        }
      case _ =>
    }
  }

  /** Outside the jwks fixture a verdict does not depend on where it is given. */
  lemma {:induction false} PathFree(p: Params, path: string, other: string, w: Tmpl, g: Json)
    ensures Conforms(Rules(p, false), path, w, g) <==> Conforms(Rules(p, false), other, w, g)
    decreases w, 1
  {
    match w {
      case TObj(_) => if g.Obj? { PathFreeObject(p, path, other, w, g.fields); }
      case TArr(_) => if g.Arr? { PathFreeArray(p, path, other, w, g.items); }
      case _ =>
    }
  }

  lemma {:induction false} PathFreeObject(p: Params, path: string, other: string, w: Tmpl, g: map<string, Json>)
    requires w.TObj?
    ensures ObjectConforms(Rules(p, false), path, w, g) <==> ObjectConforms(Rules(p, false), other, w, g)
    decreases w, 0
  {
    hide *;
    var m := Rules(p, false);
    var e := Expected(Namespace(p), w.entries);
    ObjectConformsIs(m, path, w, g);
    ObjectConformsIs(m, other, w, g);
    forall k | k in e && k in g
      ensures Conforms(m, Join(path, k), e[k], g[k]) <==> Conforms(m, Join(other, k), e[k], g[k])
    {
      PathFree(p, Join(path, k), Join(other, k), e[k], g[k]);
    }
  }

  lemma {:induction false} PathFreeArray(p: Params, path: string, other: string, w: Tmpl, g: seq<Json>)
    requires w.TArr?
    ensures ArrayConforms(Rules(p, false), path, w, g) <==> ArrayConforms(Rules(p, false), other, w, g)
    decreases w, 0
  {
    hide *;
    var m := Rules(p, false);
    ArrayConformsIs(m, path, w, g);
    ArrayConformsIs(m, other, w, g);
    NotKeyList(m, path, w.items);
    NotKeyList(m, other, w.items);
    forall i | 0 <= i < |w.items| && i < |g|
      ensures Conforms(m, Item(path, i), w.items[i], g[i]) <==> Conforms(m, Item(other, i), w.items[i], g[i])
    {
      PathFree(p, Item(path, i), Item(other, i), w.items[i], g[i]);
    }
  }

  lemma NotKeyList(m: Rules, path: string, items: seq<Tmpl>)
    requires !m.jwks
    ensures !IsKeyList(m, path, items)
  {
  }

  // ----- Visits that list chosen entries last -----

  function Those(a: seq<(string, Tmpl)>, s: set<string>): seq<(string, Tmpl)> {
    if a == [] then []
    else Those(a[..|a| - 1], s) + if a[|a| - 1].0 in s then [a[|a| - 1]] else []
  }

  lemma {:induction false} ThoseAre(a: seq<(string, Tmpl)>, s: set<string>)
    ensures forall e :: e in Those(a, s) <==> e in a && e.0 in s
    ensures DistinctKeys(a) ==> DistinctKeys(Those(a, s))
  {
    if a != [] {
      var front, last := a[..|a| - 1], a[|a| - 1];
      assert a == front + [last];
      ThoseAre(front, s);
      if DistinctKeys(a) && last.0 in s {
        var w := Those(front, s);
        forall i | 0 <= i < |w| ensures w[i].0 != last.0 {
          assert w[i] in front;
          var j :| 0 <= j < |front| && front[j] == w[i];
          assert a[j].0 != a[|front|].0;
        }
      }
    }
  }

  function RawKeys(a: seq<(string, Tmpl)>): set<string> {
    set i | 0 <= i < |a| :: a[i].0
  }

  /** The entries of a, those with a key in s last. */
  function Last(a: seq<(string, Tmpl)>, s: set<string>): seq<(string, Tmpl)> {
    Those(a, RawKeys(a) - s) + Those(a, s)
  }

  lemma LastAre(a: seq<(string, Tmpl)>, s: set<string>)
    requires DistinctKeys(a)
    ensures forall e :: e in Last(a, s) <==> e in a
    ensures DistinctKeys(Last(a, s))
  {
    hide Those;
    var x, y := Those(a, RawKeys(a) - s), Those(a, s);
    ThoseAre(a, RawKeys(a) - s);
    ThoseAre(a, s);
    assert forall e :: e in a ==> e.0 in RawKeys(a);
    forall i, j | 0 <= i < |x| && 0 <= j < |y| ensures x[i].0 != y[j].0 {
      assert x[i] in x && y[j] in y;
    }
  }

  lemma LaterListWins(ns: string, a: seq<(string, Tmpl)>, b: seq<(string, Tmpl)>, k: string)
    requires k in Expected(ns, b)
    ensures k in Expected(ns, a + b) && Expected(ns, a + b)[k] == Expected(ns, b)[k]
  {
    hide *;
    var w := Winner(ns, b, k);
    assert (a + b)[|a| + w] == b[w];
    forall j | |a| + w < j < |a + b| ensures Rename(ns, (a + b)[j].0) != k {
      assert (a + b)[j] == b[j - |a|];
    }
    assert Winner(ns, a + b, k) == |a| + w;
  }

  /** The last-listed entry wins, when no other entry listed last expands alike. */
  lemma LastWins(ns: string, a: seq<(string, Tmpl)>, s: set<string>, x: (string, Tmpl))
    requires DistinctKeys(a) && x in a && x.0 in s
    requires forall y :: y in a && y.0 in s && Rename(ns, y.0) == Rename(ns, x.0) ==> y == x
    ensures var e := Expected(ns, Last(a, s)); Rename(ns, x.0) in e && e[Rename(ns, x.0)] == x.1
  {
    hide Those, Expected, Winner, Rename;
    var k, b := Rename(ns, x.0), Those(a, s);
    ThoseAre(a, s);
    var i :| 0 <= i < |b| && b[i] == x;
    assert Winner(ns, b, k) >= i;
    assert b[Winner(ns, b, k)] in b;
    LaterListWins(ns, Those(a, RawKeys(a) - s), b, k);
  }

  /** t with its entries' values replaced by visits of them. */
  function With(a: seq<(string, Tmpl)>, c: seq<Tmpl>): seq<(string, Tmpl)>
    requires |c| == |a|
  {
    seq(|a|, i requires 0 <= i < |a| => (a[i].0, c[i]))
  }

  lemma LastIsVisit(t: Tmpl, c: seq<Tmpl>, s: set<string>)
    requires t.TObj? && IsFixture(t) && |c| == |t.entries|
    requires forall i :: 0 <= i < |c| ==> Visit(t.entries[i].1, c[i])
    ensures DistinctKeys(With(t.entries, c)) && Visit(t, TObj(Last(With(t.entries, c), s)))
  {
    var a, b := t.entries, With(t.entries, c);
    var u := Last(b, s);
    LastAre(b, s);
    hide Last;
    forall i | 0 <= i < |a| ensures HasCounterpart(a[i].0, a[i].1, u) {
      assert b[i] in u;
      var j :| 0 <= j < |u| && u[j] == b[i];
      assert u[j].0 == a[i].0 && Reordered(a[i].1, u[j].1);
    }
    forall j | 0 <= j < |u| ensures HasKey(a, u[j].0) && IsFixture(u[j].1) {
      assert u[j] in b;
      var i :| 0 <= i < |b| && b[i] == u[j];
      assert a[i].0 == u[j].0;
    }
  }

  // ----- What the visits of an object produce and accept -----

  ghost function Keys(p: Params, t: Tmpl): set<string>
    requires t.TObj?
  {
    Expected(Namespace(p), t.entries).Keys
  }

  lemma KeysAre(p: Params, t: Tmpl, k: string)
    requires t.TObj?
    ensures k in Keys(p, t) <==> exists i :: 0 <= i < |t.entries| && Rename(Namespace(p), t.entries[i].0) == k
  {
    hide Expected, Rename;
    var i := Winner(Namespace(p), t.entries, k);
    hide Winner;
  }

  lemma SameKeys(p: Params, t: Tmpl, u: Tmpl)
    requires t.TObj? && Visit(t, u)
    ensures u.TObj? && Keys(p, u) == Keys(p, t)
  {
    hide Keys, Rename, IsFixture;
    forall k ensures k in Keys(p, t) <==> k in Keys(p, u) {
      KeysAre(p, t, k);
      KeysAre(p, u, k);
      if i :| 0 <= i < |t.entries| && Rename(Namespace(p), t.entries[i].0) == k {
        var j := EntryIn(t, u, i);
      }
      if j :| 0 <= j < |u.entries| && Rename(Namespace(p), u.entries[j].0) == k {
        var i := EntryOf(t, u, j);
      }
    }
  }

  /** Entry i of t can give key k the value v. */
  ghost predicate Gives(r: Resolver, t: Tmpl, i: int, k: string, v: Json)
    requires t.TObj?
  {
    0 <= i < |t.entries| && Rename(Namespace(r.p), t.entries[i].0) == k && Produces(r, t.entries[i].1, v)
  }

  ghost predicate CanGive(r: Resolver, t: Tmpl, k: string, v: Json)
    requires t.TObj?
  {
    exists i :: Gives(r, t, i, k, v)
  }

  ghost predicate ProducesFields(r: Resolver, t: Tmpl, f: map<string, Json>)
    requires t.TObj?
  {
    f.Keys == Keys(r.p, t) && forall k :: k in f ==> CanGive(r, t, k, f[k])
  }

  /** In an object each key's value comes from any of the entries that expand to it. */
  lemma ProducedObject(r: Resolver, t: Tmpl, out: Json)
    requires t.TObj? && IsFixture(t) && Produces(r, t, out)
    ensures CanResolve(r.p, t) && out.Obj? && ProducesFields(r, t, out.fields)
  {
    var u := VisitFor(r, t, out);
    VisitKinds(t, u);
    CanResolveInVisit(r.p, t, u);
    SameKeys(r.p, t, u);
    var e := Expected(Namespace(r.p), u.entries);
    assert ResolvesFields(r, u.entries, out.fields);
    forall k | k in out.fields ensures CanGive(r, t, k, out.fields[k]) {
      var j := Winner(Namespace(r.p), u.entries, k);
      var i := EntryOf(t, u, j);
      hide *;
      assert Visit(t.entries[i].1, u.entries[j].1) && Resolves(r, u.entries[j].1, out.fields[k]);
      ProducesIs(r, t.entries[i].1, u.entries[j].1, out.fields[k]);
      GivesIs(r, t, i, k, out.fields[k]);
    }
  }

  lemma ProducesIs(r: Resolver, t: Tmpl, u: Tmpl, out: Json)
    requires Visit(t, u) && Resolves(r, u, out)
    ensures Produces(r, t, out)
  {
  }

  lemma GivesIs(r: Resolver, t: Tmpl, i: int, k: string, v: Json)
    requires t.TObj? && 0 <= i < |t.entries|
    requires Rename(Namespace(r.p), t.entries[i].0) == k && Produces(r, t.entries[i].1, v)
    ensures CanGive(r, t, k, v)
  {
    hide Produces, Rename;
    assert Gives(r, t, i, k, v);
  }

  ghost function Giver(r: Resolver, t: Tmpl, k: string, v: Json): (i: nat)
    requires t.TObj? && CanGive(r, t, k, v)
    ensures Gives(r, t, i, k, v)
  {
    var i :| Gives(r, t, i, k, v);
    i
  }

  /** The visit of entry i when the fields f are produced. */
  ghost function ChildVisit(r: Resolver, t: Tmpl, f: map<string, Json>, i: nat): (u: Tmpl)
    requires t.TObj? && IsFixture(t) && ProducesFields(r, t, f) && i < |t.entries|
    ensures Visit(t.entries[i].1, u)
    ensures var k := Rename(Namespace(r.p), t.entries[i].0);
      k in f && Giver(r, t, k, f[k]) == i ==> Resolves(r, u, f[k])
  {
    hide CanResolve, Resolves, Visit, Rename, Reordered;
    var k := Rename(Namespace(r.p), t.entries[i].0);
    OwnVisit(t.entries[i].1);
    if k in f && Giver(r, t, k, f[k]) == i then VisitFor(r, t.entries[i].1, f[k]) else t.entries[i].1
  }

  /** Any choice among the entries that expand alike is made by some visit. */
  lemma ProducesObject(r: Resolver, t: Tmpl, f: map<string, Json>)
    requires t.TObj? && IsFixture(t) && CanResolve(r.p, t) && ProducesFields(r, t, f)
    ensures Produces(r, t, Obj(f))
  {
    hide *;
    var c := seq(|t.entries|, i requires 0 <= i < |t.entries| => ChildVisit(r, t, f, i));
    var chosen := Chosen(r, t, f);
    LastIsVisit(t, c, chosen);
    var u := TObj(Last(With(t.entries, c), chosen));
    SameKeys(r.p, t, u);
    ProducesFieldsKeys(r, t, f);
    forall k | k in f
      ensures var e := Expected(Namespace(r.p), u.entries); k in e && Resolves(r, e[k], f[k])
    {
      ChosenWins(r, t, f, c, k);
    }
    CanResolveInVisit(r.p, t, u);
    FieldsResolve(r, u, f);
    ProducesIs(r, t, u, Obj(f));
  }

  lemma ProducesFieldsKeys(r: Resolver, t: Tmpl, f: map<string, Json>)
    requires t.TObj? && ProducesFields(r, t, f)
    ensures f.Keys == Keys(r.p, t)
  {
  }

  /** The keys of the entries that give f its values. */
  ghost function Chosen(r: Resolver, t: Tmpl, f: map<string, Json>): set<string>
    requires t.TObj? && ProducesFields(r, t, f)
  {
    set k | k in f :: t.entries[Giver(r, t, k, f[k])].0
  }

  lemma GiverExpands(r: Resolver, t: Tmpl, k: string, v: Json)
    requires t.TObj? && CanGive(r, t, k, v)
    ensures var i := Giver(r, t, k, v); i < |t.entries| && Rename(Namespace(r.p), t.entries[i].0) == k
  {
    hide Produces, Rename;
  }

  lemma ChosenIs(r: Resolver, t: Tmpl, f: map<string, Json>, name: string)
    requires t.TObj? && ProducesFields(r, t, f) && name in Chosen(r, t, f)
    ensures var k := Rename(Namespace(r.p), name); k in f && t.entries[Giver(r, t, k, f[k])].0 == name
  {
    var l :| l in f && name == t.entries[Giver(r, t, l, f[l])].0;
    GiverExpands(r, t, l, f[l]);
  }

  lemma ChosenHas(r: Resolver, t: Tmpl, f: map<string, Json>, k: string)
    requires t.TObj? && ProducesFields(r, t, f) && k in f
    ensures t.entries[Giver(r, t, k, f[k])].0 in Chosen(r, t, f)
    ensures CanGive(r, t, k, f[k])
  {
  }

  lemma ChosenWins(r: Resolver, t: Tmpl, f: map<string, Json>, c: seq<Tmpl>, k: string)
    requires t.TObj? && IsFixture(t) && ProducesFields(r, t, f) && k in f && |c| == |t.entries|
    requires forall i :: 0 <= i < |c| ==> c[i] == ChildVisit(r, t, f, i)
    ensures var e := Expected(Namespace(r.p), Last(With(t.entries, c), Chosen(r, t, f)));
      k in e && Resolves(r, e[k], f[k])
  {
    hide *;
    var ns, a, b := Namespace(r.p), t.entries, With(t.entries, c);
    WithIs(t, c);
    ChosenHas(r, t, f, k);
    GiverExpands(r, t, k, f[k]);
    var i := Giver(r, t, k, f[k]);
    forall y | y in b && y.0 in Chosen(r, t, f) && Rename(ns, y.0) == Rename(ns, b[i].0) ensures y == b[i] {
      ChosenIs(r, t, f, y.0);
      var j :| 0 <= j < |b| && b[j] == y;
      assert a[j].0 == a[i].0;
    }
    LastWins(ns, b, Chosen(r, t, f), b[i]);
  }

  lemma WithIs(t: Tmpl, c: seq<Tmpl>)
    requires t.TObj? && IsFixture(t) && |c| == |t.entries|
    ensures var b := With(t.entries, c);
      |b| == |c| && DistinctKeys(b) && forall i :: 0 <= i < |c| ==> b[i].0 == t.entries[i].0 && b[i].1 == c[i]
    ensures forall i, j :: 0 <= i < |c| && 0 <= j < |c| && t.entries[i].0 == t.entries[j].0 ==> i == j
  {
  }

  lemma FieldsResolve(r: Resolver, u: Tmpl, f: map<string, Json>)
    requires u.TObj? && CanResolve(r.p, u) && f.Keys == Keys(r.p, u)
    requires var e := Expected(Namespace(r.p), u.entries); forall k :: k in f ==> k in e && Resolves(r, e[k], f[k])
    ensures Resolves(r, u, Obj(f))
  {
  }

  // ----- What all visits accept -----

  lemma AcceptsAt(m: Rules, path: string, t: Tmpl, u: Tmpl, g: Json)
    requires Accepts(m, path, t, g) && Visit(t, u)
    ensures Conforms(m, path, u, g)
  {
  }

  lemma AcceptsIs(m: Rules, path: string, t: Tmpl, g: Json)
    requires forall u :: Visit(t, u) ==> Conforms(m, path, u, g)
    ensures Accepts(m, path, t, g)
  {
  }

  lemma AcceptsAnywhere(p: Params, path: string, other: string, t: Tmpl, g: Json)
    ensures Accepts(Rules(p, false), path, t, g) <==> Accepts(Rules(p, false), other, t, g)
  {
    hide Visit, Conforms;
    forall u ensures Conforms(Rules(p, false), path, u, g) <==> Conforms(Rules(p, false), other, u, g) {
      PathFree(p, path, other, u, g);
    }
  }

  lemma ConformsIs(m: Rules, path: string, w: Tmpl, g: Json)
    ensures w.TObj? ==> (Conforms(m, path, w, g) <==> g.Obj? && ObjectConforms(m, path, w, g.fields))
    ensures w.TArr? ==> (Conforms(m, path, w, g) <==> g.Arr? && ArrayConforms(m, path, w, g.items))
  {
  }

  ghost predicate AcceptsFields(m: Rules, path: string, t: Tmpl, g: map<string, Json>)
    requires t.TObj?
  {
    && g.Keys == Keys(m.p, t)
    && (forall i :: 0 <= i < |t.entries| ==>
      var k := Rename(Namespace(m.p), t.entries[i].0); k in g && Accepts(m, Join(path, k), t.entries[i].1, g[k]))
    && TimesInOrder(Number(Lookup(g, "iat")), Number(Lookup(g, "exp")))
  }

  /** Every visit accepts an object exactly when each value is accepted by all the
      entries that expand to its key. */
  lemma AcceptsObjectIff(m: Rules, path: string, t: Tmpl, g: Json)
    requires t.TObj? && IsFixture(t)
    ensures Accepts(m, path, t, g) <==> g.Obj? && AcceptsFields(m, path, t, g.fields)
  {
    if Accepts(m, path, t, g) {
      AcceptedObject(m, path, t, g);
    }
    if g.Obj? && AcceptsFields(m, path, t, g.fields) {
      forall u | Visit(t, u) ensures Conforms(m, path, u, g) {
        FieldsConform(m, path, t, u, g.fields);
      }
    }
  }

  lemma FieldsConform(m: Rules, path: string, t: Tmpl, u: Tmpl, g: map<string, Json>)
    requires t.TObj? && IsFixture(t) && AcceptsFields(m, path, t, g) && Visit(t, u)
    ensures Conforms(m, path, u, Obj(g))
  {
    SameKeys(m.p, t, u);
    hide Visit, Accepts, Rename, Conforms, IsFixture;
    var e := Expected(Namespace(m.p), u.entries);
    forall k | k in e ensures k in g && Conforms(m, Join(path, k), e[k], g[k]) {
      var j := Winner(Namespace(m.p), u.entries, k);
      var i := EntryOf(t, u, j);
      AcceptsAt(m, Join(path, k), t.entries[i].1, u.entries[j].1, g[k]);
    }
    ObjectConformsIs(m, path, u, g);
    ConformsIs(m, path, u, Obj(g));
  }

  lemma AcceptedObject(m: Rules, path: string, t: Tmpl, g: Json)
    requires t.TObj? && IsFixture(t) && Accepts(m, path, t, g)
    ensures g.Obj? && AcceptsFields(m, path, t, g.fields)
  {
    hide Visit, Rename, Conforms, IsFixture, Accepts;
    OwnVisit(t);
    AcceptsAt(m, path, t, t, g);
    ConformsIs(m, path, t, g);
    ObjectConformsIs(m, path, t, g.fields);
    forall i | 0 <= i < |t.entries|
      ensures var k := Rename(Namespace(m.p), t.entries[i].0);
        k in g.fields && Accepts(m, Join(path, k), t.entries[i].1, g.fields[k])
    {
      var k := Rename(Namespace(m.p), t.entries[i].0);
      KeysAre(m.p, t, k);
      forall v | Visit(t.entries[i].1, v) ensures Conforms(m, Join(path, k), v, g.fields[k]) {
        EntryVisitConforms(m, path, t, g, i, v);
      }
      AcceptsIs(m, Join(path, k), t.entries[i].1, g.fields[k]);
    }
  }

  /** A visit that lists entry i last, itself visited as v, decides by v. */
  lemma EntryVisitConforms(m: Rules, path: string, t: Tmpl, g: Json, i: nat, v: Tmpl)
    requires t.TObj? && IsFixture(t) && Accepts(m, path, t, g) && g.Obj? && g.fields.Keys == Keys(m.p, t)
    requires i < |t.entries| && Visit(t.entries[i].1, v)
    ensures var k := Rename(Namespace(m.p), t.entries[i].0);
      k in g.fields && Conforms(m, Join(path, k), v, g.fields[k])
  {
    var ns, a := Namespace(m.p), t.entries;
    var c := seq(|a|, j requires 0 <= j < |a| => if j == i then v else a[j].1);
    forall j | 0 <= j < |a| ensures Visit(a[j].1, c[j]) {
      OwnVisit(a[j].1);
    }
    WithIs(t, c);
    LastIsVisit(t, c, {a[i].0});
    hide *;
    var b := With(a, c);
    var u := TObj(Last(b, {a[i].0}));
    forall y | y in b && y.0 in {a[i].0} ensures y == b[i] {
      var j :| 0 <= j < |b| && b[j] == y;
    }
    LastWins(ns, b, {a[i].0}, b[i]);
    AcceptsAt(m, path, t, u, g);
    ConformsIs(m, path, u, g);
    ObjectConformsIs(m, path, u, g.fields);
  }

  lemma ItemVisits(t: Tmpl, u: Tmpl)
    requires t.TArr? && Visit(t, u)
    ensures u.TArr? && |u.items| == |t.items|
    ensures forall j :: 0 <= j < |t.items| ==> Visit(t.items[j], u.items[j])
    ensures forall j :: 0 <= j < |t.items| ==> (t.items[j] == AUDIENCE <==> u.items[j] == AUDIENCE)
  {
    ReorderedArray(t, u);
  }

  lemma ItemVisit(t: Tmpl, us: seq<Tmpl>)
    requires t.TArr? && |us| == |t.items| && forall j :: 0 <= j < |us| ==> Visit(t.items[j], us[j])
    ensures Visit(t, TArr(us))
  {
  }

  /** The item of t that element j is compared with, if it is compared with one. */
  function ItemFor(m: Rules, path: string, items: seq<Tmpl>, j: nat): Option<nat> {
    if IsKeyList(m, path, items) then Some(0) else if j < AudienceAt(items) then Some(j) else None
  }

  /** What an array must have whatever its items are. */
  ghost predicate ArrayFrame(m: Rules, path: string, items: seq<Tmpl>, g: seq<Json>) {
    var i := AudienceAt(items);
    if IsKeyList(m, path, items) then g != []
    else if i < |items| then i == |items| - 1 && |g| > i && AudiencesOk(m.p, g[i..])
    else |g| == |items|
  }

  lemma ArrayByItems(m: Rules, path: string, w: Tmpl, g: seq<Json>)
    requires w.TArr?
    ensures ArrayConforms(m, path, w, g) <==>
      ArrayFrame(m, path, w.items, g)
      && forall j :: 0 <= j < |g| && ItemFor(m, path, w.items, j).Some? ==>
        ItemFor(m, path, w.items, j).value < |w.items|
        && Conforms(m, Item(path, j), w.items[ItemFor(m, path, w.items, j).value], g[j])
  {
    ArrayConformsIs(m, path, w, g);
    hide Conforms, ArrayConforms, AudiencesOk;
  }

  lemma SameFrame(m: Rules, path: string, a: seq<Tmpl>, b: seq<Tmpl>)
    requires |a| == |b| && forall j :: 0 <= j < |a| ==> (a[j] == AUDIENCE <==> b[j] == AUDIENCE)
    ensures AudienceAt(a) == AudienceAt(b)
    ensures IsKeyList(m, path, a) == IsKeyList(m, path, b)
  {
    AudienceAtIs(b, AudienceAt(a));
  }

  ghost predicate AcceptsItems(m: Rules, path: string, t: Tmpl, g: seq<Json>)
    requires t.TArr?
  {
    ArrayFrame(m, path, t.items, g)
    && forall j :: 0 <= j < |g| && ItemFor(m, path, t.items, j).Some? ==>
      ItemFor(m, path, t.items, j).value < |t.items|
      && Accepts(m, Item(path, j), t.items[ItemFor(m, path, t.items, j).value], g[j])
  }

  lemma AcceptsArrayIff(m: Rules, path: string, t: Tmpl, g: Json)
    requires t.TArr? && IsFixture(t)
    ensures Accepts(m, path, t, g) <==> g.Arr? && AcceptsItems(m, path, t, g.items)
  {
    if Accepts(m, path, t, g) {
      AcceptedArray(m, path, t, g);
    }
    if g.Arr? && AcceptsItems(m, path, t, g.items) {
      forall u | Visit(t, u) ensures Conforms(m, path, u, g) {
        ItemsConform(m, path, t, u, g.items);
      }
    }
  }

  lemma ItemsConform(m: Rules, path: string, t: Tmpl, u: Tmpl, g: seq<Json>)
    requires t.TArr? && IsFixture(t) && AcceptsItems(m, path, t, g) && Visit(t, u)
    ensures Conforms(m, path, u, Arr(g))
  {
    ItemVisits(t, u);
    hide Visit, Accepts, Conforms, IsFixture;
    SameFrame(m, path, t.items, u.items);
    forall j | 0 <= j < |g| && ItemFor(m, path, u.items, j).Some?
      ensures Conforms(m, Item(path, j), u.items[ItemFor(m, path, u.items, j).value], g[j])
    {
      var i := ItemFor(m, path, t.items, j).value;
      AcceptsAt(m, Item(path, j), t.items[i], u.items[i], g[j]);
    }
    ArrayByItems(m, path, u, g);
    ConformsIs(m, path, u, Arr(g));
  }

  lemma AcceptedArray(m: Rules, path: string, t: Tmpl, g: Json)
    requires t.TArr? && IsFixture(t) && Accepts(m, path, t, g)
    ensures g.Arr? && AcceptsItems(m, path, t, g.items)
  {
    OwnVisit(t);
    hide Visit, Conforms, IsFixture, Accepts, ArrayFrame;
    AcceptsAt(m, path, t, t, g);
    ConformsIs(m, path, t, g);
    ArrayByItems(m, path, t, g.items);
    forall j | 0 <= j < |g.items| && ItemFor(m, path, t.items, j).Some?
      ensures Accepts(m, Item(path, j), t.items[ItemFor(m, path, t.items, j).value], g.items[j])
    {
      var i := ItemFor(m, path, t.items, j).value;
      forall v | Visit(t.items[i], v) ensures Conforms(m, Item(path, j), v, g.items[j]) {
        ItemVisitConforms(m, path, t, g, j, v);
      }
      AcceptsIs(m, Item(path, j), t.items[i], g.items[j]);
    }
  }

  lemma ItemVisitConforms(m: Rules, path: string, t: Tmpl, g: Json, j: nat, v: Tmpl)
    requires t.TArr? && IsFixture(t) && Accepts(m, path, t, g) && g.Arr? && j < |g.items|
    requires ItemFor(m, path, t.items, j).Some? && ItemFor(m, path, t.items, j).value < |t.items|
    requires Visit(t.items[ItemFor(m, path, t.items, j).value], v)
    ensures Conforms(m, Item(path, j), v, g.items[j])
  {
    OwnVisit(t);
    ItemVisits(t, t);
    var i := ItemFor(m, path, t.items, j).value;
    var us := t.items[i := v];
    hide Visit, Conforms, IsFixture, Accepts, ArrayFrame;
    ItemVisit(t, us);
    ItemVisits(t, TArr(us));
    SameFrame(m, path, t.items, us);
    AcceptsAt(m, path, t, TArr(us), g);
    ConformsIs(m, path, TArr(us), g);
    ArrayByItems(m, path, TArr(us), g.items);
  }

  /** Acceptance in every order, as a recursion on the template: each value against all
      the entries that expand to its key. */
  ghost predicate Takes(m: Rules, path: string, t: Tmpl, g: Json)
    decreases t
  {
    match t
    case TObj(entries) =>
      g.Obj? && g.fields.Keys == Keys(m.p, t)
      && (forall i :: 0 <= i < |entries| ==>
        var k := Rename(Namespace(m.p), entries[i].0);
        k in g.fields && Takes(m, Join(path, k), entries[i].1, g.fields[k]))
      && TimesInOrder(Number(Lookup(g.fields, "iat")), Number(Lookup(g.fields, "exp")))
    case TArr(items) =>
      g.Arr? && ArrayFrame(m, path, items, g.items)
      && forall j :: 0 <= j < |g.items| && ItemFor(m, path, items, j).Some? ==>
        ItemFor(m, path, items, j).value < |items|
        && Takes(m, Item(path, j), items[ItemFor(m, path, items, j).value], g.items[j])
    case _ => Conforms(m, path, t, g)
  }

  lemma TakesObject(m: Rules, path: string, t: Tmpl, g: Json)
    requires t.TObj?
    ensures Takes(m, path, t, g) <==>
      && g.Obj? && g.fields.Keys == Keys(m.p, t)
      && (forall i :: 0 <= i < |t.entries| ==>
        var k := Rename(Namespace(m.p), t.entries[i].0);
        k in g.fields && Takes(m, Join(path, k), t.entries[i].1, g.fields[k]))
      && TimesInOrder(Number(Lookup(g.fields, "iat")), Number(Lookup(g.fields, "exp")))
  {
  }

  lemma ItemsTakenIff(m: Rules, path: string, t: Tmpl, g: Json)
    requires t.TArr? && IsFixture(t)
    requires g.Arr? ==> forall i, j :: 0 <= i < |t.items| && 0 <= j < |g.items| ==>
      (Accepts(m, Item(path, j), t.items[i], g.items[j]) <==> Takes(m, Item(path, j), t.items[i], g.items[j]))
    ensures Accepts(m, path, t, g) <==> Takes(m, path, t, g)
  {
    AcceptsArrayIff(m, path, t, g);
    hide Accepts, Conforms, ArrayFrame, IsFixture;
  }

  lemma {:induction false} TakesIff(m: Rules, path: string, t: Tmpl, g: Json)
    requires IsFixture(t)
    ensures Accepts(m, path, t, g) <==> Takes(m, path, t, g)
    decreases t
  {
    match t {
      case TObj(entries) =>
        AcceptsObjectIff(m, path, t, g);
        TakesObject(m, path, t, g);
        hide Accepts, Takes, Rename, Keys, Lookup;
        if g.Obj? {
          forall i | 0 <= i < |entries| && Rename(Namespace(m.p), entries[i].0) in g.fields
            ensures var k := Rename(Namespace(m.p), entries[i].0);
              Accepts(m, Join(path, k), entries[i].1, g.fields[k])
              <==> Takes(m, Join(path, k), entries[i].1, g.fields[k])
          {
            var k := Rename(Namespace(m.p), entries[i].0);
            TakesIff(m, Join(path, k), entries[i].1, g.fields[k]);
          }
        }
      case TArr(items) =>
        if g.Arr? {
          forall i, j | 0 <= i < |items| && 0 <= j < |g.items|
            ensures Accepts(m, Item(path, j), items[i], g.items[j]) <==> Takes(m, Item(path, j), items[i], g.items[j])
          {
            TakesIff(m, Item(path, j), items[i], g.items[j]);
          }
        }
        ItemsTakenIff(m, path, t, g);
      case _ =>
        VisitKinds(t, t);
        assert Visit(t, t);
    }
  }
}
