/** Laws of the checker that hold at every depth of a document. */
module MatchLaws {
  import opened Text
  import opened Fixture
  import opened Matcher

  // ----- No key is ever missed -----

  /** The part of the fixture that spells out a position. */
  function TmplAt(m: Rules, path: string, w: Tmpl, pos: seq<Step>): Option<Tmpl>
    decreases |pos|
  {
    if pos == [] then
      Some(w)
    else
      match pos[0]
      case Field(k) =>
        if w.TObj? && k in Expected(Namespace(m.p), w.entries)
        then TmplAt(m, Join(path, k), Expected(Namespace(m.p), w.entries)[k], pos[1..])
        else None
      case Element(i) =>
        if w.TArr? && IsKeyList(m, path, w.items) then TmplAt(m, Item(path, i), w.items[0], pos[1..])
        else if w.TArr? && i < AudienceAt(w.items) then TmplAt(m, Item(path, i), w.items[i], pos[1..])
        else None
  }

  /** Wherever the fixture spells out an object, a document without errors has
      there an object with exactly its keys, if it has that position at all; and
      it has every position that does not pass through the list of keys. So a key
      added to or removed from such an object is always reported. */
  lemma {:induction false} KeysAreExactAtEveryDepth(m: Rules, path: string, w: Tmpl, g: Json, pos: seq<Step>)
    requires Errors(m, path, w, g) == []
    requires TmplAt(m, path, w, pos).Some? && TmplAt(m, path, w, pos).value.TObj?
    ensures DocAt(g, pos).Some? ==>
      && DocAt(g, pos).value.Obj?
      && DocAt(g, pos).value.fields.Keys == Expected(Namespace(m.p), TmplAt(m, path, w, pos).value.entries).Keys
    ensures !m.jwks ==> DocAt(g, pos).Some?
  {
    hide *;
    NoErrorsIffConforms(m, path, w, g);
    ConformsAt(m, path, w, g, pos);
  }

  lemma {:induction false} ConformsAt(m: Rules, path: string, w: Tmpl, g: Json, pos: seq<Step>)
    requires Conforms(m, path, w, g)
    requires TmplAt(m, path, w, pos).Some? && TmplAt(m, path, w, pos).value.TObj?
    ensures DocAt(g, pos).Some? ==>
      && DocAt(g, pos).value.Obj?
      && DocAt(g, pos).value.fields.Keys == Expected(Namespace(m.p), TmplAt(m, path, w, pos).value.entries).Keys
    ensures DocAt(g, pos).Some? ==>
      var fields := DocAt(g, pos).value.fields;
      TimesInOrder(Number(Lookup(fields, "iat")), Number(Lookup(fields, "exp")))
    ensures !m.jwks ==> DocAt(g, pos).Some?
    decreases |pos|
  {
    hide Expected;
    hide Parse;
    hide Satisfies;
    if pos != [] {
      match pos[0]
      case Field(k) => ConformsAt(m, Join(path, k), Expected(Namespace(m.p), w.entries)[k], g.fields[k], pos[1..]);
      case Element(i) =>
        if i < |g.items| {
          var item := if IsKeyList(m, path, w.items) then w.items[0] else w.items[i];
          ConformsAt(m, Item(path, i), item, g.items[i], pos[1..]);
        }
    }
  }

  /** And where such an object carries both times as numbers, exp is after iat. */
  lemma {:induction false} TimesAreOrderedAtEveryDepth(m: Rules, path: string, w: Tmpl, g: Json, pos: seq<Step>,
                                                       iat: real, exp: real)
    requires Errors(m, path, w, g) == []
    requires TmplAt(m, path, w, pos).Some? && TmplAt(m, path, w, pos).value.TObj?
    requires DocAt(g, pos + [Field("iat")]) == Some(Num(iat)) && DocAt(g, pos + [Field("exp")]) == Some(Num(exp))
    ensures iat < exp
  {
    NoErrorsIffConforms(m, path, w, g);
    DocAtField(g, pos, "iat");
    DocAtField(g, pos, "exp");
    hide Errors, Conforms, TmplAt;
    ConformsAt(m, path, w, g, pos);
  }

  lemma {:induction false} DocAtField(g: Json, pos: seq<Step>, k: string)
    requires DocAt(g, pos + [Field(k)]).Some?
    ensures DocAt(g, pos).Some?
    ensures var d := DocAt(g, pos).value; d.Obj? && k in d.fields && DocAt(g, pos + [Field(k)]) == Some(d.fields[k])
  {
    var all := pos + [Field(k)];
    if pos == [] {
      assert all[1..] == [];
    } else {
      assert all[0] == pos[0] && all[1..] == pos[1..] + [Field(k)];
      match pos[0]
      case Field(n) => DocAtField(g.fields[n], pos[1..], k);
      case Element(i) => DocAtField(g.items[i], pos[1..], k);
    }
  }

  // ----- The order of a fixture's entries does not matter -----

  /** t and u differ only in the order of object entries. */
  ghost predicate Reordered(t: Tmpl, u: Tmpl)
    decreases t, 1
  {
    match t
    case TObj(a) =>
      && u.TObj?
      && (forall i :: 0 <= i < |a| ==> HasCounterpart(a[i].0, a[i].1, u.entries))
      && (forall j :: 0 <= j < |u.entries| ==> HasKey(a, u.entries[j].0))
    case TArr(a) => u.TArr? && |a| == |u.items| && forall i :: 0 <= i < |a| ==> Reordered(a[i], u.items[i])
    case _ => t == u
  }

  ghost predicate HasCounterpart(k: string, t: Tmpl, b: seq<(string, Tmpl)>)
    decreases t, 2
  {
    exists j :: 0 <= j < |b| && b[j].0 == k && Reordered(t, b[j].1)
  }

  ghost predicate HasKey(a: seq<(string, Tmpl)>, k: string) {
    exists i :: 0 <= i < |a| && a[i].0 == k
  }

  /** No two keys of one object expand alike. */
  predicate Distinct(ns: string, t: Tmpl) {
    match t
    case TObj(a) =>
      && (forall i, j :: 0 <= i < j < |a| ==> Rename(ns, a[i].0) != Rename(ns, a[j].0))
      && forall i :: 0 <= i < |a| ==> Distinct(ns, a[i].1)
    case TArr(a) => forall i :: 0 <= i < |a| ==> Distinct(ns, a[i])
    case _ => true
  }

  /** Match's verdict does not depend on the order in which Go visits the
      fixture's objects, as long as their keys stay distinct. */
  lemma {:induction false} OrderIndependent(m: Rules, path: string, t: Tmpl, u: Tmpl, g: Json)
    requires Reordered(t, u) && Distinct(Namespace(m.p), t) && Distinct(Namespace(m.p), u)
    ensures Errors(m, path, t, g) == [] <==> Errors(m, path, u, g) == []
  {
    hide *;
    SameConformance(m, path, t, u, g);
    NoErrorsIffConforms(m, path, t, g);
    NoErrorsIffConforms(m, path, u, g);
  }

  lemma {:induction false} SameConformance(m: Rules, path: string, t: Tmpl, u: Tmpl, g: Json)
    requires Reordered(t, u) && Distinct(Namespace(m.p), t) && Distinct(Namespace(m.p), u)
    ensures Conforms(m, path, t, g) <==> Conforms(m, path, u, g)
    decreases t, 1
  {
    match t {
      case TObj(_) => if g.Obj? { SameObject(m, path, t, u, g.fields); }
      case TArr(_) => if g.Arr? { SameArray(m, path, t, u, g.items); }
      case _ =>
    }
  }

  lemma {:induction false} SameArray(m: Rules, path: string, t: Tmpl, u: Tmpl, g: seq<Json>)
    requires t.TArr? && Reordered(t, u) && Distinct(Namespace(m.p), t) && Distinct(Namespace(m.p), u)
    ensures ArrayConforms(m, path, t, g) <==> ArrayConforms(m, path, u, g)
    decreases t, 0
  {
    hide *;
    ReorderedArray(t, u);
    DistinctArray(Namespace(m.p), t);
    DistinctArray(Namespace(m.p), u);
    ArrayConformsIs(m, path, t, g);
    ArrayConformsIs(m, path, u, g);
    AudienceAtIs(u.items, AudienceAt(t.items));
    SameKeyList(m, path, t.items, u.items);
    forall i, j | 0 <= i < |t.items| && 0 <= j < |g|
      ensures Conforms(m, Item(path, j), t.items[i], g[j]) <==> Conforms(m, Item(path, j), u.items[i], g[j])
    {
      SameConformance(m, Item(path, j), t.items[i], u.items[i], g[j]);
    }
  }

  lemma SameKeyList(m: Rules, path: string, a: seq<Tmpl>, b: seq<Tmpl>)
    requires |a| == |b|
    ensures IsKeyList(m, path, a) == IsKeyList(m, path, b)
  {
  }

  lemma ReorderedArray(t: Tmpl, u: Tmpl)
    requires t.TArr? && Reordered(t, u)
    ensures u.TArr? && |t.items| == |u.items|
    ensures forall i :: 0 <= i < |t.items| ==> Reordered(t.items[i], u.items[i])
    ensures forall i :: 0 <= i < |t.items| ==> (t.items[i] == AUDIENCE <==> u.items[i] == AUDIENCE)
  {
  }

  lemma DistinctArray(ns: string, t: Tmpl)
    requires t.TArr? && Distinct(ns, t)
    ensures forall i :: 0 <= i < |t.items| ==> Distinct(ns, t.items[i])
  {
  }

  lemma {:induction false} SameObject(m: Rules, path: string, t: Tmpl, u: Tmpl, g: map<string, Json>)
    requires t.TObj? && u.TObj? && Reordered(t, u) && Distinct(Namespace(m.p), t) && Distinct(Namespace(m.p), u)
    ensures ObjectConforms(m, path, t, g) <==> ObjectConforms(m, path, u, g)
    decreases t, 0
  {
    hide *;
    var ns := Namespace(m.p);
    SameExpected(ns, t, u);
    var e, f := Expected(ns, t.entries), Expected(ns, u.entries);
    ObjectConformsIs(m, path, t, g);
    ObjectConformsIs(m, path, u, g);
    forall k | k in e && k in g
      ensures Conforms(m, Join(path, k), e[k], g[k]) <==> Conforms(m, Join(path, k), f[k], g[k])
    {
      SameConformance(m, Join(path, k), e[k], f[k], g[k]);
    }
  }

  lemma SameExpected(ns: string, t: Tmpl, u: Tmpl)
    requires t.TObj? && u.TObj? && Reordered(t, u) && Distinct(ns, t) && Distinct(ns, u)
    ensures var e, f := Expected(ns, t.entries), Expected(ns, u.entries);
      && e.Keys == f.Keys
      && forall k :: k in e ==> Reordered(e[k], f[k]) && Distinct(ns, e[k]) && Distinct(ns, f[k])
  {
    hide *;
    forall k ensures k in Expected(ns, t.entries) <==> k in Expected(ns, u.entries) {
      if k in Expected(ns, t.entries) { SameEntry(ns, t, u, k); }
      if k in Expected(ns, u.entries) { EntryBack(ns, t, u, k); }
    }
    forall k | k in Expected(ns, t.entries)
      ensures
        && Reordered(Expected(ns, t.entries)[k], Expected(ns, u.entries)[k])
        && Distinct(ns, Expected(ns, t.entries)[k])
        && Distinct(ns, Expected(ns, u.entries)[k])
    {
      SameEntry(ns, t, u, k);
    }
  }

  lemma SameEntry(ns: string, t: Tmpl, u: Tmpl, k: string)
    requires t.TObj? && u.TObj? && Reordered(t, u) && Distinct(ns, t) && Distinct(ns, u)
    requires k in Expected(ns, t.entries)
    ensures k in Expected(ns, u.entries)
    ensures Reordered(Expected(ns, t.entries)[k], Expected(ns, u.entries)[k])
    ensures Distinct(ns, Expected(ns, t.entries)[k]) && Distinct(ns, Expected(ns, u.entries)[k])
  {
    hide *;
    var i := Winner(ns, t.entries, k);
    var j := CounterpartOf(t, u, i);
    DistinctObject(ns, t);
    DistinctObject(ns, u);
    assert Rename(ns, u.entries[j].0) == k;
    assert Winner(ns, u.entries, k) == j;
  }

  lemma CounterpartOf(t: Tmpl, u: Tmpl, i: nat) returns (j: nat)
    requires t.TObj? && u.TObj? && Reordered(t, u) && i < |t.entries|
    ensures j < |u.entries| && t.entries[i].0 == u.entries[j].0 && Reordered(t.entries[i].1, u.entries[j].1)
  {
    var k, v, b := t.entries[i].0, t.entries[i].1, u.entries;
    assert HasCounterpart(k, v, b);
    hide HasCounterpart, Reordered;
    j := Counterpart(k, v, b);
  }

  lemma Counterpart(k: string, t: Tmpl, b: seq<(string, Tmpl)>) returns (j: nat)
    requires HasCounterpart(k, t, b)
    ensures j < |b| && b[j].0 == k && Reordered(t, b[j].1)
  {
    hide Reordered;
    var i :| 0 <= i < |b| && b[i].0 == k && Reordered(t, b[i].1);
    j := i;
  }

  lemma DistinctObject(ns: string, t: Tmpl)
    requires t.TObj? && Distinct(ns, t)
    ensures forall i, j :: 0 <= i < j < |t.entries| ==> Rename(ns, t.entries[i].0) != Rename(ns, t.entries[j].0)
    ensures forall i :: 0 <= i < |t.entries| ==> Distinct(ns, t.entries[i].1)
  {
  }

  lemma EntryBack(ns: string, t: Tmpl, u: Tmpl, k: string)
    requires t.TObj? && u.TObj? && Reordered(t, u) && k in Expected(ns, u.entries)
    ensures k in Expected(ns, t.entries)
  {
    hide Expected;
    hide Winner;
    var j := Winner(ns, u.entries, k);
    assert HasKey(t.entries, u.entries[j].0);
    hide Reordered;
    var i :| 0 <= i < |t.entries| && t.entries[i].0 == u.entries[j].0;
    assert Rename(ns, t.entries[i].0) == k;
  }
}
