/** The round trip of the jwks fixture: one template, filled once per key, and the
    checker that compares every published key with it. */
module KeyDocuments {
  import opened Text
  import opened Fixture
  import opened Resolver
  import opened Matcher
  import opened Visits
  import opened Placeholders

  // ----- The exact condition -----

  /** Each published value conforms to the template its name stands for, and the names
      are those the template expects. */
  ghost predicate KeyOk(p: Params, path: string, k: Key, entries: seq<(string, Tmpl)>) {
    var e, f := Expected(Namespace(p), entries), KeyFields(k, entries);
    && e.Keys == RawKeys(entries)
    && (forall i :: 0 <= i < |entries| ==>
      entries[i].0 in e
      && Conforms(Rules(p, true), Join(path, entries[i].0), e[entries[i].0], FillKey(k, entries[i].1)))
    && TimesInOrder(Number(Lookup(f, "iat")), Number(Lookup(f, "exp")))
  }

  /** The list of keys stands alone in the document, and each key passes. Should another
      entry expand to "keys" and win, its template must take the list as it is. */
  ghost predicate DocumentOk(p: Params, doc: seq<(string, Tmpl)>)
    requires CanPublish(p, doc)
  {
    var e, entries := Expected(Namespace(p), doc), KeyTemplate(doc).value;
    && e.Keys == {"keys"}
    && if e["keys"] == TArr([TObj(entries)])
      then forall i :: 0 <= i < |p.keys| ==> KeyOk(p, Item("keys", i), p.keys[i], entries)
      else Conforms(Rules(p, true), "keys", e["keys"], Arr(PublishedKeys(p, entries)))
  }

  // ----- One key -----

  lemma {:induction false} KeyFieldsAre(k: Key, entries: seq<(string, Tmpl)>)
    requires DistinctKeys(entries)
    ensures var f := KeyFields(k, entries);
      f.Keys == RawKeys(entries)
      && forall i :: 0 <= i < |entries| ==> entries[i].0 in f && f[entries[i].0] == FillKey(k, entries[i].1)
  {
    if entries != [] {
      var front, last := entries[..|entries| - 1], entries[|entries| - 1];
      assert forall i :: 0 <= i < |front| ==> front[i] == entries[i];
      KeyFieldsAre(k, front);
      hide FillKey, KeyFields;
      RawKeysStep(entries);
      KeyFieldsStep(k, front, last);
      assert entries == front + [last];
    }
  }

  lemma KeyFieldsStep(k: Key, front: seq<(string, Tmpl)>, last: (string, Tmpl))
    ensures KeyFields(k, front + [last]) == KeyFields(k, front)[last.0 := FillKey(k, last.1)]
  {
    assert (front + [last])[..|front|] == front;
  }

  lemma RawKeysStep(entries: seq<(string, Tmpl)>)
    requires entries != []
    ensures RawKeys(entries) == RawKeys(entries[..|entries| - 1]) + {entries[|entries| - 1].0}
  {
    var front := entries[..|entries| - 1];
    assert forall i :: 0 <= i < |front| ==> front[i] == entries[i];
    forall n | n in RawKeys(entries) ensures n in RawKeys(front) + {entries[|front|].0} {
      var i :| 0 <= i < |entries| && entries[i].0 == n;
      if i < |front| {
        assert front[i].0 == n;
      }
    }
    forall n | n in RawKeys(front) ensures n in RawKeys(entries) {
      var i :| 0 <= i < |front| && front[i].0 == n;
      assert entries[i].0 == n;
    }
  }

  lemma KeyRoundTrip(p: Params, path: string, k: Key, entries: seq<(string, Tmpl)>)
    requires DistinctKeys(entries)
    ensures Conforms(Rules(p, true), path, TObj(entries), Obj(KeyFields(k, entries))) <==> KeyOk(p, path, k, entries)
  {
    var m, f := Rules(p, true), KeyFields(k, entries);
    var e := Expected(Namespace(p), entries);
    KeyFieldsAre(k, entries);
    ConformsIs(m, path, TObj(entries), Obj(f));
    ObjectConformsIs(m, path, TObj(entries), f);
    hide Conforms, FillKey, Expected, KeyFields, DistinctKeys, ObjectConforms, Winner, Lookup, TimesInOrder;
    forall n | n in f ensures exists i :: 0 <= i < |entries| && entries[i].0 == n {
    }
  }

  // ----- The document -----

  lemma {:induction false} KeyTemplateIs(doc: seq<(string, Tmpl)>)
    requires KeyTemplate(doc).Some? && KeyTemplate(doc).value != []
    ensures exists i :: 0 <= i < |doc| && doc[i] == ("keys", TArr([TObj(KeyTemplate(doc).value)]))
  {
    if doc[|doc| - 1].0 == "keys" {
      var t := doc[|doc| - 1].1;
      assert t.items == [t.items[0]];
      assert doc[|doc| - 1] == ("keys", TArr([TObj(KeyTemplate(doc).value)]));
    } else {
      var front := doc[..|doc| - 1];
      KeyTemplateIs(front);
      var i :| 0 <= i < |front| && front[i] == ("keys", TArr([TObj(KeyTemplate(front).value)]));
      assert doc[i] == front[i];
    }
  }

  /** Where the key template stands in a document that can be published. */
  lemma KeysEntry(p: Params, doc: seq<(string, Tmpl)>) returns (i: nat)
    requires CanPublish(p, doc)
    ensures i < |doc| && doc[i] == ("keys", TArr([TObj(KeyTemplate(doc).value)]))
  {
    assert UsableKey(p.keys[0], KeyTemplate(doc).value);
    KeyTemplateIs(doc);
    var n :| 0 <= n < |doc| && doc[n] == ("keys", TArr([TObj(KeyTemplate(doc).value)]));
    i := n;
  }

  /** The one entry named keys, the template in it, and what is published. */
  lemma KeysAt(p: Params, doc: seq<(string, Tmpl)>) returns (at: nat)
    requires CanPublish(p, doc) && IsFixture(TObj(doc))
    ensures at < |doc| && KeyTemplate(doc).Some? && |p.keys| > 0
    ensures doc[at] == ("keys", TArr([TObj(KeyTemplate(doc).value)]))
    ensures forall i :: 0 <= i < |doc| && doc[i].0 == "keys" ==> i == at
    ensures Published(p, doc) == Obj(map["keys" := Arr(PublishedKeys(p, KeyTemplate(doc).value))])
  {
    at := KeysEntry(p, doc);
    assert DistinctKeys(doc);
    hide KeyTemplate, PublishedKeys;
  }

  lemma TemplateEntries(p: Params, doc: seq<(string, Tmpl)>)
    requires CanPublish(p, doc) && IsFixture(TObj(doc))
    ensures DistinctKeys(KeyTemplate(doc).value)
  {
    assert UsableKey(p.keys[0], KeyTemplate(doc).value);
    KeyTemplateIs(doc);
    var entries := KeyTemplate(doc).value;
    var i :| 0 <= i < |doc| && doc[i] == ("keys", TArr([TObj(entries)]));
    assert IsFixture(doc[i].1) && IsFixture(doc[i].1.items[0]);
  }

  lemma ListRoundTrip(p: Params, entries: seq<(string, Tmpl)>)
    requires DistinctKeys(entries) && |p.keys| > 0
    ensures Conforms(Rules(p, true), "keys", TArr([TObj(entries)]), Arr(PublishedKeys(p, entries)))
      <==> forall i :: 0 <= i < |p.keys| ==> KeyOk(p, Item("keys", i), p.keys[i], entries)
  {
    var m, t, g := Rules(p, true), TArr([TObj(entries)]), PublishedKeys(p, entries);
    assert IsKeyList(m, "keys", t.items);
    assert |g| == |p.keys| && forall i :: 0 <= i < |g| ==> g[i] == Obj(KeyFields(p.keys[i], entries));
    ConformsIs(m, "keys", t, Arr(g));
    ArrayConformsIs(m, "keys", t, g);
    hide *;
    forall i | 0 <= i < |g|
      ensures Conforms(m, Item("keys", i), t.items[0], g[i]) <==> KeyOk(p, Item("keys", i), p.keys[i], entries)
    {
      KeyRoundTrip(p, Item("keys", i), p.keys[i], entries);
    }
  }

  lemma NoTimes(f: map<string, Json>)
    requires forall n :: n in f ==> !f[n].Num?
    ensures TimesInOrder(Number(Lookup(f, "iat")), Number(Lookup(f, "exp")))
  {
  }

  /** Every document resolveJWKS produces, from every fixture and all keys: the checker
      accepts it if and only if the fixture and the keys pass. */
  lemma KeyDocumentRoundTrip(p: Params, doc: seq<(string, Tmpl)>)
    requires CanPublish(p, doc) && IsFixture(TObj(doc))
    ensures Errors(Rules(p, true), "", TObj(doc), Published(p, doc)) == [] <==> DocumentOk(p, doc)
  {
    assert Join("", "keys") == "keys";
    hide *;
    var at := KeysAt(p, doc);
    var m, entries := Rules(p, true), KeyTemplate(doc).value;
    var g: map<string, Json> := map["keys" := Arr(PublishedKeys(p, entries))];
    TemplateEntries(p, doc);
    NoTimes(g);
    NoErrorsIffConforms(m, "", TObj(doc), Obj(g));
    ConformsIs(m, "", TObj(doc), Obj(g));
    ObjectConformsIs(m, "", TObj(doc), g);
    ListRoundTrip(p, entries);
    DocumentOkIs(p, doc);
    assert g.Keys == {"keys"};
  }

  lemma DocumentOkIs(p: Params, doc: seq<(string, Tmpl)>)
    requires CanPublish(p, doc)
    ensures var e, entries := Expected(Namespace(p), doc), KeyTemplate(doc).value;
      DocumentOk(p, doc) <==>
      && e.Keys == {"keys"}
      && if e["keys"] == TArr([TObj(entries)])
        then forall i :: 0 <= i < |p.keys| ==> KeyOk(p, Item("keys", i), p.keys[i], entries)
        else Conforms(Rules(p, true), "keys", e["keys"], Arr(PublishedKeys(p, entries)))
  {
    hide Expected, KeyOk, Conforms, PublishedKeys, CanPublish;
  }

  // ----- In every order -----

  lemma {:induction false} RawFieldsAre(t: Tmpl, n: nat)
    requires t.TObj? && DistinctKeys(t.entries) && n <= |t.entries|
    ensures var f := RawFields(t, n);
      f.Keys == RawKeys(t.entries[..n])
      && forall i :: 0 <= i < n ==> t.entries[i].0 in f && f[t.entries[i].0] == Raw(t.entries[i].1)
    decreases n
  {
    if n > 0 {
      RawFieldsAre(t, n - 1);
      assert t.entries[..n][..n - 1] == t.entries[..n - 1];
      RawKeysStep(t.entries[..n]);
      hide Raw, RawKeys;
    }
  }

  lemma InRawKeys(a: seq<(string, Tmpl)>, k: string)
    ensures k in RawKeys(a) <==> exists i :: 0 <= i < |a| && a[i].0 == k
  {
  }

  lemma SameRawKeys(t: Tmpl, u: Tmpl)
    requires t.TObj? && Visit(t, u)
    ensures u.TObj? && RawKeys(u.entries) == RawKeys(t.entries)
  {
    hide RawKeys, IsFixture;
    forall k ensures k in RawKeys(u.entries) <==> k in RawKeys(t.entries) {
      InRawKeys(t.entries, k);
      InRawKeys(u.entries, k);
      if i :| 0 <= i < |t.entries| && t.entries[i].0 == k {
        var j := EntryIn(t, u, i);
      }
      if j :| 0 <= j < |u.entries| && u.entries[j].0 == k {
        var i := EntryOf(t, u, j);
      }
    }
  }

  lemma VisitKeys(t: Tmpl, u: Tmpl)
    requires t.TObj? && u.TObj? && IsFixture(t) && Visit(t, u)
    ensures DistinctKeys(t.entries) && DistinctKeys(u.entries)
  {
  }

  /** A template taken as it stands is the same in every order. */
  lemma {:induction false} RawInVisit(t: Tmpl, u: Tmpl)
    requires IsFixture(t) && Visit(t, u)
    ensures Raw(t) == Raw(u)
    decreases t
  {
    match t {
      case TObj(a) =>
        forall i, j | 0 <= i < |a| && 0 <= j < |u.entries| && Visit(a[i].1, u.entries[j].1)
          ensures Raw(a[i].1) == Raw(u.entries[j].1)
        {
          RawInVisit(a[i].1, u.entries[j].1);
        }
        RawObjects(t, u);
      case TArr(a) =>
        ItemVisits(t, u);
        forall i | 0 <= i < |a| ensures Raw(a[i]) == Raw(u.items[i]) {
          RawInVisit(a[i], u.items[i]);
        }
      case _ => VisitKinds(t, u);
    }
  }

  lemma RawObjects(t: Tmpl, u: Tmpl)
    requires t.TObj? && u.TObj? && IsFixture(t) && Visit(t, u)
    requires forall i, j :: 0 <= i < |t.entries| && 0 <= j < |u.entries| && Visit(t.entries[i].1, u.entries[j].1) ==>
      Raw(t.entries[i].1) == Raw(u.entries[j].1)
    ensures Raw(t) == Raw(u)
  {
    hide *;
    VisitKeys(t, u);
    RawObjectIs(t);
    RawObjectIs(u);
    SameRawKeys(t, u);
    var f, g := Raw(t).fields, Raw(u).fields;
    forall k | k in f ensures k in g && f[k] == g[k] {
      InRawKeys(t.entries, k);
      var i :| 0 <= i < |t.entries| && t.entries[i].0 == k;
      var j := EntryIn(t, u, i);
    }
    assert f == g;
  }

  lemma RawObjectIs(t: Tmpl)
    requires t.TObj? && DistinctKeys(t.entries)
    ensures Raw(t).Obj? && Raw(t).fields.Keys == RawKeys(t.entries)
    ensures forall i :: 0 <= i < |t.entries| ==>
      t.entries[i].0 in Raw(t).fields && Raw(t).fields[t.entries[i].0] == Raw(t.entries[i].1)
  {
    RawFieldsAre(t, |t.entries|);
    assert t.entries[..|t.entries|] == t.entries;
    assert Raw(t) == Obj(RawFields(t, |t.entries|));
    hide Raw, RawFields, RawKeys, DistinctKeys;
  }

  lemma FilledInVisit(k: Key, t: Tmpl, u: Tmpl)
    requires IsFixture(t) && Visit(t, u)
    ensures FillKey(k, t) == FillKey(k, u)
  {
    RawInVisit(t, u);
    VisitKinds(t, u);
    hide Raw, Visit, IsFixture;
  }

  lemma KeyInVisit(k: Key, t: Tmpl, u: Tmpl)
    requires t.TObj? && u.TObj? && IsFixture(t) && Visit(t, u)
    ensures KeyFields(k, t.entries) == KeyFields(k, u.entries)
  {
    hide *;
    VisitKeys(t, u);
    KeyFieldsAre(k, t.entries);
    KeyFieldsAre(k, u.entries);
    SameRawKeys(t, u);
    var f, g := KeyFields(k, t.entries), KeyFields(k, u.entries);
    forall n | n in f ensures n in g && f[n] == g[n] {
      InRawKeys(t.entries, n);
      var i :| 0 <= i < |t.entries| && t.entries[i].0 == n;
      var j := FilledEntry(k, t, u, i);
    }
  }

  lemma FilledEntry(k: Key, t: Tmpl, u: Tmpl, i: nat) returns (j: nat)
    requires t.TObj? && u.TObj? && IsFixture(t) && Visit(t, u) && i < |t.entries|
    ensures j < |u.entries| && u.entries[j].0 == t.entries[i].0
    ensures FillKey(k, t.entries[i].1) == FillKey(k, u.entries[j].1)
  {
    j := EntryIn(t, u, i);
    assert IsFixture(t.entries[i].1);
    hide FillKey, Visit, IsFixture;
    FilledInVisit(k, t.entries[i].1, u.entries[j].1);
  }

  /** The key template is the value of the one entry named keys. */
  lemma {:induction false} KeyTemplateAt(doc: seq<(string, Tmpl)>, i: nat)
    requires DistinctKeys(doc) && i < |doc| && doc[i].0 == "keys"
    ensures KeyTemplate(doc) == TemplateIn(doc[i].1)
  {
    var last := |doc| - 1;
    if i < last {
      assert doc[..last][i] == doc[i];
      assert doc[last].0 != "keys";
      KeyTemplateAt(doc[..last], i);
    }
  }

  function TemplateIn(t: Tmpl): Option<seq<(string, Tmpl)>> {
    if t.TArr? && |t.items| == 1 then Some(if t.items[0].TObj? then t.items[0].entries else []) else None
  }

  /** What is published does not depend on the order in which the fixture is visited. */
  lemma PublishedInVisit(p: Params, doc: seq<(string, Tmpl)>, a: Tmpl)
    requires CanPublish(p, doc) && IsFixture(TObj(doc)) && Visit(TObj(doc), a)
    ensures a.TObj? && CanPublish(p, a.entries) && Published(p, a.entries) == Published(p, doc)
  {
    var t := TObj(doc);
    VisitKinds(t, a);
    var i := KeysEntry(p, doc);
    var j := EntryIn(t, a, i);
    ItemVisits(doc[i].1, a.entries[j].1);
    var x, y := doc[i].1.items[0], a.entries[j].1.items[0];
    VisitKinds(x, y);
    assert IsFixture(doc[i].1) && IsFixture(x) && DistinctKeys(a.entries);
    KeyTemplateAt(a.entries, j);
    assert KeyTemplate(a.entries) == Some(y.entries) && KeyTemplate(doc) == Some(x.entries);
    hide Visit, IsFixture, KeyTemplate;
    forall n | 0 <= n < |p.keys| ensures KeyFields(p.keys[n], x.entries) == KeyFields(p.keys[n], y.entries) {
      KeyInVisit(p.keys[n], x, y);
    }
    hide KeyFields;
    assert PublishedKeys(p, x.entries) == PublishedKeys(p, y.entries);
  }

  /** Entry e takes every value published under the name it stands for. */
  ghost predicate EntryProof(p: Params, path: string, k: Key, entries: seq<(string, Tmpl)>, e: (string, Tmpl)) {
    forall i :: 0 <= i < |entries| && Rename(Namespace(p), e.0) == entries[i].0 ==>
      Takes(Rules(p, true), Join(path, entries[i].0), e.1, FillKey(k, entries[i].1))
  }

  /** A key passes in every order: each published value is taken by every entry whose
      name stands for it. */
  ghost predicate KeyProof(p: Params, path: string, k: Key, entries: seq<(string, Tmpl)>) {
    var f := KeyFields(k, entries);
    && Keys(p, TObj(entries)) == RawKeys(entries)
    && (forall j :: 0 <= j < |entries| ==> EntryProof(p, path, k, entries, entries[j]))
    && TimesInOrder(Number(Lookup(f, "iat")), Number(Lookup(f, "exp")))
  }

  /** Entry e takes what is published under the name it stands for. */
  ghost predicate EntryTakes(p: Params, path: string, f: map<string, Json>, e: (string, Tmpl)) {
    var n := Rename(Namespace(p), e.0);
    n in f && Takes(Rules(p, true), Join(path, n), e.1, f[n])
  }

  lemma KeyTakes(p: Params, path: string, entries: seq<(string, Tmpl)>, f: map<string, Json>)
    ensures Takes(Rules(p, true), path, TObj(entries), Obj(f)) <==>
      && f.Keys == Keys(p, TObj(entries))
      && (forall j :: 0 <= j < |entries| ==> EntryTakes(p, path, f, entries[j]))
      && TimesInOrder(Number(Lookup(f, "iat")), Number(Lookup(f, "exp")))
  {
    TakesObject(Rules(p, true), path, TObj(entries), Obj(f));
    hide Takes, Keys, Lookup, Rename;
  }

  lemma EntryTaken(p: Params, path: string, k: Key, entries: seq<(string, Tmpl)>, f: map<string, Json>, j: nat)
    requires j < |entries| && f.Keys == RawKeys(entries) == Keys(p, TObj(entries))
    requires forall i :: 0 <= i < |entries| ==> entries[i].0 in f && f[entries[i].0] == FillKey(k, entries[i].1)
    ensures EntryTakes(p, path, f, entries[j]) <==> EntryProof(p, path, k, entries, entries[j])
  {
    hide Takes, Keys, Rename, FillKey, RawKeys;
    var n := Rename(Namespace(p), entries[j].0);
    KeysAre(p, TObj(entries), n);
    InRawKeys(entries, n);
  }

  lemma KeyProofIs(p: Params, path: string, k: Key, entries: seq<(string, Tmpl)>)
    ensures var f := KeyFields(k, entries); KeyProof(p, path, k, entries) <==>
      && Keys(p, TObj(entries)) == RawKeys(entries)
      && (forall j :: 0 <= j < |entries| ==> EntryProof(p, path, k, entries, entries[j]))
      && TimesInOrder(Number(Lookup(f, "iat")), Number(Lookup(f, "exp")))
  {
    hide KeyFields, Keys, RawKeys, EntryProof, TimesInOrder, Lookup;
  }

  lemma KeyTaken(p: Params, path: string, k: Key, entries: seq<(string, Tmpl)>)
    requires DistinctKeys(entries)
    ensures Takes(Rules(p, true), path, TObj(entries), Obj(KeyFields(k, entries))) <==> KeyProof(p, path, k, entries)
  {
    hide *;
    var f := KeyFields(k, entries);
    KeyFieldsAre(k, entries);
    KeyTakes(p, path, entries, f);
    KeyProofIs(p, path, k, entries);
    if f.Keys == Keys(p, TObj(entries)) {
      forall j | 0 <= j < |entries|
        ensures EntryTakes(p, path, f, entries[j]) <==> EntryProof(p, path, k, entries, entries[j])
      {
        EntryTaken(p, path, k, entries, f, j);
      }
    }
  }

  /** The list of keys is the whole document and each key passes in every order; any
      other entry that expands to its name must take the list too. */
  ghost predicate DocumentProof(p: Params, doc: seq<(string, Tmpl)>)
    requires CanPublish(p, doc)
  {
    var entries := KeyTemplate(doc).value;
    && Keys(p, TObj(doc)) == {"keys"}
    && (forall n :: 0 <= n < |p.keys| ==> KeyProof(p, Item("keys", n), p.keys[n], entries))
    && forall i :: 0 <= i < |doc| && doc[i].0 != "keys" ==>
      Takes(Rules(p, true), "keys", doc[i].1, Arr(PublishedKeys(p, entries)))
  }

  lemma ListTaken(p: Params, entries: seq<(string, Tmpl)>)
    requires DistinctKeys(entries) && |p.keys| > 0
    ensures Takes(Rules(p, true), "keys", TArr([TObj(entries)]), Arr(PublishedKeys(p, entries)))
      <==> forall n :: 0 <= n < |p.keys| ==> KeyProof(p, Item("keys", n), p.keys[n], entries)
  {
    var m, items, g := Rules(p, true), [TObj(entries)], PublishedKeys(p, entries);
    assert IsKeyList(m, "keys", items);
    assert |g| == |p.keys| && forall n :: 0 <= n < |g| ==> g[n] == Obj(KeyFields(p.keys[n], entries));
    ListTakes(m, items, g);
    hide *;
    forall n | 0 <= n < |g|
      ensures Takes(m, Item("keys", n), items[0], g[n]) <==> KeyProof(p, Item("keys", n), p.keys[n], entries)
    {
      KeyTaken(p, Item("keys", n), p.keys[n], entries);
    }
  }

  lemma ListTakes(m: Rules, items: seq<Tmpl>, g: seq<Json>)
    requires IsKeyList(m, "keys", items) && g != []
    ensures Takes(m, "keys", TArr(items), Arr(g)) <==>
      forall n :: 0 <= n < |g| ==> Takes(m, Item("keys", n), items[0], g[n])
  {
    assert ArrayFrame(m, "keys", items, g);
    assert forall n :: 0 <= n < |g| ==> ItemFor(m, "keys", items, n) == Some(0);
    hide ArrayFrame, ItemFor;
  }

  lemma DocumentTaken(p: Params, doc: seq<(string, Tmpl)>)
    requires CanPublish(p, doc) && IsFixture(TObj(doc))
    ensures Takes(Rules(p, true), "", TObj(doc), Published(p, doc)) <==> DocumentProof(p, doc)
  {
    hide *;
    var at := KeysAt(p, doc);
    var entries := KeyTemplate(doc).value;
    var g: map<string, Json> := map["keys" := Arr(PublishedKeys(p, entries))];
    TemplateEntries(p, doc);
    ListTaken(p, entries);
    NoTimes(g);
    KeyTakes(p, "", doc, g);
    DocumentProofIs(p, doc);
    assert g.Keys == {"keys"};
    if Keys(p, TObj(doc)) == {"keys"} {
      forall i | 0 <= i < |doc|
        ensures EntryTakes(p, "", g, doc[i]) <==> Takes(Rules(p, true), "keys", doc[i].1, g["keys"])
      {
        OnlyKeys(p, doc, g, i);
      }
    }
  }

  lemma DocumentProofIs(p: Params, doc: seq<(string, Tmpl)>)
    requires CanPublish(p, doc)
    ensures var entries := KeyTemplate(doc).value; DocumentProof(p, doc) <==>
      && Keys(p, TObj(doc)) == {"keys"}
      && (forall n :: 0 <= n < |p.keys| ==> KeyProof(p, Item("keys", n), p.keys[n], entries))
      && forall i :: 0 <= i < |doc| && doc[i].0 != "keys" ==>
        Takes(Rules(p, true), "keys", doc[i].1, Arr(PublishedKeys(p, entries)))
  {
    hide Keys, KeyProof, Takes, PublishedKeys, CanPublish;
  }

  lemma OnlyKeys(p: Params, doc: seq<(string, Tmpl)>, g: map<string, Json>, i: nat)
    requires Keys(p, TObj(doc)) == {"keys"} && g.Keys == {"keys"} && i < |doc|
    ensures EntryTakes(p, "", g, doc[i]) <==> Takes(Rules(p, true), "keys", doc[i].1, g["keys"])
  {
    hide Takes, Keys, Rename;
    KeysAre(p, TObj(doc), Rename(Namespace(p), doc[i].0));
    assert Join("", "keys") == "keys";
  }

  /** For every fixture and all keys resolveJWKS accepts: no order of the checker rejects
      the document it produces, in whatever order it was produced, if and only if every
      published value is taken by every entry whose name stands for it. */
  lemma KeyDocumentInEveryOrder(p: Params, doc: seq<(string, Tmpl)>)
    requires CanPublish(p, doc) && IsFixture(TObj(doc))
    ensures NeverRejectedKeys(p, doc) <==> DocumentProof(p, doc)
  {
    var m, t, out := Rules(p, true), TObj(doc), Published(p, doc);
    DocumentTaken(p, doc);
    TakesIff(m, "", t, out);
    OwnVisit(t);
    forall a | Visit(t, a) ensures a.TObj? && CanPublish(p, a.entries) && Published(p, a.entries) == out {
      PublishedInVisit(p, doc, a);
    }
    forall b ensures Errors(m, "", b, out) == [] <==> Conforms(m, "", b, out) {
      NoErrorsIffConforms(m, "", b, out);
    }
    hide Visit, Errors, Conforms, DocumentProof, Takes, CanPublish, Published, IsFixture;
  }

  ghost predicate NeverRejectedKeys(p: Params, doc: seq<(string, Tmpl)>) {
    forall a, b :: Visit(TObj(doc), a) && Visit(TObj(doc), b) ==>
      a.TObj? && CanPublish(p, a.entries) && Errors(Rules(p, true), "", b, Published(p, a.entries)) == []
  }

  // ----- Values the checker compares as they stand -----

  predicate PlainValue(t: Tmpl) {
    t.TNull? || t.TBool? || t.TNum? || (t.TStr? && Parse(t.s).Literal? && !Contains(t.s, ISSUER_TOKEN))
  }

  lemma KidPlaceholder()
    ensures Parse("<kid>") == Whole(KKid, "")
  {
    assert Mark(Name(KKid)) == "<kid>";
    hide *;
    ParseOfMark(KKid, "");
  }

  lemma ModulusPlaceholder()
    ensures Parse("<n>") == Whole(KModulus, "")
  {
    assert Mark(Name(KModulus)) == "<n>";
    hide *;
    ParseOfMark(KModulus, "");
  }

  /** What a value needs to conform to its own template: a key id must be a UUID, a
      modulus base64url text, a plain value nothing; a placeholder left as it stands
      must satisfy its own rule. */
  lemma FilledConformsIff(m: Rules, path: string, k: Key, t: Tmpl)
    ensures t == TStr("<kid>") ==> (Conforms(m, path, t, FillKey(k, t)) <==> IsUuid(k.id))
    ensures t == TStr("<n>") ==> (Conforms(m, path, t, FillKey(k, t)) <==> IsB64Url(k.n))
    ensures PlainValue(t) ==> Conforms(m, path, t, FillKey(k, t))
    ensures t.TStr? && t != TStr("<kid>") && t != TStr("<n>") && Parse(t.s).Whole? ==>
      (Conforms(m, path, t, FillKey(k, t)) <==> Satisfies(m.p, Parse(t.s).kind, Parse(t.s).arg, Str(t.s)))
  {
    KidPlaceholder();
    ModulusPlaceholder();
    hide Parse, IsUuid, IsB64Url;
  }

  /** Names without <ns> are expected as they stand, each with its own template. */
  lemma OwnTemplate(ns: string, entries: seq<(string, Tmpl)>)
    requires DistinctKeys(entries) && forall i :: 0 <= i < |entries| ==> !Contains(entries[i].0, NS_TOKEN)
    ensures var e := Expected(ns, entries);
      e.Keys == RawKeys(entries)
      && forall i :: 0 <= i < |entries| ==> entries[i].0 in e && e[entries[i].0] == entries[i].1
  {
    assert forall i :: 0 <= i < |entries| ==> Rename(ns, entries[i].0) == entries[i].0;
    hide Rename, Expected, Winner;
    forall i | 0 <= i < |entries| ensures Winner(ns, entries, entries[i].0) == i {
    }
  }

  /** Names as they stand, and values that are filled or plain, no times among them. */
  ghost predicate PlainTemplate(entries: seq<(string, Tmpl)>) {
    DistinctKeys(entries)
    && forall i :: 0 <= i < |entries| ==>
      !Contains(entries[i].0, NS_TOKEN) && !entries[i].1.TNum?
      && (entries[i].1 == TStr("<kid>") || entries[i].1 == TStr("<n>") || PlainValue(entries[i].1))
  }

  ghost predicate Uses(entries: seq<(string, Tmpl)>, t: Tmpl) {
    exists i :: 0 <= i < |entries| && entries[i].1 == t
  }

  ghost predicate KeyShape(k: Key, entries: seq<(string, Tmpl)>) {
    (Uses(entries, TStr("<kid>")) ==> IsUuid(k.id)) && (Uses(entries, TStr("<n>")) ==> IsB64Url(k.n))
  }

  lemma PlainEntry(k: Key, entries: seq<(string, Tmpl)>, i: nat)
    requires PlainTemplate(entries) && i < |entries|
    ensures var t := entries[i].1; t == TStr("<kid>") || t == TStr("<n>") || PlainValue(t)
    ensures !FillKey(k, entries[i].1).Num?
  {
  }

  lemma PlainValues(p: Params, path: string, k: Key, entries: seq<(string, Tmpl)>)
    requires PlainTemplate(entries)
    ensures KeyShape(k, entries) <==> forall i :: 0 <= i < |entries| ==>
      Conforms(Rules(p, true), Join(path, entries[i].0), entries[i].1, FillKey(k, entries[i].1))
  {
    hide Conforms, FillKey, IsUuid, IsB64Url, Contains, PlainTemplate, PlainValue;
    forall i | 0 <= i < |entries|
      ensures Conforms(Rules(p, true), Join(path, entries[i].0), entries[i].1, FillKey(k, entries[i].1)) <==>
        (entries[i].1 == TStr("<kid>") ==> IsUuid(k.id)) && (entries[i].1 == TStr("<n>") ==> IsB64Url(k.n))
    {
      PlainEntry(k, entries, i);
      FilledConformsIff(Rules(p, true), Join(path, entries[i].0), k, entries[i].1);
    }
  }

  lemma PlainTimes(k: Key, entries: seq<(string, Tmpl)>)
    requires PlainTemplate(entries)
    ensures var f := KeyFields(k, entries); TimesInOrder(Number(Lookup(f, "iat")), Number(Lookup(f, "exp")))
  {
    KeyFieldsAre(k, entries);
    hide KeyFields, FillKey, PlainTemplate;
    var f := KeyFields(k, entries);
    forall n | n in f ensures !f[n].Num? {
      var i :| 0 <= i < |entries| && entries[i].0 == n;
      PlainEntry(k, entries, i);
    }
    NoTimes(f);
  }

  lemma PlainKeyOk(p: Params, path: string, k: Key, entries: seq<(string, Tmpl)>)
    requires PlainTemplate(entries)
    ensures KeyOk(p, path, k, entries) <==> KeyShape(k, entries)
  {
    OwnTemplate(Namespace(p), entries);
    PlainTimes(k, entries);
    PlainValues(p, path, k, entries);
    hide Expected, KeyFields, Conforms, FillKey, KeyShape, PlainTemplate, Lookup;
  }

  lemma PlainFixture(entries: seq<(string, Tmpl)>)
    requires PlainTemplate(entries)
    ensures IsFixture(TObj([("keys", TArr([TObj(entries)]))]))
  {
    forall i | 0 <= i < |entries| ensures IsFixture(entries[i].1) {
    }
    assert IsFixture(TObj(entries));
    hide PlainTemplate;
    assert IsFixture(TArr([TObj(entries)]));
  }

  lemma KeysAlone(ns: string, t: Tmpl)
    ensures Expected(ns, [("keys", t)]) == map["keys" := t]
  {
    var doc := [("keys", t)];
    assert "keys"[0..4][0] == 'k';
    assert Index("keys", NS_TOKEN) < 0;
    assert doc[..0] == [];
  }

  /** A plain template alone under "keys": accepted exactly when the keys it publishes
      have UUID ids and base64url moduli. */
  lemma PlainDocumentRoundTrip(p: Params, entries: seq<(string, Tmpl)>)
    requires PlainTemplate(entries)
    requires CanPublish(p, [("keys", TArr([TObj(entries)]))])
    ensures var doc := [("keys", TArr([TObj(entries)]))];
      Errors(Rules(p, true), "", TObj(doc), Published(p, doc)) == []
      <==> forall i :: 0 <= i < |p.keys| ==> KeyShape(p.keys[i], entries)
  {
    hide *;
    var doc := [("keys", TArr([TObj(entries)]))];
    PlainFixture(entries);
    KeyDocumentRoundTrip(p, doc);
    AloneOk(p, entries);
    forall i | 0 <= i < |p.keys|
      ensures KeyOk(p, Item("keys", i), p.keys[i], entries) <==> KeyShape(p.keys[i], entries)
    {
      PlainKeyOk(p, Item("keys", i), p.keys[i], entries);
    }
  }

  lemma AloneOk(p: Params, entries: seq<(string, Tmpl)>)
    requires CanPublish(p, [("keys", TArr([TObj(entries)]))])
    ensures DocumentOk(p, [("keys", TArr([TObj(entries)]))])
      <==> forall i :: 0 <= i < |p.keys| ==> KeyOk(p, Item("keys", i), p.keys[i], entries)
  {
    var t := TArr([TObj(entries)]);
    KeysAlone(Namespace(p), t);
    assert KeyTemplate([("keys", t)]) == Some(entries);
    hide Expected, KeyOk, CanPublish, KeyTemplate;
  }
}
