/** What the visits of a template can resolve to, for leaves, arrays and objects. */
module Productions {
  import opened Text
  import opened Fixture
  import opened Resolver
  import opened Visits
  import opened Samples
  import opened RoundTrip

  /** The key entry i stands for. */
  function KeyAt(p: Params, t: Tmpl, i: nat): string
    requires t.TObj? && i < |t.entries|
  {
    Rename(Namespace(p), t.entries[i].0)
  }

  // ----- Leaves as sources -----

  lemma LeafProduces(r: Resolver, t: Tmpl, v: Json)
    requires IsLeaf(t)
    ensures Produces(r, t, v) <==> Resolves(r, t, v)
  {
    assert Visit(t, t);
    forall u | Visit(t, u) ensures u == t {
      VisitKinds(t, u);
    }
  }

  lemma SampleProduced(r: Resolver, t: Tmpl, hi: bool)
    requires IsLeaf(t) && CanResolve(r.p, t)
    ensures Produces(r, t, Sample(r, t, hi))
  {
    SampleResolves(r, t, hi);
    LeafProduces(r, t, Sample(r, t, hi));
  }

  /** What a leaf produces is its sample, or a drawn text like its two samples. */
  lemma LeafValue(r: Resolver, t: Tmpl, v: Json)
    requires IsLeaf(t) && Produces(r, t, v)
    ensures LeafVaries(r.p, t) ==>
      v.Str? && DrawnIs(r, Parse(t.s).kind, v.s)
      && forall hi :: Sample(r, t, hi) == Str(SampleDrawn(r, Parse(t.s).kind, hi))
    ensures !LeafVaries(r.p, t) ==> v == Sample(r, t, false)
  {
    LeafProduces(r, t, v);
    if LeafVaries(r.p, t) {
      hide DrawnIs, SampleDrawn, Parse, Produces;
    } else {
      FixedLeaf(r, t, v);
    }
  }

  lemma NumberProduced(r: Resolver, t: Tmpl, v: Json)
    requires Produces(r, t, v)
    ensures Number(v) == NumberOf(r, t)
  {
    hide *;
    var u := VisitFor(r, t, v);
    NumberResolves(r, u, v);
    NumberInVisit(r, t, u);
  }

  lemma NumberInVisit(r: Resolver, t: Tmpl, u: Tmpl)
    requires Visit(t, u)
    ensures NumberOf(r, u) == NumberOf(r, t)
  {
    hide NumberOfKind;
  }

  // ----- Arrays as sources: items in order, the audiences spread -----

  /** A place in a resolved array: one of the items, or an audience. */
  datatype Part = Sub(i: nat) | Fixed(v: Json)

  function Parts(p: Params, items: seq<Tmpl>, from: nat): (parts: seq<Part>)
    requires from <= |items|
    ensures forall j :: 0 <= j < |parts| && parts[j].Sub? ==> from <= parts[j].i < |items|
    decreases |items| - from
  {
    if from == |items| then []
    else if items[from] == AUDIENCE then Spread(p) + Parts(p, items, from + 1)
    else [Sub(from)] + Parts(p, items, from + 1)
  }

  function Spread(p: Params): (parts: seq<Part>)
    ensures |parts| == |AudienceStrings(p)| && forall j :: 0 <= j < |parts| ==> parts[j] == Fixed(AudienceStrings(p)[j])
  {
    seq(|AudienceStrings(p)|, j requires 0 <= j < |AudienceStrings(p)| => Fixed(AudienceStrings(p)[j]))
  }

  /** The items stand in order, each in one place. */
  ghost predicate InOrder(items: seq<Tmpl>, from: nat, parts: seq<Part>) {
    && (forall j :: 0 <= j < |parts| && parts[j].Sub? ==>
      from <= parts[j].i < |items| && items[parts[j].i] != AUDIENCE)
    && forall j, k :: 0 <= j < k < |parts| && parts[j].Sub? && parts[k].Sub? ==> parts[j].i < parts[k].i
  }

  lemma {:induction false} PartsInOrder(p: Params, items: seq<Tmpl>, from: nat)
    requires from <= |items|
    ensures InOrder(items, from, Parts(p, items, from))
    decreases |items| - from
  {
    if from < |items| {
      PartsInOrder(p, items, from + 1);
      var rest := Parts(p, items, from + 1);
      if items[from] == AUDIENCE {
        FixedBefore(items, from, Spread(p), rest);
      } else {
        SubBefore(items, from, rest);
      }
    }
  }

  lemma FixedBefore(items: seq<Tmpl>, from: nat, fixed: seq<Part>, rest: seq<Part>)
    requires InOrder(items, from + 1, rest) && forall j :: 0 <= j < |fixed| ==> fixed[j].Fixed?
    ensures InOrder(items, from, fixed + rest)
  {
    var all := fixed + rest;
    assert forall j :: 0 <= j < |all| && all[j].Sub? ==> j >= |fixed| && all[j] == rest[j - |fixed|];
  }

  lemma SubBefore(items: seq<Tmpl>, from: nat, rest: seq<Part>)
    requires from < |items| && items[from] != AUDIENCE && InOrder(items, from + 1, rest)
    ensures InOrder(items, from, [Sub(from)] + rest)
  {
    var all := [Sub(from)] + rest;
    assert forall j :: 0 < j < |all| ==> all[j] == rest[j - 1];
  }

  lemma {:induction false} SameParts(p: Params, a: seq<Tmpl>, b: seq<Tmpl>, from: nat)
    requires from <= |a| == |b| && forall j :: 0 <= j < |a| ==> (a[j] == AUDIENCE <==> b[j] == AUDIENCE)
    ensures Parts(p, a, from) == Parts(p, b, from)
    decreases |a| - from
  {
    if from < |a| {
      SameParts(p, a, b, from + 1);
    }
  }

  ghost predicate PartResolves(r: Resolver, items: seq<Tmpl>, part: Part, v: Json) {
    match part
    case Sub(i) => i < |items| && Resolves(r, items[i], v)
    case Fixed(w) => v == w
  }

  ghost predicate PartsResolve(r: Resolver, items: seq<Tmpl>, parts: seq<Part>, outs: seq<Json>) {
    |outs| == |parts| && forall j :: 0 <= j < |parts| ==> PartResolves(r, items, parts[j], outs[j])
  }

  lemma PartsJoin(r: Resolver, items: seq<Tmpl>, a: seq<Part>, b: seq<Part>, outs: seq<Json>)
    ensures PartsResolve(r, items, a + b, outs) <==>
      |outs| >= |a| && PartsResolve(r, items, a, outs[..|a|]) && PartsResolve(r, items, b, outs[|a|..])
  {
    hide PartResolves;
    if PartsResolve(r, items, a + b, outs) {
      assert forall j :: 0 <= j < |a| ==> (a + b)[j] == a[j];
      assert forall j :: 0 <= j < |b| ==> (a + b)[|a| + j] == b[j];
    } else if |outs| >= |a| && PartsResolve(r, items, a, outs[..|a|]) && PartsResolve(r, items, b, outs[|a|..]) {
      forall j | 0 <= j < |a + b| ensures PartResolves(r, items, (a + b)[j], outs[j]) {
        if j < |a| {
          assert outs[..|a|][j] == outs[j];
        } else {
          assert outs[|a|..][j - |a|] == outs[j];
        }
      }
    }
  }

  lemma SpreadResolves(r: Resolver, items: seq<Tmpl>, outs: seq<Json>)
    ensures PartsResolve(r, items, Spread(r.p), outs) <==> outs == AudienceStrings(r.p)
  {
    hide AudienceStrings;
    if PartsResolve(r, items, Spread(r.p), outs) {
      forall j | 0 <= j < |outs| ensures outs[j] == AudienceStrings(r.p)[j] {
        assert PartResolves(r, items, Spread(r.p)[j], outs[j]);
      }
    }
  }

  lemma ItemsUnfold(r: Resolver, items: seq<Tmpl>, outs: seq<Json>)
    requires items != []
    ensures var s := AudienceStrings(r.p);
      ResolvesItems(r, items, outs) <==>
      if items[0] == AUDIENCE then |outs| >= |s| && outs[..|s|] == s && ResolvesItems(r, items[1..], outs[|s|..])
      else |outs| >= 1 && Resolves(r, items[0], outs[0]) && ResolvesItems(r, items[1..], outs[1..])
  {
    hide Resolves;
    var a, s := AudienceValues(r.p), AudienceStrings(r.p);
    if items[0] == AUDIENCE && |outs| >= |a| {
      assert (forall j :: 0 <= j < |a| ==> outs[j] == Str(a[j])) <==> outs[..|s|] == s by {
        if outs[..|s|] == s {
          assert forall j :: 0 <= j < |a| ==> outs[j] == outs[..|s|][j];
        }
      }
    }
  }

  lemma {:induction false} ItemsByParts(r: Resolver, items: seq<Tmpl>, from: nat, outs: seq<Json>)
    requires from <= |items|
    ensures ResolvesItems(r, items[from..], outs) <==> PartsResolve(r, items, Parts(r.p, items, from), outs)
    decreases |items| - from
  {
    if from == |items| {
      assert items[from..] == [];
    } else {
      assert items[from..][0] == items[from] && items[from..][1..] == items[from + 1..];
      ItemsUnfold(r, items[from..], outs);
      var rest, s := Parts(r.p, items, from + 1), AudienceStrings(r.p);
      hide ResolvesItems, Resolves, AudienceStrings;
      if items[from] == AUDIENCE {
        PartsJoin(r, items, Spread(r.p), rest, outs);
        if |outs| >= |s| {
          SpreadResolves(r, items, outs[..|s|]);
          ItemsByParts(r, items, from + 1, outs[|s|..]);
        }
      } else {
        PartsJoin(r, items, [Sub(from)], rest, outs);
        if |outs| >= 1 {
          ItemsByParts(r, items, from + 1, outs[1..]);
          OnePartResolves(r, items, from, outs[..1]);
          assert outs[..1][0] == outs[0];
        }
      }
    }
  }

  lemma OnePartResolves(r: Resolver, items: seq<Tmpl>, i: nat, outs: seq<Json>)
    requires i < |items| && |outs| == 1
    ensures PartsResolve(r, items, [Sub(i)], outs) <==> Resolves(r, items[i], outs[0])
  {
    hide Resolves;
    assert [Sub(i)][0] == Sub(i);
    assert PartResolves(r, items, Sub(i), outs[0]) <==> Resolves(r, items[i], outs[0]);
  }

  // ----- What arrays produce -----

  ghost predicate PartGives(r: Resolver, t: Tmpl, part: Part, v: Json)
    requires t.TArr?
  {
    match part
    case Sub(i) => i < |t.items| && Produces(r, t.items[i], v)
    case Fixed(w) => v == w
  }

  ghost predicate GivesItems(r: Resolver, t: Tmpl, outs: seq<Json>)
    requires t.TArr?
  {
    var parts := Parts(r.p, t.items, 0);
    |outs| == |parts| && forall j :: 0 <= j < |parts| ==> PartGives(r, t, parts[j], outs[j])
  }

  lemma ArrayResolvesIs(r: Resolver, us: seq<Tmpl>, out: Json)
    ensures Resolves(r, TArr(us), out) <==> out.Arr? && PartsResolve(r, us, Parts(r.p, us, 0), out.items)
  {
    if out.Arr? {
      assert us[0..] == us;
      ItemsByParts(r, us, 0, out.items);
    }
  }

  lemma ProducedArray(r: Resolver, t: Tmpl, out: Json)
    requires t.TArr? && Produces(r, t, out)
    ensures out.Arr? && GivesItems(r, t, out.items)
  {
    hide *;
    var u := VisitFor(r, t, out);
    ItemVisits(t, u);
    assert u == TArr(u.items);
    ArrayResolvesIs(r, u.items, out);
    SameParts(r.p, t.items, u.items, 0);
    PartsGive(r, t, u.items, Parts(r.p, t.items, 0), out.items);
  }

  lemma PartsGive(r: Resolver, t: Tmpl, us: seq<Tmpl>, parts: seq<Part>, outs: seq<Json>)
    requires t.TArr? && |us| == |t.items| && (forall j :: 0 <= j < |us| ==> Visit(t.items[j], us[j]))
    requires parts == Parts(r.p, t.items, 0) && PartsResolve(r, us, parts, outs)
    ensures GivesItems(r, t, outs)
  {
    hide Visit, Resolves, Produces, Parts;
    forall j | 0 <= j < |parts| ensures PartGives(r, t, parts[j], outs[j]) {
      assert PartResolves(r, us, parts[j], outs[j]);
      if parts[j].Sub? {
        ProducesIs(r, t.items[parts[j].i], us[parts[j].i], outs[j]);
      }
    }
  }

  /** Any choice of item values is made by some visit. */
  lemma ProducesArray(r: Resolver, t: Tmpl, outs: seq<Json>)
    requires t.TArr? && IsFixture(t) && GivesItems(r, t, outs)
    ensures Produces(r, t, Arr(outs))
  {
    var parts := Parts(r.p, t.items, 0);
    PartsInOrder(r.p, t.items, 0);
    forall i | 0 <= i < |t.items| ensures Visit(t.items[i], t.items[i]) {
      OwnVisit(t.items[i]);
    }
    hide Visit, Resolves, Produces, Parts, IsFixture;
    var us := seq(|t.items|, i requires 0 <= i < |t.items| => ItemVisitFor(r, t, outs, i));
    forall j | 0 <= j < |parts| ensures PartResolves(r, us, parts[j], outs[j]) {
      assert PartGives(r, t, parts[j], outs[j]);
      if parts[j].Sub? {
        var i := parts[j].i;
        assert PlaceOf(parts, i) == Some(j);
        assert us[i] == VisitFor(r, t.items[i], outs[j]);
      }
    }
    ItemVisit(t, us);
    ItemVisits(t, TArr(us));
    SameParts(r.p, t.items, us, 0);
    ArrayResolvesIs(r, us, Arr(outs));
    ProducesIs(r, t, TArr(us), Arr(outs));
  }

  /** Where item i stands. */
  ghost function PlaceOf(parts: seq<Part>, i: nat): (j: Option<nat>)
    ensures j.Some? ==> j.value < |parts| && parts[j.value] == Sub(i)
    ensures j.None? ==> forall k :: 0 <= k < |parts| ==> parts[k] != Sub(i)
  {
    if parts == [] then None
    else if parts[|parts| - 1] == Sub(i) then Some(|parts| - 1)
    else
      var j := PlaceOf(parts[..|parts| - 1], i);
      assert forall k :: 0 <= k < |parts| - 1 ==> parts[..|parts| - 1][k] == parts[k];
      j
  }

  ghost function ItemVisitFor(r: Resolver, t: Tmpl, outs: seq<Json>, i: nat): (u: Tmpl)
    requires t.TArr? && GivesItems(r, t, outs) && i < |t.items| && Visit(t.items[i], t.items[i])
    ensures Visit(t.items[i], u)
  {
    hide Visit, Produces, Parts;
    var place := PlaceOf(Parts(r.p, t.items, 0), i);
    if place.Some? then
      assert PartGives(r, t, Parts(r.p, t.items, 0)[place.value], outs[place.value]);
      VisitFor(r, t.items[i], outs[place.value])
    else
      t.items[i]
  }

  // ----- Something is always produced -----

  ghost predicate HasResult(r: Resolver, t: Tmpl) {
    exists v :: Produces(r, t, v)
  }

  ghost function ResultOf(r: Resolver, t: Tmpl): (v: Json)
    requires HasResult(r, t)
    ensures Produces(r, t, v)
  {
    var v :| Produces(r, t, v);
    v
  }

  /** What has a result can be resolved. */
  lemma {:induction false} ResolvedCanResolve(r: Resolver, t: Tmpl, out: Json)
    requires Resolves(r, t, out)
    ensures CanResolve(r.p, t)
    decreases t, 1
  {
    match t {
      case TStr(s) =>
        if Parse(s).Whole? {
          FilledCanFill(r, Parse(s).kind, Parse(s).arg, out);
        }
        hide Parse, ValueIs, CanFill;
      case TArr(items) =>
        forall i | 0 <= i < |items| && items[i] != AUDIENCE ensures CanResolve(r.p, items[i]) {
          var j := ItemResult(r, items, out.items, i);
          ResolvedCanResolve(r, items[i], out.items[j]);
        }
      case _ =>
    }
  }

  lemma FilledCanFill(r: Resolver, kind: Kind, arg: string, out: Json)
    requires ValueIs(r, kind, arg, out)
    ensures CanFill(r.p, kind, arg)
  {
    hide DrawnIs, Decimal, Unix;
  }

  /** Where the result of an item stands. */
  lemma {:induction false} ItemResult(r: Resolver, items: seq<Tmpl>, outs: seq<Json>, i: nat) returns (j: nat)
    requires ResolvesItems(r, items, outs) && i < |items| && items[i] != AUDIENCE
    ensures j < |outs| && Resolves(r, items[i], outs[j])
    decreases items, 0
  {
    hide Resolves;
    var n := if items[0] == AUDIENCE then |AudienceValues(r.p)| else 1;
    if i == 0 {
      j := 0;
    } else {
      assert items[1..][i - 1] == items[i];
      var k := ItemResult(r, items[1..], outs[n..], i - 1);
      j := n + k;
    }
  }

  lemma {:induction false} AnyResult(r: Resolver, t: Tmpl)
    requires IsFixture(t) && CanResolve(r.p, t)
    ensures HasResult(r, t)
    decreases t
  {
    match t {
      case TObj(entries) =>
        forall i | 0 <= i < |entries| ensures HasResult(r, entries[i].1) {
          AnyResult(r, entries[i].1);
        }
        hide HasResult;
        var f := Extend(r, t, map[]);
        ObjectResult(r, t, f);
      case TArr(items) =>
        forall i | 0 <= i < |items| && items[i] != AUDIENCE ensures HasResult(r, items[i]) {
          AnyResult(r, items[i]);
        }
        hide HasResult;
        PartsInOrder(r.p, items, 0);
        var outs := AnyItems(r, t, Parts(r.p, items, 0));
        ArrayResult(r, t, outs);
      case _ =>
        SampleProduced(r, t, false);
    }
  }

  lemma ObjectResult(r: Resolver, t: Tmpl, f: map<string, Json>)
    requires t.TObj? && IsFixture(t) && CanResolve(r.p, t) && ProducesFields(r, t, f)
    ensures HasResult(r, t)
  {
    ProducesObject(r, t, f);
  }

  lemma ArrayResult(r: Resolver, t: Tmpl, outs: seq<Json>)
    requires t.TArr? && IsFixture(t) && GivesItems(r, t, outs)
    ensures HasResult(r, t)
  {
    ProducesArray(r, t, outs);
  }

  ghost function PartResult(r: Resolver, t: Tmpl, part: Part): (v: Json)
    requires t.TArr? && (part.Sub? ==> part.i < |t.items| && HasResult(r, t.items[part.i]))
    ensures PartGives(r, t, part, v)
  {
    hide Produces, HasResult;
    match part
    case Sub(i) => ResultOf(r, t.items[i])
    case Fixed(w) => w
  }

  lemma AnyItems(r: Resolver, t: Tmpl, parts: seq<Part>) returns (outs: seq<Json>)
    requires t.TArr? && parts == Parts(r.p, t.items, 0)
    requires forall j :: 0 <= j < |parts| && parts[j].Sub? ==> HasResult(r, t.items[parts[j].i])
    ensures GivesItems(r, t, outs)
  {
    hide HasResult, PartGives, Parts;
    assert forall j :: 0 <= j < |parts| && parts[j].Sub? ==> parts[j].i < |t.items|;
    outs := seq(|parts|, j requires 0 <= j < |parts| => PartResult(r, t, parts[j]));
  }

  /** Some entries' values can be chosen freely; the other keys get any value. */
  lemma Extend(r: Resolver, t: Tmpl, pre: map<string, Json>) returns (f: map<string, Json>)
    requires t.TObj? && forall i :: 0 <= i < |t.entries| ==> HasResult(r, t.entries[i].1)
    requires forall k :: k in pre ==> k in Keys(r.p, t) && CanGive(r, t, k, pre[k])
    ensures ProducesFields(r, t, f) && forall k :: k in pre ==> k in f && f[k] == pre[k]
  {
    hide *;
    forall k | k in Keys(r.p, t) ensures HasGift(r, t, k) {
      HasGiver(r, t, k);
    }
    f := map k | k in Keys(r.p, t) :: if k in pre then pre[k] else Gift(r, t, k);
    ProducesFieldsIs(r, t, f);
  }

  ghost predicate HasGift(r: Resolver, t: Tmpl, k: string)
    requires t.TObj?
  {
    exists v :: CanGive(r, t, k, v)
  }

  ghost function Gift(r: Resolver, t: Tmpl, k: string): (v: Json)
    requires t.TObj? && HasGift(r, t, k)
    ensures CanGive(r, t, k, v)
  {
    hide CanGive;
    var v :| CanGive(r, t, k, v);
    v
  }

  lemma ProducesFieldsIs(r: Resolver, t: Tmpl, f: map<string, Json>)
    requires t.TObj? && f.Keys == Keys(r.p, t) && forall k :: k in f ==> CanGive(r, t, k, f[k])
    ensures ProducesFields(r, t, f)
  {
    hide Keys, CanGive;
  }

  lemma HasGiver(r: Resolver, t: Tmpl, k: string)
    requires t.TObj? && (forall i :: 0 <= i < |t.entries| ==> HasResult(r, t.entries[i].1)) && k in Keys(r.p, t)
    ensures HasGift(r, t, k)
  {
    KeysAre(r.p, t, k);
    hide Rename, Produces, HasResult;
    var i :| 0 <= i < |t.entries| && Rename(Namespace(r.p), t.entries[i].0) == k;
    GivesIs(r, t, i, k, ResultOf(r, t.entries[i].1));
  }

  lemma EntryResults(r: Resolver, t: Tmpl)
    requires t.TObj? && IsFixture(t) && CanResolve(r.p, t)
    ensures forall i :: 0 <= i < |t.entries| ==>
      IsFixture(t.entries[i].1) && CanResolve(r.p, t.entries[i].1) && HasResult(r, t.entries[i].1)
  {
    forall i | 0 <= i < |t.entries| ensures HasResult(r, t.entries[i].1) {
      AnyResult(r, t.entries[i].1);
    }
  }

  lemma PartResults(r: Resolver, t: Tmpl, parts: seq<Part>)
    requires t.TArr? && IsFixture(t) && CanResolve(r.p, t) && parts == Parts(r.p, t.items, 0)
    ensures forall j :: 0 <= j < |parts| && parts[j].Sub? ==>
      IsFixture(t.items[parts[j].i]) && CanResolve(r.p, t.items[parts[j].i]) && HasResult(r, t.items[parts[j].i])
  {
    PartsInOrder(r.p, t.items, 0);
    forall i | 0 <= i < |t.items| && t.items[i] != AUDIENCE
      ensures IsFixture(t.items[i]) && CanResolve(r.p, t.items[i]) && HasResult(r, t.items[i])
    {
      AnyResult(r, t.items[i]);
    }
    hide Parts, IsFixture, CanResolve, HasResult;
  }

  lemma EntryGives(r: Resolver, t: Tmpl, i: nat, v: Json)
    requires t.TObj? && i < |t.entries| && Produces(r, t.entries[i].1, v)
    ensures KeyAt(r.p, t, i) in Keys(r.p, t) && CanGive(r, t, KeyAt(r.p, t, i), v)
  {
    hide Rename, Produces, Keys;
    KeysAre(r.p, t, KeyAt(r.p, t, i));
    GivesIs(r, t, i, KeyAt(r.p, t, i), v);
  }

  /** A produced object with given values at some keys. */
  lemma Pick(r: Resolver, t: Tmpl, pre: map<string, Json>) returns (f: map<string, Json>)
    requires t.TObj? && IsFixture(t) && CanResolve(r.p, t)
    requires forall k :: k in pre ==> k in Keys(r.p, t) && CanGive(r, t, k, pre[k])
    ensures Produces(r, t, Obj(f)) && f.Keys == Keys(r.p, t) && forall k :: k in pre ==> k in f && f[k] == pre[k]
  {
    hide *;
    EntryResults(r, t);
    f := Extend(r, t, pre);
    ProducesFieldsKeys(r, t, f);
    ProducesObject(r, t, f);
  }

  /** A produced object whose values at one key, or two, come from given entries. */
  lemma Choose(r: Resolver, t: Tmpl, i: nat, x: Json, j: nat, y: Json) returns (f: map<string, Json>)
    requires t.TObj? && IsFixture(t) && CanResolve(r.p, t) && i < |t.entries| && j < |t.entries|
    requires Produces(r, t.entries[i].1, x) && Produces(r, t.entries[j].1, y)
    requires x == y || KeyAt(r.p, t, i) != KeyAt(r.p, t, j)
    ensures Produces(r, t, Obj(f)) && f.Keys == Keys(r.p, t)
    ensures KeyAt(r.p, t, i) in f && f[KeyAt(r.p, t, i)] == x
    ensures KeyAt(r.p, t, j) in f && f[KeyAt(r.p, t, j)] == y
  {
    hide *;
    EntryGives(r, t, i, x);
    EntryGives(r, t, j, y);
    var pre := map[KeyAt(r.p, t, i) := x][KeyAt(r.p, t, j) := y];
    f := Pick(r, t, pre);
    assert KeyAt(r.p, t, i) in pre && KeyAt(r.p, t, j) in pre;
  }

  /** A produced array whose value at one place is given. */
  lemma ChoosePart(r: Resolver, t: Tmpl, j: nat, v: Json) returns (outs: seq<Json>)
    requires t.TArr? && IsFixture(t) && CanResolve(r.p, t)
    requires j < |Parts(r.p, t.items, 0)| && PartGives(r, t, Parts(r.p, t.items, 0)[j], v)
    ensures Produces(r, t, Arr(outs)) && |outs| == |Parts(r.p, t.items, 0)| && outs[j] == v
  {
    var parts := Parts(r.p, t.items, 0);
    PartResults(r, t, parts);
    hide PartGives, Produces, Parts, IsFixture, CanResolve, HasResult;
    outs := AnyItems(r, t, parts);
    outs := outs[j := v];
    assert GivesItems(r, t, outs);
    ProducesArray(r, t, outs);
  }

  /** The entry a produced object's value comes from. */
  lemma Source(r: Resolver, t: Tmpl, f: map<string, Json>, k: string) returns (i: nat)
    requires t.TObj? && ProducesFields(r, t, f) && k in f
    ensures i < |t.entries| && KeyAt(r.p, t, i) == k && Produces(r, t.entries[i].1, f[k])
  {
    hide Produces, Rename, Keys;
    i := Giver(r, t, k, f[k]);
  }
}
