/** The round trip when the generator and the checker visit the fixture's maps in
    orders of their own: exactly when no pair of orders is ever rejected, as a condition
    on the template that needs no quantification over results or orders. */
module EveryOrder {
  import opened Text
  import opened Fixture
  import opened Resolver
  import opened Matcher
  import opened MatchLaws
  import opened Visits
  import opened Samples
  import opened RoundTrip
  import opened Productions

  function Plain(r: Resolver): Rules {
    Rules(r.p, false)
  }

  /** Every value a can resolve to is accepted for b, whatever the orders. */
  ghost predicate Fits(r: Resolver, a: Tmpl, b: Tmpl) {
    forall v :: Produces(r, a, v) ==> Accepts(Plain(r), "", b, v)
  }

  lemma FitsIs(r: Resolver, a: Tmpl, b: Tmpl)
    requires forall v :: Produces(r, a, v) ==> Accepts(Plain(r), "", b, v)
    ensures Fits(r, a, b)
  {
  }

  lemma FitsOut(r: Resolver, a: Tmpl, b: Tmpl, v: Json)
    requires Fits(r, a, b) && Produces(r, a, v)
    ensures Accepts(Plain(r), "", b, v)
  {
  }

  lemma FitsAt(r: Resolver, a: Tmpl, b: Tmpl, v: Json, path: string)
    requires Fits(r, a, b) && Produces(r, a, v)
    ensures Accepts(Plain(r), path, b, v)
  {
    FitsOut(r, a, b, v);
    AcceptsAnywhere(r.p, "", path, b, v);
  }

  // ----- The condition -----

  /** Every entry that can give iat precedes every entry that can give exp. */
  ghost predicate TimesProof(r: Resolver, t: Tmpl)
    requires t.TObj?
  {
    forall i, j | 0 <= i < |t.entries| && 0 <= j < |t.entries| ::
      KeyAt(r.p, t, i) == "iat" && KeyAt(r.p, t, j) == "exp" ==>
        TimesInOrder(NumberOf(r, t.entries[i].1), NumberOf(r, t.entries[j].1))
  }

  /** a resolves to v and to nothing else. */
  ghost predicate Only(r: Resolver, a: Tmpl, v: Json)
    decreases a
  {
    match a
    case TObj(entries) =>
      v.Obj? && v.fields.Keys == Keys(r.p, a)
      && forall i :: 0 <= i < |entries| ==>
        KeyAt(r.p, a, i) in v.fields && Only(r, entries[i].1, v.fields[KeyAt(r.p, a, i)])
    case TArr(items) =>
      var parts := Parts(r.p, items, 0);
      v.Arr? && |v.items| == |parts|
      && forall j :: 0 <= j < |parts| ==>
        if parts[j].Sub? then Only(r, items[parts[j].i], v.items[j]) else v.items[j] == parts[j].v
    case _ => Sample(r, a, false) == v && Sample(r, a, true) == v
  }

  /** t resolves to non-empty strings only. */
  ghost predicate TextsOnly(r: Resolver, t: Tmpl) {
    IsLeaf(t) && RoleEntry(Sample(r, t, false)) && RoleEntry(Sample(r, t, true))
  }

  /** a resolves to objects of roles only, as the rule for roles wants them. */
  ghost predicate RolesFit(r: Resolver, a: Tmpl)
    requires a.TObj?
  {
    && a.entries != []
    && (forall i :: 0 <= i < |a.entries| ==> TextsOnly(r, a.entries[i].1))
    && (r.p.clientId != "" ==> r.p.clientId in Keys(r.p, a))
    && (r.p.clientId != "" && r.p.role != "" ==>
      forall i :: 0 <= i < |a.entries| && KeyAt(r.p, a, i) == r.p.clientId ==>
        Only(r, a.entries[i].1, Str(r.p.role)))
  }

  /** A place of an array passes as audience j. */
  ghost predicate PassesAsAudience(r: Resolver, a: Tmpl, part: Part, j: nat)
    requires a.TArr? && (part.Sub? ==> part.i < |a.items|)
  {
    match part
    case Fixed(v) => AudienceOk(r.p, j, v)
    case Sub(k) =>
      var t := a.items[k];
      if IsLeaf(t) then AudienceOk(r.p, j, Sample(r, t, false)) && AudienceOk(r.p, j, Sample(r, t, true))
      else AudienceOk(r.p, j, Arr([]))
  }

  /** How many values an array template can meet. */
  ghost predicate LengthFits(p: Params, n: nat, items: seq<Tmpl>) {
    var i := AudienceAt(items);
    if i < |items| then i == |items| - 1 && n > i && (p.audiences != [] ==> n - i == |p.audiences|) else n == |items|
  }

  /** The attribute a placeholder is pinned to, if it is. */
  function Pinned(p: Params, arg: string): Option<Json> {
    if p.attributes.Some? && arg in p.attributes.value then Some(p.attributes.value[arg]) else None
  }

  /** Whatever a resolves to, every order accepts it for b: a recursion on the two
      templates, in which a leaf is tried with its two samples. */
  ghost predicate FitsTo(r: Resolver, a: Tmpl, b: Tmpl)
    decreases a
  {
    if IsLeaf(a) then
      Takes(Plain(r), "", b, Sample(r, a, false)) && Takes(Plain(r), "", b, Sample(r, a, true))
    else
      match b
      case TObj(_) =>
        a.TObj? && Keys(r.p, a) == Keys(r.p, b)
        && (forall i, j | 0 <= i < |a.entries| && 0 <= j < |b.entries| ::
          KeyAt(r.p, a, i) == KeyAt(r.p, b, j) ==> FitsTo(r, a.entries[i].1, b.entries[j].1))
        && TimesProof(r, a)
      case TArr(items) =>
        a.TArr? && LengthFits(r.p, |Parts(r.p, a.items, 0)|, items)
        && forall j :: 0 <= j < |Parts(r.p, a.items, 0)| ==>
          var part := Parts(r.p, a.items, 0)[j];
          if j >= AudienceAt(items) then PassesAsAudience(r, a, part, j - AudienceAt(items))
          else if part.Sub? then FitsTo(r, a.items[part.i], items[j])
          else Takes(Plain(r), "", items[j], part.v)
      case TStr(s) =>
        (match Parse(s)
         case Literal => false
         case Whole(kind, arg) =>
           if kind == KAttribute then Pinned(r.p, arg).Some? ==> Only(r, a, Pinned(r.p, arg).value)
           else kind == KAppRoles && a.TObj? && RolesFit(r, a))
      case _ => false
  }

  /** The templates that survive every pair of orders. Where keys expand alike, any of
      the entries may decide on either side, so each must fit the others, and every
      iat must precede every exp. */
  ghost predicate OrderProof(r: Resolver, t: Tmpl) {
    match t
    case TArr(items) =>
      var i := AudienceAt(items);
      (i < |items| ==> i == |items| - 1) && forall j :: 0 <= j < i ==> OrderProof(r, items[j])
    case TObj(entries) =>
      && (forall i :: 0 <= i < |entries| ==> OrderProof(r, entries[i].1))
      && (forall i, j | 0 <= i < |entries| && 0 <= j < |entries| ::
        i != j && KeyAt(r.p, t, i) == KeyAt(r.p, t, j) ==> FitsTo(r, entries[i].1, entries[j].1))
      && TimesProof(r, t)
    case _ => WellFormed(r, t)
  }

  // ----- Leaves -----

  /** A leaf fits a template exactly when the template takes both its samples. */
  lemma LeafFits(r: Resolver, a: Tmpl, b: Tmpl)
    requires IsLeaf(a) && CanResolve(r.p, a) && IsFixture(b)
    ensures Fits(r, a, b) <==>
      Takes(Plain(r), "", b, Sample(r, a, false)) && Takes(Plain(r), "", b, Sample(r, a, true))
  {
    hide *;
    var m, lo, hi := Plain(r), Sample(r, a, false), Sample(r, a, true);
    TakesIff(m, "", b, lo);
    TakesIff(m, "", b, hi);
    SampleProduced(r, a, false);
    SampleProduced(r, a, true);
    if Fits(r, a, b) {
      FitsOut(r, a, b, lo);
      FitsOut(r, a, b, hi);
    }
    if Takes(m, "", b, lo) && Takes(m, "", b, hi) {
      forall v | Produces(r, a, v) ensures Accepts(m, "", b, v) {
        TakesIff(m, "", b, v);
        BothSamplesDecide(r, a, b, v);
      }
      FitsIs(r, a, b);
    }
  }

  lemma BothSamplesDecide(r: Resolver, a: Tmpl, b: Tmpl, v: Json)
    requires IsLeaf(a) && Produces(r, a, v)
    requires Takes(Plain(r), "", b, Sample(r, a, false)) && Takes(Plain(r), "", b, Sample(r, a, true))
    ensures Takes(Plain(r), "", b, v)
  {
    LeafValue(r, a, v);
    if LeafVaries(r.p, a) {
      hide Produces, Sample, Parse, DrawnIs, SampleDrawn, Varies, Conforms;
      if IsLeaf(b) {
        LeafTakesAll(r, Plain(r), "", Parse(a.s).kind, b, v.s);
      }
    }
  }

  lemma LeafOnly(r: Resolver, t: Tmpl, v: Json)
    requires IsLeaf(t) && CanResolve(r.p, t)
    ensures (forall w :: Produces(r, t, w) ==> w == v) <==> Only(r, t, v)
  {
    SampleProduced(r, t, false);
    SampleProduced(r, t, true);
    if Only(r, t, v) {
      forall w | Produces(r, t, w) ensures w == v {
        LeafValue(r, t, w);
        if LeafVaries(r.p, t) {
          SamplesDiffer(r, Parse(t.s).kind);
        }
      }
    }
    hide Produces, Sample, Parse, DrawnIs, SampleDrawn, Varies;
  }

  lemma LeafTexts(r: Resolver, t: Tmpl)
    requires IsLeaf(t) && CanResolve(r.p, t)
    ensures (forall w :: Produces(r, t, w) ==> RoleEntry(w)) <==> TextsOnly(r, t)
  {
    SampleProduced(r, t, false);
    SampleProduced(r, t, true);
    if TextsOnly(r, t) {
      forall w | Produces(r, t, w) ensures RoleEntry(w) {
        LeafValue(r, t, w);
        if LeafVaries(r.p, t) {
          DrawnIsText(r, Parse(t.s).kind, w.s);
        }
      }
    }
    hide Produces, Sample, Parse, DrawnIs, SampleDrawn, Varies;
  }

  lemma LeafAudience(r: Resolver, t: Tmpl, j: nat)
    requires IsLeaf(t) && CanResolve(r.p, t)
    ensures (forall w :: Produces(r, t, w) ==> AudienceOk(r.p, j, w)) <==>
      AudienceOk(r.p, j, Sample(r, t, false)) && AudienceOk(r.p, j, Sample(r, t, true))
  {
    SampleProduced(r, t, false);
    SampleProduced(r, t, true);
    if AudienceOk(r.p, j, Sample(r, t, false)) && AudienceOk(r.p, j, Sample(r, t, true)) {
      forall w | Produces(r, t, w) ensures AudienceOk(r.p, j, w) {
        LeafValue(r, t, w);
        if LeafVaries(r.p, t) {
          DrawnIsText(r, Parse(t.s).kind, w.s);
          SamplesDiffer(r, Parse(t.s).kind);
        }
      }
    }
    hide Produces, Sample, Parse, DrawnIs, SampleDrawn, Varies;
  }

  // ----- Objects -----

  ghost predicate AllFit(r: Resolver, a: Tmpl, b: Tmpl)
    requires a.TObj? && b.TObj?
  {
    forall i, j | 0 <= i < |a.entries| && 0 <= j < |b.entries| ::
      KeyAt(r.p, a, i) == KeyAt(r.p, b, j) ==> Fits(r, a.entries[i].1, b.entries[j].1)
  }

  lemma ObjectFits(r: Resolver, a: Tmpl, b: Tmpl)
    requires a.TObj? && b.TObj? && IsFixture(a) && CanResolve(r.p, a) && IsFixture(b)
    ensures Fits(r, a, b) <==> Keys(r.p, a) == Keys(r.p, b) && AllFit(r, a, b) && TimesProof(r, a)
  {
    if Fits(r, a, b) {
      FittingKeys(r, a, b);
      FittingEntries(r, a, b);
      FittingTimes(r, a, b);
    }
    if Keys(r.p, a) == Keys(r.p, b) && AllFit(r, a, b) && TimesProof(r, a) {
      forall v | Produces(r, a, v) ensures Accepts(Plain(r), "", b, v) {
        ObjectAccepted(r, a, b, v);
      }
      hide Produces, Accepts;
      FitsIs(r, a, b);
    }
  }

  /** What every order of b accepts, of what a resolves to. */
  lemma AcceptedFields(r: Resolver, a: Tmpl, b: Tmpl, f: map<string, Json>)
    requires b.TObj? && IsFixture(b) && Fits(r, a, b) && Produces(r, a, Obj(f))
    ensures f.Keys == Keys(r.p, b)
    ensures forall j :: 0 <= j < |b.entries| ==>
      KeyAt(r.p, b, j) in f && Accepts(Plain(r), "", b.entries[j].1, f[KeyAt(r.p, b, j)])
    ensures TimesInOrder(Number(Lookup(f, "iat")), Number(Lookup(f, "exp")))
  {
    FitsOut(r, a, b, Obj(f));
    AcceptsObjectIff(Plain(r), "", b, Obj(f));
    hide Produces, Accepts, Fits, Rename, Keys, IsFixture, Lookup;
    forall j | 0 <= j < |b.entries|
      ensures KeyAt(r.p, b, j) in f && Accepts(Plain(r), "", b.entries[j].1, f[KeyAt(r.p, b, j)])
    {
      var k := KeyAt(r.p, b, j);
      AcceptsAnywhere(r.p, Join("", k), "", b.entries[j].1, f[k]);
    }
  }

  lemma FittingKeys(r: Resolver, a: Tmpl, b: Tmpl)
    requires a.TObj? && b.TObj? && IsFixture(a) && CanResolve(r.p, a) && IsFixture(b) && Fits(r, a, b)
    ensures Keys(r.p, a) == Keys(r.p, b)
  {
    hide *;
    var f := Pick(r, a, map[]);
    AcceptedFields(r, a, b, f);
  }

  lemma FittingEntries(r: Resolver, a: Tmpl, b: Tmpl)
    requires a.TObj? && b.TObj? && IsFixture(a) && CanResolve(r.p, a) && IsFixture(b) && Fits(r, a, b)
    ensures AllFit(r, a, b)
  {
    hide Produces, Accepts, Fits, Rename, IsFixture, CanResolve, KeyAt, Keys;
    forall i, j | 0 <= i < |a.entries| && 0 <= j < |b.entries| && KeyAt(r.p, a, i) == KeyAt(r.p, b, j)
      ensures Fits(r, a.entries[i].1, b.entries[j].1)
    {
      forall v | Produces(r, a.entries[i].1, v) ensures Accepts(Plain(r), "", b.entries[j].1, v) {
        var f := Choose(r, a, i, v, i, v);
        AcceptedFields(r, a, b, f);
      }
      FitsIs(r, a.entries[i].1, b.entries[j].1);
    }
  }

  lemma FittingTimes(r: Resolver, a: Tmpl, b: Tmpl)
    requires a.TObj? && b.TObj? && IsFixture(a) && CanResolve(r.p, a) && IsFixture(b) && Fits(r, a, b)
    ensures TimesProof(r, a)
  {
    EntryResults(r, a);
    hide Produces, Accepts, Fits, Rename, IsFixture, CanResolve, KeyAt, Keys, NumberOf, HasResult, TimesInOrder;
    forall i, j | 0 <= i < |a.entries| && 0 <= j < |a.entries|
      && KeyAt(r.p, a, i) == "iat" && KeyAt(r.p, a, j) == "exp"
      ensures TimesInOrder(NumberOf(r, a.entries[i].1), NumberOf(r, a.entries[j].1))
    {
      var x, y := ResultOf(r, a.entries[i].1), ResultOf(r, a.entries[j].1);
      NumberProduced(r, a.entries[i].1, x);
      NumberProduced(r, a.entries[j].1, y);
      var f := Choose(r, a, i, x, j, y);
      AcceptedFields(r, a, b, f);
    }
  }

  lemma ObjectAccepted(r: Resolver, a: Tmpl, b: Tmpl, v: Json)
    requires a.TObj? && b.TObj? && IsFixture(a) && IsFixture(b) && Produces(r, a, v)
    requires Keys(r.p, a) == Keys(r.p, b) && AllFit(r, a, b) && TimesProof(r, a)
    ensures Accepts(Plain(r), "", b, v)
  {
    hide *;
    ProducedObject(r, a, v);
    ProducesFieldsKeys(r, a, v.fields);
    forall j | 0 <= j < |b.entries|
      ensures var k := Rename(Namespace(r.p), b.entries[j].0);
        k in v.fields && Accepts(Plain(r), Join("", k), b.entries[j].1, v.fields[k])
    {
      KeysAre(r.p, b, Rename(Namespace(r.p), b.entries[j].0));
      GivenIsAccepted(r, a, b, v.fields, j);
    }
    GivenTimes(r, a, v.fields);
    AcceptsFieldsIs(r, b, v.fields);
    AcceptsObjectIff(Plain(r), "", b, v);
  }

  lemma AcceptsFieldsIs(r: Resolver, b: Tmpl, g: map<string, Json>)
    requires b.TObj? && g.Keys == Keys(r.p, b)
    requires forall j :: 0 <= j < |b.entries| ==>
      var k := Rename(Namespace(r.p), b.entries[j].0);
      k in g && Accepts(Plain(r), Join("", k), b.entries[j].1, g[k])
    requires TimesInOrder(Number(Lookup(g, "iat")), Number(Lookup(g, "exp")))
    ensures AcceptsFields(Plain(r), "", b, g)
  {
    hide Accepts, Keys, Rename;
  }

  lemma GivenIsAccepted(r: Resolver, a: Tmpl, b: Tmpl, f: map<string, Json>, j: nat)
    requires a.TObj? && b.TObj? && AllFit(r, a, b) && ProducesFields(r, a, f) && j < |b.entries|
    requires Rename(Namespace(r.p), b.entries[j].0) in f
    ensures var k := Rename(Namespace(r.p), b.entries[j].0); Accepts(Plain(r), Join("", k), b.entries[j].1, f[k])
  {
    hide Produces, Accepts, Fits, Rename, Keys;
    var k := Rename(Namespace(r.p), b.entries[j].0);
    var i := Giver(r, a, k, f[k]);
    assert KeyAt(r.p, a, i) == KeyAt(r.p, b, j);
    FitsAt(r, a.entries[i].1, b.entries[j].1, f[k], Join("", k));
  }

  lemma GivenTimes(r: Resolver, t: Tmpl, f: map<string, Json>)
    requires t.TObj? && TimesProof(r, t) && ProducesFields(r, t, f)
    ensures TimesInOrder(Number(Lookup(f, "iat")), Number(Lookup(f, "exp")))
  {
    hide Produces, Rename, Keys, NumberOf;
    if "iat" in f && "exp" in f {
      var i, j := Giver(r, t, "iat", f["iat"]), Giver(r, t, "exp", f["exp"]);
      assert KeyAt(r.p, t, i) == "iat" && KeyAt(r.p, t, j) == "exp";
      NumberProduced(r, t.entries[i].1, f["iat"]);
      NumberProduced(r, t.entries[j].1, f["exp"]);
    }
  }

  // ----- Arrays -----

  ghost predicate PartFits(r: Resolver, a: Tmpl, part: Part, b: Tmpl)
    requires a.TArr?
  {
    forall v :: PartGives(r, a, part, v) ==> Accepts(Plain(r), "", b, v)
  }

  ghost predicate PartPasses(r: Resolver, a: Tmpl, part: Part, j: nat)
    requires a.TArr?
  {
    forall v :: PartGives(r, a, part, v) ==> AudienceOk(r.p, j, v)
  }

  /** Whatever stands at place j of a, every order of b accepts it there. */
  ghost predicate PlaceOk(r: Resolver, a: Tmpl, b: Tmpl, part: Part, j: nat)
    requires a.TArr? && b.TArr?
  {
    if j < AudienceAt(b.items) then PartFits(r, a, part, b.items[j])
    else PartPasses(r, a, part, j - AudienceAt(b.items))
  }

  ghost predicate ItemsFit(r: Resolver, a: Tmpl, b: Tmpl)
    requires a.TArr? && b.TArr?
  {
    var parts := Parts(r.p, a.items, 0);
    LengthFits(r.p, |parts|, b.items) && forall j :: 0 <= j < |parts| ==> PlaceOk(r, a, b, parts[j], j)
  }

  /** What every order of an array accepts, place by place. */
  lemma AcceptsPlaces(r: Resolver, b: Tmpl, g: seq<Json>)
    requires b.TArr? && IsFixture(b)
    ensures Accepts(Plain(r), "", b, Arr(g)) <==>
      && LengthFits(r.p, |g|, b.items)
      && forall j :: 0 <= j < |g| ==>
        if j < AudienceAt(b.items) then Accepts(Plain(r), "", b.items[j], g[j])
        else AudienceOk(r.p, j - AudienceAt(b.items), g[j])
  {
    AcceptsArrayIff(Plain(r), "", b, Arr(g));
    PlainItems(r, b, g);
    hide Accepts, IsFixture, AudienceOk, AcceptsItems, LengthFits;
    forall j | 0 <= j < |g| && j < AudienceAt(b.items)
      ensures Accepts(Plain(r), Item("", j), b.items[j], g[j]) <==> Accepts(Plain(r), "", b.items[j], g[j])
    {
      AcceptsAnywhere(r.p, Item("", j), "", b.items[j], g[j]);
    }
  }

  lemma PlainItems(r: Resolver, b: Tmpl, g: seq<Json>)
    requires b.TArr?
    ensures AcceptsItems(Plain(r), "", b, g) <==>
      && LengthFits(r.p, |g|, b.items)
      && forall j :: 0 <= j < |g| ==>
        if j < AudienceAt(b.items) then Accepts(Plain(r), Item("", j), b.items[j], g[j])
        else AudienceOk(r.p, j - AudienceAt(b.items), g[j])
  {
    var m, i := Plain(r), AudienceAt(b.items);
    NotKeyList(m, "", b.items);
    hide Accepts, AudienceOk, AudienceAt;
    if i < |b.items| && |g| > i {
      TailPlaces(r.p, g, i);
    }
  }

  lemma TailPlaces(p: Params, g: seq<Json>, i: nat)
    requires i <= |g|
    ensures AudiencesOk(p, g[i..]) <==>
      (p.audiences != [] ==> |g| - i == |p.audiences|) && forall j :: i <= j < |g| ==> AudienceOk(p, j - i, g[j])
  {
    hide AudienceOk;
    var rest := g[i..];
    assert forall j :: 0 <= j < |rest| ==> rest[j] == g[i + j];
    if AudiencesOk(p, rest) {
      forall j | i <= j < |g| ensures AudienceOk(p, j - i, g[j]) {
        assert rest[j - i] == g[j];
      }
    }
  }

  lemma ArrayFits(r: Resolver, a: Tmpl, b: Tmpl)
    requires a.TArr? && b.TArr? && IsFixture(a) && CanResolve(r.p, a) && IsFixture(b)
    ensures Fits(r, a, b) <==> ItemsFit(r, a, b)
  {
    if Fits(r, a, b) {
      FittingItems(r, a, b);
    }
    if ItemsFit(r, a, b) {
      forall v | Produces(r, a, v) ensures Accepts(Plain(r), "", b, v) {
        ArrayAccepted(r, a, b, v);
      }
      hide Produces, Accepts;
      FitsIs(r, a, b);
    }
  }

  lemma ArrayAccepted(r: Resolver, a: Tmpl, b: Tmpl, v: Json)
    requires a.TArr? && b.TArr? && IsFixture(b) && ItemsFit(r, a, b) && Produces(r, a, v)
    ensures Accepts(Plain(r), "", b, v)
  {
    hide Produces, Accepts, IsFixture, PartGives, Parts, AudienceOk, LengthFits;
    ProducedArray(r, a, v);
    AcceptsPlaces(r, b, v.items);
    var parts := Parts(r.p, a.items, 0);
    forall j | 0 <= j < |v.items|
      ensures if j < AudienceAt(b.items) then Accepts(Plain(r), "", b.items[j], v.items[j])
        else AudienceOk(r.p, j - AudienceAt(b.items), v.items[j])
    {
      assert PartGives(r, a, parts[j], v.items[j]) && PlaceOk(r, a, b, parts[j], j);
    }
  }

  lemma FittingItems(r: Resolver, a: Tmpl, b: Tmpl)
    requires a.TArr? && b.TArr? && IsFixture(a) && CanResolve(r.p, a) && IsFixture(b) && Fits(r, a, b)
    ensures ItemsFit(r, a, b)
  {
    var parts := Parts(r.p, a.items, 0);
    PartResults(r, a, parts);
    hide Produces, Accepts, IsFixture, CanResolve, PartGives, Parts, AudienceOk, LengthFits, Fits, HasResult;
    var outs := AnyItems(r, a, parts);
    ProducesArray(r, a, outs);
    FitsOut(r, a, b, Arr(outs));
    AcceptsPlaces(r, b, outs);
    forall j | 0 <= j < |parts| ensures PlaceOk(r, a, b, parts[j], j) {
      PlaceFits(r, a, b, parts, j);
    }
  }

  lemma PlaceFits(r: Resolver, a: Tmpl, b: Tmpl, parts: seq<Part>, j: nat)
    requires a.TArr? && b.TArr? && IsFixture(a) && CanResolve(r.p, a) && IsFixture(b) && Fits(r, a, b)
    requires parts == Parts(r.p, a.items, 0) && j < |parts|
    ensures PlaceOk(r, a, b, parts[j], j)
  {
    hide Produces, Accepts, IsFixture, CanResolve, PartGives, Parts, AudienceOk, LengthFits, Fits;
    forall v | PartGives(r, a, parts[j], v)
      ensures if j < AudienceAt(b.items) then Accepts(Plain(r), "", b.items[j], v)
        else AudienceOk(r.p, j - AudienceAt(b.items), v)
    {
      var gs := ChoosePart(r, a, j, v);
      FitsOut(r, a, b, Arr(gs));
      AcceptsPlaces(r, b, gs);
    }
  }

  // ----- One value only -----

  ghost predicate OnlyProduces(r: Resolver, a: Tmpl, v: Json) {
    forall w :: Produces(r, a, w) ==> w == v
  }

  lemma {:induction false} OnlyIff(r: Resolver, a: Tmpl, v: Json)
    requires IsFixture(a) && CanResolve(r.p, a)
    ensures OnlyProduces(r, a, v) <==> Only(r, a, v)
    decreases a
  {
    match a {
      case TObj(entries) =>
        if v.Obj? && v.fields.Keys == Keys(r.p, a) {
          forall i | 0 <= i < |entries| && KeyAt(r.p, a, i) in v.fields
            ensures OnlyProduces(r, entries[i].1, v.fields[KeyAt(r.p, a, i)])
              <==> Only(r, entries[i].1, v.fields[KeyAt(r.p, a, i)])
          {
            OnlyIff(r, entries[i].1, v.fields[KeyAt(r.p, a, i)]);
          }
        }
        EntriesOnly(r, a, v);
      case TArr(items) =>
        var parts := Parts(r.p, items, 0);
        PartResults(r, a, parts);
        if v.Arr? && |v.items| == |parts| {
          forall j | 0 <= j < |parts| && parts[j].Sub?
            ensures OnlyProduces(r, items[parts[j].i], v.items[j]) <==> Only(r, items[parts[j].i], v.items[j])
          {
            OnlyIff(r, items[parts[j].i], v.items[j]);
          }
        }
        PartsOnly(r, a, v, parts);
      case _ => LeafOnly(r, a, v);
    }
  }

  lemma EntriesOnly(r: Resolver, a: Tmpl, v: Json)
    requires a.TObj? && IsFixture(a) && CanResolve(r.p, a)
    requires v.Obj? && v.fields.Keys == Keys(r.p, a) ==>
      forall i :: 0 <= i < |a.entries| && KeyAt(r.p, a, i) in v.fields ==>
        (OnlyProduces(r, a.entries[i].1, v.fields[KeyAt(r.p, a, i)])
        <==> Only(r, a.entries[i].1, v.fields[KeyAt(r.p, a, i)]))
    ensures OnlyProduces(r, a, v) <==> Only(r, a, v)
  {
    OnlyObject(r, a, v);
    hide OnlyProduces, KeyAt, Keys, IsFixture, CanResolve;
  }

  lemma PartsOnly(r: Resolver, a: Tmpl, v: Json, parts: seq<Part>)
    requires a.TArr? && IsFixture(a) && CanResolve(r.p, a) && parts == Parts(r.p, a.items, 0)
    requires v.Arr? && |v.items| == |parts| ==>
      forall j :: 0 <= j < |parts| && parts[j].Sub? ==>
        parts[j].i < |a.items|
        && (OnlyProduces(r, a.items[parts[j].i], v.items[j]) <==> Only(r, a.items[parts[j].i], v.items[j]))
    ensures OnlyProduces(r, a, v) <==> Only(r, a, v)
  {
    OnlyArray(r, a, v, parts);
    hide OnlyProduces, Parts, IsFixture, CanResolve;
  }

  lemma OnlyObject(r: Resolver, a: Tmpl, v: Json)
    requires a.TObj? && IsFixture(a) && CanResolve(r.p, a)
    ensures OnlyProduces(r, a, v) <==>
      && v.Obj? && v.fields.Keys == Keys(r.p, a)
      && forall i :: 0 <= i < |a.entries| ==>
        KeyAt(r.p, a, i) in v.fields && OnlyProduces(r, a.entries[i].1, v.fields[KeyAt(r.p, a, i)])
  {
    hide Produces, IsFixture, CanResolve, Rename, Keys;
    if OnlyProduces(r, a, v) {
      var f := Pick(r, a, map[]);
      forall i | 0 <= i < |a.entries|
        ensures KeyAt(r.p, a, i) in v.fields && OnlyProduces(r, a.entries[i].1, v.fields[KeyAt(r.p, a, i)])
      {
        KeysAre(r.p, a, KeyAt(r.p, a, i));
        forall w | Produces(r, a.entries[i].1, w) ensures w == v.fields[KeyAt(r.p, a, i)] {
          var g := Choose(r, a, i, w, i, w);
        }
      }
    } else if v.Obj? && v.fields.Keys == Keys(r.p, a) && forall i :: 0 <= i < |a.entries| ==>
        KeyAt(r.p, a, i) in v.fields && OnlyProduces(r, a.entries[i].1, v.fields[KeyAt(r.p, a, i)])
    {
      forall w | Produces(r, a, w) ensures w == v {
        SameObject(r, a, v, w);
      }
    }
  }

  lemma SameObject(r: Resolver, a: Tmpl, v: Json, w: Json)
    requires a.TObj? && IsFixture(a) && Produces(r, a, w) && v.Obj? && v.fields.Keys == Keys(r.p, a)
    requires forall i :: 0 <= i < |a.entries| ==>
      KeyAt(r.p, a, i) in v.fields && OnlyProduces(r, a.entries[i].1, v.fields[KeyAt(r.p, a, i)])
    ensures w == v
  {
    hide *;
    ProducedObject(r, a, w);
    ProducesFieldsKeys(r, a, w.fields);
    forall k | k in w.fields ensures w.fields[k] == v.fields[k] {
      var i := Source(r, a, w.fields, k);
      OnlyOne(r, a.entries[i].1, v.fields[k], w.fields[k]);
    }
    assert w.fields == v.fields;
  }

  lemma OnlyOne(r: Resolver, t: Tmpl, v: Json, w: Json)
    requires OnlyProduces(r, t, v) && Produces(r, t, w)
    ensures w == v
  {
  }

  lemma PlaceOnly(r: Resolver, a: Tmpl, v: Json, parts: seq<Part>, j: nat)
    requires a.TArr? && IsFixture(a) && CanResolve(r.p, a) && parts == Parts(r.p, a.items, 0) && j < |parts|
    requires OnlyProduces(r, a, v) && v.Arr? && |v.items| == |parts|
    ensures if parts[j].Sub? then OnlyProduces(r, a.items[parts[j].i], v.items[j]) else v.items[j] == parts[j].v
  {
    hide Produces, IsFixture, CanResolve, Parts;
    if parts[j].Sub? {
      forall w | Produces(r, a.items[parts[j].i], w) ensures w == v.items[j] {
        var gs := ChoosePart(r, a, j, w);
        OnlyOne(r, a, v, Arr(gs));
      }
    } else {
      var gs := ChoosePart(r, a, j, parts[j].v);
      OnlyOne(r, a, v, Arr(gs));
    }
  }

  lemma OnlyArray(r: Resolver, a: Tmpl, v: Json, parts: seq<Part>)
    requires a.TArr? && IsFixture(a) && CanResolve(r.p, a) && parts == Parts(r.p, a.items, 0)
    ensures OnlyProduces(r, a, v) <==>
      && v.Arr? && |v.items| == |parts|
      && forall j :: 0 <= j < |parts| ==>
        if parts[j].Sub? then OnlyProduces(r, a.items[parts[j].i], v.items[j]) else v.items[j] == parts[j].v
  {
    PartResults(r, a, parts);
    hide Produces, IsFixture, CanResolve, Parts, HasResult;
    if OnlyProduces(r, a, v) {
      var outs := AnyItems(r, a, parts);
      ProducesArray(r, a, outs);
      forall j | 0 <= j < |parts|
        ensures if parts[j].Sub? then OnlyProduces(r, a.items[parts[j].i], v.items[j]) else v.items[j] == parts[j].v
      {
        PlaceOnly(r, a, v, parts, j);
      }
    } else if v.Arr? && |v.items| == |parts| && forall j :: 0 <= j < |parts| ==>
        if parts[j].Sub? then OnlyProduces(r, a.items[parts[j].i], v.items[j]) else v.items[j] == parts[j].v
    {
      forall w | Produces(r, a, w) ensures w == v {
        ProducedArray(r, a, w);
        forall j | 0 <= j < |parts| ensures w.items[j] == v.items[j] {
          assert PartGives(r, a, parts[j], w.items[j]);
        }
      }
    }
  }

  // ----- Objects and arrays against a leaf -----

  /** What a rule wants of every value a resolves to. */
  ghost predicate AllSatisfy(r: Resolver, a: Tmpl, kind: Kind, arg: string) {
    forall v :: Produces(r, a, v) ==> Satisfies(r.p, kind, arg, v)
  }

  lemma ProducedKind(r: Resolver, a: Tmpl, v: Json)
    requires IsFixture(a) && !IsLeaf(a) && Produces(r, a, v)
    ensures a.TObj? ==> v.Obj?
    ensures a.TArr? ==> v.Arr?
  {
    if a.TObj? {
      ProducedObject(r, a, v);
    } else {
      ProducedArray(r, a, v);
    }
  }

  /** Only the rules for attributes and roles accept an object or an array. */
  lemma RuleForCompound(p: Params, kind: Kind, arg: string, v: Json)
    requires v.Obj? || v.Arr?
    ensures kind == KAttribute ==>
      (Satisfies(p, kind, arg, v) <==> (Pinned(p, arg).Some? ==> v == Pinned(p, arg).value))
    ensures kind != KAttribute && kind != KAppRoles ==> !Satisfies(p, kind, arg, v)
    ensures kind == KAppRoles && v.Arr? ==> !Satisfies(p, kind, arg, v)
  {
    hide IsUuid, IsDecimal, IsB64Url, IsJws, IsEmail, IsAppSub, Decimal;
  }

  lemma RolesRule(p: Params, arg: string, f: map<string, Json>)
    ensures Satisfies(p, KAppRoles, arg, Obj(f)) <==>
      && f != map[]
      && (forall k :: k in f ==> RoleEntry(f[k]))
      && (p.clientId != "" ==> p.clientId in f)
      && (p.clientId != "" && p.role != "" ==> f[p.clientId] == Str(p.role))
  {
  }

  ghost predicate OnlyTexts(r: Resolver, t: Tmpl) {
    forall w :: Produces(r, t, w) ==> RoleEntry(w)
  }

  lemma TextsIff(r: Resolver, t: Tmpl)
    requires IsFixture(t) && CanResolve(r.p, t)
    ensures OnlyTexts(r, t) <==> TextsOnly(r, t)
  {
    if IsLeaf(t) {
      LeafTexts(r, t);
    } else {
      AnyResult(r, t);
      ProducedKind(r, t, ResultOf(r, t));
    }
  }

  lemma RolesIff(r: Resolver, a: Tmpl, arg: string)
    requires a.TObj? && IsFixture(a) && CanResolve(r.p, a)
    ensures AllSatisfy(r, a, KAppRoles, arg) <==> RolesFit(r, a)
  {
    EntryResults(r, a);
    forall i | 0 <= i < |a.entries|
      ensures OnlyTexts(r, a.entries[i].1) <==> TextsOnly(r, a.entries[i].1)
      ensures OnlyProduces(r, a.entries[i].1, Str(r.p.role)) <==> Only(r, a.entries[i].1, Str(r.p.role))
    {
      TextsIff(r, a.entries[i].1);
      OnlyIff(r, a.entries[i].1, Str(r.p.role));
    }
    if AllSatisfy(r, a, KAppRoles, arg) {
      RolesThen(r, a, arg);
    }
    if RolesMeant(r, a) {
      forall v | Produces(r, a, v) ensures Satisfies(r.p, KAppRoles, arg, v) {
        RolesGiven(r, a, arg, v);
      }
    }
    hide OnlyTexts, TextsOnly, OnlyProduces, Only, Satisfies, Produces, Keys, KeyAt;
  }

  ghost predicate RolesMeant(r: Resolver, a: Tmpl)
    requires a.TObj?
  {
    && a.entries != []
    && (forall i :: 0 <= i < |a.entries| ==> OnlyTexts(r, a.entries[i].1))
    && (r.p.clientId != "" ==> r.p.clientId in Keys(r.p, a))
    && (r.p.clientId != "" && r.p.role != "" ==>
      forall i :: 0 <= i < |a.entries| && KeyAt(r.p, a, i) == r.p.clientId ==>
        OnlyProduces(r, a.entries[i].1, Str(r.p.role)))
  }

  lemma RolesGiven(r: Resolver, a: Tmpl, arg: string, v: Json)
    requires a.TObj? && IsFixture(a) && RolesMeant(r, a) && Produces(r, a, v)
    ensures Satisfies(r.p, KAppRoles, arg, v)
  {
    ProducedObject(r, a, v);
    ProducesFieldsKeys(r, a, v.fields);
    KeysAre(r.p, a, KeyAt(r.p, a, 0));
    hide Satisfies, Produces, Keys, KeyAt, Only, IsFixture, ProducesFields;
    var f := v.fields;
    RolesRule(r.p, arg, f);
    forall k | k in f ensures RoleEntry(f[k]) {
      var i := Source(r, a, f, k);
    }
    if r.p.clientId != "" && r.p.role != "" {
      var i := Source(r, a, f, r.p.clientId);
      OnlyOne(r, a.entries[i].1, Str(r.p.role), f[r.p.clientId]);
    }
  }

  lemma RolesThen(r: Resolver, a: Tmpl, arg: string)
    requires a.TObj? && IsFixture(a) && CanResolve(r.p, a) && AllSatisfy(r, a, KAppRoles, arg)
    ensures RolesMeant(r, a)
  {
    hide Satisfies, Produces, Keys, KeyAt, IsFixture, CanResolve;
    var f := Pick(r, a, map[]);
    RolesRule(r.p, arg, f);
    var k :| k in f;
    KeysAre(r.p, a, k);
    forall i | 0 <= i < |a.entries|
      ensures OnlyTexts(r, a.entries[i].1)
      ensures r.p.clientId != "" && r.p.role != "" && KeyAt(r.p, a, i) == r.p.clientId ==>
        OnlyProduces(r, a.entries[i].1, Str(r.p.role))
    {
      RoleThen(r, a, arg, i);
    }
  }

  lemma RoleThen(r: Resolver, a: Tmpl, arg: string, i: nat)
    requires a.TObj? && IsFixture(a) && CanResolve(r.p, a) && AllSatisfy(r, a, KAppRoles, arg) && i < |a.entries|
    ensures OnlyTexts(r, a.entries[i].1)
    ensures r.p.clientId != "" && r.p.role != "" && KeyAt(r.p, a, i) == r.p.clientId ==>
      OnlyProduces(r, a.entries[i].1, Str(r.p.role))
  {
    hide Satisfies, Produces, Keys, KeyAt, IsFixture, CanResolve;
    forall w | Produces(r, a.entries[i].1, w)
      ensures RoleEntry(w)
      ensures r.p.clientId != "" && r.p.role != "" && KeyAt(r.p, a, i) == r.p.clientId ==> w == Str(r.p.role)
    {
      var g := Choose(r, a, i, w, i, w);
      RolesRule(r.p, arg, g);
    }
  }

  lemma LeafAccepts(r: Resolver, b: Tmpl, v: Json)
    requires IsLeaf(b)
    ensures Accepts(Plain(r), "", b, v) <==> Conforms(Plain(r), "", b, v)
  {
    assert Visit(b, b);
    forall u | Visit(b, u) ensures u == b {
      VisitKinds(b, u);
    }
  }

  lemma CompoundConforms(r: Resolver, b: Tmpl, v: Json)
    requires IsLeaf(b) && (v.Obj? || v.Arr?)
    ensures Conforms(Plain(r), "", b, v) <==>
      b.TStr? && Parse(b.s).Whole? && Satisfies(r.p, Parse(b.s).kind, Parse(b.s).arg, v)
  {
    hide Satisfies, Parse;
  }

  lemma CompoundFits(r: Resolver, a: Tmpl, b: Tmpl)
    requires IsFixture(a) && CanResolve(r.p, a) && !IsLeaf(a) && IsLeaf(b)
    ensures Fits(r, a, b) <==> b.TStr? && Parse(b.s).Whole? && AllSatisfy(r, a, Parse(b.s).kind, Parse(b.s).arg)
  {
    AnyResult(r, a);
    forall v | Produces(r, a, v)
      ensures Accepts(Plain(r), "", b, v) <==>
        b.TStr? && Parse(b.s).Whole? && Satisfies(r.p, Parse(b.s).kind, Parse(b.s).arg, v)
    {
      ProducedKind(r, a, v);
      LeafAccepts(r, b, v);
      CompoundConforms(r, b, v);
    }
    hide Produces, Accepts, Satisfies, Parse;
    var v := ResultOf(r, a);
  }

  lemma CompoundFitsTo(r: Resolver, a: Tmpl, b: Tmpl)
    requires IsFixture(a) && CanResolve(r.p, a) && !IsLeaf(a) && IsLeaf(b)
    ensures Fits(r, a, b) <==> FitsTo(r, a, b)
  {
    CompoundFits(r, a, b);
    if b.TStr? && Parse(b.s).Whole? {
      RuleFits(r, a, Parse(b.s).kind, Parse(b.s).arg);
    }
    hide Fits, AllSatisfy, Only, RolesFit, Parse;
  }

  lemma RuleFits(r: Resolver, a: Tmpl, kind: Kind, arg: string)
    requires IsFixture(a) && CanResolve(r.p, a) && !IsLeaf(a)
    ensures AllSatisfy(r, a, kind, arg) <==>
      if kind == KAttribute then Pinned(r.p, arg).Some? ==> Only(r, a, Pinned(r.p, arg).value)
      else kind == KAppRoles && a.TObj? && RolesFit(r, a)
  {
    assert a.TObj? || a.TArr?;
    hide *;
    AnyResult(r, a);
    if kind == KAttribute {
      AttributeFits(r, a, arg);
    } else if kind == KAppRoles && a.TObj? {
      RolesIff(r, a, arg);
    } else {
      NoRuleFits(r, a, kind, arg);
    }
  }

  lemma AttributeFits(r: Resolver, a: Tmpl, arg: string)
    requires IsFixture(a) && CanResolve(r.p, a) && !IsLeaf(a)
    ensures AllSatisfy(r, a, KAttribute, arg) <==> (Pinned(r.p, arg).Some? ==> Only(r, a, Pinned(r.p, arg).value))
  {
    hide Produces, Satisfies, Only, IsFixture, CanResolve, Pinned;
    if Pinned(r.p, arg).Some? {
      OnlyIff(r, a, Pinned(r.p, arg).value);
    }
    forall v | Produces(r, a, v)
      ensures Satisfies(r.p, KAttribute, arg, v) <==> (Pinned(r.p, arg).Some? ==> v == Pinned(r.p, arg).value)
    {
      ProducedKind(r, a, v);
      RuleForCompound(r.p, KAttribute, arg, v);
    }
  }

  lemma NoRuleFits(r: Resolver, a: Tmpl, kind: Kind, arg: string)
    requires IsFixture(a) && HasResult(r, a) && !IsLeaf(a)
    requires kind != KAttribute && (kind == KAppRoles ==> a.TArr?)
    ensures !AllSatisfy(r, a, kind, arg)
  {
    hide Produces, Satisfies, IsFixture;
    var v := ResultOf(r, a);
    ProducedKind(r, a, v);
    RuleForCompound(r.p, kind, arg, v);
  }

  // ----- The condition is exact -----

  lemma PlaceFitsTo(r: Resolver, a: Tmpl, part: Part, b: Tmpl)
    requires a.TArr? && IsFixture(b) && (part.Sub? ==> part.i < |a.items|)
    ensures PartFits(r, a, part, b) <==>
      if part.Sub? then Fits(r, a.items[part.i], b) else Takes(Plain(r), "", b, part.v)
  {
    if part.Fixed? {
      TakesIff(Plain(r), "", b, part.v);
      assert PartGives(r, a, part, part.v);
    } else {
      assert forall v :: PartGives(r, a, part, v) <==> Produces(r, a.items[part.i], v);
    }
    hide Produces, Accepts, Takes;
  }

  lemma PlacePasses(r: Resolver, a: Tmpl, part: Part, j: nat)
    requires a.TArr?
    requires part.Sub? ==> part.i < |a.items| && IsFixture(a.items[part.i]) && CanResolve(r.p, a.items[part.i])
    ensures PartPasses(r, a, part, j) <==> PassesAsAudience(r, a, part, j)
  {
    if part.Fixed? {
      assert PartGives(r, a, part, part.v);
    } else {
      var t := a.items[part.i];
      assert forall v :: PartGives(r, a, part, v) <==> Produces(r, t, v);
      if IsLeaf(t) {
        LeafAudience(r, t, j);
      } else {
        AnyResult(r, t);
        var any := ResultOf(r, t);
        forall v | Produces(r, t, v) ensures AudienceOk(r.p, j, v) <==> AudienceOk(r.p, j, Arr([])) {
          ProducedKind(r, t, v);
        }
      }
    }
    hide Produces, Sample, AudienceOk;
  }

  /** The structural form of PlaceOk. */
  ghost predicate PlaceTo(r: Resolver, a: Tmpl, b: Tmpl, part: Part, j: nat)
    requires a.TArr? && b.TArr? && (part.Sub? ==> part.i < |a.items|)
  {
    if j >= AudienceAt(b.items) then PassesAsAudience(r, a, part, j - AudienceAt(b.items))
    else if part.Sub? then FitsTo(r, a.items[part.i], b.items[j])
    else Takes(Plain(r), "", b.items[j], part.v)
  }

  lemma PlaceIff(r: Resolver, a: Tmpl, b: Tmpl, part: Part, j: nat)
    requires a.TArr? && b.TArr? && IsFixture(b)
    requires part.Sub? ==> part.i < |a.items| && IsFixture(a.items[part.i]) && CanResolve(r.p, a.items[part.i])
    requires part.Sub? && j < AudienceAt(b.items) ==>
      (Fits(r, a.items[part.i], b.items[j]) <==> FitsTo(r, a.items[part.i], b.items[j]))
    ensures PlaceOk(r, a, b, part, j) <==> PlaceTo(r, a, b, part, j)
  {
    if j < AudienceAt(b.items) {
      assert IsFixture(b.items[j]);
      PlaceFitsTo(r, a, part, b.items[j]);
    } else {
      PlacePasses(r, a, part, j - AudienceAt(b.items));
    }
    hide Fits, FitsTo, IsFixture, CanResolve, PartFits, PartPasses, PassesAsAudience, Takes;
  }

  lemma ArrayFitsTo(r: Resolver, a: Tmpl, b: Tmpl, parts: seq<Part>)
    requires a.TArr? && b.TArr? && IsFixture(a) && CanResolve(r.p, a) && IsFixture(b)
    requires parts == Parts(r.p, a.items, 0)
    requires forall j :: 0 <= j < |parts| && j < AudienceAt(b.items) && parts[j].Sub? ==>
      (Fits(r, a.items[parts[j].i], b.items[j]) <==> FitsTo(r, a.items[parts[j].i], b.items[j]))
    ensures Fits(r, a, b) <==> FitsTo(r, a, b)
  {
    hide *;
    ArrayFits(r, a, b);
    PartResults(r, a, parts);
    FitsToArray(r, a, b, parts);
    ItemsFitIs(r, a, b, parts);
    forall j | 0 <= j < |parts| ensures PlaceOk(r, a, b, parts[j], j) <==> PlaceTo(r, a, b, parts[j], j) {
      PlaceIff(r, a, b, parts[j], j);
    }
  }

  lemma ItemsFitIs(r: Resolver, a: Tmpl, b: Tmpl, parts: seq<Part>)
    requires a.TArr? && b.TArr? && parts == Parts(r.p, a.items, 0)
    ensures ItemsFit(r, a, b) <==>
      LengthFits(r.p, |parts|, b.items) && forall j :: 0 <= j < |parts| ==> PlaceOk(r, a, b, parts[j], j)
  {
    hide PlaceOk, LengthFits, Parts;
  }

  lemma FitsToArray(r: Resolver, a: Tmpl, b: Tmpl, parts: seq<Part>)
    requires a.TArr? && b.TArr? && parts == Parts(r.p, a.items, 0)
    ensures FitsTo(r, a, b) <==>
      LengthFits(r.p, |parts|, b.items) && forall j :: 0 <= j < |parts| ==> PlaceTo(r, a, b, parts[j], j)
  {
    hide Parts, LengthFits, PassesAsAudience, Takes;
  }

  lemma FitsToObject(r: Resolver, a: Tmpl, b: Tmpl)
    requires a.TObj? && b.TObj?
    ensures FitsTo(r, a, b) <==>
      && Keys(r.p, a) == Keys(r.p, b)
      && (forall i, j | 0 <= i < |a.entries| && 0 <= j < |b.entries| ::
        KeyAt(r.p, a, i) == KeyAt(r.p, b, j) ==> FitsTo(r, a.entries[i].1, b.entries[j].1))
      && TimesProof(r, a)
  {
  }

  /** The structural condition on two templates is exact. */
  lemma {:induction false} FitsToIff(r: Resolver, a: Tmpl, b: Tmpl)
    requires IsFixture(a) && CanResolve(r.p, a) && IsFixture(b)
    ensures Fits(r, a, b) <==> FitsTo(r, a, b)
    decreases a
  {
    if IsLeaf(a) {
      LeafFits(r, a, b);
    } else if IsLeaf(b) {
      CompoundFitsTo(r, a, b);
    } else if a.TObj? && b.TObj? {
      forall i, j | 0 <= i < |a.entries| && 0 <= j < |b.entries|
        ensures Fits(r, a.entries[i].1, b.entries[j].1) <==> FitsTo(r, a.entries[i].1, b.entries[j].1)
      {
        FitsToIff(r, a.entries[i].1, b.entries[j].1);
      }
      EntriesFitTo(r, a, b);
    } else if a.TArr? && b.TArr? {
      var parts := Parts(r.p, a.items, 0);
      PartResults(r, a, parts);
      forall j | 0 <= j < |parts| && j < AudienceAt(b.items) && parts[j].Sub?
        ensures Fits(r, a.items[parts[j].i], b.items[j]) <==> FitsTo(r, a.items[parts[j].i], b.items[j])
      {
        FitsToIff(r, a.items[parts[j].i], b.items[j]);
      }
      ArrayFitsTo(r, a, b, parts);
    } else {
      MixedNeverFits(r, a, b);
    }
  }

  lemma EntriesFitTo(r: Resolver, a: Tmpl, b: Tmpl)
    requires a.TObj? && b.TObj? && IsFixture(a) && CanResolve(r.p, a) && IsFixture(b)
    requires forall i, j :: 0 <= i < |a.entries| && 0 <= j < |b.entries| ==>
      (Fits(r, a.entries[i].1, b.entries[j].1) <==> FitsTo(r, a.entries[i].1, b.entries[j].1))
    ensures Fits(r, a, b) <==> FitsTo(r, a, b)
  {
    ObjectFits(r, a, b);
    FitsToObject(r, a, b);
    hide Fits, FitsTo, IsFixture, CanResolve, TimesProof, KeyAt, Keys;
  }

  /** An object never fits an array template, nor an array an object template. */
  lemma MixedNeverFits(r: Resolver, a: Tmpl, b: Tmpl)
    requires IsFixture(a) && CanResolve(r.p, a) && IsFixture(b)
    requires (a.TObj? && b.TArr?) || (a.TArr? && b.TObj?)
    ensures !Fits(r, a, b) && !FitsTo(r, a, b)
  {
    AnyResult(r, a);
    var v := ResultOf(r, a);
    ProducedKind(r, a, v);
    if b.TObj? {
      AcceptsObjectIff(Plain(r), "", b, v);
    } else {
      AcceptsArrayIff(Plain(r), "", b, v);
    }
    hide Produces, Accepts;
  }

  // ----- The theorem -----

  /** A template's own parts, where its audiences come last. */
  lemma {:induction false} OwnParts(p: Params, items: seq<Tmpl>, from: nat)
    requires from <= AudienceAt(items)
    ensures var parts, i := Parts(p, items, from), AudienceAt(items);
      && |parts| >= i - from
      && (forall j :: 0 <= j < i - from ==> parts[j] == Sub(from + j))
      && (i == |items| ==> |parts| == i - from)
      && (i == |items| - 1 ==> parts[i - from..] == Spread(p))
    decreases |items| - from
  {
    hide *;
    var i := AudienceAt(items);
    PartsStep(p, items, from);
    if from < i {
      OwnParts(p, items, from + 1);
      ConsSubs(from, Parts(p, items, from + 1), i - from - 1);
    } else if i == |items| - 1 {
      PartsStep(p, items, from + 1);
      assert Spread(p) + [] == Spread(p);
    }
  }

  lemma ConsSubs(from: nat, rest: seq<Part>, n: nat)
    requires n <= |rest| && forall j :: 0 <= j < n ==> rest[j] == Sub(from + 1 + j)
    ensures var parts := [Sub(from)] + rest;
      parts[n + 1..] == rest[n..] && forall j :: 0 <= j < n + 1 ==> parts[j] == Sub(from + j)
  {
    forall j | 0 < j < n + 1 ensures ([Sub(from)] + rest)[j] == Sub(from + j) {
      assert rest[j - 1] == Sub(from + 1 + (j - 1));
    }
  }

  lemma PartsStep(p: Params, items: seq<Tmpl>, from: nat)
    requires from <= |items|
    ensures Parts(p, items, from) ==
      if from == |items| then []
      else (if items[from] == AUDIENCE then Spread(p) else [Sub(from)]) + Parts(p, items, from + 1)
  {
  }

  lemma SpreadPasses(r: Resolver, t: Tmpl, j: nat)
    requires t.TArr? && j < |Spread(r.p)|
    ensures PartPasses(r, t, Spread(r.p)[j], j)
  {
    AudiencesRoundTrip(r.p);
    assert AudienceOk(r.p, j, AudienceStrings(r.p)[j]);
  }

  lemma OwnPlace(r: Resolver, t: Tmpl, j: nat)
    requires t.TArr? && j < AudienceAt(t.items)
    ensures PlaceOk(r, t, t, Sub(j), j) <==> Fits(r, t.items[j], t.items[j])
  {
    assert forall v :: PartGives(r, t, Sub(j), v) <==> Produces(r, t.items[j], v);
    hide Produces, Accepts;
  }

  lemma OwnTail(r: Resolver, t: Tmpl, parts: seq<Part>, j: nat)
    requires t.TArr? && parts == Parts(r.p, t.items, 0) && AudienceAt(t.items) == |t.items| - 1
    requires AudienceAt(t.items) <= j < |parts|
    ensures PlaceOk(r, t, t, parts[j], j)
  {
    hide Parts, PartPasses, Spread, AudienceAt;
    var i := AudienceAt(t.items);
    OwnParts(r.p, t.items, 0);
    assert parts[i..][j - i] == parts[j];
    SpreadPasses(r, t, j - i);
  }

  lemma OwnItemsFit(r: Resolver, t: Tmpl)
    requires t.TArr?
    ensures var i := AudienceAt(t.items);
      ItemsFit(r, t, t) <==>
      (i < |t.items| ==> i == |t.items| - 1) && forall j :: 0 <= j < i ==> Fits(r, t.items[j], t.items[j])
  {
    hide *;
    var parts, i := Parts(r.p, t.items, 0), AudienceAt(t.items);
    ItemsFitIs(r, t, t, parts);
    OwnParts(r.p, t.items, 0);
    OwnLength(r.p, t.items, parts);
    forall j | 0 <= j < i ensures PlaceOk(r, t, t, parts[j], j) <==> Fits(r, t.items[j], t.items[j]) {
      OwnPlace(r, t, j);
    }
    if i == |t.items| - 1 {
      forall j | i <= j < |parts| ensures PlaceOk(r, t, t, parts[j], j) {
        OwnTail(r, t, parts, j);
      }
    }
  }

  lemma OwnLength(p: Params, items: seq<Tmpl>, parts: seq<Part>)
    requires parts == Parts(p, items, 0)
    ensures LengthFits(p, |parts|, items) <==> (AudienceAt(items) < |items| ==> AudienceAt(items) == |items| - 1)
  {
    hide Parts, Spread, AudienceAt;
    OwnParts(p, items, 0);
    SpreadLength(p);
    var i := AudienceAt(items);
    assert i == |items| - 1 ==> |parts| == i + |parts[i..]|;
  }

  lemma SpreadLength(p: Params)
    ensures |Spread(p)| > 0 && (p.audiences != [] ==> |Spread(p)| == |p.audiences|)
  {
  }

  lemma LeafOrderProof(r: Resolver, t: Tmpl)
    requires IsLeaf(t) && CanResolve(r.p, t)
    ensures Fits(r, t, t) <==> WellFormed(r, t)
  {
    LeafFits(r, t, t);
    SampleResolves(r, t, false);
    SampleResolves(r, t, true);
    TreeRoundTrip(r, "", t, Sample(r, t, false));
    TreeRoundTrip(r, "", t, Sample(r, t, true));
    hide Fits, WellFormed, Sample, Resolves, Conforms;
  }

  lemma {:induction false} OrderProofIff(r: Resolver, t: Tmpl)
    requires IsFixture(t) && CanResolve(r.p, t)
    ensures Fits(r, t, t) <==> OrderProof(r, t)
    decreases t
  {
    match t {
      case TObj(entries) =>
        forall i | 0 <= i < |entries| ensures Fits(r, entries[i].1, entries[i].1) <==> OrderProof(r, entries[i].1) {
          OrderProofIff(r, entries[i].1);
        }
        ObjectProofIff(r, t);
      case TArr(items) =>
        ArrayFits(r, t, t);
        OwnItemsFit(r, t);
        forall j | 0 <= j < AudienceAt(items) ensures Fits(r, items[j], items[j]) <==> OrderProof(r, items[j]) {
          OrderProofIff(r, items[j]);
        }
        hide Fits, IsFixture, CanResolve, ItemsFit;
      case _ => LeafOrderProof(r, t);
    }
  }

  lemma ObjectProofIff(r: Resolver, t: Tmpl)
    requires t.TObj? && IsFixture(t) && CanResolve(r.p, t)
    requires forall i :: 0 <= i < |t.entries| ==>
      (Fits(r, t.entries[i].1, t.entries[i].1) <==> OrderProof(r, t.entries[i].1))
    ensures Fits(r, t, t) <==> OrderProof(r, t)
  {
    hide *;
    ObjectFits(r, t, t);
    AllFitIs(r, t);
    OrderProofObject(r, t);
    EntryResults(r, t);
    forall i, j | 0 <= i < |t.entries| && 0 <= j < |t.entries|
      ensures Fits(r, t.entries[i].1, t.entries[j].1) <==> FitsTo(r, t.entries[i].1, t.entries[j].1)
    {
      FitsToIff(r, t.entries[i].1, t.entries[j].1);
    }
  }

  lemma AllFitIs(r: Resolver, t: Tmpl)
    requires t.TObj?
    ensures AllFit(r, t, t) <==>
      && (forall i :: 0 <= i < |t.entries| ==> Fits(r, t.entries[i].1, t.entries[i].1))
      && forall i, j | 0 <= i < |t.entries| && 0 <= j < |t.entries| ::
        i != j && KeyAt(r.p, t, i) == KeyAt(r.p, t, j) ==> Fits(r, t.entries[i].1, t.entries[j].1)
  {
    hide Fits, KeyAt;
    if AllFit(r, t, t) {
      assert forall i :: 0 <= i < |t.entries| ==> KeyAt(r.p, t, i) == KeyAt(r.p, t, i);
      forall i | 0 <= i < |t.entries| ensures Fits(r, t.entries[i].1, t.entries[i].1) {
      }
    }
  }

  lemma OrderProofObject(r: Resolver, t: Tmpl)
    requires t.TObj?
    ensures OrderProof(r, t) <==>
      && (forall i :: 0 <= i < |t.entries| ==> OrderProof(r, t.entries[i].1))
      && (forall i, j | 0 <= i < |t.entries| && 0 <= j < |t.entries| ::
        i != j && KeyAt(r.p, t, i) == KeyAt(r.p, t, j) ==> FitsTo(r, t.entries[i].1, t.entries[j].1))
      && TimesProof(r, t)
  {
  }

  /** No pair of orders, one for the generator and one for the checker, is rejected. */
  ghost predicate NeverRejected(r: Resolver, path: string, t: Tmpl) {
    forall a, b, out :: Visit(t, a) && Visit(t, b) && Resolves(r, a, out) ==>
      Errors(Rules(r.p, false), path, b, out) == []
  }

  /** The round trip: what the generator produces in one order the checker accepts in
      any other, always, if and only if the template is proof against orders. */
  lemma RoundTripInEveryOrder(r: Resolver, path: string, t: Tmpl)
    requires IsFixture(t) && CanResolve(r.p, t)
    ensures NeverRejected(r, path, t) <==> OrderProof(r, t)
  {
    hide *;
    OrderProofIff(r, t);
    if Fits(r, t, t) {
      FitsNeverRejected(r, path, t);
    }
    if NeverRejected(r, path, t) {
      NeverRejectedFits(r, path, t);
    }
  }

  lemma FitsNeverRejected(r: Resolver, path: string, t: Tmpl)
    requires Fits(r, t, t)
    ensures NeverRejected(r, path, t)
  {
    hide Fits, Visit, Resolves, Errors, Conforms, Accepts, Produces;
    forall a, b, out | Visit(t, a) && Visit(t, b) && Resolves(r, a, out)
      ensures Errors(Plain(r), path, b, out) == []
    {
      ProducesIs(r, t, a, out);
      FitsAt(r, t, t, out, path);
      AcceptsAt(Plain(r), path, t, b, out);
      NoErrorsIffConforms(Plain(r), path, b, out);
    }
  }

  lemma NeverRejectedFits(r: Resolver, path: string, t: Tmpl)
    requires NeverRejected(r, path, t)
    ensures Fits(r, t, t)
  {
    hide Fits, Visit, Resolves, Errors, Conforms, Accepts, Produces;
    forall v | Produces(r, t, v) ensures Accepts(Plain(r), "", t, v) {
      var a := VisitFor(r, t, v);
      forall b | Visit(t, b) ensures Conforms(Plain(r), "", b, v) {
        NoErrorsIffConforms(Plain(r), path, b, v);
        PathFree(r.p, path, "", b, v);
      }
      AcceptsIs(Plain(r), "", t, v);
    }
    FitsIs(r, t, t);
  }

  // ----- Distinct keys, and keys that collide -----

  /** While no two keys of an object expand alike, that is the one-order condition. */
  lemma {:induction false} DistinctOrderProof(r: Resolver, t: Tmpl)
    requires Distinct(Namespace(r.p), t)
    ensures OrderProof(r, t) <==> WellFormed(r, t)
    decreases t
  {
    match t {
      case TObj(entries) =>
        forall i | 0 <= i < |entries| ensures OrderProof(r, entries[i].1) <==> WellFormed(r, entries[i].1) {
          DistinctOrderProof(r, entries[i].1);
        }
        DistinctObjectProof(r, t);
      case TArr(items) =>
        forall j | 0 <= j < |items| ensures OrderProof(r, items[j]) <==> WellFormed(r, items[j]) {
          DistinctOrderProof(r, items[j]);
        }
        WellFormedArray(r, t);
      case _ =>
    }
  }

  lemma DistinctObjectProof(r: Resolver, t: Tmpl)
    requires t.TObj? && Distinct(Namespace(r.p), t)
    requires forall i :: 0 <= i < |t.entries| ==> (OrderProof(r, t.entries[i].1) <==> WellFormed(r, t.entries[i].1))
    ensures OrderProof(r, t) <==> WellFormed(r, t)
  {
    var ns := Namespace(r.p);
    var e := Expected(ns, t.entries);
    DistinctObject(ns, t);
    WellFormedObject(r, t);
    OrderProofObject(r, t);
    hide OrderProof, WellFormed, Distinct, Rename, Expected, Winner, NumberOf, TimesInOrder, FitsTo;
    forall i | 0 <= i < |t.entries| ensures var k := Rename(ns, t.entries[i].0); k in e && e[k] == t.entries[i].1 {
      assert Winner(ns, t.entries, Rename(ns, t.entries[i].0)) == i;
    }
    assert TimesProof(r, t) <==> TimesInOrder(NumberAt(r, e, "iat"), NumberAt(r, e, "exp")) by {
      DistinctTimes(r, t);
    }
  }

  lemma DistinctTimes(r: Resolver, t: Tmpl)
    requires t.TObj?
    requires forall i, j :: 0 <= i < j < |t.entries| ==>
      Rename(Namespace(r.p), t.entries[i].0) != Rename(Namespace(r.p), t.entries[j].0)
    ensures var e := Expected(Namespace(r.p), t.entries);
      TimesProof(r, t) <==> TimesInOrder(NumberAt(r, e, "iat"), NumberAt(r, e, "exp"))
  {
    hide Rename, Expected, Winner, NumberOf;
    var ns := Namespace(r.p);
    var i, j := Winner(ns, t.entries, "iat"), Winner(ns, t.entries, "exp");
    if i >= 0 && j >= 0 {
      assert KeyAt(r.p, t, i) == "iat" && KeyAt(r.p, t, j) == "exp";
    }
  }

  lemma ExpandedX(p: Params)
    requires p.claimsNamespace == "x"
    ensures Rename(Namespace(p), "<ns>") == "x" && Rename(Namespace(p), "x") == "x"
  {
    assert OccursAt("<ns>", NS_TOKEN, 0);
    assert Index("<ns>", NS_TOKEN) == 0;
    var rest := "<ns>"[4..];
    assert rest == "";
  }

  /** Of two entries that expand alike the second one wins. */
  lemma LastOfTwo(ns: string, a: (string, Tmpl), b: (string, Tmpl))
    requires Rename(ns, a.0) == Rename(ns, b.0)
    ensures Expected(ns, [a, b]) == map[Rename(ns, b.0) := b.1]
  {
    hide Rename;
    assert [a, b][..1] == [a] && [a][..0] == [];
  }

  lemma NumbersRoundTrip(r: Resolver, x: string, y: string, m: real, n: real)
    requires Rename(Namespace(r.p), x) == Rename(Namespace(r.p), y)
    ensures var t := TObj([(x, TNum(m)), (y, TNum(n))]); var k := Rename(Namespace(r.p), y);
      && WellFormed(r, t) && Resolves(r, t, Obj(map[k := Num(n)]))
      && forall v :: Conforms(Rules(r.p, false), "", t, Obj(map[k := Num(v)])) ==> v == n
  {
    var t, k, rules := TObj([(x, TNum(m)), (y, TNum(n))]), Rename(Namespace(r.p), y), Rules(r.p, false);
    LastOfTwo(Namespace(r.p), (x, TNum(m)), (y, TNum(n)));
    assert Expected(Namespace(r.p), t.entries) == map[k := TNum(n)];
    assert CanResolve(r.p, t);
    hide Rename, Expected;
    WellFormedObject(r, t);
    FieldsResolve(r, t, map[k := Num(n)]);
    forall v | Conforms(rules, "", t, Obj(map[k := Num(v)])) ensures v == n {
      var g := map[k := Num(v)];
      ConformsIs(rules, "", t, Obj(g));
      ObjectConformsIs(rules, "", t, g);
    }
  }

  /** Any two keys that expand alike: resolved in one order, rejected in the other. */
  lemma CollidingKeysAreRejected(r: Resolver, x: string, y: string)
    requires x != y && Rename(Namespace(r.p), x) == Rename(Namespace(r.p), y)
    ensures var a, b := TObj([(x, TNum(1.0)), (y, TNum(2.0))]), TObj([(y, TNum(2.0)), (x, TNum(1.0))]);
      var out := Obj(map[Rename(Namespace(r.p), y) := Num(2.0)]);
      && IsFixture(a) && WellFormed(r, a) && WellFormed(r, b)
      && Visit(a, a) && Visit(a, b) && Resolves(r, a, out)
      && Errors(Rules(r.p, false), "", b, out) != []
  {
    var a, b := TObj([(x, TNum(1.0)), (y, TNum(2.0))]), TObj([(y, TNum(2.0)), (x, TNum(1.0))]);
    assert IsFixture(a);
    OwnVisit(a);
    SwappedVisit(a, b);
    hide *;
    NumbersRoundTrip(r, x, y, 1.0, 2.0);
    NumbersRoundTrip(r, y, x, 2.0, 1.0);
    NoErrorsIffConforms(Rules(r.p, false), "", b, Obj(map[Rename(Namespace(r.p), y) := Num(2.0)]));
  }

  /** In particular the namespace x, the keys <ns> and x. */
  lemma NamespaceCollides(r: Resolver)
    requires r.p.claimsNamespace == "x"
    ensures var b := TObj([("x", TNum(2.0)), ("<ns>", TNum(1.0))]);
      && Visit(TObj([("<ns>", TNum(1.0)), ("x", TNum(2.0))]), b)
      && Resolves(r, TObj([("<ns>", TNum(1.0)), ("x", TNum(2.0))]), Obj(map["x" := Num(2.0)]))
      && Errors(Rules(r.p, false), "", b, Obj(map["x" := Num(2.0)])) != []
  {
    ExpandedX(r.p);
    hide *;
    var x: string := "<ns>";
    assert x[0] == '<';
    CollidingKeysAreRejected(r, "<ns>", "x");
  }

  lemma SwappedVisit(a: Tmpl, b: Tmpl)
    requires a.TObj? && b.TObj? && |a.entries| == 2 && b.entries == [a.entries[1], a.entries[0]]
    requires IsFixture(a)
    ensures Visit(a, b)
  {
    OwnVisit(a);
    OwnVisit(a.entries[0].1);
    OwnVisit(a.entries[1].1);
    forall i | 0 <= i < 2 ensures HasCounterpart(a.entries[i].0, a.entries[i].1, b.entries) {
      assert b.entries[1 - i] == a.entries[i];
    }
    assert HasKey(a.entries, b.entries[0].0) by { assert a.entries[1].0 == b.entries[0].0; }
    assert HasKey(a.entries, b.entries[1].0) by { assert a.entries[0].0 == b.entries[1].0; }
  }
}
