/** The language validator: stopword dominance over a text, or over all the string
    values of a JSON document in whatever order its objects are visited
    (ailang/validator.go). */
module Validator {
  import opened Text
  import opened Fixture

  /** The Unicode tables the validator consults. */
  datatype Unicode = Unicode(lower: char -> char, letter: char -> bool, space: char -> bool)

  /** White space does not become a letter in lower case. */
  ghost predicate Sane(u: Unicode) {
    u.space(' ') && forall c :: u.space(c) ==> !u.letter(u.lower(c))
  }

  function FrStopwords(): set<string> {
    {"le", "la", "les", "un", "une", "des", "du", "au", "aux"} +
    {"de", "en", "dans", "sur", "avec", "pour", "par", "vers", "sans", "sous"} +
    {"et", "ou", "mais", "donc", "car", "ni", "que", "qui", "dont", "quand", "comme"} +
    {"je", "tu", "il", "elle", "nous", "vous", "ils", "elles", "se", "ce", "cela", "on"} +
    {"ne", "pas", "plus", "tr\U{e8}s", "bien", "aussi"} +
    {"est", "sont", "\U{e9}tait", "avoir", "\U{ea}tre"} +
    {"cette", "ces", "son", "sa", "ses", "leur", "leurs", "mon", "ma", "mes", "ton", "ta", "tes"}
  }

  function EnStopwords(): set<string> {
    {"the", "a", "an", "in", "on", "at", "to", "for", "of", "with", "by", "from", "into", "about"} +
    {"and", "or", "but", "if", "than", "though", "that", "which", "when", "while"} +
    {"it", "its", "they", "them", "their", "we", "our", "you", "your"} +
    {"he", "she", "his", "her", "this", "these"} +
    {"is", "are", "was", "were", "be", "been", "being", "have", "has", "had", "do", "does", "did"} +
    {"will", "would", "could", "should", "may", "might", "shall", "can"} +
    {"not", "also", "very", "just", "as"}
  }

  const MIN_TOKENS := 5

  // ----- Tokens -----

  function Lower(s: string, u: Unicode): string {
    seq(|s|, i requires 0 <= i < |s| => u.lower(s[i]))
  }

  function Tokens(s: string, u: Unicode): seq<string> {
    Runs(Lower(s, u), u.letter)
  }

  method Tokenize(s: string, u: Unicode) returns (words: seq<string>)
    ensures words == Tokens(s, u)
  {
    words := CollectRuns(Lower(s, u), u.letter);
  }

  /** Text joined by white space has the tokens of its parts. */
  lemma TokensOfJoined(a: string, c: char, b: string, u: Unicode)
    requires Sane(u) && u.space(c)
    ensures Tokens(a + [c] + b, u) == Tokens(a, u) + Tokens(b, u)
  {
    RunsOfJoined(Lower(a, u), u.lower(c), Lower(b, u), u.letter);
    assert Lower(a + [c] + b, u) == Lower(a, u) + [u.lower(c)] + Lower(b, u);
  }

  lemma NoTokens(u: Unicode)
    ensures Tokens("", u) == []
  {
    WholeRun("", u.letter);
    assert Lower("", u) == "";
  }

  ghost predicate Blank(s: string, u: Unicode) {
    forall i :: 0 <= i < |s| ==> u.space(s[i])
  }

  /** TrimSpace. */
  function Trim(s: string, u: Unicode): string
    decreases |s|
  {
    if s == "" then ""
    else if u.space(s[0]) then Trim(s[1..], u)
    else if u.space(s[|s| - 1]) then Trim(s[..|s| - 1], u)
    else s
  }

  lemma {:induction false} TrimKeepsTokens(s: string, u: Unicode)
    requires Sane(u)
    ensures Tokens(Trim(s, u), u) == Tokens(s, u)
    ensures Trim(s, u) == "" <==> Blank(s, u)
    decreases |s|
  {
    NoTokens(u);
    if s != "" {
      if u.space(s[0]) {
        assert s == "" + [s[0]] + s[1..];
        TokensOfJoined("", s[0], s[1..], u);
        TrimKeepsTokens(s[1..], u);
      } else if u.space(s[|s| - 1]) {
        var front := s[..|s| - 1];
        assert s == front + [s[|s| - 1]] + "";
        TokensOfJoined(front, s[|s| - 1], "", u);
        TrimKeepsTokens(front, u);
        assert front[0] == s[0];
      }
    }
  }

  // ----- The verdict on a text -----

  function Hits(words: seq<string>, table: set<string>): nat {
    if words == [] then 0
    else Hits(words[..|words| - 1], table) + if words[|words| - 1] in table then 1 else 0
  }

  /** How many positions hold a word of the table. */
  ghost function Count(words: seq<string>, table: set<string>): nat { |Positions(words, table)| }

  ghost function Positions(words: seq<string>, table: set<string>): set<int> {
    set i | 0 <= i < |words| && words[i] in table
  }

  lemma {:induction false} HitsAreCounted(words: seq<string>, table: set<string>)
    ensures Hits(words, table) == Count(words, table)
  {
    if words == [] {
      assert Positions(words, table) == {};
    } else {
      var n := |words| - 1;
      HitsAreCounted(words[..n], table);
      if words[n] in table {
        assert Positions(words, table) == Positions(words[..n], table) + {n};
      } else {
        assert Positions(words, table) == Positions(words[..n], table);
      }
    }
  }

  method CountStopwords(words: seq<string>) returns (fr: nat, en: nat)
    ensures fr == Hits(words, FrStopwords()) && en == Hits(words, EnStopwords())
  {
    fr, en := 0, 0;
    var frTable, enTable := FrStopwords(), EnStopwords();
    hide FrStopwords, EnStopwords;
    for i := 0 to |words|
      invariant fr == Hits(words[..i], FrStopwords()) && en == Hits(words[..i], EnStopwords())
    {
      assert words[..i + 1][..i] == words[..i];
      if words[i] in frTable {
        fr := fr + 1;
      }
      if words[i] in enTable {
        en := en + 1;
      }
    }
    assert words[..|words|] == words;
  }

  /** At least three fifths of all stopword hits belong to the locale. */
  predicate Dominant(words: seq<string>, locale: string) {
    var fr, en := Hits(words, FrStopwords()), Hits(words, EnStopwords());
    |words| < MIN_TOKENS || fr + en == 0 || 5 * (if locale == "fr" then fr else en) >= 3 * (fr + en)
  }

  predicate Correct(text: string, locale: string, u: Unicode) {
    text != "" && (locale == "fr" || locale == "en" ==> Dominant(Tokens(text, u), locale))
  }

  /** What the tokens decide: pass when there are too few of them or none is in a table,
      otherwise when at least three fifths of the hits are in the locale's own. */
  method IsCorrectLanguage(text: string, locale: string, u: Unicode) returns (ok: bool)
    ensures ok == Correct(text, locale, u)
    ensures text == "" ==> !ok
    ensures text != "" ==> var words := Tokens(text, u);
      var fr, en := Count(words, FrStopwords()), Count(words, EnStopwords());
      if |words| < 5 || fr + en == 0 then ok
      else
        && (locale == "fr" ==> (ok <==> 5 * fr >= 3 * (fr + en)))
        && (locale == "en" ==> (ok <==> 5 * en >= 3 * (fr + en)))
        && (locale != "fr" && locale != "en" ==> ok)
  {
    HitsAreCounted(Tokens(text, u), FrStopwords());
    HitsAreCounted(Tokens(text, u), EnStopwords());
    hide FrStopwords, EnStopwords, Hits, Count;
    if text == "" {
      return false;
    }
    if locale != "fr" && locale != "en" {
      return true;
    }
    var words := Tokenize(text, u);
    if |words| < MIN_TOKENS {
      return true;
    }
    var fr, en := CountStopwords(words);
    var total := fr + en;
    if total == 0 {
      return true;
    }
    if locale == "fr" {
      return 5 * fr >= 3 * total;
    }
    ok := 5 * en >= 3 * total;
  }

  // ----- What the verdict means -----

  /** The table of the locale, and the other one. */
  function Own(locale: string): set<string> { if locale == "fr" then FrStopwords() else EnStopwords() }

  function Other(locale: string): set<string> { if locale == "fr" then EnStopwords() else FrStopwords() }

  /** Only words of one language: that language passes and the other fails. */
  lemma OneLanguageOnly(text: string, locale: string, u: Unicode)
    requires (locale == "fr" || locale == "en") && text != "" && |Tokens(text, u)| >= 5
    requires Count(Tokens(text, u), Own(locale)) > 0 && Count(Tokens(text, u), Other(locale)) == 0
    ensures Correct(text, locale, u) && !Correct(text, if locale == "fr" then "en" else "fr", u)
  {
    HitsAreCounted(Tokens(text, u), FrStopwords());
    HitsAreCounted(Tokens(text, u), EnStopwords());
    hide FrStopwords, EnStopwords, Hits, Count;
  }

  /** One more word that is only in the locale's table never turns a pass into a failure,
      once the text is long enough to be judged. */
  lemma MoreOfTheSamePasses(text: string, c: char, w: string, locale: string, u: Unicode)
    requires Sane(u) && u.space(c) && (locale == "fr" || locale == "en")
    requires |Tokens(text, u)| >= 5 && Correct(text, locale, u)
    requires |Tokens(w, u)| == 1 && Tokens(w, u)[0] in Own(locale) && Tokens(w, u)[0] !in Other(locale)
    ensures Correct(text + [c] + w, locale, u)
  {
    TokensOfJoined(text, c, w, u);
    var words, t := Tokens(text, u), Tokens(w, u)[0];
    assert Tokens(text + [c] + w, u) == words + [t];
    assert (words + [t])[..|words|] == words;
    hide FrStopwords, EnStopwords, Tokens;
  }

  /** A text with the French article and no English word is French, and the converse. */
  lemma ArticleDecides(text: string, u: Unicode)
    requires |Tokens(text, u)| >= 5
    ensures "le" in Tokens(text, u) && (forall w :: w in Tokens(text, u) ==> w !in EnStopwords()) ==>
      Correct(text, "fr", u) && !Correct(text, "en", u)
    ensures "the" in Tokens(text, u) && (forall w :: w in Tokens(text, u) ==> w !in FrStopwords()) ==>
      Correct(text, "en", u) && !Correct(text, "fr", u)
  {
    var words := Tokens(text, u);
    assert "le" in FrStopwords() && "the" in EnStopwords();
    NoTokens(u);
    hide FrStopwords, EnStopwords, Correct, Tokens, Count;
    if "le" in words && forall w :: w in words ==> w !in EnStopwords() {
      SomeAndNone(words, "le", FrStopwords(), EnStopwords());
      OneLanguageOnly(text, "fr", u);
    }
    if "the" in words && forall w :: w in words ==> w !in FrStopwords() {
      SomeAndNone(words, "the", EnStopwords(), FrStopwords());
      OneLanguageOnly(text, "en", u);
    }
  }

  lemma SomeAndNone(words: seq<string>, word: string, own: set<string>, other: set<string>)
    requires word in words && word in own && forall w :: w in words ==> w !in other
    ensures Count(words, own) > 0 && Count(words, other) == 0
  {
    var i :| 0 <= i < |words| && words[i] == word;
    assert i in Positions(words, own);
    assert Positions(words, other) == {};
  }

  // ----- The string values of a document -----

  /** How often each string occurs as a value. */
  ghost function Leaves(v: Json): multiset<string>
    decreases v, 1
  {
    match v
    case Str(s) => multiset{s}
    case Arr(items) => ItemLeaves(v, |items|)
    case Obj(fields) => FieldLeaves(v, fields.Keys)
    case _ => multiset{}
  }

  ghost function ItemLeaves(v: Json, n: nat): multiset<string>
    requires v.Arr? && n <= |v.items|
    decreases v, 0, n
  {
    if n == 0 then multiset{} else ItemLeaves(v, n - 1) + Leaves(v.items[n - 1])
  }

  ghost function FieldLeaves(v: Json, ks: set<string>): multiset<string>
    requires v.Obj? && ks <= v.fields.Keys
    decreases v, 0, |ks|
  {
    if ks == {} then multiset{}
    else
      var k :| k in ks;
      FieldLeaves(v, ks - {k}) + Leaves(v.fields[k])
  }

  lemma {:induction false} FieldLeavesPick(v: Json, ks: set<string>, k: string)
    requires v.Obj? && ks <= v.fields.Keys && k in ks
    ensures FieldLeaves(v, ks) == FieldLeaves(v, ks - {k}) + Leaves(v.fields[k])
    decreases |ks|
  {
    var p :| p in ks && FieldLeaves(v, ks) == FieldLeaves(v, ks - {p}) + Leaves(v.fields[p]);
    if p != k {
      FieldLeavesPick(v, ks - {p}, k);
      FieldLeavesPick(v, ks - {k}, p);
      assert ks - {p} - {k} == ks - {k} - {p};
    }
  }

  // ----- How often a string counts -----

  ghost function Under(step: Step, places: set<seq<Step>>): set<seq<Step>> {
    set p | p in places :: [step] + p
  }

  lemma {:induction false} UnderSize(step: Step, places: set<seq<Step>>)
    ensures |Under(step, places)| == |places|
    decreases |places|
  {
    if places == {} {
      assert Under(step, places) == {};
    } else {
      var p :| p in places;
      UnderSize(step, places - {p});
      assert ([step] + p)[1..] == p;
      forall q | q in places - {p} ensures [step] + q != [step] + p {
        assert ([step] + q)[1..] == q;
      }
      assert Under(step, places) == Under(step, places - {p}) + {[step] + p};
    }
  }

  /** The positions of a document that hold the string s. */
  ghost function Places(v: Json, s: string): set<seq<Step>>
    decreases v, 1
  {
    match v
    case Str(t) => if t == s then {[]} else {}
    case Arr(items) => ItemPlaces(v, s, |items|)
    case Obj(fields) => FieldPlaces(v, s, fields.Keys)
    case _ => {}
  }

  ghost function ItemPlaces(v: Json, s: string, n: nat): set<seq<Step>>
    requires v.Arr? && n <= |v.items|
    decreases v, 0, n
  {
    if n == 0 then {} else ItemPlaces(v, s, n - 1) + Under(Element(n - 1), Places(v.items[n - 1], s))
  }

  ghost function FieldPlaces(v: Json, s: string, ks: set<string>): set<seq<Step>>
    requires v.Obj? && ks <= v.fields.Keys
    decreases v, 0, |ks|
  {
    set k, p | k in ks && p in Under(Field(k), Places(v.fields[k], s)) :: p
  }

  lemma {:induction false} PlacesAre(v: Json, s: string, pos: seq<Step>)
    ensures pos in Places(v, s) <==> DocAt(v, pos) == Some(Str(s))
    decreases v
  {
    match v {
      case Arr(items) =>
        ItemPlacesAre(v, s, |items|, pos);
      case Obj(fields) =>
        if pos != [] && pos[0].Field? && pos[0].name in fields {
          PlacesAre(fields[pos[0].name], s, pos[1..]);
          InUnder(pos[0], Places(fields[pos[0].name], s), pos);
        }
      case _ =>
    }
  }

  lemma InUnder(step: Step, places: set<seq<Step>>, pos: seq<Step>)
    ensures pos in Under(step, places) <==> pos != [] && pos[0] == step && pos[1..] in places
  {
    if pos != [] && pos[0] == step {
      assert pos == [step] + pos[1..];
    }
    if p :| p in places && pos == [step] + p {
      assert pos[1..] == p;
    }
  }

  lemma {:induction false} ItemPlacesAre(v: Json, s: string, n: nat, pos: seq<Step>)
    requires v.Arr? && n <= |v.items|
    ensures pos in ItemPlaces(v, s, n) <==>
      pos != [] && pos[0].Element? && pos[0].i < n && DocAt(v, pos) == Some(Str(s))
    decreases v, 0, n
  {
    if n > 0 {
      ItemPlacesAre(v, s, n - 1, pos);
      InUnder(Element(n - 1), Places(v.items[n - 1], s), pos);
      if pos != [] && pos[0] == Element(n - 1) {
        PlacesAre(v.items[n - 1], s, pos[1..]);
      }
    }
  }

  /** A string counts as often as there are positions that hold it. */
  lemma {:induction false} LeavesArePlaces(v: Json, s: string)
    ensures Leaves(v)[s] == |Places(v, s)|
    decreases v
  {
    match v {
      case Arr(items) => ItemsArePlaces(v, s, |items|);
      case Obj(fields) => FieldsArePlaces(v, s, fields.Keys);
      case _ =>
    }
  }

  lemma {:induction false} ItemsArePlaces(v: Json, s: string, n: nat)
    requires v.Arr? && n <= |v.items|
    ensures ItemLeaves(v, n)[s] == |ItemPlaces(v, s, n)|
    decreases v, 0, n
  {
    if n > 0 {
      var a, b := ItemPlaces(v, s, n - 1), Under(Element(n - 1), Places(v.items[n - 1], s));
      ItemsArePlaces(v, s, n - 1);
      LeavesArePlaces(v.items[n - 1], s);
      UnderSize(Element(n - 1), Places(v.items[n - 1], s));
      forall pos ensures !(pos in a && pos in b) {
        ItemPlacesAre(v, s, n - 1, pos);
        InUnder(Element(n - 1), Places(v.items[n - 1], s), pos);
      }
      assert a !! b;
    }
  }

  lemma {:induction false} FieldsArePlaces(v: Json, s: string, ks: set<string>)
    requires v.Obj? && ks <= v.fields.Keys
    ensures FieldLeaves(v, ks)[s] == |FieldPlaces(v, s, ks)|
    decreases v, 0, |ks|
  {
    if ks == {} {
      assert FieldPlaces(v, s, ks) == {};
    } else {
      var k :| k in ks;
      var a, b := FieldPlaces(v, s, ks - {k}), Under(Field(k), Places(v.fields[k], s));
      FieldsArePlaces(v, s, ks - {k});
      FieldLeavesPick(v, ks, k);
      LeavesArePlaces(v.fields[k], s);
      UnderSize(Field(k), Places(v.fields[k], s));
      forall pos ensures !(pos in a && pos in b) {
        InUnder(Field(k), Places(v.fields[k], s), pos);
        if pos in a {
          var j :| j in ks - {k} && pos in Under(Field(j), Places(v.fields[j], s));
          InUnder(Field(j), Places(v.fields[j], s), pos);
        }
      }
      assert a !! b && FieldPlaces(v, s, ks) == a + b;
    }
  }

  // ----- Gathering -----

  /** Each value followed by a space. */
  function Spell(leaves: seq<string>): string {
    if leaves == [] then "" else Spell(leaves[..|leaves| - 1]) + (leaves[|leaves| - 1] + [' '])
  }

  lemma {:induction false} SpellJoins(a: seq<string>, b: seq<string>)
    ensures Spell(a + b) == Spell(a) + Spell(b)
  {
    if b == [] {
      assert a + b == a;
    } else {
      var front := b[..|b| - 1];
      assert (a + b)[..|a + b| - 1] == a + front;
      SpellJoins(a, front);
    }
  }

  /** s lists the values of the bag in some order. */
  ghost predicate Spells(s: string, bag: multiset<string>) {
    exists leaves :: Lists(leaves, s, bag)
  }

  ghost predicate Lists(leaves: seq<string>, s: string, bag: multiset<string>) {
    multiset(leaves) == bag && s == Spell(leaves)
  }

  lemma SpellsJoins(s: string, a: multiset<string>, t: string, b: multiset<string>)
    requires Spells(s, a) && Spells(t, b)
    ensures Spells(s + t, a + b)
  {
    var xs :| Lists(xs, s, a);
    var ys :| Lists(ys, t, b);
    SpellJoins(xs, ys);
    assert Lists(xs + ys, s + t, a + b);
  }

  /** r is sb with the bag's values spelled behind it. */
  ghost predicate Appends(sb: string, r: string, bag: multiset<string>) {
    |sb| <= |r| && r[..|sb|] == sb && Spells(r[|sb|..], bag)
  }

  lemma AppendsNothing(sb: string)
    ensures Appends(sb, sb, multiset{})
  {
    assert Lists([], "", multiset{}) && sb[|sb|..] == "";
  }

  lemma AppendsString(sb: string, s: string)
    ensures Appends(sb, sb + s + [' '], multiset{s})
  {
    var r := sb + s + [' '];
    assert [s][..0] == [] && r[|sb|..] == s + [' '];
    assert Lists([s], s + [' '], multiset{s});
  }

  lemma AppendsTwice(sb: string, m: string, a: multiset<string>, r: string, b: multiset<string>)
    requires Appends(sb, m, a) && Appends(m, r, b)
    ensures Appends(sb, r, a + b)
  {
    SpellsJoins(m[|sb|..], a, r[|m|..], b);
    assert r == m + r[|m|..];
    assert r[|sb|..] == m[|sb|..] + r[|m|..];
  }

  lemma LeavesIs(v: Json)
    ensures v.Str? ==> Leaves(v) == multiset{v.s}
    ensures v.Arr? ==> Leaves(v) == ItemLeaves(v, |v.items|)
    ensures v.Obj? ==> Leaves(v) == FieldLeaves(v, v.fields.Keys)
    ensures !v.Str? && !v.Arr? && !v.Obj? ==> Leaves(v) == multiset{}
  {
  }

  lemma LeavesStep(v: Json, n: nat)
    requires v.Arr? && n < |v.items|
    ensures ItemLeaves(v, 0) == multiset{} && ItemLeaves(v, n + 1) == ItemLeaves(v, n) + Leaves(v.items[n])
  {
  }

  /** gatherStrings over a decoded value. */
  method GatherStrings(v: Json, sb: string) returns (r: string)
    ensures Appends(sb, r, Leaves(v))
    decreases v, 1
  {
    hide *;
    LeavesIs(v);
    match v
    case Str(s) =>
      AppendsString(sb, s);
      r := sb + s + [' '];
    case Obj(_) => r := GatherFields(v, sb);
    case Arr(_) => r := GatherItems(v, sb);
    case _ =>
      AppendsNothing(sb);
      r := sb;
  }

  /** Object entries come in an arbitrary order. */
  method GatherFields(v: Json, sb: string) returns (r: string)
    requires v.Obj?
    ensures Appends(sb, r, FieldLeaves(v, v.fields.Keys))
    decreases v, 0
  {
    hide Appends;
    r := sb;
    AppendsNothing(sb);
    var rest := v.fields.Keys;
    while rest != {}
      invariant rest <= v.fields.Keys
      invariant Appends(sb, r, FieldLeaves(v, v.fields.Keys - rest))
      decreases rest
    {
      var k :| k in rest;
      ghost var done := v.fields.Keys - (rest - {k});
      assert done - {k} == v.fields.Keys - rest;
      FieldLeavesPick(v, done, k);
      var m := GatherStrings(v.fields[k], r);
      AppendsTwice(sb, r, FieldLeaves(v, done - {k}), m, Leaves(v.fields[k]));
      r := m;
      rest := rest - {k};
    }
    assert v.fields.Keys - {} == v.fields.Keys;
  }

  method GatherItems(v: Json, sb: string) returns (r: string)
    requires v.Arr?
    ensures Appends(sb, r, ItemLeaves(v, |v.items|))
    decreases v, 0
  {
    hide Appends;
    r := sb;
    AppendsNothing(sb);
    for i := 0 to |v.items|
      invariant Appends(sb, r, ItemLeaves(v, i))
    {
      LeavesStep(v, i);
      var m := GatherStrings(v.items[i], r);
      AppendsTwice(sb, r, ItemLeaves(v, i), m, Leaves(v.items[i]));
      r := m;
    }
  }

  // ----- Order does not matter -----

  function TokensOfAll(leaves: seq<string>, u: Unicode): seq<string> {
    if leaves == [] then [] else TokensOfAll(leaves[..|leaves| - 1], u) + Tokens(leaves[|leaves| - 1], u)
  }

  /** Tokenising the separator-joined values is joining their tokens. */
  lemma {:induction false} TokensOfSpell(leaves: seq<string>, u: Unicode)
    requires Sane(u)
    ensures Tokens(Spell(leaves), u) == TokensOfAll(leaves, u)
  {
    NoTokens(u);
    if leaves != [] {
      var front, last := leaves[..|leaves| - 1], leaves[|leaves| - 1];
      TokensOfSpell(front, u);
      TokensOfPrefixed(front, last, u);
    }
  }

  lemma TokensOfPrefixed(front: seq<string>, last: string, u: Unicode)
    requires Sane(u)
    ensures Tokens(Spell(front) + (last + [' ']), u) == Tokens(Spell(front), u) + Tokens(last, u)
  {
    NoTokens(u);
    var a := Spell(front);
    assert a + (last + [' ']) == (a + last) + [' '] + "";
    TokensOfJoined(a + last, ' ', "", u);
    if front == [] {
      assert a + last == last;
    } else {
      var most := Spell(front[..|front| - 1]) + front[|front| - 1];
      assert a + last == most + [' '] + last && a == most + [' '] + "";
      TokensOfJoined(most, ' ', last, u);
      TokensOfJoined(most, ' ', "", u);
    }
  }

  function RemoveAt(s: seq<string>, i: nat): seq<string>
    requires i < |s|
  {
    s[..i] + s[i + 1..]
  }

  lemma {:induction false} TokensOfAllJoins(a: seq<string>, b: seq<string>, u: Unicode)
    ensures TokensOfAll(a + b, u) == TokensOfAll(a, u) + TokensOfAll(b, u)
  {
    if b == [] {
      assert a + b == a;
    } else {
      var front := b[..|b| - 1];
      assert (a + b)[..|a + b| - 1] == a + front;
      TokensOfAllJoins(a, front, u);
    }
  }

  lemma TokensWithoutOne(s: seq<string>, i: nat, u: Unicode)
    requires i < |s|
    ensures multiset(TokensOfAll(s, u)) == multiset(TokensOfAll(RemoveAt(s, i), u)) + multiset(Tokens(s[i], u))
  {
    assert s == s[..i] + ([s[i]] + s[i + 1..]);
    TokensOfAllJoins(s[..i], [s[i]] + s[i + 1..], u);
    TokensOfAllJoins([s[i]], s[i + 1..], u);
    TokensOfAllJoins(s[..i], s[i + 1..], u);
    assert [s[i]][..0] == [] && TokensOfAll([s[i]], u) == Tokens(s[i], u);
  }

  lemma RemoveMatching(a: seq<string>, b: seq<string>) returns (i: nat)
    requires a != [] && multiset(a) == multiset(b)
    ensures i < |b| && b[i] == a[|a| - 1] && multiset(a[..|a| - 1]) == multiset(RemoveAt(b, i))
  {
    var x := a[|a| - 1];
    assert a == a[..|a| - 1] + [x];
    assert multiset(a[..|a| - 1]) == multiset(a) - multiset{x};
    assert x in multiset(b);
    var j :| 0 <= j < |b| && b[j] == x;
    i := j;
    BagWithoutOne(b, i);
  }

  lemma BagWithoutOne(s: seq<string>, i: nat)
    requires i < |s|
    ensures multiset(RemoveAt(s, i)) == multiset(s) - multiset{s[i]}
  {
    assert s == s[..i] + ([s[i]] + s[i + 1..]);
  }

  /** The token bag of a document's values is the same in every order. */
  lemma {:induction false} TokenBagIgnoresOrder(a: seq<string>, b: seq<string>, u: Unicode)
    requires multiset(a) == multiset(b)
    ensures multiset(TokensOfAll(a, u)) == multiset(TokensOfAll(b, u))
    decreases |a|
  {
    if a == [] {
      assert |multiset(b)| == |b|;
      assert b == [];
    } else {
      var i := RemoveMatching(a, b);
      TokenBagIgnoresOrder(a[..|a| - 1], RemoveAt(b, i), u);
      TokensWithoutOne(b, i, u);
    }
  }

  lemma {:induction false} HitsWithoutOne(s: seq<string>, i: nat, table: set<string>)
    requires i < |s|
    ensures Hits(s, table) == Hits(RemoveAt(s, i), table) + if s[i] in table then 1 else 0
  {
    var front := s[..|s| - 1];
    if i == |front| {
      assert RemoveAt(s, i) == front;
    } else {
      HitsWithoutOne(front, i, table);
      assert RemoveAt(s, i) == RemoveAt(front, i) + [s[|s| - 1]];
      assert RemoveAt(s, i)[..|s| - 2] == RemoveAt(front, i);
    }
  }

  lemma {:induction false} HitsIgnoreOrder(a: seq<string>, b: seq<string>, table: set<string>)
    requires multiset(a) == multiset(b)
    ensures |a| == |b| && Hits(a, table) == Hits(b, table)
    decreases |a|
  {
    assert |multiset(a)| == |a| && |multiset(b)| == |b|;
    if a != [] {
      var i := RemoveMatching(a, b);
      HitsIgnoreOrder(a[..|a| - 1], RemoveAt(b, i), table);
      HitsWithoutOne(b, i, table);
    }
  }

  ghost predicate AllBlank(bag: multiset<string>, u: Unicode) {
    forall s :: s in bag ==> Blank(s, u)
  }

  lemma {:induction false} SpellBlank(leaves: seq<string>, u: Unicode)
    requires Sane(u)
    ensures Blank(Spell(leaves), u) <==> AllBlank(multiset(leaves), u)
  {
    if leaves != [] {
      var front, last := leaves[..|leaves| - 1], leaves[|leaves| - 1];
      assert leaves == front + [last];
      SpellBlank(front, u);
      BlankJoins(Spell(front), last + [' '], u);
      BlankJoins(last, [' '], u);
    }
  }

  lemma BlankJoins(a: string, b: string, u: Unicode)
    ensures Blank(a + b, u) <==> Blank(a, u) && Blank(b, u)
  {
    if Blank(a + b, u) {
      assert forall i :: 0 <= i < |a| ==> a[i] == (a + b)[i];
      assert forall i :: 0 <= i < |b| ==> b[i] == (a + b)[|a| + i];
    }
  }

  /** The verdict on a gathered text. */
  predicate CorpusVerdict(gathered: string, locale: string, u: Unicode) {
    var corpus := Trim(gathered, u);
    corpus == "" || Correct(corpus, locale, u)
  }

  /** Two visits of the same document give the same verdict, whatever the orders. */
  lemma VerdictIgnoresOrder(v: Json, s: string, t: string, locale: string, u: Unicode)
    requires Sane(u) && Spells(s, Leaves(v)) && Spells(t, Leaves(v))
    ensures CorpusVerdict(s, locale, u) == CorpusVerdict(t, locale, u)
  {
    hide FrStopwords, EnStopwords, Hits, Trim, Tokens, TokensOfAll, Leaves, Spell;
    var a :| Lists(a, s, Leaves(v));
    var b :| Lists(b, t, Leaves(v));
    TrimKeepsTokens(s, u);
    TrimKeepsTokens(t, u);
    SpellBlank(a, u);
    SpellBlank(b, u);
    TokensOfSpell(a, u);
    TokensOfSpell(b, u);
    TokenBagIgnoresOrder(a, b, u);
    HitsIgnoreOrder(TokensOfAll(a, u), TokensOfAll(b, u), FrStopwords());
    HitsIgnoreOrder(TokensOfAll(a, u), TokensOfAll(b, u), EnStopwords());
  }

  /** The verdict on a document, from the bag of its strings. */
  lemma BagDecides(v: Json, gathered: string, locale: string, u: Unicode)
    requires Sane(u) && Spells(gathered, Leaves(v))
    ensures forall leaves :: multiset(leaves) == Leaves(v) ==> var words := TokensOfAll(leaves, u);
      var fr, en := Count(words, FrStopwords()), Count(words, EnStopwords());
      if |words| < 5 || fr + en == 0 then CorpusVerdict(gathered, locale, u)
      else
        && (locale == "fr" ==> (CorpusVerdict(gathered, locale, u) <==> 5 * fr >= 3 * (fr + en)))
        && (locale == "en" ==> (CorpusVerdict(gathered, locale, u) <==> 5 * en >= 3 * (fr + en)))
        && (locale != "fr" && locale != "en" ==> CorpusVerdict(gathered, locale, u))
  {
    hide FrStopwords, EnStopwords, Hits, Count, CorpusVerdict, Leaves, Spells, TokensOfAll;
    forall leaves | multiset(leaves) == Leaves(v)
      ensures var words := TokensOfAll(leaves, u);
        var fr, en := Count(words, FrStopwords()), Count(words, EnStopwords());
        CorpusVerdict(gathered, locale, u) <==>
        |words| < 5 || fr + en == 0
        || ((locale == "fr" ==> 5 * fr >= 3 * (fr + en)) && (locale == "en" ==> 5 * en >= 3 * (fr + en)))
    {
      ListingDecides(v, leaves, gathered, locale, u);
    }
  }

  lemma ListingDecides(v: Json, leaves: seq<string>, gathered: string, locale: string, u: Unicode)
    requires Sane(u) && Spells(gathered, Leaves(v)) && multiset(leaves) == Leaves(v)
    ensures var words := TokensOfAll(leaves, u);
      var fr, en := Count(words, FrStopwords()), Count(words, EnStopwords());
      CorpusVerdict(gathered, locale, u) <==>
      |words| < 5 || fr + en == 0
      || ((locale == "fr" ==> 5 * fr >= 3 * (fr + en)) && (locale == "en" ==> 5 * en >= 3 * (fr + en)))
  {
    var s := Spell(leaves);
    assert Lists(leaves, s, Leaves(v));
    VerdictIgnoresOrder(v, s, gathered, locale, u);
    hide FrStopwords, EnStopwords, Hits, Count, Leaves, Spells, TokensOfAll, Tokens, Trim, Spell;
    TrimKeepsTokens(s, u);
    TokensOfSpell(leaves, u);
    NoTokens(u);
    HitsAreCounted(TokensOfAll(leaves, u), FrStopwords());
    HitsAreCounted(TokensOfAll(leaves, u), EnStopwords());
  }

  /** What the JSON decoder makes of a text: not JSON, JSON it cannot hold (a number out
      of range), or a document. */
  datatype Parsed = Invalid | Undecodable | Decoded(v: Json)

  predicate LooksLikeJson(text: string, parse: string -> Parsed) {
    |text| > 1 && (text[0] == '{' || text[0] == '[') && !parse(text).Invalid?
  }

  method ValidateText(raw: string, locale: string, u: Unicode, parse: string -> Parsed) returns (ok: bool)
    requires Sane(u)
    ensures var text := Trim(raw, u);
      if text == "" then !ok
      else if !LooksLikeJson(text, parse) then ok == Correct(text, locale, u)
      else if parse(text).Undecodable? then ok
      else forall s :: Spells(s, Leaves(parse(text).v)) ==> ok == CorpusVerdict(s, locale, u)
    ensures var text := Trim(raw, u);
      text != "" && !(|text| > 1 && (text[0] == '{' || text[0] == '[') && !parse(text).Invalid?) ==>
      var words := Tokens(raw, u);
      var fr, en := Count(words, FrStopwords()), Count(words, EnStopwords());
      if |words| < 5 || fr + en == 0 then ok
      else
        && (locale == "fr" ==> (ok <==> 5 * fr >= 3 * (fr + en)))
        && (locale == "en" ==> (ok <==> 5 * en >= 3 * (fr + en)))
        && (locale != "fr" && locale != "en" ==> ok)
    ensures var text := Trim(raw, u);
      |text| > 1 && (text[0] == '{' || text[0] == '[') && parse(text).Decoded? ==>
      forall leaves :: multiset(leaves) == Leaves(parse(text).v) ==> var words := TokensOfAll(leaves, u);
        var fr, en := Count(words, FrStopwords()), Count(words, EnStopwords());
        if |words| < 5 || fr + en == 0 then ok
        else
          && (locale == "fr" ==> (ok <==> 5 * fr >= 3 * (fr + en)))
          && (locale == "en" ==> (ok <==> 5 * en >= 3 * (fr + en)))
          && (locale != "fr" && locale != "en" ==> ok)
  {
    hide Trim, Correct, Leaves, Spells;
    TrimKeepsTokens(raw, u);
    var text := Trim(raw, u);
    if text == "" {
      return false;
    }
    if !LooksLikeJson(text, parse) {
      ok := IsCorrectLanguage(text, locale, u);
      return;
    }
    var p := parse(text);
    if p.Undecodable? {
      return true;
    }
    var gathered := GatherStrings(p.v, "");
    assert gathered[|""|..] == gathered;
    BagDecides(p.v, gathered, locale, u);
    forall s | Spells(s, Leaves(p.v)) ensures CorpusVerdict(s, locale, u) == CorpusVerdict(gathered, locale, u) {
      VerdictIgnoresOrder(p.v, s, gathered, locale, u);
    }
    var corpus := Trim(gathered, u);
    if corpus == "" {
      return true;
    }
    ok := IsCorrectLanguage(corpus, locale, u);
  }
}
