/** String operations of the Go standard library that the models rely on, with
    the facts about them that several components share. */
module Text {

  datatype Option<+T> = None | Some(value: T)

  // ----- Substrings -----

  predicate OccursAt(s: string, pat: string, i: int) {
    0 <= i && i + |pat| <= |s| && s[i..i + |pat|] == pat
  }

  predicate Contains(s: string, pat: string) {
    Index(s, pat) >= 0
  }

  /** strings.Index: the leftmost occurrence of pat, or -1. */
  function Index(s: string, pat: string): (r: int)
    ensures -1 <= r <= |s|
    ensures r >= 0 ==> OccursAt(s, pat, r)
    ensures r >= 0 ==> forall j :: 0 <= j < r ==> !OccursAt(s, pat, j)
    ensures r < 0 ==> forall j :: !OccursAt(s, pat, j)
  {
    if pat <= s then
      0
    else if s == "" then
      -1
    else
      var r := Index(s[1..], pat);
      assert forall j :: 0 < j ==> (OccursAt(s, pat, j) <==> OccursAt(s[1..], pat, j - 1)) by {
        forall j | 0 < j ensures OccursAt(s, pat, j) <==> OccursAt(s[1..], pat, j - 1) { OccursShift(s, pat, 1, j); }
      }
      if r < 0 then -1 else r + 1
  }

  lemma OccursShift(s: string, pat: string, d: nat, j: int)
    requires d <= |s| && d <= j
    ensures OccursAt(s, pat, j) <==> OccursAt(s[d..], pat, j - d)
  {
    if j + |pat| <= |s| {
      var a, b := s[j..j + |pat|], s[d..][j - d..j - d + |pat|];
      assert |a| == |b| && forall i :: 0 <= i < |a| ==> a[i] == b[i];
      assert a == b;
    }
  }

  lemma AbsentChar(s: string, c: char)
    requires c !in s
    ensures Index(s, [c]) < 0
  {
    forall j ensures !OccursAt(s, [c], j) {
      if 0 <= j < |s| {
        assert s[j..j + 1] == [s[j]];
      }
    }
  }

  /** strings.ReplaceAll for a non-empty pattern: leftmost, non-overlapping. */
  function ReplaceAll(s: string, old_: string, new_: string): string
    requires old_ != ""
    decreases |s|
  {
    var i := Index(s, old_);
    if i < 0 then s else s[..i] + new_ + ReplaceAll(s[i + |old_|..], old_, new_)
  }

  /** The pieces with sep between each two. */
  function JoinWith(pieces: seq<string>, sep: string): string {
    if pieces == [] then "" else if |pieces| == 1 then pieces[0] else pieces[0] + sep + JoinWith(pieces[1..], sep)
  }

  /** ReplaceAll puts the new text between the same pieces, none of which holds the old. */
  lemma {:induction false} ReplaceAllRejoins(s: string, old_: string, new_: string) returns (pieces: seq<string>)
    requires old_ != ""
    ensures pieces != [] && JoinWith(pieces, old_) == s && JoinWith(pieces, new_) == ReplaceAll(s, old_, new_)
    ensures forall i :: 0 <= i < |pieces| ==> !Contains(pieces[i], old_)
    decreases |s|
  {
    var i := Index(s, old_);
    if i < 0 {
      pieces := [s];
    } else {
      var rest := ReplaceAllRejoins(s[i + |old_|..], old_, new_);
      pieces := [s[..i]] + rest;
      assert pieces[1..] == rest;
      assert s == s[..i] + old_ + s[i + |old_|..];
      NoEarlierOccurrence(s, old_, i);
      hide Index;
    }
  }

  lemma NoEarlierOccurrence(s: string, pat: string, i: nat)
    requires pat != "" && Index(s, pat) == i
    ensures !Contains(s[..i], pat)
  {
    var j := Index(s[..i], pat);
    if j >= 0 {
      assert OccursAt(s[..i], pat, j);
      assert s[..i][j..j + |pat|] == s[j..j + |pat|];
      assert OccursAt(s, pat, j);
    }
  }

  // ----- Character classes and the regular expressions built from them -----

  predicate IsDigit(c: char) { '0' <= c <= '9' }

  predicate IsLowerHex(c: char) { IsDigit(c) || 'a' <= c <= 'f' }

  predicate IsB64Char(c: char) { IsDigit(c) || 'a' <= c <= 'z' || 'A' <= c <= 'Z' || c == '-' || c == '_' }

  predicate AllDigits(s: string) { forall i :: 0 <= i < |s| ==> IsDigit(s[i]) }

  /** ^[0-9]+$ */
  predicate IsDecimal(s: string) { s != "" && AllDigits(s) }

  /** ^[A-Za-z0-9_-]+$ */
  predicate IsB64Url(s: string) { s != "" && forall i :: 0 <= i < |s| ==> IsB64Char(s[i]) }

  /** Lower-case 8-4-4-4-12 hexadecimal. */
  predicate IsUuid(s: string) {
    && |s| == 36
    && forall i :: 0 <= i < 36 ==> if i == 8 || i == 13 || i == 18 || i == 23 then s[i] == '-' else IsLowerHex(s[i])
  }

  /** Three base64url parts separated by dots. */
  predicate IsJws(s: string) {
    exists i, j :: 0 < i < j - 1 < |s| - 2 && IsJwsAt(s, i, j)
  }

  predicate IsJwsAt(s: string, i: nat, j: nat)
    requires i < |s| && j < |s|
  {
    s[i] == '.' && s[j] == '.' && forall k :: 0 <= k < |s| && k != i && k != j ==> IsB64Char(s[k])
  }

  // ----- Splitting -----

  /** The length of the longest prefix whose characters all satisfy p. */
  function RunLength(s: string, p: char -> bool): (n: nat)
    ensures n <= |s|
    ensures forall i :: 0 <= i < n ==> p(s[i])
    ensures n < |s| ==> !p(s[n])
  {
    if s == "" || !p(s[0]) then 0 else 1 + RunLength(s[1..], p)
  }

  /** The maximal runs of characters satisfying p, in order. */
  function Runs(s: string, p: char -> bool): seq<string>
    decreases |s|
  {
    if s == "" then []
    else if !p(s[0]) then Runs(s[1..], p)
    else [s[..RunLength(s, p)]] + Runs(s[RunLength(s, p)..], p)
  }

  /** What the next character does to a word being read. */
  lemma RunsStep(w: string, c: char, rest: string, p: char -> bool)
    requires forall i :: 0 <= i < |w| ==> p(w[i])
    ensures !p(c) && w != "" ==> Runs(w + ([c] + rest), p) == [w] + Runs(rest, p)
    ensures !p(c) && w == "" ==> Runs(w + ([c] + rest), p) == Runs(rest, p)
  {
    var s := w + ([c] + rest);
    if !p(c) {
      RunLengthIs(s, |w|, p);
      assert s[..|w|] == w && s[|w|..] == [c] + rest && s[|w|..][1..] == rest;
    }
  }

  lemma WholeRun(w: string, p: char -> bool)
    requires forall i :: 0 <= i < |w| ==> p(w[i])
    ensures Runs(w, p) == if w == "" then [] else [w]
  {
    RunLengthIs(w, |w|, p);
    assert w[..|w|] == w && w[|w|..] == "";
  }

  lemma RunLengthIs(s: string, n: nat, p: char -> bool)
    requires n <= |s| && (forall i :: 0 <= i < n ==> p(s[i])) && (n < |s| ==> !p(s[n]))
    ensures RunLength(s, p) == n
  {
  }

  /** Splitting two texts joined by a separator is splitting each of them. */
  lemma {:induction false} RunsOfJoined(a: string, sep: char, b: string, p: char -> bool)
    requires !p(sep)
    ensures Runs(a + [sep] + b, p) == Runs(a, p) + Runs(b, p)
    decreases |a|
  {
    var s := a + [sep] + b;
    if a == "" {
      assert s == [sep] + b && s[1..] == b;
    } else if !p(a[0]) {
      RunsOfJoined(a[1..], sep, b, p);
      assert s[1..] == a[1..] + [sep] + b;
    } else {
      var n := RunLength(a, p);
      RunLengthIs(s, n, p);
      assert s[..n] == a[..n] && s[n..] == a[n..] + [sep] + b;
      RunsOfJoined(a[n..], sep, b, p);
      assert [a[..n]] + (Runs(a[n..], p) + Runs(b, p)) == ([a[..n]] + Runs(a[n..], p)) + Runs(b, p);
    }
  }

  /** The run-collecting loop: a buffer that is flushed at each separator. */
  method CollectRuns(s: string, p: char -> bool) returns (words: seq<string>)
    ensures words == Runs(s, p)
  {
    hide *;
    words := [];
    var buf := "";
    assert "" + s[0..] == s;
    for i := 0 to |s|
      invariant forall j :: 0 <= j < |buf| ==> p(buf[j])
      invariant words + Runs(buf + s[i..], p) == Runs(s, p)
    {
      assert s[i..] == [s[i]] + s[i + 1..];
      RunsStep(buf, s[i], s[i + 1..], p);
      if p(s[i]) {
        assert buf + s[i..] == (buf + [s[i]]) + s[i + 1..];
        buf := buf + [s[i]];
      } else {
        if buf != "" {
          words := words + [buf];
          buf := "";
        }
        assert "" + s[i + 1..] == s[i + 1..];
      }
    }
    assert buf + s[|s|..] == buf;
    WholeRun(buf, p);
    if buf != "" {
      words := words + [buf];
    }
  }

  // ----- Decimal numerals -----

  function Decimal(n: nat): (s: string)
    ensures IsDecimal(s)
  {
    var d := [Digit(n % 10)];
    if n < 10 then d else Decimal(n / 10) + d
  }

  function Digit(n: nat): (c: char)
    requires n < 10
    ensures IsDigit(c)
  {
    '0' + n as char
  }

  /** The number a string of digits stands for. */
  function ValueOf(s: string): int {
    if s == "" then 0 else 10 * ValueOf(s[..|s| - 1]) + (s[|s| - 1] as int - '0' as int)
  }

  lemma {:induction false} ValueOfDecimal(n: nat)
    ensures ValueOf(Decimal(n)) == n && (n > 0 ==> Decimal(n)[0] != '0')
  {
    var d := [Digit(n % 10)];
    if n < 10 {
      assert d[..0] == "";
    } else {
      ValueOfDecimal(n / 10);
      assert Decimal(n)[..|Decimal(n)| - 1] == Decimal(n / 10);
    }
  }

  // ----- Order and sorting -----

  /** Lexicographic order: Go's < on strings. */
  predicate Less(a: string, b: string) {
    b != "" && (a == "" || a[0] < b[0] || (a[0] == b[0] && Less(a[1..], b[1..])))
  }

  /** They agree up to i, where a ends or has the smaller character. */
  predicate FirstDiffersAt(a: string, b: string, i: nat) {
    i <= |a| && i < |b| && a[..i] == b[..i] && (i == |a| || a[i] < b[i])
  }

  lemma {:induction false} LessIff(a: string, b: string)
    ensures Less(a, b) <==> exists i :: FirstDiffersAt(a, b, i)
  {
    forall i: nat | FirstDiffersAt(a, b, i) && i > 0 ensures a != "" && b != "" && a[0] == b[0] {
      assert a[..i][0] == b[..i][0];
    }
    if b != "" && (a == "" || a[0] < b[0]) {
      assert FirstDiffersAt(a, b, 0);
    } else if a != "" && b != "" && a[0] == b[0] {
      LessIff(a[1..], b[1..]);
      if i: nat :| FirstDiffersAt(a[1..], b[1..], i) {
        assert a[..i + 1] == [a[0]] + a[1..][..i] && b[..i + 1] == [b[0]] + b[1..][..i];
        assert FirstDiffersAt(a, b, i + 1);
      }
      if i: nat :| FirstDiffersAt(a, b, i) {
        assert i > 0 && a[1..][..i - 1] == a[..i][1..] && b[1..][..i - 1] == b[..i][1..];
        assert FirstDiffersAt(a[1..], b[1..], i - 1);
      }
    }
  }

  lemma {:induction false} LessTransitive(a: string, b: string, c: string)
    requires Less(a, b) && Less(b, c)
    ensures Less(a, c)
  {
    if a != "" && a[0] == b[0] && b[0] == c[0] {
      LessTransitive(a[1..], b[1..], c[1..]);
    }
  }

  lemma {:induction false} LessTotal(a: string, b: string)
    ensures Less(a, b) || Less(b, a) || a == b
    ensures !(Less(a, b) && Less(b, a))
    ensures !Less(a, a)
  {
    if a != "" {
      LessIrreflexive(a);
    }
    if a != "" && b != "" && a[0] == b[0] {
      LessTotal(a[1..], b[1..]);
      assert a == [a[0]] + a[1..] && b == [b[0]] + b[1..];
    }
  }

  lemma LessIrreflexive(a: string)
    ensures !Less(a, a)
  {
    if a != "" {
      LessIrreflexive(a[1..]);
    }
  }

  predicate StrictlySorted(s: seq<string>) {
    forall i, j :: 0 <= i < j < |s| ==> Less(s[i], s[j])
  }

  function Elements<T>(s: seq<T>): set<T> {
    set x | x in s
  }

  /** The elements of a set in ascending order (sortedKeys). */
  ghost function Sorted(s: set<string>): (r: seq<string>)
    ensures StrictlySorted(r)
    ensures forall x :: x in r <==> x in s
  {
    if s == {} then
      []
    else
      var x :| x in s;
      Insert(x, Sorted(s - {x}))
  }

  function Insert(x: string, s: seq<string>): (r: seq<string>)
    requires StrictlySorted(s)
    ensures StrictlySorted(r)
    ensures forall y :: y in r <==> y == x || y in s
  {
    if s == [] then
      [x]
    else if x == s[0] then
      s
    else if Less(x, s[0]) then
      assert forall i :: 0 < i < |s| ==> Less(x, s[i]) by {
        forall i | 0 < i < |s| ensures Less(x, s[i]) { LessTransitive(x, s[0], s[i]); }
      }
      assert forall y :: y in [x] + s <==> y == x || y in s;
      [x] + s
    else
      LessTotal(x, s[0]);
      var t := Insert(x, s[1..]);
      assert forall i :: 0 <= i < |t| ==> Less(s[0], t[i]) by {
        forall i | 0 <= i < |t| ensures Less(s[0], t[i]) { assert t[i] in t; }
      }
      assert s == [s[0]] + s[1..];
      assert forall y :: y in [s[0]] + t <==> y == s[0] || y in t;
      [s[0]] + t
  }

  /** A set has one strictly sorted listing. */
  lemma {:induction false} SortedIsUnique(a: seq<string>, b: seq<string>)
    requires StrictlySorted(a) && StrictlySorted(b)
    requires forall x :: x in a <==> x in b
    ensures a == b
  {
    assert a != [] ==> a[0] in b;
    assert b != [] ==> b[0] in a;
    if a != [] && b != [] {
      LessTotal(a[0], b[0]);
      assert a[0] == b[0];
      forall x ensures x in a[1..] <==> x in b[1..] {
        LessTotal(a[0], x);
        assert x in a <==> x == a[0] || x in a[1..] by { assert a == [a[0]] + a[1..]; }
        assert x in b <==> x == b[0] || x in b[1..] by { assert b == [b[0]] + b[1..]; }
      }
      SortedIsUnique(a[1..], b[1..]);
      assert a == [a[0]] + a[1..] && b == [b[0]] + b[1..];
    }
  }

  /** Sorting by repeated insertion, in whatever order the set yields its members. */
  method SortKeys(s: set<string>) returns (r: seq<string>)
    ensures r == Sorted(s)
  {
    r := [];
    var rest := s;
    while rest != {}
      invariant rest <= s
      invariant StrictlySorted(r)
      invariant forall x :: x in r <==> x in s - rest
      decreases rest
    {
      var x :| x in rest;
      r := Insert(x, r);
      rest := rest - {x};
    }
    SortedIsUnique(r, Sorted(s));
  }
}
