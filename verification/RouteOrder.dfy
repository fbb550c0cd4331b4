/**
 Registration order: it never decides what static and :param routes do, and it decides what a
 catch-all does exactly when another route starts with its stem.
 */
module RouteOrder {
  import opened Options
  import opened RouteTree
  import opened RouteTreeAdd
  import opened RouteLookup
  import opened RouteSound
  import opened RouteAccept
  import opened RouteLoose
  import opened RouteReach
  import opened RouteTheorems

  function Paths(routes: Routes): set<string> {
    set r | r in routes :: r.0
  }

  // ---- tables of runs ----

  lemma {:induction false} PathsSnoc(routes: Routes)
    requires routes != []
    ensures var init := routes[..|routes| - 1];
      Paths(routes) == Paths(init) + {routes[|routes| - 1].0}
  {
    var init, last := routes[..|routes| - 1], routes[|routes| - 1];
    assert routes == init + [last];
  }

  lemma {:induction false} PathsBound(routes: Routes)
    ensures |Paths(routes)| <= |routes|
    ensures TableOf(routes).Keys == Paths(routes)
  {
    if routes != [] {
      PathsSnoc(routes);
      PathsBound(routes[..|routes| - 1]);
    }
  }

  lemma {:induction false} TableHolds(routes: Routes, r: (string, RouteData))
    requires |Paths(routes)| == |routes| && r in routes
    ensures r.0 in TableOf(routes) && TableOf(routes)[r.0] == r.1
  {
    PathsBound(routes);
    var init, last := routes[..|routes| - 1], routes[|routes| - 1];
    PathsSnoc(routes);
    PathsBound(init);
    if r != last {
      assert r in init by {
        assert routes == init + [last];
      }
      assert r.0 in Paths(init);
      TableHolds(init, r);
    }
  }

  /** An accepted run registers each path once. */
  lemma {:induction false} BuildDistinct(routes: Routes)
    requires Plausible(routes) && Build(routes).Some?
    ensures |Paths(routes)| == |routes| && TableOf(routes).Keys == Paths(routes)
    ensures forall i, j | 0 <= i < j < |routes| :: routes[i].0 != routes[j].0
    ensures forall r | r in routes :: r.0 in TableOf(routes) && TableOf(routes)[r.0] == r.1
  {
    BuildAgrees(routes);
    PathsBound(routes);
    forall r | r in routes ensures r.0 in TableOf(routes) && TableOf(routes)[r.0] == r.1 {
      TableHolds(routes, r);
    }
    forall i, j | 0 <= i < j < |routes| ensures routes[i].0 != routes[j].0 {
      if routes[i].0 == routes[j].0 {
        Repeated(routes, i, j);
      }
    }
  }

  lemma {:induction false} Repeated(routes: Routes, i: nat, j: nat)
    requires i < j < |routes| && routes[i].0 == routes[j].0
    ensures |Paths(routes)| < |routes|
  {
    var rest := routes[..j] + routes[j + 1..];
    PathsBound(rest);
    forall p ensures p in Paths(routes) <==> p in Paths(rest) {
      if p in Paths(routes) {
        var n :| 0 <= n < |routes| && routes[n].0 == p;
        var m := if n < j then n else if n == j then i else n - 1;
        assert rest[m].0 == p && rest[m] in rest;
      }
    }
    assert Paths(routes) == Paths(rest);
  }

  // ---- which catch-alls are loose ----

  /** None of the first i routes starts with the stem of route i. */
  predicate StemFree(routes: Routes, i: nat)
    requires i < |routes|
  {
    forall j | 0 <= j < i :: !(Stem(routes[i].0) <= routes[j].0)
  }

  /** A catch-all is loose exactly when no route registered before it starts with its stem. */
  lemma {:induction false} LooseIff(routes: Routes, i: nat)
    requires Plausible(routes) && Build(routes).Some? && i < |routes|
    ensures routes[i].0 in LooseOf(routes) <==>
      Starred(routes[i].0) && !AfterParam(routes[i].0) && StemFree(routes, i)
    decreases |routes|
  {
    var n := |routes| - 1;
    BuildDistinct(routes);
    if i < n {
      var init := routes[..n];
      assert forall r | r in init :: r in routes;
      BuildAcceptsIff(routes);
      BuildAcceptsIff(init);
      LooseIff(init, i);
      LooseKept(routes, i);
    } else {
      LooseLast(routes);
    }
  }

  lemma {:induction false} LooseKept(routes: Routes, i: nat)
    requires i < |routes| - 1 && routes[i].0 != routes[|routes| - 1].0
    ensures var init := routes[..|routes| - 1];
      && (routes[i].0 in LooseOf(routes) <==> init[i].0 in LooseOf(init))
      && (StemFree(routes, i) <==> StemFree(init, i))
  {
    var init := routes[..|routes| - 1];
    assert init[i] == routes[i] && forall j | 0 <= j < i :: init[j] == routes[j];
  }

  lemma {:induction false} LooseLast(routes: Routes)
    requires routes != [] && forall i, j | 0 <= i < j < |routes| :: routes[i].0 != routes[j].0
    ensures var n := |routes| - 1; var p := routes[n].0;
      p in LooseOf(routes) <==> Starred(p) && !AfterParam(p) && StemFree(routes, n)
  {
    var n := |routes| - 1;
    var init, p := routes[..n], routes[n].0;
    assert forall j | 0 <= j < n :: init[j] == routes[j];
    FreshIff(init, p);
    NotLooseYet(init, p);
  }

  lemma {:induction false} FreshIff(init: Routes, p: string)
    ensures Fresh(TableOf(init), p) <==>
      Starred(p) && !AfterParam(p) && forall j | 0 <= j < |init| :: !(Stem(p) <= init[j].0)
  {
    PathsBound(init);
    forall j | 0 <= j < |init| ensures init[j].0 in TableOf(init) {
      assert init[j] in init;
    }
    forall k | k in TableOf(init) ensures exists j :: 0 <= j < |init| && init[j].0 == k {
      var r :| r in init && r.0 == k;
    }
  }

  lemma {:induction false} NotLooseYet(init: Routes, p: string)
    requires forall j | 0 <= j < |init| :: init[j].0 != p
    ensures p !in LooseOf(init)
  {
    if init != [] {
      NotLooseYet(init[..|init| - 1], p);
    }
  }

  // ---- the byte before a catch-all's value ----

  /** Pattern p is the stem w with a catch-all below it, which is not right after a parameter. */
  ghost predicate Below(p: string, w: string) {
    Starred(p) && !AfterParam(p) && Stem(p) == w && Good(p)
  }

  lemma {:induction false} BelowParts(p: string, w: string)
    requires Below(p, w)
    ensures var mark := p[|w|..]; p == w + mark && IsOpen(mark) && '*' !in w && !AfterParam(w + "/*")
  {
    SlashBefore(p);
    var i := IndexOf(p, '*');
    var mark := p[|w|..];
    assert p == w + mark && |w| == i - 1 && mark[0] == p[i - 1] && mark[1] == p[i];
    assert forall j | 0 <= j < |w| :: w[j] == p[j];
    SameMark(w, mark, "/*");
  }

  /** What follows the star does not matter to whether it comes right after a parameter. */
  lemma {:induction false} SameMark(w: string, x: string, y: string)
    requires '*' !in w && IsOpen(x) && IsOpen(y)
    ensures AfterParam(w + x) <==> AfterParam(w + y)
    decreases |w|
  {
    var i := FirstWild(w);
    var low := w[i..];
    AfterParamFrom(w, i, x);
    AfterParamFrom(w, i, y);
    if low == "" {
      assert low + x == x && low + y == y;
      OpenNotAfter(x);
      OpenNotAfter(y);
    } else {
      LateStarless(w, i);
      SameMarkParam(low, Segment(low), x, y);
    }
  }

  lemma {:induction false} AfterParamFrom(w: string, i: nat, x: string)
    requires i == FirstWild(w)
    ensures AfterParam(w + x) <==> AfterParam(w[i..] + x)
  {
    assert w + x == w[..i] + (w[i..] + x);
    AfterParamPlain(w[..i], w[i..] + x);
  }

  lemma {:induction false} LateStarless(w: string, i: nat)
    requires '*' !in w && i == FirstWild(w) < |w|
    ensures w[i..][0] == ':' && '*' !in w[i..]
  {
    assert w[i] in w && forall c | c in w[i..] :: c in w;
  }

  lemma {:induction false} SameMarkParam(low: string, name: string, x: string, y: string)
    requires low != "" && low[0] == ':' && '*' !in low && IsOpen(x) && IsOpen(y) && name == Segment(low)
    ensures AfterParam(low + x) <==> AfterParam(low + y)
    decreases |low|, 0
  {
    FirstSegment(low, x);
    var q := low[|name|..];
    AfterSegmentMark(low, name, x);
    AfterSegmentMark(low, name, y);
    assert forall c | c in q :: c in low;
    MarkOpen(q, x);
    MarkOpen(q, y);
    SameMark(q, x, y);
  }

  lemma {:induction false} OpenNotAfter(x: string)
    requires IsOpen(x)
    ensures !AfterParam(x)
  {
    assert FirstWild(x) == 1;
  }

  lemma {:induction false} MarkOpen(w: string, x: string)
    requires '*' !in w && IsOpen(x)
    ensures IsOpen(w + x) <==> w == ""
  {
    if w == "" {
      assert w + x == x;
    } else {
      NotOpenKey(w, x);
    }
  }

  lemma {:induction false} AfterSegmentMark(low: string, name: string, x: string)
    requires low != "" && low[0] == ':' && IsOpen(x) && name == Segment(low)
    ensures AfterParam(low + x) <==> IsOpen(low[|name|..] + x) || AfterParam(low[|name|..] + x)
  {
    FirstSegment(low, x);
    assert FirstWild(low + x) == 0 && (low + x)[0..] == low + x;
  }

  /**
   A catch-all answers a path that goes on from its stem with another byte than a slash, exactly
   when no route registered before it starts with the stem.
   */
  lemma {:induction false} SwallowedIff(routes: Routes, i: nat, w: string, vs: seq<string>, x: string)
    requires Plausible(routes) && Build(routes).Some? && i < |routes| && Below(routes[i].0, w)
    requires SlashFree(vs) && Clear(TableOf(routes), w, vs, x)
    requires x != "" && x[0] != '/'
    ensures Valid(Build(routes).value)
    ensures Lookup(Build(routes).value, Fill(w, vs) + x, []).data == Some(routes[i].1) <==>
      forall j | 0 <= j < i :: !(w <= routes[j].0)
  {
    var s, l, p := TableOf(routes), LooseOf(routes), routes[i].0;
    var mark := p[|w|..];
    assert routes[i] in routes;
    LookupIsRef(routes, Fill(w, vs) + x);
    BuildTame(routes);
    BuildNamed(routes);
    BuildDistinct(routes);
    BelowParts(p, w);
    RefClear(s, l, w, mark, vs, x, []);
    LooseIff(routes, i);
    AtStem(s, l, w, mark, x, [] + Zip(w, vs));
  }

  lemma {:induction false} AtStem(s: Table, l: Table, w: string, mark: string, x: string, ps: seq<PathParam>)
    requires Tame(s, l) && NamedUnder(s, "") && w + mark in s && IsOpen(mark) && x != "" && x[0] != '/'
    ensures var r := Ref(After(s, w), After(l, w), x, ps);
      r.Some? && r.value.data == s[w + mark] <==> w + mark in l
  {
    var a, b := After(s, w), After(l, w);
    if HasOpen(b) {
      var k := OpenPattern(b);
      OneMark(s, l, w, k, mark);
    } else if Ref(a, b, x, ps).Some? {
      var q := RefFinds(a, b, x, ps);
      assert s[w + q].pattern == "" + (w + q) && s[w + mark].pattern == "" + (w + mark);
      assert (w + q)[|w|..] == q && (w + mark)[|w|..] == mark;
      assert "" + (w + q) == w + q && "" + (w + mark) == w + mark;
      assert mark in b <==> w + mark in l;
    } else {
      assert mark in b <==> w + mark in l;
    }
  }

  /** Two catch-alls below one stem are one. */
  lemma {:induction false} OneMark(s: Table, l: Table, w: string, k: string, mark: string)
    requires Tame(s, l) && w + k in s && w + mark in s && IsOpen(k) && IsOpen(mark)
    ensures k == mark
  {
    MarkClash(w, k, mark);
    assert (w + k)[|w|..] == k && (w + mark)[|w|..] == mark;
  }

  lemma {:induction false} MarkClash(w: string, k: string, mark: string)
    requires IsOpen(k) && IsOpen(mark)
    ensures StarClash(w + k, w + mark)
  {
    var i := IndexOf(w + k, '*');
    assert (w + k)[|w| + 1] == '*' && i <= |w| + 1;
    assert forall j | 0 <= j < i :: (w + k)[..i][j] == (w + mark)[j];
  }

  /** For a literal stem no other condition is left. */
  lemma {:induction false} SwallowedLiteral(routes: Routes, i: nat, w: string, x: string)
    requires Plausible(routes) && Build(routes).Some? && i < |routes|
    requires Plain(w) && Below(routes[i].0, w) && x != "" && x[0] != '/'
    ensures Valid(Build(routes).value)
    ensures Lookup(Build(routes).value, w + x, []).data == Some(routes[i].1) <==>
      forall j | 0 <= j < i :: !(w <= routes[j].0)
  {
    PlainParts(TableOf(routes), w, [], x);
    SwallowedIff(routes, i, w, [], x);
  }

  // ---- the order of a run ----

  /** No route starts with the stem of a catch-all, unless the stem ends in a parameter. */
  ghost predicate Lonely(routes: Routes) {
    forall p, q | p in Paths(routes) && q in Paths(routes) && p != q && Starred(p) && !AfterParam(p) :: !(Stem(p) <= q)
  }

  /** The same route with the same captures, or nothing both times. */
  predicate SameFind(m: Match, n: Match) {
    m.data == n.data && (m.data.Some? ==> m.params == n.params)
  }

  ghost predicate Interchangeable(a: Routes, b: Routes)
    requires Plausible(a) && Build(a).Some? && Plausible(b)
  {
    Build(b).Some? && Alike(a, b)
  }

  ghost predicate Alike(a: Routes, b: Routes)
    requires Plausible(a) && Build(a).Some? && Plausible(b) && Build(b).Some?
  {
    BuildAgrees(a);
    BuildAgrees(b);
    forall path :: SameFind(Lookup(Build(a).value, path, []), Lookup(Build(b).value, path, []))
  }

  lemma {:induction false} SameElements(a: Routes, b: Routes)
    requires multiset(a) == multiset(b)
    ensures |a| == |b| && Paths(a) == Paths(b) && (forall r :: r in a <==> r in b)
  {
    assert |a| == |multiset(a)| == |multiset(b)| == |b|;
    forall r ensures r in a <==> r in b {
      assert r in a <==> r in multiset(a);
      assert r in b <==> r in multiset(b);
    }
  }

  /** With lonely catch-alls only, routes may be registered in any order, to the same effect. */
  lemma {:induction false} AnyOrder(a: Routes, b: Routes)
    requires Plausible(a) && Build(a).Some? && Lonely(a) && multiset(a) == multiset(b)
    ensures Plausible(b) && Interchangeable(a, b)
  {
    SameElements(a, b);
    SameMeaning(a, b);
    forall path ensures SameFind(Lookup(Build(a).value, path, []), Lookup(Build(b).value, path, [])) {
      LookupIsRef(a, path);
      LookupIsRef(b, path);
    }
  }

  lemma {:induction false} SameMeaning(a: Routes, b: Routes)
    requires Plausible(a) && Build(a).Some? && Lonely(a)
    requires |a| == |b| && Paths(a) == Paths(b) && (forall r :: r in a <==> r in b)
    ensures Plausible(b) && Build(b).Some? && TableOf(a) == TableOf(b) && LooseOf(a) == LooseOf(b)
    ensures Valid(Build(a).value) && Valid(Build(b).value)
  {
    BuildDistinct(a);
    BuildTame(a);
    Reordered(a, b);
    BuildDistinct(b);
    SameTables(a, b);
    LonelyLoose(a);
    LonelyLoose(b);
    BuildAgrees(a);
    BuildAgrees(b);
  }

  lemma {:induction false} SameTables(a: Routes, b: Routes)
    requires (forall r :: r in a <==> r in b) && TableOf(a).Keys == Paths(a) && TableOf(b).Keys == Paths(b)
    requires forall r | r in a :: r.0 in TableOf(a) && TableOf(a)[r.0] == r.1
    requires forall r | r in b :: r.0 in TableOf(b) && TableOf(b)[r.0] == r.1
    ensures TableOf(a) == TableOf(b)
  {
    assert Paths(a) == Paths(b);
    forall p | p in TableOf(a) ensures TableOf(a)[p] == TableOf(b)[p] {
      var r :| r in a && r.0 == p;
    }
  }

  /** Every lonely catch-all is loose, whatever the order. */
  lemma {:induction false} LonelyLoose(a: Routes)
    requires Plausible(a) && Build(a).Some? && Lonely(a)
    ensures LooseOf(a) == map p | p in TableOf(a) && Starred(p) && !AfterParam(p) :: TableOf(a)[p]
  {
    BuildDistinct(a);
    BuildTame(a);
    forall p | p in TableOf(a) ensures p in LooseOf(a) <==> Starred(p) && !AfterParam(p) {
      var i :| 0 <= i < |a| && a[i].0 == p;
      LooseIff(a, i);
      forall j | 0 <= j < i ensures a[j].0 in Paths(a) && a[j].0 != p {
        assert a[j] in a;
      }
    }
  }

  /** What is pairwise out of the way is accepted in any order. */
  lemma {:induction false} Reordered(a: Routes, b: Routes)
    requires Plausible(a) && Build(a).Some? && Lonely(a) && Tame(TableOf(a), LooseOf(a))
    requires |b| == |a| == |Paths(a)| && Paths(b) == Paths(a) && (forall r :: r in a <==> r in b)
    requires TableOf(a).Keys == Paths(a)
    ensures Build(b).Some?
  {
    assert forall r | r in b :: r.0 != "";
    forall i: nat | i < |b| ensures Takes(b, i) {
      TakesReordered(a, b, i);
    }
    AllTakeEach(b);
    BuildAcceptsIff(b);
  }

  lemma {:induction false} TakesReordered(a: Routes, b: Routes, i: nat)
    requires Plausible(a) && Build(a).Some? && Lonely(a) && Tame(TableOf(a), LooseOf(a))
    requires |b| == |Paths(b)| && Paths(b) == Paths(a) == TableOf(a).Keys && i < |b|
    ensures Takes(b, i)
  {
    var p, init := b[i].0, b[..i];
    assert b[i] in b && p in TableOf(a);
    PathsBound(init);
    forall k | k in TableOf(init) ensures k in TableOf(a) && k != p {
      var j :| 0 <= j < i && b[j].0 == k;
      assert b[j] in b;
      if k == p {
        Repeated(b, j, i);
      }
    }
    LooseAreStarred(init);
    forall k | k in LooseOf(init) ensures !LooseClash(k, p) {
      assert !(Stem(k) <= p);
    }
    assert Good(p) by {
      GoodInTable(a, p);
    }
  }

  lemma {:induction false} LooseAreStarred(init: Routes)
    ensures forall k | k in LooseOf(init) :: k in TableOf(init) && Starred(k) && !AfterParam(k)
  {
    if init != [] {
      LooseAreStarred(init[..|init| - 1]);
    }
  }

  lemma {:induction false} GoodInTable(a: Routes, p: string)
    requires Plausible(a) && Build(a).Some? && p in TableOf(a)
    ensures Good(p)
  {
    if a != [] {
      var init, last := a[..|a| - 1], a[|a| - 1];
      assert last in a && forall r | r in init :: r in a;
      BuildAcceptsIff(a);
      BuildAcceptsIff(init);
      if p != last.0 {
        GoodInTable(init, p);
      }
    }
  }

  // ---- and only then ----

  /** The run with route i moved to the front. */
  function First(a: Routes, i: nat): (b: Routes)
    requires i < |a|
    ensures multiset(b) == multiset(a) && b[0] == a[i]
  {
    assert a == a[..i] + [a[i]] + a[i + 1..];
    [a[i]] + a[..i] + a[i + 1..]
  }

  /** The texts of the parameters themselves, as values for them. */
  function OwnTexts(w: string): seq<string>
    decreases |w|
  {
    if w == "" then []
    else if w[0] == ':' then [Segment(w)] + OwnTexts(w[|Segment(w)|..])
    else OwnTexts(w[1..])
  }

  /** A pattern is a path on which nothing static shadows it: no index holds a wildcard byte. */
  lemma {:induction false} OwnTextsClear(s: Table, w: string, end: string)
    requires '*' !in w
    ensures Fill(w, OwnTexts(w)) == w && SlashFree(OwnTexts(w)) && Clear(s, w, OwnTexts(w), end)
    decreases |w|
  {
    if w == "" {
    } else if w[0] == ':' {
      var name := Segment(w);
      FirstSegment(w, "");
      assert w + "" == w && forall c | c in w[|name|..] :: c in w;
      OwnTextsClear(AfterSegment(s, name), w[|name|..], end);
      assert OwnTexts(w)[1..] == OwnTexts(w[|name|..]);
      assert (w + end)[0] == ':';
    } else {
      assert w[0] in w && forall c | c in w[1..] :: c in w;
      OwnTextsClear(After(s, [w[0]]), w[1..], end);
      assert w == [w[0]] + w[1..];
    }
  }

  /** A catch-all in front swallows what goes on from its stem. */
  lemma {:induction false} SwallowsInFront(b: Routes, w: string)
    requires Plausible(b) && Build(b).Some? && b != [] && Below(b[0].0, w)
    ensures Valid(Build(b).value) && Lookup(Build(b).value, w + "x", []).data == Some(b[0].1)
  {
    BelowParts(b[0].0, w);
    OwnTextsClear(TableOf(b), w, "x");
    SwallowedIff(b, 0, w, OwnTexts(w), "x");
  }

  /** With another route of its stem in front it does not. */
  lemma {:induction false} SparesBehind(c: Routes, r: (string, RouteData), w: string)
    requires Plausible(c) && Build(c).Some? && r in c && Below(r.0, w) && c[0] != r && w <= c[0].0
    ensures Valid(Build(c).value) && Lookup(Build(c).value, w + "x", []).data != Some(r.1)
  {
    BelowParts(r.0, w);
    OwnTextsClear(TableOf(c), w, "x");
    var n :| 0 <= n < |c| && c[n] == r;
    SwallowedIff(c, n, w, OwnTexts(w), "x");
  }

  /** Moving the catch-all to the front and moving the other route to the front cannot both change nothing. */
  lemma {:induction false} OrderTold(a: Routes, i: nat, j: nat)
    requires Plausible(a) && Build(a).Some? && i < |a| && j < |a| && a[i].0 != a[j].0
    requires Starred(a[i].0) && !AfterParam(a[i].0) && Stem(a[i].0) <= a[j].0
    ensures Plausible(First(a, i)) && Plausible(First(a, j))
    ensures !Interchangeable(a, First(a, i)) || !Interchangeable(a, First(a, j))
  {
    var b, c, w := First(a, i), First(a, j), Stem(a[i].0);
    SameElements(b, a);
    SameElements(c, a);
    BuildDistinct(a);
    assert a[i] in a;
    GoodInTable(a, a[i].0);
    if Build(b).Some? && Build(c).Some? {
      SwallowsInFront(b, w);
      SparesBehind(c, a[i], w);
      Unlike(a, b, c, w + "x");
    }
  }

  lemma {:induction false} Unlike(a: Routes, b: Routes, c: Routes, path: string)
    requires Plausible(a) && Build(a).Some? && Plausible(b) && Build(b).Some? && Plausible(c) && Build(c).Some?
    requires Valid(Build(b).value) && Valid(Build(c).value)
    requires Lookup(Build(b).value, path, []).data != Lookup(Build(c).value, path, []).data
    ensures !(Alike(a, b) && Alike(a, c))
  {
    if Alike(a, b) && Alike(a, c) {
      AlikeAt(a, b, path);
      AlikeAt(a, c, path);
    }
  }

  lemma {:induction false} AlikeAt(a: Routes, b: Routes, path: string)
    requires Plausible(a) && Build(a).Some? && Plausible(b) && Build(b).Some? && Alike(a, b)
    ensures Valid(Build(a).value) && Valid(Build(b).value)
    ensures Lookup(Build(a).value, path, []).data == Lookup(Build(b).value, path, []).data
  {
    BuildAgrees(a);
    BuildAgrees(b);
    assert SameFind(Lookup(Build(a).value, path, []), Lookup(Build(b).value, path, []));
  }

  /** A run may be reordered at will exactly when its catch-alls are lonely. */
  lemma {:induction false} OrderFreeIff(a: Routes)
    requires Plausible(a) && Build(a).Some?
    ensures (forall b: Routes | multiset(b) == multiset(a) :: Plausible(b) && Interchangeable(a, b)) <==> Lonely(a)
  {
    if Lonely(a) {
      forall b: Routes | multiset(b) == multiset(a) ensures Plausible(b) && Interchangeable(a, b) {
        AnyOrder(a, b);
      }
    } else {
      var p, q :| p in Paths(a) && q in Paths(a) && p != q && Starred(p) && !AfterParam(p) && Stem(p) <= q;
      var i :| 0 <= i < |a| && a[i].0 == p;
      var j :| 0 <= j < |a| && a[j].0 == q;
      OrderTold(a, i, j);
    }
  }

  // ---- routes without catch-alls, and two routes with one ----

  /** What static and :param routes need, whatever their order. */
  ghost predicate Acceptable(routes: Routes) {
    && (forall p | p in Paths(routes) :: Good(p))
    && |Paths(routes)| == |routes|
    && (forall p, q | p in Paths(routes) && q in Paths(routes) :: !Clash(p, q))
  }

  lemma {:induction false} NeverItself(p: string)
    ensures !Clash(p, p)
  {
  }

  /** Without catch-alls, acceptance does not mention the order. */
  lemma {:induction false} BuildAccepts(routes: Routes)
    requires Plausible(routes) && forall r | r in routes :: '*' !in r.0
    ensures Build(routes).Some? <==> Acceptable(routes)
  {
    if routes != [] {
      var init, last := routes[..|routes| - 1], routes[|routes| - 1];
      assert last in routes && forall r | r in init :: r in routes;
      BuildAccepts(init);
      BuildAcceptsIff(routes);
      BuildAcceptsIff(init);
      PathsSnoc(routes);
      PathsBound(init);
      TakesStarFree(routes);
      NeverItself(last.0);
      forall k | k in Paths(init) ensures Clash(k, last.0) <==> Clash(last.0, k) {
        ClashSymmetric(k, last.0);
      }
    }
  }

  lemma {:induction false} TakesStarFree(routes: Routes)
    requires routes != [] && forall r | r in routes :: '*' !in r.0
    ensures var n := |routes| - 1; var init, p := routes[..n], routes[n].0;
      Takes(routes, n) <==> Good(p) && p !in Paths(init) && forall k | k in Paths(init) :: !Clash(k, p)
  {
    var n := |routes| - 1;
    var init := routes[..n];
    assert routes[n] in routes && forall r | r in init :: r in routes;
    NothingLoose(init);
    PathsBound(init);
    forall k | k in Paths(init) ensures !Starred(k) && !Starred(routes[n].0) {
      var r :| r in init && r.0 == k;
    }
  }

  /**
   A literal route w and a catch-all below it: both orders are accepted, and the order decides
   which bytes, and which further routes, may follow w.
   */
  lemma {:induction false} CatchAllOrderMatters(d: (string, RouteData), e: (string, RouteData), w: string,
      x: string, f: RouteData)
    requires Plausible([d, e]) && Plausible([e, d])
    requires d.0 == w && Plain(w) && Below(e.0, w) && x != "" && x[0] != '/' && Plain(x)
    ensures Build([d, e]).Some? && Build([e, d]).Some?
    ensures Valid(Build([d, e]).value) && Valid(Build([e, d]).value)
    ensures Lookup(Build([d, e]).value, w + x, []).data != Some(e.1)
    ensures Lookup(Build([e, d]).value, w + x, []).data == Some(e.1)
    ensures AddRoute(Build([d, e]).value, w + x, f).Some? && AddRoute(Build([e, d]).value, w + x, f).None?
  {
    BothOrdersAccepted(d, e, w);
    SwallowedLiteral([d, e], 1, w, x);
    SwallowedLiteral([e, d], 0, w, x);
    RoomBefore(d, e, w, x, f);
    NoRoomAfter(d, e, w, x, f);
  }

  lemma {:induction false} RoomBefore(d: (string, RouteData), e: (string, RouteData), w: string, x: string,
      f: RouteData)
    requires Plausible([d, e]) && Build([d, e]).Some? && d.0 == w && Plain(w) && Below(e.0, w)
    requires x != "" && x[0] != '/' && Plain(x)
    ensures AddRoute(Build([d, e]).value, w + x, f).Some?
  {
    LongerThanStem(w, e.0, x);
    AddedOn([d, e], w + x, f);
    LooseIff([d, e], 1);
    LooseAreStarred([d, e]);
    PlainStarless(w);
    assert !Starred(w);
  }

  lemma {:induction false} NoRoomAfter(d: (string, RouteData), e: (string, RouteData), w: string, x: string,
      f: RouteData)
    requires Plausible([e, d]) && Build([e, d]).Some? && d.0 == w && Plain(w) && Below(e.0, w)
    requires x != "" && x[0] != '/' && Plain(x)
    ensures AddRoute(Build([e, d]).value, w + x, f).None?
  {
    LongerThanStem(w, e.0, x);
    AddedOn([e, d], w + x, f);
    LooseIff([e, d], 0);
  }

  lemma {:induction false} AddedOn(routes: Routes, path: string, f: RouteData)
    requires Plausible(routes) && Build(routes).Some? && path != ""
    ensures Valid(Build(routes).value)
    ensures AddRoute(Build(routes).value, path, f).Some? <==> Good(path) && Free(TableOf(routes), LooseOf(routes), path)
    ensures TableOf(routes).Keys == Paths(routes)
  {
    BuildAgrees(routes);
    BuildLoose(routes);
    BuildDistinct(routes);
    AddRouteAccepts(Build(routes).value, TableOf(routes), path, f);
  }

  lemma {:induction false} LongerThanStem(w: string, p: string, x: string)
    requires Plain(w) && Below(p, w) && x != "" && x[0] != '/' && Plain(x)
    ensures Good(w + x) && w + x != w && w + x != p && !Against(w, w + x) && !Against(p, w + x) && LooseClash(p, w + x)
  {
    BelowParts(p, w);
    SlashBefore(p);
    PlainGood(w + x);
    PlainStarless(w + x);
    assert !Starred(w + x) && !Starred(w);
    assert p[..IndexOf(p, '*')][|w|] == '/' && (w + x)[|w|] == x[0];
    assert p[..|w|] == w;
    forall i: nat ensures !ClashAt(w, w + x, i) && !ClashAt(p, w + x, i) {
      assert i < |w + x| ==> (w + x)[i] != ':';
    }
  }

  lemma {:induction false} BothOrdersAccepted(d: (string, RouteData), e: (string, RouteData), w: string)
    requires Plausible([d, e]) && Plausible([e, d]) && d.0 == w && Plain(w) && Below(e.0, w)
    ensures Build([d, e]).Some? && Build([e, d]).Some?
  {
    assert d in [d, e] && e in [d, e];
    BelowParts(e.0, w);
    PlainGood(w);
    StemOnly(w, e.0);
    TwoAccepted(d, e);
    TwoAccepted(e, d);
  }

  lemma {:induction false} PlainGood(w: string)
    requires Plain(w)
    ensures Good(w)
  {
    PlainFirst(w);
  }

  lemma PlainFirst(w: string)
    requires Plain(w)
    ensures FirstWild(w) == |w|
  {
  }

  /** A catch-all and its own literal stem are not in each other's way. */
  lemma {:induction false} StemOnly(w: string, p: string)
    requires Plain(w) && Below(p, w) && p == w + p[|w|..] && '*' !in w
    ensures !Against(w, p) && !Against(p, w) && !LooseClash(p, w) && !LooseClash(w, p) && p != w
  {
    assert !Starred(w);
    SlashBefore(p);
    assert |p[..IndexOf(p, '*')]| > |w|;
    forall i: nat ensures !ClashAt(w, p, i) && !ClashAt(p, w, i) {
      assert i < |w| ==> w[i] != ':';
    }
  }

  lemma {:induction false} TwoAccepted(a: (string, RouteData), b: (string, RouteData))
    requires a.0 != "" && b.0 != "" && a.0 != b.0
    requires Good(a.0) && Good(b.0) && !Against(a.0, b.0) && !LooseClash(a.0, b.0)
    ensures Build([a, b]).Some?
  {
    var routes := [a, b];
    assert routes[..1] == [a] && [a][..0] == [];
    assert Takes([a], 0) && AllTake([a]);
    assert TableOf([a]) == map[a.0 := a.1] && forall k | k in LooseOf([a]) :: k == a.0;
    assert Takes(routes, 1);
    BuildAcceptsIff(routes);
  }
}
