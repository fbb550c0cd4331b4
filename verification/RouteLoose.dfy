/**
 Which catch-alls are loose after a run of registrations: those whose stem had no route on it yet
 when they were registered, unless the stem ends in a parameter.
 */
module RouteLoose {
  import opened Options
  import opened RouteTree
  import opened RouteTreeAdd
  import opened RouteLookup
  import opened RouteAccept

  /** The pattern up to the slash of its catch-all. */
  function Stem(p: string): string {
    var i := IndexOf(p, '*');
    if 1 <= i < |p| then p[..i - 1] else p
  }

  /** The catch-all comes right after a parameter. */
  predicate AfterParam(p: string)
    decreases |p|
  {
    var i := FirstWild(p);
    i < |p| && p[i] == ':' &&
    var q := p[i..][|Segment(p[i..])|..];
    IsOpen(q) || AfterParam(q)
  }

  /** A catch-all that becomes loose when p is registered on top of s. */
  ghost predicate Fresh(s: Table, p: string) {
    Starred(p) && !AfterParam(p) && forall k | k in s :: !(Stem(p) <= k)
  }

  /** The same seen from a node that has nothing yet for the first byte of p. */
  predicate NewLoose(p: string) {
    Starred(p) && !AfterParam(p) && !IsOpen(p)
  }

  /** The loose catch-alls of a program, by the order of its registrations alone. */
  ghost function LooseOf(routes: seq<(string, RouteData)>): Table {
    if routes == [] then map[] else
      var init, last := routes[..|routes| - 1], routes[|routes| - 1];
      if Fresh(TableOf(init), last.0) then LooseOf(init)[last.0 := last.1] else LooseOf(init)
  }

  // ---- how Fresh follows the walk ----

  lemma {:induction false} StemShift(w: string, p: string)
    requires '*' !in w && (p == "" || p[0] != '*')
    ensures Starred(p) ==> Stem(w + p) == w + Stem(p)
  {
    StarShift(w, p);
    var i := IndexOf(p, '*');
    if Starred(p) {
      assert (w + p)[..|w| + i - 1] == w + p[..i - 1];
    }
  }

  lemma {:induction false} AfterParamPlain(w: string, p: string)
    requires Plain(w)
    ensures AfterParam(w + p) <==> AfterParam(p)
  {
    FirstWildPlain(w, p);
    assert (w + p)[FirstWild(w + p)..] == p[FirstWild(p)..];
  }

  lemma {:induction false} AfterParamStep(w: string, p: string)
    requires ParamPath(w) && (p == "" || p[0] == '/')
    ensures AfterParam(w + p) <==> IsOpen(p) || AfterParam(p)
  {
    SegmentEnd(w, w + p);
    assert FirstWild(w + p) == 0 && (w + p)[0..] == w + p;
    assert (w + p)[|w|..] == p;
  }

  lemma {:induction false} StemMoved(w: string, s: Table, p: string)
    requires '*' !in w && (forall k | k in s :: w <= k) && Starred(p) && p[0] != '*'
    ensures (forall k | k in s :: !(Stem(w + p) <= k)) <==> forall q | q in After(s, w) :: !(Stem(p) <= q)
  {
    StemShift(w, p);
    forall k | k in s ensures k == w + k[|w|..] && k[|w|..] in After(s, w) && (w + Stem(p) <= k <==> Stem(p) <= k[|w|..]) {
      assert k == w + k[|w|..];
      PrefixBoth(w, Stem(p), k[|w|..]);
    }
    forall q | q in After(s, w) ensures w + Stem(p) <= w + q <==> Stem(p) <= q {
      PrefixBoth(w, Stem(p), q);
    }
  }

  lemma {:induction false} PrefixBoth(w: string, x: string, y: string)
    ensures w + x <= w + y <==> x <= y
  {
    assert (w + x)[..|w| + |x|] == w + x;
    PrefixShift(w, x, |x|, y);
    assert x[..|x|] == x;
  }

  lemma {:induction false} FreshPlain(w: string, s: Table, p: string)
    requires Plain(w) && (forall k | k in s :: w <= k) && (p == "" || p[0] != '*')
    ensures Fresh(s, w + p) <==> Fresh(After(s, w), p)
  {
    PlainStarless(w);
    AfterParamPlain(w, p);
    StarShift(w, p);
    if Starred(p) {
      StemMoved(w, s, p);
    }
  }

  lemma {:induction false} FreshParam(w: string, s: Table, p: string)
    requires ParamPath(w) && (forall k | k in s :: w <= k) && s != map[] && (p == "" || p[0] == '/')
    ensures Fresh(s, w + p) <==> Fresh(After(s, w), p)
  {
    ParamStarless(w);
    AfterParamStep(w, p);
    StarShift(w, p);
    if Starred(p) {
      StemMoved(w, s, p);
      if IsOpen(p) {
        var k :| k in s;
        assert k == w + k[|w|..] && k[|w|..] in After(s, w);
        assert Stem(p) == "";
      }
    }
  }

  /** A stem that is not empty tells by its first byte which patterns it can start. */
  lemma {:induction false} FreshByHead(s: Table, p: string)
    requires p != "" && p[0] != '*' && Good(p) && ByHead(s, p[0]) != map[]
    ensures Fresh(s, p) <==> Fresh(ByHead(s, p[0]), p)
  {
    var k :| k in ByHead(s, p[0]);
    if Starred(p) && !IsOpen(p) {
      StemHead(p);
      forall q | q in s && Stem(p) <= q ensures q in ByHead(s, p[0]) {
      }
    } else if Starred(p) {
      assert Stem(p) == "" && k in s;
    }
  }

  lemma {:induction false} StemHead(p: string)
    requires p != "" && p[0] != '*' && Good(p) && Starred(p) && !IsOpen(p)
    ensures Stem(p) != "" && Stem(p)[0] == p[0]
  {
    var i := IndexOf(p, '*');
    assert i >= 1;
    if i == 1 {
      SlashBefore(p);
    }
  }

  /** A good pattern has a slash before its star. */
  lemma {:induction false} SlashBefore(p: string)
    requires Good(p) && Starred(p)
    ensures IndexOf(p, '*') >= 1 && p[IndexOf(p, '*') - 1] == '/'
    decreases |p|
  {
    var i := FirstWild(p);
    WildIfStarred(p);
    if p[i] == '*' {
      StarAt(p, i);
    } else {
      var x := Segment(p[i..]);
      var q := p[i..][|x|..];
      PastParam(p, i, x, q);
      SlashBefore(q);
      assert p[i + |x| + (IndexOf(q, '*') - 1)] == q[IndexOf(q, '*') - 1];
    }
  }

  lemma {:induction false} WildIfStarred(p: string)
    requires Good(p) && Starred(p)
    ensures var i := FirstWild(p); i < |p| && (p[i] == ':' ==> GoodParams(p[i..]))
  {
    var i := FirstWild(p);
    PlainStarless(p[..i]);
    StarShift(p[..i], p[i..]);
    assert p == p[..i] + p[i..];
  }

  lemma {:induction false} StarAt(path: string, i: nat)
    requires i == FirstWild(path) < |path| && path[i] == '*'
    ensures IndexOf(path, '*') == i
  {
    PlainStarless(path[..i]);
    StarShift(path[..i], path[i..]);
    assert path == path[..i] + path[i..];
  }

  lemma {:induction false} PastParam(p: string, i: nat, x: string, q: string)
    requires i == FirstWild(p) < |p| && ParamPath(x) && x <= p[i..] && q == p[i..][|x|..]
    ensures |q| < |p| && (Starred(p) <==> Starred(q)) && IndexOf(p, '*') == i + |x| + IndexOf(q, '*')
    ensures forall j | 0 <= j < |q| :: p[i + |x| + j] == q[j]
  {
    var w := p[..i] + x;
    assert p == w + q;
    PlainStarless(p[..i]);
    ParamStarless(x);
    StarShift(w, q);
  }

  lemma {:induction false} FreshIsNew(s: Table, p: string)
    requires p != "" && p[0] != '*' && Good(p) && s != map[] && ByHead(s, p[0]) == map[]
    ensures Fresh(s, p) <==> NewLoose(p)
  {
    var k :| k in s;
    if Starred(p) {
      if IsOpen(p) {
        assert Stem(p) == "";
      } else {
        StemHead(p);
        forall q | q in s ensures !(Stem(p) <= q) {
          assert q !in ByHead(s, p[0]);
        }
      }
    }
  }

  // ---- what an insertion makes loose ----

  lemma {:induction false} InsertOpens(path: string, d: RouteData, p: string)
    requires path != "" && path[0] != '*' && InsertChild(Blank(1), path, d).Some?
    ensures OpenAt(InsertChild(Blank(1), path, d).value, p) <==> p == path && NewLoose(path)
    decreases |path|, 1
  {
    var u := InsertChild(Blank(1), path, d).value;
    var i := FirstWild(path);
    if i == |path| {
      PlainStarless(path[..i]);
      assert path[..i] == path;
      assert !Starred(path);
    } else if path[i] == ':' {
      InsertOpensParam(path, i, d, p);
    } else {
      InsertOpensStar(path, i, d, p);
    }
  }

  lemma {:induction false} InsertOpensStar(path: string, i: nat, d: RouteData, p: string)
    requires path != "" && path[0] != '*' && InsertChild(Blank(1), path, d).Some?
    requires i == FirstWild(path) < |path| && path[i] == '*'
    ensures OpenAt(InsertChild(Blank(1), path, d).value, p) <==> p == path && NewLoose(path)
  {
    var u := InsertChild(Blank(1), path, d).value;
    StarAt(path, i);
    assert NewLoose(path) <==> i > 1;
    assert path == path[..i - 1] + path[i - 1..];
    HolderOpens(u, path[..i - 1], path[i - 1..], p);
  }

  lemma {:induction false} HolderOpens(u: Tree, w: string, low: string, p: string)
    requires u.path == w && u.kind == Static && u.wild.Some? && u.wild.value.kind == CatchAll
    requires |u.wild.value.children| == 1 && u.wild.value.children[0].path == low
    ensures OpenAt(u, p) <==> p == w + low && w != ""
  {
    if w <= p {
      assert p == w + p[|w|..];
    }
    assert (w + low)[|w|..] == low;
  }

  lemma {:induction false} InsertOpensParam(path: string, i: nat, d: RouteData, p: string)
    requires path != "" && InsertChild(Blank(1), path, d).Some?
    requires i == FirstWild(path) < |path| && path[i] == ':'
    ensures OpenAt(InsertChild(Blank(1), path, d).value, p) <==> p == path && NewLoose(path)
    decreases |path|, 0, 1
  {
    var u := InsertChild(Blank(1), path, d).value;
    var w, low := path[..i], path[i..];
    assert path == w + low;
    BeforeParam(path, w, low);
    if w <= p {
      ChainOpens(low, d, p[i..]);
      assert p == w + p[i..];
      OnlyWildOpens(u, ParamChain(low, d).value, p[i..], low);
    }
  }

  lemma {:induction false} BeforeParam(path: string, w: string, low: string)
    requires path == w + low && Plain(w) && low != "" && low[0] == ':'
    ensures NewLoose(path) <==> Starred(low) && !AfterParam(low)
  {
    PlainStarless(w);
    StarShift(w, low);
    AfterParamPlain(w, low);
    assert path[|w|] == ':' && forall j | 0 <= j < |w| :: path[j] == w[j];
  }

  lemma OnlyWildOpens(u: Tree, c: Tree, q: string, low: string)
    requires u.children == [] && u.indices == "" && u.kind != Param && u.wild == Some(c) && c.kind == Param
    requires low != "" && low[0] == ':'
    requires OpenAt(c, q) <==> q == low && Starred(low) && !AfterParam(low)
    ensures OpenBelow(u, q) <==> q == low && Starred(low) && !AfterParam(low)
  {
  }

  lemma {:induction false} ChainOpens(path: string, d: RouteData, p: string)
    requires path != "" && path[0] == ':' && ParamChain(path, d).Some?
    ensures OpenAt(ParamChain(path, d).value, p) <==> p == path && Starred(path) && !AfterParam(path)
    decreases |path|, 0, 0
  {
    var end := IndexOf(path, '/');
    var w := path[..end];
    var c := ParamChain(path, d).value;
    ChainStar(path, w, path[end..]);
    if end == |path| {
      assert !OpenAt(c, p);
    } else if w <= p {
      InsertOpens(path[end..], d, p[end..]);
      assert p == w + p[end..];
      InsertedHead(c, p[end..], path[end..], d);
    }
  }

  lemma {:induction false} ChainStar(path: string, w: string, q: string)
    requires path != "" && path[0] == ':' && w == path[..IndexOf(path, '/')] && q == path[IndexOf(path, '/')..]
    requires Plain(w[1..]) && |w| >= 2
    ensures path == w + q && ParamPath(w) && '*' !in w
    ensures Starred(path) && !AfterParam(path) <==> NewLoose(q)
  {
    assert '/' !in w;
    assert path == w + q;
    ParamStar(w, q);
  }

  lemma {:induction false} ParamStar(w: string, q: string)
    requires ParamPath(w) && (q == "" || q[0] == '/')
    ensures '*' !in w
    ensures Starred(w + q) && !AfterParam(w + q) <==> NewLoose(q)
  {
    ParamStarless(w);
    StarShift(w, q);
    AfterParamStep(w, q);
  }

  lemma {:induction false} InsertedHead(c: Tree, q: string, low: string, d: RouteData)
    requires c.kind == Param && c.wild.None? && low != "" && low[0] == '/' && InsertChild(Blank(1), low, d).Some?
    requires c.children == [InsertChild(Blank(1), low, d).value]
    requires OpenAt(c.children[0], q) <==> q == low && NewLoose(low)
    ensures OpenBelow(c, q) <==> q == low && NewLoose(low)
  {
  }

  // ---- what the walk makes loose ----

  lemma {:induction false} SplitOpens(t: Tree, i: nat, p: string)
    requires Branch(t) && i < |t.path|
    ensures OpenAt(Split(t, i), p) <==> OpenAt(t, p)
  {
    Parts(t);
    var u := Split(t, i);
    var low := u.children[0];
    assert t.path == t.path[..i] + t.path[i..];
    PrefixTrans(t.path[..i], t.path, p);
    if u.path <= p {
      var q := p[i..];
      assert p == t.path[..i] + q;
      assert t.path <= p <==> low.path <= q;
      SplitUpper(u, low, t.path[i], q);
      if low.path <= q {
        assert q[|low.path|..] == p[|t.path|..];
        SameOpens(t, low, p[|t.path|..]);
      }
    }
  }

  lemma {:induction false} SplitUpper(u: Tree, low: Tree, c: char, q: string)
    requires u.children == [low] && u.indices == [c] && u.wild.None? && u.kind != Param
    requires low.path != "" && low.path[0] == c && !IsWild(c)
    ensures OpenBelow(u, q) <==> OpenAt(low, q)
  {
    if q != "" && q[0] != c {
      assert u.indices[1..] == "";
    }
  }

  lemma SameOpens(t: Tree, low: Tree, q: string)
    requires low.children == t.children && low.wild == t.wild && low.indices == t.indices
    requires t.kind != Param && low.kind == Static && t.path != "" && low.path != ""
    ensures OpenBelow(low, q) <==> OpenBelow(t, q)
  {
  }

  lemma {:induction false} AddBelowOpens(n: Tree, rest: string, d: RouteData, q: string)
    requires AddBelow(n, rest, d).Some? && !HoldsCatchAll(n) && (rest == "" || rest[0] != '*')
    requires rest != "" && rest[0] == ':' ==> n.wild.None? && n.kind != Param
    requires rest != "" && rest[0] != ':' ==> rest[0] !in n.indices
    requires |n.indices| == |n.children| && (n.kind == Param ==> n.children == [] && (rest == "" || rest[0] == '/'))
    ensures OpenBelow(AddBelow(n, rest, d).value, q) <==> OpenBelow(n, q) || (q == rest && NewLoose(rest))
  {
    if rest == "" {
    } else if rest[0] == ':' {
      assert rest[0..] == rest;
      ChainOpens(rest, d, q);
    } else {
      InsertOpens(rest, d, q);
      AppendOpens(n, rest, d, q);
    }
  }

  lemma {:induction false} AppendOpens(n: Tree, rest: string, d: RouteData, q: string)
    requires rest != "" && !IsWild(rest[0]) && !HoldsCatchAll(n) && rest[0] !in n.indices
    requires |n.indices| == |n.children| && (n.kind == Param ==> n.children == [] && rest[0] == '/')
    requires InsertChild(Blank(1), rest, d).Some?
    requires OpenAt(InsertChild(Blank(1), rest, d).value, q) <==> q == rest && NewLoose(rest)
    ensures OpenBelow(AddBelow(n, rest, d).value, q) <==> OpenBelow(n, q) || (q == rest && NewLoose(rest))
  {
    var c := InsertChild(Blank(1), rest, d).value;
    var u := AddBelow(n, rest, d).value;
    assert u == n.(indices := n.indices + [rest[0]], children := n.children + [c]);
    if q != "" && q[0] != ':' {
      if n.kind != Param {
        IndexAppended(n.indices, rest[0], q[0]);
      }
    }
  }

  lemma {:induction false} Indexed(s: string, c: char)
    ensures c in s <==> IndexOf(s, c) < |s|
  {
    if IndexOf(s, c) == |s| {
      assert forall j | 0 <= j < |s| :: s[j] != c;
    }
  }

  lemma {:induction false} IndexAppended(s: string, b: char, c: char)
    requires b !in s
    ensures IndexOf(s + [b], c) == if c == b then |s| else if c in s then IndexOf(s, c) else |s| + 1
    ensures c in s <==> IndexOf(s, c) < |s|
  {
    if s == "" {
      assert s + [b] == [b];
    } else {
      assert (s + [b])[1..] == s[1..] + [b];
      IndexAppended(s[1..], b, c);
    }
  }

  lemma {:induction false} PromotedOpens(n: Tree, k: nat, c: Tree, q: string)
    requires k < |n.children| == |n.indices| && Distinct(n.indices) && !HoldsCatchAll(n) && n.kind != Param
    requires q != "" && q[0] != ':'
    ensures var j := IndexOf(n.indices, q[0]);
      OpenBelow(Promoted(n, k, c), q) <==> if j == k then OpenAt(c, q) else j < |n.indices| && OpenAt(n.children[j], q)
  {
    var to := BubbleTo(n.children, c.priority, k);
    var u := Promoted(n, k, c);
    var j := IndexOf(n.indices, q[0]);
    if j < |n.indices| {
      MoveToAt(n.indices, k, to, j);
      MoveToAt(n.children[k := c], k, to, j);
      DistinctMoved(n.indices, k, to);
      IndexOfDistinct(u.indices, NewPos(k, to, j));
    } else {
      NotMoved(n.indices, k, to, q[0]);
    }
  }

  lemma {:induction false} DistinctMoved(s: string, k: nat, j: nat)
    requires j <= k < |s| && Distinct(s)
    ensures Distinct(MoveTo(s, k, j))
  {
    var r := MoveTo(s, k, j);
    forall x, y | 0 <= x < y < |r| ensures r[x] != r[y] {
      MoveToAt(s, k, j, x);
      MoveToAt(s, k, j, y);
      assert s[OldPos(k, j, x)] != s[OldPos(k, j, y)];
    }
  }

  lemma {:induction false} NotMoved(s: string, k: nat, j: nat, c: char)
    requires j <= k < |s| && IndexOf(s, c) == |s|
    ensures IndexOf(MoveTo(s, k, j), c) == |s|
  {
    var r := MoveTo(s, k, j);
    var i := IndexOf(r, c);
    if i < |r| {
      MoveToAt(s, k, j, i);
    }
  }

  lemma {:induction false} WalkOpens(t: Tree, s: Table, path: string, d: RouteData, p: string)
    requires Walkable(t, path) && Agrees(t, s) && t.priority >= 1 && Entered(t, path) && Walk(t, path, d).Some?
    ensures OpenAt(Walk(t, path, d).value, p) <==> OpenAt(t, p) || (p == path && Fresh(s, path))
    decreases t, 2
  {
    WalkSteps(t, path);
    WalkParts(t, path);
    WalkAccepts(t, s, path, d);
    StripAgrees(t, s);
    var i := Lcp(path, t.path);
    var rest := path[i..];
    if rest != "" && rest[0] == '*' {
      StarRefused(t, s, path, d);
    } else if i < |t.path| {
      WalkOpensSplit(t, s, path, d, p);
    } else {
      WalkOpensOn(t, s, path, d, p);
    }
  }

  lemma {:induction false} WalkOpensOn(t: Tree, s: Table, path: string, d: RouteData, p: string)
    requires Walkable(t, path) && Agrees(t, s) && t.priority >= 1 && Entered(t, path) && Walk(t, path, d).Some?
    requires Lcp(path, t.path) == |t.path| && Good(path) && Free(s, LooseTable(t, s), path)
    requires |path| > |t.path| ==> path[|t.path|] != '*' && (t.kind == Param ==> path[|t.path|] == '/')
    ensures OpenAt(Walk(t, path, d).value, p) <==> OpenAt(t, p) || (p == path && Fresh(s, path))
    decreases t, 1, 2
  {
    var rest := path[|t.path|..];
    assert path == t.path + rest;
    WalkKeepsPath(t, path, d);
    if t.path <= p {
      WalkOpensLow(t, s, path, rest, d, p[|t.path|..]);
    }
    Rejoin(t, Walk(t, path, d).value, path, rest, p, Fresh(s, path));
  }

  lemma {:induction false} WalkOpensLow(t: Tree, s: Table, path: string, rest: string, d: RouteData, q: string)
    requires Walkable(t, path) && Agrees(t, s) && t.priority >= 1 && Entered(t, path) && Walk(t, path, d).Some?
    requires Lcp(path, t.path) == |t.path| && path == t.path + rest && rest == path[|t.path|..]
    requires Good(path) && Free(s, LooseTable(t, s), path)
    requires rest != "" ==> rest[0] != '*' && (t.kind == Param ==> rest[0] == '/')
    ensures OpenBelow(Walk(t, path, d).value, q) <==> OpenBelow(t, q) || (q == rest && Fresh(s, path))
    decreases t, 1, 1
  {
    BelowWalked(t, s, rest);
    WalkOpensBelow(t, After(s, t.path), path, d, q);
  }

  lemma {:induction false} Rejoin(t: Tree, u: Tree, path: string, rest: string, p: string, added: bool)
    requires u.path == t.path && path == t.path + rest
    requires t.path <= p ==>
      var q := p[|t.path|..]; OpenBelow(u, q) <==> OpenBelow(t, q) || (q == rest && added)
    ensures OpenAt(u, p) <==> OpenAt(t, p) || (p == path && added)
  {
    if t.path <= p {
      assert p == t.path + p[|t.path|..];
    }
  }

  lemma {:induction false} BelowWalked(t: Tree, s: Table, rest: string)
    requires Walkable(t, t.path) && Agrees(t, s) && t.priority >= 1
    requires rest == "" || (rest[0] != '*' && (t.kind == Param ==> rest[0] == '/'))
    requires Good(t.path + rest) && Free(s, LooseTable(t, s), t.path + rest)
    ensures BelowAgrees(t, After(s, t.path)) && After(s, t.path) != map[] && Good(rest)
    ensures Fresh(s, t.path + rest) <==> Fresh(After(s, t.path), rest)
  {
    StripAgrees(t, s);
    FreshBelow(t, s, rest);
    FreeBelow(t, s, rest);
    Peopled(t, s);
  }

  lemma {:induction false} Peopled(t: Tree, s: Table)
    requires Walkable(t, t.path) && Agrees(t, s) && t.priority >= 1
    ensures s != map[] && After(s, t.path) != map[]
  {
    var k, e := Inhabited(t);
    assert t.path <= k && k == t.path + k[|t.path|..];
    assert k[|t.path|..] in After(s, t.path);
  }

  lemma {:induction false} WalkKeepsPath(t: Tree, path: string, d: RouteData)
    requires Walk(t, path, d).Some? && Lcp(path, t.path) == |t.path|
    ensures Walk(t, path, d).value.path == t.path
  {
    AddBelowPath(t.(priority := t.priority + 1), path[|t.path|..], d);
  }

  lemma {:induction false} FreshBelow(t: Tree, s: Table, rest: string)
    requires Walkable(t, t.path) && Agrees(t, s) && t.priority >= 1
    requires rest == "" || (rest[0] != '*' && (t.kind == Param ==> rest[0] == '/'))
    ensures Fresh(s, t.path + rest) <==> Fresh(After(s, t.path), rest)
  {
    WalkParts(t, t.path);
    StripAgrees(t, s);
    if t.kind == Param {
      var k, e := Inhabited(t);
      FreshParam(t.path, s, rest);
    } else {
      FreshPlain(t.path, s, rest);
    }
  }

  lemma {:induction false} WalkOpensSplit(t: Tree, s: Table, path: string, d: RouteData, p: string)
    requires Branch(t) && Agrees(t, s) && t.priority >= 1 && Walk(t, path, d).Some?
    requires Lcp(path, t.path) < |t.path| && (Lcp(path, t.path) == |path| || path[Lcp(path, t.path)] != '*')
    ensures OpenAt(Walk(t, path, d).value, p) <==> OpenAt(t, p) || (p == path && Fresh(s, path))
  {
    Parts(t);
    StripAgrees(t, s);
    var i := Lcp(path, t.path);
    var w, rest, n := t.path[..i], path[i..], Split(t, i);
    assert path == w + rest;
    SplitOpens(t, i, p);
    AddBelowPath(n, rest, d);
    AddBelowAccepts(n, rest, d);
    FreshAtFork(t, s, i, rest);
    if w <= p {
      var q := p[i..];
      assert p == w + q;
      assert rest != "" ==> rest[0] != t.path[i];
      AddBelowOpens(n, rest, d, q);
    }
  }

  lemma {:induction false} FreshAtFork(t: Tree, s: Table, i: nat, rest: string)
    requires Branch(t) && Agrees(t, s) && t.priority >= 1 && i < |t.path| && Good(rest)
    requires rest == "" || (rest[0] != '*' && rest[0] != t.path[i])
    ensures Fresh(s, t.path[..i] + rest) <==> NewLoose(rest)
  {
    Parts(t);
    StripAgrees(t, s);
    var w := t.path[..i];
    var k, e := Inhabited(t);
    forall k | k in s ensures w <= k {
      PrefixTrans(w, t.path, k);
    }
    FreshPlain(w, s, rest);
    assert k == w + k[i..] && k[i..] in After(s, w);
    if rest != "" {
      forall q ensures q !in ByHead(After(s, w), rest[0]) {
        if q in After(s, w) && q != "" {
          assert t.path <= w + q && (w + q)[i] == q[0];
        }
      }
      FreshIsNew(After(s, w), rest);
    }
  }

  lemma {:induction false} WalkOpensBelow(t: Tree, s: Table, path: string, d: RouteData, q: string)
    requires Walkable(t, path) && BelowAgrees(t, s) && t.priority >= 1 && Entered(t, path) && Walk(t, path, d).Some?
    requires Lcp(path, t.path) == |t.path| && (|path| > |t.path| ==> path[|t.path|] != '*')
    requires s != map[] && Good(path[|t.path|..])
    ensures var rest := path[|t.path|..];
      OpenBelow(Walk(t, path, d).value, q) <==> OpenBelow(t, q) || (q == rest && Fresh(s, rest))
    decreases t, 1, 0
  {
    var rest := path[|t.path|..];
    WalkParts(t, path);
    if rest == "" {
      SameOpen(t, t.(priority := t.priority + 1, data := Some(d)), q);
    } else if HoldsCatchAll(t) {
      HolderRefuses(t, s, path, d);
    } else if rest[0] == ':' && t.wild.Some? {
      WalkOpensWild(t, s, path, d, q);
    } else if t.kind == Param && |t.children| == 1 {
      WalkOpensOnly(t, s, path, d, q);
    } else if t.kind != Param && rest[0] in t.indices && rest[0] != ':' {
      WalkOpensChild(t, s, path, d, q);
    } else {
      WalkOpensNew(t, s, path, d, q);
    }
  }

  lemma {:induction false} WalkOpensNew(t: Tree, s: Table, path: string, d: RouteData, q: string)
    requires Walkable(t, path) && BelowAgrees(t, s) && !HoldsCatchAll(t) && Walk(t, path, d).Some?
    requires Lcp(path, t.path) == |t.path| < |path| && path[|t.path|] != '*' && s != map[] && Good(path[|t.path|..])
    requires path[|t.path|] == ':' ==> t.wild.None?
    requires t.kind == Param ==> |t.children| != 1
    requires t.kind != Param && path[|t.path|] != ':' ==> path[|t.path|] !in t.indices
    ensures var rest := path[|t.path|..];
      OpenBelow(Walk(t, path, d).value, q) <==> OpenBelow(t, q) || (q == rest && Fresh(s, rest))
  {
    var rest := path[|t.path|..];
    var n := t.(priority := t.priority + 1);
    WalkSteps(t, path);
    WalkParts(t, path);
    SameOpen(t, n, q);
    NoneAhead(t, s, rest[0]);
    FreshIsNew(s, rest);
    Indexed(t.indices, rest[0]);
    AddBelowOpens(n, rest, d, q);
  }

  lemma SameOpen(t: Tree, n: Tree, q: string)
    requires n == t.(priority := n.priority, data := n.data)
    ensures OpenBelow(n, q) <==> OpenBelow(t, q)
  {
  }

  lemma {:induction false} NoneAhead(t: Tree, s: Table, c: char)
    requires Walkable(t, t.path) && BelowAgrees(t, s) && !HoldsCatchAll(t) && c != '*'
    requires c == ':' ==> t.wild.None?
    requires t.kind == Param ==> t.children == []
    requires t.kind != Param && c != ':' ==> c !in t.indices
    ensures ByHead(s, c) == map[]
  {
    WalkParts(t, t.path);
    if t.kind == Param {
      OnlyChildAgrees(t, s);
      assert HasHead(s, c) ==> c == '/';
    } else {
      NothingBelow(t, s, c);
    }
    forall q | q in ByHead(s, c) ensures HasHead(s, c) {
    }
  }

  lemma {:induction false} WalkOpensWild(t: Tree, s: Table, path: string, d: RouteData, q: string)
    requires Branch(t) && BelowAgrees(t, s) && !HoldsCatchAll(t) && t.wild.Some? && Walk(t, path, d).Some?
    requires Lcp(path, t.path) == |t.path| < |path| && path[|t.path|] == ':' && Good(path[|t.path|..])
    ensures var rest := path[|t.path|..];
      OpenBelow(Walk(t, path, d).value, q) <==> OpenBelow(t, q) || (q == rest && Fresh(s, rest))
    decreases t, 0
  {
    var rest, w := path[|t.path|..], t.wild.value;
    Parts(t);
    WildAgrees(t, s);
    WalkOpens(w, ByHead(s, ':'), rest, d, q);
    WalkKeepsKind(w, rest, d);
    var k :| k in s && k != "" && k[0] == ':';
    assert k in ByHead(s, ':');
    FreshByHead(s, rest);
  }

  lemma {:induction false} WalkKeepsKind(t: Tree, path: string, d: RouteData)
    requires Walk(t, path, d).Some?
    ensures Walk(t, path, d).value.kind == t.kind
  {
  }

  lemma {:induction false} WalkOpensOnly(t: Tree, s: Table, path: string, d: RouteData, q: string)
    requires ParamNode(t) && BelowAgrees(t, s) && Compatible(t, path) && |t.children| == 1 && Walk(t, path, d).Some?
    requires Lcp(path, t.path) == |t.path| < |path| && Good(path[|t.path|..])
    ensures var rest := path[|t.path|..];
      OpenBelow(Walk(t, path, d).value, q) <==> OpenBelow(t, q) || (q == rest && Fresh(s, rest))
    decreases t, 0
  {
    var rest := path[|t.path|..];
    WalkParts(t, path);
    OnlyChildAgrees(t, s);
    WalkOpens(t.children[0], ByHead(s, '/'), rest, d, q);
    var k :| k in s && k != "" && k[0] == '/';
    assert k in ByHead(s, '/');
    FreshByHead(s, rest);
  }

  lemma {:induction false} WalkOpensChild(t: Tree, s: Table, path: string, d: RouteData, q: string)
    requires Branch(t) && BelowAgrees(t, s) && !HoldsCatchAll(t) && Walk(t, path, d).Some?
    requires Lcp(path, t.path) == |t.path| < |path| && path[|t.path|] in t.indices && Good(path[|t.path|..])
    ensures var rest := path[|t.path|..];
      OpenBelow(Walk(t, path, d).value, q) <==> OpenBelow(t, q) || (q == rest && Fresh(s, rest))
    decreases t, 0
  {
    var rest, n := path[|t.path|..], t.(priority := t.priority + 1);
    Parts(t);
    Indexed(t.indices, rest[0]);
    var k := IndexOf(t.indices, rest[0]);
    assert !IsWild(t.indices[k]);
    ChildAgrees(t, s, k);
    WalkedFrom(t, n, path, rest, d);
    WalkOpens(t.children[k], ByHead(s, rest[0]), rest, d, q);
    var x :| x in s && x != "" && x[0] == rest[0];
    assert x in ByHead(s, rest[0]);
    FreshByHead(s, rest);
    if q != "" && q[0] != ':' {
      PromotedOpens(n, k, Walk(t.children[k], rest, d).value, q);
    }
  }

  lemma {:induction false} AddRouteOpens(t: Tree, s: Table, path: string, d: RouteData, p: string)
    requires Valid(t) && Agrees(t, s) && path != "" && AddRoute(t, path, d).Some?
    ensures OpenAt(AddRoute(t, path, d).value, p) <==> OpenAt(t, p) || (p == path && Fresh(s, path))
  {
    AddRouteAccepts(t, s, path, d);
    if t.path == "" && t.children == [] && t.wild.None? {
      FirstOpens(path, d, p);
      forall k ensures k !in s {
        if k in s {
          BoundLeaf(t, k, s[k]);
          KeyBound(t, s, k);
        }
      }
      assert t.(priority := t.priority + 1) == Blank(1);
      assert !OpenAt(t, p);
    } else {
      WeightPositive(t);
      WalkOpens(t, s, path, d, p);
    }
  }

  /** The first route of a tree: its catch-all hangs at the root. */
  lemma {:induction false} FirstOpens(path: string, d: RouteData, p: string)
    requires path != "" && AddRoute(Blank(0), path, d).Some? && Good(path)
    ensures OpenAt(AddRoute(Blank(0), path, d).value, p) <==> p == path && Starred(path) && !AfterParam(path)
  {
    var b := InsertChild(Blank(1), path, d).value;
    var u := b.(kind := Root);
    assert AddRoute(Blank(0), path, d) == Some(u);
    InsertOpens(path, d, p);
    if IsOpen(path) {
      assert FirstWild(path) == 1;
      StarAt(path, 1);
      assert b.path == "" && b.wild.value.children[0].path == path;
      assert p[0..] == p && !AfterParam(path);
    } else {
      RootOpens(b, u, path, p);
    }
  }

  lemma {:induction false} RootOpens(b: Tree, u: Tree, path: string, p: string)
    requires u == b.(kind := Root) && b.kind == Static && (HoldsCatchAll(b) ==> b.path != "")
    ensures OpenAt(u, p) <==> OpenAt(b, p)
  {
  }

  // ---- runs of registrations ----

  /** What is open is bound. */
  lemma {:induction false} OpenBound(t: Tree, p: string)
    requires (Branch(t) || ParamNode(t)) && OpenAt(t, p)
    ensures exists e :: Bound(t, p, e)
    decreases t
  {
    WalkParts(t, t.path);
    var q := p[|t.path|..];
    if HoldsCatchAll(t) {
      var e := t.wild.value.children[0].data.value;
      CatchAllBound(t.wild.value, q, e);
      assert Bound(t, p, e);
    } else if q[0] == ':' {
      OpenBound(t.wild.value, q);
      var e :| Bound(t.wild.value, q, e);
      assert Bound(t, p, e);
    } else {
      var k := if t.kind == Param then 0 else IndexOf(t.indices, q[0]);
      OpenBound(t.children[k], q);
      var e :| Bound(t.children[k], q, e);
      assert BoundAny(t.children, q, e);
      assert Bound(t, p, e);
    }
  }

  /** The loose catch-alls of the tree are those that the order of the program says. */
  lemma {:induction false} BuildLoose(routes: seq<(string, RouteData)>)
    requires Build(routes).Some? && forall r | r in routes :: r.0 != ""
    ensures LooseTable(Build(routes).value, TableOf(routes)) == LooseOf(routes)
  {
    BuildAgrees(routes);
    if routes == [] {
      assert LooseTable(Blank(0), map[]) == map[];
    } else {
      var init, last := routes[..|routes| - 1], routes[|routes| - 1];
      assert last in routes;
      BuildLoose(init);
      BuildAgrees(init);
      var t, s := Build(init).value, TableOf(init);
      forall p ensures OpenAt(Build(routes).value, p) <==> OpenAt(t, p) || (p == last.0 && Fresh(s, last.0)) {
        AddRouteOpens(t, s, last.0, last.1, p);
      }
      AddRouteBinds(t, last.0, last.1);
      if OpenAt(t, last.0) {
        OpenBound(t, last.0);
      }
      LooseGrows(t, Build(routes).value, s, last.0, last.1);
    }
  }

  lemma {:induction false} LooseGrows(t: Tree, u: Tree, s: Table, path: string, d: RouteData)
    requires forall p :: OpenAt(u, p) <==> OpenAt(t, p) || (p == path && Fresh(s, path))
    requires !OpenAt(t, path)
    ensures LooseTable(u, s[path := d]) == if Fresh(s, path) then LooseTable(t, s)[path := d] else LooseTable(t, s)
  {
  }

  /** Route i of the program is well formed and free of the routes before it. */
  ghost predicate Takes(routes: seq<(string, RouteData)>, i: nat)
    requires i < |routes|
  {
    Good(routes[i].0) && Free(TableOf(routes[..i]), LooseOf(routes[..i]), routes[i].0)
  }

  ghost predicate AllTake(routes: seq<(string, RouteData)>) {
    routes == [] || (AllTake(routes[..|routes| - 1]) && Takes(routes, |routes| - 1))
  }

  lemma {:induction false} AllTakeEach(routes: seq<(string, RouteData)>)
    ensures AllTake(routes) <==> forall i: nat | i < |routes| :: Takes(routes, i)
  {
    if routes != [] {
      var init := routes[..|routes| - 1];
      AllTakeEach(init);
      forall i: nat | i < |init| ensures Takes(init, i) <==> Takes(routes, i) {
        assert init[..i] == routes[..i];
      }
    }
  }

  /** A program is accepted exactly when each route is well formed and free of those before it. */
  lemma {:induction false} BuildAcceptsIff(routes: seq<(string, RouteData)>)
    requires forall r | r in routes :: r.0 != ""
    ensures Build(routes).Some? <==> AllTake(routes)
  {
    if routes != [] {
      var init, last := routes[..|routes| - 1], routes[|routes| - 1];
      assert last in routes;
      BuildAcceptsIff(init);
      if Build(init).Some? {
        BuildAgrees(init);
        BuildLoose(init);
        AddRouteAccepts(Build(init).value, TableOf(init), last.0, last.1);
      }
    }
  }
}
