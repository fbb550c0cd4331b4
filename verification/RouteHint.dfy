/**
 The trailing-slash hint of getValue, read off the registered patterns: when it is given, and what
 answers the path that it leads to.
 */
module RouteHint {
  import opened Options
  import opened Slashes = Paths
  import opened RouteTree
  import opened RouteTreeAdd
  import opened RouteLookup
  import opened RouteAccept
  import opened RouteLoose
  import opened RouteReach
  import opened RouteTheorems
  import opened RouteOrder

  // ---- the tree has a node only where patterns part ----

  predicate Joint(t: Tree) {
    t.data.Some? || t.wild.Some? || |t.children| >= 2
  }

  predicate Compact(t: Tree)
    decreases t, 1
  {
    && (t.path != "" && (t.kind == Static || t.kind == Root) ==> Joint(t))
    && Below(t)
  }

  predicate Below(t: Tree)
    decreases t, 0
  {
    && (forall i | 0 <= i < |t.children| :: Compact(t.children[i]))
    && (t.wild.Some? ==> Compact(t.wild.value))
  }

  lemma {:induction false} InsertCompact(n: Tree, path: string, d: RouteData)
    requires Below(n) && InsertChild(n, path, d).Some?
    ensures Compact(InsertChild(n, path, d).value)
    decreases |path|, 1
  {
    var i := FirstWild(path);
    assert Below(n.(path := path, data := Some(d)));
    if i < |path| && path[i] == ':' {
      ChainCompact(path[i..], d);
    } else if i < |path| {
      LeafCompact(Tree(path[i - 1..], "", [], None, CatchAll, 1, Some(d)));
    }
  }

  lemma LeafCompact(leaf: Tree)
    requires leaf.kind == CatchAll && leaf.children == [] && leaf.wild.None?
    ensures Compact(Tree("", "", [leaf], None, CatchAll, 1, None))
  {
    assert Below(leaf) && Compact(leaf);
    assert Below(Tree("", "", [leaf], None, CatchAll, 1, None));
  }

  lemma {:induction false} ChainCompact(path: string, d: RouteData)
    requires path != "" && path[0] == ':' && ParamChain(path, d).Some?
    ensures Compact(ParamChain(path, d).value)
    decreases |path|, 0
  {
    var end := IndexOf(path, '/');
    if end < |path| {
      InsertCompact(Blank(1), path[end..], d);
    }
  }

  lemma {:induction false} AddBelowCompact(n: Tree, rest: string, d: RouteData)
    requires Below(n) && AddBelow(n, rest, d).Some?
    requires n.path != "" && n.kind != Param && n.children == [] ==> Joint(n)
    ensures Compact(AddBelow(n, rest, d).value)
  {
    if rest != "" && IsWild(rest[0]) {
      InsertCompact(n, rest, d);
    } else if rest != "" {
      InsertCompact(Blank(1), rest, d);
    }
  }

  lemma {:induction false} PromotedCompact(n: Tree, k: nat, c: Tree)
    requires Compact(n) && k < |n.children| == |n.indices| && Compact(c)
    ensures Compact(Promoted(n, k, c))
  {
    var s := n.children[k := c];
    var j := BubbleTo(n.children, c.priority, k);
    forall i | 0 <= i < |s| ensures Compact(MoveTo(s, k, j)[i]) {
      MoveToAt(s, k, j, i);
    }
  }

  lemma {:induction false} WalkCompact(t: Tree, path: string, d: RouteData)
    requires Walkable(t, path) && Compact(t) && Walk(t, path, d).Some?
    ensures Compact(Walk(t, path, d).value)
    decreases t, 1
  {
    var i := Lcp(path, t.path);
    WalkSteps(t, path);
    WalkParts(t, path);
    if i < |t.path| {
      AddBelowCompact(Split(t, i), path[i..], d);
    } else if i < |path| {
      WalkCompactOn(t, path, d);
    }
  }

  lemma {:induction false} WalkCompactOn(t: Tree, path: string, d: RouteData)
    requires Walkable(t, path) && Compact(t) && Walk(t, path, d).Some? && Lcp(path, t.path) == |t.path| < |path|
    ensures Compact(Walk(t, path, d).value)
    decreases t, 0
  {
    var rest, n := path[|t.path|..], t.(priority := t.priority + 1);
    WalkSteps(t, path);
    WalkParts(t, path);
    if IsWild(rest[0]) && t.wild.Some? {
      WalkCompact(t.wild.value, rest, d);
    } else if t.kind == Param && |t.children| == 1 {
      WalkCompact(t.children[0], rest, d);
    } else {
      WalkedFrom(t, n, path, rest, d);
      var k := IndexOf(t.indices, rest[0]);
      if !IsWild(rest[0]) && k < |t.indices| {
        WalkCompact(t.children[k], rest, d);
        PromotedCompact(n, k, Walk(t.children[k], rest, d).value);
      } else {
        AddBelowCompact(n, rest, d);
      }
    }
  }

  lemma {:induction false} BuildCompact(routes: Routes)
    requires Build(routes).Some? && forall r | r in routes :: r.0 != ""
    ensures Compact(Build(routes).value)
  {
    if routes != [] {
      var init, last := routes[..|routes| - 1], routes[|routes| - 1];
      assert last in routes;
      BuildCompact(init);
      BuildAgrees(init);
      var t := Build(init).value;
      if t.path == "" && t.children == [] && t.wild.None? {
        InsertCompact(t.(priority := t.priority + 1), last.0, last.1);
      } else {
        WalkCompact(t, last.0, last.1);
      }
    }
  }

  // ---- the hint, from the patterns ----

  /** Some pattern ends here, has a parameter here, or two part here. */
  ghost predicate Junction(s: Table) {
    || "" in s
    || HasHead(s, ':')
    || exists k, m :: k in s && m in s && k != "" && m != "" && k[0] != m[0]
  }

  /**
   Whether a path that finds nothing is hinted, among the patterns s that can still go on here; node
   tells that the tree has a node here whatever s is, as at its root and right after a parameter.
   */
  ghost predicate Hinted(s: Table, node: bool, path: string)
    decreases |path|, if HasHead(s, ':') then 1 else 0
  {
    if path == "" then "/" in s
    else if path == "/" && HasHead(s, '/') then
      var b := After(s, "/");
      "/" in b || ((node || Junction(s)) && (Junction(b) ==> HasHead(b, ':')))
    else if !IsWild(path[0]) && HasHead(s, path[0]) then Hinted(After(s, [path[0]]), false, path[1..])
    else if HasHead(s, ':') then Hinted(AfterSegment(s, ParamSegment(s)), true, path[IndexOf(path, '/')..])
    else path == "/" && "" in s
  }

  lemma HintedByHead(s: Table, node: bool, path: string)
    requires path != "" && path != "/" && !IsWild(path[0]) && HasHead(s, path[0])
    ensures Hinted(s, node, path) == Hinted(After(s, [path[0]]), false, path[1..])
  {
  }

  /** Only the head of the path matters to what is left of the table. */
  lemma {:induction false} HintedWithin(s: Table, node: bool, path: string)
    requires path != "" && path != "/" && !IsWild(path[0]) && HasHead(s, path[0])
    ensures Hinted(s, node, path) == Hinted(ByHead(s, path[0]), node, path)
  {
    var c := path[0];
    var k :| k in s && k != "" && k[0] == c;
    assert k in ByHead(s, c);
    AfterByHead(s, c);
    HintedByHead(s, node, path);
    HintedByHead(ByHead(s, c), node, path);
  }

  /** Through the bytes that all patterns share. */
  lemma {:induction false} HintedStrip(s: Table, w: string, node: bool, path: string)
    requires w != "" && Plain(w) && s != map[] && (forall k | k in s :: w <= k) && (node ==> path != "/")
    ensures Hinted(s, node, path) ==
            if w <= path && |w| < |path| then Hinted(After(s, w), false, path[|w|..]) else path + "/" in s
    decreases |w|
  {
    HeadsOnly(s, w[0], w);
    PrefixHead(w, path);
    if path == "" {
      assert path + "/" == "/";
    } else if path == "/" {
      LoneSlash(s, w);
    } else if path[0] == w[0] {
      HintedByHead(s, node, path);
      HintedStripStep(s, w, path);
    } else {
      NotUnder(s, w, path + "/");
    }
  }

  lemma NotUnder(s: Table, w: string, p: string)
    requires w != "" && p != "" && p[0] != w[0] && forall k | k in s :: w <= k
    ensures p !in s
  {
  }

  lemma {:induction false} LoneSlash(s: Table, w: string)
    requires w != "" && Plain(w) && s != map[] && forall k | k in s :: w <= k
    ensures Hinted(s, false, "/") <==> "//" in s
  {
    HeadsOnly(s, w[0], w);
    assert "/" + "/" == "//";
    if w[0] != '/' {
      NotUnder(s, w, "//");
    }
  }

  lemma {:induction false} HintedStripStep(s: Table, w: string, path: string)
    requires w != "" && Plain(w) && s != map[] && (forall k | k in s :: w <= k)
    requires path != "" && path != "/" && path[0] == w[0]
    ensures Hinted(After(s, [w[0]]), false, path[1..]) ==
            if w <= path && |w| < |path| then Hinted(After(s, w), false, path[|w|..]) else path + "/" in s
    decreases |w|, 0
  {
    var a := After(s, [w[0]]);
    assert [w[0]] + (path[1..] + "/") == path + "/";
    if |w| == 1 {
      assert w == [w[0]] && w == path[..1];
      assert path[1..] == "" ==> path[1..] + "/" == "/";
    } else {
      AfterOnce(s, w);
      StripJoin(s, w, path);
      PlainTail(w);
      var k :| k in s;
      assert k == [w[0]] + k[1..] && k[1..] in a;
      HintedStrip(a, w[1..], false, path[1..]);
    }
  }

  // ---- the tree gives it ----

  /** The test for a child that is just a slash and holds a route. */
  predicate SlashChild(t: Tree) {
    var k := IndexOf(t.indices, '/');
    k < |t.indices| && k < |t.children| && |t.children[k].path| == 1 && t.children[k].data.Some?
  }

  lemma {:induction false} SlashChildIff(t: Tree, a: Table)
    requires Branch(t) && BelowAgrees(t, a)
    ensures SlashChild(t) <==> "/" in a
  {
    Parts(t);
    var k := IndexOf(t.indices, '/');
    if k < |t.indices| {
      ChildAgrees(t, a, k);
      SlashKey(t.children[k], ByHead(a, '/'));
    }
    if "/" in a {
      assert BoundBelow(t, "/", a["/"]);
      BelowHead(t, "/", a["/"]);
    }
  }

  lemma {:induction false} SlashKey(c: Tree, b: Table)
    requires Child(c, '/') && Agrees(c, b)
    ensures "/" in b <==> |c.path| == 1 && c.data.Some?
  {
    assert Shape(c);
    if "/" in b {
      KeyBound(c, b, "/");
      BelowHead(c, "/"[|c.path|..], b["/"]);
    }
    if |c.path| == 1 && c.data.Some? {
      assert c.path == "/" && "/"[1..] == "";
      assert BoundBelow(c, "", c.data.value) && Bound(c, "/", c.data.value);
    }
  }

  lemma {:induction false} HintAt(t: Tree, s: Table, node: bool, path: string, ps: seq<PathParam>)
    requires Branch(t) && Compact(t) && Agrees(t, s) && Entered(t, path) && path != "/"
    requires t.path != "" ==> t.priority >= 1
    requires Lookup(t, path, ps).data.None?
    ensures Lookup(t, path, ps).hint == Hinted(s, node, path)
    decreases t, 3
  {
    Parts(t);
    StripAgrees(t, s);
    var a := After(s, t.path);
    if t.path == "" {
      AfterNone(s);
      assert path[0..] == path;
      if path == "" {
        SlashChildIff(t, s);
      } else {
        HintBelow(t, s, path, ps);
      }
    } else {
      var p, e := Inhabited(t);
      HintedStrip(s, t.path, node, path);
      if t.path <= path && |t.path| < |path| {
        HintBelow(t, a, path[|t.path|..], ps);
        AtJoint(t, a, path[|t.path|..], ps);
      } else {
        HintEnds(t, s, path, ps);
      }
    }
  }

  /** Where the path ends at the node, or parts with its own path. */
  lemma {:induction false} HintEnds(t: Tree, s: Table, path: string, ps: seq<PathParam>)
    requires Branch(t) && Agrees(t, s) && path != "/" && t.path != "" && !(t.path <= path && |t.path| < |path|)
    requires Lookup(t, path, ps).data.None?
    ensures Lookup(t, path, ps).hint <==> path + "/" in s
  {
    Parts(t);
    StripAgrees(t, s);
    var a := After(s, t.path);
    if path == t.path {
      SlashChildIff(t, a);
    } else {
      NoEmptyBelow(t, a);
      assert t.path + "" == t.path;
      assert t.path == path + "/" <==>
        |t.path| == |path| + 1 && t.path[|path|] == '/' && path == t.path[..|path|];
      if path + "/" in s {
        assert t.path <= path + "/";
        assert t.path == (path + "/")[..|t.path|];
      }
    }
  }

  /** A node of the tree is a junction of its patterns, as far as a hint can tell. */
  lemma {:induction false} AtJoint(t: Tree, a: Table, rest: string, ps: seq<PathParam>)
    requires Branch(t) && Joint(t) && BelowAgrees(t, a) && rest != "" && LookupBelow(t, rest, ps).data.None?
    ensures Hinted(a, false, rest) == Hinted(a, true, rest)
  {
    if rest == "/" {
      NoCatchAll(t, rest, ps);
      JointJunction(t, a);
    }
  }

  lemma {:induction false} NoCatchAll(t: Tree, rest: string, ps: seq<PathParam>)
    requires Branch(t) && rest != "" && LookupBelow(t, rest, ps).data.None?
    ensures !HoldsCatchAll(t)
  {
    if HoldsCatchAll(t) {
      CatchAllFinds(t, rest, ps);
    }
  }

  lemma {:induction false} CatchAllFinds(t: Tree, rest: string, ps: seq<PathParam>)
    requires Branch(t) && rest != "" && HoldsCatchAll(t)
    ensures LookupBelow(t, rest, ps).data.Some?
  {
    Parts(t);
    assert t.indices == "";
  }

  lemma {:induction false} JointJunction(t: Tree, a: Table)
    requires Branch(t) && Joint(t) && BelowAgrees(t, a) && !HoldsCatchAll(t)
    ensures Junction(a)
  {
    Parts(t);
    if t.data.Some? {
      NoEmptyBelow(t, a);
    } else if t.wild.Some? {
      WildAgrees(t, a);
    } else {
      TwoHeads(t, a);
    }
  }

  lemma {:induction false} TwoHeads(t: Tree, a: Table)
    requires Branch(t) && BelowAgrees(t, a) && |t.children| >= 2
    ensures Junction(a)
  {
    Parts(t);
    ChildAgrees(t, a, 0);
    ChildAgrees(t, a, 1);
    var k :| k in a && k != "" && k[0] == t.indices[0];
    var m :| m in a && m != "" && m[0] == t.indices[1];
    assert k[0] != m[0];
  }

  lemma {:induction false} HintBelow(t: Tree, a: Table, rest: string, ps: seq<PathParam>)
    requires Branch(t) && Below(t) && BelowAgrees(t, a) && rest != "" && LookupBelow(t, rest, ps).data.None?
    ensures LookupBelow(t, rest, ps).hint == Hinted(a, true, rest)
    decreases t, 2
  {
    Parts(t);
    NoCatchAll(t, rest, ps);
    var k := IndexOf(t.indices, rest[0]);
    if k < |t.indices| {
      ChildAgrees(t, a, k);
      HintChild(t.children[k], a, rest, ps);
    } else {
      if HasHead(a, rest[0]) {
        Heads(t, a, rest[0]);
      }
      if t.wild.None? {
        if HasHead(a, ':') {
          Heads(t, a, ':');
        }
        NoEmptyBelow(t, a);
      } else {
        WildAgrees(t, a);
        SegmentAgrees(t.wild.value, a);
        HintPast(t.wild.value, AfterSegment(a, t.wild.value.path), rest, ps);
      }
    }
  }

  /** Into the child that takes the next byte. */
  lemma {:induction false} HintChild(c: Tree, a: Table, rest: string, ps: seq<PathParam>)
    requires rest != "" && !IsWild(rest[0]) && HasHead(a, rest[0])
    requires Child(c, rest[0]) && Compact(c) && Agrees(c, ByHead(a, rest[0])) && Lookup(c, rest, ps).data.None?
    ensures Lookup(c, rest, ps).hint == Hinted(a, true, rest)
    decreases c, 4
  {
    if rest == "/" {
      HintSlash(c, a, ps);
    } else {
      HintedWithin(a, true, rest);
      HintAt(c, ByHead(a, rest[0]), true, rest, ps);
    }
  }

  lemma {:induction false} HintPast(w: Tree, b: Table, rest: string, ps: seq<PathParam>)
    requires ParamNode(w) && Below(w) && BelowAgrees(w, b) && LookupParam(w, rest, ps).data.None?
    ensures LookupParam(w, rest, ps).hint == Hinted(b, true, rest[IndexOf(rest, '/')..])
    decreases w, 1
  {
    var low, qs := rest[IndexOf(rest, '/')..], ps + [Capture(w, rest)];
    WalkParts(w, w.path);
    OnlyChildAgrees(w, b);
    if w.children != [] && low != "" {
      HintChild(w.children[0], b, low, qs);
    } else if w.children != [] {
      SlashKey(w.children[0], ByHead(b, '/'));
    }
  }

  /** Into a child with just the slash left. */
  lemma {:induction false} HintSlash(c: Tree, a: Table, ps: seq<PathParam>)
    requires HasHead(a, '/') && Child(c, '/') && Compact(c) && Agrees(c, ByHead(a, '/'))
    requires Lookup(c, "/", ps).data.None?
    ensures Lookup(c, "/", ps).hint == Hinted(a, true, "/")
  {
    Parts(c);
    StripAgrees(c, ByHead(a, '/'));
    AfterByHead(a, '/');
    var b := After(a, "/");
    if c.path == "" {
      NoCatchAll(c, "/", ps);
    } else if c.path == "/" {
      SlashChildIff(c, b);
      SlashNode(c, b);
    } else {
      LongerSlash(c, a, b);
    }
  }

  /** A node that is just a slash, and holds no route. */
  lemma {:induction false} SlashNode(c: Tree, b: Table)
    requires Branch(c) && Joint(c) && c.data.None? && BelowAgrees(c, b)
    ensures c.wild.Some? <==> (Junction(b) ==> HasHead(b, ':'))
  {
    Parts(c);
    NoEmptyBelow(c, b);
    if c.wild.None? {
      TwoHeads(c, b);
      if HasHead(b, ':') {
        Heads(c, b, ':');
      }
    } else if c.wild.value.kind == Param {
      WildAgrees(c, b);
    } else {
      OneKey(c, b);
    }
  }

  lemma {:induction false} OneKey(c: Tree, b: Table)
    requires Branch(c) && HoldsCatchAll(c) && c.data.None? && BelowAgrees(c, b)
    ensures !Junction(b)
  {
    Parts(c);
    NoEmptyBelow(c, b);
    var leaf := c.wild.value.children[0].path;
    forall k | k in b ensures k == leaf {
      assert BoundBelow(c, k, b[k]);
      CatchAllOnly(c, k, b[k]);
    }
  }

  lemma {:induction false} LongerSlash(c: Tree, a: Table, b: Table)
    requires Child(c, '/') && Agrees(c, ByHead(a, '/')) && |c.path| > 1 && b == After(a, "/")
    ensures !Junction(b)
  {
    assert Shape(c);
    StripAgrees(c, ByHead(a, '/'));
    forall q | q in b ensures q != "" && q[0] == c.path[1] {
      assert "/" + q in ByHead(a, '/') && c.path <= "/" + q;
      assert ("/" + q)[1] == q[0];
    }
    assert !IsWild(c.path[1]);
  }

  /** Every hint of a built tree, from its routes and the path. */
  lemma {:induction false} HintIsHinted(routes: Routes, path: string)
    requires Plausible(routes) && Build(routes).Some? && path != "/"
    requires Ref(TableOf(routes), LooseOf(routes), path, []).None?
    ensures Valid(Build(routes).value)
    ensures var m := Lookup(Build(routes).value, path, []);
      m.data.None? && (m.hint <==> Hinted(TableOf(routes), true, path))
  {
    LookupIsRef(routes, path);
    BuildAgrees(routes);
    BuildCompact(routes);
    var t := Build(routes).value;
    assert Entered(t, path) by {
      assert t.kind != Root ==> t.priority == 0;
      WeightPositive(t);
    }
    HintAt(t, TableOf(routes), true, path, []);
  }

  // ---- what answers the path with a slash ----

  predicate EndsWith(s: string, t: string) {
    |t| <= |s| && s[|s| - |t|..] == t
  }

  /** The pattern ends in a parameter and a slash, and the parameter has captured nothing. */
  predicate Hollow(h: Hit) {
    h.params != [] &&
    var c := h.params[|h.params| - 1];
    c.value == "" && EndsWith(h.data.pattern, ":" + c.key + "/")
  }

  /** The answer comes from a pattern that ends in a slash. */
  predicate Slashed(r: Option<Hit>) {
    r.Some? && EndsInSlash(r.value.data.pattern)
  }

  /** The last segment of a pattern so far has a parameter. */
  predicate InParam(pre: string) {
    exists i :: 0 <= i < |pre| && pre[i] == ':' && '/' !in pre[i..]
  }

  lemma {:induction false} InParamStep(pre: string, c: char)
    requires c != ':' && InParam(pre + [c])
    ensures c != '/' && InParam(pre)
  {
    var i :| 0 <= i < |pre + [c]| && (pre + [c])[i] == ':' && '/' !in (pre + [c])[i..];
    assert i < |pre|;
    var low := (pre + [c])[i..];
    assert low == pre[i..] + [c] && c in low && forall b | b in pre[i..] :: b in low;
    assert pre[i] == ':' && '/' !in pre[i..];
  }

  lemma {:induction false} EndsInParam(pre: string, key: string)
    requires '/' !in key && EndsWith(pre + "/", ":" + key + "/")
    ensures InParam(pre)
  {
    var i := |pre| - |key| - 1;
    assert (pre + "/")[i..] == ":" + key + "/";
    assert pre[i..] == ":" + key by { assert pre[i..] == (pre + "/")[i..][..|key| + 1]; }
    assert pre[i] == ':' && '/' !in pre[i..];
  }

  /** Where a lookup stands: the captures, the pattern so far, and whether that has just ended in a parameter. */
  ghost predicate Stands(s: Table, path: string, ps: seq<PathParam>, pre: string, just: bool) {
    && NamedUnder(s, pre)
    && (InParam(pre) ==> just)
    && (just ==> forall c | HasHead(s, c) :: c == '/')
    && (just && path == "" && ps != [] ==> ps[|ps| - 1].value != "")
    && (ps != [] ==> '/' !in ps[|ps| - 1].key)
  }

  /** A catch-all pattern does not end in a slash. */
  lemma {:induction false} StarEnds(k: string)
    requires Good(k) && IsOpen(k)
    ensures '/' !in k[1..] && |k| >= 3
  {
    assert FirstWild(k) == 1;
  }

  lemma {:induction false} OpenKeepsSlash(s: Table, l: Table)
    requires Tame(s, l) && HasOpen(l)
    ensures "/" !in s && Good(OpenPattern(l))
  {
    var k := OpenPattern(l);
    assert IndexOf(k, '*') == 1;
    assert "/" in s ==> LooseClash(k, "/");
  }

  lemma {:induction false} NoSlashEnd(pre: string, k: string)
    requires Good(k) && IsOpen(k)
    ensures !EndsInSlash(pre + k)
  {
    StarEnds(k);
    assert k[|k| - 1] in k[1..];
    assert (pre + k)[|pre + k| - 1] == k[|k| - 1];
  }

  /** With just a slash left, a pattern that ends in a slash is found exactly if it is the slash. */
  lemma {:induction false} AtSlash(s: Table, l: Table, ps: seq<PathParam>, pre: string)
    requires Tame(s, l) && NamedUnder(s, pre) && HasHead(s, '/')
    ensures if "/" in s then Ref(s, l, "/", ps) == Some(Hit(s["/"], ps)) else !Slashed(Ref(s, l, "/", ps))
  {
    if HasOpen(l) {
      OpenKeepsSlash(s, l);
      NoSlashEnd(pre, OpenPattern(l));
      OpenTaken(s, l, ps, pre);
    } else {
      RefStep(s, l, "/", ps);
      EmptyTaken(After(s, "/"), After(l, "/"), ps);
      assert "/" + "" == "/";
      if "/" !in s && HasHead(After(s, "/"), '*') {
        StarNotSlash(s, l, pre);
      }
    }
  }

  lemma OpenTaken(s: Table, l: Table, ps: seq<PathParam>, pre: string)
    requires Part(l, s) && NamedUnder(s, pre) && HasOpen(l)
    ensures var r := Ref(s, l, "/", ps); r.Some? && r.value.data.pattern == pre + OpenPattern(l)
  {
  }

  lemma EmptyTaken(a: Table, b: Table, ps: seq<PathParam>)
    ensures Ref(a, b, "", ps) ==
            if "" in a then Some(Hit(a[""], ps))
            else if HasHead(a, '*') then Some(Hit(a[StarPattern(a)], ps + [PathParam(StarPattern(a)[1..], "")]))
            else None
  {
  }

  lemma {:induction false} StarNotSlash(s: Table, l: Table, pre: string)
    requires Tame(s, l) && NamedUnder(s, pre) && HasHead(After(s, "/"), '*')
    ensures var a := After(s, "/"); !EndsInSlash(a[StarPattern(a)].pattern)
  {
    var k := "/" + StarPattern(After(s, "/"));
    assert k in s;
    NoSlashEnd(pre, k);
  }

  lemma {:induction false} HintedAtEnd(s: Table, l: Table, node: bool, ps: seq<PathParam>, pre: string, just: bool)
    requires Tame(s, l) && Stands(s, "", ps, pre, just) && Ref(s, l, "", ps).None?
    ensures "/" in s <==> var r := Ref(s, l, "/", ps); Slashed(r) && !Hollow(r.value)
  {
    EmptyTaken(s, l, ps);
    if HasHead(s, '/') {
      AtSlash(s, l, ps, pre);
      if "/" in s {
        NotHollow(s, ps, pre, just);
      }
    } else if HasHead(s, ':') {
      HollowOnly(s, l, ps, pre);
    } else {
      NoOpenHead(s, l);
      RefNone(s, l, "/", ps);
    }
  }

  lemma {:induction false} NotHollow(s: Table, ps: seq<PathParam>, pre: string, just: bool)
    requires Stands(s, "", ps, pre, just) && "/" in s
    ensures EndsInSlash(s["/"].pattern) && !Hollow(Hit(s["/"], ps))
  {
    assert s["/"].pattern == pre + "/";
    if Hollow(Hit(s["/"], ps)) {
      EndsInParam(pre, ps[|ps| - 1].key);
    }
  }

  /** A parameter that takes the empty string before the slash. */
  lemma {:induction false} HollowOnly(s: Table, l: Table, ps: seq<PathParam>, pre: string)
    requires Tame(s, l) && NamedUnder(s, pre) && !HasHead(s, '/') && HasHead(s, ':')
    ensures var r := Ref(s, l, "/", ps); Slashed(r) ==> Hollow(r.value)
  {
    var name := ParamSegment(s);
    var a, b := AfterSegment(s, name), AfterSegment(l, name);
    var qs := ps + [PathParam(name[1..], "")];
    ParamTables(s, l, pre);
    NoOpenHead(s, l);
    RefPassParam(s, l, "/", ps);
    assert IndexOf("/", '/') == 0 && "/"[..0] == "" && "/"[0..] == "/";
    if HasHead(a, '/') {
      AtSlash(a, b, qs, pre + name);
      if "/" in a {
        SegmentIsHollow(a["/"], ps, pre, name);
      }
    } else {
      NoOpenHead(a, b);
      RefNone(a, b, "/", qs);
    }
  }

  lemma {:induction false} SegmentIsHollow(d: RouteData, ps: seq<PathParam>, pre: string, name: string)
    requires name != "" && name[0] == ':' && d.pattern == pre + name + "/"
    ensures Hollow(Hit(d, ps + [PathParam(name[1..], "")]))
  {
    assert name == ":" + name[1..];
    assert d.pattern == pre + (":" + name[1..] + "/");
  }

  /** Past the parameter the table is as tame and as well named. */
  lemma {:induction false} ParamTables(s: Table, l: Table, pre: string)
    requires Tame(s, l) && NamedUnder(s, pre) && HasHead(s, ':')
    ensures var name := ParamSegment(s); var a := AfterSegment(s, name);
      && Tame(a, AfterSegment(l, name)) && NamedUnder(a, pre + name)
      && (forall c | HasHead(a, c) :: c == '/') && a != map[]
  {
    var k :| k in s && k != "" && k[0] == ':';
    OneSegment(s, l, k);
    TameSegment(s, l, ParamSegment(s));
    NamedOn(s, pre, ParamSegment(s));
  }

  lemma NoOpenHead(s: Table, l: Table)
    requires Part(l, s) && !HasHead(s, '/')
    ensures !HasOpen(l)
  {
  }

  lemma {:induction false} HintedIsAnswered(s: Table, l: Table, node: bool, path: string, ps: seq<PathParam>,
      pre: string, just: bool)
    requires Tame(s, l) && Stands(s, path, ps, pre, just) && !EndsInSlash(path) && Ref(s, l, path, ps).None?
    ensures Hinted(s, node, path) <==> var r := Ref(s, l, path + "/", ps); Slashed(r) && !Hollow(r.value)
    decreases |path|, if HasHead(s, ':') then 1 else 0
  {
    if path == "" {
      HintedAtEnd(s, l, node, ps, pre, just);
      assert path + "/" == "/";
    } else if !IsWild(path[0]) && HasHead(s, path[0]) {
      var c := path[0];
      AnsweredStep(s, l, path, ps, pre, just);
      HintedIsAnswered(After(s, [c]), After(l, [c]), false, path[1..], ps, pre + [c], false);
    } else if HasHead(s, ':') {
      var name := ParamSegment(s);
      var c := PathParam(name[1..], path[..IndexOf(path, '/')]);
      AnsweredParam(s, l, path, ps, pre);
      HintedIsAnswered(AfterSegment(s, name), AfterSegment(l, name), true, path[IndexOf(path, '/')..], ps + [c],
        pre + name, true);
    }
  }

  lemma {:induction false} AnsweredStep(s: Table, l: Table, path: string, ps: seq<PathParam>, pre: string, just: bool)
    requires Tame(s, l) && Stands(s, path, ps, pre, just) && !EndsInSlash(path) && Ref(s, l, path, ps).None?
    requires path != "" && !IsWild(path[0]) && HasHead(s, path[0])
    ensures var c := path[0]; var a, b := After(s, [c]), After(l, [c]);
      && Tame(a, b) && Stands(a, path[1..], ps, pre + [c], false) && !EndsInSlash(path[1..])
      && Ref(a, b, path[1..], ps).None? && Ref(s, l, path + "/", ps) == Ref(a, b, path[1..] + "/", ps)
  {
    var c := path[0];
    TameStep(s, l, c);
    NamedOn(s, pre, [c]);
    RefStep(s, l, path, ps);
    assert (path + "/")[1..] == path[1..] + "/";
    RefStep(s, l, path + "/", ps);
    if InParam(pre + [c]) {
      InParamStep(pre, c);
    }
  }

  lemma {:induction false} AnsweredParam(s: Table, l: Table, path: string, ps: seq<PathParam>, pre: string)
    requires Tame(s, l) && NamedUnder(s, pre) && !EndsInSlash(path) && Ref(s, l, path, ps).None?
    requires path != "" && (IsWild(path[0]) || !HasHead(s, path[0])) && HasHead(s, ':') && !HasOpen(l)
    ensures var name, end := ParamSegment(s), IndexOf(path, '/');
      var a, b := AfterSegment(s, name), AfterSegment(l, name);
      var qs := ps + [PathParam(name[1..], path[..end])];
      && Tame(a, b) && Stands(a, path[end..], qs, pre + name, true) && !EndsInSlash(path[end..])
      && Ref(a, b, path[end..], qs).None? && Ref(s, l, path + "/", ps) == Ref(a, b, path[end..] + "/", qs)
  {
    ParamTables(s, l, pre);
    ParamBoth(s, l, path, ps);
    StandsPast(s, l, path, ps, pre);
    TailNoSlash(path, IndexOf(path, '/'));
  }

  lemma TailNoSlash(path: string, i: nat)
    requires i <= |path| && !EndsInSlash(path)
    ensures !EndsInSlash(path[i..])
  {
  }

  lemma {:induction false} StandsPast(s: Table, l: Table, path: string, ps: seq<PathParam>, pre: string)
    requires path != "" && HasHead(s, ':')
    requires var name := ParamSegment(s); var a := AfterSegment(s, name);
      NamedUnder(a, pre + name) && forall c | HasHead(a, c) :: c == '/'
    ensures var name, end := ParamSegment(s), IndexOf(path, '/');
      Stands(AfterSegment(s, name), path[end..], ps + [PathParam(name[1..], path[..end])], pre + name, true)
  {
    var name := ParamSegment(s);
    assert forall b | b in name[1..] :: b in name;
  }

  /** The slash at the end does not change what a parameter takes of a path. */
  lemma {:induction false} ParamBoth(s: Table, l: Table, path: string, ps: seq<PathParam>)
    requires path != "" && (IsWild(path[0]) || !HasHead(s, path[0])) && HasHead(s, ':') && !HasOpen(l)
    ensures var name, end := ParamSegment(s), IndexOf(path, '/');
      var a, b := AfterSegment(s, name), AfterSegment(l, name);
      var qs := ps + [PathParam(name[1..], path[..end])];
      Ref(s, l, path, ps) == Ref(a, b, path[end..], qs) && Ref(s, l, path + "/", ps) == Ref(a, b, path[end..] + "/", qs)
  {
    var end := IndexOf(path, '/');
    FirstSlash(path);
    RefPassParam(s, l, path, ps);
    RefPassParam(s, l, path + "/", ps);
    assert (path + "/")[..end] == path[..end] && (path + "/")[end..] == path[end..] + "/";
  }

  lemma RefPassParam(s: Table, l: Table, path: string, ps: seq<PathParam>)
    requires path != "" && (IsWild(path[0]) || !HasHead(s, path[0])) && HasHead(s, ':') && !HasOpen(l)
    ensures var name, end := ParamSegment(s), IndexOf(path, '/');
      Ref(s, l, path, ps) ==
      Ref(AfterSegment(s, name), AfterSegment(l, name), path[end..], ps + [PathParam(name[1..], path[..end])])
  {
  }

  lemma {:induction false} FirstSlash(s: string)
    ensures IndexOf(s + "/", '/') == IndexOf(s, '/')
  {
    if s != "" {
      assert (s + "/")[1..] == s[1..] + "/";
      FirstSlash(s[1..]);
    }
  }

  /**
   A path without trailing slash that finds nothing is hinted exactly when the path with the slash is
   answered by a pattern that ends in a slash, unless that has a parameter just before the slash and the
   parameter takes the empty string.
   */
  lemma {:induction false} HintIff(routes: Routes, path: string)
    requires Plausible(routes) && Build(routes).Some? && !EndsInSlash(path)
    requires Ref(TableOf(routes), LooseOf(routes), path, []).None?
    ensures Valid(Build(routes).value)
    ensures var m := Lookup(Build(routes).value, path, []);
      var r := Ref(TableOf(routes), LooseOf(routes), path + "/", []);
      m.data.None? && (m.hint <==> Slashed(r) && !Hollow(r.value))
  {
    HintIsHinted(routes, path);
    BuildTame(routes);
    BuildNamed(routes);
    HintedIsAnswered(TableOf(routes), LooseOf(routes), true, path, [], "", false);
  }

  // ---- paths that end in a slash ----

  /** The patterns that can go on behind q, and whether q has just filled a parameter (or is empty). */
  ghost function Left(s: Table, node: bool, q: string): Option<(Table, bool)>
    decreases |q|, if HasHead(s, ':') then 1 else 0
  {
    if q == "" then Some((s, node))
    else if !IsWild(q[0]) && HasHead(s, q[0]) then Left(After(s, [q[0]]), false, q[1..])
    else if HasHead(s, ':') then Left(AfterSegment(s, ParamSegment(s)), true, q[IndexOf(q, '/')..])
    else None
  }

  /** Behind the slash: another slash, or no two literal patterns that part there without a parameter. */
  ghost predicate Narrow(b: Table, node: bool) {
    "/" in b || (node && (Junction(b) ==> HasHead(b, ':')))
  }

  /** When the slash is hinted away, among the patterns a that can go on before it. */
  ghost predicate Advised(a: Table, node: bool) {
    if HasHead(a, '/') then Narrow(After(a, "/"), node || Junction(a))
    else if HasHead(a, ':') then
      var b := AfterSegment(a, ParamSegment(a));
      HasHead(b, '/') ==> Narrow(After(b, "/"), true)
    else "" in a
  }

  lemma {:induction false} HintedIsAdvised(a: Table, l: Table, node: bool, pre: string)
    requires Tame(a, l) && NamedUnder(a, pre)
    ensures Hinted(a, node, "/") <==> Advised(a, node)
  {
    if !HasHead(a, '/') && HasHead(a, ':') {
      ParamTables(a, l, pre);
      var b := AfterSegment(a, ParamSegment(a));
      assert IndexOf("/", '/') == 0 && "/"[0..] == "/";
      assert Hinted(a, node, "/") == Hinted(b, true, "/");
      var k :| k in b;
      HeadOf(b, k);
    }
  }

  lemma HeadOf(b: Table, k: string)
    requires k in b
    ensures k == "" || HasHead(b, k[0])
  {
  }

  /** A descent to q that finds nothing behind it: what is left there decides about q and about the slash. */
  lemma {:induction false} SlashLeft(s: Table, l: Table, node: bool, q: string, ps: seq<PathParam>, pre: string)
    requires Tame(s, l) && NamedUnder(s, pre) && Ref(s, l, q + "/", ps).None?
    ensures var r := Left(s, node, q);
      && (Hinted(s, node, q + "/") <==> r.Some? && Advised(r.value.0, r.value.1))
      && (Ref(s, l, q, ps).Some? <==> r.Some? && "" in r.value.0)
    decreases |q|, if HasHead(s, ':') then 1 else 0
  {
    if q == "" {
      assert q + "/" == "/";
      HintedIsAdvised(s, l, node, pre);
      EmptyTaken(s, l, ps);
      LoneStar(s, l, ps);
    } else if !IsWild(q[0]) && HasHead(s, q[0]) {
      var c := q[0];
      assert (q + "/")[0] == c && (q + "/")[1..] == q[1..] + "/";
      TameStep(s, l, c);
      NamedOn(s, pre, [c]);
      RefStep(s, l, q, ps);
      RefStep(s, l, q + "/", ps);
      SlashLeft(After(s, [c]), After(l, [c]), false, q[1..], ps, pre + [c]);
    } else if HasHead(s, ':') {
      var name, end := ParamSegment(s), IndexOf(q, '/');
      ParamTables(s, l, pre);
      ParamBoth(s, l, q, ps);
      HintedPast(s, node, q);
      SlashLeft(AfterSegment(s, name), AfterSegment(l, name), true, q[end..],
        ps + [PathParam(name[1..], q[..end])], pre + name);
    }
  }

  lemma {:induction false} HintedPast(s: Table, node: bool, q: string)
    requires q != "" && (IsWild(q[0]) || !HasHead(s, q[0])) && HasHead(s, ':')
    ensures Hinted(s, node, q + "/") ==
            Hinted(AfterSegment(s, ParamSegment(s)), true, q[IndexOf(q, '/')..] + "/")
  {
    FirstSlash(q);
    assert (q + "/")[0] == q[0] && (q + "/")[IndexOf(q, '/')..] == q[IndexOf(q, '/')..] + "/";
  }

  /** A catch-all that is due takes the slash too. */
  lemma {:induction false} LoneStar(s: Table, l: Table, ps: seq<PathParam>)
    requires Tame(s, l) && Ref(s, l, "/", ps).None?
    ensures !HasHead(s, '*')
  {
    if HasHead(s, '*') {
      StarAlone(s, l);
      NoOpenHead(s, l);
      RefStar(s, l, ps);
    }
  }

  lemma {:induction false} StarAlone(s: Table, l: Table)
    requires Tame(s, l) && HasHead(s, '*')
    ensures !HasHead(s, '/') && !HasHead(s, ':')
  {
    var x := StarPattern(s);
    forall k | k in s ensures k == x {
      assert x[..0] == "" && IndexOf(x, '*') == 0;
      assert k != x ==> StarClash(x, k);
    }
  }

  lemma RefStar(s: Table, l: Table, ps: seq<PathParam>)
    requires HasHead(s, '*') && !HasHead(s, '/') && !HasHead(s, ':') && !HasOpen(l)
    ensures Ref(s, l, "/", ps).Some?
  {
  }

  /**
   A path q + "/" that finds nothing: when it is hinted, so that q is tried instead, and when q is then
   answered. Both are decided by the patterns that can go on behind q.
   */
  lemma {:induction false} SlashHintIff(routes: Routes, q: string)
    requires Plausible(routes) && Build(routes).Some? && q != ""
    requires Ref(TableOf(routes), LooseOf(routes), q + "/", []).None?
    ensures Valid(Build(routes).value)
    ensures var t, r := Build(routes).value, Left(TableOf(routes), true, q);
      var m := Lookup(t, q + "/", []);
      && m.data.None? && (m.hint <==> r.Some? && Advised(r.value.0, r.value.1))
      && (Lookup(t, q, []).data.Some? <==> r.Some? && "" in r.value.0)
  {
    HintIsHinted(routes, q + "/");
    LookupIsRef(routes, q);
    BuildTame(routes);
    BuildNamed(routes);
    SlashLeft(TableOf(routes), LooseOf(routes), true, q, [], "");
  }

  /** For a literal q what is left are the patterns that start with it. */
  lemma {:induction false} LeftLiteral(s: Table, node: bool, q: string, k: string)
    requires Plain(q) && q != "" && k in s && q <= k
    ensures Left(s, node, q) == Some((After(s, q), false))
    decreases |q|
  {
    var a := After(s, [q[0]]);
    assert k == [q[0]] + k[1..] && k[1..] in a;
    assert q == [q[0]] + q[1..];
    if |q| > 1 {
      LeftLiteral(a, false, q[1..], k[1..]);
      AfterAfter(s, [q[0]], q[1..]);
    } else {
      assert q == [q[0]];
    }
  }

  // ---- the slash hint can be missing, and can be wrong ----

  ghost predicate Literal(routes: Routes) {
    Plausible(routes) && forall r | r in routes :: Plain(r.0)
  }

  lemma {:induction false} LiteralAccepted(routes: Routes)
    requires Literal(routes) && |Paths(routes)| == |routes|
    ensures Build(routes).Some? && TableOf(routes).Keys == Paths(routes)
    ensures forall r | r in routes :: TableOf(routes)[r.0] == r.1
  {
    forall r | r in routes ensures Good(r.0) && '*' !in r.0 {
      PlainGood(r.0);
      PlainStarless(r.0);
    }
    forall p, q | p in Paths(routes) && q in Paths(routes) ensures !Clash(p, q) {
      assert forall i: nat | i < |p| :: p[i] != ':';
    }
    BuildAccepts(routes);
    BuildDistinct(routes);
  }

  /** Among literal routes only the path itself is found. */
  lemma {:induction false} LiteralFinds(routes: Routes, path: string)
    requires Literal(routes) && Build(routes).Some?
    ensures Ref(TableOf(routes), LooseOf(routes), path, []).Some? ==> path in TableOf(routes)
  {
    forall r | r in routes ensures '*' !in r.0 {
      PlainStarless(r.0);
    }
    NothingLoose(routes);
    BuildDistinct(routes);
    if Ref(TableOf(routes), LooseOf(routes), path, []).Some? {
      var h := Ref(TableOf(routes), LooseOf(routes), path, []).value;
      var p := RefSound(TableOf(routes), LooseOf(routes), path, []);
      PlainParts(TableOf(routes), p, Values(h.params[0..]), "");
    }
  }

  /** Literals w + "/" + x and w + y part at w: the slash is hinted away, though w finds nothing. */
  lemma {:induction false} SlashHintMisleads(d: (string, RouteData), e: (string, RouteData), w: string, x: string, y: string)
    requires Literal([d, e]) && d.0 == w + "/" + x && e.0 == w + y
    requires w != "" && x != "" && y != "" && y[0] != '/'
    ensures Build([d, e]).Some? && Valid(Build([d, e]).value)
    ensures var m := Lookup(Build([d, e]).value, w + "/", []); m.data.None? && m.hint
    ensures Lookup(Build([d, e]).value, w, []).data.None?
  {
    var routes, s := [d, e], TableOf([d, e]);
    assert d in routes && e in routes;
    assert d.0 != e.0 by { assert d.0[|w|] == '/' && e.0[|w|] == y[0]; }
    assert Paths(routes) == {d.0, e.0};
    LiteralAccepted(routes);
    LiteralFinds(routes, w + "/");
    assert w + "/" != e.0 by { assert e.0[|w|] == y[0]; }
    assert |w + "/"| < |d.0|;
    SlashHintIff(routes, w);
    PrefixPlain(d.0, w);
    LeftLiteral(s, true, w, d.0);
    MisleadsHere(After(s, w), w, x, y, d.0, e.0, s);
  }

  lemma PrefixPlain(p: string, w: string)
    requires Plain(p) && w <= p
    ensures Plain(w)
  {
  }

  lemma Behind(w: string, x: string, k: string)
    ensures w + ("/" + k) == w + "/" + k && (w + "/" + k == w + "/" + x ==> k == x)
    ensures |w + "/" + k| > |w| && (Plain(w + "/" + k) && k != "" ==> !IsWild(k[0]))
  {
    assert (w + "/" + k)[|w| + 1..] == k && (w + "/" + x)[|w| + 1..] == x;
  }

  lemma {:induction false} MisleadsHere(a: Table, w: string, x: string, y: string, p: string, q: string, s: Table)
    requires p == w + "/" + x && q == w + y && x != "" && y != "" && y[0] != '/' && Plain(p)
    requires s.Keys == {p, q} && a == After(s, w)
    ensures Advised(a, false) && "" !in a
  {
    OneBehind(a, w, x, y, s);
    assert "/" + x in a && y in a && ("/" + x)[0] == '/';
    assert "" !in a by { assert w + "" == w && |w| < |p| && |w| < |q|; }
  }

  lemma OneBehind(a: Table, w: string, x: string, y: string, s: Table)
    requires s.Keys == {w + "/" + x, w + y} && a == After(s, w) && y != "" && y[0] != '/'
    ensures After(a, "/").Keys == {x} && "/" + x in a
  {
    AfterAfter(s, w, "/");
    forall k ensures k in After(s, w + "/") <==> k == x {
      BehindOne(w, x, y, k);
    }
    assert x in After(a, "/");
  }

  lemma BehindOne(w: string, x: string, y: string, k: string)
    requires y != "" && y[0] != '/'
    ensures w + "/" + k in {w + "/" + x, w + y} <==> k == x
  {
    assert (w + "/" + k)[|w|] == '/' && (w + y)[|w|] == y[0];
    assert (w + "/" + k)[|w| + 1..] == k && (w + "/" + x)[|w| + 1..] == x;
  }

  /** Literal w, and two literals that part right behind w + "/": the slash is not hinted away, though w is found. */
  lemma {:induction false} SlashHintIsMissing(d: (string, RouteData), e: (string, RouteData), f: (string, RouteData),
      x: string, y: string)
    requires Literal([d, e, f]) && e.0 == d.0 + "/" + x && f.0 == d.0 + "/" + y
    requires |x| > 1 && |y| > 1 && x[0] != y[0]
    ensures Build([d, e, f]).Some? && Valid(Build([d, e, f]).value)
    ensures var m := Lookup(Build([d, e, f]).value, d.0 + "/", []); m.data.None? && !m.hint
    ensures Lookup(Build([d, e, f]).value, d.0, []).data == Some(d.1)
  {
    var routes, s, w := [d, e, f], TableOf([d, e, f]), d.0;
    assert d in routes && e in routes && f in routes;
    assert e.0 != f.0 by { assert e.0[|w| + 1] == x[0] && f.0[|w| + 1] == y[0]; }
    assert Paths(routes) == {d.0, e.0, f.0};
    LiteralAccepted(routes);
    LiteralFinds(routes, w + "/");
    SlashHintIff(routes, w);
    LeftLiteral(s, true, w, w);
    MissingHere(After(s, w), w, x, y, s);
    LiteralRouteFound(routes, w);
  }

  lemma {:induction false} MissingHere(a: Table, w: string, x: string, y: string, s: Table)
    requires |x| > 1 && |y| > 1 && x[0] != y[0] && Plain(w + "/" + x) && Plain(w + "/" + y)
    requires s.Keys == {w, w + "/" + x, w + "/" + y} && a == After(s, w)
    ensures !Advised(a, false)
  {
    Behind(w, x, y);
    Behind(w, y, x);
    BothBehind(a, w, x, y, s);
    NotNarrow(After(a, "/"), x, y, Junction(a));
  }

  lemma BothBehind(a: Table, w: string, x: string, y: string, s: Table)
    requires s.Keys == {w, w + "/" + x, w + "/" + y} && a == After(s, w)
    ensures HasHead(a, '/') && After(a, "/").Keys == {x, y}
  {
    AfterAfter(s, w, "/");
    AfterKeys(s, w + "/", w, x, y);
    assert x in After(a, "/");
    assert "/" + x in a && ("/" + x)[0] == '/';
  }

  lemma AfterKeys(s: Table, u: string, w: string, x: string, y: string)
    requires s.Keys == {w, u + x, u + y} && |w| < |u|
    ensures After(s, u).Keys == {x, y}
  {
    forall k ensures k in After(s, u) <==> k in {x, y} {
      BehindBoth(u, x, y, k);
      assert u + k != w;
    }
  }

  lemma BehindBoth(u: string, x: string, y: string, k: string)
    ensures u + k in {u + x, u + y} <==> k in {x, y}
  {
    assert (u + x)[|u|..] == x && (u + y)[|u|..] == y && (u + k)[|u|..] == k;
  }

  lemma NotNarrow(b: Table, x: string, y: string, node: bool)
    requires b.Keys == {x, y} && |x| > 1 && |y| > 1 && x[0] != y[0]
    requires x[0] != ':' && y[0] != ':'
    ensures !Narrow(b, node)
  {
    assert Junction(b);
  }
}
