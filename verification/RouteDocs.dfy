/**
 Where the routing guide promises more than the tree does, and the exact condition under which
 its promise about a static route beside a parameter holds.
 */
module RouteDocs {
  import opened Options
  import opened RouteTree
  import opened RouteTreeAdd
  import opened RouteLookup
  import opened RouteSound
  import opened RouteAccept
  import opened RouteLoose
  import opened RouteReach
  import opened RouteTheorems
  import opened RouteOrder

  lemma {:induction false} ClearPlain(s: Table, w: string, p: string, vs: seq<string>, end: string)
    requires Plain(w)
    ensures Clear(s, w + p, vs, end) <==> Clear(After(s, w), p, vs, end)
    decreases |w|
  {
    if w == "" {
      AfterNone(s);
      assert w + p == p;
    } else {
      Front(w, p);
      AfterAfter(s, [w[0]], w[1..]);
      ClearByte(s, w + p, vs, end);
      ClearPlain(After(s, [w[0]]), w[1..], p, vs, end);
    }
  }

  lemma Front(w: string, p: string)
    requires w != "" && Plain(w)
    ensures (w + p)[0] == w[0] && (w + p)[1..] == w[1..] + p && [w[0]] + w[1..] == w
    ensures w[0] != ':' && Plain(w[1..])
  {
  }

  lemma ClearByte(s: Table, w: string, vs: seq<string>, end: string)
    requires w != "" && w[0] != ':'
    ensures Clear(s, w, vs, end) <==> Clear(After(s, [w[0]]), w[1..], vs, end)
  {
  }

  /**
   A parameter after a literal prefix is reached by a value exactly when no pattern continues
   the prefix with the value's first byte.
   */
  lemma {:induction false} ParamReachedIff(routes: Routes, pre: string, name: string, v: string)
    requires Plausible(routes) && Build(routes).Some?
    requires Plain(pre) && ParamPath(name) && pre + name in TableOf(routes)
    requires v != "" && '/' !in v
    ensures Valid(Build(routes).value)
    ensures var s := TableOf(routes); var m := Lookup(Build(routes).value, pre + v, []);
      && (m.data == Some(s[pre + name]) <==> IsWild(v[0]) || !(exists k :: k in s && pre + [v[0]] <= k))
      && (m.data == Some(s[pre + name]) ==> m.params == [PathParam(name[1..], v)])
  {
    var s, p := TableOf(routes), pre + name;
    FilledParam(pre, name, v);
    ClearPlain(s, pre, name, [v], "");
    ClearParam(After(s, pre), name, v);
    Continues(s, pre, v[0]);
    PatternReachedIff(routes, p, [v]);
  }

  lemma {:induction false} FilledParam(pre: string, name: string, v: string)
    requires Plain(pre) && ParamPath(name)
    ensures Fill(pre + name, [v]) == pre + v && |Names(pre + name)| == 1 && '*' !in pre + name
    ensures Zip(pre + name, [v]) == [PathParam(name[1..], v)]
  {
    FillPlain(pre, name, [v]);
    FillParam(name, "", v, []);
    assert name + "" == name && [v] + [] == [v] && v + "" == v;
    NamesPlain(pre, name);
    SegmentEnd(name, name);
    assert name[|name|..] == "" && name[..|name|] == name;
    PlainStarless(pre);
    ParamStarless(name);
    ZipPlain(pre, name, [v]);
  }

  lemma {:induction false} ZipPlain(w: string, q: string, vs: seq<string>)
    requires Plain(w)
    ensures Zip(w + q, vs) == Zip(q, vs)
  {
    if w == "" {
      assert w + q == q;
    } else {
      assert (w + q)[1..] == w[1..] + q;
      ZipPlain(w[1..], q, vs);
    }
  }

  lemma {:induction false} ClearParam(a: Table, name: string, v: string)
    requires ParamPath(name) && v != "" && '/' !in v
    ensures Clear(a, name, [v], "") <==> IsWild(v[0]) || !HasHead(a, v[0])
  {
    FillParam(name, "", v, []);
    assert name + "" == name && [v] + [] == [v] && v + "" == v;
    SegmentEnd(name, name);
    assert name[|name|..] == "" && name[..|name|] == name;
  }

  lemma {:induction false} Continues(s: Table, pre: string, c: char)
    ensures HasHead(After(s, pre), c) <==> exists k :: k in s && pre + [c] <= k
  {
    if HasHead(After(s, pre), c) {
      var q :| q in After(s, pre) && q != "" && q[0] == c;
      assert pre + [c] <= pre + q;
    }
    if k :| k in s && pre + [c] <= k {
      assert k == pre + k[|pre|..] && k[|pre|] == (pre + [c])[|pre|];
    }
  }

  // ---- the guide's own example ----

  function D(path: string): (string, RouteData) {
    (path, RouteData(path, []))
  }

  /** With /users/me and /users/:id registered, in either order, /users/mike finds nothing. */
  lemma {:induction false} MikeIsLost(routes: Routes, a: string, b: string, path: string)
    requires a == "/users/me" && b == "/users/:id" && path == "/users/mike"
    requires multiset(routes) == multiset{D(a), D(b)}
    ensures Build(routes).Some?
    ensures Valid(Build(routes).value) && Lookup(Build(routes).value, path, []).data.None?
  {
    TwoRoutes(routes, a, b);
    MikeAccepted(routes, a, b);
    BuildDistinct(routes);
    MikeRefused(TableOf(routes), a, b, path);
    LookupIsGreedy(routes, path);
  }

  lemma {:induction false} MikeRefused(s: Table, a: string, b: string, path: string)
    requires a == "/users/me" && b == "/users/:id" && path == "/users/mike" && s.Keys == {a, b}
    ensures Ref(s, map[], path, []) == None
  {
    MikeRef(s, map[], a[..8], b, path);
  }

  lemma {:induction false} MikeAccepted(routes: Routes, a: string, b: string)
    requires a == "/users/me" && b == "/users/:id" && |routes| == 2 && Paths(routes) == {a, b}
    requires forall r | r in routes :: r == D(a) || r == D(b)
    ensures Plausible(routes) && Build(routes).Some? && forall r | r in routes :: '*' !in r.0
  {
    PlainGood(a);
    IdIsGood(b);
    NoClashWithStatic(a, b);
    assert a[7] != b[7];
    BuildAccepts(routes);
  }

  lemma {:induction false} TwoRoutes(routes: Routes, a: string, b: string)
    requires multiset(routes) == multiset{D(a), D(b)}
    ensures |routes| == 2 && Paths(routes) == {a, b}
    ensures forall r | r in routes :: r == D(a) || r == D(b)
  {
    assert |routes| == |multiset(routes)| == 2;
    forall r ensures r in routes <==> r == D(a) || r == D(b) {
      assert r in routes <==> r in multiset(routes);
    }
    assert D(a) in routes && D(b) in routes;
  }

  lemma {:induction false} NoClashWithStatic(a: string, b: string)
    requires Plain(a)
    ensures !Clash(a, b) && !Clash(b, a) && !Clash(a, a) && !Clash(b, b)
  {
    ClashSymmetric(a, b);
    NeverItself(b);
  }

  /** The reference follows literal bytes as long as some pattern does. */
  lemma {:induction false} RefFollow(s: Table, l: Table, pre: string, q: string, rest: string)
    requires Plain(pre) && pre + q in s && l == map[]
    ensures Ref(s, l, pre + rest, []) == Ref(After(s, pre), l, rest, [])
    decreases |pre|
  {
    if pre == "" {
      assert pre + rest == rest;
      AfterNone(s);
    } else {
      var c, w := pre[0], pre[1..];
      assert [c] + w == pre && [c] + (w + q) == pre + q;
      assert (pre + q)[0] == c && HasHead(s, c);
      assert (pre + rest)[0] == c && (pre + rest)[1..] == w + rest;
      RefStep(s, l, pre + rest, []);
      assert forall x :: [c] + x !in l;
      RefFollow(After(s, [c]), l, w, q, rest);
      AfterAfter(s, [c], w);
    }
  }

  lemma {:induction false} MikeRef(s: Table, l: Table, pre: string, b: string, path: string)
    requires |pre| == 8 && pre[7] == 'm' && pre + "e" == "/users/me" && Plain(pre)
    requires b == "/users/:id" && path == "/users/mike"
    requires s.Keys == {pre + "e", b} && l == map[]
    ensures Ref(s, l, path, []) == None
  {
    var c := After(s, pre);
    forall q | q in c ensures q == "e" {
      assert (pre + q)[7] == 'm' && b[7] == ':';
      assert q == (pre + q)[|pre|..];
    }
    assert path == pre + "ike" by { assert pre == (pre + "e")[..8]; }
    RefFollow(s, l, pre, "e", "ike");
    RefNone(c, l, "ike", []);
  }

  lemma {:induction false} IdIsGood(b: string)
    requires b == "/users/:id"
    ensures Good(b)
  {
    assert b == b[..7] + b[7..];
    GoodPlain(b[..7], b[7..]);
    assert b[7..] + "" == b[7..];
    GoodParam(b[7..], "");
  }
}
