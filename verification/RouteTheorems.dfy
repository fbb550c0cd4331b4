/**
 What the router promises of lookups after any accepted run of registrations: agreement with the
 pattern table and the order of the run, soundness, wildcard-free routes, priorities.
 */
module RouteTheorems {
  import opened Options
  import opened RouteTree
  import opened RouteTreeAdd
  import opened RouteLookup
  import opened RouteSound
  import opened RouteAccept
  import opened RouteLoose
  import opened RouteReach

  type Routes = seq<(string, RouteData)>

  /** Paths are not empty, and mux.method records each path as the pattern of its route. */
  ghost predicate Plausible(routes: Routes) {
    forall r | r in routes :: r.0 != "" && r.1.pattern == r.0
  }

  ghost predicate Named(s: Table) {
    forall p | p in s :: s[p].pattern == p
  }

  lemma {:induction false} BuildNamed(routes: Routes)
    requires Plausible(routes)
    ensures Named(TableOf(routes)) && NamedUnder(TableOf(routes), "")
  {
    if routes != [] {
      var init, last := routes[..|routes| - 1], routes[|routes| - 1];
      assert last in routes && forall r | r in init :: r in routes;
      BuildNamed(init);
    }
    assert forall q: string :: "" + q == q;
  }

  // ---- what acceptance leaves ----

  lemma {:induction false} AgainstSymmetric(k: string, p: string)
    ensures Against(k, p) <==> Against(p, k)
  {
    ClashSymmetric(k, p);
  }

  /** One more accepted route keeps a table tame. */
  lemma {:induction false} TameGrows(s: Table, l: Table, p: string, d: RouteData)
    requires Tame(s, l) && Good(p) && Free(s, l, p)
    ensures Tame(s[p := d], if Fresh(s, p) then l[p := d] else l)
  {
    forall k, q | k in s[p := d] && q in s[p := d] && k != q ensures !Against(k, q) {
      AgainstSymmetric(k, q);
    }
    var m := if Fresh(s, p) then l[p := d] else l;
    forall k, q | k in m && q in s[p := d] && k != q ensures !LooseClash(k, q) {
      LooseStays(s, l, p, k, q);
    }
  }

  lemma {:induction false} LooseStays(s: Table, l: Table, p: string, k: string, q: string)
    requires Tame(s, l) && Good(p) && Free(s, l, p) && k != q
    requires (k in l || (k == p && Fresh(s, p))) && (q in s || q == p)
    ensures !LooseClash(k, q)
  {
    if k == p && Fresh(s, p) {
      SlashBefore(p);
    }
  }

  /** The patterns of an accepted run are well formed and out of each other's way. */
  lemma {:induction false} BuildTame(routes: Routes)
    requires Plausible(routes) && Build(routes).Some?
    ensures Tame(TableOf(routes), LooseOf(routes))
  {
    if routes != [] {
      var init, last := routes[..|routes| - 1], routes[|routes| - 1];
      assert last in routes && forall r | r in init :: r in routes;
      BuildAcceptsIff(routes);
      assert Takes(routes, |routes| - 1);
      BuildAcceptsIff(init);
      BuildTame(init);
      TameGrows(TableOf(init), LooseOf(init), last.0, last.1);
    }
  }

  // ---- lookups ----

  lemma {:induction false} LookupSound(t: Tree, s: Table, path: string)
    requires Valid(t) && Agrees(t, s) && Named(s) && Lookup(t, path, []).data.Some?
    ensures var m := Lookup(t, path, []);
      var p := m.data.value.pattern;
      p in s && s[p] == m.data.value && Answers(p, m.params, path)
  {
    var m := Lookup(t, path, []);
    var p := Sound(t, path, []);
    assert m.params[0..] == m.params;
  }

  /** Every lookup is the reference on the registered patterns and the order of registration. */
  lemma {:induction false} LookupIsRef(routes: Routes, path: string)
    requires Plausible(routes) && Build(routes).Some?
    ensures Valid(Build(routes).value)
    ensures Same(Lookup(Build(routes).value, path, []), Ref(TableOf(routes), LooseOf(routes), path, []))
  {
    BuildAgrees(routes);
    BuildLoose(routes);
    var t := Build(routes).value;
    assert Entered(t, path) by {
      assert t.kind != Root ==> t.priority == 0;
      WeightPositive(t);
    }
    Greedy(t, TableOf(routes), path, []);
  }

  /** It is the plain greedy lookup exactly when the descent skims no loose catch-all. */
  lemma {:induction false} LookupIsGreedyIff(routes: Routes, path: string)
    requires Plausible(routes) && Build(routes).Some?
    ensures Valid(Build(routes).value)
    ensures Same(Lookup(Build(routes).value, path, []), Ref(TableOf(routes), map[], path, [])) <==>
            !Skims(TableOf(routes), LooseOf(routes), path)
  {
    LookupIsRef(routes, path);
    BuildTame(routes);
    SkimsIff(TableOf(routes), LooseOf(routes), path, []);
  }

  /** Without catch-alls it always is. */
  lemma {:induction false} LookupIsGreedy(routes: Routes, path: string)
    requires Plausible(routes) && Build(routes).Some? && forall r | r in routes :: '*' !in r.0
    ensures Valid(Build(routes).value) && LooseOf(routes) == map[]
    ensures Same(Lookup(Build(routes).value, path, []), Ref(TableOf(routes), map[], path, []))
  {
    NothingLoose(routes);
    LookupIsRef(routes, path);
  }

  lemma {:induction false} NothingLoose(routes: Routes)
    requires forall r | r in routes :: '*' !in r.0
    ensures LooseOf(routes) == map[]
  {
    if routes != [] {
      var last := routes[|routes| - 1];
      assert last in routes;
      NothingLoose(routes[..|routes| - 1]);
      assert !Starred(last.0);
    }
  }

  /** The plain reference only answers with a pattern that its captures turn into the path. */
  lemma {:induction false} RefSound(s: Table, l: Table, path: string, ps: seq<PathParam>) returns (p: string)
    requires l == map[] && Ref(s, l, path, ps).Some?
    ensures var h := Ref(s, l, path, ps).value;
      p in s && s[p] == h.data && ps <= h.params && Fill(p, Values(h.params[|ps|..])) == path
    decreases |path|, if HasHead(s, ':') then 1 else 0
  {
    var h := Ref(s, l, path, ps).value;
    assert forall w: string, q :: w + q !in l;
    if path == "" && "" in s {
      p := "";
    } else if path != "" && !IsWild(path[0]) && HasHead(s, path[0]) {
      var q := RefSound(After(s, [path[0]]), After(l, [path[0]]), path[1..], ps);
      p := [path[0]] + q;
      FillPlain([path[0]], q, Values(h.params[|ps|..]));
    } else if path != "" && HasHead(s, ':') {
      var name, end := ParamSegment(s), IndexOf(path, '/');
      var c := PathParam(name[1..], path[..end]);
      var q := RefSound(AfterSegment(s, name), AfterSegment(l, name), path[end..], ps + [c]);
      p := name + q;
      RefSoundParam(name, q, path, h.params, ps);
    } else {
      p := StarPattern(s);
      CaptureFirst(h.params, ps, PathParam(p[1..], path));
    }
  }

  lemma {:induction false} RefSoundParam(name: string, q: string, path: string, all: seq<PathParam>, ps: seq<PathParam>)
    requires name != "" && name[0] == ':' && '/' !in name && (q == "" || q[0] == '/')
    requires var end := IndexOf(path, '/');
      var qs := ps + [PathParam(name[1..], path[..end])];
      qs <= all && Fill(q, Values(all[|qs|..])) == path[end..]
    ensures ps <= all && Fill(name + q, Values(all[|ps|..])) == path
  {
    var end := IndexOf(path, '/');
    CaptureFirst(all, ps, PathParam(name[1..], path[..end]));
    FillParam(name, q, path[..end], Values(all[|ps| + 1..]));
    assert path == path[..end] + path[end..];
  }

  // ---- registered patterns are found ----

  /** A pattern without a catch-all is found for its filled path exactly when nothing static shadows a parameter. */
  lemma {:induction false} PatternReachedIff(routes: Routes, p: string, vs: seq<string>)
    requires Plausible(routes) && Build(routes).Some?
    requires p in TableOf(routes) && '*' !in p && SlashFree(vs) && |vs| == |Names(p)|
    ensures Valid(Build(routes).value)
    ensures var s := TableOf(routes); var m := Lookup(Build(routes).value, Fill(p, vs), []);
      && (m.data == Some(s[p]) <==> Clear(s, p, vs, ""))
      && (m.data == Some(s[p]) ==> m.params == Zip(p, vs))
  {
    LookupIsRef(routes, Fill(p, vs));
    BuildTame(routes);
    BuildNamed(routes);
    RefReachesIff(TableOf(routes), LooseOf(routes), p, vs);
  }

  /** A wildcard-free route is found for its own path, whatever else is registered. */
  lemma {:induction false} LiteralRouteFound(routes: Routes, p: string)
    requires Plausible(routes) && Build(routes).Some? && Plain(p) && p in TableOf(routes)
    ensures Valid(Build(routes).value)
    ensures var m := Lookup(Build(routes).value, p, []); m.data == Some(TableOf(routes)[p]) && m.params == []
  {
    PlainParts(TableOf(routes), p, [], "");
    PlainStarless(p);
    PatternReachedIff(routes, p, []);
  }

  /** A literal has no parameter to fill, capture or shadow. */
  lemma {:induction false} PlainParts(s: Table, w: string, vs: seq<string>, end: string)
    requires Plain(w)
    ensures Fill(w, vs) == w && Names(w) == [] && Zip(w, vs) == [] && Clear(s, w, vs, end)
    decreases |w|
  {
    if w != "" {
      PlainParts(After(s, [w[0]]), w[1..], vs, end);
      assert w == [w[0]] + w[1..];
    }
  }

  // ---- priorities count routes ----

  ghost function Prefixed(w: string, s: Table): (r: Table)
    ensures forall q :: q in s <==> w + q in r
    ensures forall q | q in s :: r[w + q] == s[q]
    ensures forall p | p in r :: w <= p
  {
    var keys := set q | q in s :: w + q;
    assert forall q | q in s :: (w + q)[|w|..] == q;
    assert forall q :: w + q in keys ==> q in s by {
      forall q | w + q in keys ensures q in s {
        var x :| x in s && w + x == w + q;
        assert q == (w + q)[|w|..] == (w + x)[|w|..] == x;
      }
    }
    map p | p in keys :: s[p[|w|..]]
  }

  lemma {:induction false} PrefixedSize(w: string, s: Table)
    ensures |Prefixed(w, s)| == |s|
  {
    SameSize(w, s.Keys, Prefixed(w, s).Keys);
    assert |s| == |s.Keys| && |Prefixed(w, s)| == |Prefixed(w, s).Keys|;
  }

  lemma {:induction false} SameSize(w: string, a: set<string>, b: set<string>)
    requires forall q :: q in a <==> w + q in b
    requires forall p | p in b :: w <= p
    ensures |a| == |b|
  {
    if b == {} {
      assert forall q | q in a :: w + q in b;
      assert a == {};
    } else {
      var p :| p in b;
      var q := p[|w|..];
      assert p == w + q;
      forall x ensures x in a - {q} <==> w + x in b - {p} {
        assert w + x == p ==> x == q;
      }
      SameSize(w, a - {q}, b - {p});
    }
  }

  /** Every node's priority is the number of routes bound at it and below it. */
  lemma {:induction false} PriorityCountsRoutes(t: Tree) returns (s: Table)
    requires Branch(t) || ParamNode(t)
    ensures Agrees(t, s) && |s| == t.priority
    decreases t, 1
  {
    WalkParts(t, t.path);
    var a := CountChildren(t, |t.children|);
    var b := CountWild(t);
    var own: Table := if t.data.Some? then map["" := t.data.value] else map[];
    assert t.children[..|t.children|] == t.children;
    DisjointParts(t, own, a, b);
    var low := own + a + b;
    s := Prefixed(t.path, low);
    PrefixedSize(t.path, low);
    assert BelowAgrees(t, low);
    LiftAgrees(t, low, s);
  }

  lemma {:induction false} LiftAgrees(t: Tree, low: Table, s: Table)
    requires BelowAgrees(t, low) && s == Prefixed(t.path, low)
    ensures Agrees(t, s)
  {
    forall p, e ensures Bound(t, p, e) <==> p in s && s[p] == e {
      if t.path <= p {
        assert p == t.path + p[|t.path|..];
        assert BoundBelow(t, p[|t.path|..], e) <==> p[|t.path|..] in low && low[p[|t.path|..]] == e;
      }
    }
  }

  ghost predicate AgreesAny(cs: seq<Tree>, s: Table) {
    forall q, e :: BoundAny(cs, q, e) <==> q in s && s[q] == e
  }

  ghost predicate BoundWild(t: Tree, q: string, e: RouteData) {
    t.wild.Some? && Bound(t.wild.value, q, e)
  }

  ghost predicate AgreesWild(t: Tree, s: Table) {
    forall q, e :: BoundWild(t, q, e) <==> q in s && s[q] == e
  }

  lemma {:induction false} CountChildren(t: Tree, n: nat) returns (s: Table)
    requires (Branch(t) || ParamNode(t)) && n <= |t.children|
    ensures AgreesAny(t.children[..n], s) && |s| == PrioSum(t.children[..n])
    decreases t, 0, n
  {
    WalkParts(t, t.path);
    if n == 0 {
      s := map[];
    } else {
      var cs, c := t.children[..n - 1], t.children[n - 1];
      var a := CountChildren(t, n - 1);
      var b := PriorityCountsRoutes(c);
      assert t.children[..n] == cs + [c];
      PrioSumConcat(cs, [c]);
      PrioSumOne(c);
      forall q | q in a && q in b ensures false {
        ChildrenApart(t, n - 1, q, a[q], b[q]);
      }
      s := a + b;
      assert s.Keys == a.Keys + b.Keys && a.Keys !! b.Keys;
      forall q, e ensures BoundAny(cs + [c], q, e) <==> q in s && s[q] == e {
        AppendedAny(cs, c, q, e);
      }
    }
  }

  lemma {:induction false} ChildrenApart(t: Tree, n: nat, q: string, d: RouteData, e: RouteData)
    requires (Branch(t) || ParamNode(t)) && n < |t.children|
    ensures !(BoundAny(t.children[..n], q, d) && Bound(t.children[n], q, e))
  {
    WalkParts(t, t.path);
    if BoundAny(t.children[..n], q, d) && Bound(t.children[n], q, e) {
      var i :| 0 <= i < n && Bound(t.children[..n][i], q, d);
      ChildHead(t.children[i], t.indices[i], q, d);
      ChildHead(t.children[n], t.indices[n], q, e);
    }
  }

  lemma {:induction false} CountWild(t: Tree) returns (s: Table)
    requires Branch(t) || ParamNode(t)
    ensures AgreesWild(t, s)
    ensures |s| == if t.wild.Some? then t.wild.value.priority else 0
    decreases t, 0
  {
    WalkParts(t, t.path);
    if t.wild.None? {
      s := map[];
      assert AgreesWild(t, s);
    } else if t.wild.value.kind == Param {
      s := PriorityCountsRoutes(t.wild.value);
      forall q, e ensures BoundWild(t, q, e) <==> q in s && s[q] == e {
        assert Bound(t.wild.value, q, e) <==> q in s && s[q] == e;
      }
    } else {
      var leaf := t.wild.value.children[0];
      s := map[leaf.path := leaf.data.value];
      forall q, e ensures BoundWild(t, q, e) <==> q in s && s[q] == e {
        CatchAllBound(t.wild.value, q, e);
      }
    }
  }

  lemma {:induction false} DisjointParts(t: Tree, own: Table, a: Table, b: Table)
    requires Branch(t) || ParamNode(t)
    requires own == if t.data.Some? then map["" := t.data.value] else map[]
    requires AgreesAny(t.children, a)
    requires AgreesWild(t, b)
    ensures |own + a + b| == |own| + |a| + |b|
    ensures BelowAgrees(t, own + a + b)
  {
    forall q | q in b ensures q != "" && (IsWild(q[0]) || HoldsCatchAll(t)) {
      assert BoundWild(t, q, b[q]);
      WildKey(t, q, b[q]);
    }
    forall q | q in a ensures q != "" && !(IsWild(q[0]) || HoldsCatchAll(t)) {
      ChildKey(t, q, a[q]);
    }
    assert own.Keys !! a.Keys && own.Keys !! b.Keys && a.Keys !! b.Keys;
    SizeOfUnion(own, a, b);
    UnionAgrees(t, own, a, b);
  }

  lemma {:induction false} UnionAgrees(t: Tree, own: Table, a: Table, b: Table)
    requires own == if t.data.Some? then map["" := t.data.value] else map[]
    requires AgreesAny(t.children, a) && own.Keys !! a.Keys && own.Keys !! b.Keys && a.Keys !! b.Keys
    requires AgreesWild(t, b)
    ensures BelowAgrees(t, own + a + b)
  {
    var s := own + a + b;
    forall q, e ensures BoundBelow(t, q, e) <==> q in s && s[q] == e {
      assert BoundAny(t.children, q, e) <==> q in a && a[q] == e;
      assert BoundWild(t, q, e) <==> q in b && b[q] == e;
    }
  }

  lemma {:induction false} SizeOfUnion(own: Table, a: Table, b: Table)
    requires own.Keys !! a.Keys && own.Keys !! b.Keys && a.Keys !! b.Keys
    ensures |own + a + b| == |own| + |a| + |b|
  {
    assert (own + a).Keys == own.Keys + a.Keys;
    assert (own + a + b).Keys == (own + a).Keys + b.Keys;
    assert |own + a + b| == |(own + a + b).Keys|;
    assert |own| == |own.Keys| && |a| == |a.Keys| && |b| == |b.Keys|;
  }

  lemma {:induction false} ChildKey(t: Tree, q: string, e: RouteData)
    requires (Branch(t) || ParamNode(t)) && BoundAny(t.children, q, e)
    ensures q != "" && !IsWild(q[0]) && !HoldsCatchAll(t)
  {
    WalkParts(t, t.path);
    var i :| 0 <= i < |t.children| && Bound(t.children[i], q, e);
    ChildHead(t.children[i], if t.kind == Param then '/' else t.indices[i], q, e);
  }

  lemma {:induction false} WildKey(t: Tree, q: string, e: RouteData)
    requires (Branch(t) || ParamNode(t)) && t.wild.Some? && Bound(t.wild.value, q, e)
    ensures q != "" && (IsWild(q[0]) || HoldsCatchAll(t))
  {
    WalkParts(t, t.path);
    WildHead(t.wild.value, q, e);
  }
}
