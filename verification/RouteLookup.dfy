/**
 getValue on the tree value, and its reference: a greedy lookup on the bare table of patterns
 (the next literal byte if some pattern continues with it, else the parameter, else the
 catch-all, never backtracking). A second table lists the loose catch-alls, those that take the
 byte before their value without looking at it.
 */
module RouteLookup {
  import opened Options
  import opened RouteTree
  import opened RouteTreeAdd

  datatype PathParam = PathParam(key: string, value: string)

  datatype Match = Match(data: Option<RouteData>, params: seq<PathParam>, hint: bool)

  /** The node invariant unfolded as far as a lookup looks. */
  lemma {:induction false} Parts(t: Tree)
    requires Branch(t)
    ensures Shape(t)
    ensures |t.indices| == |t.children|
    ensures forall k | 0 <= k < |t.children| :: Child(t.children[k], t.indices[k]) && Branch(t.children[k])
    ensures t.wild.Some? && t.wild.value.kind == Param ==>
      (ParamNode(t.wild.value) && |t.wild.value.path| >= 2 &&
       (t.wild.value.children != [] ==> Child(t.wild.value.children[0], '/') && Branch(t.wild.value.children[0])))
    ensures t.wild.Some? && t.wild.value.kind != Param ==>
      (CatchAllNode(t.wild.value) && |t.wild.value.children| == 1 && |t.wild.value.children[0].path| >= 3)
  {
    assert Shape(t);
    assert forall k | 0 <= k < |t.children| :: Child(t.children[k], t.indices[k]);
    if t.wild.Some? {
      assert Wildcard(t.wild.value);
    }
  }

  /** getValue from node t on, with the parameters captured so far; hint is the trailing-slash hint. */
  function Lookup(t: Tree, path: string, ps: seq<PathParam>): Match
    requires Branch(t)
    decreases t, 1
  {
    Parts(t);
    if |path| > |t.path| && t.path <= path then
      LookupBelow(t, path[|t.path|..], ps)
    else if path == t.path then
      if t.data.Some? then
        Match(t.data, ps, false)
      else if path == "/" && t.wild.Some? && t.kind != Root then
        Match(None, ps, true)
      else
        var k := IndexOf(t.indices, '/');
        Match(None, ps, k < |t.indices| && |t.children[k].path| == 1 && t.children[k].data.Some?)
    else
      Match(None, ps, path == "/" ||
        (|t.path| == |path| + 1 && t.path[|path|] == '/' && path == t.path[..|path|] && t.data.Some?))
  }

  /** The node's own path has matched and at least one byte is left. */
  function LookupBelow(t: Tree, rest: string, ps: seq<PathParam>): Match
    requires Branch(t) && rest != ""
    decreases t, 0
  {
    Parts(t);
    var k := IndexOf(t.indices, rest[0]);
    if k < |t.indices| then
      Lookup(t.children[k], rest, ps)
    else if t.wild.None? then
      Match(None, ps, rest == "/" && t.data.Some?)
    else if t.wild.value.kind == Param then
      LookupParam(t.wild.value, rest, ps)
    else
      var leaf := t.wild.value.children[0];
      Match(leaf.data, ps + [PathParam(leaf.path[2..], rest[1..])], false)
  }

  function Capture(w: Tree, rest: string): PathParam
    requires |w.path| >= 1
  {
    PathParam(w.path[1..], rest[..IndexOf(rest, '/')])
  }

  /** At a param node: capture up to the next slash. */
  function LookupParam(w: Tree, rest: string, ps: seq<PathParam>): Match
    requires ParamNode(w)
    decreases w, 2
  {
    WalkParts(w, w.path);
    var end := IndexOf(rest, '/');
    var qs := ps + [Capture(w, rest)];
    if end < |rest| then
      if w.children != [] then Lookup(w.children[0], rest[end..], qs) else Match(None, qs, |rest| == end + 1)
    else if w.data.Some? then
      Match(w.data, qs, false)
    else
      Match(None, qs, |w.children| == 1 && w.children[0].path == "/" && w.children[0].data.Some?)
  }

  // ---- the reference ----

  type Table = map<string, RouteData>

  ghost predicate HasHead(s: Table, c: char) {
    exists k :: k in s && k != "" && k[0] == c
  }

  ghost function Suffixes(s: Table, w: string): (r: set<string>)
    ensures forall q :: q in r <==> w + q in s
  {
    var r := set k | k in s && w <= k :: k[|w|..];
    assert forall k | k in s && w <= k :: w + k[|w|..] == k;
    assert forall q | w + q in s :: (w + q)[|w|..] == q;
    r
  }

  /** What may follow w in the patterns of s. */
  ghost function After(s: Table, w: string): (r: Table)
    ensures forall q :: q in r <==> w + q in s
    ensures forall q | q in r :: r[q] == s[w + q]
  {
    map q | q in Suffixes(s, w) :: s[w + q]
  }

  /** What may follow the whole segment w: nothing, or a slash. */
  ghost function AfterSegment(s: Table, w: string): (r: Table) {
    var a := After(s, w);
    map q | q in a && (q == "" || q[0] == '/') :: a[q]
  }

  /** A parameter segment with which some pattern begins; accepted tables have one at most. */
  ghost function ParamSegment(s: Table): (name: string)
    requires HasHead(s, ':')
    ensures name != "" && name[0] == ':' && '/' !in name
    ensures exists k :: k in s && k != "" && k[0] == ':' && name == k[..IndexOf(k, '/')]
  {
    var k :| k in s && k != "" && k[0] == ':';
    k[..IndexOf(k, '/')]
  }

  ghost function StarPattern(s: Table): (k: string)
    requires HasHead(s, '*')
    ensures k in s && k != "" && k[0] == '*'
  {
    var k :| k in s && k != "" && k[0] == '*';
    k
  }

  /** A loose catch-all is due: what is left of its pattern is the slash, the star and the name. */
  predicate IsOpen(k: string) {
    |k| >= 2 && k[0] == '/' && k[1] == '*'
  }

  ghost predicate HasOpen(l: Table) {
    exists k :: k in l && IsOpen(k)
  }

  ghost function OpenPattern(l: Table): (k: string)
    requires HasOpen(l)
    ensures k in l && IsOpen(k)
  {
    var k :| k in l && IsOpen(k);
    k
  }

  datatype Hit = Hit(data: RouteData, params: seq<PathParam>)

  /** The greedy lookup in the table s, whose loose catch-alls are those of l. */
  ghost function Ref(s: Table, l: Table, path: string, ps: seq<PathParam>): Option<Hit>
    decreases |path|, if HasHead(s, ':') then 1 else 0
  {
    if path == "" && "" in s then
      Some(Hit(s[""], ps))
    else if path != "" && HasOpen(l) then
      var k := OpenPattern(l);
      Some(Hit(l[k], ps + [PathParam(k[2..], path[1..])]))
    else if path != "" && !IsWild(path[0]) && HasHead(s, path[0]) then
      Ref(After(s, [path[0]]), After(l, [path[0]]), path[1..], ps)
    else if path != "" && HasHead(s, ':') then
      var name, end := ParamSegment(s), IndexOf(path, '/');
      Ref(AfterSegment(s, name), AfterSegment(l, name), path[end..], ps + [PathParam(name[1..], path[..end])])
    else if HasHead(s, '*') then
      var k := StarPattern(s);
      Some(Hit(s[k], ps + [PathParam(k[1..], path)]))
    else
      None
  }

  // ---- the loose catch-alls of a tree ----

  /** The node holds its catch-all itself, so that no index has checked the byte before the value. */
  predicate OpenHolder(t: Tree) {
    HoldsCatchAll(t) && (t.path != "" || t.kind == Root)
  }

  /** The way down along p ends at an open holder of just that pattern. */
  predicate OpenAt(t: Tree, p: string)
    decreases t, 1
  {
    t.path <= p && OpenBelow(t, p[|t.path|..])
  }

  predicate OpenBelow(t: Tree, q: string)
    decreases t, 0
  {
    if HoldsCatchAll(t) then
      OpenHolder(t) && |t.wild.value.children| == 1 && q == t.wild.value.children[0].path
    else if q == "" then false
    else if q[0] == ':' then t.wild.Some? && OpenAt(t.wild.value, q)
    else if t.kind == Param then |t.children| == 1 && OpenAt(t.children[0], q)
    else
      var k := IndexOf(t.indices, q[0]);
      k < |t.indices| && k < |t.children| && OpenAt(t.children[k], q)
  }

  ghost function LooseTable(t: Tree, s: Table): Table {
    map p | p in s && OpenAt(t, p) :: s[p]
  }

  ghost function LooseBelow(t: Tree, s: Table): Table {
    map q | q in s && OpenBelow(t, q) :: s[q]
  }

  lemma {:induction false} LooseStrip(t: Tree, s: Table)
    ensures After(LooseTable(t, s), t.path) == LooseBelow(t, After(s, t.path))
  {
    forall q ensures OpenAt(t, t.path + q) <==> OpenBelow(t, q) {
      assert (t.path + q)[|t.path|..] == q;
    }
  }

  /** At a node, a loose catch-all is due exactly when the node is an open holder. */
  lemma {:induction false} OpenIffHolder(t: Tree, s: Table)
    requires Walkable(t, t.path) && BelowAgrees(t, s)
    ensures HasOpen(LooseBelow(t, s)) <==> OpenHolder(t)
  {
    WalkParts(t, t.path);
    if OpenHolder(t) {
      var leaf := t.wild.value.children[0];
      CatchAllBound(t.wild.value, leaf.path, leaf.data.value);
      assert BoundBelow(t, leaf.path, leaf.data.value);
      assert leaf.path in LooseBelow(t, s);
    } else if HasOpen(LooseBelow(t, s)) {
      var k := OpenPattern(LooseBelow(t, s));
      NotOpenBelow(t, k);
    }
  }

  lemma {:induction false} NotOpenBelow(t: Tree, q: string)
    requires Walkable(t, t.path) && IsOpen(q) && !OpenHolder(t)
    ensures !OpenBelow(t, q)
  {
    WalkParts(t, t.path);
    if !HoldsCatchAll(t) {
      if t.kind == Param {
        if |t.children| == 1 {
          NotOpenAt(t.children[0], q);
        }
      } else {
        var k := IndexOf(t.indices, '/');
        if k < |t.indices| {
          NotOpenAt(t.children[k], q);
        }
      }
    }
  }

  lemma {:induction false} NotOpenAt(c: Tree, q: string)
    requires Child(c, '/') && IsOpen(q)
    ensures !OpenAt(c, q)
  {
    assert Shape(c);
    if c.path != "" && c.path <= q {
      assert forall j | 0 <= j < |c.path| :: c.path[j] == q[j] && !IsWild(c.path[j]);
      assert q[1..][0] == '*';
      assert IndexOf(c.indices, '*') == |c.indices|;
    }
  }

  // ---- following the tree and the table side by side ----

  ghost predicate BelowAgrees(t: Tree, s: Table) {
    forall q, e :: BoundBelow(t, q, e) <==> q in s && s[q] == e
  }

  ghost function ByHead(s: Table, c: char): Table {
    map q | q in s && q != "" && q[0] == c :: s[q]
  }

  lemma {:induction false} StripAgrees(t: Tree, s: Table)
    requires Agrees(t, s)
    ensures BelowAgrees(t, After(s, t.path))
    ensures forall k | k in s :: t.path <= k
  {
    var a := After(s, t.path);
    forall q, e ensures BoundBelow(t, q, e) <==> q in a && a[q] == e {
      assert (t.path + q)[|t.path|..] == q;
      assert Bound(t, t.path + q, e) <==> BoundBelow(t, q, e);
    }
    forall k | k in s ensures t.path <= k {
      KeyBound(t, s, k);
    }
  }

  ghost predicate Part(l: Table, s: Table) {
    forall k | k in l :: k in s && l[k] == s[k]
  }

  lemma {:induction false} RefStrip(s: Table, l: Table, w: string, path: string, ps: seq<PathParam>)
    requires Plain(w) && (forall k | k in s :: w <= k) && Part(l, s) && !HasHead(After(s, w), '*')
    ensures Ref(s, l, path, ps) == if w <= path then Ref(After(s, w), After(l, w), path[|w|..], ps) else None
    decreases |w|, 1
  {
    if w == "" {
      AfterNone(s);
      AfterNone(l);
      assert path[0..] == path;
    } else if s == map[] {
      RefEmpty(s, l, path, ps);
      if w <= path {
        RefEmpty(After(s, w), After(l, w), path[|w|..], ps);
      }
    } else {
      HeadsOnly(s, w[0], w);
      PrefixHead(w, path);
      NothingOpen(s, l, w);
      if path != "" && path[0] == w[0] {
        RefStripStep(s, l, w, path, ps);
      }
    }
  }

  lemma {:induction false} RefStripStep(s: Table, l: Table, w: string, path: string, ps: seq<PathParam>)
    requires w != "" && Plain(w) && (forall k | k in s :: w <= k) && Part(l, s) && !HasHead(After(s, w), '*')
    requires path != "" && path[0] == w[0] && HasHead(s, path[0]) && !HasOpen(l)
    ensures Ref(s, l, path, ps) == if w <= path then Ref(After(s, w), After(l, w), path[|w|..], ps) else None
    decreases |w|, 0
  {
    var a, b := After(s, [w[0]]), After(l, [w[0]]);
    AfterOnce(s, w);
    PartAfter(l, s, [w[0]]);
    PlainTail(w);
    StripJoin(s, w, path);
    StripJoin(l, w, path);
    RefStep(s, l, path, ps);
    RefStrip(a, b, w[1..], path[1..], ps);
  }

  lemma PartAfter(l: Table, s: Table, v: string)
    requires Part(l, s)
    ensures Part(After(l, v), After(s, v))
  {
  }

  lemma PlainTail(w: string)
    requires w != "" && Plain(w)
    ensures Plain(w[1..])
  {
  }

  lemma {:induction false} NothingOpen(s: Table, l: Table, w: string)
    requires w != "" && Plain(w) && (forall k | k in s :: w <= k) && Part(l, s) && !HasHead(After(s, w), '*')
    ensures !HasOpen(l)
  {
    forall k | k in l ensures !IsOpen(k) {
      StarBehind(s, w, k);
    }
  }

  lemma {:induction false} StarBehind(s: Table, w: string, k: string)
    requires w != "" && Plain(w) && w <= k && k in s
    ensures IsOpen(k) ==> HasHead(After(s, w), '*')
  {
    if IsOpen(k) {
      assert forall j | 0 <= j < |w| :: w[j] == k[j] && !IsWild(w[j]);
      assert k == w + k[|w|..];
    }
  }

  /** Dropping the first byte and then the rest of w is dropping w. */
  lemma {:induction false} StripJoin(s: Table, w: string, path: string)
    requires w != "" && path != "" && path[0] == w[0]
    ensures w <= path <==> w[1..] <= path[1..]
    ensures w <= path ==> path[1..][|w[1..]|..] == path[|w|..]
    ensures After(After(s, [w[0]]), w[1..]) == After(s, w)
  {
    assert w == [w[0]] + w[1..] && path == [path[0]] + path[1..];
    AfterAfter(s, [w[0]], w[1..]);
  }

  lemma {:induction false} AfterOnce(s: Table, w: string)
    requires w != "" && (forall k | k in s :: w <= k)
    ensures forall q | q in After(s, [w[0]]) :: w[1..] <= q
  {
    forall q | q in After(s, [w[0]]) ensures w[1..] <= q {
      assert w <= [w[0]] + q;
      assert ([w[0]] + q)[1..] == q;
    }
  }

  lemma PrefixHead(w: string, path: string)
    ensures w != "" && w <= path ==> path != "" && path[0] == w[0]
  {
  }

  lemma {:induction false} HeadsOnly(s: Table, c: char, w: string)
    requires s != map[] && w != "" && w[0] == c && !IsWild(c) && (forall k | k in s :: w <= k)
    ensures "" !in s && HasHead(s, c) && (forall b | HasHead(s, b) :: b == c)
  {
    var k :| k in s;
  }

  lemma RefStep(s: Table, l: Table, path: string, ps: seq<PathParam>)
    requires path != "" && !IsWild(path[0]) && HasHead(s, path[0]) && !HasOpen(l)
    ensures Ref(s, l, path, ps) == Ref(After(s, [path[0]]), After(l, [path[0]]), path[1..], ps)
  {
  }

  lemma {:induction false} AfterNone(s: Table)
    ensures After(s, "") == s
  {
    assert forall x: string :: "" + x == x;
  }

  lemma RefEmpty(s: Table, l: Table, path: string, ps: seq<PathParam>)
    requires (forall k :: k !in s) && Part(l, s)
    ensures Ref(s, l, path, ps) == None
  {
  }

  lemma {:induction false} AfterAfter(s: Table, v: string, w: string)
    ensures After(After(s, v), w) == After(s, v + w)
  {
    assert forall q :: v + (w + q) == (v + w) + q;
  }

  lemma {:induction false} RefByHead(s: Table, l: Table, path: string, ps: seq<PathParam>)
    requires path != "" && !IsWild(path[0]) && HasHead(s, path[0]) && !HasOpen(l)
    ensures Ref(s, l, path, ps) == Ref(ByHead(s, path[0]), ByHead(l, path[0]), path, ps)
  {
    var c := path[0];
    var k :| k in s && k != "" && k[0] == c;
    assert k in ByHead(s, c);
    AfterByHead(s, c);
    AfterByHead(l, c);
    assert !HasOpen(ByHead(l, c));
    RefStep(s, l, path, ps);
    RefStep(ByHead(s, c), ByHead(l, c), path, ps);
  }

  lemma {:induction false} AfterByHead(s: Table, c: char)
    ensures After(s, [c]) == After(ByHead(s, c), [c])
  {
    forall q ensures [c] + q in s <==> [c] + q in ByHead(s, c) {
      assert ([c] + q)[0] == c;
    }
  }

  /** Every node with a positive priority holds a route. */
  lemma {:induction false} Inhabited(t: Tree) returns (p: string, e: RouteData)
    requires Branch(t) || ParamNode(t)
    requires t.priority >= 1
    ensures Bound(t, p, e)
    decreases t
  {
    WalkParts(t, t.path);
    var q := "";
    if t.data.Some? {
      e := t.data.value;
    } else if t.children != [] {
      q, e := Inhabited(t.children[0]);
      assert BoundAny(t.children, q, e);
    } else {
      var w := t.wild.value;
      if w.kind == Param {
        q, e := Inhabited(w);
      } else {
        q, e := w.children[0].path, w.children[0].data.value;
        CatchAllBound(w, q, e);
      }
    }
    p := t.path + q;
    assert p[|t.path|..] == q;
    assert BoundBelow(t, q, e);
  }

  lemma {:induction false} ChildAgrees(t: Tree, s: Table, k: nat)
    requires Branch(t) && BelowAgrees(t, s) && k < |t.indices|
    ensures k < |t.children| && Agrees(t.children[k], ByHead(s, t.indices[k]))
    ensures HasHead(s, t.indices[k])
  {
    Parts(t);
    var c := t.indices[k];
    var b := ByHead(s, c);
    IndexOfDistinct(t.indices, k);
    forall q, e ensures Bound(t.children[k], q, e) <==> q in b && b[q] == e {
      if Bound(t.children[k], q, e) {
        ChildHead(t.children[k], c, q, e);
        assert BoundAny(t.children, q, e);
        assert BoundBelow(t, q, e);
      }
      if q in b && b[q] == e {
        assert BoundBelow(t, q, e);
        BelowHead(t, q, e);
      }
    }
    var p, e := Inhabited(t.children[k]);
    assert p in b && b[p] == e;
  }

  lemma {:induction false} WildAgrees(t: Tree, s: Table)
    requires Branch(t) && BelowAgrees(t, s) && t.wild.Some? && t.wild.value.kind == Param
    ensures Agrees(t.wild.value, ByHead(s, ':')) && HasHead(s, ':')
  {
    Parts(t);
    var w := t.wild.value;
    var b := ByHead(s, ':');
    forall q, e ensures Bound(w, q, e) <==> q in b && b[q] == e {
      if Bound(w, q, e) {
        ParamHead(w, q, e);
        assert BoundBelow(t, q, e);
      }
      if q in b && b[q] == e {
        assert BoundBelow(t, q, e);
        BelowHead(t, q, e);
      }
    }
    var p, e := Inhabited(w);
    assert p in b && b[p] == e;
  }

  /** The bytes with which a pattern below t can begin. */
  lemma {:induction false} Heads(t: Tree, s: Table, c: char)
    requires Branch(t) && BelowAgrees(t, s) && HasHead(s, c)
    ensures IndexOf(t.indices, c) < |t.indices| || (c == ':' && t.wild.Some? && t.wild.value.kind == Param)
      || (c == '/' && HoldsCatchAll(t))
  {
    Parts(t);
    var k :| k in s && k != "" && k[0] == c;
    assert BoundBelow(t, k, s[k]);
    BelowHead(t, k, s[k]);
  }

  lemma {:induction false} SegmentName(w: Tree, b: Table, k: string)
    requires ParamNode(w) && Agrees(w, b) && k in b
    ensures w.path <= k && (|k| == |w.path| || k[|w.path|] == '/') && k[..IndexOf(k, '/')] == w.path
  {
    KeyBound(w, b, k);
    ParamHead(w, k, b[k]);
    SegmentEnd(w.path, k);
  }

  /** Past the parameter segment, the table agrees with what hangs below the param node. */
  lemma {:induction false} SegmentAgrees(w: Tree, s: Table)
    requires ParamNode(w) && Agrees(w, ByHead(s, ':'))
    ensures BelowAgrees(w, AfterSegment(s, w.path))
    ensures forall k | k in s && k != "" && k[0] == ':' :: k[..IndexOf(k, '/')] == w.path
  {
    var b := ByHead(s, ':');
    var a := AfterSegment(s, w.path);
    var c := After(b, w.path);
    StripAgrees(w, b);
    forall k | k in s && k != "" && k[0] == ':' ensures k[..IndexOf(k, '/')] == w.path {
      SegmentName(w, b, k);
    }
    forall q ensures q in a <==> q in c {
      assert (w.path + q)[0] == ':';
      if q in c {
        SegmentName(w, b, w.path + q);
      }
    }
    assert a == c;
  }

  lemma {:induction false} SegmentEnd(w: string, k: string)
    requires '/' !in w && w <= k && (|k| == |w| || k[|w|] == '/')
    ensures IndexOf(k, '/') == |w|
  {
    assert forall j | 0 <= j < |w| :: k[j] == w[j] && w[j] in w;
  }

  lemma {:induction false} OnlyChildAgrees(w: Tree, s: Table)
    requires ParamNode(w) && BelowAgrees(w, s)
    ensures "" in s <==> w.data.Some?
    ensures "" in s ==> w.data == Some(s[""])
    ensures forall c | HasHead(s, c) :: c == '/'
    ensures w.children == [] ==> !HasHead(s, '/')
    ensures w.children != [] ==> HasHead(s, '/') && Branch(w.children[0]) && Agrees(w.children[0], ByHead(s, '/'))
  {
    WalkParts(w, w.path);
    NoEmptyBelow(w, s);
    forall c | HasHead(s, c) ensures c == '/' && w.children != [] {
      var k :| k in s && k != "" && k[0] == c;
      assert BoundBelow(w, k, s[k]);
      ParamBelow(w, k, s[k]);
    }
    if w.children != [] {
      var b := ByHead(s, '/');
      forall q, e ensures Bound(w.children[0], q, e) <==> q in b && b[q] == e {
        if Bound(w.children[0], q, e) {
          ChildHead(w.children[0], '/', q, e);
          assert BoundAny(w.children, q, e) && BoundBelow(w, q, e);
        }
        if q in b && b[q] == e {
          assert BoundBelow(w, q, e);
          ParamBelow(w, q, e);
        }
      }
      var p, e := Inhabited(w.children[0]);
      assert p in b && b[p] == e;
    }
  }

  lemma {:induction false} ParamBelow(w: Tree, q: string, e: RouteData)
    requires ParamNode(w) && BoundBelow(w, q, e) && q != ""
    ensures w.children != [] && Bound(w.children[0], q, e) && q[0] == '/'
  {
    assert BoundAny(w.children, q, e);
    ChildHead(w.children[0], '/', q, e);
  }

  lemma {:induction false} NoEmptyBelow(t: Tree, s: Table)
    requires Walkable(t, t.path) && BelowAgrees(t, s)
    ensures "" in s <==> t.data.Some?
    ensures "" in s ==> t.data == Some(s[""])
  {
    if "" in s {
      assert BoundBelow(t, "", s[""]);
      BelowHead(t, "", s[""]);
    }
    if t.data.Some? {
      assert BoundBelow(t, "", t.data.value);
    }
  }

  // ---- substituting captures into a pattern ----

  /** The pattern with its wildcard segments replaced, in order, by the values. */
  function Fill(p: string, vs: seq<string>): string
    decreases |p|
  {
    if p == "" then ""
    else if p[0] == ':' && vs != [] then vs[0] + Fill(p[IndexOf(p, '/')..], vs[1..])
    else if p[0] == '*' && vs != [] then vs[0]
    else [p[0]] + Fill(p[1..], vs)
  }

  function Values(ps: seq<PathParam>): (r: seq<string>)
    ensures |r| == |ps|
  {
    seq(|ps|, i requires 0 <= i < |ps| => ps[i].value)
  }

  lemma {:induction false} FillPlain(w: string, q: string, vs: seq<string>)
    requires Plain(w)
    ensures Fill(w + q, vs) == w + Fill(q, vs)
  {
    if w == "" {
      assert w + q == q;
    } else {
      assert (w + q)[0] == w[0] && (w + q)[1..] == w[1..] + q;
      FillPlain(w[1..], q, vs);
      HeadFirst(w, Fill(q, vs));
    }
  }

  lemma HeadFirst(w: string, x: string)
    requires w != ""
    ensures [w[0]] + (w[1..] + x) == w + x
  {
  }

  lemma {:induction false} FillParam(name: string, q: string, v: string, vs: seq<string>)
    requires name != "" && name[0] == ':' && '/' !in name && (q == "" || q[0] == '/')
    ensures Fill(name + q, [v] + vs) == v + Fill(q, vs)
  {
    var p := name + q;
    SegmentEnd(name, p);
    assert p[|name|..] == q;
    assert ([v] + vs)[1..] == vs;
  }

  lemma {:induction false} ParamPattern(w: Tree, x: string, e: RouteData)
    requires ParamNode(w) && w.children != [] && Bound(w.children[0], x, e)
    ensures Bound(w, w.path + x, e) && x != "" && x[0] == '/'
  {
    assert (w.path + x)[|w.path|..] == x;
    assert BoundAny(w.children, x, e);
    WalkParts(w, w.path);
    ChildHead(w.children[0], '/', x, e);
  }

  lemma {:induction false} CaptureFirst(all: seq<PathParam>, ps: seq<PathParam>, c: PathParam)
    requires ps + [c] <= all
    ensures ps <= all && |ps| < |all| && all[|ps|..] == [c] + all[|ps| + 1..]
    ensures Values(all[|ps|..]) == [c.value] + Values(all[|ps| + 1..])
  {
    assert all[|ps|] == (ps + [c])[|ps|];
    assert ps <= ps + [c];
  }

  // ---- the lookup is the reference ----

  ghost predicate Same(m: Match, r: Option<Hit>) {
    if r.None? then m.data.None? else m.data == Some(r.value.data) && m.params == r.value.params
  }

  /** The index that led to an empty node has seen a slash. */
  predicate Entered(t: Tree, path: string) {
    t.path == "" && t.kind != Root && HoldsCatchAll(t) ==> path == "" || path[0] == '/'
  }

  lemma {:induction false} Greedy(t: Tree, s: Table, path: string, ps: seq<PathParam>)
    requires Branch(t) && Agrees(t, s) && Entered(t, path)
    ensures Same(Lookup(t, path, ps), Ref(s, LooseTable(t, s), path, ps))
    decreases t, 1, 1
  {
    Parts(t);
    StripAgrees(t, s);
    LooseStrip(t, s);
    NoStarBelow(t, After(s, t.path));
    RefStrip(s, LooseTable(t, s), t.path, path, ps);
    GreedyHere(t, After(s, t.path), path, ps);
  }

  lemma {:induction false} GreedyHere(t: Tree, a: Table, path: string, ps: seq<PathParam>)
    requires Branch(t) && BelowAgrees(t, a) && Entered(t, path)
    ensures Same(Lookup(t, path, ps), if t.path <= path then Ref(a, LooseBelow(t, a), path[|t.path|..], ps) else None)
    decreases t, 1, 0
  {
    Parts(t);
    NoStarBelow(t, a);
    if t.path <= path {
      var rest := path[|t.path|..];
      assert path == t.path + rest;
      if rest == "" {
        NoEmptyBelow(t, a);
      } else {
        GreedyBelow(t, a, rest, ps);
      }
    }
  }

  lemma {:induction false} NoStarBelow(t: Tree, s: Table)
    requires Branch(t) && BelowAgrees(t, s)
    ensures !HasHead(s, '*')
  {
    Parts(t);
    if HasHead(s, '*') {
      Heads(t, s, '*');
    }
  }

  lemma {:induction false} GreedyBelow(t: Tree, s: Table, rest: string, ps: seq<PathParam>)
    requires Branch(t) && BelowAgrees(t, s) && rest != "" && Entered(t, rest)
    ensures Same(LookupBelow(t, rest, ps), Ref(s, LooseBelow(t, s), rest, ps))
    decreases t, 0
  {
    Parts(t);
    OpenIffHolder(t, s);
    NoStarBelow(t, s);
    var k := IndexOf(t.indices, rest[0]);
    if k < |t.indices| {
      GreedyStatic(t, s, k, rest, ps);
    } else {
      if HasHead(s, rest[0]) {
        Heads(t, s, rest[0]);
      }
      if t.wild.None? {
        if HasHead(s, ':') {
          Heads(t, s, ':');
        }
      } else if t.wild.value.kind == Param {
        WildAgrees(t, s);
        LooseWild(t, s);
        GreedyParam(t.wild.value, s, LooseBelow(t, s), rest, ps);
      } else {
        GreedyCatchAll(t, s, rest, ps);
      }
    }
  }

  lemma {:induction false} GreedyStatic(t: Tree, s: Table, k: nat, rest: string, ps: seq<PathParam>)
    requires Branch(t) && BelowAgrees(t, s) && rest != "" && k == IndexOf(t.indices, rest[0]) < |t.indices|
    ensures Same(LookupBelow(t, rest, ps), Ref(s, LooseBelow(t, s), rest, ps))
    decreases t, 0, 0
  {
    Parts(t);
    OpenIffHolder(t, s);
    ChildAgrees(t, s, k);
    RefByHead(s, LooseBelow(t, s), rest, ps);
    LooseChild(t, s, k);
    Greedy(t.children[k], ByHead(s, rest[0]), rest, ps);
  }

  lemma {:induction false} LooseChild(t: Tree, s: Table, k: nat)
    requires Branch(t) && k < |t.indices| == |t.children|
    ensures ByHead(LooseBelow(t, s), t.indices[k]) == LooseTable(t.children[k], ByHead(s, t.indices[k]))
  {
    Parts(t);
    IndexOfDistinct(t.indices, k);
  }

  lemma {:induction false} LooseWild(t: Tree, s: Table)
    requires Branch(t) && t.wild.Some? && t.wild.value.kind == Param
    ensures ByHead(LooseBelow(t, s), ':') == LooseTable(t.wild.value, ByHead(s, ':'))
  {
  }

  lemma {:induction false} LooseOnlyChild(w: Tree, s: Table)
    requires ParamNode(w) && |w.children| == 1
    ensures ByHead(LooseBelow(w, s), '/') == LooseTable(w.children[0], ByHead(s, '/'))
  {
  }

  /** Past the parameter segment, what is loose is what is loose below the param node. */
  lemma {:induction false} LooseSegment(w: Tree, s: Table, l: Table)
    requires ParamNode(w) && Agrees(w, ByHead(s, ':')) && Part(l, s)
    requires ByHead(l, ':') == LooseTable(w, ByHead(s, ':'))
    ensures AfterSegment(l, w.path) == LooseBelow(w, AfterSegment(s, w.path))
  {
    var a := AfterSegment(s, w.path);
    SegmentAgrees(w, s);
    forall q ensures q in AfterSegment(l, w.path) <==> q in a && OpenBelow(w, q) {
      var p := w.path + q;
      assert p[0] == ':' && p[|w.path|..] == q;
      assert p in l <==> p in ByHead(l, ':');
      assert p in s <==> p in ByHead(s, ':');
    }
  }

  lemma {:induction false} GreedyParam(w: Tree, s: Table, l: Table, rest: string, ps: seq<PathParam>)
    requires ParamNode(w) && Agrees(w, ByHead(s, ':')) && HasHead(s, ':')
    requires Part(l, s) && ByHead(l, ':') == LooseTable(w, ByHead(s, ':')) && !HasOpen(l)
    requires rest != "" && (IsWild(rest[0]) || !HasHead(s, rest[0]))
    ensures Same(LookupParam(w, rest, ps), Ref(s, l, rest, ps))
    decreases w, 2
  {
    SegmentAgrees(w, s);
    LooseSegment(w, s, l);
    var end := IndexOf(rest, '/');
    var qs := ps + [Capture(w, rest)];
    assert ParamSegment(s) == w.path;
    assert Ref(s, l, rest, ps) == Ref(AfterSegment(s, w.path), AfterSegment(l, w.path), rest[end..], qs);
    GreedyPast(w, AfterSegment(s, w.path), rest, ps);
  }

  /** Past the parameter segment. */
  lemma {:induction false} GreedyPast(w: Tree, a: Table, rest: string, ps: seq<PathParam>)
    requires ParamNode(w) && BelowAgrees(w, a)
    ensures Same(LookupParam(w, rest, ps),
                 Ref(a, LooseBelow(w, a), rest[IndexOf(rest, '/')..], ps + [Capture(w, rest)]))
    decreases w, 1
  {
    var low, qs := rest[IndexOf(rest, '/')..], ps + [Capture(w, rest)];
    OnlyChildAgrees(w, a);
    OpenIffHolder(w, a);
    if low != "" && w.children != [] {
      RefByHead(a, LooseBelow(w, a), low, qs);
      LooseOnlyChild(w, a);
      Greedy(w.children[0], ByHead(a, '/'), low, qs);
    } else if low != "" {
      RefNone(a, LooseBelow(w, a), low, qs);
    }
  }

  lemma RefNone(s: Table, l: Table, path: string, ps: seq<PathParam>)
    requires path != "" && !HasHead(s, path[0]) && !HasHead(s, ':') && !HasHead(s, '*') && !HasOpen(l)
    ensures Ref(s, l, path, ps) == None
  {
  }

  lemma {:induction false} GreedyCatchAll(t: Tree, s: Table, rest: string, ps: seq<PathParam>)
    requires Branch(t) && BelowAgrees(t, s) && rest != "" && HoldsCatchAll(t) && Entered(t, rest)
    ensures Same(LookupBelow(t, rest, ps), Ref(s, LooseBelow(t, s), rest, ps))
  {
    Parts(t);
    OpenIffHolder(t, s);
    var leaf := t.wild.value.children[0];
    CatchAllBound(t.wild.value, leaf.path, leaf.data.value);
    assert BoundBelow(t, leaf.path, leaf.data.value);
    if OpenHolder(t) {
      assert OpenPattern(LooseBelow(t, s)) == leaf.path;
    } else {
      OnlyStar(t, s, leaf.path);
      RefOnlyStar(s, LooseBelow(t, s), leaf.path, rest, ps);
      assert t.indices == "";
    }
  }

  lemma {:induction false} RefOnlyStar(s: Table, l: Table, q: string, rest: string, ps: seq<PathParam>)
    requires IsOpen(q) && q in s && After(s, "/").Keys == {q[1..]} && !HasOpen(l) && Part(l, s)
    requires rest != "" && rest[0] == '/'
    ensures Ref(s, l, rest, ps) == Some(Hit(s[q], ps + [PathParam(q[2..], rest[1..])]))
  {
    var a, x := After(s, "/"), q[1..];
    assert x[0] == '*' && x[1..] == q[2..] && q == "/" + x;
    RefStep(s, l, rest, ps);
    assert x in a && forall k | k in a :: k == x;
    assert HasHead(a, '*') && StarPattern(a) == x;
    assert !HasOpen(After(l, "/")) && !HasHead(a, ':');
  }

  /** At the holder of a catch-all nothing else follows the slash. */
  lemma {:induction false} OnlyStar(t: Tree, s: Table, q: string)
    requires Branch(t) && BelowAgrees(t, s) && HoldsCatchAll(t) && |t.wild.value.children| == 1
    requires q == t.wild.value.children[0].path && q in s
    ensures IsOpen(q) && After(s, "/").Keys == {q[1..]}
  {
    Parts(t);
    var a := After(s, "/");
    assert q == "/" + q[1..];
    forall x | x in a ensures x == q[1..] {
      assert BoundBelow(t, "/" + x, s["/" + x]);
      CatchAllOnly(t, "/" + x, s["/" + x]);
      assert ("/" + x)[1..] == x;
    }
  }

  lemma {:induction false} CatchAllOnly(t: Tree, q: string, e: RouteData)
    requires Branch(t) && HoldsCatchAll(t) && BoundBelow(t, q, e) && q != "" && t.wild.value.children != []
    ensures q == t.wild.value.children[0].path
  {
    Parts(t);
    assert !BoundAny(t.children, q, e);
    CatchAllBound(t.wild.value, q, e);
  }
}
