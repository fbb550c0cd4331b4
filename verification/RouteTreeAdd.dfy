/**
 What registration does to the set of patterns: every accepted route adds exactly its own
 binding, an accepted route was not bound before, and the node invariant is kept.
 */
module RouteTreeAdd {
  import opened Options
  import opened RouteTree

  // ---- unfolding, one shape of node at a time ----

  lemma {:induction false} BoundLeaf(t: Tree, p: string, e: RouteData)
    requires t.children == [] && t.wild.None?
    ensures Bound(t, p, e) <==> p == t.path && t.data == Some(e)
  {
    if t.path <= p {
      assert !BoundAny(t.children, p[|t.path|..], e);
      assert p == t.path + p[|t.path|..];
    }
  }

  lemma {:induction false} BoundOneChild(t: Tree, p: string, e: RouteData)
    requires |t.children| == 1 && t.wild.None? && t.data.None?
    ensures Bound(t, p, e) <==> t.path <= p && Bound(t.children[0], p[|t.path|..], e)
    ensures PrioSum(t.children) == t.children[0].priority
  {
    assert t.children[1..] == [];
    if t.path <= p {
      assert BoundAny(t.children, p[|t.path|..], e) <==> Bound(t.children[0], p[|t.path|..], e);
    }
  }

  lemma {:induction false} BoundOnlyWild(t: Tree, p: string, e: RouteData)
    requires t.children == [] && t.wild.Some? && t.data.None?
    ensures Bound(t, p, e) <==> t.path <= p && Bound(t.wild.value, p[|t.path|..], e)
  {
    if t.path <= p {
      assert !BoundAny(t.children, p[|t.path|..], e);
    }
  }

  // ---- insertChild ----

  lemma {:induction false} InsertBlankShape(path: string, d: RouteData)
    requires path != "" && InsertChild(Blank(1), path, d).Some?
    ensures var u := InsertChild(Blank(1), path, d).value;
      && Branch(u) && u.kind == Static && u.priority == 1
      && (u.path == "" ==> u.data.None?)
      && (!IsWild(path[0]) ==> Child(u, path[0]))
    decreases |path|, 1
  {
    var i := FirstWild(path);
    if i < |path| && path[i] == ':' {
      ParamChainShape(path[i..], d);
    }
  }

  lemma {:induction false} ParamChainShape(path: string, d: RouteData)
    requires path != "" && path[0] == ':' && ParamChain(path, d).Some?
    ensures var w := ParamChain(path, d).value;
      ParamNode(w) && w.priority == 1 && w.indices == ""
    decreases |path|, 0
  {
    var end := IndexOf(path, '/');
    if end < |path| {
      InsertBlankShape(path[end..], d);
      BoundOneChild(ParamChain(path, d).value, path, d);
    }
  }

  lemma {:induction false} InsertBlankBound(path: string, d: RouteData, p: string, e: RouteData)
    requires path != "" && InsertChild(Blank(1), path, d).Some?
    ensures Bound(InsertChild(Blank(1), path, d).value, p, e) <==> p == path && e == d
    decreases |path|, 1
  {
    var i := FirstWild(path);
    var u := InsertChild(Blank(1), path, d).value;
    if i == |path| {
      BoundLeaf(u, p, e);
    } else {
      BoundOnlyWild(u, p, e);
      var k := |u.path|;
      assert path == path[..k] + path[k..];
      if u.path <= p {
        var q := p[k..];
        assert p == u.path + q;
        if path[i] == ':' {
          ParamChainBound(path[i..], d, q, e);
        } else {
          BoundOneChild(u.wild.value, q, e);
          BoundLeaf(u.wild.value.children[0], q, e);
          assert q[0..] == q;
        }
      }
    }
  }

  lemma {:induction false} ParamChainBound(path: string, d: RouteData, p: string, e: RouteData)
    requires path != "" && path[0] == ':' && ParamChain(path, d).Some?
    ensures Bound(ParamChain(path, d).value, p, e) <==> p == path && e == d
    decreases |path|, 0
  {
    var end := IndexOf(path, '/');
    var w := ParamChain(path, d).value;
    if end == |path| {
      BoundLeaf(w, p, e);
    } else {
      BoundOneChild(w, p, e);
      assert path == path[..end] + path[end..];
      if w.path <= p {
        InsertBlankBound(path[end..], d, p[end..], e);
        assert p == path[..end] + p[end..];
      }
    }
  }

  // ---- where the patterns below a node can begin ----

  lemma {:induction false} CatchAllBound(w: Tree, p: string, e: RouteData)
    requires CatchAllNode(w)
    ensures Bound(w, p, e) <==> p == w.children[0].path && w.children[0].data == Some(e)
  {
    BoundOneChild(w, p, e);
    BoundLeaf(w.children[0], p, e);
    assert p[0..] == p;
  }

  lemma {:induction false} ChildHead(c: Tree, ch: char, p: string, e: RouteData)
    requires Child(c, ch) && Bound(c, p, e)
    ensures p != "" && p[0] == ch
  {
    if c.path == "" {
      assert Shape(c);
      assert Wildcard(c.wild.value);
      BoundOnlyWild(c, p, e);
      CatchAllBound(c.wild.value, p[0..], e);
    }
  }

  lemma {:induction false} ParamHead(w: Tree, p: string, e: RouteData)
    requires ParamNode(w) && Bound(w, p, e)
    ensures w.path <= p && (|p| == |w.path| || p[|w.path|] == '/')
  {
    var q := p[|w.path|..];
    if q != "" {
      assert BoundAny(w.children, q, e);
      ChildHead(w.children[0], '/', q, e);
    }
  }

  lemma {:induction false} WildHead(w: Tree, p: string, e: RouteData)
    requires Wildcard(w) && Bound(w, p, e)
    ensures w.kind == Param ==> p != "" && p[0] == ':'
    ensures w.kind == CatchAll ==> |p| >= 2 && p[0] == '/' && p[1] == '*'
  {
    if w.kind == Param {
      ParamHead(w, p, e);
    } else {
      CatchAllBound(w, p, e);
    }
  }

  // ---- priorities ----

  lemma {:induction false} PrioSumConcat(a: seq<Tree>, b: seq<Tree>)
    ensures PrioSum(a + b) == PrioSum(a) + PrioSum(b)
  {
    if a == [] {
      assert a + b == b;
    } else {
      assert (a + b)[1..] == a[1..] + b;
      PrioSumConcat(a[1..], b);
    }
  }

  lemma {:induction false} PrioSumOne(c: Tree)
    ensures PrioSum([c]) == c.priority
  {
    assert [c][1..] == [];
  }

  // ---- splitting an edge ----

  lemma {:induction false} SplitBound(t: Tree, i: nat, p: string, e: RouteData)
    requires i < |t.path|
    ensures Bound(Split(t, i), p, e) <==> Bound(t, p, e)
  {
    var u := Split(t, i);
    var low := u.children[0];
    BoundOneChild(u, p, e);
    assert t.path == t.path[..i] + t.path[i..];
    if u.path <= p {
      assert p == t.path[..i] + p[i..];
      if t.path[i..] <= p[i..] {
        assert p[i..][|low.path|..] == p[|t.path|..];
        SameBelow(low, t, p[|t.path|..], e);
      }
    }
  }

  lemma SameBelow(t: Tree, u: Tree, q: string, e: RouteData)
    requires t.children == u.children && t.wild == u.wild && t.data == u.data
    ensures BoundBelow(t, q, e) <==> BoundBelow(u, q, e)
  {
  }

  lemma {:induction false} SplitShape(t: Tree, i: nat)
    requires Branch(t) && i < |t.path| && t.priority >= 1
    ensures Shape(Split(t, i)) && Split(t, i).priority == Weight(Split(t, i)) + 1
  {
    var u := Split(t, i);
    var low := u.children[0];
    PrioSumOne(low);
    assert Shape(low);
    assert Child(low, t.path[i]);
  }

  // ---- hanging new nodes below ----

  lemma {:induction false} AddBelowBound(n: Tree, rest: string, d: RouteData, p: string, e: RouteData)
    requires AddBelow(n, rest, d).Some?
    requires rest == "" ==> n.data.None?
    requires rest != "" && IsWild(rest[0]) ==> n.wild.None?
    ensures Bound(AddBelow(n, rest, d).value, p, e) <==> Bound(n, p, e) || (p == n.path + rest && e == d)
  {
    var u := AddBelow(n, rest, d).value;
    if n.path <= p {
      var q := p[|n.path|..];
      assert p == n.path + q;
      if rest == "" {
      } else if IsWild(rest[0]) {
        assert rest[0..] == rest;
        ParamChainBound(rest, d, q, e);
      } else {
        var c := InsertChild(Blank(1), rest, d).value;
        InsertBlankBound(rest, d, q, e);
        AppendedAny(n.children, c, q, e);
      }
    }
  }

  lemma {:induction false} AppendedAny(cs: seq<Tree>, c: Tree, q: string, e: RouteData)
    ensures BoundAny(cs + [c], q, e) <==> BoundAny(cs, q, e) || Bound(c, q, e)
  {
    var s := cs + [c];
    if i :| 0 <= i < |cs| && Bound(cs[i], q, e) {
      assert Bound(s[i], q, e);
    }
    if Bound(c, q, e) {
      assert Bound(s[|cs|], q, e);
    }
  }

  lemma {:induction false} AddBelowShape(n: Tree, rest: string, d: RouteData)
    requires AddBelow(n, rest, d).Some?
    requires Shape(n) && n.priority == Weight(n) + 1
    requires rest == "" ==> n.data.None?
    requires rest != "" && IsWild(rest[0]) ==> n.wild.None?
    requires rest != "" ==> rest[0] !in n.indices
    ensures var u := AddBelow(n, rest, d).value;
      && Branch(u) && u.path == n.path && u.kind == n.kind && u.priority == n.priority
      && (rest != "" ==> u.data == n.data)
  {
    var u := AddBelow(n, rest, d).value;
    if rest == "" {
    } else if IsWild(rest[0]) {
      assert rest[0..] == rest;
      ParamChainShape(rest, d);
    } else {
      var c := InsertChild(Blank(1), rest, d).value;
      InsertBlankShape(rest, d);
      AppendShape(n, rest[0], c);
    }
  }

  lemma {:induction false} AppendShape(n: Tree, b: char, c: Tree)
    requires Shape(n) && !HoldsCatchAll(n) && !IsWild(b) && b !in n.indices && Child(c, b) && c.priority == 1
    ensures var u := n.(indices := n.indices + [b], children := n.children + [c]);
      Shape(u) && Weight(u) == Weight(n) + 1
  {
    var u := n.(indices := n.indices + [b], children := n.children + [c]);
    PrioSumConcat(n.children, [c]);
    PrioSumOne(c);
    forall i | 0 <= i < |n.children| ensures n.children[i].priority >= 1 {
      assert Child(n.children[i], n.indices[i]);
    }
    assert Plain(u.indices) && Distinct(u.indices);
    assert Sorted(u.children);
    forall i | 0 <= i < |u.children| ensures Child(u.children[i], u.indices[i]) {
      if i < |n.children| {
        assert Child(n.children[i], n.indices[i]);
      }
    }
  }

  // ---- moving a child forward ----

  /** The position in s of the element that MoveTo(s, from, to) has at i, and its inverse. */
  function OldPos(from: nat, to: nat, i: nat): nat
    requires to <= from
  {
    if i < to || i > from then i else if i == to then from else i - 1
  }

  function NewPos(from: nat, to: nat, i: nat): nat
    requires to <= from
  {
    if i < to || i > from then i else if i == from then to else i + 1
  }

  lemma MoveToAt<T>(s: seq<T>, from: nat, to: nat, i: nat)
    requires to <= from < |s| && i < |s|
    ensures OldPos(from, to, i) < |s| && MoveTo(s, from, to)[i] == s[OldPos(from, to, i)]
    ensures NewPos(from, to, i) < |s| && MoveTo(s, from, to)[NewPos(from, to, i)] == s[i]
  {
  }

  lemma BubbleStops(cs: seq<Tree>, prio: nat, pos: nat)
    requires pos <= |cs|
    ensures var j := BubbleTo(cs, prio, pos);
      && (forall m | j <= m < pos :: cs[m].priority < prio)
      && (j > 0 ==> cs[j - 1].priority >= prio)
  {
  }

  lemma {:induction false} MoveToSum(s: seq<Tree>, from: nat, to: nat)
    requires to <= from < |s|
    ensures PrioSum(MoveTo(s, from, to)) == PrioSum(s)
  {
    var a, b, c, d := s[..to], s[to..from], [s[from]], s[from + 1..];
    assert s == a + b + c + d;
    PrioSumOfFour(a, b, c, d);
    PrioSumOfFour(a, c, b, d);
  }

  lemma {:induction false} PrioSumOfFour(a: seq<Tree>, b: seq<Tree>, c: seq<Tree>, d: seq<Tree>)
    ensures PrioSum(a + b + c + d) == PrioSum(a) + PrioSum(b) + PrioSum(c) + PrioSum(d)
  {
    PrioSumConcat(a + b + c, d);
    PrioSumConcat(a + b, c);
    PrioSumConcat(a, b);
  }

  lemma {:induction false} ReplaceSum(s: seq<Tree>, k: nat, c: Tree)
    requires k < |s|
    ensures PrioSum(s[k := c]) + s[k].priority == PrioSum(s) + c.priority
  {
    if k > 0 {
      assert s[k := c][1..] == s[1..][k - 1 := c];
      ReplaceSum(s[1..], k - 1, c);
    } else {
      assert s[0 := c][1..] == s[1..];
    }
  }

  lemma {:induction false} PromotedSorted(cs: seq<Tree>, k: nat, c: Tree)
    requires k < |cs| && Sorted(cs) && c.priority == cs[k].priority + 1
    ensures Sorted(MoveTo(cs[k := c], k, BubbleTo(cs, c.priority, k)))
  {
    var j := BubbleTo(cs, c.priority, k);
    var s := cs[k := c];
    var r := MoveTo(s, k, j);
    BubbleStops(cs, c.priority, k);
    forall x, y | 0 <= x < y < |r| ensures r[x].priority >= r[y].priority {
      PromotedPair(cs, k, c, x, y);
    }
  }

  lemma {:induction false} PromotedPair(cs: seq<Tree>, k: nat, c: Tree, x: nat, y: nat)
    requires x < y < |cs| && k < |cs| && Sorted(cs) && c.priority == cs[k].priority + 1
    ensures var r := MoveTo(cs[k := c], k, BubbleTo(cs, c.priority, k)); r[x].priority >= r[y].priority
  {
    var j := BubbleTo(cs, c.priority, k);
    var s := cs[k := c];
    BubbleStops(cs, c.priority, k);
    MoveToAt(s, k, j, x);
    MoveToAt(s, k, j, y);
    var a, b := OldPos(k, j, x), OldPos(k, j, y);
    if y == j {
      assert cs[x].priority >= cs[j - 1].priority;
    } else if x == j {
      assert b < k || cs[k].priority >= cs[b].priority;
    } else {
      assert a < b && cs[a].priority >= cs[b].priority;
    }
  }

  lemma {:induction false} PromotedShape(n: Tree, k: nat, c: Tree)
    requires Shape(n) && k < |n.children| && Child(c, n.indices[k])
    requires c.priority == n.children[k].priority + 1
    ensures var u := Promoted(n, k, c);
      Shape(u) && Weight(u) == Weight(n) + 1
  {
    var j := BubbleTo(n.children, c.priority, k);
    var u := Promoted(n, k, c);
    var s := n.children[k := c];
    PromotedSorted(n.children, k, c);
    MoveToSum(s, k, j);
    ReplaceSum(n.children, k, c);
    PromotedIndices(n.indices, k, j);
    forall i | 0 <= i < |u.children| ensures Child(u.children[i], u.indices[i]) {
      MoveToAt(s, k, j, i);
      MoveToAt(n.indices, k, j, i);
    }
  }

  lemma {:induction false} PromotedIndices(s: string, k: nat, j: nat)
    requires j <= k < |s| && Plain(s) && Distinct(s)
    ensures Plain(MoveTo(s, k, j)) && Distinct(MoveTo(s, k, j))
  {
    var r := MoveTo(s, k, j);
    forall i | 0 <= i < |r| ensures !IsWild(r[i]) {
      MoveToAt(s, k, j, i);
    }
    forall x, y | 0 <= x < y < |r| ensures r[x] != r[y] {
      MoveToAt(s, k, j, x);
      MoveToAt(s, k, j, y);
      assert s[OldPos(k, j, x)] != s[OldPos(k, j, y)];
    }
  }

  lemma {:induction false} PromotedBelow(n: Tree, k: nat, c: Tree, q: string, e: RouteData)
    requires k < |n.children| == |n.indices|
    ensures BoundAny(Promoted(n, k, c).children, q, e) <==> BoundAny(n.children[k := c], q, e)
  {
    var j := BubbleTo(n.children, c.priority, k);
    var s := n.children[k := c];
    var u := Promoted(n, k, c);
    if i :| 0 <= i < |n.children| && Bound(u.children[i], q, e) {
      MoveToAt(s, k, j, i);
    }
    if i :| 0 <= i < |s| && Bound(s[i], q, e) {
      MoveToAt(s, k, j, i);
      assert Bound(u.children[NewPos(k, j, i)], q, e);
    }
  }

  lemma {:induction false} ReplacedAny(cs: seq<Tree>, k: nat, c: Tree, q: string, e: RouteData, added: bool)
    requires k < |cs| && (Bound(c, q, e) <==> Bound(cs[k], q, e) || added)
    ensures BoundAny(cs[k := c], q, e) <==> BoundAny(cs, q, e) || added
  {
    var s := cs[k := c];
    if i :| 0 <= i < |cs| && Bound(cs[i], q, e) {
      assert Bound(s[i], q, e);
    }
    if i :| 0 <= i < |s| && Bound(s[i], q, e) {
      assert i == k || Bound(cs[i], q, e);
    }
    if added {
      assert Bound(s[k], q, e);
    }
  }

  // ---- the walk ----

  /** The nodes the walk can stand on, with the path still to be placed. */
  ghost predicate Walkable(t: Tree, path: string) {
    Branch(t) || (ParamNode(t) && Compatible(t, path))
  }

  lemma {:induction false} WalkParts(t: Tree, path: string)
    requires Walkable(t, path)
    ensures t.kind != Param ==> Branch(t) && Shape(t)
    ensures t.kind == Param ==> ParamNode(t) && Compatible(t, path) && t.wild.None?
    ensures t.kind == Param && |t.children| == 1 ==> Child(t.children[0], '/')
    ensures t.kind == Param && |t.children| != 1 ==> t.children == [] && t.indices == ""
    ensures t.kind != Param ==> |t.indices| == |t.children|
    ensures t.kind != Param ==> forall k | 0 <= k < |t.children| :: Child(t.children[k], t.indices[k])
    ensures t.wild.Some? ==> Wildcard(t.wild.value)
  {
    if Branch(t) {
      assert Shape(t);
    }
  }

  lemma {:induction false} WalkSteps(t: Tree, path: string)
    requires Walkable(t, path)
    ensures var i := Lcp(path, t.path);
      && path == t.path[..i] + path[i..]
      && (i < |t.path| ==> t.kind != Param)
      && (t.kind == Param && i < |path| ==> path[i] == '/')
  {
    WalkParts(t, path);
    var i := Lcp(path, t.path);
    assert path == path[..i] + path[i..];
    if t.kind == Param {
      assert i == |t.path|;
      assert |t.path| == |path| || path[|t.path|] == '/';
    }
  }

  /** What the walk makes of a node with its priority raised, along a byte that is no wildcard. */
  function WalkedByte(n: Tree, rest: string, d: RouteData): Option<Tree>
    requires rest != ""
  {
    var k := IndexOf(n.indices, rest[0]);
    if k < |n.indices| && k < |n.children| then
      match Walk(n.children[k], rest, d)
      case None => None
      case Some(c) => Some(Promoted(n, k, c))
    else AddBelow(n, rest, d)
  }

  /** What the walk makes of a node with its priority raised, along a wildcard. */
  function WalkedMark(n: Tree, rest: string, d: RouteData): Option<Tree> {
    if n.wild.None? then InsertChild(n, rest, d)
    else if !Compatible(n.wild.value, rest) then None
    else
      match Walk(n.wild.value, rest, d)
      case None => None
      case Some(w) => Some(n.(wild := Some(w)))
  }

  lemma WalkedFrom(t: Tree, n: Tree, path: string, rest: string, d: RouteData)
    requires (t.kind == Param ==> |t.children| != 1) && n == t.(priority := t.priority + 1)
    requires Lcp(path, t.path) == |t.path| < |path| && rest == path[|t.path|..]
    ensures Walk(t, path, d) == if IsWild(rest[0]) then WalkedMark(n, rest, d) else WalkedByte(n, rest, d)
  {
  }

  /** A binding seen at t and at its rebuilt version u, when one part below grew by added. */
  lemma GrowWild(t: Tree, u: Tree, p: string, e: RouteData, added: bool)
    requires t.wild.Some? && u.wild.Some? && u == t.(priority := u.priority, wild := u.wild)
    requires t.path <= p
    requires var q := p[|t.path|..]; Bound(u.wild.value, q, e) <==> Bound(t.wild.value, q, e) || added
    ensures Bound(u, p, e) <==> Bound(t, p, e) || added
  {
  }

  lemma {:induction false} GrowOnly(t: Tree, u: Tree, p: string, e: RouteData, added: bool)
    requires |t.children| == |u.children| == 1 && u == t.(priority := u.priority, children := u.children)
    requires t.path <= p
    requires var q := p[|t.path|..]; Bound(u.children[0], q, e) <==> Bound(t.children[0], q, e) || added
    ensures Bound(u, p, e) <==> Bound(t, p, e) || added
  {
    ReplacedAny(t.children, 0, u.children[0], p[|t.path|..], e, added);
    assert u.children == t.children[0 := u.children[0]];
  }

  lemma {:induction false} GrowChild(t: Tree, k: nat, c: Tree, p: string, e: RouteData, added: bool)
    requires k < |t.children| == |t.indices| && t.path <= p
    requires var q := p[|t.path|..]; Bound(c, q, e) <==> Bound(t.children[k], q, e) || added
    ensures Bound(Promoted(t.(priority := t.priority + 1), k, c), p, e) <==> Bound(t, p, e) || added
  {
    var q := p[|t.path|..];
    PromotedBelow(t.(priority := t.priority + 1), k, c, q, e);
    ReplacedAny(t.children, k, c, q, e, added);
  }

  lemma {:induction false} WalkBound(t: Tree, path: string, d: RouteData, p: string, e: RouteData)
    requires Walkable(t, path) && Walk(t, path, d).Some?
    ensures Bound(Walk(t, path, d).value, p, e) <==> Bound(t, p, e) || (p == path && e == d)
    decreases t, 2
  {
    var u := Walk(t, path, d).value;
    var i := Lcp(path, t.path);
    var rest := path[i..];
    WalkSteps(t, path);
    if i < |t.path| {
      SplitBound(t, i, p, e);
      AddBelowBound(Split(t, i), rest, d, p, e);
    } else if t.path <= p {
      WalkBoundBelow(t, path, d, p, e);
    } else {
      AddBelowPath(t.(priority := t.priority + 1), rest, d);
    }
  }

  lemma {:induction false} WalkBoundBelow(t: Tree, path: string, d: RouteData, p: string, e: RouteData)
    requires Walkable(t, path) && Walk(t, path, d).Some?
    requires Lcp(path, t.path) == |t.path| && t.path <= p
    ensures Bound(Walk(t, path, d).value, p, e) <==> Bound(t, p, e) || (p == path && e == d)
    decreases t, 1
  {
    var u := Walk(t, path, d).value;
    var n := t.(priority := t.priority + 1);
    var rest := path[|t.path|..];
    var q := p[|t.path|..];
    var added := p == path && e == d;
    assert p == t.path + q && path == t.path + rest;
    WalkSteps(t, path);
    WalkParts(t, path);
    if rest == "" {
      SameBelow(t, n, q, e);
    } else if IsWild(rest[0]) && t.wild.Some? {
      WalkBound(t.wild.value, rest, d, q, e);
      GrowWild(t, u, p, e, added);
    } else if t.kind == Param && |t.children| == 1 {
      WalkBound(t.children[0], rest, d, q, e);
      GrowOnly(t, u, p, e, added);
    } else {
      WalkBoundStatic(t, path, d, p, e);
    }
  }

  lemma SameTail(pre: string, p: string, path: string, rest: string)
    requires pre <= p && pre <= path && rest == path[|pre|..]
    ensures path == pre + rest && (p == path <==> p[|pre|..] == rest)
  {
    assert p == pre + p[|pre|..];
  }

  lemma {:induction false} WalkBoundStatic(t: Tree, path: string, d: RouteData, p: string, e: RouteData)
    requires Walkable(t, path) && Walk(t, path, d).Some?
    requires Lcp(path, t.path) == |t.path| < |path| && t.path <= p
    requires IsWild(path[|t.path|]) ==> t.wild.None?
    requires t.kind == Param ==> |t.children| != 1
    ensures Bound(Walk(t, path, d).value, p, e) <==> Bound(t, p, e) || (p == path && e == d)
    decreases t, 0
  {
    var n := t.(priority := t.priority + 1);
    var rest := path[|t.path|..];
    var q := p[|t.path|..];
    SameTail(t.path, p, path, rest);
    WalkParts(t, path);
    WalkedFrom(t, n, path, rest, d);
    var k := IndexOf(t.indices, rest[0]);
    if !IsWild(rest[0]) && k < |t.indices| {
      WalkBound(t.children[k], rest, d, q, e);
      GrowChild(t, k, Walk(t.children[k], rest, d).value, p, e, p == path && e == d);
    } else {
      AddBelowBound(n, rest, d, p, e);
      SameBelow(t, n, q, e);
    }
  }

  lemma AddBelowPath(n: Tree, rest: string, d: RouteData)
    ensures rest != "" && AddBelow(n, rest, d).Some? ==> AddBelow(n, rest, d).value.path == n.path
  {
  }

  /** What the walk turns t into, seen from t's parent. */
  ghost predicate Grown(t: Tree, u: Tree, path: string) {
    && u.kind == t.kind && u.priority == t.priority + 1
    && u.path == t.path[..Lcp(path, t.path)]
    && (t.kind != Param ==> Branch(u))
    && (t.kind == Param ==> ParamNode(u))
    && (u.path == "" && path != "" && (t.path == "" ==> t.data.None?) ==> u.data.None?)
  }

  lemma {:induction false} ChildGrown(t: Tree, c: char, path: string, d: RouteData)
    requires Child(t, c) && path != "" && path[0] == c && !IsWild(c)
    requires Walk(t, path, d).Some? && Grown(t, Walk(t, path, d).value, path)
    ensures Child(Walk(t, path, d).value, c)
  {
    if t.path == "" {
      CatchAllStuck(t, path, d);
    }
  }

  lemma {:induction false} CatchAllStuck(t: Tree, path: string, d: RouteData)
    requires t.path == "" && HoldsCatchAll(t) && Branch(t) && path != "" && !IsWild(path[0])
    ensures Walk(t, path, d).None?
  {
    assert Shape(t);
    assert path[0..] == path;
  }

  lemma {:induction false} WalkShape(t: Tree, path: string, d: RouteData)
    requires Walkable(t, path) && Walk(t, path, d).Some? && t.priority >= 1
    ensures Grown(t, Walk(t, path, d).value, path)
    decreases t, 1
  {
    WalkSteps(t, path);
    WalkParts(t, path);
    if Lcp(path, t.path) < |t.path| {
      WalkShapeSplit(t, path, d);
    } else if |path| == |t.path| {
      GrownData(t, d);
    } else if t.kind == Param {
      WalkShapeParam(t, path, d);
    } else if IsWild(path[|t.path|]) && t.wild.Some? {
      WalkShapeWild(t, path, d);
    } else {
      WalkShapeStatic(t, path, d);
    }
  }

  lemma {:induction false} WalkShapeSplit(t: Tree, path: string, d: RouteData)
    requires Branch(t) && Walk(t, path, d).Some? && t.priority >= 1 && Lcp(path, t.path) < |t.path|
    ensures Grown(t, Walk(t, path, d).value, path)
  {
    var i := Lcp(path, t.path);
    SplitShape(t, i);
    AddBelowShape(Split(t, i), path[i..], d);
  }

  lemma {:induction false} WalkShapeWild(t: Tree, path: string, d: RouteData)
    requires Branch(t) && Walk(t, path, d).Some? && Lcp(path, t.path) == |t.path| < |path|
    requires IsWild(path[|t.path|]) && t.wild.Some?
    ensures Grown(t, Walk(t, path, d).value, path)
    decreases t, 0
  {
    var rest := path[|t.path|..];
    WalkParts(t, path);
    WalkShape(t.wild.value, rest, d);
    GrownWild(t, Walk(t.wild.value, rest, d).value);
  }

  lemma {:induction false} WalkShapeParam(t: Tree, path: string, d: RouteData)
    requires ParamNode(t) && Walkable(t, path) && Walk(t, path, d).Some?
    requires Lcp(path, t.path) == |t.path| < |path|
    ensures Grown(t, Walk(t, path, d).value, path)
    decreases t, 0
  {
    var rest := path[|t.path|..];
    WalkSteps(t, path);
    WalkParts(t, path);
    if |t.children| == 1 {
      WalkShape(t.children[0], rest, d);
      ChildGrown(t.children[0], '/', rest, d);
      GrownParam(t, Walk(t.children[0], rest, d).value);
    } else {
      InsertBlankShape(rest, d);
      GrownParamLeaf(t, InsertChild(Blank(1), rest, d).value);
    }
  }

  lemma {:induction false} WalkShapeStatic(t: Tree, path: string, d: RouteData)
    requires Branch(t) && Walk(t, path, d).Some? && t.priority >= 1
    requires Lcp(path, t.path) == |t.path| < |path|
    requires IsWild(path[|t.path|]) ==> t.wild.None?
    ensures Grown(t, Walk(t, path, d).value, path)
    decreases t, 0
  {
    var n := t.(priority := t.priority + 1);
    var rest := path[|t.path|..];
    var k := IndexOf(t.indices, rest[0]);
    WalkParts(t, path);
    WalkedFrom(t, n, path, rest, d);
    SameShape(t, n);
    if !IsWild(rest[0]) && k < |t.indices| {
      WalkShape(t.children[k], rest, d);
      ChildGrown(t.children[k], rest[0], rest, d);
      PromotedShape(n, k, Walk(t.children[k], rest, d).value);
    } else {
      AddBelowShape(n, rest, d);
    }
  }

  lemma {:induction false} SameShape(t: Tree, n: Tree)
    requires Branch(t) && n == t.(priority := t.priority + 1)
    ensures Shape(n) && n.priority == Weight(n) + 1
  {
    assert Shape(t);
  }

  lemma {:induction false} GrownData(t: Tree, d: RouteData)
    requires t.data.None?
    ensures var u := t.(priority := t.priority + 1, data := Some(d));
      && (Branch(t) ==> Branch(u))
      && (ParamNode(t) ==> ParamNode(u))
  {
    if Branch(t) {
      assert Shape(t);
    }
  }

  lemma {:induction false} GrownWild(t: Tree, w: Tree)
    requires Branch(t) && t.wild.Some? && t.wild.value.kind == Param
    requires ParamNode(w) && w.priority == t.wild.value.priority + 1
    ensures Branch(t.(priority := t.priority + 1, wild := Some(w)))
  {
    assert Shape(t);
  }

  lemma {:induction false} GrownParam(t: Tree, c: Tree)
    requires ParamNode(t) && |t.children| == 1 && Child(c, '/') && c.priority == t.children[0].priority + 1
    ensures ParamNode(t.(priority := t.priority + 1, children := [c]))
  {
    PrioSumOne(c);
    PrioSumOne(t.children[0]);
    assert t.children == [t.children[0]];
  }

  lemma {:induction false} GrownParamLeaf(t: Tree, c: Tree)
    requires ParamNode(t) && t.children == [] && Child(c, '/') && c.priority == 1
    ensures ParamNode(t.(priority := t.priority + 1, indices := t.indices + "/", children := t.children + [c]))
  {
    PrioSumOne(c);
    assert t.children + [c] == [c];
  }

  // ---- an accepted path was free ----

  lemma {:induction false} WalkFresh(t: Tree, path: string, d: RouteData, e: RouteData)
    requires Walkable(t, path) && Walk(t, path, d).Some?
    requires path != "" || t.path != ""
    ensures !Bound(t, path, e)
    decreases t
  {
    var i := Lcp(path, t.path);
    var rest := path[i..];
    WalkSteps(t, path);
    WalkParts(t, path);
    if Bound(t, path, e) {
      assert path[|t.path|..] == rest;
      BelowHead(t, rest, e);
      var k := if rest == "" then 0 else IndexOf(t.indices, rest[0]);
      if rest == "" {
      } else if IsWild(rest[0]) && t.wild.Some? {
        WalkFresh(t.wild.value, rest, d, e);
      } else if t.kind == Param && |t.children| == 1 {
        WalkFresh(t.children[0], rest, d, e);
      } else if !IsWild(rest[0]) && k < |t.indices| {
        WalkFresh(t.children[k], rest, d, e);
      }
      assert false;
    }
  }

  /** A pattern below t tells by its first byte which way it hangs. */
  lemma {:induction false} BelowHead(t: Tree, q: string, e: RouteData)
    requires Walkable(t, t.path) && BoundBelow(t, q, e)
    ensures q == "" ==> t.data == Some(e)
    ensures q != "" && t.wild.Some? && (t.wild.value.kind == CatchAll || q[0] == ':') ==> Bound(t.wild.value, q, e)
    ensures q != "" && t.wild.Some? && t.wild.value.kind == CatchAll ==> |q| >= 2 && q[..2] == "/*"
    ensures q != "" && t.wild.None? ==> !IsWild(q[0])
    ensures q != "" && q[0] == '*' ==> false
    ensures q != "" && !IsWild(q[0]) && !HoldsCatchAll(t) && t.kind == Param ==>
      q[0] == '/' && |t.children| == 1 && Bound(t.children[0], q, e)
    ensures q != "" && !IsWild(q[0]) && !HoldsCatchAll(t) && t.kind != Param ==>
      var k := IndexOf(t.indices, q[0]); k < |t.children| == |t.indices| && Bound(t.children[k], q, e)
  {
    WalkParts(t, t.path);
    if BoundAny(t.children, q, e) {
      var i :| 0 <= i < |t.children| && Bound(t.children[i], q, e);
      ChildHead(t.children[i], if t.kind == Param then '/' else t.indices[i], q, e);
      if t.kind != Param {
        IndexOfDistinct(t.indices, i);
      }
    }
    if t.wild.Some? && Bound(t.wild.value, q, e) {
      WildHead(t.wild.value, q, e);
    }
  }

  lemma IndexOfDistinct(s: string, i: nat)
    requires Distinct(s) && i < |s|
    ensures IndexOf(s, s[i]) == i
  {
  }

  // ---- addRoute ----

  lemma {:induction false} AddRouteKeepsInvariant(t: Tree, path: string, d: RouteData)
    requires Valid(t) && path != "" && AddRoute(t, path, d).Some?
    ensures var u := AddRoute(t, path, d).value;
      Valid(u) && u.priority == t.priority + 1
  {
    var u := AddRoute(t, path, d).value;
    if t.path == "" && t.children == [] && t.wild.None? {
      InsertBlankShape(path, d);
      var b := InsertChild(Blank(1), path, d).value;
      assert u == b.(kind := Root);
      assert Shape(b) && Shape(u);
    } else {
      WeightPositive(t);
      WalkShape(t, path, d);
    }
  }

  /** Everything that hangs below a node holds at least one route. */
  lemma {:induction false} WeightPositive(t: Tree)
    requires Branch(t)
    ensures t.children != [] || t.wild.Some? || t.data.Some? ==> t.priority >= 1
  {
    assert Shape(t);
    if t.wild.Some? {
      var w := t.wild.value;
      assert Wildcard(w);
      assert if w.kind == Param then ParamNode(w) else CatchAllNode(w);
    } else if t.children != [] {
      assert Child(t.children[0], t.indices[0]);
    }
  }

  lemma {:induction false} AddRouteBinds(t: Tree, path: string, d: RouteData)
    requires Valid(t) && path != "" && AddRoute(t, path, d).Some?
    ensures forall p, e :: Bound(AddRoute(t, path, d).value, p, e) <==> Bound(t, p, e) || (p == path && e == d)
    ensures forall e :: !Bound(t, path, e)
  {
    forall p, e
      ensures Bound(AddRoute(t, path, d).value, p, e) <==> Bound(t, p, e) || (p == path && e == d)
      ensures !Bound(t, path, e)
    {
      if t.path == "" && t.children == [] && t.wild.None? {
        BoundLeaf(t, p, e);
        BoundLeaf(t, path, e);
        var b := InsertChild(Blank(1), path, d).value;
        assert AddRoute(t, path, d).value == b.(kind := Root);
        InsertBlankBound(path, d, p, e);
        if b.path <= p {
          SameBelow(b, b.(kind := Root), p[|b.path|..], e);
        }
      } else {
        WalkBound(t, path, d, p, e);
        WalkFresh(t, path, d, e);
      }
    }
  }

  // ---- runs of registrations ----

  /** The plain table of routes that the registrations ask for. */
  function TableOf(routes: seq<(string, RouteData)>): map<string, RouteData> {
    if routes == [] then map[] else
      var last := routes[|routes| - 1];
      TableOf(routes[..|routes| - 1])[last.0 := last.1]
  }

  ghost predicate Agrees(t: Tree, s: map<string, RouteData>) {
    forall p, e :: Bound(t, p, e) <==> p in s && s[p] == e
  }

  lemma {:induction false} FreeKey(t: Tree, s: map<string, RouteData>, p: string)
    requires Agrees(t, s) && (forall e :: !Bound(t, p, e))
    ensures p !in s
  {
    if p in s {
      KeyBound(t, s, p);
    }
  }

  lemma KeyBound(t: Tree, s: map<string, RouteData>, p: string)
    requires Agrees(t, s) && p in s
    ensures Bound(t, p, s[p])
  {
  }

  /** A tree built by any accepted run of registrations is valid and holds exactly the table. */
  lemma {:induction false} BuildAgrees(routes: seq<(string, RouteData)>)
    requires Build(routes).Some? && (forall r | r in routes :: r.0 != "")
    ensures var t := Build(routes).value;
      Valid(t) && Agrees(t, TableOf(routes)) && t.priority == |routes| == |TableOf(routes)|
  {
    if routes == [] {
      forall p, e ensures !Bound(Blank(0), p, e) {
        BoundLeaf(Blank(0), p, e);
      }
    } else {
      var init, last := routes[..|routes| - 1], routes[|routes| - 1];
      BuildAgrees(init);
      var t := Build(init).value;
      assert last in routes;
      AddRouteKeepsInvariant(t, last.0, last.1);
      AddRouteBinds(t, last.0, last.1);
      var s := TableOf(init);
      FreeKey(t, s, last.0);
    }
  }
}
