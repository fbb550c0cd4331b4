/**
 The node of tree.go, updated in place. Each method is proved against the function of the same
 name on tree values; a registration that panics returns false and promises nothing more.
 */
module RouteTreeNode {
  import opened Options
  import opened RouteTree
  import opened RouteTreeAdd
  import L = RouteLookup

  method LongestCommonPrefix(a: string, b: string) returns (i: nat)
    ensures i == Lcp(a, b)
  {
    i := 0;
    var max := if |a| <= |b| then |a| else |b|;
    assert a[0..] == a && b[0..] == b;
    while i < max && a[i] == b[i]
      invariant i <= max
      invariant Lcp(a, b) == i + Lcp(a[i..], b[i..])
    {
      assert a[i..][1..] == a[i + 1..] && b[i..][1..] == b[i + 1..];
      i := i + 1;
    }
  }

  lemma {:induction false} IndexStep(s: string, k: nat, c: char)
    requires k < |s|
    ensures IndexOf(s[k..], c) == if s[k] == c then 0 else 1 + IndexOf(s[k + 1..], c)
    ensures FirstWild(s[k..]) == if IsWild(s[k]) then 0 else 1 + FirstWild(s[k + 1..])
  {
    assert s[k..][1..] == s[k + 1..];
  }

  lemma {:induction false} PlainSnoc(s: string, c: char)
    ensures Plain(s + [c]) <==> Plain(s) && !IsWild(c)
  {
    if Plain(s + [c]) {
      assert forall i | 0 <= i < |s| :: (s + [c])[i] == s[i];
      assert (s + [c])[|s|] == c;
    }
  }

  /** The scanning loops of addRoute and getValue: the first c in s, or |s|. */
  method Scan(s: string, c: char) returns (i: nat)
    ensures i == IndexOf(s, c)
  {
    i := 0;
    assert s[0..] == s;
    while i < |s| && s[i] != c
      invariant i <= |s| && IndexOf(s, c) == i + IndexOf(s[i..], c)
    {
      IndexStep(s, i, c);
      i := i + 1;
    }
    if i < |s| {
      IndexStep(s, i, c);
    }
  }

  /** The inner loop of findWildcard: from the wildcard byte at start to the next slash. */
  method ScanName(path: string, start: nat) returns (end: nat, valid: bool)
    requires start < |path| && IsWild(path[start])
    ensures end == start + IndexOf(path[start..], '/') <= |path|
    ensures start < end && (valid <==> Plain(path[start + 1..end]))
  {
    valid := true;
    end := start + 1;
    IndexStep(path, start, '/');
    while end < |path|
      invariant start < end <= |path|
      invariant valid <==> Plain(path[start + 1..end])
      invariant IndexOf(path[start..], '/') == end - start + IndexOf(path[end..], '/')
    {
      IndexStep(path, end, '/');
      if path[end] == '/' {
        return;
      }
      PlainSnoc(path[start + 1..end], path[end]);
      assert path[start + 1..end + 1] == path[start + 1..end] + [path[end]];
      if IsWild(path[end]) {
        valid := false;
      }
      end := end + 1;
    }
  }

  /** The first wildcard segment of path, its position or -1, and whether its name is well formed. */
  method FindWildcard(path: string) returns (wildcard: string, i: int, valid: bool)
    ensures i == if FirstWild(path) == |path| then -1 else FirstWild(path)
    ensures i >= 0 ==> wildcard == path[i..][..IndexOf(path[i..], '/')]
    ensures i >= 0 ==> wildcard != "" && (valid <==> Plain(wildcard[1..]))
  {
    var start := 0;
    assert path[0..] == path;
    while start < |path|
      invariant start <= |path|
      invariant FirstWild(path) == start + FirstWild(path[start..])
    {
      IndexStep(path, start, '/');
      if IsWild(path[start]) {
        var end;
        end, valid := ScanName(path, start);
        wildcard := path[start..end];
        assert wildcard[1..] == path[start + 1..end];
        assert wildcard == path[start..][..end - start];
        return wildcard, start, valid;
      }
      start := start + 1;
    }
    return "", -1, false;
  }

  class Node {
    var path: string
    var indices: string
    var children: seq<Node>
    var wildChild: Node?
    var nType: Kind
    var priority: nat
    var data: Option<RouteData>
    ghost var Repr: set<object>
    ghost var View: Tree

    /** The nodes below form a tree, and View is the value they stand for. */
    ghost predicate Ok()
      reads this, Repr
      decreases Repr
    {
      && this in Repr
      && (forall i | 0 <= i < |children| ::
        children[i] in Repr && children[i].Repr <= Repr && this !in children[i].Repr && children[i].Ok())
      && (forall i, j | 0 <= i < j < |children| :: children[i].Repr !! children[j].Repr)
      && (wildChild != null ==>
        wildChild in Repr && wildChild.Repr <= Repr && this !in wildChild.Repr && wildChild.Ok())
      && (wildChild != null ==> forall i | 0 <= i < |children| :: children[i].Repr !! wildChild.Repr)
      && Shows()
    }

    ghost predicate Shows()
      reads this, children, wildChild
    {
      && View.path == path && View.indices == indices && View.kind == nType
      && View.priority == priority && View.data == data
      && |View.children| == |children|
      && (forall i | 0 <= i < |children| :: View.children[i] == children[i].View)
      && View.wild == if wildChild == null then None else Some(wildChild.View)
    }

    /** A zero node with the given path, type and priority. */
    constructor (path: string, nType: Kind, priority: nat)
      ensures Ok() && fresh(Repr) && Repr == {this}
      ensures View == Tree(path, "", [], None, nType, priority, None)
      ensures children == [] && wildChild == null
    {
      this.path := path;
      indices := "";
      children := [];
      wildChild := null;
      this.nType := nType;
      this.priority := priority;
      data := None;
      View := Tree(path, "", [], None, nType, priority, None);
      Repr := {this};
    }

    /** getValue where the rest of the path is the node's own path. */
    method GetHere(params: seq<L.PathParam>) returns (data: Option<RouteData>, tsr: bool)
      requires Ok() && Branch(View)
      ensures L.Match(data, params, tsr) == L.Lookup(View, path, params)
    {
      L.Parts(View);
      if this.data.Some? {
        return this.data, false;
      }
      if path == "/" && wildChild != null && nType != Root {
        return None, true;
      }
      var i := Scan(indices, '/');
      if i < |indices| {
        // children are static nodes, so the source's further test for a catch-all child is idle
        var n := children[i];
        return None, |n.path| == 1 && n.data.Some?;
      }
      return None, false;
    }

    /** getValue at a param node: the next node to walk to, or null with the result. */
    method GetParam(rest: string, ps: seq<L.PathParam>)
      returns (next: Node?, low: string, params: seq<L.PathParam>, data: Option<RouteData>, tsr: bool)
      requires Ok() && ParamNode(View)
      ensures next == null ==> L.Match(data, params, tsr) == L.LookupParam(View, rest, ps)
      ensures next != null ==> next.Repr < Repr && next.Ok() && Branch(next.View)
      ensures next != null ==> L.Lookup(next.View, low, params) == L.LookupParam(View, rest, ps)
    {
      WalkParts(View, View.path);
      next, low, data, tsr := null, rest, None, false;
      var end := Scan(rest, '/');
      params := ps + [L.PathParam(path[1..], rest[..end])];
      if end < |rest| {
        if |children| > 0 {
          low := rest[end..];
          next := children[0];
          return;
        }
        tsr := |rest| == end + 1;
      } else if this.data.Some? {
        data := this.data;
      } else if |children| == 1 {
        var n := children[0];
        tsr := n.path == "/" && n.data.Some?;
      }
    }

    /** getValue at the empty catch-all node, whose only child holds the name and the route. */
    method GetCatchAll(rest: string, ps: seq<L.PathParam>) returns (data: Option<RouteData>, params: seq<L.PathParam>)
      requires Ok() && CatchAllNode(View) && rest != ""
      ensures var leaf := View.children[0];
        |leaf.path| >= 3 && data == leaf.data && params == ps + [L.PathParam(leaf.path[2..], rest[1..])]
    {
      var n := children[0];
      assert n.Ok();
      return n.data, ps + [L.PathParam(n.path[2..], rest[1..])];
    }

    /** The walk from the root; the loop stops at the node where the lookup ends. */
    method GetValue(path: string) returns (data: Option<RouteData>, params: seq<L.PathParam>, tsr: bool)
      requires Ok() && Branch(View)
      ensures L.Match(data, params, tsr) == L.Lookup(View, path, [])
    {
      var n: Node, rest := this, path;
      params := [];
      while true
        invariant n.Ok() && Branch(n.View)
        invariant L.Lookup(View, path, []) == L.Lookup(n.View, rest, params)
        decreases n.Repr
      {
        L.Parts(n.View);
        var prefix := n.path;
        if |rest| > |prefix| && rest[..|prefix|] == prefix {
          rest := rest[|prefix|..];
          var i := Scan(n.indices, rest[0]);
          if i < |n.indices| {
            n := n.children[i];
            continue;
          }
          if n.wildChild == null {
            return None, params, rest == "/" && n.data.Some?;
          }
          n := n.wildChild;
          if n.nType == Param {
            var next, low;
            next, low, params, data, tsr := n.GetParam(rest, params);
            if next == null {
              return;
            }
            n, rest := next, low;
            continue;
          }
          data, params := n.GetCatchAll(rest, params);
          return data, params, false;
        } else if rest == prefix {
          data, tsr := n.GetHere(params);
          return;
        }
        return None, params, rest == "/" ||
          (|prefix| == |rest| + 1 && prefix[|rest|] == '/' && rest == prefix[..|prefix| - 1] && n.data.Some?);
      }
    }

    // ---- single assignments, with View kept up to date ----

    method SetPath(p: string)
      requires Ok()
      modifies this
      ensures Ok() && View == old(View).(path := p) && Repr == old(Repr)
      ensures wildChild == old(wildChild) && children == old(children)
    {
      path := p;
      View := View.(path := p);
    }

    method SetData(d: RouteData)
      requires Ok()
      modifies this
      ensures Ok() && View == old(View).(data := Some(d)) && Repr == old(Repr)
    {
      data := Some(d);
      View := View.(data := Some(d));
    }

    method SetWild(w: Node)
      requires Ok() && wildChild == null && w.Ok() && w.Repr !! Repr
      modifies this
      ensures Ok() && View == old(View).(wild := Some(w.View)) && Repr == old(Repr) + w.Repr
    {
      wildChild := w;
      Repr := Repr + w.Repr;
      View := View.(wild := Some(w.View));
    }

    method SetOnlyChild(c: Node)
      requires Ok() && wildChild == null && children == [] && c.Ok() && c.Repr !! Repr
      modifies this
      ensures Ok() && View == old(View).(children := [c.View]) && Repr == old(Repr) + c.Repr
    {
      children := [c];
      Repr := Repr + c.Repr;
      View := View.(children := [c.View]);
    }

    // ---- insertChild ----

    /** Builds the chain of nodes for path below a node that has no wildcard child. */
    method InsertChild(path: string, d: RouteData) returns (ok: bool)
      requires Ok() && wildChild == null
      modifies this
      ensures ok == RouteTree.InsertChild(old(View), path, d).Some?
      ensures ok ==> Ok() && View == RouteTree.InsertChild(old(View), path, d).value
      ensures ok ==> fresh(Repr - old(Repr)) && old(Repr) <= Repr
      decreases |path|, 1
    {
      var wildcard, i, valid := FindWildcard(path);
      if i < 0 {
        SetPath(path);
        SetData(d);
        return true;
      }
      InsertColon(View, path, i, wildcard, d);
      if !valid || |wildcard| < 2 {
        return false;
      }
      if wildcard[0] == ':' {
        ok := InsertParam(path, i, wildcard, d);
      } else {
        ok := InsertCatchAll(path, i, wildcard, d);
      }
    }

    /** The param case, with wildcard found at position at. */
    method InsertParam(path: string, at: int, wildcard: string, d: RouteData) returns (ok: bool)
      requires Ok() && wildChild == null
      requires 0 <= at == FirstWild(path) < |path| && path[at] == ':'
      requires wildcard == path[at..][..IndexOf(path[at..], '/')] && Plain(wildcard[1..]) && |wildcard| >= 2
      modifies this
      ensures ok == ParamChain(path[at..], d).Some?
      ensures ok ==> Ok() && fresh(Repr - old(Repr)) && old(Repr) <= Repr
      ensures ok ==> View == old(View).(path := if at > 0 then path[..at] else old(View).path,
        wild := Some(ParamChain(path[at..], d).value))
      decreases |path|, 0, 1
    {
      if at > 0 {
        SetPath(path[..at]);
      }
      var child := new Node("", Param, 0);
      ok := child.FillParam(path[at..], wildcard, d);
      if ok {
        SetWild(child);
      }
    }

    /** The param case: this is the new param node, rest starts with its segment. */
    method FillParam(rest: string, wildcard: string, d: RouteData) returns (ok: bool)
      requires Ok() && View == Tree("", "", [], None, Param, 0, None) && children == [] && wildChild == null
      requires rest != "" && rest[0] == ':' && wildcard == rest[..IndexOf(rest, '/')]
      requires Plain(wildcard[1..]) && |wildcard| >= 2
      modifies this
      ensures ok == ParamChain(rest, d).Some?
      ensures ok ==> Ok() && View == ParamChain(rest, d).value && fresh(Repr - old(Repr))
      decreases |rest|, 0, 0
    {
      priority := priority + 1;
      View := View.(priority := priority);
      SetPath(wildcard);
      if |wildcard| < |rest| {
        var low := new Node("", Static, 1);
        ok := low.InsertChild(rest[|wildcard|..], d);
        if ok {
          SetOnlyChild(low);
        }
        return;
      }
      SetData(d);
      return true;
    }

    /** The catch-all case, with wildcard found at position at. */
    method InsertCatchAll(path: string, at: int, wildcard: string, d: RouteData) returns (ok: bool)
      requires Ok() && wildChild == null
      requires 0 <= at == FirstWild(path) < |path| && path[at] != ':'
      requires wildcard == path[at..][..IndexOf(path[at..], '/')] && Plain(wildcard[1..]) && |wildcard| >= 2
      modifies this
      ensures ok == RouteTree.InsertChild(old(View), path, d).Some?
      ensures ok ==> Ok() && View == RouteTree.InsertChild(old(View), path, d).value
      ensures ok ==> fresh(Repr - old(Repr)) && old(Repr) <= Repr
    {
      InsertStar(View, path, at, wildcard, d);
      if at + |wildcard| != |path| || (|this.path| > 0 && this.path[|this.path| - 1] == '/') {
        return false;
      }
      if at == 0 || path[at - 1] != '/' {
        return false;
      }
      HangCatchAll(path[..at - 1], path[at - 1..], d);
      return true;
    }

    method HangCatchAll(stem: string, leaf: string, d: RouteData)
      requires Ok() && wildChild == null
      modifies this
      ensures Ok() && fresh(Repr - old(Repr)) && old(Repr) <= Repr
      ensures View == old(View).(path := stem, wild := Some(StarNodes(leaf, d)))
    {
      SetPath(stem);
      var child := NewCatchAll(leaf, d);
      SetWild(child);
    }

    static method NewCatchAll(path: string, d: RouteData) returns (child: Node)
      ensures child.Ok() && fresh(child.Repr)
      ensures child.View == StarNodes(path, d)
    {
      child := new Node("", CatchAll, 1);
      var leaf := new Node(path, CatchAll, 1);
      leaf.SetData(d);
      child.SetOnlyChild(leaf);
    }

    // ---- after a change below one child ----

    /** What stays as it was while the walk changes nodes below child k only. */
    twostate lemma OthersKept(c: Node)
      requires old(Ok()) && old(c.Ok()) && old(c.Repr) <= old(Repr) && this !in old(c.Repr)
      requires unchanged(old(Repr) - old(c.Repr))
      ensures forall i | 0 <= i < |children| && old(children[i].Repr) !! old(c.Repr) ::
        children[i].Ok() && children[i].View == old(children[i].View) && children[i].Repr == old(children[i].Repr)
      ensures wildChild != null && old(wildChild.Repr) !! old(c.Repr) ==>
        wildChild.Ok() && wildChild.View == old(wildChild.View) && wildChild.Repr == old(wildChild.Repr)
    {
    }

    /** Ok, except that View and Repr have not caught up with child c. */
    ghost predicate Behind(c: Node)
      reads this, Repr, c, c.Repr
    {
      && this in Repr && c.Ok() && this !in c.Repr
      && (c in children || c == wildChild)
      && (forall i | 0 <= i < |children| && children[i] != c ::
        children[i] in Repr && children[i].Repr <= Repr && this !in children[i].Repr && children[i].Ok()
        && children[i].Repr !! c.Repr)
      && (forall i, j | 0 <= i < j < |children| :: children[i].Repr !! children[j].Repr)
      && (wildChild != null && wildChild != c ==>
        wildChild in Repr && wildChild.Repr <= Repr && this !in wildChild.Repr && wildChild.Ok()
        && wildChild.Repr !! c.Repr)
      && (wildChild != null ==> forall i | 0 <= i < |children| :: children[i].Repr !! wildChild.Repr)
    }

    twostate lemma {:induction false} FallsBehind(c: Node)
      requires old(Ok()) && (c in old(children) || c == old(wildChild))
      requires unchanged(old(Repr) - old(c.Repr)) && c.Ok() && fresh(c.Repr - old(c.Repr))
      ensures Behind(c)
    {
      OthersKept(c);
      ApartStill(c);
    }

    twostate lemma {:induction false} ApartStill(c: Node)
      requires old(Ok()) && (c in old(children) || c == old(wildChild))
      requires unchanged(old(Repr) - old(c.Repr)) && fresh(c.Repr - old(c.Repr))
      ensures children == old(children) && wildChild == old(wildChild)
      ensures forall i | 0 <= i < |children| && children[i] != c ::
        old(children[i].Repr) !! old(c.Repr) && old(children[i].Repr) !! c.Repr
      ensures wildChild != null && wildChild != c ==> old(wildChild.Repr) !! old(c.Repr) && old(wildChild.Repr) !! c.Repr
    {
    }

    method CatchUpChild(k: nat)
      requires k < |children| == |View.children| && Behind(children[k])
      requires View.path == path && View.indices == indices && View.kind == nType
      requires View.priority == priority && View.data == data
      requires forall i | 0 <= i < |children| && i != k :: View.children[i] == children[i].View
      requires View.wild == if wildChild == null then None else Some(wildChild.View)
      modifies this
      ensures Ok() && children == old(children)
      ensures Repr == old(Repr) + children[k].Repr && children[k].View == old(children[k].View)
      ensures View == old(View).(children := old(View).children[k := children[k].View])
    {
      Repr := Repr + children[k].Repr;
      View := View.(children := View.children[k := children[k].View]);
    }

    method CatchUpWild()
      requires wildChild != null && Behind(wildChild) && |children| == |View.children|
      requires View.path == path && View.indices == indices && View.kind == nType
      requires View.priority == priority && View.data == data
      requires forall i | 0 <= i < |children| :: View.children[i] == children[i].View
      modifies this
      ensures Ok() && wildChild == old(wildChild) && wildChild.View == old(wildChild.View)
      ensures Repr == old(Repr) + wildChild.Repr
      ensures View == old(View).(wild := Some(wildChild.View))
    {
      Repr := Repr + wildChild.Repr;
      View := View.(wild := Some(wildChild.View));
    }

    // ---- incrementChildPrio ----

    method Bump()
      requires Ok()
      modifies this
      ensures Ok() && View == old(View).(priority := old(View).priority + 1) && Repr == old(Repr)
    {
      priority := priority + 1;
      View := View.(priority := priority);
    }

    /** The loop that moves a child in front of the siblings it outranks. */
    static method Bubble(nodes: seq<Node>, prio: nat, pos: nat, ghost views: seq<Tree>)
      returns (cs: seq<Node>, newPos: nat)
      requires pos < |nodes| == |views|
      requires forall i | 0 <= i < pos :: nodes[i].priority == views[i].priority
      ensures newPos == BubbleTo(views, prio, pos) && cs == MoveTo(nodes, pos, newPos)
    {
      cs, newPos := nodes, pos;
      while newPos > 0 && cs[newPos - 1].priority < prio
        invariant newPos <= pos && cs == MoveTo(nodes, pos, newPos)
        invariant BubbleTo(views, prio, newPos) == BubbleTo(views, prio, pos)
      {
        assert cs[newPos - 1] == nodes[newPos - 1];
        cs := cs[newPos - 1 := cs[newPos]][newPos := cs[newPos - 1]];
        newPos := newPos - 1;
      }
    }

    method BumpChild(pos: nat)
      requires Ok() && pos < |children|
      modifies this, children[pos]
      ensures Ok() && Repr == old(Repr) && children == old(children) && indices == old(indices)
      ensures var c := old(View).children[pos];
        View == old(View).(children := old(View).children[pos := c.(priority := c.priority + 1)])
    {
      var c := children[pos];
      c.Bump();
      FallsBehind(c);
      CatchUpChild(pos);
    }

    /** Assigns children and indices; the caller knows the new list to be owned as the old one was. */
    method SetChildren(cs: seq<Node>, ghost views: seq<Tree>, idx: string)
      requires Ok() && |cs| == |views| && Owned(cs)
      requires forall i | 0 <= i < |cs| :: cs[i].View == views[i]
      modifies this
      ensures Ok() && Repr == old(Repr) && children == cs && indices == idx
      ensures View == old(View).(children := views, indices := idx)
    {
      children := cs;
      indices := idx;
      View := View.(children := views, indices := idx);
    }

    ghost predicate Owned(cs: seq<Node>)
      reads this, Repr, cs, wildChild
      reads set c, o | c in cs && o in c.Repr :: o
    {
      && (forall i | 0 <= i < |cs| :: cs[i] in Repr && cs[i].Repr <= Repr && this !in cs[i].Repr && cs[i].Ok())
      && (wildChild != null ==> forall i | 0 <= i < |cs| :: cs[i].Repr !! wildChild.Repr)
      && (forall i, j | 0 <= i < j < |cs| :: cs[i].Repr !! cs[j].Repr)
    }

    /** Moves the child at from forward to to, in children and in indices alike. */
    method Reorder(cs: seq<Node>, from: nat, to: nat)
      requires Ok() && to <= from < |children| == |indices| && cs == MoveTo(children, from, to)
      modifies this
      ensures Ok() && Repr == old(Repr)
      ensures View == old(View).(children := MoveTo(old(View).children, from, to),
        indices := MoveTo(old(View).indices, from, to))
    {
      Reordered(from, to);
      ReorderedIndices(indices, from, to);
      var idx := indices;
      if to != from {
        idx := indices[..to] + indices[from..from + 1] + indices[to..from] + indices[from + 1..];
      }
      SetChildren(cs, MoveTo(View.children, from, to), idx);
    }

    lemma {:induction false} Reordered(from: nat, to: nat)
      requires Ok() && to <= from < |children|
      ensures var cs := MoveTo(children, from, to);
        Owned(cs) && forall i | 0 <= i < |cs| :: cs[i].View == MoveTo(View.children, from, to)[i]
    {
      var cs := MoveTo(children, from, to);
      forall i | 0 <= i < |cs|
        ensures cs[i].View == MoveTo(View.children, from, to)[i]
        ensures cs[i] in Repr && cs[i].Repr <= Repr && this !in cs[i].Repr && cs[i].Ok()
        ensures wildChild != null ==> cs[i].Repr !! wildChild.Repr
      {
        MoveToAt(children, from, to, i);
        MoveToAt(View.children, from, to, i);
      }
      forall i, j | 0 <= i < j < |cs| ensures cs[i].Repr !! cs[j].Repr {
        MoveToAt(children, from, to, i);
        MoveToAt(children, from, to, j);
      }
    }

    method IncrementChildPrio(pos: nat) returns (newPos: nat)
      requires Ok() && pos < |children| == |indices|
      modifies this, children[pos]
      ensures Ok() && Repr == old(Repr)
      ensures newPos == BubbleTo(old(View).children, old(View).children[pos].priority + 1, pos)
      ensures var c := old(View).children[pos];
        View == Promoted(old(View), pos, c.(priority := c.priority + 1))
    {
      ghost var views := View.children;
      BumpChild(pos);
      var cs;
      cs, newPos := Bubble(children, children[pos].priority, pos, views);
      Reorder(cs, pos, newPos);
    }

    // ---- addRoute ----

    /** Splits the node's edge at i; the old content moves to a new static child. */
    method SplitEdge(i: nat)
      requires Ok() && i < |path| && View.priority >= 1
      modifies this
      ensures Ok() && View == Split(Before(old(View)), i) && fresh(Repr - old(Repr)) && old(Repr) <= Repr
      ensures wildChild == null
    {
      var child := new Node(path[i..], Static, priority - 1);
      child.Take(this);
      Become(path[..i], path[i], child);
    }

    /** The upper half of a split edge: a node with one static child and nothing else. */
    method Become(p: string, b: char, child: Node)
      requires child.Ok() && this !in child.Repr
      modifies this
      ensures Ok() && Repr == {this} + child.Repr && wildChild == null
      ensures View == Tree(p, [b], [child.View], None, old(nType), old(priority), None)
    {
      path := p;
      data := None;
      wildChild := null;
      children := [child];
      indices := [b];
      Repr := {this} + child.Repr;
      View := Tree(p, [b], [child.View], None, nType, priority, None);
    }

    /** A fresh node takes over everything below n. */
    method Take(n: Node)
      requires Ok() && n.Ok() && Repr == {this} && this !in n.Repr && children == [] && wildChild == null
      modifies this
      ensures Ok() && Repr == old(Repr) + n.Repr - {n}
      ensures View == n.View.(path := old(View).path, kind := old(View).kind, priority := old(View).priority)
    {
      wildChild := n.wildChild;
      indices := n.indices;
      children := n.children;
      data := n.data;
      Repr := Repr + n.Repr - {n};
      View := n.View.(path := path, kind := nType, priority := priority);
    }

    /** A new zero child under byte b, behind the others. */
    method AddChild(child: Node, b: char)
      requires Ok() && child.Ok() && child.Repr !! Repr
      modifies this
      ensures Ok() && Repr == old(Repr) + child.Repr
      ensures children == old(children) + [child] && wildChild == old(wildChild)
      ensures View == old(View).(indices := old(View).indices + [b], children := old(View).children + [child.View])
    {
      indices := indices + [b];
      children := children + [child];
      Repr := Repr + child.Repr;
      View := View.(indices := indices, children := View.children + [child.View]);
    }

    /** Inserts below child k, which the parent alone owns and which has no wildcard child yet. */
    method InsertAtChild(k: nat, rest: string, d: RouteData) returns (ok: bool)
      requires Ok() && k < |children| && View.children[k].wild.None?
      modifies Repr
      ensures ok == RouteTree.InsertChild(old(View).children[k], rest, d).Some?
      ensures ok ==> Ok() && fresh(Repr - old(Repr)) && old(Repr) <= Repr
      ensures ok ==> View == old(View).(children :=
        old(View).children[k := RouteTree.InsertChild(old(View).children[k], rest, d).value])
    {
      var c := children[k];
      ok := c.InsertChild(rest, d);
      if ok {
        FallsBehind(c);
        CatchUpChild(k);
      }
    }

    /** The new static child of a node: appended with priority 0, then raised to 1. */
    method NewChild(b: char) returns (last: nat)
      requires Ok()
      requires |indices| == |children| && forall i | 0 <= i < |View.children| :: View.children[i].priority >= 1
      modifies this
      ensures Ok() && fresh(Repr - old(Repr)) && old(Repr) <= Repr
      ensures last == |old(View).children| && last < |children|
      ensures View == old(View).(indices := old(View).indices + [b], children := old(View).children + [Blank(1)])
    {
      ghost var v := View;
      var child := new Node("", Static, 0);
      AddChild(child, b);
      ghost var w := View;
      assert w == v.(indices := v.indices + [b], children := v.children + [Blank(0)]);
      assert w.children[|v.children|] == Blank(0);
      last := IncrementChildPrio(|children| - 1);
      assert View == Promoted(w, |v.children|, Blank(1));
      NoBubble(v, b, View);
    }

    method AppendChild(rest: string, d: RouteData) returns (ok: bool)
      requires Ok() && rest != "" && !IsWild(rest[0]) && !HoldsCatchAll(View)
      requires |indices| == |children| && forall i | 0 <= i < |View.children| :: View.children[i].priority >= 1
      modifies Repr
      ensures ok == AddBelow(old(View), rest, d).Some?
      ensures ok ==> Ok() && View == AddBelow(old(View), rest, d).value
      ensures ok ==> fresh(Repr - old(Repr)) && old(Repr) <= Repr
    {
      ghost var v := View;
      var last := NewChild(rest[0]);
      assert View.children[last] == Blank(1);
      ok := InsertAtChild(last, rest, d);
      if ok {
        assert View.children == v.children + [View.children[last]];
      }
    }

    /** Registers a route in the tree below this root; false is a panic. */
    method AddRoute(path: string, d: RouteData) returns (ok: bool)
      requires Ok() && Valid(View)
      modifies Repr
      ensures ok == RouteTree.AddRoute(old(View), path, d).Some?
      ensures ok ==> Ok() && View == RouteTree.AddRoute(old(View), path, d).value
      ensures ok ==> fresh(Repr - old(Repr)) && old(Repr) <= Repr
    {
      ghost var t := View;
      Bump();
      if |this.path| == 0 && |children| == 0 && wildChild == null {
        ok := InsertChild(path, d);
        if ok {
          nType := Root;
          View := View.(kind := Root);
        }
        return;
      }
      WeightPositive(t);
      assert Before(View) == t;
      ok := Walk(path, d);
    }

    /** The walk loop, from this node on, whose priority has been raised already. */
    method Walk(path: string, d: RouteData) returns (ok: bool)
      requires Ok() && View.priority >= 2 && Walkable(Before(View), path)
      modifies Repr
      ensures ok == RouteTree.Walk(Before(old(View)), path, d).Some?
      ensures ok ==> Ok() && View == RouteTree.Walk(Before(old(View)), path, d).value
      ensures ok ==> fresh(Repr - old(Repr)) && old(Repr) <= Repr
      decreases Repr, 3
    {
      ghost var t := Before(View);
      WalkSteps(t, path);
      WalkParts(t, path);
      var i := LongestCommonPrefix(path, this.path);
      if i < |this.path| {
        ok := WalkSplit(i, path, d);
        return;
      }
      if i < |path| {
        if nType == Param {
          ok := WalkParam(path, d);
        } else {
          ok := WalkStatic(path, d);
        }
        return;
      }
      if data.Some? {
        return false;
      }
      SetData(d);
      return true;
    }

    /** At a static or root node whose own path has matched. */
    method WalkStatic(path: string, d: RouteData) returns (ok: bool)
      requires Ok() && View.priority >= 2 && Branch(Before(View))
      requires Lcp(path, this.path) == |this.path| < |path|
      modifies Repr
      ensures ok == RouteTree.Walk(Before(old(View)), path, d).Some?
      ensures ok ==> Ok() && View == RouteTree.Walk(Before(old(View)), path, d).value
      ensures ok ==> fresh(Repr - old(Repr)) && old(Repr) <= Repr
      decreases Repr, 2
    {
      var rest := path[|this.path|..];
      WalkedOn(View, path, rest, d);
      if IsWild(rest[0]) {
        ok := WalkMark(rest, d);
      } else {
        ok := WalkByte(rest, d);
      }
    }

    /** Below a static or root node, along a wildcard. */
    method WalkMark(rest: string, d: RouteData) returns (ok: bool)
      requires Ok() && View.priority >= 2 && Branch(Before(View)) && rest != "" && IsWild(rest[0])
      modifies Repr
      ensures ok == WalkedMark(old(View), rest, d).Some?
      ensures ok ==> Ok() && View == WalkedMark(old(View), rest, d).value
      ensures ok ==> fresh(Repr - old(Repr)) && old(Repr) <= Repr
      decreases Repr, 1, 1
    {
      if wildChild != null {
        WildOf(Before(View));
        ok := WalkWild(rest, d);
      } else {
        ok := InsertChild(rest, d);
      }
    }

    /** Below a static or root node, along a byte that is no wildcard. */
    method WalkByte(rest: string, d: RouteData) returns (ok: bool)
      requires Ok() && View.priority >= 2 && Branch(Before(View)) && rest != "" && !IsWild(rest[0])
      modifies Repr
      ensures ok == WalkedByte(old(View), rest, d).Some?
      ensures ok ==> Ok() && View == WalkedByte(old(View), rest, d).value
      ensures ok ==> fresh(Repr - old(Repr)) && old(Repr) <= Repr
      decreases Repr, 1, 1
    {
      BytesOf(Before(View));
      var k := Scan(indices, rest[0]);
      if k < |indices| {
        ok := WalkIndexed(k, rest, d);
        return;
      }
      if wildChild != null && wildChild.nType == CatchAll {
        return false;
      }
      ok := AppendChild(rest, d);
    }

    /** At a param node, whose path has matched: what is left starts with a slash. */
    method WalkParam(path: string, d: RouteData) returns (ok: bool)
      requires Ok() && View.priority >= 2 && ParamNode(Before(View)) && Compatible(Before(View), path)
      requires Lcp(path, this.path) == |this.path| < |path|
      modifies Repr
      ensures ok == RouteTree.Walk(Before(old(View)), path, d).Some?
      ensures ok ==> Ok() && View == RouteTree.Walk(Before(old(View)), path, d).value
      ensures ok ==> fresh(Repr - old(Repr)) && old(Repr) <= Repr
      decreases Repr, 2
    {
      ghost var t := Before(View);
      WalkParts(t, path);
      WalkSteps(t, path);
      var rest := path[|this.path|..];
      if |children| == 1 {
        ok := WalkOnly(rest, d);
      } else {
        ok := AppendChild(rest, d);
      }
    }

    /** The rest of the loop body right after an edge was split. */
    method WalkSplit(i: nat, path: string, d: RouteData) returns (ok: bool)
      requires Ok() && View.priority >= 2 && i == Lcp(path, this.path) < |this.path|
      requires Branch(Before(View))
      modifies Repr
      ensures ok == AddBelow(Split(Before(old(View)), i), path[i..], d).Some?
      ensures ok ==> Ok() && View == AddBelow(Split(Before(old(View)), i), path[i..], d).value
      ensures ok ==> fresh(Repr - old(Repr)) && old(Repr) <= Repr
    {
      ghost var t := Before(View);
      SplitEdge(i);
      if i == |path| {
        SetData(d);
        return true;
      }
      if IsWild(path[i]) {
        ok := InsertChild(path[i..], d);
        return;
      }
      ok := AppendChild(path[i..], d);
    }

    /** Into child k, which was t until its priority was raised. */
    method WalkInto(k: nat, rest: string, d: RouteData, ghost t: Tree) returns (ok: bool)
      requires Ok() && k < |children| && View.children[k].priority >= 2
      requires t == Before(View.children[k]) && Walkable(t, rest)
      modifies Repr
      ensures ok == RouteTree.Walk(t, rest, d).Some?
      ensures ok ==> Ok() && fresh(Repr - old(Repr)) && old(Repr) <= Repr
      ensures ok ==> View == old(View).(children := old(View).children[k := RouteTree.Walk(t, rest, d).value])
      decreases Repr, 0
    {
      var c := children[k];
      ok := c.Walk(rest, d);
      if ok {
        FallsBehind(c);
        CatchUpChild(k);
      }
    }

    /** Into the only child of a param node. */
    method WalkOnly(rest: string, d: RouteData) returns (ok: bool)
      requires Ok() && |children| == 1 && Walkable(View.children[0], rest) && View.children[0].priority >= 1
      modifies Repr
      ensures ok == RouteTree.Walk(old(View).children[0], rest, d).Some?
      ensures ok ==> Ok() && fresh(Repr - old(Repr)) && old(Repr) <= Repr
      ensures ok ==> View == old(View).(children := [RouteTree.Walk(old(View).children[0], rest, d).value])
      decreases Repr, 1
    {
      ghost var c := View.children[0];
      BumpChild(0);
      assert Before(View.children[0]) == c;
      ok := WalkInto(0, rest, d, c);
    }

    /** Into the static child listed at k, after moving it in front of those it outranks. */
    method WalkIndexed(k: nat, rest: string, d: RouteData) returns (ok: bool)
      requires Ok() && k < |children| == |indices|
      requires Walkable(View.children[k], rest) && View.children[k].priority >= 1
      modifies Repr
      ensures ok == RouteTree.Walk(old(View).children[k], rest, d).Some?
      ensures ok ==> Ok() && fresh(Repr - old(Repr)) && old(Repr) <= Repr
      ensures ok ==> View == Promoted(old(View), k, RouteTree.Walk(old(View).children[k], rest, d).value)
      decreases Repr, 1, 0
    {
      ghost var v, c := View, View.children[k];
      var j := IncrementChildPrio(k);
      RaisedAt(v, k, View);
      ok := WalkInto(j, rest, d, c);
      if ok {
        RaisedThen(v, k, rest, d);
      }
    }

    /** Into the existing wildcard child, if the incoming segment has its name. */
    method WalkWild(rest: string, d: RouteData) returns (ok: bool)
      requires Ok() && wildChild != null && Wildcard(wildChild.View) && rest != "" && IsWild(rest[0])
      modifies Repr
      ensures ok == (Compatible(old(View).wild.value, rest) && RouteTree.Walk(old(View).wild.value, rest, d).Some?)
      ensures ok ==> Ok() && View == old(View).(wild := Some(RouteTree.Walk(old(View).wild.value, rest, d).value))
      ensures ok ==> fresh(Repr - old(Repr)) && old(Repr) <= Repr
      decreases Repr, 1, 0
    {
      var wc := wildChild;
      assert wc.Ok();
      wc.Bump();
      if |rest| >= |wc.path| && wc.path == rest[..|wc.path|] && wc.nType != CatchAll &&
         (|wc.path| >= |rest| || rest[|wc.path|] == '/') {
        assert Before(wc.View) == old(View).wild.value;
        ok := wc.Walk(rest, d);
        if ok {
          FallsBehind(wc);
          CatchUpWild();
        }
        return;
      }
      return false;
    }
  }

  /** The registrations of a program in order, up to the first panic. */
  method Register(routes: seq<(string, RouteData)>) returns (root: Node, ok: bool)
    requires forall r | r in routes :: r.0 != ""
    ensures ok == Build(routes).Some?
    ensures ok ==> root.Ok() && fresh(root.Repr) && root.View == Build(routes).value
  {
    root := new Node("", Static, 0);
    var n := 0;
    while n < |routes|
      invariant n <= |routes| && Build(routes[..n]).Some?
      invariant root.Ok() && fresh(root.Repr) && root.View == Build(routes[..n]).value
    {
      BuildAgrees(routes[..n]);
      BuildNext(routes, n);
      ok := root.AddRoute(routes[n].0, routes[n].1);
      if !ok {
        BuildStops(routes, n + 1);
        return;
      }
      n := n + 1;
    }
    assert routes[..n] == routes;
    ok := true;
  }

  lemma {:induction false} BuildNext(routes: seq<(string, RouteData)>, n: nat)
    requires n < |routes|
    ensures Build(routes[..n + 1]) ==
      match Build(routes[..n]) case None => None case Some(t) => AddRoute(t, routes[n].0, routes[n].1)
  {
    var s := routes[..n + 1];
    assert s[..|s| - 1] == routes[..n] && s[|s| - 1] == routes[n];
  }

  lemma {:induction false} BuildStops(routes: seq<(string, RouteData)>, n: nat)
    requires n <= |routes| && Build(routes[..n]).None?
    ensures Build(routes).None?
    decreases |routes| - n
  {
    if n < |routes| {
      BuildNext(routes, n);
      BuildStops(routes, n + 1);
    } else {
      assert routes[..n] == routes;
    }
  }

  /** Where the raised child went. */
  lemma RaisedAt(v: Tree, k: nat, u: Tree)
    requires k < |v.children| && k < |v.indices|
    requires u == Promoted(v, k, v.children[k].(priority := v.children[k].priority + 1))
    ensures var j := BubbleTo(v.children, v.children[k].priority + 1, k);
      j < |u.children| && u.children[j].priority == v.children[k].priority + 1 && Before(u.children[j]) == v.children[k]
  {
    var c := v.children[k].(priority := v.children[k].priority + 1);
    var j := BubbleTo(v.children, c.priority, k);
    assert MoveTo(v.children[k := c], k, j)[j] == c;
    assert Before(c) == v.children[k];
  }

  /** Moving first and walking then is walking first and moving then. */
  lemma {:induction false} PromotedThen(v: Tree, k: nat, b: Tree, c: Tree)
    requires k < |v.children| && k < |v.indices| && b.priority == c.priority
    ensures var u := Promoted(v, k, b); var j := BubbleTo(v.children, b.priority, k);
      u.(children := u.children[j := c]) == Promoted(v, k, c)
  {
    var j := BubbleTo(v.children, b.priority, k);
    assert MoveTo(v.children[k := b], k, j)[j := c] == MoveTo(v.children[k := c], k, j);
  }

  lemma WalkedOn(n: Tree, path: string, rest: string, d: RouteData)
    requires n.priority >= 2 && Branch(Before(n))
    requires Lcp(path, n.path) == |n.path| < |path| && rest == path[|n.path|..]
    ensures Walk(Before(n), path, d) == if IsWild(rest[0]) then WalkedMark(n, rest, d) else WalkedByte(n, rest, d)
  {
    var t := Before(n);
    BytesOf(t);
    WalkedFrom(t, n, path, rest, d);
  }

  lemma {:induction false} WildOf(t: Tree)
    requires Branch(t) && t.wild.Some?
    ensures Wildcard(t.wild.value)
  {
    assert Shape(t);
  }

  lemma {:induction false} BytesOf(t: Tree)
    requires Branch(t)
    ensures t.kind != Param && |t.indices| == |t.children|
    ensures forall k | 0 <= k < |t.children| :: Child(t.children[k], t.indices[k])
  {
    assert Shape(t);
  }

  lemma {:induction false} RaisedThen(v: Tree, k: nat, rest: string, d: RouteData)
    requires k < |v.children| && k < |v.indices| && v.children[k].priority >= 1
    requires Walkable(v.children[k], rest) && Walk(v.children[k], rest, d).Some?
    ensures var c, w := v.children[k], Walk(v.children[k], rest, d).value;
      var u, j := Promoted(v, k, c.(priority := c.priority + 1)), BubbleTo(v.children, c.priority + 1, k);
      u.(children := u.children[j := w]) == Promoted(v, k, w)
  {
    var c := v.children[k];
    WalkShape(c, rest, d);
    PromotedThen(v, k, c.(priority := c.priority + 1), Walk(c, rest, d).value);
  }

  /** A first route does not outrank siblings that hold routes already. */
  lemma {:induction false} NoBubble(v: Tree, b: char, u: Tree)
    requires |v.indices| == |v.children| && forall i | 0 <= i < |v.children| :: v.children[i].priority >= 1
    requires var w := v.(indices := v.indices + [b], children := v.children + [Blank(0)]);
      u == Promoted(w, |v.children|, Blank(1))
    ensures BubbleTo(v.children + [Blank(0)], 1, |v.children|) == |v.children|
    ensures u == v.(indices := v.indices + [b], children := v.children + [Blank(1)])
  {
    var cs := v.children + [Blank(0)];
    assert |v.children| > 0 ==> cs[|v.children| - 1] == v.children[|v.children| - 1];
    assert MoveTo(cs[|v.children| := Blank(1)], |v.children|, |v.children|) == v.children + [Blank(1)];
    assert MoveTo(v.indices + [b], |v.children|, |v.children|) == v.indices + [b];
  }

  /** The value of a node before its priority was raised for the route being added. */
  function Before(v: Tree): Tree
    requires v.priority >= 1
  {
    v.(priority := v.priority - 1)
  }

  lemma ReorderedIndices(s: string, from: nat, to: nat)
    requires to <= from < |s|
    ensures MoveTo(s, from, to) == if to == from then s else s[..to] + s[from..from + 1] + s[to..from] + s[from + 1..]
  {
  }

  /** insertChild when the first wildcard is badly named, or a parameter. */
  lemma InsertColon(n: Tree, path: string, at: nat, wildcard: string, d: RouteData)
    requires at == FirstWild(path) < |path|
    requires wildcard == path[at..][..IndexOf(path[at..], '/')]
    ensures |wildcard| >= 1 && wildcard[0] == path[at]
    ensures !Plain(wildcard[1..]) || |wildcard| < 2 ==> InsertChild(n, path, d).None?
    ensures path[at] == ':' ==> (
      InsertChild(n, path, d) == match ParamChain(path[at..], d)
        case None => None
        case Some(w) => Some(n.(path := if at > 0 then path[..at] else n.path, wild := Some(w))))
  {
    var name := path[at..];
    if |wildcard| < |name| {
      assert name[|wildcard|] == '/';
    } else {
      assert wildcard == name;
    }
  }

  /** The two nodes of a catch-all, as a value. */
  function StarNodes(leaf: string, d: RouteData): Tree {
    Tree("", "", [Tree(leaf, "", [], None, CatchAll, 1, Some(d))], None, CatchAll, 1, None)
  }

  /** insertChild when the first wildcard is a star. */
  lemma {:induction false} InsertStar(n: Tree, path: string, at: nat, wildcard: string, d: RouteData)
    requires at == FirstWild(path) < |path| && path[at] != ':'
    requires wildcard == path[at..][..IndexOf(path[at..], '/')] && Plain(wildcard[1..]) && |wildcard| >= 2
    ensures InsertChild(n, path, d) ==
      if at + |wildcard| != |path| || (|n.path| > 0 && n.path[|n.path| - 1] == '/') ||
         at == 0 || path[at - 1] != '/' then None
      else Some(n.(path := path[..at - 1], wild := Some(StarNodes(path[at - 1..], d))))
  {
    var name := path[at..];
    assert at + |wildcard| == |path| ==> wildcard == name;
    assert at + |wildcard| != |path| ==> name[|wildcard|] == '/' && '/' in name;
  }
}
