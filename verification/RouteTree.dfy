/**
 The radix tree of tree.go as a value: nodes, the node invariant, the reading of a tree as a
 set of bound patterns, and the registration functions that the in-place methods of
 TreeNode.dfy are proved against. A byte of a Go string is a char; a panic is None.
 */
module RouteTree {
  import opened Options

  datatype Kind = Static | Root | Param | CatchAll

  datatype RouteData = RouteData(pattern: string, handlers: seq<int>)

  datatype Tree = Tree(
    path: string,
    indices: string,
    children: seq<Tree>,
    wild: Option<Tree>,
    kind: Kind,
    priority: nat,
    data: Option<RouteData>)

  /** new(node) before any registration, and the zero node that a registration fills in. */
  function Blank(priority: nat): Tree {
    Tree("", "", [], None, Static, priority, None)
  }

  // ---- strings ----

  predicate IsWild(c: char) {
    c == ':' || c == '*'
  }

  predicate Plain(s: string) {
    forall i | 0 <= i < |s| :: !IsWild(s[i])
  }

  /** Position of the first c in s, or |s|. */
  function IndexOf(s: string, c: char): (i: nat)
    ensures i <= |s|
    ensures forall j | 0 <= j < i :: s[j] != c
    ensures i < |s| ==> s[i] == c
  {
    if s == "" || s[0] == c then 0 else 1 + IndexOf(s[1..], c)
  }

  /** Position of the first wildcard byte, or |s|. */
  function FirstWild(s: string): (i: nat)
    ensures i <= |s|
    ensures Plain(s[..i])
    ensures i < |s| ==> IsWild(s[i])
  {
    if s == "" || IsWild(s[0]) then 0 else 1 + FirstWild(s[1..])
  }

  /** Length of the longest common prefix. */
  function Lcp(a: string, b: string): (i: nat)
    ensures i <= |a| && i <= |b|
    ensures a[..i] == b[..i]
    ensures i < |a| && i < |b| ==> a[i] != b[i]
    ensures b <= a ==> i == |b|
  {
    if a == "" || b == "" || a[0] != b[0] then 0 else
      var i := 1 + Lcp(a[1..], b[1..]);
      assert a[..i] == [a[0]] + a[1..][..i - 1];
      assert b[..i] == [b[0]] + b[1..][..i - 1];
      i
  }

  // ---- the set of patterns a tree holds ----

  /** Pattern p, read as the concatenated node paths along children and wildChild, carries d. */
  ghost predicate Bound(t: Tree, p: string, d: RouteData)
    decreases t, 1
  {
    && t.path <= p
    && BoundBelow(t, p[|t.path|..], d)
  }

  ghost predicate BoundBelow(t: Tree, q: string, d: RouteData)
    decreases t, 0
  {
    || (q == "" && t.data == Some(d))
    || BoundAny(t.children, q, d)
    || (t.wild.Some? && Bound(t.wild.value, q, d))
  }

  ghost predicate BoundAny(cs: seq<Tree>, q: string, d: RouteData)
    decreases cs, 0
  {
    exists i :: 0 <= i < |cs| && Bound(cs[i], q, d)
  }

  // ---- the node invariant ----

  function PrioSum(cs: seq<Tree>): nat {
    if cs == [] then 0 else cs[0].priority + PrioSum(cs[1..])
  }

  /** Routes held at the node itself, below its children and below its wildcard child. */
  function Weight(t: Tree): nat {
    (if t.data.Some? then 1 else 0) + PrioSum(t.children) + (if t.wild.Some? then t.wild.value.priority else 0)
  }

  predicate Distinct(s: string) {
    forall i, j | 0 <= i < j < |s| :: s[i] != s[j]
  }

  predicate Sorted(cs: seq<Tree>) {
    forall i, j | 0 <= i < j < |cs| :: cs[i].priority >= cs[j].priority
  }

  predicate HoldsCatchAll(t: Tree) {
    t.wild.Some? && t.wild.value.kind == CatchAll
  }

  /** A static or root node, apart from the priority equation. */
  ghost predicate Shape(t: Tree)
    decreases t, 0
  {
    && (t.kind == Static || t.kind == Root)
    && Plain(t.path)
    && |t.indices| == |t.children|
    && Plain(t.indices)
    && Distinct(t.indices)
    && Sorted(t.children)
    && (forall i :: 0 <= i < |t.children| ==> Child(t.children[i], t.indices[i]))
    && (t.wild.Some? ==> Wildcard(t.wild.value))
    && (HoldsCatchAll(t) ==> t.children == [])
  }

  ghost predicate Branch(t: Tree)
    decreases t, 1
  {
    Shape(t) && t.priority == Weight(t)
  }

  /** A static child listed in its parent's indices under byte c. */
  ghost predicate Child(t: Tree, c: char)
    decreases t, 2
  {
    && Branch(t)
    && t.kind == Static
    && t.priority >= 1
    && (if t.path == "" then c == '/' && HoldsCatchAll(t) && t.data.None? else t.path[0] == c)
  }

  predicate ParamPath(s: string) {
    |s| >= 2 && s[0] == ':' && Plain(s[1..]) && '/' !in s
  }

  ghost predicate ParamNode(t: Tree)
    decreases t, 3
  {
    && t.kind == Param
    && ParamPath(t.path)
    && t.wild.None?
    && |t.children| <= 1
    && (t.indices == "" || t.indices == "/")
    && |t.indices| <= |t.children|
    && (|t.children| == 1 ==> Child(t.children[0], '/'))
    && t.priority == Weight(t) >= 1
  }

  /** The two nodes of a catch-all: an empty one, and the one holding slash, star and name. */
  ghost predicate CatchAllNode(t: Tree) {
    && t.kind == CatchAll
    && t.path == t.indices == ""
    && t.wild.None? && t.data.None?
    && |t.children| == 1
    && t.priority == 1
    && var leaf := t.children[0];
    && leaf.kind == CatchAll
    && |leaf.path| >= 3 && leaf.path[0] == '/' && leaf.path[1] == '*' && Plain(leaf.path[2..]) && '/' !in leaf.path[1..]
    && leaf.indices == "" && leaf.children == [] && leaf.wild.None? && leaf.data.Some? && leaf.priority == 1
  }

  ghost predicate Wildcard(t: Tree)
    decreases t, 4
  {
    if t.kind == Param then ParamNode(t) else CatchAllNode(t)
  }

  /** What every tree built by registrations satisfies at its root. */
  ghost predicate Valid(t: Tree) {
    && Branch(t)
    && (t.path == "" ==> t.data.None?)
    && t.kind == (if t.priority == 0 then Static else Root)
    && (t.path != "" ==> t.priority >= 1)
  }

  // ---- registration ----

  /** insertChild on a node; the loop over wildcards is the recursion through ParamChain. */
  function InsertChild(n: Tree, path: string, d: RouteData): Option<Tree>
    decreases |path|, 1
  {
    var i := FirstWild(path);
    if i == |path| then
      Some(n.(path := path, data := Some(d)))
    else if path[i] == ':' then
      match ParamChain(path[i..], d)
      case None => None
      case Some(w) => Some(n.(path := if i > 0 then path[..i] else n.path, wild := Some(w)))
    else
      var name := path[i..];
      if '/' in name || !Plain(name[1..]) || |name| < 2 ||
         (n.path != "" && n.path[|n.path| - 1] == '/') || i == 0 || path[i - 1] != '/' then
        None
      else
        var leaf := Tree(path[i - 1..], "", [], None, CatchAll, 1, Some(d));
        Some(n.(path := path[..i - 1], wild := Some(Tree("", "", [leaf], None, CatchAll, 1, None))))
  }

  /** The param node for a path that starts with ':', with what follows it below. */
  function ParamChain(path: string, d: RouteData): Option<Tree>
    requires path != "" && path[0] == ':'
    decreases |path|, 0
  {
    var end := IndexOf(path, '/');
    var name := path[..end];
    if !Plain(name[1..]) || |name| < 2 then
      None
    else if end == |path| then
      Some(Tree(name, "", [], None, Param, 1, Some(d)))
    else
      match InsertChild(Blank(1), path[end..], d)
      case None => None
      case Some(c) => Some(Tree(name, "", [c], None, Param, 1, None))
  }

  function Split(t: Tree, i: nat): Tree
    requires i < |t.path|
  {
    Tree(t.path[..i], [t.path[i]], [t.(path := t.path[i..], kind := Static)], None, t.kind, t.priority + 1, None)
  }

  /** Where a child whose priority has become prio ends up when it moves forward from pos. */
  function BubbleTo(cs: seq<Tree>, prio: nat, pos: nat): (j: nat)
    requires pos <= |cs|
    ensures j <= pos
  {
    if pos > 0 && cs[pos - 1].priority < prio then BubbleTo(cs, prio, pos - 1) else pos
  }

  function MoveTo<T>(s: seq<T>, from: nat, to: nat): (r: seq<T>)
    requires to <= from < |s|
    ensures |r| == |s|
  {
    s[..to] + [s[from]] + s[to..from] + s[from + 1..]
  }

  /** Hangs the rest of a path under a node that has nothing for it yet. */
  function AddBelow(n: Tree, rest: string, d: RouteData): Option<Tree> {
    if rest == "" then
      Some(n.(data := Some(d)))
    else if IsWild(rest[0]) then
      InsertChild(n, rest, d)
    else if HoldsCatchAll(n) then
      None
    else
      match InsertChild(Blank(1), rest, d)
      case None => None
      case Some(c) => Some(n.(indices := n.indices + [rest[0]], children := n.children + [c]))
  }

  /** Whether a path that starts with a wildcard byte may be walked into wildcard node w. */
  predicate Compatible(w: Tree, path: string) {
    && w.path <= path
    && w.kind != CatchAll
    && (|w.path| == |path| || path[|w.path|] == '/')
  }

  /** The walk loop of addRoute: t is the current node, before its priority is raised. */
  function Walk(t: Tree, path: string, d: RouteData): Option<Tree>
    decreases t
  {
    var i := Lcp(path, t.path);
    var rest := path[i..];
    var n := t.(priority := t.priority + 1);
    if i < |t.path| then
      AddBelow(Split(t, i), rest, d)
    else if rest == "" then
      if t.data.Some? then None else Some(n.(data := Some(d)))
    else if IsWild(rest[0]) && t.wild.Some? then
      if !Compatible(t.wild.value, rest) then None else
        match Walk(t.wild.value, rest, d)
        case None => None
        case Some(w) => Some(n.(wild := Some(w)))
    else if t.kind == Param && rest[0] == '/' && |t.children| == 1 then
      match Walk(t.children[0], rest, d)
      case None => None
      case Some(c) => Some(n.(children := [c]))
    else
      var k := IndexOf(t.indices, rest[0]);
      if !IsWild(rest[0]) && k < |t.indices| && k < |t.children| then
        match Walk(t.children[k], rest, d)
        case None => None
        case Some(c) => Some(Promoted(n, k, c))
      else
        AddBelow(n, rest, d)
  }

  /** Child k replaced by c and moved in front of the siblings it now outranks. */
  function Promoted(n: Tree, k: nat, c: Tree): Tree
    requires k < |n.children| && k < |n.indices|
  {
    var j := BubbleTo(n.children, c.priority, k);
    n.(children := MoveTo(n.children[k := c], k, j), indices := MoveTo(n.indices, k, j))
  }

  function AddRoute(t: Tree, path: string, d: RouteData): Option<Tree> {
    if t.path == "" && t.children == [] && t.wild.None? then
      match InsertChild(t.(priority := t.priority + 1), path, d)
      case None => None
      case Some(u) => Some(u.(kind := Root))
    else
      Walk(t, path, d)
  }

  /** The tree left by registering the routes in order, when no registration panics. */
  function Build(routes: seq<(string, RouteData)>): Option<Tree> {
    if routes == [] then Some(Blank(0)) else
      match Build(routes[..|routes| - 1])
      case None => None
      case Some(t) => AddRoute(t, routes[|routes| - 1].0, routes[|routes| - 1].1)
  }
}
