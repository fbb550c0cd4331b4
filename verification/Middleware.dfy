/**
 Middleware stacks of mux.go. A sub-router is a copy of its parent's struct, so both hold slices
 of one backing array, and append may write where the other has already been.
 */
module Middleware {
  import opened Paths

  /** A middleware or handler, known by a number. */
  type Handler = int

  /** A Go slice from the start of its array; the capacity is the array's length. */
  datatype Slice = Slice(arr: array<Handler>, len: nat)

  ghost predicate InArray(s: Slice) {
    s.len <= s.arr.Length
  }

  ghost function Elements(s: Slice): seq<Handler>
    requires InArray(s)
    reads s.arr
  {
    s.arr[..s.len]
  }

  /** An append of xs stays in the array. */
  predicate Room(s: Slice, xs: seq<Handler>) {
    s.len + |xs| <= s.arr.Length
  }

  /** make([]T, 0, cap) */
  method Make(cap: nat) returns (s: Slice)
    ensures InArray(s) && fresh(s.arr) && s.len == 0 && s.arr.Length == cap
  {
    var arr := new Handler[cap];
    s := Slice(arr, 0);
  }

  /** What an append leaves at place i of the old array. */
  function Written(s: Slice, was: Handler, xs: seq<Handler>, i: nat): Handler {
    if Room(s, xs) && s.len <= i < s.len + |xs| then xs[i - s.len] else was
  }

  /** append: in place when the capacity suffices, else into a larger array of any size. */
  method Append(s: Slice, xs: seq<Handler>) returns (r: Slice)
    requires InArray(s)
    modifies s.arr
    ensures InArray(r) && Elements(r) == old(Elements(s)) + xs
    ensures if Room(s, xs) then r.arr == s.arr else fresh(r.arr)
    ensures forall i | 0 <= i < s.arr.Length :: s.arr[i] == Written(s, old(s.arr[i]), xs, i)
  {
    var n := s.len + |xs|;
    var arr := s.arr;
    if n > s.arr.Length {
      var cap: nat :| cap >= n;
      arr := new Handler[cap];
      forall i | 0 <= i < s.len {
        arr[i] := s.arr[i];
      }
    }
    forall i | 0 <= i < |xs| {
      arr[s.len + i] := xs[i];
    }
    r := Slice(arr, n);
    assert arr[..n] == old(s.arr[..s.len]) + xs;
  }

  /** The flat chain in a fresh array of just the right size. */
  method Flatten(uses: seq<Handler>, inlines: seq<Handler>, h: Handler) returns (chain: seq<Handler>)
    ensures chain == uses + inlines + [h]
  {
    var all := Make(|uses| + |inlines| + 1);
    all := Append(all, uses);
    all := Append(all, inlines);
    all := Append(all, [h]);
    chain := all.arr[..all.len];
  }

  // ---- paths ----

  function JoinPath(prefix: string, path: string): string {
    if prefix == "" then path
    else if path == "" then prefix
    else if EndsInSlash(prefix) && StartsWithSlash(path) then prefix + path[1..]
    else if !EndsInSlash(prefix) && !StartsWithSlash(path) then prefix + "/" + path
    else prefix + path
  }

  function Trimmed(s: string): string {
    if EndsInSlash(s) then s[..|s| - 1] else s
  }

  function Led(s: string): string {
    if StartsWithSlash(s) then s[1..] else s
  }

  /** Two non-empty parts meet at one slash, counting the one either of them may bring. */
  lemma JoinPathMeets(a: string, b: string)
    requires a != "" && b != ""
    ensures JoinPath(a, b) == Trimmed(a) + "/" + Led(b)
  {
    if EndsInSlash(a) {
      assert a == Trimmed(a) + "/";
    } else if StartsWithSlash(b) {
      assert a + b == a + "/" + b[1..];
    }
  }

  /** The empty path is the unit of joining. */
  lemma JoinPathUnit(a: string)
    ensures JoinPath(a, "") == a && JoinPath("", a) == a
  {
  }

  lemma TrimmedTail(x: string, y: string)
    requires y != ""
    ensures Trimmed(x + y) == x + Trimmed(y)
  {
    assert (x + y)[|x + y| - 1] == y[|y| - 1];
    assert (x + y)[..|x + y| - 1] == x + y[..|y| - 1];
  }

  lemma LedHead(x: string, y: string)
    requires x != ""
    ensures Led(x + y) == Led(x) + y
  {
    assert (x + y)[1..] == x[1..] + y;
  }

  /** Nested Route prefixes join alike whichever way they are grouped. */
  lemma JoinPathNests(a: string, b: string, c: string)
    ensures JoinPath(JoinPath(a, b), c) == JoinPath(a, JoinPath(b, c))
  {
    if a != "" && b != "" && c != "" {
      JoinPathMeets(a, b);
      JoinPathMeets(b, c);
      JoinPathMeets(JoinPath(a, b), c);
      JoinPathMeets(a, JoinPath(b, c));
      MiddlePart(Trimmed(a), b, Led(c));
    }
  }

  lemma MiddlePart(x: string, b: string, z: string)
    requires b != ""
    ensures Trimmed(x + "/" + Led(b)) + "/" + z == x + "/" + Led(Trimmed(b) + "/" + z)
  {
    if b == "/" {
      LoneSlash(x, z);
    } else {
      var m := Trimmed(Led(b));
      TrimmedLed(b);
      TrimmedTail(x + "/", Led(b));
      assert Trimmed(b) + "/" + z == Trimmed(b) + ("/" + z);
      LedHead(Trimmed(b), "/" + z);
      Regroup(x, m, z);
    }
  }

  lemma LoneSlash(x: string, z: string)
    ensures Trimmed(x + "/" + Led("/")) + "/" + z == x + "/" + Led(Trimmed("/") + "/" + z)
  {
    assert Led("/") == "" && Trimmed("/") == "";
    assert Trimmed(x + "/" + "") == x;
    assert Led("" + "/" + z) == z;
  }

  lemma TrimmedLed(b: string)
    requires b != "" && b != "/"
    ensures Trimmed(b) != "" && Led(b) != "" && Trimmed(Led(b)) == Led(Trimmed(b))
  {
    if |b| > 1 {
      assert b[1..][..|b| - 2] == b[..|b| - 1][1..];
    }
  }

  lemma Regroup(x: string, m: string, z: string)
    ensures (x + "/" + m) + "/" + z == x + "/" + (m + ("/" + z))
  {
  }

  // ---- routers ----

  datatype Route = Route(path: string, chain: seq<Handler>)

  class Mux {
    var middlewares: Slice
    var inlineMiddlewares: Slice
    var prefix: string

    ghost predicate Ok()
      reads this
    {
      InArray(middlewares) && InArray(inlineMiddlewares) && middlewares.arr != inlineMiddlewares.arr
    }

    ghost function Uses(): seq<Handler>
      requires Ok()
      reads this, middlewares.arr
    {
      Elements(middlewares)
    }

    ghost function Inlines(): seq<Handler>
      requires Ok()
      reads this, inlineMiddlewares.arr
    {
      Elements(inlineMiddlewares)
    }

    /** newRouter, whose middleware slice starts with a capacity of fifteen. */
    constructor ()
      ensures Ok() && Uses() == [] && Inlines() == [] && prefix == ""
      ensures fresh(middlewares.arr) && fresh(inlineMiddlewares.arr) && middlewares.arr.Length == 15
    {
      var a := new Handler[15];
      var b := new Handler[0];
      middlewares := Slice(a, 0);
      inlineMiddlewares := Slice(b, 0);
      prefix := "";
    }

    /** newMux := *s, before With replaces the inline slice. */
    constructor Sharing(s: Mux, inline: Slice)
      requires s.Ok() && InArray(inline) && inline.arr != s.middlewares.arr
      ensures Ok() && middlewares == s.middlewares && inlineMiddlewares == inline && prefix == s.prefix
    {
      middlewares := s.middlewares;
      inlineMiddlewares := inline;
      prefix := s.prefix;
    }

    method Use(mws: seq<Handler>)
      requires Ok()
      modifies this, middlewares.arr
      ensures Ok() && Uses() == old(Uses()) + mws && prefix == old(prefix)
      ensures inlineMiddlewares == old(inlineMiddlewares)
      ensures middlewares.len == old(middlewares.len) + |mws|
      ensures if Room(old(middlewares), mws) then middlewares.arr == old(middlewares.arr) else fresh(middlewares.arr)
      ensures var s := old(middlewares);
        forall i | 0 <= i < s.arr.Length :: s.arr[i] == Written(s, old(middlewares.arr[i]), mws, i)
    {
      middlewares := Append(middlewares, mws);
    }

    method With(mws: seq<Handler>) returns (m: Mux)
      requires Ok()
      ensures fresh(m) && m.Ok() && m.middlewares == middlewares && m.prefix == prefix
      ensures fresh(m.inlineMiddlewares.arr) && m.Inlines() == Inlines() + mws
    {
      var inline := Make(inlineMiddlewares.len + |mws|);
      inline := Append(inline, inlineMiddlewares.arr[..inlineMiddlewares.len]);
      inline := Append(inline, mws);
      m := new Mux.Sharing(this, inline);
    }

    /** Route and Group make their router with With; Route also extends the prefix. */
    method Child(pattern: string, mws: seq<Handler>) returns (m: Mux)
      requires Ok()
      ensures fresh(m) && m.Ok() && m.middlewares == middlewares && m.prefix == JoinPath(prefix, pattern)
      ensures fresh(m.inlineMiddlewares.arr) && m.Inlines() == Inlines() + mws
    {
      m := With(mws);
      if pattern != "" {
        if m.prefix != "" {
          m.prefix := JoinPath(m.prefix, pattern);
        } else {
          m.prefix := pattern;
        }
      }
    }

    /** The path and the flat chain that method puts into the tree. */
    method Register(path: string, h: Handler) returns (r: Route)
      requires Ok()
      ensures r == Route(JoinPath(prefix, path), Uses() + Inlines() + [h])
    {
      var full := path;
      if prefix != "" {
        full := JoinPath(prefix, path);
      }
      var chain := Flatten(middlewares.arr[..middlewares.len], inlineMiddlewares.arr[..inlineMiddlewares.len], h);
      r := Route(full, chain);
    }
  }

  // ---- programs in nested-callback order ----

  /** What a callback does with its router; Scope is Route, Group or With around another callback. */
  datatype Command =
    | Use(mws: seq<Handler>)
    | Handle(path: string, h: Handler)
    | Scope(pattern: string, mws: seq<Handler>, body: seq<Command>)

  /** The middlewares that one command adds to its own router. */
  function Adds(c: Command): seq<Handler> {
    if c.Use? then c.mws else []
  }

  /** The middlewares that the commands add to their own router. */
  function Used(cmds: seq<Command>): seq<Handler> {
    if cmds == [] then [] else Adds(cmds[0]) + Used(cmds[1..])
  }

  /** The routes as the nesting reads: enclosing Use lists, then inline middlewares, then the handler. */
  function Routes(cmds: seq<Command>, prefix: string, uses: seq<Handler>, inlines: seq<Handler>): seq<Route>
    decreases cmds
  {
    if cmds == [] then [] else
      RoutesOf(cmds[0], prefix, uses, inlines) + Routes(cmds[1..], prefix, uses + Adds(cmds[0]), inlines)
  }

  function RoutesOf(c: Command, prefix: string, uses: seq<Handler>, inlines: seq<Handler>): seq<Route>
    decreases c
  {
    match c
    case Use(_) => []
    case Handle(path, h) => [Route(JoinPath(prefix, path), uses + inlines + [h])]
    case Scope(pattern, mws, body) => Routes(body, JoinPath(prefix, pattern), uses, inlines + mws)
  }

  /** Whatever is used on a router, or on one around it, before a route is registered runs first; the handler runs last. */
  lemma {:induction false} EveryChain(cmds: seq<Command>, prefix: string, uses: seq<Handler>, inlines: seq<Handler>)
    ensures forall r | r in Routes(cmds, prefix, uses, inlines) ::
      uses <= r.chain && r.chain != [] && Handles(cmds, r.chain[|r.chain| - 1]) && |r.chain| > |uses| + |inlines|
    decreases cmds
  {
    if cmds != [] {
      var c, more := cmds[0], uses + Adds(cmds[0]);
      if c.Scope? {
        EveryChain(c.body, JoinPath(prefix, c.pattern), uses, inlines + c.mws);
      }
      EveryChain(cmds[1..], prefix, more, inlines);
      forall r | r in Routes(cmds, prefix, uses, inlines)
        ensures uses <= r.chain && r.chain != [] && Handles(cmds, r.chain[|r.chain| - 1])
        ensures |r.chain| > |uses| + |inlines|
      {
        assert r in RoutesOf(c, prefix, uses, inlines) || r in Routes(cmds[1..], prefix, more, inlines);
        assert uses <= more;
      }
    }
  }

  /** Some command, at any depth, registers the handler. */
  predicate Handles(cmds: seq<Command>, h: Handler)
    decreases cmds
  {
    cmds != [] &&
    (Handles(cmds[1..], h) ||
     match cmds[0]
     case Use(_) => false
     case Handle(_, g) => g == h
     case Scope(_, _, body) => Handles(body, h))
  }

  /** What a callback leaves of its router: the list grows, and nothing that was listed is overwritten. */
  twostate predicate Grown(r: Mux, was: Slice, mws: seq<Handler>)
    requires old(r.Ok()) && was == old(r.middlewares)
    reads r, r.middlewares.arr, r.inlineMiddlewares.arr, was.arr
  {
    && r.Ok()
    && r.prefix == old(r.prefix)
    && r.inlineMiddlewares == old(r.inlineMiddlewares) && r.Inlines() == old(r.Inlines())
    && r.Uses() == old(r.Uses()) + mws
    && (r.middlewares.arr == was.arr || fresh(r.middlewares.arr))
    && was.arr[..was.len] == old(was.arr[..was.len])
  }

  /** Running the commands on a router registers exactly those routes, whatever append does. */
  method Execute(cmds: seq<Command>, r: Mux) returns (log: seq<Route>)
    requires r.Ok()
    modifies r, r.middlewares.arr
    ensures Grown(r, old(r.middlewares), Used(cmds))
    ensures log == Routes(cmds, old(r.prefix), old(r.Uses()), old(r.Inlines()))
    decreases cmds
  {
    if cmds == [] {
      return [];
    }
    var first := Run(cmds[0], r);
    label Ran:
    var rest := Execute(cmds[1..], r);
    log := first + rest;
  }

  method Run(c: Command, r: Mux) returns (log: seq<Route>)
    requires r.Ok()
    modifies r, r.middlewares.arr
    ensures Grown(r, old(r.middlewares), Adds(c))
    ensures log == RoutesOf(c, old(r.prefix), old(r.Uses()), old(r.Inlines()))
    decreases c
  {
    log := [];
    match c {
      case Use(mws) =>
        r.Use(mws);
      case Handle(path, h) =>
        var route := r.Register(path, h);
        log := [route];
      case Scope(pattern, mws, body) =>
        var m := r.Child(pattern, mws);
        log := Execute(body, m);
    }
  }

  // ---- out of that order ----

  /** Two lists from one place agree as far as both go. */
  predicate Overlap(xs: seq<Handler>, ys: seq<Handler>) {
    forall i | 0 <= i < |xs| && i < |ys| :: xs[i] == ys[i]
  }

  /** A list with ys written over xs is the list with xs exactly when they overlap alike. */
  lemma {:induction false} WrittenOver(c: seq<Handler>, was: seq<Handler>, xs: seq<Handler>, ys: seq<Handler>)
    requires |c| == |was| + |xs| && forall i | 0 <= i < |was| :: c[i] == was[i]
    requires forall i | 0 <= i < |xs| :: c[|was| + i] == if i < |ys| then ys[i] else xs[i]
    ensures c == was + xs <==> Overlap(xs, ys)
  {
    assert forall i | 0 <= i < |xs| :: (was + xs)[|was| + i] == xs[i];
    if Overlap(xs, ys) {
      forall i | 0 <= i < |c| ensures c[i] == (was + xs)[i] {
        if i >= |was| {
          assert c[|was| + (i - |was|)] == xs[i - |was|];
        }
      }
    }
  }

  /** The parent's turn: what its append leaves of the child's list. */
  method ParentUses(parent: Mux, child: Mux, ghost xs: seq<Handler>, ys: seq<Handler>)
    requires parent.Ok() && child.Ok() && parent != child && parent.middlewares.arr != child.inlineMiddlewares.arr
    requires child.Uses() == parent.Uses() + xs
    requires child.middlewares.arr == parent.middlewares.arr <==> Room(parent.middlewares, xs)
    modifies parent, parent.middlewares.arr
    ensures child.Ok() && parent.Ok() && parent.Uses() == old(parent.Uses()) + ys
    ensures child.Uses() == old(parent.Uses()) + xs <==>
      !Room(old(parent.middlewares), xs) || !Room(old(parent.middlewares), ys) || Overlap(xs, ys)
  {
    ghost var s, was, mine := parent.middlewares, parent.Uses(), child.Uses();
    parent.Use(ys);
    ghost var now := child.Uses();
    if Room(s, xs) && Room(s, ys) {
      assert forall i | 0 <= i < |now| :: now[i] == Written(s, mine[i], ys, i);
      OverWritten(s, mine, now, was, xs, ys);
    } else {
      assert forall i | 0 <= i < |now| :: now[i] == mine[i];
    }
  }

  lemma {:induction false} OverWritten(s: Slice, mine: seq<Handler>, now: seq<Handler>, was: seq<Handler>,
      xs: seq<Handler>, ys: seq<Handler>)
    requires mine == was + xs && |now| == |mine| && |was| == s.len && Room(s, ys)
    requires forall i | 0 <= i < |now| :: now[i] == Written(s, mine[i], ys, i)
    ensures now == was + xs <==> Overlap(xs, ys)
  {
    assert forall i | 0 <= i < |xs| :: mine[|was| + i] == xs[i];
    WrittenOver(now, was, xs, ys);
  }

  /**
   A child and then its parent add middlewares: the child's list is what it should be exactly
   when either append left the shared array, or what the two wrote agrees where it overlaps.
   */
  method Fork(parent: Mux, inline: seq<Handler>, xs: seq<Handler>, ys: seq<Handler>) returns (child: Mux)
    requires parent.Ok()
    modifies parent, parent.middlewares.arr
    ensures fresh(child) && child.Ok() && parent.Ok()
    ensures parent.Uses() == old(parent.Uses()) + ys
    ensures child.Uses() == old(parent.Uses()) + xs <==>
      !Room(old(parent.middlewares), xs) || !Room(old(parent.middlewares), ys) || Overlap(xs, ys)
  {
    child := parent.With(inline);
    child.Use(xs);
    assert parent.Uses() == old(parent.Uses());
    ParentUses(parent, child, xs, ys);
  }

  /** So a parent that adds b after its child added a puts b into the child's chain. */
  method UsedOutOfOrder(a: Handler, b: Handler, h: Handler) returns (r: Route)
    ensures r.chain == [b, h]
  {
    var parent := new Mux();
    var child := parent.With([]);
    child.Use([a]);
    parent.Use([b]);
    r := child.Register("/", h);
  }
}
