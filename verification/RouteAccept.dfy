/**
 Which registrations are accepted, in terms of the patterns and the loose catch-alls alone.
 */
module RouteAccept {
  import opened Options
  import opened RouteTree
  import opened RouteTreeAdd
  import opened RouteLookup

  /** The text up to the next slash. */
  function Segment(p: string): string {
    p[..IndexOf(p, '/')]
  }

  predicate Starred(p: string) {
    IndexOf(p, '*') < |p|
  }

  /** A star, and a name without another wildcard byte or a slash. */
  predicate StarName(s: string) {
    |s| >= 2 && s[0] == '*' && Plain(s[1..]) && '/' !in s
  }

  /** Every parameter and catch-all is well named, and a catch-all ends the pattern after a slash. */
  predicate Good(p: string)
    decreases |p|, 1
  {
    var i := FirstWild(p);
    i == |p| || (if p[i] == ':' then GoodParams(p[i..]) else i > 0 && p[i - 1] == '/' && StarName(p[i..]))
  }

  predicate GoodParams(p: string)
    requires p != ""
    decreases |p|, 0
  {
    p[0] == ':' && ParamPath(Segment(p)) && Good(p[|Segment(p)|..])
  }

  /** Two patterns agree up to a parameter and name it differently. */
  ghost predicate ClashAt(k: string, p: string, i: nat) {
    && i < |k| && i < |p|
    && k[..i] == p[..i]
    && k[i] == ':' && p[i] == ':'
    && Segment(k[i..]) != Segment(p[i..])
  }

  ghost predicate Clash(k: string, p: string) {
    exists i: nat :: ClashAt(k, p, i)
  }

  /** Pattern p goes on where k has its catch-all. */
  predicate StarClash(k: string, p: string) {
    Starred(k) && k[..IndexOf(k, '*')] <= p
  }

  /** Pattern p goes on from where the catch-all of k has its slash. */
  predicate LooseClash(k: string, p: string) {
    var i := IndexOf(k, '*');
    Starred(k) && i >= 1 && k[i - 1] == '/' && k[..i - 1] <= p && |p| >= i
  }

  ghost predicate Against(k: string, p: string) {
    Clash(k, p) || StarClash(k, p) || StarClash(p, k)
  }

  /** Nothing in the table s, whose loose catch-alls are those of l, is in the way of p. */
  ghost predicate Free(s: Table, l: Table, p: string) {
    && p !in s
    && (forall k | k in s :: !Against(k, p))
    && (forall k | k in l :: !LooseClash(k, p))
  }

  // ---- how Good and Clash follow the walk ----

  lemma {:induction false} ClashSymmetric(k: string, p: string)
    ensures Clash(k, p) <==> Clash(p, k)
  {
    if i: nat :| ClashAt(k, p, i) {
      assert ClashAt(p, k, i);
    }
    if i: nat :| ClashAt(p, k, i) {
      assert ClashAt(k, p, i);
    }
  }

  lemma {:induction false} GoodPlain(w: string, p: string)
    requires Plain(w) && (p == "" || p[0] != '*')
    ensures Good(w + p) <==> Good(p)
  {
    var i, j := FirstWild(w + p), FirstWild(p);
    FirstWildPlain(w, p);
    assert (w + p)[i..] == p[j..];
    assert j > 0 ==> (w + p)[i - 1] == p[j - 1];
  }

  lemma {:induction false} FirstWildPlain(w: string, p: string)
    requires Plain(w)
    ensures FirstWild(w + p) == |w| + FirstWild(p)
  {
    if w == "" {
      assert w + p == p;
    } else {
      assert (w + p)[1..] == w[1..] + p;
      FirstWildPlain(w[1..], p);
    }
  }

  lemma {:induction false} GoodParam(w: string, p: string)
    requires ParamPath(w) && (p == "" || p[0] == '/')
    ensures Good(w + p) <==> Good(p)
  {
    SegmentEnd(w, w + p);
    assert (w + p)[0..] == w + p;
    assert (w + p)[|w|..] == p;
  }

  lemma {:induction false} ClashPlain(w: string, k: string, p: string)
    requires Plain(w)
    ensures Clash(w + k, w + p) <==> Clash(k, p)
  {
    if i: nat :| ClashAt(k, p, i) {
      ClashShift(w, k, p, i);
    }
    if i: nat :| ClashAt(w + k, w + p, i) {
      ClashPast(w, w + k, w + p, i);
      ClashShift(w, k, p, i - |w|);
    }
  }

  lemma {:induction false} ClashShift(w: string, k: string, p: string, i: nat)
    ensures ClashAt(w + k, w + p, |w| + i) <==> ClashAt(k, p, i)
  {
    if i < |k| && i < |p| {
      Shifted(w, k, i);
      Shifted(w, p, i);
      assert (w + k[..i])[|w|..] == k[..i] && (w + p[..i])[|w|..] == p[..i];
    }
  }

  lemma {:induction false} Shifted(w: string, k: string, i: nat)
    requires i <= |k|
    ensures (w + k)[|w| + i..] == k[i..] && (w + k)[..|w| + i] == w + k[..i]
  {
  }

  lemma {:induction false} ClashParam(w: string, k: string, p: string)
    requires ParamPath(w) && (k == "" || k[0] == '/') && (p == "" || p[0] == '/')
    ensures Clash(w + k, w + p) <==> Clash(k, p)
  {
    if i: nat :| ClashAt(k, p, i) {
      ClashShift(w, k, p, i);
    }
    if i: nat :| ClashAt(w + k, w + p, i) {
      ClashPastParam(w, k, p, i);
      ClashShift(w, k, p, i - |w|);
    }
  }

  lemma {:induction false} ClashPastParam(w: string, k: string, p: string, i: nat)
    requires ParamPath(w) && (k == "" || k[0] == '/') && (p == "" || p[0] == '/')
    requires ClashAt(w + k, w + p, i)
    ensures i >= |w|
  {
    SegmentEnd(w, w + k);
    SegmentEnd(w, w + p);
    assert (w + k)[0..] == w + k && (w + p)[0..] == w + p;
    assert forall j | 1 <= j < |w| :: (w + k)[j] == w[1..][j - 1];
  }

  lemma {:induction false} ClashHead(k: string, p: string)
    requires k != "" && p != "" && k[0] != p[0]
    ensures !Clash(k, p)
  {
    if i: nat :| ClashAt(k, p, i) {
      assert i > 0 ==> k[..i][0] == k[0] && p[..i][0] == p[0];
    }
  }

  lemma {:induction false} ClashOff(w: string, k: string, p: string)
    requires Plain(w) && w <= k && !(w <= p)
    ensures !Clash(k, p)
  {
    if i: nat :| ClashAt(k, p, i) {
      ClashPast(w, k, p, i);
    }
  }

  lemma {:induction false} ClashPast(w: string, k: string, p: string, i: nat)
    requires Plain(w) && w <= k && ClashAt(k, p, i)
    ensures i >= |w| && w <= p
  {
    assert forall j | 0 <= j < |w| :: k[j] == w[j];
    assert k[..i][..|w|] == w;
  }

  // ---- insertion below a fresh node ----

  lemma {:induction false} StarNames(n: string)
    requires n != "" && n[0] == '*'
    ensures StarName(n) <==> |n| >= 2 && Plain(n[1..]) && '/' !in n
  {
  }

  lemma {:induction false} InsertAccepts(path: string, d: RouteData)
    requires path != "" && path[0] != '*'
    ensures InsertChild(Blank(1), path, d).Some? <==> Good(path)
    decreases |path|, 1
  {
    var i := FirstWild(path);
    if i < |path| {
      if path[i] == ':' {
        ChainAccepts(path[i..], d);
      } else {
        StarNames(path[i..]);
      }
    }
  }

  lemma {:induction false} ChainAccepts(path: string, d: RouteData)
    requires path != "" && path[0] == ':'
    ensures ParamChain(path, d).Some? <==> Good(path)
    decreases |path|, 0
  {
    assert path[0..] == path;
    var end := IndexOf(path, '/');
    assert '/' !in path[..end];
    assert FirstWild(path) == 0;
    if end < |path| {
      InsertAccepts(path[end..], d);
    } else {
      assert path[end..] == "" && Good(path[end..]);
    }
  }

  // ---- the walk ----

  lemma {:induction false} StarShift(w: string, k: string)
    requires '*' !in w
    ensures IndexOf(w + k, '*') == |w| + IndexOf(k, '*')
    ensures Starred(w + k) <==> Starred(k)
  {
    if w == "" {
      assert w + k == k;
    } else {
      assert (w + k)[1..] == w[1..] + k;
      assert w[0] in w && forall c | c in w[1..] :: c in w;
      StarShift(w[1..], k);
    }
  }

  lemma {:induction false} PrefixShift(w: string, k: string, i: nat, p: string)
    requires i <= |k|
    ensures (w + k)[..|w| + i] <= w + p <==> k[..i] <= p
  {
    assert (w + k)[..|w| + i] == w + k[..i];
    if k[..i] <= p {
      assert (w + p)[..|w| + i] == w + p[..i];
    }
    if w + k[..i] <= w + p {
      assert (w + p)[..|w| + i][|w|..] == (w + k[..i])[|w|..];
    }
  }

  lemma {:induction false} StarClashShift(w: string, k: string, p: string)
    requires '*' !in w
    ensures StarClash(w + k, w + p) <==> StarClash(k, p)
  {
    StarShift(w, k);
    PrefixShift(w, k, IndexOf(k, '*'), p);
  }

  lemma {:induction false} LooseClashShift(w: string, k: string, p: string)
    requires '*' !in w
    ensures LooseClash(k, p) ==> LooseClash(w + k, w + p)
    ensures k == "" || k[0] != '*' ==> (LooseClash(w + k, w + p) <==> LooseClash(k, p))
  {
    StarShift(w, k);
    var i := IndexOf(k, '*');
    if i >= 1 {
      PrefixShift(w, k, i - 1, p);
    }
  }

  lemma {:induction false} AgainstPlain(w: string, k: string, p: string)
    requires Plain(w)
    ensures Against(w + k, w + p) <==> Against(k, p)
  {
    PlainStarless(w);
    ClashPlain(w, k, p);
    StarClashShift(w, k, p);
    StarClashShift(w, p, k);
  }

  lemma PlainStarless(w: string)
    requires Plain(w)
    ensures '*' !in w
  {
  }

  lemma ParamStarless(w: string)
    requires ParamPath(w)
    ensures '*' !in w
  {
    assert forall i | 1 <= i < |w| :: w[i] == w[1..][i - 1];
  }

  lemma {:induction false} AgainstParam(w: string, k: string, p: string)
    requires ParamPath(w) && (k == "" || k[0] == '/') && (p == "" || p[0] == '/')
    ensures Against(w + k, w + p) <==> Against(k, p)
  {
    ParamStarless(w);
    ClashParam(w, k, p);
    StarClashShift(w, k, p);
    StarClashShift(w, p, k);
  }

  lemma {:induction false} AgainstHead(k: string, p: string)
    requires p != "" && p[0] != '*' && (k == "" || (k[0] != p[0] && k[0] != '*'))
    ensures !Against(k, p) && (LooseClash(k, p) ==> IsOpen(k))
  {
    if k != "" {
      ClashHead(k, p);
      assert IndexOf(k, '*') >= 1 && k[..IndexOf(k, '*')][0] == k[0];
      assert IndexOf(k, '*') >= 2 ==> k[..IndexOf(k, '*') - 1][0] == k[0];
    }
    assert IndexOf(p, '*') >= 1 && p[..IndexOf(p, '*')][0] == p[0];
  }

  /** The table below t for which the rest of a path is free, seen one level down. */
  lemma {:induction false} FreeByHead(s: Table, l: Table, p: string)
    requires p != "" && p[0] != '*' && !HasHead(s, '*') && Part(l, s) && !HasOpen(l)
    ensures Free(s, l, p) <==> Free(ByHead(s, p[0]), ByHead(l, p[0]), p)
  {
    forall k | k in s && (k == "" || k[0] != p[0]) ensures !Against(k, p) && (LooseClash(k, p) ==> IsOpen(k)) {
      AgainstHead(k, p);
    }
  }

  lemma {:induction false} FreeStrip(w: string, s: Table, l: Table, p: string)
    requires Plain(w) && (forall k | k in s :: w <= k) && Part(l, s) && !HasHead(After(s, w), '*')
    ensures Free(s, l, w + p) <==> Free(After(s, w), After(l, w), p)
  {
    var a := After(s, w);
    PlainStarless(w);
    forall k | k in s
      ensures k == w + k[|w|..] && k[|w|..] in a
      ensures Against(k, w + p) <==> Against(k[|w|..], p)
      ensures LooseClash(k, w + p) <==> LooseClash(k[|w|..], p)
    {
      assert k == w + k[|w|..];
      AgainstPlain(w, k[|w|..], p);
      LooseClashShift(w, k[|w|..], p);
    }
    forall q | q in a
      ensures (w + q)[|w|..] == q
    {
    }
    FreeMoved(w, s, l, p);
  }

  lemma {:induction false} FreeMoved(w: string, s: Table, l: Table, p: string)
    requires Part(l, s) && forall k | k in s :: |w| <= |k| && k == w + k[|w|..]
    requires forall k | k in s :: Against(k, w + p) <==> Against(k[|w|..], p)
    requires forall k | k in s :: LooseClash(k, w + p) <==> LooseClash(k[|w|..], p)
    ensures Free(s, l, w + p) <==> Free(After(s, w), After(l, w), p)
  {
    if Free(s, l, w + p) {
      FreeDown(w, s, l, p);
    }
    if Free(After(s, w), After(l, w), p) {
      FreeUp(w, s, l, p);
    }
  }

  lemma {:induction false} FreeDown(w: string, s: Table, l: Table, p: string)
    requires Part(l, s) && Free(s, l, w + p)
    requires forall k | k in s :: |w| <= |k|
    requires forall k | k in s :: Against(k, w + p) <==> Against(k[|w|..], p)
    requires forall k | k in s :: LooseClash(k, w + p) <==> LooseClash(k[|w|..], p)
    ensures Free(After(s, w), After(l, w), p)
  {
    forall q | q in After(s, w) ensures !Against(q, p) {
      assert w + q in s && (w + q)[|w|..] == q;
    }
    forall q | q in After(l, w) ensures !LooseClash(q, p) {
      assert w + q in l && (w + q)[|w|..] == q;
    }
  }

  lemma {:induction false} FreeUp(w: string, s: Table, l: Table, p: string)
    requires Part(l, s) && Free(After(s, w), After(l, w), p)
    requires forall k | k in s :: |w| <= |k| && k == w + k[|w|..]
    requires forall k | k in s :: Against(k, w + p) <==> Against(k[|w|..], p)
    requires forall k | k in s :: LooseClash(k, w + p) <==> LooseClash(k[|w|..], p)
    ensures Free(s, l, w + p)
  {
    forall k | k in s ensures !Against(k, w + p) {
      assert k[|w|..] in After(s, w);
    }
    forall k | k in l ensures !LooseClash(k, w + p) {
      assert k[|w|..] in After(l, w);
    }
  }

  lemma {:induction false} FreeParam(w: Tree, s: Table, l: Table, p: string)
    requires ParamNode(w) && Agrees(w, s) && Part(l, s) && (p == "" || p[0] == '/')
    ensures Free(s, l, w.path + p) <==> Free(After(s, w.path), After(l, w.path), p)
  {
    ParamStarless(w.path);
    forall k | k in s
      ensures |w.path| <= |k| && k == w.path + k[|w.path|..]
      ensures Against(k, w.path + p) <==> Against(k[|w.path|..], p)
      ensures LooseClash(k, w.path + p) <==> LooseClash(k[|w.path|..], p)
    {
      SegmentName(w, s, k);
      AgainstParam(w.path, k[|w.path|..], p);
      LooseClashShift(w.path, k[|w.path|..], p);
    }
    FreeMoved(w.path, s, l, p);
  }

  lemma {:induction false} FreeOff(w: string, s: Table, l: Table, p: string)
    requires Plain(w) && (forall k | k in s :: w <= k) && Part(l, s) && !HasHead(After(s, w), '*')
    requires !(w <= p) && (Lcp(p, w) == |p| || p[Lcp(p, w)] != '*')
    ensures Free(s, l, p)
  {
    forall k | k in s ensures !Against(k, p) && !LooseClash(k, p) && k != p {
      assert k == w + k[|w|..] && k[|w|..] in After(s, w);
      ClashOff(w, k, p);
      StarOff(w, k, k[|w|..], p);
    }
  }

  lemma {:induction false} StarOff(w: string, k: string, q: string, p: string)
    requires Plain(w) && k == w + q && (q == "" || q[0] != '*')
    requires !(w <= p) && (Lcp(p, w) == |p| || p[Lcp(p, w)] != '*')
    ensures !StarClash(k, p) && !StarClash(p, k) && !LooseClash(k, p)
  {
    PlainStarless(w);
    StarShift(w, q);
    var i, j := IndexOf(k, '*'), IndexOf(p, '*');
    assert w <= k[..i] && (q != "" ==> w <= k[..i - 1]);
    if j < |p| && p[..j] <= k {
      StarAtFork(w, k, p);
    }
    PrefixTrans(w, k[..i], p);
    if q != "" {
      PrefixTrans(w, k[..i - 1], p);
    }
  }

  lemma PrefixTrans(w: string, x: string, p: string)
    requires w <= x
    ensures x <= p ==> w <= p
  {
    if x <= p {
      assert p[..|x|][..|w|] == w;
    }
  }

  lemma {:induction false} StarAtFork(w: string, k: string, p: string)
    requires Plain(w) && w <= k && !(w <= p) && Starred(p) && p[..IndexOf(p, '*')] <= k
    ensures Lcp(p, w) == IndexOf(p, '*')
  {
    var i, j := Lcp(p, w), IndexOf(p, '*');
    assert forall m | 0 <= m < j :: p[m] == k[m];
    assert forall m | 0 <= m < |w| :: k[m] == w[m] && !IsWild(w[m]);
    assert forall m | 0 <= m < i :: p[m] == p[..i][m] == w[..i][m];
  }

  lemma {:induction false} CompatibleIffSegment(w: Tree, p: string)
    requires ParamNode(w)
    ensures Compatible(w, p) <==> Segment(p) == w.path
  {
    if Compatible(w, p) {
      SegmentEnd(w.path, p);
    }
    if Segment(p) == w.path {
      assert w.path <= p;
    }
  }

  // ---- the walk ----

  lemma {:induction false} WalkAccepts(t: Tree, s: Table, path: string, d: RouteData)
    requires Walkable(t, path) && Agrees(t, s) && t.priority >= 1 && Entered(t, path)
    ensures Walk(t, path, d).Some? <==> Good(path) && Free(s, LooseTable(t, s), path)
    decreases t, 2
  {
    WalkSteps(t, path);
    WalkParts(t, path);
    StripAgrees(t, s);
    var i := Lcp(path, t.path);
    var rest := path[i..];
    if rest != "" && rest[0] == '*' {
      StarRefused(t, s, path, d);
    } else if i < |t.path| {
      SplitAccepts(t, s, path, d);
    } else {
      assert path == t.path + rest;
      BelowAccepts(t, After(s, t.path), path, d);
      FreeBelow(t, s, rest);
    }
  }

  lemma {:induction false} FreeBelow(t: Tree, s: Table, rest: string)
    requires Walkable(t, t.path) && Agrees(t, s)
    requires rest == "" || (rest[0] != '*' && (t.kind == Param ==> rest[0] == '/'))
    ensures Good(t.path + rest) && Free(s, LooseTable(t, s), t.path + rest) <==>
            Good(rest) && Free(After(s, t.path), LooseBelow(t, After(s, t.path)), rest)
  {
    WalkParts(t, t.path);
    LooseStrip(t, s);
    if t.kind == Param {
      GoodParam(t.path, rest);
      FreeParam(t, s, LooseTable(t, s), rest);
    } else {
      StripAgrees(t, s);
      GoodPlain(t.path, rest);
      NoStarBelow(t, After(s, t.path));
      FreeStrip(t.path, s, LooseTable(t, s), rest);
    }
  }

  lemma {:induction false} BelowAccepts(t: Tree, s: Table, path: string, d: RouteData)
    requires Walkable(t, path) && BelowAgrees(t, s) && t.priority >= 1 && Entered(t, path)
    requires Lcp(path, t.path) == |t.path| && (|path| > |t.path| ==> path[|t.path|] != '*')
    ensures var rest := path[|t.path|..]; Walk(t, path, d).Some? <==> Good(rest) && Free(s, LooseBelow(t, s), rest)
    decreases t, 1, 1
  {
    WalkParts(t, path);
    if |path| == |t.path| {
      DataAccepts(t, s, path, d);
    } else if t.kind == Param {
      ParamAccepts(t, s, path, d);
    } else if HoldsCatchAll(t) {
      HolderRefuses(t, s, path, d);
    } else {
      BranchAccepts(t, s, path, d);
    }
  }

  /** A catch-all right where the tree branches has no slash of its own, and is refused. */
  lemma {:induction false} StarRefused(t: Tree, s: Table, path: string, d: RouteData)
    requires Walkable(t, path) && Agrees(t, s) && t.priority >= 1
    requires Lcp(path, t.path) < |path| && path[Lcp(path, t.path)] == '*'
    ensures Walk(t, path, d).None? && !Free(s, LooseTable(t, s), path)
  {
    WalkParts(t, path);
    WalkSteps(t, path);
    var i := Lcp(path, t.path);
    assert path[i..][0..] == path[i..];
    var k, e := Inhabited(t);
    assert t.path[..i] <= k;
    PlainStarless(t.path[..i]);
    StarShift(path[..i], path[i..]);
    assert path == path[..i] + path[i..] && IndexOf(path[i..], '*') == 0;
    assert StarClash(path, k) && k in s;
  }

  lemma {:induction false} SplitAccepts(t: Tree, s: Table, path: string, d: RouteData)
    requires Branch(t) && Agrees(t, s) && Lcp(path, t.path) < |t.path|
    requires Lcp(path, t.path) == |path| || path[Lcp(path, t.path)] != '*'
    ensures Walk(t, path, d).Some? <==> Good(path) && Free(s, LooseTable(t, s), path)
  {
    SplitFree(t, s, path);
    assert path == path[..Lcp(path, t.path)] + path[Lcp(path, t.path)..];
    SplitGood(t.path[..Lcp(path, t.path)], path[Lcp(path, t.path)..], path);
    AddBelowAccepts(Split(t, Lcp(path, t.path)), path[Lcp(path, t.path)..], d);
  }

  lemma {:induction false} SplitGood(w: string, rest: string, path: string)
    requires Plain(w) && path == w + rest && (rest == "" || rest[0] != '*')
    ensures Good(path) <==> Good(rest)
  {
    GoodPlain(w, rest);
  }

  lemma {:induction false} SplitFree(t: Tree, s: Table, path: string)
    requires Branch(t) && Agrees(t, s) && Lcp(path, t.path) < |t.path|
    requires Lcp(path, t.path) == |path| || path[Lcp(path, t.path)] != '*'
    ensures Free(s, LooseTable(t, s), path) && Plain(t.path)
  {
    Parts(t);
    StripAgrees(t, s);
    NoStarBelow(t, After(s, t.path));
    FreeOff(t.path, s, LooseTable(t, s), path);
  }

  lemma {:induction false} AddBelowAccepts(n: Tree, rest: string, d: RouteData)
    requires (rest == "" || rest[0] != '*') && !HoldsCatchAll(n)
    ensures AddBelow(n, rest, d).Some? <==> Good(rest)
  {
    if rest != "" {
      assert rest[0..] == rest;
      if rest[0] == ':' {
        ChainAccepts(rest, d);
      } else {
        InsertAccepts(rest, d);
      }
    }
  }

  lemma {:induction false} DataAccepts(t: Tree, s: Table, path: string, d: RouteData)
    requires Walkable(t, path) && BelowAgrees(t, s) && path == t.path
    ensures Walk(t, path, d).Some? <==> Free(s, LooseBelow(t, s), "")
  {
    WalkParts(t, path);
    NoEmptyBelow(t, s);
    StarlessBelow(t, s);
    forall k | k in s ensures !Against(k, "") {
      assert k != "" ==> IndexOf(k, '*') >= 1;
    }
  }

  lemma {:induction false} StarlessBelow(t: Tree, s: Table)
    requires Walkable(t, t.path) && BelowAgrees(t, s)
    ensures !HasHead(s, '*')
  {
    if HasHead(s, '*') {
      var k :| k in s && k != "" && k[0] == '*';
      assert BoundBelow(t, k, s[k]);
      BelowHead(t, k, s[k]);
    }
  }

  lemma {:induction false} ParamAccepts(t: Tree, s: Table, path: string, d: RouteData)
    requires ParamNode(t) && Compatible(t, path) && BelowAgrees(t, s)
    requires Lcp(path, t.path) == |t.path| < |path|
    ensures var rest := path[|t.path|..]; Walk(t, path, d).Some? <==> Good(rest) && Free(s, LooseBelow(t, s), rest)
    decreases t, 1, 0
  {
    var rest := path[|t.path|..];
    WalkParts(t, path);
    OnlyChildAgrees(t, s);
    OpenIffHolder(t, s);
    FreeByHead(s, LooseBelow(t, s), rest);
    if |t.children| == 1 {
      LooseOnlyChild(t, s);
      WalkAccepts(t.children[0], ByHead(s, '/'), rest, d);
    } else {
      assert forall k :: k !in ByHead(s, '/');
      AddBelowAccepts(t.(priority := t.priority + 1), rest, d);
    }
  }

  /** Below the holder of a catch-all there is no room for another pattern. */
  lemma {:induction false} HolderRefuses(t: Tree, s: Table, path: string, d: RouteData)
    requires Branch(t) && BelowAgrees(t, s) && HoldsCatchAll(t) && Entered(t, path)
    requires Lcp(path, t.path) == |t.path| < |path|
    ensures Walk(t, path, d).None? && !Free(s, LooseBelow(t, s), path[|t.path|..])
  {
    Parts(t);
    var rest, leaf := path[|t.path|..], t.wild.value.children[0];
    CatchAllBound(t.wild.value, leaf.path, leaf.data.value);
    assert BoundBelow(t, leaf.path, leaf.data.value);
    assert IndexOf(leaf.path, '*') == 1;
    if rest[0] == '/' {
      assert StarClash(leaf.path, rest);
    } else {
      assert leaf.path in LooseBelow(t, s) && LooseClash(leaf.path, rest);
    }
  }

  lemma {:induction false} BranchAccepts(t: Tree, s: Table, path: string, d: RouteData)
    requires Branch(t) && BelowAgrees(t, s) && !HoldsCatchAll(t)
    requires Lcp(path, t.path) == |t.path| < |path| && path[|t.path|] != '*'
    ensures var rest := path[|t.path|..]; Walk(t, path, d).Some? <==> Good(rest) && Free(s, LooseBelow(t, s), rest)
    decreases t, 1, 0
  {
    var rest := path[|t.path|..];
    var l := LooseBelow(t, s);
    Parts(t);
    OpenIffHolder(t, s);
    NoStarBelow(t, s);
    FreeByHead(s, l, rest);
    var k := IndexOf(t.indices, rest[0]);
    if rest[0] == ':' && t.wild.Some? {
      LooseWild(t, s);
      WildAccepts(t, s, rest, d);
    } else if rest[0] != ':' && k < |t.indices| {
      ChildAgrees(t, s, k);
      LooseChild(t, s, k);
      WalkAccepts(t.children[k], ByHead(s, rest[0]), rest, d);
    } else {
      NothingBelow(t, s, rest[0]);
      AddBelowAccepts(t.(priority := t.priority + 1), rest, d);
    }
  }

  lemma {:induction false} NothingBelow(t: Tree, s: Table, c: char)
    requires Branch(t) && BelowAgrees(t, s) && !HoldsCatchAll(t)
    requires c == ':' ==> t.wild.None?
    requires c != ':' ==> IndexOf(t.indices, c) == |t.indices|
    ensures ByHead(s, c) == map[]
  {
    Parts(t);
    if HasHead(s, c) {
      Heads(t, s, c);
    }
  }

  lemma {:induction false} WildAccepts(t: Tree, s: Table, rest: string, d: RouteData)
    requires Branch(t) && BelowAgrees(t, s) && rest != "" && rest[0] == ':'
    requires t.wild.Some? && t.wild.value.kind == Param
    ensures var w, b := t.wild.value, ByHead(s, ':');
      Compatible(w, rest) && Walk(w, rest, d).Some? <==> Good(rest) && Free(b, LooseTable(w, b), rest)
    decreases t, 0
  {
    var w, b := t.wild.value, ByHead(s, ':');
    Parts(t);
    WildAgrees(t, s);
    CompatibleIffSegment(w, rest);
    if Compatible(w, rest) {
      WalkAccepts(w, b, rest, d);
    } else {
      NameTaken(w, b, LooseTable(w, b), rest);
    }
  }

  lemma {:induction false} NameTaken(w: Tree, s: Table, l: Table, rest: string)
    requires ParamNode(w) && Agrees(w, s) && rest != "" && rest[0] == ':' && Segment(rest) != w.path
    ensures !Free(s, l, rest)
  {
    var k, e := Inhabited(w);
    SegmentName(w, s, k);
    assert k[0..] == k && rest[0..] == rest;
    assert ClashAt(k, rest, 0);
  }

  // ---- registration ----

  /** A path is accepted exactly when it is well formed and nothing registered is in its way. */
  lemma {:induction false} AddRouteAccepts(t: Tree, s: Table, path: string, d: RouteData)
    requires Valid(t) && Agrees(t, s) && path != ""
    ensures AddRoute(t, path, d).Some? <==> Good(path) && Free(s, LooseTable(t, s), path)
  {
    if t.path == "" && t.children == [] && t.wild.None? {
      if path[0] != '*' {
        InsertAccepts(path, d);
      }
      forall p ensures p !in s {
        if p in s {
          BoundLeaf(t, p, s[p]);
          KeyBound(t, s, p);
        }
      }
      assert t.(priority := t.priority + 1) == Blank(1);
    } else {
      WeightPositive(t);
      WalkAccepts(t, s, path, d);
    }
  }
}
