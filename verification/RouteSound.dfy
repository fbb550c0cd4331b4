/**
 Soundness of a lookup: the captured parameters, put back into the pattern of the route that
 was found, give the request path again, up to the one byte before a catch-all value.
 */
module RouteSound {
  import opened Options
  import opened RouteTree
  import opened RouteTreeAdd
  import opened RouteLookup

  function Names(p: string): seq<string>
    decreases |p|
  {
    if p == "" then []
    else if p[0] == ':' then var end := IndexOf(p, '/'); [p[1..end]] + Names(p[end..])
    else if p[0] == '*' then [p[1..]]
    else Names(p[1..])
  }

  function Keys(ps: seq<PathParam>): (r: seq<string>)
    ensures |r| == |ps|
  {
    seq(|ps|, i requires 0 <= i < |ps| => ps[i].key)
  }

  /** The byte that a catch-all skips without looking at it is written back as a slash. */
  predicate UpToBoundary(f: string, v: string, path: string) {
    |v| < |path| && f == path[|path| - |v| - 1 := '/']
  }

  ghost predicate Answers(p: string, cs: seq<PathParam>, path: string) {
    var f := Fill(p, Values(cs));
    && Keys(cs) == Names(p)
    && (f == path || ('*' in p && cs != [] && UpToBoundary(f, cs[|cs| - 1].value, path)))
    && (forall i | 0 <= i < |cs| && '/' in cs[i].value :: i == |cs| - 1 && '*' in p)
  }

  lemma {:induction false} NamesPlain(w: string, q: string)
    requires Plain(w)
    ensures Names(w + q) == Names(q)
  {
    if w == "" {
      assert w + q == q;
    } else {
      assert (w + q)[1..] == w[1..] + q;
      NamesPlain(w[1..], q);
    }
  }

  lemma {:induction false} AnswersPlain(w: string, q: string, cs: seq<PathParam>, rest: string)
    requires Plain(w) && Answers(q, cs, rest)
    ensures Answers(w + q, cs, w + rest)
  {
    NamesPlain(w, q);
    FillPlain(w, q, Values(cs));
    if Fill(q, Values(cs)) != rest {
      var v := cs[|cs| - 1].value;
      assert w + rest[|rest| - |v| - 1 := '/'] == (w + rest)[|w + rest| - |v| - 1 := '/'];
    }
  }

  lemma {:induction false} AnswersParam(name: string, q: string, v: string, cs: seq<PathParam>, low: string)
    requires ParamPath(name) && (q == "" || q[0] == '/') && '/' !in v
    requires Answers(q, cs, low)
    ensures Answers(name + q, [PathParam(name[1..], v)] + cs, v + low)
  {
    var all := [PathParam(name[1..], v)] + cs;
    assert Values(all) == [v] + Values(cs);
    assert Keys(all) == [name[1..]] + Keys(cs);
    FillParam(name, q, v, Values(cs));
    SegmentEnd(name, name + q);
    assert (name + q)[|name|..] == q && (name + q)[1..|name|] == name[1..];
    if Fill(q, Values(cs)) != low {
      var u := cs[|cs| - 1].value;
      assert v + low[|low| - |u| - 1 := '/'] == (v + low)[|v + low| - |u| - 1 := '/'];
    }
    forall i | 0 <= i < |all| && '/' in all[i].value ensures i == |all| - 1 && '*' in name + q {
      assert i > 0 && all[i] == cs[i - 1];
    }
  }

  lemma {:induction false} Sound(t: Tree, path: string, ps: seq<PathParam>) returns (p: string)
    requires Branch(t) && Lookup(t, path, ps).data.Some?
    ensures var m := Lookup(t, path, ps);
      Bound(t, p, m.data.value) && ps <= m.params && Answers(p, m.params[|ps|..], path)
    decreases t, 1
  {
    var m := Lookup(t, path, ps);
    var rest := path[|t.path|..];
    assert path == t.path + rest;
    Parts(t);
    var q := "";
    if rest == "" {
      assert BoundBelow(t, q, m.data.value);
    } else {
      q := SoundBelow(t, rest, ps);
    }
    p := t.path + q;
    assert p[|t.path|..] == q;
    AnswersPlain(t.path, q, m.params[|ps|..], rest);
  }

  lemma {:induction false} SoundBelow(t: Tree, rest: string, ps: seq<PathParam>) returns (q: string)
    requires Branch(t) && rest != "" && LookupBelow(t, rest, ps).data.Some?
    ensures var m := LookupBelow(t, rest, ps);
      BoundBelow(t, q, m.data.value) && ps <= m.params && Answers(q, m.params[|ps|..], rest)
    decreases t, 0
  {
    Parts(t);
    var m := LookupBelow(t, rest, ps);
    var k := IndexOf(t.indices, rest[0]);
    if k < |t.indices| {
      q := Sound(t.children[k], rest, ps);
      assert BoundAny(t.children, q, m.data.value);
    } else if t.wild.value.kind == Param {
      q := SoundParam(t.wild.value, rest, ps);
    } else {
      var leaf := t.wild.value.children[0];
      q := leaf.path;
      CatchAllBound(t.wild.value, q, leaf.data.value);
      AnswersCatchAll(q, rest);
      assert m.params[|ps|..] == [PathParam(q[2..], rest[1..])];
    }
  }

  lemma {:induction false} AnswersCatchAll(q: string, rest: string)
    requires |q| >= 3 && q[0] == '/' && q[1] == '*' && rest != ""
    ensures Answers(q, [PathParam(q[2..], rest[1..])], rest)
  {
    var cs := [PathParam(q[2..], rest[1..])];
    assert Values(cs) == [rest[1..]] && Keys(cs) == [q[2..]];
    assert q[1..][1..] == q[2..];
    assert Fill(q, Values(cs)) == "/" + Fill(q[1..], Values(cs)) == rest[0 := '/'];
  }

  lemma {:induction false} SoundParam(w: Tree, rest: string, ps: seq<PathParam>) returns (q: string)
    requires ParamNode(w) && LookupParam(w, rest, ps).data.Some?
    ensures var m := LookupParam(w, rest, ps);
      Bound(w, q, m.data.value) && ps <= m.params && Answers(q, m.params[|ps|..], rest)
    decreases w, 2
  {
    WalkParts(w, w.path);
    var m := LookupParam(w, rest, ps);
    var end := IndexOf(rest, '/');
    var qs := ps + [Capture(w, rest)];
    var x := "";
    assert rest == rest[..end] + rest[end..];
    if end < |rest| {
      x := Sound(w.children[0], rest[end..], qs);
      ParamPattern(w, x, m.data.value);
    } else {
      assert BoundBelow(w, x, m.data.value);
      assert (w.path + x)[|w.path|..] == x;
    }
    CaptureFirst(m.params, ps, Capture(w, rest));
    q := w.path + x;
    assert m.params[|qs|..] == m.params[|ps| + 1..];
    AnswersParam(w.path, x, rest[..end], m.params[|ps| + 1..], rest[end..]);
  }
}
