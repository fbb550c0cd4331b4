/**
 The reference lookup in a table that registrations can build: which registered pattern it finds,
 and when a loose catch-all makes it part from the plain greedy lookup.
 */
module RouteReach {
  import opened Options
  import opened RouteTree
  import opened RouteTreeAdd
  import opened RouteLookup
  import opened RouteSound
  import opened RouteAccept
  import opened RouteLoose

  /** What acceptance leaves of a table and its loose catch-alls, also further down a pattern. */
  ghost predicate Tame(s: Table, l: Table) {
    && Part(l, s)
    && (forall k | k in s :: Good(k) || (k != "" && k[0] == '*'))
    && (forall k, q | k in s && q in s && k != q :: !Against(k, q))
    && (forall k, q | k in l && q in s && k != q :: !LooseClash(k, q))
  }

  lemma {:induction false} TameMoved(w: string, s: Table, l: Table, a: Table, b: Table)
    requires Tame(s, l) && '*' !in w
    requires forall q | q in a :: w + q in s && a[q] == s[w + q] && (Good(q) || (q != "" && q[0] == '*'))
    requires forall q | q in b :: q in a && w + q in l && b[q] == l[w + q]
    requires forall k, q | k in a && q in a && Against(k, q) :: Against(w + k, w + q)
    ensures Tame(a, b)
  {
    forall k, q | k in a && q in a && k != q ensures !Against(k, q) {
      assert w + k != w + q by { assert (w + k)[|w|..] == k && (w + q)[|w|..] == q; }
    }
    forall k, q | k in b && q in a && k != q ensures !LooseClash(k, q) {
      assert w + k != w + q by { assert (w + k)[|w|..] == k && (w + q)[|w|..] == q; }
      LooseClashShift(w, k, q);
    }
  }

  lemma {:induction false} TameStep(s: Table, l: Table, c: char)
    requires Tame(s, l) && !IsWild(c)
    ensures Tame(After(s, [c]), After(l, [c]))
  {
    var a := After(s, [c]);
    forall q | q in a ensures Good(q) || (q != "" && q[0] == '*') {
      assert ([c] + q)[0] == c;
      if q == "" || q[0] != '*' {
        GoodPlain([c], q);
      }
    }
    forall k, q | k in a && q in a && Against(k, q) ensures Against([c] + k, [c] + q) {
      AgainstPlain([c], k, q);
    }
    TameMoved([c], s, l, a, After(l, [c]));
  }

  lemma {:induction false} TameSegment(s: Table, l: Table, name: string)
    requires Tame(s, l) && ParamPath(name)
    ensures Tame(AfterSegment(s, name), AfterSegment(l, name))
  {
    var a := AfterSegment(s, name);
    ParamStarless(name);
    forall q | q in a ensures Good(q) {
      GoodParam(name, q);
      assert (name + q)[0] == ':';
    }
    forall k, q | k in a && q in a && Against(k, q) ensures Against(name + k, name + q) {
      AgainstParam(name, k, q);
    }
    TameMoved(name, s, l, a, AfterSegment(l, name));
  }

  lemma {:induction false} GoodSegment(p: string)
    requires Good(p) && p != "" && p[0] == ':'
    ensures var name := Segment(p); var q := p[|name|..];
      ParamPath(name) && p == name + q && (q == "" || q[0] == '/')
  {
    assert FirstWild(p) == 0 && p[0..] == p;
  }

  /** In a tame table there is one parameter to begin with, and its name is well formed. */
  lemma {:induction false} OneSegment(s: Table, l: Table, p: string)
    requires Tame(s, l) && p in s && p != "" && p[0] == ':'
    ensures HasHead(s, ':') && ParamSegment(s) == Segment(p) && ParamPath(Segment(p))
    ensures AfterSegment(s, Segment(p)) == After(s, Segment(p))
    ensures p == Segment(p) + p[|Segment(p)|..] && p[|Segment(p)|..] in AfterSegment(s, Segment(p))
  {
    GoodSegment(p);
    var k :| k in s && k != "" && k[0] == ':' && ParamSegment(s) == k[..IndexOf(k, '/')];
    SegmentOf(s, l, p, k);
    WholeSegments(s, l, p);
  }

  lemma {:induction false} WholeSegments(s: Table, l: Table, p: string)
    requires Tame(s, l) && p in s && p != "" && p[0] == ':'
    ensures AfterSegment(s, Segment(p)) == After(s, Segment(p))
  {
    var name := Segment(p);
    forall q | q in After(s, name) ensures q == "" || q[0] == '/' {
      var k := name + q;
      assert k[0] == ':';
      SegmentOf(s, l, p, k);
      assert k[|name|..] == q && IndexOf(k, '/') == |name|;
    }
  }

  lemma {:induction false} SegmentOf(s: Table, l: Table, p: string, k: string)
    requires Tame(s, l) && p in s && k in s && p != "" && k != "" && p[0] == ':' && k[0] == ':'
    ensures Segment(k) == Segment(p)
  {
    assert k[0..] == k && p[0..] == p;
    if Segment(k) != Segment(p) {
      assert ClashAt(k, p, 0);
    }
  }

  // ---- what the reference finds ----

  /** It finds a registered pattern, which begins as the lookup went on. */
  lemma {:induction false} RefFinds(s: Table, l: Table, path: string, ps: seq<PathParam>) returns (q: string)
    requires Part(l, s) && Ref(s, l, path, ps).Some?
    ensures q in s && s[q] == Ref(s, l, path, ps).value.data
    ensures path == "" ==> q == "" || q[0] == '*'
    ensures path != "" ==> q != ""
    ensures path != "" && !HasOpen(l) && !IsWild(path[0]) && HasHead(s, path[0]) ==> q[0] == path[0]
    ensures path != "" && !HasOpen(l) && q[0] == '/' ==> path[0] == '/'
    decreases |path|, if HasHead(s, ':') then 1 else 0
  {
    if path == "" && "" in s {
      q := "";
    } else if path != "" && HasOpen(l) {
      q := OpenPattern(l);
    } else if path != "" && !IsWild(path[0]) && HasHead(s, path[0]) {
      var x := RefFinds(After(s, [path[0]]), After(l, [path[0]]), path[1..], ps);
      q := [path[0]] + x;
    } else if path != "" && HasHead(s, ':') {
      var name, end := ParamSegment(s), IndexOf(path, '/');
      var x := RefFinds(AfterSegment(s, name), AfterSegment(l, name), path[end..], ps + [PathParam(name[1..], path[..end])]);
      q := name + x;
    } else {
      q := StarPattern(s);
    }
  }

  // ---- where a loose catch-all is felt ----

  /** The greedy descent passes a loose catch-all while the next byte is not a slash. */
  ghost predicate Skims(s: Table, l: Table, path: string)
    decreases |path|, if HasHead(s, ':') then 1 else 0
  {
    path != "" &&
    if HasOpen(l) then path[0] != '/'
    else if !IsWild(path[0]) && HasHead(s, path[0]) then Skims(After(s, [path[0]]), After(l, [path[0]]), path[1..])
    else
      HasHead(s, ':') &&
      Skims(AfterSegment(s, ParamSegment(s)), AfterSegment(l, ParamSegment(s)), path[IndexOf(path, '/')..])
  }

  /** The boundary byte matters exactly then: otherwise the loose catch-alls change nothing. */
  lemma {:induction false} SkimsIff(s: Table, l: Table, path: string, ps: seq<PathParam>)
    requires Tame(s, l)
    ensures Ref(s, l, path, ps) == Ref(s, map[], path, ps) <==> !Skims(s, l, path)
    decreases |path|, if HasHead(s, ':') then 1 else 0
  {
    if path != "" && HasOpen(l) {
      AtOpen(s, l, path, ps);
    } else if path != "" && !IsWild(path[0]) && HasHead(s, path[0]) {
      var c := path[0];
      TameStep(s, l, c);
      assert After(map[], [c]) == map[] by {
        var e: Table := map[];
        assert forall q :: [c] + q !in e;
      }
      RefStep(s, l, path, ps);
      RefStep(s, map[], path, ps);
      SkimsIff(After(s, [c]), After(l, [c]), path[1..], ps);
    } else if path != "" && HasHead(s, ':') {
      SkimsParam(s, l, path, ps);
    }
  }

  lemma {:induction false} SkimsParam(s: Table, l: Table, path: string, ps: seq<PathParam>)
    requires Tame(s, l) && path != "" && HasHead(s, ':') && !HasOpen(l) && (IsWild(path[0]) || !HasHead(s, path[0]))
    ensures Ref(s, l, path, ps) == Ref(s, map[], path, ps) <==> !Skims(s, l, path)
    decreases |path|, if HasHead(s, ':') then 1 else 0, 0
  {
    var name, end := ParamSegment(s), IndexOf(path, '/');
    var k :| k in s && k != "" && k[0] == ':' && name == k[..IndexOf(k, '/')];
    OneSegment(s, l, k);
    TameSegment(s, l, name);
    assert AfterSegment(map[], name) == map[];
    assert !HasHead(AfterSegment(s, name), ':');
    SkimsIff(AfterSegment(s, name), AfterSegment(l, name), path[end..], ps + [PathParam(name[1..], path[..end])]);
  }

  lemma {:induction false} AtOpen(s: Table, l: Table, path: string, ps: seq<PathParam>)
    requires Tame(s, l) && path != "" && HasOpen(l)
    ensures Ref(s, l, path, ps) == Ref(s, map[], path, ps) <==> path[0] == '/'
  {
    var k := OpenPattern(l);
    OpenAlone(s, l, k);
    if path[0] == '/' {
      var a := After(s, "/");
      assert k == "/" + k[1..] && k[1..] in a;
      forall q | q in a ensures q == k[1..] {
        assert ("/" + q)[1..] == q;
      }
      RefOnlyStar(s, map[], k, path, ps);
    } else {
      RefNone(s, map[], path, ps);
    }
  }

  lemma {:induction false} OpenAlone(s: Table, l: Table, k: string)
    requires Tame(s, l) && k in l && IsOpen(k)
    ensures forall q | q in s :: q == "" || q == k
    ensures forall c | HasHead(s, c) :: c == '/'
  {
    forall q | q in s ensures q == "" || q == k {
      if q != "" && q != k {
        assert IndexOf(k, '*') == 1 && k[..0] <= q;
        assert LooseClash(k, q);
      }
    }
  }

  // ---- following a pattern whose parameters are filled in ----

  /** The captures of a pattern filled with the values. */
  function Zip(p: string, vs: seq<string>): seq<PathParam>
    decreases |p|
  {
    if p == "" then []
    else if p[0] == ':' && vs != [] then
      [PathParam(Segment(p)[1..], vs[0])] + Zip(p[|Segment(p)|..], vs[1..])
    else Zip(p[1..], vs)
  }

  /** No static pattern takes a byte away from a parameter of w, when w is filled with vs and end follows. */
  ghost predicate Clear(s: Table, w: string, vs: seq<string>, end: string)
    decreases |w|
  {
    if w == "" then true
    else if w[0] == ':' then
      vs != [] &&
      var rest := Fill(w, vs) + end;
      rest != "" && (IsWild(rest[0]) || !HasHead(s, rest[0])) &&
      Clear(AfterSegment(s, Segment(w)), w[|Segment(w)|..], vs[1..], end)
    else
      Clear(After(s, [w[0]]), w[1..], vs, end)
  }

  predicate SlashFree(vs: seq<string>) {
    forall i | 0 <= i < |vs| :: '/' !in vs[i]
  }

  /** The rest of the path cannot run into a parameter at the end of w. */
  ghost predicate Apart(w: string, end: string) {
    end == "" || !AfterParam(w + "/*")
  }

  /** What a registered pattern w + tail requires of w. */
  ghost predicate Leads(s: Table, l: Table, w: string, tail: string) {
    Tame(s, l) && w + tail in s && '*' !in w && (tail == "" || tail[0] == '/')
  }

  lemma {:induction false} NotOpenYet(s: Table, l: Table, w: string, tail: string)
    requires Leads(s, l, w, tail) && w != ""
    ensures !HasOpen(l)
  {
    NotOpenKey(w, tail);
    if HasOpen(l) {
      OpenAlone(s, l, OpenPattern(l));
    }
  }

  lemma {:induction false} NotOpenKey(w: string, tail: string)
    requires w != "" && '*' !in w && (tail == "" || tail[0] == '/')
    ensures !IsOpen(w + tail)
  {
    assert |w + tail| > 1 ==> (w + tail)[1] == if |w| == 1 then tail[0] else w[1];
  }

  lemma {:induction false} LeadsOn(s: Table, l: Table, w: string, tail: string)
    requires Leads(s, l, w, tail) && w != "" && w[0] != ':'
    ensures var c := w[0]; Leads(After(s, [c]), After(l, [c]), w[1..], tail) && HasHead(s, c) && !IsWild(c)
    ensures After(s, [w[0]])[w[1..] + tail] == s[w + tail]
  {
    var c := w[0];
    assert w[0] in w && forall x | x in w[1..] :: x in w;
    assert w + tail == [c] + (w[1..] + tail);
    assert (w + tail)[0] == c;
    TameStep(s, l, c);
  }

  lemma {:induction false} FirstSegment(w: string, tail: string)
    requires w != "" && w[0] == ':' && (tail == "" || tail[0] == '/')
    ensures var name := Segment(w); var low := w[|name|..];
      && w == name + low && (low == "" || low[0] == '/') && name != "" && name[0] == ':' && '/' !in name
      && Segment(w + tail) == name && (w + tail)[|name|..] == low + tail
      && (w + tail) != "" && (w + tail)[0] == ':'
  {
    var name := Segment(w);
    assert w + tail == name + (w[|name|..] + tail);
    SegmentEnd(name, w + tail);
  }

  lemma {:induction false} LeadsPast(s: Table, l: Table, w: string, tail: string)
    requires Leads(s, l, w, tail) && w != "" && w[0] == ':'
    ensures var name := Segment(w); var low := w[|name|..];
      && ParamPath(name) && ParamSegment(s) == name && HasHead(s, ':') && w == name + low && (low == "" || low[0] == '/')
      && Leads(AfterSegment(s, name), AfterSegment(l, name), low, tail)
      && AfterSegment(s, name)[low + tail] == s[w + tail]
      && AfterSegment(s, name) == After(s, name)
  {
    var name := Segment(w);
    FirstSegment(w, tail);
    OneSegment(s, l, w + tail);
    TameSegment(s, l, name);
    assert forall x | x in w[|name|..] :: x in w;
    assert w + tail == name + (w[|name|..] + tail);
  }

  lemma {:induction false} LoosePast(s: Table, l: Table, name: string)
    requires Part(l, s) && AfterSegment(s, name) == After(s, name)
    ensures AfterSegment(l, name) == After(l, name)
  {
    forall q | q in After(l, name) ensures q == "" || q[0] == '/' {
      assert q in After(s, name);
    }
  }

  lemma {:induction false} ApartOn(w: string, end: string)
    requires Apart(w, end) && w != "" && w[0] != ':' && w[0] != '*'
    ensures Apart(w[1..], end)
  {
    assert w + "/*" == [w[0]] + (w[1..] + "/*");
    AfterParamPlain([w[0]], w[1..] + "/*");
  }

  lemma {:induction false} ApartPast(w: string, name: string, low: string, end: string)
    requires Apart(w, end) && ParamPath(name) && w == name + low && (low == "" || low[0] == '/')
    ensures Apart(low, end) && (low == "" ==> end == "")
  {
    assert w + "/*" == name + (low + "/*");
    AfterParamStep(name, low + "/*");
    assert low == "" ==> low + "/*" == "/*";
  }

  /** The value of a parameter is what the lookup captures. */
  lemma {:induction false} Captured(name: string, low: string, vs: seq<string>, end: string)
    requires ParamPath(name) && (low == "" || low[0] == '/') && vs != [] && '/' !in vs[0] && (low == "" ==> end == "")
    ensures var rest := Fill(low, vs[1..]) + end; var path := Fill(name + low, vs) + end;
      path == vs[0] + rest && IndexOf(path, '/') == |vs[0]| && path[..|vs[0]|] == vs[0] && path[|vs[0]|..] == rest
  {
    FillParam(name, low, vs[0], vs[1..]);
    assert vs == [vs[0]] + vs[1..];
    var rest := Fill(low, vs[1..]) + end;
    var path := Fill(name + low, vs) + end;
    assert path == vs[0] + rest;
    assert low != "" ==> Fill(low, vs[1..])[0] == '/';
    if rest == "" {
      assert path == vs[0];
      SegmentEnd(vs[0], path);
    } else {
      SegmentEnd(vs[0], path);
    }
  }

  /** On a clear way the reference follows the pattern and captures the values. */
  lemma {:induction false} RefClear(s: Table, l: Table, w: string, tail: string, vs: seq<string>,
      end: string, ps: seq<PathParam>)
    requires Leads(s, l, w, tail) && SlashFree(vs) && Clear(s, w, vs, end) && Apart(w, end)
    ensures Ref(s, l, Fill(w, vs) + end, ps) == Ref(After(s, w), After(l, w), end, ps + Zip(w, vs))
    decreases |w|
  {
    if w == "" {
      AfterNone(s);
      AfterNone(l);
      assert Fill(w, vs) + end == end && ps + Zip(w, vs) == ps;
    } else if w[0] != ':' {
      NotOpenYet(s, l, w, tail);
      LeadsOn(s, l, w, tail);
      ApartOn(w, end);
      RefClear(After(s, [w[0]]), After(l, [w[0]]), w[1..], tail, vs, end, ps);
      RefClearByte(s, l, w, vs, end, ps);
    } else {
      NotOpenYet(s, l, w, tail);
      LeadsPast(s, l, w, tail);
      RefClearParam(s, l, w, tail, vs, end, ps);
    }
  }

  lemma {:induction false} RefClearByte(s: Table, l: Table, w: string, vs: seq<string>, end: string, ps: seq<PathParam>)
    requires w != "" && w[0] != ':' && w[0] != '*' && HasHead(s, w[0]) && !HasOpen(l)
    ensures Ref(s, l, Fill(w, vs) + end, ps) == Ref(After(s, [w[0]]), After(l, [w[0]]), Fill(w[1..], vs) + end, ps)
    ensures After(After(s, [w[0]]), w[1..]) == After(s, w) && Zip(w, vs) == Zip(w[1..], vs)
    ensures After(After(l, [w[0]]), w[1..]) == After(l, w)
  {
    assert w == [w[0]] + w[1..];
    FillByte(w, vs, end);
    RefStep(s, l, Fill(w, vs) + end, ps);
    AfterAfter(s, [w[0]], w[1..]);
    AfterAfter(l, [w[0]], w[1..]);
  }

  lemma {:induction false} FillByte(w: string, vs: seq<string>, end: string)
    requires w != "" && w[0] != ':' && w[0] != '*'
    ensures var path := Fill(w, vs) + end; path != "" && path[0] == w[0] && path[1..] == Fill(w[1..], vs) + end
    ensures Zip(w, vs) == Zip(w[1..], vs)
  {
    Headed(w[0], Fill(w[1..], vs), end);
  }

  lemma Headed(c: char, f: string, end: string)
    ensures ([c] + f + end)[0] == c && ([c] + f + end)[1..] == f + end
  {
  }

  /** One parameter further: no static pattern takes the next byte. */
  lemma {:induction false} RefPast(s: Table, l: Table, w: string, tail: string, vs: seq<string>, end: string,
      ps: seq<PathParam>)
    requires Leads(s, l, w, tail) && vs != [] && '/' !in vs[0] && Apart(w, end) && w != "" && w[0] == ':' && !HasOpen(l)
    requires var path := Fill(w, vs) + end; path != "" && (IsWild(path[0]) || !HasHead(s, path[0]))
    ensures var name := Segment(w); var low := w[|name|..];
      && Apart(low, end)
      && Ref(s, l, Fill(w, vs) + end, ps) ==
         Ref(AfterSegment(s, name), AfterSegment(l, name), Fill(low, vs[1..]) + end, ps + [PathParam(name[1..], vs[0])])
  {
    LeadsPast(s, l, w, tail);
    var name := Segment(w);
    ApartPast(w, name, w[|name|..], end);
    Captured(name, w[|name|..], vs, end);
  }

  lemma {:induction false} RefClearParam(s: Table, l: Table, w: string, tail: string, vs: seq<string>,
      end: string, ps: seq<PathParam>)
    requires Leads(s, l, w, tail) && SlashFree(vs) && Clear(s, w, vs, end) && Apart(w, end)
    requires w != "" && w[0] == ':' && !HasOpen(l)
    ensures Ref(s, l, Fill(w, vs) + end, ps) == Ref(After(s, w), After(l, w), end, ps + Zip(w, vs))
    decreases |w|, 0
  {
    RefPast(s, l, w, tail, vs, end, ps);
    LeadsPast(s, l, w, tail);
    var name := Segment(w);
    var low := w[|name|..];
    var c := PathParam(name[1..], vs[0]);
    LoosePast(s, l, name);
    RefClear(After(s, name), After(l, name), low, tail, vs[1..], end, ps + [c]);
    AfterAfter(s, name, low);
    AfterAfter(l, name, low);
    Grouped(ps, c, Zip(low, vs[1..]));
  }

  lemma Grouped(ps: seq<PathParam>, c: PathParam, qs: seq<PathParam>)
    ensures ps + [c] + qs == ps + ([c] + qs)
  {
  }

  // ---- reaching a registered pattern ----

  ghost predicate NamedUnder(s: Table, pre: string) {
    forall q | q in s :: s[q].pattern == pre + q
  }

  /** Off a clear way the reference ends at another pattern. */
  lemma {:induction false} RefUnclear(s: Table, l: Table, p: string, vs: seq<string>, ps: seq<PathParam>, pre: string)
    requires Leads(s, l, p, "") && p in s
    requires SlashFree(vs) && |vs| == |Names(p)| && NamedUnder(s, pre) && !Clear(s, p, vs, "")
    ensures var r := Ref(s, l, Fill(p, vs) + "", ps); r.Some? ==> r.value.data != s[p]
    decreases |p|
  {
    assert p + "" == p;
    NotOpenYet(s, l, p, "");
    if p[0] != ':' {
      LeadsOn(s, l, p, "");
      NamedOn(s, pre, [p[0]]);
      assert p[1..] + "" == p[1..];
      RefUnclear(After(s, [p[0]]), After(l, [p[0]]), p[1..], vs, ps, pre + [p[0]]);
      RefClearByte(s, l, p, vs, "", ps);
    } else {
      LeadsPast(s, l, p, "");
      RefUnclearParam(s, l, p, vs, ps, pre);
    }
  }

  lemma {:induction false} NamedOn(s: Table, pre: string, w: string)
    requires NamedUnder(s, pre)
    ensures NamedUnder(After(s, w), pre + w)
  {
    forall q | q in After(s, w) ensures After(s, w)[q].pattern == pre + w + q {
      assert pre + (w + q) == pre + w + q;
    }
  }

  lemma {:induction false} RefUnclearParam(s: Table, l: Table, p: string, vs: seq<string>,
      ps: seq<PathParam>, pre: string)
    requires Leads(s, l, p, "") && SlashFree(vs) && |vs| == |Names(p)| && NamedUnder(s, pre) && !Clear(s, p, vs, "")
    requires p in s && p != "" && p[0] == ':' && !HasOpen(l)
    ensures var r := Ref(s, l, Fill(p, vs) + "", ps); r.Some? ==> r.value.data != s[p]
    decreases |p|, 0
  {
    LeadsPast(s, l, p, "");
    var name := Segment(p);
    var low := p[|name|..];
    var path := Fill(p, vs) + "";
    if path == "" || (!IsWild(path[0]) && HasHead(s, path[0])) {
      TakenAway(s, l, p, path, ps, pre);
    } else {
      RefPast(s, l, p, "", vs, "", ps);
      NamedOn(s, pre, name);
      assert low + "" == low && p + "" == p;
      RefUnclear(AfterSegment(s, name), AfterSegment(l, name), low, vs[1..], ps + [PathParam(name[1..], vs[0])], pre + name);
    }
  }

  lemma {:induction false} TakenAway(s: Table, l: Table, p: string, path: string, ps: seq<PathParam>, pre: string)
    requires Part(l, s) && NamedUnder(s, pre) && p in s && p != "" && p[0] == ':' && !HasOpen(l)
    requires path == "" || (!IsWild(path[0]) && HasHead(s, path[0]))
    ensures var r := Ref(s, l, path, ps); r.Some? ==> r.value.data != s[p]
  {
    if Ref(s, l, path, ps).Some? {
      var q := RefFinds(s, l, path, ps);
      assert q != p;
      assert (pre + q)[|pre|..] == q && (pre + p)[|pre|..] == p;
    }
  }

  /** A registered pattern without a catch-all is found for its filled path exactly on a clear way. */
  lemma {:induction false} RefReachesIff(s: Table, l: Table, p: string, vs: seq<string>)
    requires Tame(s, l) && p in s && '*' !in p && SlashFree(vs) && |vs| == |Names(p)| && NamedUnder(s, "")
    ensures var r := Ref(s, l, Fill(p, vs), []);
      && (r.Some? && r.value.data == s[p] <==> Clear(s, p, vs, ""))
      && (Clear(s, p, vs, "") ==> r.value.params == Zip(p, vs))
  {
    assert p + "" == p && Fill(p, vs) + "" == Fill(p, vs);
    if Clear(s, p, vs, "") {
      RefClear(s, l, p, "", vs, "", []);
      assert "" in After(s, p) && [] + Zip(p, vs) == Zip(p, vs);
    } else {
      RefUnclear(s, l, p, vs, [], "");
    }
  }
}
