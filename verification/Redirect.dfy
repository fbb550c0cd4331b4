/**
 Trailing-slash redirects: handleFastHTTP of mux.go on top of the lookup. The query string
 that the redirect carries along is left out.
 */
module Redirect {
  import opened Options
  import opened Paths
  import opened RouteTree
  import opened RouteTreeAdd
  import opened RouteLookup
  import opened RouteHint
  import opened RouteTheorems
  import opened RouteLoose

  // ---- the hint ----

  /** A hint for a path without a trailing slash is right: with the slash, the path is found. */
  lemma {:induction false} HintIsSound(t: Tree, path: string, ps: seq<PathParam>)
    requires Branch(t) && !EndsInSlash(path)
    requires Lookup(t, path, ps).data.None? && Lookup(t, path, ps).hint
    ensures Lookup(t, path + "/", ps).data.Some?
    decreases t, 1
  {
    Parts(t);
    if |path| > |t.path| && t.path <= path {
      var rest := path[|t.path|..];
      assert (path + "/")[|t.path|..] == rest + "/";
      HintBelow(t, rest, ps);
    } else if path == t.path {
      var k := IndexOf(t.indices, '/');
      assert (path + "/")[|t.path|..] == "/";
      OneSlash(t.children[k], t.indices[k], ps);
    } else {
      assert path + "/" == t.path;
    }
  }

  lemma {:induction false} OneSlash(c: Tree, b: char, ps: seq<PathParam>)
    requires Child(c, b) && b == '/' && |c.path| == 1 && c.data.Some?
    ensures Lookup(c, "/", ps).data.Some?
  {
    assert c.path == "/";
  }

  lemma {:induction false} HintBelow(t: Tree, rest: string, ps: seq<PathParam>)
    requires Branch(t) && rest != "" && !EndsInSlash(rest)
    requires LookupBelow(t, rest, ps).data.None? && LookupBelow(t, rest, ps).hint
    ensures LookupBelow(t, rest + "/", ps).data.Some?
    decreases t, 0
  {
    Parts(t);
    assert (rest + "/")[0] == rest[0];
    var k := IndexOf(t.indices, rest[0]);
    if k < |t.indices| {
      HintIsSound(t.children[k], rest, ps);
    } else {
      HintParam(t.wild.value, rest, ps);
    }
  }

  lemma {:induction false} HintParam(w: Tree, rest: string, ps: seq<PathParam>)
    requires ParamNode(w) && rest != "" && !EndsInSlash(rest)
    requires LookupParam(w, rest, ps).data.None? && LookupParam(w, rest, ps).hint
    ensures LookupParam(w, rest + "/", ps).data.Some?
    decreases w, 2
  {
    WalkParts(w, w.path);
    var end := IndexOf(rest, '/');
    FirstSlash(rest);
    assert (rest + "/")[..end] == rest[..end];
    if end < |rest| {
      assert (rest + "/")[end..] == rest[end..] + "/";
      HintIsSound(w.children[0], rest[end..], ps + [Capture(w, rest)]);
    } else {
      assert (rest + "/")[end..] == "/";
      OneSlash(w.children[0], '/', ps + [Capture(w, rest)]);
    }
  }

  // ---- dispatch ----

  datatype Outcome = Run(data: RouteData, params: seq<PathParam>) | Redirected(code: nat, location: string) | NoRoute

  function Location(path: string): string {
    if |path| > 1 && EndsInSlash(path) then path[..|path| - 1] else path + "/"
  }

  function Dispatch(t: Tree, verb: string, path: string): Outcome
    requires Branch(t)
  {
    var m := Lookup(t, path, []);
    if m.data.Some? then Run(m.data.value, m.params)
    else if verb != "CONNECT" && path != "/" && m.hint then
      Redirected(if verb == "GET" then 301 else 308, Location(path))
    else NoRoute
  }

  function TrailingSlashes(path: string): nat {
    if EndsInSlash(path) then 1 + TrailingSlashes(path[..|path| - 1]) else 0
  }

  /** A client that follows every redirect, from the first path of the chain to the last. */
  ghost predicate Follows(t: Tree, verb: string, chain: seq<string>)
    requires Branch(t)
  {
    && chain != []
    && forall i | 0 <= i < |chain| - 1 ::
      Dispatch(t, verb, chain[i]).Redirected? && Dispatch(t, verb, chain[i]).location == chain[i + 1]
  }

  /** The verb a client repeats its request with: RFC 9110, sections 15.4.2 and 15.4.9. */
  function Resent(verb: string, code: nat): string {
    if code == 301 && verb != "GET" && verb != "HEAD" then "GET" else verb
  }

  /** A redirect changes the path by one slash at its end, keeps the verb, and is a 301 for GET alone. */
  lemma RedirectKeepsVerb(t: Tree, verb: string, path: string)
    requires Branch(t) && Dispatch(t, verb, path).Redirected?
    ensures var o := Dispatch(t, verb, path);
      && (if o.code == 301 then verb == "GET" else o.code == 308 && verb != "GET") && Resent(verb, o.code) == verb
      && (o.location == path + "/" || o.location + "/" == path)
      && (EndsInSlash(path) <==> o.location + "/" == path)
  {
  }

  /** On a built tree: which paths without trailing slash are redirected, from the routes. */
  lemma {:induction false} RedirectIff(routes: Routes, verb: string, path: string)
    requires Plausible(routes) && Build(routes).Some? && !EndsInSlash(path)
    ensures Valid(Build(routes).value)
    ensures Dispatch(Build(routes).value, verb, path).Redirected? <==>
      var s, l := TableOf(routes), LooseOf(routes);
      && verb != "CONNECT" && Ref(s, l, path, []).None?
      && Slashed(Ref(s, l, path + "/", [])) && !Hollow(Ref(s, l, path + "/", []).value)
  {
    LookupIsRef(routes, path);
    if Ref(TableOf(routes), LooseOf(routes), path, []).None? {
      HintIff(routes, path);
    }
  }

  lemma {:induction false} RedirectIsAnswered(t: Tree, verb: string, path: string)
    requires Branch(t) && !EndsInSlash(path) && Dispatch(t, verb, path).Redirected?
    ensures Dispatch(t, verb, path).location == path + "/" && Dispatch(t, verb, path + "/").Run?
  {
    HintIsSound(t, path, []);
  }

  lemma {:induction false} RedirectsEnd(t: Tree, verb: string, chain: seq<string>)
    requires Branch(t) && Follows(t, verb, chain)
    ensures |chain| - 1 <= if TrailingSlashes(chain[0]) > 1 then TrailingSlashes(chain[0]) else 1
    ensures |chain| > 1 && !EndsInSlash(chain[0]) ==> Dispatch(t, verb, chain[1]).Run?
    decreases |chain|
  {
    if |chain| > 1 {
      var path, next := chain[0], chain[1];
      if EndsInSlash(path) {
        assert path == next + "/";
        var low := chain[1..];
        assert Follows(t, verb, low) by {
          forall i | 0 <= i < |low| - 1
            ensures Dispatch(t, verb, low[i]).Redirected? && Dispatch(t, verb, low[i]).location == low[i + 1]
          {
            assert low[i] == chain[i + 1] && low[i + 1] == chain[i + 2];
          }
        }
        RedirectsEnd(t, verb, low);
      } else {
        RedirectIsAnswered(t, verb, path);
      }
    }
  }
}
