/**
 The handler chain of context.go. Next moves an index and starts the handler there; handlers may
 call Next any number of times, so the chain is re-entrant. A handler is known by how often it
 calls Next; what it returns is passed on unchanged and left out.
 */
module Chain {
  datatype Event = Start(index: nat) | End(index: nat)

  /** calls[i] is how often handler i calls Next. */
  type Handlers = seq<nat>

  function Left(h: Handlers, idx: int): nat {
    if idx < |h| then |h| - idx else 0
  }

  datatype Run = Run(idx: int, trace: seq<Event>)

  /** c calls of Next in a row from index idx: the index after them and what they did. */
  function Calls(h: Handlers, c: nat, idx: int): (r: Run)
    requires idx >= -1
    ensures r.idx >= idx + c
    decreases Left(h, idx), 1, c
  {
    if c == 0 then Run(idx, []) else
      var one := One(h, idx);
      var more := Calls(h, c - 1, one.idx);
      Run(more.idx, one.trace + more.trace)
  }

  /** One call of Next. */
  function One(h: Handlers, idx: int): (r: Run)
    requires idx >= -1
    ensures r.idx >= idx + 1
    decreases Left(h, idx), 0
  {
    var k := idx + 1;
    if k < |h| then
      var inner := Calls(h, h[k], k);
      Run(inner.idx, [Start(k)] + inner.trace + [End(k)])
    else
      Run(k, [])
  }

  function Before(done: seq<Event>, r: Run): Run {
    Run(r.idx, done + r.trace)
  }

  lemma {:induction false} BeforeTwice(a: seq<Event>, b: seq<Event>, r: Run)
    ensures Before(a, Before(b, r)) == Before(a + b, r)
  {
    assert a + (b + r.trace) == a + b + r.trace;
  }

  class Context {
    var handlers: Handlers
    var handlerIdx: int
    var log: seq<Event>

    /** acquire and reset, then the chain of the matched route. */
    constructor (handlers: Handlers)
      ensures this.handlers == handlers && handlerIdx == -1 && log == []
    {
      this.handlers := handlers;
      handlerIdx := -1;
      log := [];
    }

    method Next()
      requires handlerIdx >= -1
      modifies this
      ensures handlers == old(handlers)
      ensures var r := One(old(handlers), old(handlerIdx)); handlerIdx == r.idx && log == old(log) + r.trace
      decreases Left(handlers, handlerIdx), 0
    {
      handlerIdx := handlerIdx + 1;
      if handlerIdx < |handlers| {
        Invoke(handlerIdx);
      }
    }

    /** Handler k, which calls Next as often as it does. */
    method Invoke(k: nat)
      requires k == handlerIdx < |handlers|
      modifies this
      ensures handlers == old(handlers)
      ensures var r := Calls(old(handlers), old(handlers)[k], k);
        handlerIdx == r.idx && log == old(log) + [Start(k)] + r.trace + [End(k)]
      decreases Left(handlers, handlerIdx), 1
    {
      log := log + [Start(k)];
      ghost var start := log;
      ghost var done: seq<Event> := [];
      var n := 0;
      while n < handlers[k]
        invariant handlers == old(handlers) && n <= handlers[k] && handlerIdx >= k
        invariant log == start + done
        invariant Calls(handlers, handlers[k], k) == Before(done, Calls(handlers, handlers[k] - n, handlerIdx))
      {
        ghost var r := One(handlers, handlerIdx);
        BeforeTwice(done, r.trace, Calls(handlers, handlers[k] - n - 1, r.idx));
        Next();
        done := done + r.trace;
        n := n + 1;
      }
      log := log + [End(k)];
    }

    /** Copy for a background goroutine: its own handlers and index, and an empty log. */
    method Copy() returns (cc: Context)
      ensures fresh(cc) && cc.handlers == handlers && cc.handlerIdx == handlerIdx && cc.log == []
    {
      cc := new Context(handlers);
      cc.handlerIdx := handlerIdx;
    }

    /**
     Next on a copy starts handlers from where the original stands, in order and without a gap, as
     far as their calls carry, and leaves the original where it was.
     */
    method NextOnCopy() returns (cc: Context)
      requires handlerIdx >= -1
      ensures fresh(cc) && cc.log == One(handlers, handlerIdx).trace
      ensures Starts(cc.log) == Span(handlerIdx + 1, Min(cc.handlerIdx + 1, |handlers|))
      ensures forall k: nat | handlerIdx < k < |handlers| ::
        k in Starts(cc.log) <==> Reached(handlers[handlerIdx + 1..], k - handlerIdx - 1)
      ensures handlers == old(handlers) && handlerIdx == old(handlerIdx) && log == old(log)
    {
      cc := Copy();
      cc.Next();
      ghost var h, at, log := handlers, handlerIdx, cc.log;
      assert log == One(h, at).trace;
      OneStarts(h, at);
      forall k: nat | at < k < |h| ensures k in Starts(log) <==> Reached(h[at + 1..], k - at - 1) {
        SuffixRuns(h, at, k);
      }
    }
  }

  // ---- what starts, and in which order ----

  function Starts(trace: seq<Event>): seq<nat> {
    if trace == [] then [] else StartOf(trace[0]) + Starts(trace[1..])
  }

  function StartOf(e: Event): seq<nat> {
    if e.Start? then [e.index] else []
  }

  lemma {:induction false} StartsConcat(a: seq<Event>, b: seq<Event>)
    ensures Starts(a + b) == Starts(a) + Starts(b)
  {
    if a == [] {
      assert a + b == b;
    } else {
      assert (a + b)[1..] == a[1..] + b && (a + b)[0] == a[0];
      StartsConcat(a[1..], b);
      var x, y, z := StartOf(a[0]), Starts(a[1..]), Starts(b);
      assert x + (y + z) == (x + y) + z;
    }
  }

  /** The indices from lo to below hi. */
  function Span(lo: int, hi: int): (r: seq<nat>)
    requires 0 <= lo
    ensures |r| == if lo < hi then hi - lo else 0
    ensures forall i | 0 <= i < |r| :: r[i] == lo + i
  {
    if lo < hi then seq(hi - lo, i requires 0 <= i => lo + i) else []
  }

  function Min(a: int, b: int): int {
    if a <= b then a else b
  }

  lemma {:induction false} CallsStart(h: Handlers, c: nat, idx: int)
    requires idx >= -1
    ensures StartsSpan(Calls(h, c, idx), idx + 1, |h|)
    decreases Left(h, idx), 1, c
  {
    if c > 0 {
      var one := One(h, idx);
      OneStarts(h, idx);
      CallsStart(h, c - 1, one.idx);
      CallsJoin(h, c, idx, one);
    }
  }

  lemma {:induction false} CallsJoin(h: Handlers, c: nat, idx: int, one: Run)
    requires idx >= -1 && c > 0 && one == One(h, idx)
    requires StartsSpan(one, idx + 1, |h|) && StartsSpan(Calls(h, c - 1, one.idx), one.idx + 1, |h|)
    ensures StartsSpan(Calls(h, c, idx), idx + 1, |h|)
  {
    StartsJoin(one, Calls(h, c - 1, one.idx), idx + 1, |h|);
  }

  /** What a run starts is the handlers from lo to where it ends, each once and in order. */
  predicate StartsSpan(r: Run, lo: nat, n: nat) {
    Starts(r.trace) == Span(lo, Min(r.idx + 1, n))
  }

  lemma {:induction false} StartsJoin(one: Run, more: Run, lo: nat, n: nat)
    requires lo <= one.idx + 1 <= more.idx + 1
    requires StartsSpan(one, lo, n) && StartsSpan(more, one.idx + 1, n)
    ensures StartsSpan(Run(more.idx, one.trace + more.trace), lo, n)
  {
    StartsConcat(one.trace, more.trace);
    SpanMin(lo, one.idx + 1, more.idx + 1, n);
  }

  lemma {:induction false} OneStarts(h: Handlers, idx: int)
    requires idx >= -1
    ensures StartsSpan(One(h, idx), idx + 1, |h|)
    decreases Left(h, idx), 0
  {
    var k := idx + 1;
    if k < |h| {
      var inner := Calls(h, h[k], k);
      CallsStart(h, h[k], k);
      StartsAround(k, inner.trace);
      SpanJoin(k, k + 1, Min(inner.idx + 1, |h|));
    }
  }

  lemma {:induction false} StartsAround(k: nat, inner: seq<Event>)
    ensures Starts([Start(k)] + inner + [End(k)]) == [k] + Starts(inner)
  {
    StartsConcat([Start(k)] + inner, [End(k)]);
    StartsConcat([Start(k)], inner);
    assert Starts([Start(k)]) == [k] && Starts([End(k)]) == [];
  }

  lemma {:induction false} SpanMin(lo: nat, mid: nat, hi: nat, n: nat)
    requires lo <= mid <= hi
    ensures Span(lo, Min(mid, n)) + Span(mid, Min(hi, n)) == Span(lo, Min(hi, n))
  {
    if mid <= n {
      SpanJoin(lo, mid, Min(hi, n));
    }
  }

  lemma {:induction false} SpanJoin(lo: nat, mid: nat, hi: int)
    requires lo <= mid <= hi
    ensures Span(lo, mid) + Span(mid, hi) == Span(lo, hi)
    ensures mid == lo + 1 ==> Span(lo, mid) == [lo]
  {
  }

  // ---- how far a chain gets ----

  function Total(h: Handlers, n: nat): nat
    requires n <= |h|
  {
    if n == 0 then 0 else Total(h, n - 1) + h[n - 1]
  }

  lemma {:induction false} CallsAdd(h: Handlers, a: nat, b: nat, idx: int)
    requires idx >= -1
    ensures Calls(h, a + b, idx).idx == Calls(h, b, Calls(h, a, idx).idx).idx
    decreases a
  {
    if a > 0 {
      CallsAdd(h, a - 1, b, One(h, idx).idx);
    }
  }

  /** Pending calls pile up: starting handler k spends one and adds its own. */
  lemma CallsPile(h: Handlers, c: nat, k: nat)
    requires c > 0 && k < |h|
    ensures Calls(h, c, k - 1).idx == Calls(h, c - 1 + h[k], k).idx
  {
    CallsAdd(h, h[k], c - 1, k);
  }

  /** Handler k starts exactly when the handlers before any point call Next often enough to get past it. */
  ghost predicate Reached(h: Handlers, k: nat)
    requires k < |h|
  {
    forall s | 1 <= s <= k :: Total(h, s) >= s
  }

  lemma {:induction false} ReachedFrom(h: Handlers, n: nat, k: nat)
    requires n <= k < |h| && Total(h, n) + 1 >= n + 1
    requires forall s | 1 <= s <= n :: Total(h, s) >= s
    ensures Calls(h, Total(h, n) + 1 - n, n - 1).idx >= k <==> Reached(h, k)
    decreases k - n
  {
    var c := Total(h, n) + 1 - n;
    CallsPile(h, c, n);
    assert Total(h, n + 1) == Total(h, n) + h[n];
    if n == k {
      assert Calls(h, c, n - 1).idx >= n - 1 + c;
    } else if Total(h, n + 1) >= n + 1 {
      ReachedFrom(h, n + 1, k);
    } else {
      assert c - 1 + h[n] == 0;
    }
  }

  /**
   The run of a whole chain: each handler starts at most once, the starts are a prefix of the
   chain in index order, and how long a prefix is decided by the number of calls.
   */
  lemma {:induction false} ChainRuns(h: Handlers, k: nat)
    requires k < |h|
    ensures var r := One(h, -1);
      && Starts(r.trace) == Span(0, Min(r.idx + 1, |h|))
      && (k in Starts(r.trace) <==> Reached(h, k))
  {
    var r := One(h, -1);
    OneStarts(h, -1);
    StartsIff(h, k);
    InSpan(0, Min(r.idx + 1, |h|), k);
  }

  lemma {:induction false} StartsIff(h: Handlers, k: nat)
    requires k < |h|
    ensures One(h, -1).idx >= k <==> Reached(h, k)
  {
    ReachedFrom(h, 0, k);
    OneIsCalls(h);
  }

  lemma {:induction false} OneIsCalls(h: Handlers)
    ensures Calls(h, Total(h, 0) + 1 - 0, 0 - 1).idx == One(h, -1).idx
  {
    assert Calls(h, 0, One(h, -1).idx).idx == One(h, -1).idx;
  }

  lemma {:induction false} InSpan(lo: nat, hi: int, k: nat)
    ensures k in Span(lo, hi) <==> lo <= k < hi
  {
    var r := Span(lo, hi);
    if lo <= k < hi {
      assert r[k - lo] == k;
    }
  }

  /** If no handler calls Next twice, nothing after one that never calls it runs. */
  lemma {:induction false} SingleCallsStop(h: Handlers, i: nat, k: nat)
    requires i < k < |h| && h[i] == 0 && forall j | 0 <= j < i :: h[j] <= 1
    ensures k !in Starts(One(h, -1).trace)
  {
    ChainRuns(h, k);
    TotalAtMost(h, i);
    assert Total(h, i + 1) == Total(h, i);
  }

  lemma {:induction false} TotalAtMost(h: Handlers, n: nat)
    requires n <= |h| && forall j | 0 <= j < n :: h[j] <= 1
    ensures Total(h, n) <= n
  {
    if n > 0 {
      TotalAtMost(h, n - 1);
    }
  }

  /** But a second call by an earlier handler runs past one that meant to stop the chain. */
  lemma {:induction false} SecondCallRunsPast(h: Handlers)
    requires h == [2, 0, 0]
    ensures Starts(One(h, -1).trace) == [0, 1, 2]
  {
    assert Total(h, 0) == 0 && Total(h, 1) == Total(h, 0) + 2 && Total(h, 2) == Total(h, 1) + 0;
    assert Reached(h, 2);
    ChainRuns(h, 2);
    ThreeStarts(Starts(One(h, -1).trace), Min(One(h, -1).idx + 1, 3));
  }

  lemma ThreeStarts(r: seq<nat>, hi: int)
    requires r == Span(0, hi) && hi <= 3 && 2 in r
    ensures r == [0, 1, 2]
  {
    InSpan(0, hi, 2);
  }

  // ---- a chain entered in the middle ----

  function Shifted(r: Run, n: nat): Run {
    Run(r.idx + n, ShiftedTrace(r.trace, n))
  }

  function ShiftedTrace(trace: seq<Event>, n: nat): (r: seq<Event>)
    ensures |r| == |trace|
  {
    seq(|trace|, i requires 0 <= i < |trace| =>
      match trace[i]
      case Start(k) => Start(k + n)
      case End(k) => End(k + n))
  }

  /** From index idx + n on, a chain does what its suffix from n does from idx. */
  lemma {:induction false} CallsSuffix(h: Handlers, n: nat, c: nat, idx: int)
    requires idx >= -1 && n <= |h|
    ensures Calls(h, c, idx + n) == Shifted(Calls(h[n..], c, idx), n)
    decreases Left(h, idx + n), 1, c
  {
    if c > 0 {
      OneSuffix(h, n, idx);
      CallsSuffix(h, n, c - 1, One(h[n..], idx).idx);
      var a, b := One(h[n..], idx).trace, Calls(h[n..], c - 1, One(h[n..], idx).idx).trace;
      assert ShiftedTrace(a + b, n) == ShiftedTrace(a, n) + ShiftedTrace(b, n);
    }
  }

  lemma {:induction false} OneSuffix(h: Handlers, n: nat, idx: int)
    requires idx >= -1 && n <= |h|
    ensures One(h, idx + n) == Shifted(One(h[n..], idx), n)
    decreases Left(h, idx + n), 0
  {
    var k := idx + 1;
    if k + n < |h| {
      CallsSuffix(h, n, h[k + n], k);
      var t := Calls(h[n..], h[n..][k], k).trace;
      assert ShiftedTrace([Start(k)] + t + [End(k)], n) == [Start(k + n)] + ShiftedTrace(t, n) + [End(k + n)];
    }
  }

  /** Next at idx starts handler k exactly when the handlers from idx on call Next often enough. */
  lemma {:induction false} SuffixRuns(h: Handlers, idx: int, k: nat)
    requires -1 <= idx < k < |h|
    ensures k in Starts(One(h, idx).trace) <==> Reached(h[idx + 1..], k - idx - 1)
  {
    var n := idx + 1;
    OneSuffix(h, n, -1);
    OneStarts(h, idx);
    StartsIff(h[n..], k - n);
    InSpan(n, Min(One(h, idx).idx + 1, |h|), k);
  }

  // ---- handlers wrap around those they start ----

  datatype Stack = Running(open: seq<nat>) | OutOfTurn

  /** The handlers still running after the trace, innermost last. */
  function After(trace: seq<Event>, open: seq<nat>): Stack {
    if trace == [] then Running(open)
    else
      match trace[0]
      case Start(k) => After(trace[1..], open + [k])
      case End(k) =>
        if open != [] && open[|open| - 1] == k then After(trace[1..], open[..|open| - 1]) else OutOfTurn
  }

  lemma {:induction false} AfterConcat(a: seq<Event>, b: seq<Event>, open: seq<nat>)
    requires After(a, open).Running?
    ensures After(a + b, open) == After(b, After(a, open).open)
  {
    if a == [] {
      assert a + b == b;
    } else {
      assert (a + b)[1..] == a[1..] + b;
      match a[0]
      case Start(k) => AfterConcat(a[1..], b, open + [k]);
      case End(k) => AfterConcat(a[1..], b, open[..|open| - 1]);
    }
  }

  lemma {:induction false} CallsNest(h: Handlers, c: nat, idx: int, open: seq<nat>)
    requires idx >= -1
    ensures After(Calls(h, c, idx).trace, open) == Running(open)
    decreases Left(h, idx), 1, c
  {
    if c > 0 {
      OneNests(h, idx, open);
      CallsNest(h, c - 1, One(h, idx).idx, open);
      AfterConcat(One(h, idx).trace, Calls(h, c - 1, One(h, idx).idx).trace, open);
    }
  }

  /** What Next starts ends in turn, the last started first, and is over when Next returns. */
  lemma {:induction false} OneNests(h: Handlers, idx: int, open: seq<nat>)
    requires idx >= -1
    ensures After(One(h, idx).trace, open) == Running(open)
    ensures idx + 1 < |h| ==> var t := One(h, idx).trace; t != [] && t[0] == Start(idx + 1) && t[|t| - 1] == End(idx + 1)
    decreases Left(h, idx), 0
  {
    var k := idx + 1;
    if k < |h| {
      var inner := Calls(h, h[k], k).trace;
      CallsNest(h, h[k], k, open + [k]);
      AfterConcat(inner, [End(k)], open + [k]);
      Ended(k, open);
      assert ([Start(k)] + inner + [End(k)])[1..] == inner + [End(k)];
    }
  }

  lemma Ended(k: nat, open: seq<nat>)
    ensures After([End(k)], open + [k]) == Running(open)
  {
    assert (open + [k])[..|open|] == open && [End(k)][1..] == [];
  }

  /** Handlers lo to below hi, each around the next. */
  function Onion(lo: nat, hi: nat): seq<Event>
    decreases hi - lo
  {
    if lo >= hi then [] else [Start(lo)] + Onion(lo + 1, hi) + [End(lo)]
  }

  /** One past the first handler from k on that does not call Next, or the end of the chain. */
  function Depth(h: Handlers, k: nat): (d: nat)
    requires k <= |h|
    ensures k <= d <= |h|
    decreases |h| - k
  {
    if k == |h| then k else if h[k] == 0 then k + 1 else Depth(h, k + 1)
  }

  /** Where no handler calls Next twice, each runs around the next, down to the first that does not call it. */
  lemma {:induction false} SingleCallsWrap(h: Handlers, idx: int)
    requires -1 <= idx < |h| && forall i | 0 <= i < |h| :: h[i] <= 1
    ensures One(h, idx).trace == Onion(idx + 1, Depth(h, idx + 1))
    decreases |h| - idx
  {
    var k := idx + 1;
    if k < |h| && h[k] == 1 {
      SingleCallsWrap(h, k);
      assert Calls(h, 0, One(h, k).idx).trace == [];
      assert Calls(h, 1, k).trace == One(h, k).trace + [];
    }
  }
}
