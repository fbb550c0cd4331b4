/**
 SessionRegistry of websocket/websocket.go: the draining flag is read outside the lock, so a
 session can pass the check and be inserted after a drain. Sessions are numbered; a connection
 is open or closed.
 */
module Registry {
  import opened Options

  // ---- the registry run by one thread ----

  class Session {
    var open: bool

    constructor ()
      ensures open
    {
      open := true;
    }

    method Close()
      modifies this
      ensures !open
    {
      open := false;
    }
  }

  class SessionRegistry {
    var sessions: set<Session>
    var draining: bool

    constructor ()
      ensures sessions == {} && !draining
    {
      sessions := {};
      draining := false;
    }

    method Track(s: Session) returns (ok: bool)
      modifies this
      ensures ok == !old(draining) && draining == old(draining)
      ensures sessions == if ok then old(sessions) + {s} else old(sessions)
    {
      if draining {
        return false;
      }
      sessions := sessions + {s};
      return true;
    }

    method Untrack(s: Session)
      modifies this
      ensures sessions == old(sessions) - {s} && draining == old(draining)
    {
      sessions := sessions - {s};
    }

    method DrainContext()
      modifies this, sessions
      ensures draining && sessions == {}
      ensures forall s | s in old(sessions) :: !s.open
    {
      draining := true;
      var current := sessions;
      var rest := current;
      while rest != {}
        invariant rest <= current == old(sessions) && draining
        invariant forall s | s in current && s !in rest :: !s.open
        decreases |rest|
      {
        var s :| s in rest;
        s.Close();
        rest := rest - {s};
      }
      sessions := {};
    }
  }

  // ---- sessions and drains, interleaved ----

  /** A session between its atomic sections; Passed has read draining as false but not inserted itself. */
  datatype Phase = Passed | Running | Leaving | Ended

  /** A drain after setting the flag, while closing its snapshot (todo is what is left), and after clearing. */
  datatype Drain = Begun | Closing(taken: set<nat>, todo: set<nat>) | Cleared(taken: set<nat>)

  /** The registry, the connections, every thread, and when the things of interest happened. */
  datatype World = World(
    draining: bool,
    sessions: set<nat>,
    closed: set<nat>,
    phase: map<nat, Phase>,
    drains: map<nat, Drain>,
    clock: nat,
    drainAt: Option<nat>,
    checkedAt: map<nat, nat>,
    insertedAt: map<nat, nat>,
    snapAt: map<nat, nat>,
    clearAt: map<nat, nat>)

  const INITIAL := World(false, {}, {}, map[], map[], 0, None, map[], map[], map[], map[])

  datatype Step =
    | Check(s: nat)      // track, up to the load of draining
    | Insert(s: nat)     // track, the locked section
    | Untrack(s: nat)    // the handler has returned
    | Close(s: nat)      // and closes its own connection
    | SetFlag(d: nat)
    | Snapshot(d: nat)
    | CloseOne(d: nat, s: nat)
    | Clear(d: nat)

  function Tick(w: World): World {
    w.(clock := w.clock + 1)
  }

  predicate Enabled(w: World, step: Step) {
    match step
    case Check(s) => s !in w.phase
    case Insert(s) => s in w.phase && w.phase[s] == Passed
    case Untrack(s) => s in w.phase && w.phase[s] == Running
    case Close(s) => s in w.phase && w.phase[s] == Leaving
    case SetFlag(d) => d !in w.drains
    case Snapshot(d) => d in w.drains && w.drains[d] == Begun
    case CloseOne(d, s) => d in w.drains && w.drains[d].Closing? && s in w.drains[d].todo
    case Clear(d) => d in w.drains && w.drains[d].Closing? && w.drains[d].todo == {}
  }

  function Apply(w: World, step: Step): World
    requires Enabled(w, step)
  {
    match step
    case Check(s) =>
      if w.draining then
        // rejected: closed with "server draining" and never tracked
        Tick(w.(phase := w.phase[s := Ended], closed := w.closed + {s}))
      else
        Tick(w.(phase := w.phase[s := Passed], checkedAt := w.checkedAt[s := w.clock]))
    case Insert(s) =>
      Tick(w.(phase := w.phase[s := Running], sessions := w.sessions + {s}, insertedAt := w.insertedAt[s := w.clock]))
    case Untrack(s) =>
      Tick(w.(phase := w.phase[s := Leaving], sessions := w.sessions - {s}))
    case Close(s) =>
      Tick(w.(phase := w.phase[s := Ended], closed := w.closed + {s}))
    case SetFlag(d) =>
      Tick(w.(draining := true, drains := w.drains[d := Begun],
        drainAt := if w.drainAt.Some? then w.drainAt else Some(w.clock)))
    case Snapshot(d) =>
      Tick(w.(drains := w.drains[d := Closing(w.sessions, w.sessions)], snapAt := w.snapAt[d := w.clock]))
    case CloseOne(d, s) =>
      Tick(w.(drains := w.drains[d := Closing(w.drains[d].taken, w.drains[d].todo - {s})], closed := w.closed + {s}))
    case Clear(d) =>
      Tick(w.(drains := w.drains[d := Cleared(w.drains[d].taken)], sessions := {}, clearAt := w.clearAt[d := w.clock]))
  }

  ghost predicate Run(steps: seq<Step>, ws: seq<World>) {
    && |ws| == |steps| + 1 && ws[0] == INITIAL
    && forall i | 0 <= i < |steps| :: Enabled(ws[i], steps[i]) && ws[i + 1] == Apply(ws[i], steps[i])
  }

  // ---- what every step keeps ----

  /** The check of a session that got through precedes the first drain. */
  ghost predicate ChecksPrecede(w: World) {
    && (w.draining <==> w.drainAt.Some?)
    && (w.drainAt.Some? ==> w.drainAt.value < w.clock)
    && (forall s | s in w.checkedAt ::
      s in w.phase && w.checkedAt[s] < w.clock && (w.drainAt.Some? ==> w.checkedAt[s] < w.drainAt.value))
    && (forall s | s in w.phase && w.phase[s] != Ended :: s in w.checkedAt)
    && (forall s | s in w.insertedAt :: s in w.checkedAt && s in w.phase && w.phase[s] != Passed && w.insertedAt[s] < w.clock)
    && (forall s | s in w.phase && w.phase[s] == Running :: s in w.insertedAt)
    && (forall s | s in w.sessions :: s in w.phase && w.phase[s] == Running)
  }

  /** Every session of a snapshot is closed or still on the drain's list. */
  ghost predicate SnapshotsClosed(w: World) {
    && (forall d | d in w.drains && w.drains[d].Closing? :: w.drains[d].taken <= w.closed + w.drains[d].todo)
    && (forall d | d in w.drains && w.drains[d].Cleared? :: w.drains[d].taken <= w.closed)
  }

  ghost predicate Finished(w: World, d: nat) {
    d in w.drains && w.drains[d].Cleared? && d in w.snapAt
  }

  /** Inserted after the snapshot of a drain that has finished. */
  ghost predicate Late(w: World, s: nat) {
    s in w.insertedAt && exists d :: Finished(w, d) && w.snapAt[d] < w.insertedAt[s]
  }

  /** A running session is tracked, or closed by a drain, or was inserted too late for one. */
  ghost predicate NoneForgotten(w: World) {
    && (forall d | d in w.drains && !w.drains[d].Begun? :: d in w.snapAt && w.snapAt[d] < w.clock)
    && (forall s | s in w.phase && w.phase[s] == Running :: s in w.sessions || s in w.closed || Late(w, s))
    && (forall s | s in w.sessions :: s in w.insertedAt)
    && (forall s, d | s in w.sessions && Finished(w, d) :: w.snapAt[d] < w.insertedAt[s])
    && (forall s, d | s in w.sessions && d in w.drains && w.drains[d].Closing? ::
      s in w.drains[d].taken || w.snapAt[d] < w.insertedAt[s])
  }

  ghost predicate Inv(w: World) {
    ChecksPrecede(w) && SnapshotsClosed(w) && NoneForgotten(w)
  }

  lemma LateStays(w: World, u: World, s: nat)
    requires Late(w, s)
    requires s in u.insertedAt && u.insertedAt[s] == w.insertedAt[s]
    requires forall d | Finished(w, d) :: Finished(u, d) && u.snapAt[d] == w.snapAt[d]
    ensures Late(u, s)
  {
    var d :| Finished(w, d) && w.snapAt[d] < w.insertedAt[s];
    assert Finished(u, d);
  }

  lemma StartChecksKeep(w: World, step: Step)
    requires ChecksPrecede(w) && Enabled(w, step) && (step.Check? || step.Insert?)
    ensures ChecksPrecede(Apply(w, step))
  {
    match step
    case Check(_) =>
    case Insert(_) =>
  }

  lemma EndChecksKeep(w: World, step: Step)
    requires ChecksPrecede(w) && Enabled(w, step) && (step.Untrack? || step.Close?)
    ensures ChecksPrecede(Apply(w, step))
  {
    match step
    case Untrack(_) =>
    case Close(_) =>
  }

  lemma ChecksKeep(w: World, step: Step)
    requires ChecksPrecede(w) && Enabled(w, step)
    ensures ChecksPrecede(Apply(w, step))
  {
    if step.Check? || step.Insert? {
      StartChecksKeep(w, step);
    } else if step.Untrack? || step.Close? {
      EndChecksKeep(w, step);
    } else {
      assert Apply(w, step).sessions <= w.sessions;
    }
  }

  lemma SnapshotsKeep(w: World, step: Step)
    requires SnapshotsClosed(w) && Enabled(w, step)
    ensures SnapshotsClosed(Apply(w, step))
  {
    match step
    case Check(_) =>
    case Insert(_) =>
    case Untrack(_) =>
    case Close(_) =>
    case SetFlag(_) =>
    case Snapshot(_) =>
    case CloseOne(_, _) =>
    case Clear(_) =>
  }

  /** What is late stays late under a step that finishes drains but undoes none. */
  lemma AllLateStay(w: World, u: World)
    requires forall d | Finished(w, d) :: Finished(u, d) && u.snapAt[d] == w.snapAt[d]
    requires forall s | s in w.insertedAt :: s in u.insertedAt && u.insertedAt[s] == w.insertedAt[s]
    ensures forall s | Late(w, s) :: Late(u, s)
  {
    forall s | Late(w, s) ensures Late(u, s) {
      LateStays(w, u, s);
    }
  }

  lemma InsertForgetsNone(w: World, s: nat)
    requires ChecksPrecede(w) && NoneForgotten(w) && Enabled(w, Insert(s))
    ensures NoneForgotten(Apply(w, Insert(s)))
  {
    AllLateStay(w, Apply(w, Insert(s)));
  }

  lemma ClearForgetsNone(w: World, d: nat)
    requires Inv(w) && Enabled(w, Clear(d))
    ensures NoneForgotten(Apply(w, Clear(d)))
  {
    var u := Apply(w, Clear(d));
    AllLateStay(w, u);
    forall s | s in w.sessions ensures s in u.closed || Late(u, s) {
      assert Finished(u, d);
    }
  }

  lemma DrainForgetsNone(w: World, step: Step)
    requires Inv(w) && Enabled(w, step) && (step.SetFlag? || step.CloseOne?)
    ensures NoneForgotten(Apply(w, step))
  {
    AllLateStay(w, Apply(w, step));
    match step
    case SetFlag(_) =>
    case CloseOne(_, _) =>
  }

  lemma SnapshotForgetsNone(w: World, d: nat)
    requires Inv(w) && Enabled(w, Snapshot(d))
    ensures NoneForgotten(Apply(w, Snapshot(d)))
  {
    AllLateStay(w, Apply(w, Snapshot(d)));
  }

  lemma SessionForgetsNone(w: World, step: Step)
    requires Inv(w) && Enabled(w, step) && (step.Check? || step.Untrack? || step.Close?)
    ensures NoneForgotten(Apply(w, step))
  {
    AllLateStay(w, Apply(w, step));
    match step
    case Check(_) =>
    case Untrack(_) =>
    case Close(_) =>
  }

  lemma StepKeeps(w: World, step: Step)
    requires Inv(w) && Enabled(w, step)
    ensures Inv(Apply(w, step))
    ensures w.draining ==> Apply(w, step).draining
  {
    ChecksKeep(w, step);
    SnapshotsKeep(w, step);
    match step
    case Insert(s) => InsertForgetsNone(w, s);
    case Clear(d) => ClearForgetsNone(w, d);
    case SetFlag(_) => DrainForgetsNone(w, step);
    case Snapshot(d) => SnapshotForgetsNone(w, d);
    case CloseOne(_, _) => DrainForgetsNone(w, step);
    case Check(_) => SessionForgetsNone(w, step);
    case Untrack(_) => SessionForgetsNone(w, step);
    case Close(_) => SessionForgetsNone(w, step);
  }

  lemma {:induction false} RunsKeep(steps: seq<Step>, ws: seq<World>, n: nat)
    requires Run(steps, ws) && n < |ws|
    ensures Inv(ws[n])
  {
    if n > 0 {
      RunsKeep(steps, ws, n - 1);
      StepKeeps(ws[n - 1], steps[n - 1]);
    }
  }

  lemma {:induction false} DrainingIsNeverReset(steps: seq<Step>, ws: seq<World>, m: nat, n: nat)
    requires Run(steps, ws) && m <= n < |ws| && ws[m].draining
    ensures ws[n].draining
  {
    if m < n {
      DrainingIsNeverReset(steps, ws, m, n - 1);
      RunsKeep(steps, ws, n - 1);
      StepKeeps(ws[n - 1], steps[n - 1]);
    }
  }

  predicate Rejected(w: World, s: nat) {
    s in w.phase && w.phase[s] == Ended && s in w.closed && s !in w.checkedAt
  }

  lemma RejectedStays(w: World, step: Step, s: nat)
    requires Enabled(w, step) && Rejected(w, s)
    ensures Rejected(Apply(w, step), s)
  {
    match step
    case Check(_) =>
    case _ =>
  }

  lemma CheckRejects(w: World, s: nat)
    requires ChecksPrecede(w) && w.draining && Enabled(w, Check(s))
    ensures Rejected(Apply(w, Check(s)), s)
  {
  }

  lemma {:induction false} LateCheckRejected(steps: seq<Step>, ws: seq<World>, i: nat, s: nat, n: nat)
    requires Run(steps, ws) && i < n < |ws| && steps[i] == Check(s) && ws[i].draining
    ensures Rejected(ws[n], s)
  {
    if n == i + 1 {
      RunsKeep(steps, ws, i);
      CheckRejects(ws[i], s);
    } else {
      LateCheckRejected(steps, ws, i, s, n - 1);
      RejectedStays(ws[n - 1], steps[n - 1], s);
    }
  }

  lemma RejectedNotTracked(w: World, s: nat)
    requires ChecksPrecede(w) && Rejected(w, s)
    ensures s !in w.sessions && s !in w.insertedAt
  {
  }

  // ---- which connections are closed ----

  /** Drain d has closed session s. */
  predicate ShutBy(w: World, s: nat, d: nat) {
    d in w.drains &&
    match w.drains[d]
    case Begun => false
    case Closing(taken, todo) => s in taken && s !in todo
    case Cleared(taken) => s in taken
  }

  ghost predicate Shut(w: World, s: nat) {
    (s in w.phase && w.phase[s] == Ended) || exists d :: ShutBy(w, s, d)
  }

  ghost predicate ClosedIsShut(w: World) {
    && (forall d | d in w.drains && w.drains[d].Closing? :: w.drains[d].todo <= w.drains[d].taken)
    && forall s :: s in w.closed <==> Shut(w, s)
  }

  lemma {:induction false} SessionStepShuts(w: World, step: Step, s: nat)
    requires ClosedIsShut(w) && Enabled(w, step) && (step.Check? || step.Insert? || step.Untrack? || step.Close?)
    ensures s in Apply(w, step).closed <==> Shut(Apply(w, step), s)
  {
    var u := Apply(w, step);
    assert forall d :: ShutBy(u, s, d) == ShutBy(w, s, d);
    assert s in w.closed <==> Shut(w, s);
  }

  lemma {:induction false} DrainStepShuts(w: World, step: Step, d: nat, s: nat)
    requires ClosedIsShut(w) && Enabled(w, step)
    requires step == SetFlag(d) || step == Snapshot(d) || step == Clear(d)
    ensures s in Apply(w, step).closed <==> Shut(Apply(w, step), s)
  {
    var u := Apply(w, step);
    assert ShutBy(u, s, d) == ShutBy(w, s, d);
    assert forall e | e != d :: ShutBy(u, s, e) == ShutBy(w, s, e);
    assert s in w.closed <==> Shut(w, s);
  }

  lemma {:induction false} CloseOneShuts(w: World, d: nat, x: nat, s: nat)
    requires ClosedIsShut(w) && Enabled(w, CloseOne(d, x))
    ensures s in Apply(w, CloseOne(d, x)).closed <==> Shut(Apply(w, CloseOne(d, x)), s)
  {
    var u := Apply(w, CloseOne(d, x));
    assert ShutBy(u, s, d) <==> ShutBy(w, s, d) || s == x;
    assert forall e | e != d :: ShutBy(u, s, e) == ShutBy(w, s, e);
    assert s in w.closed <==> Shut(w, s);
  }

  lemma {:induction false} StepShuts(w: World, step: Step)
    requires ClosedIsShut(w) && Enabled(w, step)
    ensures ClosedIsShut(Apply(w, step))
  {
    forall s ensures s in Apply(w, step).closed <==> Shut(Apply(w, step), s) {
      match step
      case SetFlag(d) => DrainStepShuts(w, step, d, s);
      case Snapshot(d) => DrainStepShuts(w, step, d, s);
      case Clear(d) => DrainStepShuts(w, step, d, s);
      case CloseOne(d, x) => CloseOneShuts(w, d, x, s);
      case _ => SessionStepShuts(w, step, s);
    }
  }

  /** A connection is closed exactly when its session has ended or was rejected, or a drain has closed it. */
  lemma {:induction false} ClosedIff(steps: seq<Step>, ws: seq<World>, n: nat, s: nat)
    requires Run(steps, ws) && n < |ws|
    ensures s in ws[n].closed <==>
            (s in ws[n].phase && ws[n].phase[s] == Ended) || exists d :: ShutBy(ws[n], s, d)
  {
    RunsShut(steps, ws, n);
  }

  lemma {:induction false} RunsShut(steps: seq<Step>, ws: seq<World>, n: nat)
    requires Run(steps, ws) && n < |ws|
    ensures ClosedIsShut(ws[n])
  {
    if n > 0 {
      RunsShut(steps, ws, n - 1);
      StepShuts(ws[n - 1], steps[n - 1]);
    }
  }

  /** A session whose check comes after the flag was set is closed and never enters the registry. */
  lemma {:induction false} LateCheckAddsNothing(steps: seq<Step>, ws: seq<World>, i: nat, s: nat, n: nat)
    requires Run(steps, ws) && i < n < |ws| && steps[i] == Check(s) && ws[i].draining
    ensures s in ws[n].closed && s !in ws[n].sessions && s !in ws[n].insertedAt
  {
    RunsKeep(steps, ws, n);
    LateCheckRejected(steps, ws, i, s, n);
    RejectedNotTracked(ws[n], s);
  }

  /** After a drain: its snapshot is closed, and whoever is left checked before and came after. */
  lemma DrainLeavesOnlyLateOnes(steps: seq<Step>, ws: seq<World>, n: nat, d: nat, s: nat)
    requires Run(steps, ws) && n < |ws| && Finished(ws[n], d)
    ensures var w := ws[n];
      && w.drains[d].taken <= w.closed
      && (s in w.sessions ==>
        s in w.checkedAt && w.drainAt.Some? && w.checkedAt[s] < w.drainAt.value &&
        s in w.insertedAt && w.snapAt[d] < w.insertedAt[s])
      && (s in w.phase && w.phase[s] == Running && s !in w.closed ==>
        s in w.checkedAt && w.drainAt.Some? && w.checkedAt[s] < w.drainAt.value && Late(w, s))
  {
    RunsKeep(steps, ws, n);
    FinishedMeansDraining(steps, ws, n, d);
    if s in ws[n].sessions {
      assert ws[n].snapAt[d] < ws[n].insertedAt[s];
    }
    if s in ws[n].sessions && s !in ws[n].closed {
      assert Late(ws[n], s);
    }
  }

  lemma {:induction false} FinishedMeansDraining(steps: seq<Step>, ws: seq<World>, n: nat, d: nat)
    requires Run(steps, ws) && n < |ws| && d in ws[n].drains
    ensures ws[n].draining
  {
    if n > 0 {
      assert ws[n] == Apply(ws[n - 1], steps[n - 1]);
      if d in ws[n - 1].drains {
        FinishedMeansDraining(steps, ws, n - 1, d);
        DrainingIsNeverReset(steps, ws, n - 1, n);
      }
    }
  }

  // ---- exactly which sessions a drain closes ----

  /** No drain has cleared the registry since the session was inserted. */
  predicate Unswept(w: World, s: nat)
    requires s in w.insertedAt
  {
    forall e | e in w.clearAt :: w.clearAt[e] <= w.insertedAt[s]
  }

  /** The drain took its snapshot after the session was inserted, and no clearing came in between. */
  predicate Caught(w: World, s: nat, d: nat)
    requires s in w.insertedAt
  {
    && d in w.snapAt && w.insertedAt[s] < w.snapAt[d]
    && forall e | e in w.clearAt :: !(w.insertedAt[s] < w.clearAt[e] < w.snapAt[d])
  }

  predicate Took(w: World, s: nat, d: nat) {
    d in w.drains && !w.drains[d].Begun? && s in w.drains[d].taken
  }

  predicate IsRunning(w: World, s: nat) {
    s in w.phase && w.phase[s] == Running
  }

  /** The times of snapshots and clearings, and what can be closed or taken at all. */
  ghost predicate Timed(w: World) {
    && (forall d | d in w.snapAt :: w.snapAt[d] < w.clock)
    && (forall d | d in w.clearAt :: w.clearAt[d] < w.clock)
    && (forall d :: d in w.snapAt <==> d in w.drains && !w.drains[d].Begun?)
    && (forall s, d | Took(w, s, d) :: s in w.insertedAt)
    && (forall d | d in w.drains && w.drains[d].Closing? :: w.drains[d].todo <= w.drains[d].taken)
    && (forall s | s in w.closed :: s in w.phase && w.phase[s] != Passed)
  }

  /** The snapshots hold exactly the sessions they caught, and only they close a running one. */
  ghost predicate Accounted(w: World)
    requires ChecksPrecede(w)
  {
    && (forall s | IsRunning(w, s) :: s in w.sessions <==> Unswept(w, s))
    && (forall s, d | IsRunning(w, s) :: Took(w, s, d) <==> Caught(w, s, d))
    && (forall s | IsRunning(w, s) && s in w.closed :: exists d :: Took(w, s, d))
  }

  lemma SessionTimes(w: World, step: Step)
    requires ChecksPrecede(w) && Timed(w) && Enabled(w, step) && (step.Check? || step.Insert? || step.Untrack? || step.Close?)
    ensures Timed(Apply(w, step))
  {
    var u := Apply(w, step);
    forall s, d | Took(u, s, d) ensures s in u.insertedAt {
      assert Took(w, s, d);
    }
  }

  lemma DrainTimes(w: World, step: Step)
    requires ChecksPrecede(w) && Timed(w) && Enabled(w, step) && !(step.Check? || step.Insert? || step.Untrack? || step.Close?)
    ensures Timed(Apply(w, step))
  {
    var u := Apply(w, step);
    forall s, d | Took(u, s, d) ensures s in u.insertedAt {
      assert Took(w, s, d) || (step == Snapshot(d) && s in w.sessions);
    }
    if step.CloseOne? {
      assert Took(w, step.s, step.d);
    }
  }

  /** A step that touches neither drains nor insertions leaves the accounts of who goes on running. */
  lemma SameAccounts(w: World, u: World)
    requires ChecksPrecede(w) && ChecksPrecede(u) && Accounted(w)
    requires u.drains == w.drains && u.snapAt == w.snapAt && u.clearAt == w.clearAt && u.insertedAt == w.insertedAt
    requires forall s | IsRunning(u, s) :: IsRunning(w, s)
    requires forall s | IsRunning(u, s) :: (s in u.sessions <==> s in w.sessions) && (s in u.closed <==> s in w.closed)
    ensures Accounted(u)
  {
    forall s, d | IsRunning(u, s) ensures (Took(u, s, d) <==> Took(w, s, d)) && (Caught(u, s, d) <==> Caught(w, s, d)) {
    }
    forall s | IsRunning(u, s) && s in u.closed ensures exists d :: Took(u, s, d) {
      var d :| Took(w, s, d);
      assert Took(u, s, d);
    }
  }

  lemma InsertAccounts(w: World, s: nat)
    requires ChecksPrecede(w) && Timed(w) && Accounted(w) && Enabled(w, Insert(s))
    requires ChecksPrecede(Apply(w, Insert(s)))
    ensures Accounted(Apply(w, Insert(s)))
  {
    var u := Apply(w, Insert(s));
    forall x, d | IsRunning(u, x) ensures Took(u, x, d) <==> Caught(u, x, d) {
      assert Took(u, x, d) <==> Took(w, x, d);
      if x != s {
        assert Caught(u, x, d) <==> Caught(w, x, d);
      }
    }
    forall x | IsRunning(u, x) && x in u.closed ensures exists d :: Took(u, x, d) {
      var d :| Took(w, x, d);
      assert Took(u, x, d);
    }
  }

  lemma SnapshotAccounts(w: World, d: nat)
    requires ChecksPrecede(w) && Timed(w) && Accounted(w) && Enabled(w, Snapshot(d))
    requires ChecksPrecede(Apply(w, Snapshot(d)))
    ensures Accounted(Apply(w, Snapshot(d)))
  {
    var u := Apply(w, Snapshot(d));
    forall s, x | IsRunning(u, s) ensures Took(u, s, x) <==> Caught(u, s, x) {
      if x != d {
        assert (Took(u, s, x) <==> Took(w, s, x)) && (Caught(u, s, x) <==> Caught(w, s, x));
      } else {
        assert Took(u, s, d) <==> s in w.sessions;
        assert Caught(u, s, d) <==> Unswept(w, s);
      }
    }
    forall s | IsRunning(u, s) && s in u.closed ensures exists x :: Took(u, s, x) {
      var x :| Took(w, s, x);
      assert Took(u, s, x);
    }
  }

  lemma CloseAccounts(w: World, d: nat, c: nat)
    requires ChecksPrecede(w) && Timed(w) && Accounted(w) && Enabled(w, CloseOne(d, c))
    requires ChecksPrecede(Apply(w, CloseOne(d, c)))
    ensures Accounted(Apply(w, CloseOne(d, c)))
  {
    var u := Apply(w, CloseOne(d, c));
    forall s, x | IsRunning(u, s) ensures (Took(u, s, x) <==> Took(w, s, x)) && (Caught(u, s, x) <==> Caught(w, s, x)) {
    }
    forall s | IsRunning(u, s) && s in u.closed ensures exists x :: Took(u, s, x) {
      if s in w.closed {
        var x :| Took(w, s, x);
        assert Took(u, s, x);
      } else {
        assert Took(u, s, d);
      }
    }
  }

  lemma ClearAccounts(w: World, d: nat)
    requires ChecksPrecede(w) && Timed(w) && Accounted(w) && Enabled(w, Clear(d)) && d !in w.clearAt
    requires ChecksPrecede(Apply(w, Clear(d)))
    ensures Accounted(Apply(w, Clear(d)))
  {
    var u := Apply(w, Clear(d));
    forall s, x | IsRunning(u, s) ensures Took(u, s, x) <==> Caught(u, s, x) {
      assert Took(u, s, x) <==> Took(w, s, x);
      assert Caught(u, s, x) ==> Caught(w, s, x) by {
        assert forall e | e in w.clearAt :: e in u.clearAt && u.clearAt[e] == w.clearAt[e];
      }
      assert Caught(w, s, x) ==> Caught(u, s, x) by {
        assert forall e | e in u.clearAt :: e == d || (e in w.clearAt && u.clearAt[e] == w.clearAt[e]);
      }
    }
    forall s | IsRunning(u, s) ensures s in u.sessions <==> Unswept(u, s) {
      assert u.clearAt[d] > u.insertedAt[s];
    }
    forall s | IsRunning(u, s) && s in u.closed ensures exists x :: Took(u, s, x) {
      var x :| Took(w, s, x);
      assert Took(u, s, x);
    }
  }

  /** A drain clears once. */
  ghost predicate ClearsOnce(w: World) {
    forall d :: d in w.clearAt <==> d in w.drains && w.drains[d].Cleared?
  }

  ghost predicate Settled(w: World) {
    ChecksPrecede(w) && Timed(w) && ClearsOnce(w) && Accounted(w)
  }

  lemma ClearsOnceKeeps(w: World, step: Step)
    requires ClearsOnce(w) && Enabled(w, step)
    ensures ClearsOnce(Apply(w, step))
  {
    match step
    case Clear(_) =>
    case _ =>
  }

  lemma SessionAccounts(w: World, step: Step)
    requires ChecksPrecede(w) && Timed(w) && Accounted(w) && Enabled(w, step) && ChecksPrecede(Apply(w, step))
    requires step.Check? || step.Insert? || step.Untrack? || step.Close?
    ensures Accounted(Apply(w, step))
  {
    if step.Insert? {
      InsertAccounts(w, step.s);
    } else {
      SameAccounts(w, Apply(w, step));
    }
  }

  lemma DrainAccounts(w: World, step: Step)
    requires ChecksPrecede(w) && Timed(w) && ClearsOnce(w) && Accounted(w) && Enabled(w, step)
    requires ChecksPrecede(Apply(w, step)) && !(step.Check? || step.Insert? || step.Untrack? || step.Close?)
    ensures Accounted(Apply(w, step))
  {
    match step
    case Snapshot(d) => SnapshotAccounts(w, d);
    case CloseOne(d, s) => CloseAccounts(w, d, s);
    case Clear(d) => ClearAccounts(w, d);
    case SetFlag(d) => FlagAccounts(w, d);
  }

  lemma AccountKeeps(w: World, step: Step)
    requires Inv(w) && Settled(w) && Enabled(w, step)
    ensures Inv(Apply(w, step)) && Settled(Apply(w, step))
  {
    StepKeeps(w, step);
    ClearsOnceKeeps(w, step);
    if step.Check? || step.Insert? || step.Untrack? || step.Close? {
      SessionTimes(w, step);
      SessionAccounts(w, step);
    } else {
      DrainTimes(w, step);
      DrainAccounts(w, step);
    }
  }

  lemma FlagAccounts(w: World, d: nat)
    requires ChecksPrecede(w) && Timed(w) && Accounted(w) && Enabled(w, SetFlag(d))
    requires ChecksPrecede(Apply(w, SetFlag(d)))
    ensures Accounted(Apply(w, SetFlag(d)))
  {
    var u := Apply(w, SetFlag(d));
    forall s, x | IsRunning(u, s) ensures (Took(u, s, x) <==> Took(w, s, x)) && (Caught(u, s, x) <==> Caught(w, s, x)) {
    }
    forall s | IsRunning(u, s) && s in u.closed ensures exists x :: Took(u, s, x) {
      var x :| Took(w, s, x);
      assert Took(u, s, x);
    }
  }

  lemma {:induction false} RunsAccount(steps: seq<Step>, ws: seq<World>, n: nat)
    requires Run(steps, ws) && n < |ws|
    ensures Inv(ws[n]) && Settled(ws[n])
  {
    if n > 0 {
      RunsAccount(steps, ws, n - 1);
      AccountKeeps(ws[n - 1], steps[n - 1]);
    }
  }

  /** In every run a running session is tracked exactly while no drain has cleared since its insertion. */
  lemma {:induction false} TrackedIff(steps: seq<Step>, ws: seq<World>, n: nat, s: nat)
    requires Run(steps, ws) && n < |ws| && IsRunning(ws[n], s)
    ensures s in ws[n].insertedAt && (s in ws[n].sessions <==> Unswept(ws[n], s))
  {
    RunsAccount(steps, ws, n);
  }

  /** Once all drains have finished, a running session is open exactly when none of them caught it. */
  lemma {:induction false} OpenIff(steps: seq<Step>, ws: seq<World>, n: nat, s: nat)
    requires Run(steps, ws) && n < |ws| && IsRunning(ws[n], s)
    requires forall d | d in ws[n].drains :: ws[n].drains[d].Cleared?
    ensures s in ws[n].insertedAt && (s !in ws[n].closed <==> forall d :: !Caught(ws[n], s, d))
  {
    RunsAccount(steps, ws, n);
    var w := ws[n];
    if s in w.closed {
      var d :| Took(w, s, d);
      assert Caught(w, s, d);
    }
    forall d | Caught(w, s, d) ensures s in w.closed {
      assert Took(w, s, d);
    }
  }

  /** With one drain: exactly when it was inserted after the snapshot. */
  lemma {:induction false} OpenAfterOneDrainIff(steps: seq<Step>, ws: seq<World>, n: nat, s: nat, d: nat)
    requires Run(steps, ws) && n < |ws| && IsRunning(ws[n], s)
    requires ws[n].drains.Keys == {d} && ws[n].drains[d].Cleared?
    ensures s in ws[n].insertedAt && d in ws[n].snapAt
    ensures s !in ws[n].closed <==> ws[n].snapAt[d] <= ws[n].insertedAt[s]
  {
    var w := ws[n];
    RunsAccount(steps, ws, n);
    OpenIff(steps, ws, n, s);
    ClearFollowsSnapshot(steps, ws, n, d);
    assert forall x | Caught(w, s, x) :: x == d;
    assert Caught(w, s, d) <==> w.insertedAt[s] < w.snapAt[d];
  }

  lemma {:induction false} ClearFollowsSnapshot(steps: seq<Step>, ws: seq<World>, n: nat, d: nat)
    requires Run(steps, ws) && n < |ws| && d in ws[n].clearAt
    ensures d in ws[n].snapAt && ws[n].snapAt[d] < ws[n].clearAt[d]
  {
    RunsAccount(steps, ws, n);
    if n > 0 {
      var w := ws[n - 1];
      RunsAccount(steps, ws, n - 1);
      assert ws[n] == Apply(w, steps[n - 1]);
      if d in w.clearAt {
        ClearFollowsSnapshot(steps, ws, n - 1, d);
      }
    }
  }

  /** The late ones exist: checked, then drained past, then inserted and left open. */
  lemma ASessionCanOutliveADrain() returns (steps: seq<Step>, ws: seq<World>)
    ensures Run(steps, ws)
    ensures var w := ws[|steps|]; Finished(w, 0) && 0 in w.sessions && 0 !in w.closed
  {
    var w1 := Apply(INITIAL, Check(0));
    var w2 := Apply(w1, SetFlag(0));
    var w3 := Apply(w2, Snapshot(0));
    var w4 := Apply(w3, Clear(0));
    var w5 := Apply(w4, Insert(0));
    steps := [Check(0), SetFlag(0), Snapshot(0), Clear(0), Insert(0)];
    ws := [INITIAL, w1, w2, w3, w4, w5];
  }
}
