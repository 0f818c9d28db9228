/** Pieces of runs of Protocol, for putting together runs that reach a given state. */
module Runs {
  import opened Basics
  import opened TaskQueue
  import opened Protocol
  import opened Shutdown

  lemma Go(c: Config, s: State, a: Action) returns (r: State)
    requires Reachable(c, s) && WellFormed(c, s) && Enabled(c, s, a)
    ensures r == Step(c, s, a) && Reachable(c, r) && WellFormed(c, r) && |r.workers| == c.workers
  {
    r := Step(c, s, a);
    ReachableStep(c, s, a);
    StepWellFormed(c, s, a);
  }

  /** A worker at the loop head takes the first entry. */
  lemma PickHead(c: Config, s: State, w: nat) returns (r: State)
    requires Reachable(c, s) && WellFormed(c, s) && w < c.workers
    requires s.lock.None? && s.workers[w].phase.Top? && s.tasks != [] && !Foreign(s.tasks[0], w)
    requires s.tasks[0].fiber.Some? ==>
      s.tasks[0].fiber.value < |s.fibers| && s.fibers[s.tasks[0].fiber.value].st != EXEC
    ensures Reachable(c, r) && WellFormed(c, r)
    ensures r.workers == s.workers[w := s.workers[w].(phase := Held(s.tasks[0]))]
    ensures r.tasks == s.tasks[1..] && r.lock.None? && r.fibers == s.fibers && r.autoStop == s.autoStop
  {
    assert |s.workers| == c.workers;
    hide Reachable, WellFormed, ScanStep;
    var r1 := Go(c, s, Loop(w));
    assert r1 == s.(workers := s.workers[w := s.workers[w].(phase := Scan(0))], lock := Some(w));
    r := Go(c, r1, Loop(w));
    assert r == ScanStep(r1, w, 0);
    ScanTakes(r1, w);
    assert r.workers == s.workers[w := s.workers[w].(phase := Held(s.tasks[0]))];
  }

  lemma ScanTakes(s: State, w: nat)
    requires w < |s.workers| && s.tasks != [] && !Foreign(s.tasks[0], w)
    requires s.tasks[0].fiber.Some? ==>
      s.tasks[0].fiber.value < |s.fibers| && s.fibers[s.tasks[0].fiber.value].st != EXEC
    ensures ScanStep(s, w, 0) == s.(workers := s.workers[w := s.workers[w].(phase := Held(s.tasks[0]))],
                                    tasks := s.tasks[1..], active := s.active + 1, lock := None)
  {
    assert RemoveAt(s.tasks, 0) == s.tasks[1..];
  }

  /** A worker that holds a fiber switches to it. */
  lemma SwitchesTo(c: Config, s: State, w: nat, f: nat) returns (r: State)
    requires Reachable(c, s) && WellFormed(c, s) && w < c.workers == |s.workers| && s.workers[w].phase.Held?
    requires s.workers[w].phase.task.fiber == Some(f) && f < |s.fibers| && !Finished(s.fibers[f].st)
    ensures Reachable(c, r) && WellFormed(c, r)
    ensures r.workers == s.workers[w := s.workers[w].(phase := Running(f, false))]
    ensures r.tasks == s.tasks && r.lock == s.lock && r.autoStop == s.autoStop
    ensures r.fibers == s.fibers[f := s.fibers[f].(st := EXEC)]
  {
    assert Known(s.workers[w].cbFiber, |s.fibers|);
    hide Reachable, WellFormed, ScanStep, Move, ClearCb, EnterNew, EnterIdle;
    r := Go(c, s, Loop(w));
    assert r == Dispatch(s, w, s.workers[w].phase.task);
  }

  /** A worker at the loop head takes the first entry and switches to its fiber. */
  lemma RunHead(c: Config, s: State, w: nat, f: nat) returns (r: State)
    requires Reachable(c, s) && WellFormed(c, s) && w < c.workers
    requires s.lock.None? && s.workers[w].phase.Top? && s.tasks != [] && !Foreign(s.tasks[0], w)
    requires s.tasks[0].fiber == Some(f) && f < |s.fibers| && (s.fibers[f].st == INIT || s.fibers[f].st == READY)
    ensures Reachable(c, r) && WellFormed(c, r)
    ensures r.workers == s.workers[w := s.workers[w].(phase := Running(f, false))]
    ensures r.tasks == s.tasks[1..] && r.lock.None? && r.autoStop == s.autoStop
    ensures r.fibers == s.fibers[f := s.fibers[f].(st := EXEC)]
  {
    assert |s.workers| == c.workers;
    hide Reachable, WellFormed;
    var r1 := PickHead(c, s, w);
    r := SwitchesTo(c, r1, w, f);
    assert r.workers == s.workers[w := s.workers[w].(phase := Running(f, false))];
  }

  /** ... or, when it is a callback and no fiber is kept, to a new fiber. */
  lemma RunCallback(c: Config, s: State, w: nat) returns (r: State)
    requires Reachable(c, s) && WellFormed(c, s) && w < c.workers
    requires s.lock.None? && s.workers[w].phase.Top? && s.tasks != [] && !Foreign(s.tasks[0], w)
    requires s.tasks[0].fiber.None? && s.tasks[0].cb.Some? && s.workers[w].cbFiber.None?
    ensures Reachable(c, r) && WellFormed(c, r)
    ensures r.workers == s.workers[w := s.workers[w].(phase := Running(|s.fibers|, true), cbFiber := Some(|s.fibers|))]
    ensures r.tasks == s.tasks[1..] && r.lock.None?
    ensures r.fibers == s.fibers + [Fiber(EXEC, true)] && r.autoStop == s.autoStop
  {
    assert |s.workers| == c.workers;
    hide Reachable, WellFormed, ScanStep, Move, ClearCb, Enter, EnterIdle;
    var r1 := PickHead(c, s, w);
    assert r1.workers[w].phase == Held(s.tasks[0]) && !Resumable(r1, s.tasks[0]);
    r := Go(c, r1, Loop(w));
    assert r == Dispatch(r1, w, s.tasks[0]);
    assert r.workers == s.workers[w := s.workers[w].(phase := Running(|s.fibers|, true), cbFiber := Some(|s.fibers|))];
  }

  /** A callback runs on the fiber the worker keeps, or, when it keeps none, on a new one that it then keeps. */
  lemma CallbackReuses(c: Config, s: State, w: nat, t: Entry)
    requires WellFormed(c, s) && Enabled(c, s, Loop(w)) && s.workers[w].phase == Held(t) && t.fiber.None? && t.cb.Some?
    ensures var r, kept := Step(c, s, Loop(w)), s.workers[w].cbFiber;
      && w < |r.workers| && r.workers[w].phase.Running? && r.workers[w].phase.viaCb
      && r.workers[w].cbFiber == Some(r.workers[w].phase.f)
      && (kept.Some? ==> r.workers[w].cbFiber == kept && |r.fibers| == |s.fibers|)
      && (kept.None? ==> r.workers[w].cbFiber == Some(|s.fibers|) && |r.fibers| == |s.fibers| + 1)
      && r.fibers[r.workers[w].phase.f] == Fiber(EXEC, true)
  {
    hide RemoveAt, ShutDown, NextWorker, ScanStep;
  }

  /** A step of a worker behind the switch that only changes its phase. */
  lemma GoOn(c: Config, s: State, w: nat) returns (r: State)
    requires Reachable(c, s) && WellFormed(c, s) && w < c.workers == |s.workers|
    requires var p := s.workers[w].phase; p.Leaving? || p.Post? || p.CheckExcept? || p.CheckTerm?
    ensures Reachable(c, r) && WellFormed(c, r)
    ensures Known(Named(s.workers[w].phase), |s.fibers|) && r.workers == s.workers[w := NextWorker(s, w)]
    ensures r.tasks == s.tasks && r.lock == s.lock && r.fibers == s.fibers && r.autoStop == s.autoStop
  {
    hide Reachable, NextWorker;
    r := Go(c, s, Loop(w));
  }

  /** A worker whose callback fiber finished resets it and is back at the loop head. */
  lemma FinishesCallback(c: Config, s: State, w: nat, f: nat) returns (r: State)
    requires Reachable(c, s) && WellFormed(c, s) && w < c.workers == |s.workers|
    requires f < |s.fibers| && Finished(s.fibers[f].st)
    requires s.workers[w].phase == Leaving(f, true) || s.workers[w].phase == Post(f, true)
    ensures Reachable(c, r) && WellFormed(c, r)
    ensures r.workers == s.workers[w := s.workers[w].(phase := Top)]
    ensures r.tasks == s.tasks && r.lock == s.lock
    ensures r.fibers == s.fibers[f := Fiber(INIT, false)] && r.autoStop == s.autoStop
  {
    hide Reachable, WellFormed, ScanStep, Dispatch, ShutDown, Move;
    r := s;
    if r.workers[w].phase.Leaving? {
      r := GoOn(c, r, w);
    }
    r := GoOn(c, r, w);
    r := GoOn(c, r, w);
    if r.workers[w].phase.CheckTerm? {
      r := GoOn(c, r, w);
    }
    var r4 := r;
    r := Go(c, r4, Loop(w));
    assert r == ClearCb(r4, w, f);
    assert r.workers == s.workers[w := s.workers[w].(phase := Top)];
  }

  /** A worker whose callback fiber has not finished gives it up. */
  lemma GivesUpCallback(c: Config, s: State, w: nat, f: nat) returns (r: State)
    requires Reachable(c, s) && WellFormed(c, s) && w < c.workers == |s.workers|
    requires f < |s.fibers| && !Finished(s.fibers[f].st)
    requires s.workers[w].phase == Leaving(f, true) || s.workers[w].phase == Post(f, true)
    ensures Reachable(c, r) && WellFormed(c, r)
    ensures r.workers == s.workers[w := s.workers[w].(phase := Top, cbFiber := None)]
    ensures r.tasks == s.tasks && r.lock == s.lock && r.fibers == s.fibers && r.autoStop == s.autoStop
  {
    hide Reachable, WellFormed, ScanStep, Dispatch, ShutDown, Move;
    r := s;
    if r.workers[w].phase.Leaving? {
      r := GoOn(c, r, w);
    }
    r := GoOn(c, r, w);
    r := GoOn(c, r, w);
    r := GoOn(c, r, w);
    assert r.workers == s.workers[w := s.workers[w].(phase := Top, cbFiber := None)];
  }

  /** Both stop flags are set, and worker w is at the loop head if it was not past it. */
  lemma StopsAndStarts(c: Config, s: State, w: nat) returns (r: State)
    requires Reachable(c, s) && WellFormed(c, s) && w < c.workers && s.lock.None? && !s.autoStop
    requires s.tasks != [] && (s.workers[w].phase.Top? || s.workers[w].phase.Parked?)
    ensures Reachable(c, r) && WellFormed(c, r)
    ensures r.workers == s.workers[w := s.workers[w].(phase := Top)]
    ensures r.tasks == s.tasks && r.lock.None? && r.fibers == s.fibers && r.leaked == s.leaked
  {
    assert |s.workers| == c.workers && !s.stopping by { SoundReachable(c, s); }
    hide Reachable, WellFormed, ScanStep, Dispatch;
    r := Go(c, s, StopAuto);
    r := Go(c, r, StopFlag);
    if r.workers[w].phase.Parked? {
      r := Go(c, r, Loop(w));
    }
    assert r.workers == s.workers[w := s.workers[w].(phase := Top)];
  }

  lemma InitReachable(c: Config)
    ensures Reachable(c, Init(c)) && WellFormed(c, Init(c))
  {
    assert Possible(c, Init(c), []) && After(c, Init(c), []) == Init(c);
  }

  /** One fiber submitted, both stop flags set, and worker w at the loop head. */
  lemma OneFiber(c: Config, w: nat) returns (r: State)
    requires w < c.workers
    ensures Reachable(c, r) && WellFormed(c, r) && r.lock.None? && |r.workers| == c.workers && r.leaked == multiset{}
    ensures r.tasks == [Task(Some(0), None, ANY_THREAD)] && r.fibers == [Fiber(INIT, true)]
    ensures r.workers[w].phase.Top?
    ensures forall v | 0 <= v < c.workers && v != w :: r.workers[v] == Init(c).workers[v]
  {
    hide Reachable, WellFormed;
    InitReachable(c);
    var s := Init(c);
    var r1 := Go(c, s, SubmitFiber(None, ANY_THREAD));
    var r2 := Go(c, r1, StopAuto);
    r := Go(c, r2, StopFlag);
    if r.workers[w].phase.Parked? {
      r := Go(c, r, Loop(w));
    }
  }

  /** A worker runs the fiber, which queues itself for thread `pin` while it runs. */
  lemma RunsAndQueuesItself(c: Config, s: State, w: nat, pin: int) returns (r: State)
    requires Reachable(c, s) && WellFormed(c, s) && w < c.workers == |s.workers|
    requires s.lock.None? && s.workers[w].phase.Top? && (c.pinned ==> pin == w)
    requires s.tasks == [Task(Some(0), None, ANY_THREAD)] && s.fibers == [Fiber(INIT, true)]
    ensures Reachable(c, r) && WellFormed(c, r) && r.lock.None? && |r.workers| == c.workers
    ensures r.workers == s.workers[w := s.workers[w].(phase := Running(0, false))]
    ensures r.tasks == [Task(Some(0), None, pin)] && r.fibers == [Fiber(EXEC, true)]
  {
    hide Reachable, WellFormed, LoopStep;
    var r1 := RunHead(c, s, w, 0);
    assert s.tasks[1..] == [];
    r := Go(c, r1, Requeue(w, pin));
    assert r.tasks[0].fiber == Some(0);
  }

  /** A fiber that finishes while its handle is in the list. */
  lemma FinishedInList(c: Config) returns (r: State)
    requires c.loose && c.workers > 0
    ensures Reachable(c, r) && WellFormed(c, r) && r.lock.None? && |r.workers| == c.workers
    ensures r.tasks == [Task(Some(0), None, 0)] && r.fibers == [Fiber(TERM, false)]
    ensures r.workers[0].phase.Top?
  {
    hide Reachable, WellFormed, ScanStep, Dispatch, ClearCb;
    var s := OneFiber(c, 0);
    var r1 := RunsAndQueuesItself(c, s, 0, 0);
    var r2 := Go(c, r1, Finish(0, false));
    if !c.atomicOut {
      r2 := Go(c, r2, Loop(0));
    }
    r := Go(c, r2, Loop(0));
  }
}
