/**
 Exactly when an assertion of the pick loop, swapIn, reset or YieldToReady can fail: with two
 workers and handles that are queued loosely.

 Not among them is the "never reach" at the end of MainFunc, because Protocol has no contexts. It
 can fail even with handles used as meant: in the state that KeptStackInUse reaches, the
 swapcontext of the worker that is still leaving can overwrite the context just made for the
 next callback. KeptStacksFreeIffGuarded says exactly when that state is ruled out.
 */
module Assertions {
  import opened Basics
  import opened TaskQueue
  import opened Protocol
  import opened Shutdown
  import opened Exclusion
  import opened Runs
  import opened Discipline

  // One worker, whatever is in the list.

  /** Only the fiber that the worker runs is EXEC, and the fiber it keeps cannot be READY. */
  ghost predicate AloneOk(fibers: seq<Fiber>, me: Worker) {
    && Known(Named(me.phase), |fibers|) && Known(me.cbFiber, |fibers|)
    && (forall f | 0 <= f < |fibers| && fibers[f].st == EXEC :: me.phase.Running? && me.phase.f == f)
    && (me.phase.Running? ==> fibers[me.phase.f].st == EXEC)
    && (me.phase.Clearing? ==> Finished(fibers[me.phase.f].st))
    && (ViaCb(me.phase) ==> me.cbFiber == Named(me.phase))
    && (me.cbFiber.Some? && !ViaCb(me.phase) ==>
          !fibers[me.cbFiber.value].cb && fibers[me.cbFiber.value].st != READY)
  }

  ghost predicate Alone(s: State) {
    |s.workers| <= 1 && forall w | 0 <= w < |s.workers| :: AloneOk(s.fibers, s.workers[w])
  }

  lemma AloneStep(c: Config, s: State, a: Action)
    requires WellFormed(c, s) && Alone(s) && Enabled(c, s, a)
    ensures Alone(Step(c, s, a))
  {
    hide RemoveAt, ShutDown, Scheduled, ScanStep, Dispatch, NextWorker;
    if a.Loop? {
      assert a.w == 0 && AloneOk(s.fibers, s.workers[0]);
      match s.workers[0].phase {
        case Scan(i) => AloneScan(s, i);
        case Held(t) => AloneDispatch(s, t);
        case _ => AloneMove(s);
      }
    }
  }

  lemma AloneScan(s: State, i: nat)
    requires Alone(s) && |s.workers| == 1 && s.workers[0].phase == Scan(i)
    requires forall k | 0 <= k < |s.tasks| :: Known(s.tasks[k].fiber, |s.fibers|)
    ensures Alone(ScanStep(s, 0, i))
  {
    hide RemoveAt;
  }

  lemma AloneDispatch(s: State, t: Entry)
    requires Alone(s) && |s.workers| == 1 && s.workers[0].phase == Held(t)
    requires Known(t.fiber, |s.fibers|) && Known(s.workers[0].cbFiber, |s.fibers|)
    ensures Alone(Dispatch(s, 0, t))
  {
    hide Alone, Enter, EnterNew, EnterIdle;
    if Resumable(s, t) {
      AloneEnter(s, t.fiber.value, s.fibers[t.fiber.value].(st := EXEC), false, t);
    } else if t.cb.Some? && s.workers[0].cbFiber.Some? {
      AloneEnter(s, s.workers[0].cbFiber.value, Fiber(EXEC, true), true, t);
    } else {
      AloneElse(s, t);
    }
  }

  lemma AloneEnter(s: State, f: nat, fb: Fiber, viaCb: bool, t: Entry)
    requires Alone(s) && |s.workers| == 1 && s.workers[0].phase == Held(t) && f < |s.fibers| && fb.st == EXEC
    requires if viaCb then s.workers[0].cbFiber == Some(f) else fb.cb == s.fibers[f].cb
    ensures Alone(Enter(s, 0, f, fb, viaCb, t))
  {
    assert AloneOk(s.fibers, s.workers[0]);
  }

  lemma AloneElse(s: State, t: Entry)
    requires Alone(s) && |s.workers| == 1 && s.workers[0].phase == Held(t)
    ensures Alone(EnterNew(s, 0, t)) && Alone(EnterIdle(s, 0, t))
  {
    assert AloneOk(s.fibers, s.workers[0]);
  }

  lemma AloneMove(s: State)
    requires Alone(s) && |s.workers| == 1 && Known(Named(s.workers[0].phase), |s.fibers|)
    requires !s.workers[0].phase.Held? && !s.workers[0].phase.Scan? && !s.workers[0].phase.Running?
    ensures Alone(Move(s, 0))
    ensures s.workers[0].phase.Clearing? ==> Alone(ClearCb(s, 0, s.workers[0].phase.f))
  {
    hide ShutDown;
    assert AloneOk(s.fibers, s.workers[0]);
  }

  lemma {:induction false} AloneAfter(c: Config, s: State, acts: seq<Action>)
    requires Sound(c, s) && Alone(s) && Possible(c, s, acts)
    ensures Alone(After(c, s, acts))
    decreases |acts|
  {
    if acts != [] {
      hide Step, Enabled, LockOk, NoEmptyEntry, Counted, Orderly, Conserved, Alone;
      AloneStep(c, s, acts[0]);
      SoundStep(c, s, acts[0]);
      AloneAfter(c, Step(c, s, acts[0]), acts[1..]);
    }
  }

  lemma AloneHolds(c: Config, s: State, a: Action)
    requires c.workers <= 1 && Reachable(c, s) && WellFormed(c, s) && Enabled(c, s, a)
    ensures AssertionsHold(c, s, a)
  {
    var acts :| Possible(c, Init(c), acts) && After(c, Init(c), acts) == s;
    SoundInit(c);
    SoundReachable(c, s);
    AloneAfter(c, Init(c), acts);
    hide After, Possible, Reachable, Sound;
    AloneAsserts(c, s, a);
  }

  lemma AloneAsserts(c: Config, s: State, a: Action)
    requires Alone(s) && Sound(c, s) && WellFormed(c, s) && Enabled(c, s, a)
    ensures AssertionsHold(c, s, a)
  {
    hide LockOk, Counted, Conserved;
    if a.Yield? || a.Loop? {
      assert a.w == 0 && AloneOk(s.fibers, s.workers[0]);
      assert OrderlyWorker(s, s.workers[0]);
    }
  }

  // Two workers.

  /** Worker 0 keeps its callback fiber, which has finished, and the handle is in the list for worker 1. */
  lemma KeptInList(c: Config) returns (r: State)
    requires c.loose && c.workers > 1
    ensures Reachable(c, r) && WellFormed(c, r) && |r.workers| == c.workers && r.lock.None?
    ensures r.workers[0].phase.Top? && r.workers[0].cbFiber == Some(0) && r.workers[1].phase.Top?
    ensures r.tasks == [Task(Some(0), None, 1), Task(None, Some(1), 0)] && r.fibers == [Fiber(INIT, false)]
  {
    hide Reachable, WellFormed, LoopStep;
    InitReachable(c);
    var s := Go(c, Init(c), SubmitCb(None, Some(0), 0));
    assert s.workers[0] == Worker(Top, None, INIT) && s.fibers == [];
    s := RunCallback(c, s, 0);
    assert s.tasks == [];
    s := Go(c, s, Finish(0, false));
    s := Go(c, s, SubmitHandle(None, 0, 1));
    s := FinishesCallback(c, s, 0, 0);
    s := Go(c, s, SubmitCb(None, Some(1), 0));
    r := StopsAndStarts(c, s, 1);
  }

  /** Worker 1 resumes it, and worker 0 is about to reset it for its next callback. */
  lemma ResetWhileRunning(c: Config) returns (r: State)
    requires c.loose && c.workers > 1
    ensures Reachable(c, r) && WellFormed(c, r) && Enabled(c, r, Loop(0)) && !AssertionsHold(c, r, Loop(0))
  {
    hide Reachable, WellFormed, LoopStep;
    var s := KeptInList(c);
    s := RunHead(c, s, 1, 0);
    assert s.tasks == [Task(None, Some(1), 0)];
    r := PickHead(c, s, 0);
  }

  /**
   Nothing has to finish for that: a new fiber is queued twice, two workers take a handle each,
   one switches to the fiber, and the other's swapIn meets EXEC.
   */
  lemma SwitchToRunning(c: Config) returns (r: State)
    requires c.loose && c.workers > 1
    ensures Reachable(c, r) && WellFormed(c, r) && Enabled(c, r, Loop(1)) && !AssertionsHold(c, r, Loop(1))
    ensures r.fibers == [Fiber(EXEC, true)]
  {
    hide Reachable, WellFormed, LoopStep;
    InitReachable(c);
    var s := Go(c, Init(c), SubmitFiber(None, 0));
    s := Go(c, s, SubmitHandle(None, 0, 1));
    s := StopsAndStarts(c, s, 1);
    assert s.tasks == [Task(Some(0), None, 0), Task(Some(0), None, 1)] && s.workers[0].phase.Top?;
    s := PickHead(c, s, 0);
    assert s.tasks == [Task(Some(0), None, 1)];
    s := PickHead(c, s, 1);
    assert s.workers[0].phase == Held(Task(Some(0), None, 0));
    r := SwitchesTo(c, s, 0, 0);
  }

  /**
   The assertions of the pick loop, swapIn, reset and YieldToReady hold in every reachable state
   if and only if there is one worker or handles are not queued loosely.
   */
  lemma AssertionsHoldIff(c: Config)
    ensures (forall s, a | Reachable(c, s) && WellFormed(c, s) && Enabled(c, s, a) :: AssertionsHold(c, s, a))
      <==> c.workers <= 1 || !c.loose
  {
    if c.workers <= 1 || !c.loose {
      forall s, a | Reachable(c, s) && WellFormed(c, s) && Enabled(c, s, a) ensures AssertionsHold(c, s, a) {
        if c.loose {
          AloneHolds(c, s, a);
        } else {
          AssertionsNeverFail(c, s, a);
        }
      }
    } else {
      var r := ResetWhileRunning(c);
    }
  }
}
