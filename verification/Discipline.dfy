/**
 The main results about fibers over every interleaving: when a fiber never runs on two workers
 at once, why the code's assertions hold, and when the scheduler can lose its shutdown.
 */
module Discipline {
  import opened Basics
  import opened TaskQueue
  import opened Protocol
  import opened Shutdown
  import opened Exclusion
  import opened Runs

  /** The fiber whose stack the worker stands on. */
  function Stack(me: Worker): Option<nat> {
    match me.phase
    case Running(f, _) => Some(f)
    case Leaving(f, _) => Some(f)
    case _ => None
  }

  /** No stack is used by two workers. */
  ghost predicate Exclusive(s: State) {
    forall v, w | 0 <= v < w < |s.workers| ::
      Stack(s.workers[v]).Some? ==> Stack(s.workers[v]) != Stack(s.workers[w])
  }

  /** What makes leaving a stack safe: one worker, one step, or one home per fiber. */
  predicate Guarded(c: Config) {
    c.workers <= 1 || c.atomicOut || c.pinned
  }

  ghost predicate NoneLeaving(s: State) {
    forall w | 0 <= w < |s.workers| :: !s.workers[w].phase.Leaving?
  }

  ghost predicate Consistent(c: Config, s: State, g: Places, h: Homes) {
    && Sound(c, s) && Placed(s, g)
    && (c.atomicOut ==> NoneLeaving(s))
    && (c.pinned ==> Homed(s, h))
    && s.leaked == multiset{}
  }

  lemma NoneLeavingStep(c: Config, s: State, a: Action)
    requires c.atomicOut && WellFormed(c, s) && NoneLeaving(s) && Enabled(c, s, a)
    ensures NoneLeaving(Step(c, s, a))
  {
    hide ScanStep, Dispatch, ShutDown, Scheduled;
    if a.Loop? && s.workers[a.w].phase.Scan? {
      ScanNoneLeaving(s, a.w, s.workers[a.w].phase.next);
    } else if a.Loop? && s.workers[a.w].phase.Held? {
      DispatchNoneLeaving(s, a.w, s.workers[a.w].phase.task);
    }
  }

  lemma ScanNoneLeaving(s: State, w: nat, i: nat)
    requires NoneLeaving(s) && w < |s.workers| && (i < |s.tasks| ==> Known(s.tasks[i].fiber, |s.fibers|))
    ensures NoneLeaving(ScanStep(s, w, i))
  {
    hide RemoveAt;
  }

  lemma DispatchNoneLeaving(s: State, w: nat, t: Entry)
    requires NoneLeaving(s) && w < |s.workers| && Known(t.fiber, |s.fibers|) && Known(s.workers[w].cbFiber, |s.fibers|)
    ensures NoneLeaving(Dispatch(s, w, t))
  {
  }

  /** With handles queued as meant, nothing is ever dropped. */
  lemma NothingLeaks(c: Config, s: State, a: Action, g: Places)
    requires !c.loose && WellFormed(c, s) && Placed(s, g) && Enabled(c, s, a)
    ensures Step(c, s, a).leaked == s.leaked
  {
    hide Placed, Dispatch, ScanStep, Depart, Enqueue, Move, ClearCb;
    if a.Loop? && s.workers[a.w].phase.Held? {
      var h := DispatchPlaced(c, s, a.w, s.workers[a.w].phase.task, g);
    } else {
      PiecesLeak(c, s, a);
    }
  }

  lemma PiecesLeak(c: Config, s: State, a: Action)
    requires WellFormed(c, s) && Enabled(c, s, a) && (a.Loop? ==> !s.workers[a.w].phase.Held?)
    ensures Step(c, s, a).leaked == s.leaked
  {
    hide RemoveAt, ShutDown, Scheduled, Dispatch, NextWorker;
  }

  lemma ConsistentStep(c: Config, s: State, a: Action, g: Places, h: Homes) returns (g': Places, h': Homes)
    requires !c.loose && Consistent(c, s, g, h) && Enabled(c, s, a)
    ensures Consistent(c, Step(c, s, a), g', h')
  {
    hide Step, Placed, Homed, NoneLeaving, Enabled, LockOk, NoEmptyEntry, Counted, Orderly, Conserved;
    SoundStep(c, s, a);
    NothingLeaks(c, s, a, g);
    g' := StepPlaced(c, s, a, g);
    h' := h;
    if c.atomicOut {
      NoneLeavingStep(c, s, a);
    }
    if c.pinned {
      h' := StepHomed(c, s, a, g, h);
    }
  }

  lemma {:induction false} ConsistentAfter(c: Config, s: State, acts: seq<Action>, g: Places, h: Homes)
      returns (g': Places, h': Homes)
    requires !c.loose && Consistent(c, s, g, h) && Possible(c, s, acts)
    ensures Consistent(c, After(c, s, acts), g', h')
    decreases |acts|
  {
    hide Step, Placed, Homed, NoneLeaving, Enabled, LockOk, NoEmptyEntry, Counted, Orderly, Conserved;
    if acts == [] {
      g', h' := g, h;
    } else {
      g', h' := ConsistentStep(c, s, acts[0], g, h);
      g', h' := ConsistentAfter(c, Step(c, s, acts[0]), acts[1..], g', h');
    }
  }

  lemma ConsistentReachable(c: Config, s: State) returns (g: Places, h: Homes)
    requires !c.loose && Reachable(c, s)
    ensures Consistent(c, s, g, h)
  {
    var acts :| Possible(c, Init(c), acts) && After(c, Init(c), acts) == s;
    ConsistentInit(c);
    hide Consistent, Reachable;
    g, h := ConsistentAfter(c, Init(c), acts, [], []);
  }

  lemma ConsistentInit(c: Config)
    ensures Consistent(c, Init(c), [], [])
  {
    SoundInit(c);
    hide Sound;
  }

  // What consistency gives.

  lemma ConsistentExclusive(c: Config, s: State, g: Places, h: Homes)
    requires Consistent(c, s, g, h) && Guarded(c)
    ensures Exclusive(s)
  {
    forall v, w | 0 <= v < w < |s.workers| && Stack(s.workers[v]).Some?
      ensures Stack(s.workers[v]) != Stack(s.workers[w])
    {
      assert WorkerOk(s.fibers, g, v, s.workers[v]) && WorkerOk(s.fibers, g, w, s.workers[w]);
      if c.pinned {
        assert HomeOk(h, v, s.workers[v]) && HomeOk(h, w, s.workers[w]);
      }
    }
  }

  /**
   No assertion of the scheduler fails: entries are never empty, a fiber that is switched to is
   not running, a fiber that yields is, and a reset fiber is INIT or finished.
   */
  lemma AssertionsNeverFail(c: Config, s: State, a: Action)
    requires !c.loose && Reachable(c, s) && WellFormed(c, s) && Enabled(c, s, a)
    ensures AssertionsHold(c, s, a)
  {
    var g, h := ConsistentReachable(c, s);
    var w := match a case Yield(w) => w case Loop(w) => w case _ => 0;
    if a.Yield? || a.Loop? {
      PlacedWorker(s, w, g);
      assert OrderlyWorker(s, s.workers[w]);
    }
  }

  /**
   Handles are never lost: a fiber that is READY is in the list or in a worker's hand, one that
   is EXEC is being run. So ~Fiber only ever meets INIT, TERM or EXCEPT.
   */
  lemma UnfinishedIsReferenced(c: Config, s: State, f: nat)
    requires !c.loose && Reachable(c, s) && f < |s.fibers|
    ensures s.fibers[f].st == READY ==>
      InQueue(s.tasks, f) || exists w ::
        0 <= w < |s.workers| && s.workers[w].phase.Held? && s.workers[w].phase.task.fiber == Some(f)
    ensures s.fibers[f].st == EXEC ==>
      exists w :: 0 <= w < |s.workers| && s.workers[w].phase.Running? && s.workers[w].phase.f == f
  {
    var g, h := ConsistentReachable(c, s);
    assert FiberOk(s.fibers[f], g[f]) && PlaceOk(s.workers, f, g[f]);
  }

  /** Worker w keeps fiber f for its next callback. */
  predicate Keeps(s: State, w: nat, f: nat) {
    w < |s.workers| && s.workers[w].cbFiber == Some(f) && !ViaCb(s.workers[w].phase)
  }

  /**
   A callback fiber that a worker keeps for its next callback, whoever finished it, is INIT with
   no function; it is not in the list, no worker holds or runs it, and no other worker keeps it.
   */
  lemma KeptFiberIsPrivate(c: Config, s: State, w: nat, v: nat, f: nat)
    requires !c.loose && Reachable(c, s) && Keeps(s, w, f) && v < |s.workers|
    ensures f < |s.fibers| && s.fibers[f] == Fiber(INIT, false) && !InQueue(s.tasks, f)
    ensures s.workers[v].phase.Held? ==> s.workers[v].phase.task.fiber != Some(f)
    ensures s.workers[v].phase.Running? ==> s.workers[v].phase.f != f
    ensures v != w ==> s.workers[v].cbFiber != Some(f)
  {
    var g, h := ConsistentReachable(c, s);
    hide Reachable, Sound, Homed;
    assert WorkerOk(s.fibers, g, w, s.workers[w]) && WorkerOk(s.fibers, g, v, s.workers[v]);
  }

  /** Nobody stands on the stack of a kept fiber. */
  ghost predicate KeptStacksFree(s: State) {
    forall w, v, f | 0 <= w && 0 <= v < |s.workers| && 0 <= f && Keeps(s, w, f) :: Stack(s.workers[v]) != Some(f)
  }

  lemma ConsistentKept(c: Config, s: State, g: Places, h: Homes)
    requires Consistent(c, s, g, h) && Guarded(c)
    ensures KeptStacksFree(s)
  {
    assert WellFormed(c, s);
    hide Sound;
    forall w, v, f | 0 <= w && 0 <= v < |s.workers| && 0 <= f && Keeps(s, w, f) ensures Stack(s.workers[v]) != Some(f) {
      assert WorkerOk(s.fibers, g, w, s.workers[w]) && WorkerOk(s.fibers, g, v, s.workers[v]);
      if c.pinned {
        assert HomeOk(h, w, s.workers[w]) && HomeOk(h, v, s.workers[v]);
      }
      if c.atomicOut {
        assert !s.workers[v].phase.Leaving?;
      }
    }
  }

  /** When a worker has left, every fiber that was started has finished or is back to INIT. */
  lemma ExitLeavesNoFiber(c: Config, s: State, w: nat, f: nat)
    requires !c.loose && Reachable(c, s) && w < |s.workers| && s.workers[w].phase.Done? && f < |s.fibers|
    ensures s.fibers[f].st == INIT || Finished(s.fibers[f].st)
  {
    GracefulExit(c, s, w);
    UnfinishedIsReferenced(c, s, f);
  }

  // The other direction: runs that break the discipline.

  /**
   Without a guard the code is racy: a fiber that queued itself and wrote READY is taken by
   another worker before it has left its stack.
   */
  lemma RaceReachable(c: Config) returns (r: State)
    requires !Guarded(c)
    ensures Reachable(c, r) && !Exclusive(r)
  {
    hide Reachable, WellFormed, LoopStep;
    var s := OneFiber(c, 1);
    assert s.workers[0].phase.Top?;
    var r1 := RunsAndQueuesItself(c, s, 0, ANY_THREAD);
    assert r1.tasks[0].fiber == Some(0);
    var r2 := Go(c, r1, Yield(0));
    r := RunHead(c, r2, 1, 0);
    assert Stack(r.workers[0]) == Some(0) == Stack(r.workers[1]);
  }

  /**
   So also for kept fibers: a callback fiber that queued itself and yielded is finished by worker
   1, and worker 0, back from its stack at last, resets and keeps it before worker 1 has left.
   */
  lemma KeptStackInUse(c: Config) returns (r: State)
    requires !Guarded(c)
    ensures Reachable(c, r) && !KeptStacksFree(r)
  {
    hide Reachable, WellFormed, LoopStep;
    var s := CallbackQueuesItself(c);
    assert s.tasks[0].fiber == Some(0);
    s := Go(c, s, Yield(0));
    s := RunHead(c, s, 1, 0);
    assert s.tasks == [];
    s := Go(c, s, Finish(1, false));
    r := FinishesCallback(c, s, 0, 0);
    assert Keeps(r, 0, 0) && Stack(r.workers[1]) == Some(0);
  }

  /** Worker 0 runs a callback that queued itself, and worker 1 is at the loop head. */
  lemma CallbackQueuesItself(c: Config) returns (r: State)
    requires !Guarded(c)
    ensures Reachable(c, r) && WellFormed(c, r) && |r.workers| == c.workers && r.lock.None?
    ensures r.workers[0].phase == Running(0, true) && r.workers[0].cbFiber == Some(0) && r.workers[1].phase.Top?
    ensures r.tasks == [Task(Some(0), None, ANY_THREAD)] && r.fibers == [Fiber(EXEC, true)]
  {
    hide Reachable, WellFormed, LoopStep;
    InitReachable(c);
    var s := Go(c, Init(c), SubmitCb(None, Some(0), ANY_THREAD));
    assert s.workers[0] == Worker(Top, None, INIT) && s.fibers == [];
    s := RunCallback(c, s, 0);
    assert s.tasks == [];
    s := Go(c, s, Requeue(0, ANY_THREAD));
    r := StopsAndStarts(c, s, 1);
  }

  /** It is taken, dropped, and the counter is never decremented for it. */
  lemma LeakReachable(c: Config) returns (r: State)
    requires c.loose && c.workers > 0
    ensures Reachable(c, r) && WellFormed(c, r) && r.leaked != multiset{}
  {
    hide Reachable, WellFormed;
    var t := Task(Some(0), None, 0);
    var s := FinishedInList(c);
    var r1 := PickHead(c, s, 0);
    r := Go(c, r1, Loop(0));
    assert t in r.leaked;
  }

  // The equivalences.

  /**
   With handles queued as meant, a fiber is never on two workers at once if and only if the
   configuration is guarded.
   */
  lemma ExclusiveIffGuarded(c: Config)
    requires !c.loose
    ensures (forall s | Reachable(c, s) :: Exclusive(s)) <==> Guarded(c)
  {
    if Guarded(c) {
      forall s | Reachable(c, s) ensures Exclusive(s) {
        var g, h := ConsistentReachable(c, s);
        ConsistentExclusive(c, s, g, h);
      }
    } else {
      var r := RaceReachable(c);
    }
  }

  /** Nobody stands on the stack of a kept callback fiber, on the same condition. */
  lemma KeptStacksFreeIffGuarded(c: Config)
    requires !c.loose
    ensures (forall s | Reachable(c, s) :: KeptStacksFree(s)) <==> Guarded(c)
  {
    if Guarded(c) {
      forall s | Reachable(c, s) ensures KeptStacksFree(s) {
        var g, h := ConsistentReachable(c, s);
        ConsistentKept(c, s, g, h);
      }
    } else {
      var r := KeptStackInUse(c);
    }
  }

  /**
   The counter is exactly the number of workers between pick and decrement in every reachable
   state if and only if handles are not queued loosely. DroppedIff says which step spoils it.
   */
  lemma CounterExactIffNotLoose(c: Config)
    requires c.workers > 0
    ensures (forall s | Reachable(c, s) :: s.active == Busy(s.workers)) <==> !c.loose
  {
    if c.loose {
      var r := LeakReachable(c);
      SoundReachable(c, r);
      assert |r.leaked| > 0;
    } else {
      forall s | Reachable(c, s) ensures s.active == Busy(s.workers) {
        var g, h := ConsistentReachable(c, s);
      }
    }
  }

  /**
   An entry is dropped by the worker that holds it exactly when its fiber has finished, and the
   counter is exact in a reachable state exactly when none has been dropped.
   */
  lemma DroppedIff(c: Config, s: State, a: Action)
    requires Reachable(c, s) && WellFormed(c, s) && Enabled(c, s, a)
    ensures s.active == Busy(s.workers) <==> s.leaked == multiset{}
    ensures Step(c, s, a).leaked != s.leaked <==>
      a.Loop? && s.workers[a.w].phase.Held? && Drops(s, s.workers[a.w].phase.task)
  {
    SoundReachable(c, s);
    hide Reachable, LoopStep;
    assert |s.leaked| == 0 <==> s.leaked == multiset{};
    if a.Loop? && s.workers[a.w].phase.Held? {
      DispatchDrops(c, s, a.w, s.workers[a.w].phase.task);
    } else {
      PiecesLeak(c, s, a);
    }
  }

  /** The task names a finished fiber and no callback. */
  predicate Drops(s: State, t: Entry) {
    t.cb.None? && t.fiber.Some? && t.fiber.value < |s.fibers| && Finished(s.fibers[t.fiber.value].st)
  }

  lemma DispatchDrops(c: Config, s: State, w: nat, t: Entry)
    requires WellFormed(c, s) && Enabled(c, s, Loop(w)) && s.workers[w].phase == Held(t)
    ensures LoopStep(c, s, w).leaked != s.leaked <==> Drops(s, t)
  {
    assert (s.leaked + multiset{t})[t] == s.leaked[t] + 1;
  }

  /** After such a drop no worker ever leaves run, whatever happens. */
  lemma DropBlocksExit(c: Config, s: State, acts: seq<Action>)
    requires Reachable(c, s) && WellFormed(c, s) && s.leaked != multiset{} && Possible(c, s, acts)
    ensures var r := After(c, s, acts);
      !ShutDown(r) && forall w | 0 <= w < |r.workers| :: !r.workers[w].phase.Done?
  {
    SoundReachable(c, s);
    LeakBlocksShutdown(c, s, acts);
  }

  /**
   Once the shutdown predicate holds it holds for ever, at most 11 further actions per worker
   are possible, and as long as a worker has not left some worker can move: all of them leave.
   */
  lemma EveryWorkerLeaves(c: Config, s: State, acts: seq<Action>)
    requires Reachable(c, s) && WellFormed(c, s) && ShutDown(s) && Possible(c, s, acts)
    ensures var r := After(c, s, acts);
      && ShutDown(r) && |acts| <= 11 * c.workers
      && forall w | 0 <= w < |r.workers| && !r.workers[w].phase.Done? :: exists a :: Enabled(c, r, a)
  {
    SoundReachable(c, s);
    ShutDownForever(c, s, acts);
    BoundedExit(c, s, acts);
    SoundAfter(c, s, acts);
    var r := After(c, s, acts);
    forall w | 0 <= w < |r.workers| && !r.workers[w].phase.Done? ensures exists a :: Enabled(c, r, a) {
      var v := ExitNeverStuck(c, r, w);
    }
  }
}
