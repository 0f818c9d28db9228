/**
 Which worker runs an entry, and how long an entry waits, over every interleaving of Protocol.
 */
module Fairness {
  import opened Basics
  import opened TaskQueue
  import opened Protocol
  import opened Shutdown
  import opened Exclusion
  import opened Discipline

  // A pinned entry is only run by its own thread.

  ghost predicate PinsRespected(s: State) {
    forall w | 0 <= w < |s.workers| && s.workers[w].phase.Held? :: !Foreign(s.workers[w].phase.task, w)
  }

  /** A step of a worker outside the pick loop leaves the list and the other workers alone. */
  lemma OutsideScan(c: Config, s: State, w: nat)
    requires WellFormed(c, s) && Enabled(c, s, Loop(w)) && !s.workers[w].phase.Scan?
    ensures var r := LoopStep(c, s, w);
      && r.tasks == s.tasks && |r.workers| == |s.workers| && r.workers == s.workers[w := r.workers[w]]
      && !r.workers[w].phase.Held? && (r.workers[w].phase.Scan? ==> r.workers[w].phase.next == 0)
      && (r.lock == s.lock || r.lock == Some(w))
  {
    hide ShutDown, Dispatch, NextWorker;
    if s.workers[w].phase.Held? {
      DispatchBalanced(c, s, w, s.workers[w].phase.task, NOTHING);
      DispatchLeaves(s, w, s.workers[w].phase.task);
    } else {
      NextIs(s, w);
    }
  }

  lemma DispatchLeaves(s: State, w: nat, t: Entry)
    requires w < |s.workers| && Known(t.fiber, |s.fibers|) && Known(s.workers[w].cbFiber, |s.fibers|)
    ensures var r := Dispatch(s, w, t);
      w < |r.workers| && r.lock == s.lock && !r.workers[w].phase.Held? && !r.workers[w].phase.Scan?
  {
  }

  lemma NextIs(s: State, w: nat)
    requires w < |s.workers| && Known(Named(s.workers[w].phase), |s.fibers|)
    requires !s.workers[w].phase.Scan? && !s.workers[w].phase.Held?
    ensures var p := NextWorker(s, w).phase; !p.Held? && (p.Scan? ==> p.next == 0)
  {
    hide ShutDown;
  }

  lemma PinsStep(c: Config, s: State, a: Action)
    requires WellFormed(c, s) && PinsRespected(s) && Enabled(c, s, a)
    ensures PinsRespected(Step(c, s, a))
  {
    if a.Loop? && s.workers[a.w].phase.Scan? {
      PinsScan(s, a.w, s.workers[a.w].phase.next);
    } else {
      hide LoopStep, Scheduled;
      if a.Loop? {
        OutsideScan(c, s, a.w);
      }
    }
  }

  lemma PinsScan(s: State, w: nat, i: nat)
    requires PinsRespected(s) && w < |s.workers| && (i < |s.tasks| ==> Known(s.tasks[i].fiber, |s.fibers|))
    ensures PinsRespected(ScanStep(s, w, i))
  {
    hide RemoveAt;
  }

  lemma {:induction false} PinsAfter(c: Config, s: State, acts: seq<Action>)
    requires WellFormed(c, s) && PinsRespected(s) && Possible(c, s, acts)
    ensures PinsRespected(After(c, s, acts))
    decreases |acts|
  {
    if acts != [] {
      hide Step, PinsRespected, Enabled, WellFormed;
      StepWellFormed(c, s, acts[0]);
      PinsStep(c, s, acts[0]);
      PinsAfter(c, Step(c, s, acts[0]), acts[1..]);
    }
  }

  /**
   In every reachable state of every configuration, a worker only holds entries it may run, and
   an entry is only ever switched to by the worker that holds it.
   */
  lemma PinnedRunsAtHome(c: Config, s: State, a: Action)
    requires Reachable(c, s) && WellFormed(c, s) && Enabled(c, s, a)
    ensures forall w | 0 <= w < |s.workers| && s.workers[w].phase.Held? :: !Foreign(s.workers[w].phase.task, w)
    ensures Step(c, s, a).dispatched == s.dispatched
      || (a.Loop? && s.workers[a.w].phase.Held? && !Foreign(s.workers[a.w].phase.task, a.w)
          && Step(c, s, a).dispatched == s.dispatched + multiset{s.workers[a.w].phase.task})
  {
    var acts :| Possible(c, Init(c), acts) && After(c, Init(c), acts) == s;
    PinsAfter(c, Init(c), acts);
    hide Reachable, Possible, After, Step;
    OneDispatched(c, s, a);
  }

  lemma OneDispatched(c: Config, s: State, a: Action)
    requires WellFormed(c, s) && Enabled(c, s, a)
    ensures Step(c, s, a).dispatched == s.dispatched
      || (a.Loop? && s.workers[a.w].phase.Held?
          && Step(c, s, a).dispatched == s.dispatched + multiset{s.workers[a.w].phase.task})
  {
    hide RemoveAt, Scheduled, ShutDown;
  }

  // How long an entry waits.

  /** The action takes the entry at index i out of the list. */
  predicate Takes(s: State, a: Action, i: nat) {
    && a.Loop? && a.w < |s.workers| && s.workers[a.w].phase == Scan(i) && i < |s.tasks|
    && !Foreign(s.tasks[i], a.w)
    && (s.tasks[i].fiber.Some? ==> s.tasks[i].fiber.value < |s.fibers| && s.fibers[s.tasks[i].fiber.value].st != EXEC)
  }

  /** The action takes some entry. */
  predicate TakesOne(s: State, a: Action) {
    a.Loop? && a.w < |s.workers| && s.workers[a.w].phase.Scan? && Takes(s, a, s.workers[a.w].phase.next)
  }

  /** Where the entry at `pos` stands after the action; None when it is taken. */
  function Track(s: State, a: Action, pos: nat): Option<nat>
    requires pos < |s.tasks|
  {
    if !TakesOne(s, a) || pos < s.workers[a.w].phase.next then Some(pos)
    else if pos == s.workers[a.w].phase.next then None
    else Some(pos - 1)
  }

  lemma TrackIs(c: Config, s: State, a: Action, pos: nat)
    requires WellFormed(c, s) && Enabled(c, s, a) && pos < |s.tasks|
    ensures match Track(s, a, pos)
      case Some(p) => p < |Step(c, s, a).tasks| && Step(c, s, a).tasks[p] == s.tasks[pos]
      case None => Step(c, s, a).workers[a.w].phase == Held(s.tasks[pos])
  {
    hide LoopStep;
    if a.Loop? && s.workers[a.w].phase.Scan? {
      assert Step(c, s, a) == ScanStep(s, a.w, s.workers[a.w].phase.next) by { StepIsScan(c, s, a.w); }
    } else if a.Loop? {
      OutsideScan(c, s, a.w);
    }
  }

  predicate NotRunning(s: State, t: Entry) {
    t.fiber.Some? ==> t.fiber.value < |s.fibers| && s.fibers[t.fiber.value].st != EXEC
  }

  /** Until the entry is taken its fiber, if it has one, does not run. */
  ghost predicate Waits(c: Config, s: State, acts: seq<Action>, pos: nat)
    requires WellFormed(c, s) && Possible(c, s, acts) && pos < |s.tasks|
    decreases |acts|
  {
    && NotRunning(s, s.tasks[pos])
    && (acts != [] ==>
        (StepWellFormed(c, s, acts[0]); TrackIs(c, s, acts[0], pos);
         match Track(s, acts[0], pos)
         case Some(p) => Waits(c, Step(c, s, acts[0]), acts[1..], p)
         case None => true))
  }

  /** How many other entries are taken, by workers that may run this one, before it is taken. */
  ghost function Bypassed(c: Config, s: State, acts: seq<Action>, pos: nat): nat
    requires WellFormed(c, s) && Possible(c, s, acts) && pos < |s.tasks|
    decreases |acts|
  {
    if acts == [] then 0 else
    StepWellFormed(c, s, acts[0]);
    TrackIs(c, s, acts[0], pos);
    match Track(s, acts[0], pos)
    case None => 0
    case Some(p) =>
      (if TakesOne(s, acts[0]) && !Foreign(s.tasks[pos], acts[0].w) then 1 else 0)
      + Bypassed(c, Step(c, s, acts[0]), acts[1..], p)
  }

  /** A pass of a worker that may run the entry has already gone by it. */
  predicate Missed(s: State, pos: nat)
    requires pos < |s.tasks|
  {
    && s.lock.Some? && s.lock.value < |s.workers| && s.workers[s.lock.value].phase.Scan?
    && s.workers[s.lock.value].phase.next > pos && !Foreign(s.tasks[pos], s.lock.value)
  }

  /** Only a pass that takes an entry further back goes by this one, and then the lock is free. */
  lemma MissedStep(c: Config, s: State, a: Action, pos: nat)
    requires WellFormed(c, s) && LockOk(s) && Enabled(c, s, a) && pos < |s.tasks| && NotRunning(s, s.tasks[pos])
    requires Track(s, a, pos).Some?
    ensures var p, r := Track(s, a, pos).value, Step(c, s, a);
      && p < |r.tasks|
      && (Missed(r, p) ==> Missed(s, pos))
      && (TakesOne(s, a) ==> !Missed(r, p) && (p == pos && !Foreign(s.tasks[pos], a.w) ==> Missed(s, pos)))
      && (TakesOne(s, a) || p == pos)
  {
    TrackIs(c, s, a, pos);
    if a.Loop? && s.workers[a.w].phase.Scan? {
      var i := s.workers[a.w].phase.next;
      hide RemoveAt, Step, Enabled, Foreign;
      assert Step(c, s, a) == ScanStep(s, a.w, i) by { StepIsScan(c, s, a.w); }
    } else {
      OthersDoNotMiss(c, s, a, pos);
    }
  }

  lemma StepIsScan(c: Config, s: State, w: nat)
    requires WellFormed(c, s) && Enabled(c, s, Loop(w)) && s.workers[w].phase.Scan?
    ensures Step(c, s, Loop(w)) == ScanStep(s, w, s.workers[w].phase.next)
  {
  }

  /** Outside the pick loop nothing is taken, and a pass in progress stays where it is. */
  lemma OthersDoNotMiss(c: Config, s: State, a: Action, pos: nat)
    requires WellFormed(c, s) && LockOk(s) && Enabled(c, s, a) && pos < |s.tasks|
    requires !(a.Loop? && s.workers[a.w].phase.Scan?)
    ensures !TakesOne(s, a) && pos < |Step(c, s, a).tasks| && Step(c, s, a).tasks[pos] == s.tasks[pos]
    ensures Missed(Step(c, s, a), pos) ==> Missed(s, pos)
  {
    hide LoopStep, Foreign;
    if a.Loop? {
      OutsideScan(c, s, a.w);
    }
  }

  /**
   An entry at index i that can be run is passed over at most i times, once more if a pass in
   progress had missed it.
   */
  lemma {:induction false} WaitingIsBounded(c: Config, s: State, acts: seq<Action>, pos: nat)
    requires Sound(c, s) && Possible(c, s, acts) && pos < |s.tasks| && Waits(c, s, acts, pos)
    ensures Bypassed(c, s, acts, pos) <= pos + if Missed(s, pos) then 1 else 0
    decreases |acts|
  {
    if acts != [] && Track(s, acts[0], pos).Some? {
      hide Step, Enabled, NoEmptyEntry, Counted, Orderly, Conserved, Missed, TakesOne, LockOk, NotRunning;
      SoundStep(c, s, acts[0]);
      MissedStep(c, s, acts[0], pos);
      WaitingIsBounded(c, Step(c, s, acts[0]), acts[1..], Track(s, acts[0], pos).value);
    }
  }

  // With handles queued as they should be, an entry that can be run stays so until it is taken.

  lemma QueuedStaysIdle(c: Config, s: State, a: Action, f: nat, g: Places)
    requires WellFormed(c, s) && Placed(s, g) && Enabled(c, s, a)
    requires InQueue(s.tasks, f) && f < |s.fibers| && s.fibers[f].st != EXEC
    ensures f < |Step(c, s, a).fibers| && Step(c, s, a).fibers[f].st != EXEC
  {
    hide RemoveAt, Scheduled, ShutDown, Dispatch, ScanStep, NextWorker;
    if a.Loop? && s.workers[a.w].phase.Held? {
      DispatchStaysIdle(s, a.w, s.workers[a.w].phase.task, f, g);
    } else if a.Loop? && s.workers[a.w].phase.Scan? {
      ScanKeepsFibers(s, a.w, s.workers[a.w].phase.next);
    }
  }

  lemma ScanKeepsFibers(s: State, w: nat, i: nat)
    requires w < |s.workers| && (i < |s.tasks| ==> Known(s.tasks[i].fiber, |s.fibers|))
    ensures ScanStep(s, w, i).fibers == s.fibers
  {
    hide RemoveAt;
  }

  lemma DispatchStaysIdle(s: State, w: nat, t: Entry, f: nat, g: Places)
    requires Placed(s, g) && w < |s.workers| && s.workers[w].phase == Held(t)
    requires Known(t.fiber, |s.fibers|) && Known(s.workers[w].cbFiber, |s.fibers|)
    requires InQueue(s.tasks, f) && f < |s.fibers| && s.fibers[f].st != EXEC
    ensures f < |Dispatch(s, w, t).fibers| && Dispatch(s, w, t).fibers[f].st != EXEC
  {
    PlacedWorker(s, w, g);
    QueuedIs(s, f, g);
    hide Placed, InQueue;
  }

  lemma QueuedIs(s: State, f: nat, g: Places)
    requires Placed(s, g) && InQueue(s.tasks, f)
    ensures f < |g| && g[f].queued
  {
  }

  lemma {:induction false} WaitsUntilTaken(c: Config, s: State, acts: seq<Action>, pos: nat, g: Places, h: Homes)
    requires !c.loose && Consistent(c, s, g, h) && Possible(c, s, acts)
    requires pos < |s.tasks| && NotRunning(s, s.tasks[pos])
    ensures Waits(c, s, acts, pos)
    decreases |acts|
  {
    if acts != [] {
      hide Step, Enabled, Placed, Homed, NoneLeaving, LockOk, NoEmptyEntry, Counted, Orderly, Conserved;
      var t := s.tasks[pos];
      TrackIs(c, s, acts[0], pos);
      if Track(s, acts[0], pos).Some? {
        if t.fiber.Some? {
          assert s.tasks[pos].fiber == Some(t.fiber.value);
          QueuedStaysIdle(c, s, acts[0], t.fiber.value, g);
        }
        var g', h' := ConsistentStep(c, s, acts[0], g, h);
        WaitsUntilTaken(c, Step(c, s, acts[0]), acts[1..], Track(s, acts[0], pos).value, g', h');
      }
    }
  }

  lemma {:induction false} CallbackWaits(c: Config, s: State, acts: seq<Action>, pos: nat)
    requires WellFormed(c, s) && Possible(c, s, acts) && pos < |s.tasks| && s.tasks[pos].fiber.None?
    ensures Waits(c, s, acts, pos)
    decreases |acts|
  {
    if acts != [] {
      hide Step, Enabled;
      StepWellFormed(c, s, acts[0]);
      TrackIs(c, s, acts[0], pos);
      if Track(s, acts[0], pos).Some? {
        CallbackWaits(c, Step(c, s, acts[0]), acts[1..], Track(s, acts[0], pos).value);
      }
    }
  }

  /**
   From any reachable state, over any run: an entry at index i that is a callback, or a fiber
   that does not run, is passed over at most i times by workers that may run it, and once more
   only if a pass in progress had gone by it while its fiber ran. What is appended meanwhile
   makes no difference.
   */
  lemma BoundedBypass(c: Config, s: State, acts: seq<Action>, pos: nat)
    requires Reachable(c, s) && WellFormed(c, s) && Possible(c, s, acts) && pos < |s.tasks|
    requires s.tasks[pos].fiber.None? || (!c.loose && NotRunning(s, s.tasks[pos]))
    ensures Bypassed(c, s, acts, pos) <= pos + if Missed(s, pos) then 1 else 0
  {
    hide Step, Enabled;
    SoundReachable(c, s);
    if s.tasks[pos].fiber.None? {
      CallbackWaits(c, s, acts, pos);
    } else {
      var g, h := ConsistentReachable(c, s);
      WaitsUntilTaken(c, s, acts, pos, g, h);
    }
    WaitingIsBounded(c, s, acts, pos);
  }
}
