/**
 The active counter, the conservation of tasks and the graceful exit, over every interleaving
 and every configuration of Protocol.
 */
module Shutdown {
  import opened Basics
  import opened TaskQueue
  import opened Protocol

  /** The worker is between the increment of the pick loop and its decrement. */
  function Weight(me: Worker): nat {
    match me.phase
    case Held(t) => if t.Empty() then 0 else 1
    case Running(_, _) => 1
    case Leaving(_, _) => 1
    case Post(_, _) => 1
    case _ => 0
  }

  /** The worker took entry e and has not switched to it yet. */
  function Hand(me: Worker, e: Entry): nat {
    if me.phase.Held? && !me.phase.task.Empty() && me.phase.task == e then 1 else 0
  }

  /** The number of workers between pick and decrement. */
  function Busy(ws: seq<Worker>): nat {
    if ws == [] then 0 else Weight(ws[0]) + Busy(ws[1..])
  }

  /** How many workers hold entry e. */
  function InHand(ws: seq<Worker>, e: Entry): nat {
    if ws == [] then 0 else Hand(ws[0], e) + InHand(ws[1..], e)
  }

  lemma {:induction false} BusyUpdate(ws: seq<Worker>, w: nat, x: Worker)
    requires w < |ws|
    ensures Busy(ws[w := x]) == Busy(ws) - Weight(ws[w]) + Weight(x)
    ensures Weight(ws[w]) <= Busy(ws)
  {
    if w > 0 {
      BusyUpdate(ws[1..], w - 1, x);
      assert ws[w := x][1..] == ws[1..][w - 1 := x];
    }
  }

  lemma {:induction false} HandUpdate(ws: seq<Worker>, w: nat, x: Worker, e: Entry)
    requires w < |ws|
    ensures InHand(ws[w := x], e) == InHand(ws, e) - Hand(ws[w], e) + Hand(x, e)
  {
    if w > 0 {
      HandUpdate(ws[1..], w - 1, x, e);
      assert ws[w := x][1..] == ws[1..][w - 1 := x];
    }
  }

  lemma {:induction false} AllAtRest(ws: seq<Worker>, e: Entry)
    requires forall w | 0 <= w < |ws| :: Weight(ws[w]) == 0
    ensures Busy(ws) == 0 && InHand(ws, e) == 0
  {
    if ws != [] {
      assert Weight(ws[0]) == 0;
      AllAtRest(ws[1..], e);
    }
  }

  /** m_mutex is held exactly by the worker in the pick loop. */
  ghost predicate LockOk(s: State) {
    && (s.lock.Some? ==> s.lock.value < |s.workers|)
    && forall w | 0 <= w < |s.workers| :: s.workers[w].phase.Scan? <==> s.lock == Some(w)
  }

  ghost predicate NoEmptyEntry(s: State) {
    forall i | 0 <= i < |s.tasks| :: !s.tasks[i].Empty()
  }

  /** The counter law as coded. */
  ghost predicate Counted(s: State) {
    s.active == Busy(s.workers) + |s.leaked|
  }

  /**
   The fate of every accepted entry: it is in the list, in a worker's hand, was switched to
   once, or was dropped because its fiber had finished.
   */
  ghost predicate Conserved(s: State, e: Entry) {
    s.accepted[e] == multiset(s.tasks)[e] + InHand(s.workers, e) + s.dispatched[e] + s.leaked[e]
  }

  ghost predicate Ledger(s: State, e: Entry) {
    LockOk(s) && NoEmptyEntry(s) && Counted(s) && Conserved(s, e)
  }

  /** A move of worker w alone that balances the counter and the fate of e. */
  ghost predicate Balanced(s: State, r: State, w: nat, e: Entry) {
    && w < |s.workers| == |r.workers|
    && r.workers == s.workers[w := r.workers[w]]
    && r.accepted == s.accepted
    && (r.workers[w].phase.Scan? ==> r.lock == Some(w) && (s.lock == Some(w) || s.lock.None?))
    && (!r.workers[w].phase.Scan? ==> r.lock == if s.workers[w].phase.Scan? then None else s.lock)
    && r.active - Weight(r.workers[w]) - |r.leaked| == s.active - Weight(s.workers[w]) - |s.leaked|
    && Share(r, w, e) == Share(s, w, e)
  }

  /** The places where e can be that a move of worker w affects. */
  function Share(s: State, w: nat, e: Entry): nat
    requires w < |s.workers|
  {
    multiset(s.tasks)[e] + Hand(s.workers[w], e) + s.dispatched[e] + s.leaked[e]
  }

  lemma BalancedKeeps(s: State, r: State, w: nat, e: Entry)
    requires Ledger(s, e) && Balanced(s, r, w, e) && NoEmptyEntry(r)
    ensures Ledger(r, e)
  {
    BusyUpdate(s.workers, w, r.workers[w]);
    HandUpdate(s.workers, w, r.workers[w], e);
  }

  // One lemma per piece of the worker's loop.

  lemma TakeBalanced(s: State, w: nat, i: nat, e: Entry)
    requires w < |s.workers| && i < |s.tasks| && NoEmptyEntry(s) && s.workers[w].phase == Scan(i)
    ensures var r := TakeEntry(s, w, i); Balanced(s, r, w, e) && NoEmptyEntry(r)
  {
    var r := TakeEntry(s, w, i);
    forall k | 0 <= k < |r.tasks| ensures !r.tasks[k].Empty() {
      assert r.tasks[k] in s.tasks;
    }
  }

  lemma ScanBalanced(c: Config, s: State, w: nat, i: nat, e: Entry)
    requires WellFormed(c, s) && NoEmptyEntry(s) && w < c.workers && s.workers[w].phase == Scan(i) && s.lock == Some(w)
    ensures var r := ScanStep(s, w, i); Balanced(s, r, w, e) && NoEmptyEntry(r)
  {
    hide TakeEntry;
    if i < |s.tasks| {
      TakeBalanced(s, w, i, e);
    }
  }

  lemma EnterBalanced(s: State, w: nat, f: nat, fb: Fiber, viaCb: bool, t: Entry, e: Entry)
    requires w < |s.workers| && f < |s.fibers| && s.workers[w].phase == Held(t) && !t.Empty()
    ensures Balanced(s, Enter(s, w, f, fb, viaCb, t), w, e)
  {
  }

  lemma EnterNewBalanced(s: State, w: nat, t: Entry, e: Entry)
    requires w < |s.workers| && s.workers[w].phase == Held(t) && !t.Empty()
    ensures Balanced(s, EnterNew(s, w, t), w, e)
  {
  }

  lemma IdleBalanced(s: State, w: nat, t: Entry, e: Entry)
    requires w < |s.workers| && s.workers[w].phase == Held(t)
    ensures Balanced(s, EnterIdle(s, w, t), w, e)
  {
  }

  lemma DispatchBalanced(c: Config, s: State, w: nat, t: Entry, e: Entry)
    requires WellFormed(c, s) && w < c.workers && s.workers[w].phase == Held(t) && Known(t.fiber, |s.fibers|)
    ensures var r := Dispatch(s, w, t); Balanced(s, r, w, e) && r.tasks == s.tasks
  {
    hide Balanced;
    if Resumable(s, t) {
      EnterBalanced(s, w, t.fiber.value, s.fibers[t.fiber.value].(st := EXEC), false, t, e);
    } else if t.cb.None? {
      IdleBalanced(s, w, t, e);
    } else if s.workers[w].cbFiber.Some? {
      EnterBalanced(s, w, s.workers[w].cbFiber.value, Fiber(EXEC, true), true, t, e);
    } else {
      EnterNewBalanced(s, w, t, e);
    }
  }

  lemma MoveBalanced(c: Config, s: State, w: nat, e: Entry)
    requires WellFormed(c, s) && Enabled(c, s, Loop(w)) && LockOk(s)
    requires !s.workers[w].phase.Scan? && !s.workers[w].phase.Held? && Known(Named(s.workers[w].phase), |s.fibers|)
    ensures Balanced(s, Move(s, w), w, e)
  {
    hide ShutDown;
  }

  lemma ClearBalanced(s: State, w: nat, f: nat, e: Entry)
    requires LockOk(s) && w < |s.workers| && f < |s.fibers| && s.workers[w].phase == Clearing(f)
    ensures Balanced(s, ClearCb(s, w, f), w, e)
  {
  }

  lemma LoopBalanced(c: Config, s: State, w: nat, e: Entry)
    requires WellFormed(c, s) && LockOk(s) && NoEmptyEntry(s) && Enabled(c, s, Loop(w))
    ensures var r := LoopStep(c, s, w); Balanced(s, r, w, e) && NoEmptyEntry(r)
  {
    hide ScanStep, Dispatch, Balanced, NextWorker;
    match s.workers[w].phase {
      case Scan(i) => ScanBalanced(c, s, w, i, e);
      case Held(t) => DispatchBalanced(c, s, w, t, e);
      case Clearing(f) => ClearBalanced(s, w, f, e);
      case _ => MoveBalanced(c, s, w, e);
    }
  }

  lemma DepartKeeps(c: Config, s: State, w: nat, fb: Fiber, e: Entry)
    requires w < |s.workers| && s.workers[w].phase.Running? && s.workers[w].phase.f < |s.fibers| && Ledger(s, e)
    ensures Ledger(Depart(c, s, w, fb), e)
  {
    BalancedKeeps(s, Depart(c, s, w, fb), w, e);
  }

  lemma EnqueueKeeps(s: State, t: Entry, fibers: seq<Fiber>, e: Entry)
    requires Ledger(s, e)
    ensures Ledger(Enqueue(s, t).(fibers := fibers), e) && Ledger(Enqueue(s, t), e)
  {
  }

  lemma StepKeeps(c: Config, s: State, a: Action, e: Entry)
    requires WellFormed(c, s) && Ledger(s, e) && Enabled(c, s, a)
    ensures Ledger(Step(c, s, a), e)
  {
    hide LoopStep, Depart, Balanced, Enqueue, Conserved;
    match a {
      case Loop(w) =>
        LoopBalanced(c, s, w, e);
        BalancedKeeps(s, Step(c, s, a), w, e);
      case Yield(w) => DepartKeeps(c, s, w, s.fibers[s.workers[w].phase.f].(st := READY), e);
      case Finish(w, threw) =>
        DepartKeeps(c, s, w, if threw then s.fibers[s.workers[w].phase.f].(st := EXCEPT) else Fiber(TERM, false), e);
      case SubmitCb(_, cb, pin) => EnqueueKeeps(s, Task(None, cb, pin), [], e);
      case SubmitFiber(_, pin) =>
        EnqueueKeeps(s, Task(Some(|s.fibers|), None, pin), s.fibers + [Fiber(INIT, true)], e);
      case SubmitHandle(_, f, pin) => EnqueueKeeps(s, Task(Some(f), None, pin), [], e);
      case Requeue(w, pin) => EnqueueKeeps(s, Task(Some(s.workers[w].phase.f), None, pin), [], e);
      case _ => FlagsKeep(c, s, a, e);
    }
  }

  lemma FlagsKeep(c: Config, s: State, a: Action, e: Entry)
    requires WellFormed(c, s) && Ledger(s, e) && Enabled(c, s, a) && (a.StopAuto? || a.StopFlag?)
    ensures Ledger(Step(c, s, a), e)
  {
  }

  // The shutdown predicate.

  /** Each worker counts for something only if the counter is positive. */
  lemma AtRest(s: State, w: nat)
    requires Counted(s) && s.active == 0 && w < |s.workers|
    ensures Weight(s.workers[w]) == 0 && |s.leaked| == 0 && Busy(s.workers) == 0
  {
    BusyUpdate(s.workers, w, s.workers[w]);
  }

  /** A worker whose idle fiber ended, or that is done, saw the predicate true; it still is. */
  ghost predicate Orderly(s: State) {
    && (s.stopping ==> s.autoStop)
    && (forall w | 0 <= w < |s.workers| :: OrderlyWorker(s, s.workers[w]))
  }

  predicate OrderlyWorker(s: State, me: Worker) {
    && (me.idle == TERM || me.phase.Done? ==> ShutDown(s))
    && (me.idle == EXEC <==> me.phase.Idle?)
  }

  /** Once true, the shutdown predicate stays true. */
  lemma ShutDownStable(c: Config, s: State, a: Action)
    requires WellFormed(c, s) && Counted(s) && Enabled(c, s, a) && ShutDown(s)
    ensures ShutDown(Step(c, s, a))
    ensures a.Loop?
  {
    if a.Loop? {
      AtRest(s, a.w);
      hide Counted, Named, WellFormed, Known, Dispatch, RemoveAt;
      if s.workers[a.w].phase.Held? {
        DispatchRests(s, a.w, s.workers[a.w].phase.task);
      }
    } else {
      OnlyLoops(c, s, a);
    }
  }

  lemma DispatchRests(s: State, w: nat, t: Entry)
    requires w < |s.workers| && Known(t.fiber, |s.fibers|) && Known(s.workers[w].cbFiber, |s.fibers|)
    ensures ShutDown(s) ==> ShutDown(Dispatch(s, w, t))
  {
  }

  /** No fiber runs any more, and nobody outside schedules. */
  lemma OnlyLoops(c: Config, s: State, a: Action)
    requires WellFormed(c, s) && Counted(s) && Enabled(c, s, a) && ShutDown(s)
    ensures a.Loop?
  {
    hide Counted, Named, WellFormed;
    match a {
      case Loop(w) =>
      case SubmitCb(src, _, _) => if src.Some? { AtRest(s, src.value); }
      case SubmitFiber(src, _) => if src.Some? { AtRest(s, src.value); }
      case SubmitHandle(src, _, _) => if src.Some? { AtRest(s, src.value); }
      case Requeue(w, _) => AtRest(s, w);
      case Yield(w) => AtRest(s, w);
      case Finish(w, _) => AtRest(s, w);
      case _ =>
    }
  }

  lemma IdleLocal(c: Config, s: State, w: nat)
    requires WellFormed(c, s) && Enabled(c, s, Loop(w)) && OrderlyWorker(s, s.workers[w])
    ensures var r := LoopStep(c, s, w);
      && |r.workers| == |s.workers| && r.workers == s.workers[w := r.workers[w]]
      && (r.workers[w].idle == EXEC <==> r.workers[w].phase.Idle?)
      && (r.workers[w].idle == TERM || r.workers[w].phase.Done? ==> ShutDown(s))
      && r.autoStop == s.autoStop && r.stopping == s.stopping
  {
    hide ShutDown, Dispatch, ScanStep;
    match s.workers[w].phase {
      case Held(t) => DispatchLocal(s, w);
      case Scan(i) => ScanLocal(s, w, i);
      case _ =>
    }
  }

  lemma ScanLocal(s: State, w: nat, i: nat)
    requires w < |s.workers| && s.workers[w].phase == Scan(i) && OrderlyWorker(s, s.workers[w])
    requires i < |s.tasks| ==> Known(s.tasks[i].fiber, |s.fibers|)
    ensures var r := ScanStep(s, w, i);
      && |r.workers| == |s.workers| && r.workers == s.workers[w := r.workers[w]]
      && r.workers[w].idle == s.workers[w].idle && !r.workers[w].phase.Idle? && !r.workers[w].phase.Done?
      && r.autoStop == s.autoStop && r.stopping == s.stopping
  {
    hide ShutDown, RemoveAt;
  }

  lemma DispatchLocal(s: State, w: nat)
    requires w < |s.workers| && OrderlyWorker(s, s.workers[w]) && Known(s.workers[w].cbFiber, |s.fibers|)
    ensures var p := s.workers[w].phase; p.Held? && Known(p.task.fiber, |s.fibers|) ==>
      var r := Dispatch(s, w, p.task);
      && |r.workers| == |s.workers| && r.workers == s.workers[w := r.workers[w]]
      && (r.workers[w].idle == EXEC <==> r.workers[w].phase.Idle?)
      && (r.workers[w].idle == TERM || r.workers[w].phase.Done? ==> ShutDown(s))
      && r.autoStop == s.autoStop && r.stopping == s.stopping
  {
    hide ShutDown;
  }

  lemma OrderlyStep(c: Config, s: State, a: Action)
    requires WellFormed(c, s) && Counted(s) && Orderly(s) && Enabled(c, s, a)
    ensures Orderly(Step(c, s, a))
  {
    hide LoopStep, ShutDown, Counted, WellFormed;
    if ShutDown(s) {
      ShutDownStable(c, s, a);
    }
    if a.Loop? {
      assert OrderlyWorker(s, s.workers[a.w]);
      IdleLocal(c, s, a.w);
    }
    var r := Step(c, s, a);
    assert |r.workers| == |s.workers|;
    assert r.stopping ==> r.autoStop;
    forall v | 0 <= v < |r.workers| ensures OrderlyWorker(r, r.workers[v]) {
      assert OrderlyWorker(s, s.workers[v]);
    }
  }

  // Every reachable state.

  ghost predicate Sound(c: Config, s: State) {
    && WellFormed(c, s) && LockOk(s) && NoEmptyEntry(s) && Counted(s) && Orderly(s)
    && forall e :: Conserved(s, e)
  }

  lemma SoundInit(c: Config)
    ensures Sound(c, Init(c))
  {
    forall e ensures Conserved(Init(c), e) {
      AllAtRest(Init(c).workers, e);
    }
    AllAtRest(Init(c).workers, NOTHING);
  }

  lemma SoundStep(c: Config, s: State, a: Action)
    requires Sound(c, s) && Enabled(c, s, a)
    ensures Sound(c, Step(c, s, a))
  {
    hide Step, WellFormed, LockOk, NoEmptyEntry, Counted, Orderly, Conserved, Enabled;
    StepWellFormed(c, s, a);
    OrderlyStep(c, s, a);
    forall e ensures Ledger(Step(c, s, a), e) {
      StepKeeps(c, s, a, e);
    }
    assert Ledger(Step(c, s, a), NOTHING);
    forall e ensures Conserved(Step(c, s, a), e) {
      assert Ledger(Step(c, s, a), e);
    }
  }

  lemma {:induction false} SoundAfter(c: Config, s: State, acts: seq<Action>)
    requires Sound(c, s) && Possible(c, s, acts)
    ensures Sound(c, After(c, s, acts))
    decreases |acts|
  {
    hide Step, LockOk, NoEmptyEntry, Counted, Orderly, Conserved, Enabled;
    if acts != [] {
      SoundStep(c, s, acts[0]);
      SoundAfter(c, Step(c, s, acts[0]), acts[1..]);
    }
  }

  lemma SoundReachable(c: Config, s: State)
    requires Reachable(c, s)
    ensures Sound(c, s)
  {
    var acts :| Possible(c, Init(c), acts) && After(c, Init(c), acts) == s;
    SoundInit(c);
    SoundAfter(c, Init(c), acts);
  }

  // Main results.

  /**
   Graceful exit: a worker that has left run leaves nothing behind. The list is empty, no
   worker holds or runs a task, none was dropped, and every accepted entry was switched to
   exactly as often as it was accepted.
   */
  lemma GracefulExit(c: Config, s: State, w: nat)
    requires Reachable(c, s) && w < |s.workers| && s.workers[w].phase.Done?
    ensures ShutDown(s)
    ensures forall v | 0 <= v < |s.workers| :: Weight(s.workers[v]) == 0
    ensures s.leaked == multiset{}
    ensures s.accepted == s.dispatched
  {
    SoundReachable(c, s);
    assert OrderlyWorker(s, s.workers[w]);
    assert |s.leaked| == 0 by { AtRest(s, w); }
    forall v | 0 <= v < |s.workers| ensures Weight(s.workers[v]) == 0 {
      AtRest(s, v);
    }
    forall e ensures s.accepted[e] == s.dispatched[e] {
      assert Conserved(s, e);
      AllAtRest(s.workers, e);
    }
  }

  /** The shutdown predicate, once true in a reachable state, is true for ever after. */
  lemma {:induction false} ShutDownForever(c: Config, s: State, acts: seq<Action>)
    requires Sound(c, s) && ShutDown(s) && Possible(c, s, acts)
    ensures ShutDown(After(c, s, acts))
    decreases |acts|
  {
    if acts != [] {
      ShutDownStable(c, s, acts[0]);
      SoundStep(c, s, acts[0]);
      ShutDownForever(c, Step(c, s, acts[0]), acts[1..]);
    }
  }

  lemma LeakStays(c: Config, s: State, a: Action)
    requires WellFormed(c, s) && Enabled(c, s, a)
    ensures s.leaked <= Step(c, s, a).leaked
  {
    hide RemoveAt, ShutDown, Scheduled;
  }

  /**
   One entry dropped with its fiber finished makes the shutdown predicate false for ever, so
   no worker ever leaves run.
   */
  lemma {:induction false} LeakBlocksShutdown(c: Config, s: State, acts: seq<Action>)
    requires Sound(c, s) && s.leaked != multiset{} && Possible(c, s, acts)
    ensures var r := After(c, s, acts);
      !ShutDown(r) && forall w | 0 <= w < |r.workers| :: !r.workers[w].phase.Done?
    decreases |acts|
  {
    if acts == [] {
      assert |s.leaked| > 0;
      forall w | 0 <= w < |s.workers| ensures !s.workers[w].phase.Done? {
        assert OrderlyWorker(s, s.workers[w]);
      }
    } else {
      LeakStays(c, s, acts[0]);
      SoundStep(c, s, acts[0]);
      LeakBlocksShutdown(c, Step(c, s, acts[0]), acts[1..]);
    }
  }

  // Once the predicate holds every worker leaves.

  /** How many steps of its own a worker can still take after shutdown. */
  function Rank(me: Worker): nat {
    var ended := me.idle == TERM;
    match me.phase
    case Done => 0
    case Held(_) => if ended then 1 else 5
    case Scan(_) => if ended then 2 else 6
    case Top => if ended then 3 else 7
    case Idle => 4
    case Clearing(_) => 8
    case CheckTerm(_) => 9
    case CheckExcept(_) => 10
    case Parked => 8
    case _ => 11
  }

  function Ranks(ws: seq<Worker>): nat {
    if ws == [] then 0 else Rank(ws[0]) + Ranks(ws[1..])
  }

  lemma {:induction false} RanksUpdate(ws: seq<Worker>, w: nat, x: Worker)
    requires w < |ws|
    ensures Ranks(ws[w := x]) == Ranks(ws) - Rank(ws[w]) + Rank(x)
    ensures Rank(ws[w]) <= Ranks(ws)
  {
    if w > 0 {
      RanksUpdate(ws[1..], w - 1, x);
      assert ws[w := x][1..] == ws[1..][w - 1 := x];
    }
  }

  lemma {:induction false} RanksBound(ws: seq<Worker>)
    ensures Ranks(ws) <= 11 * |ws|
  {
    if ws != [] {
      RanksBound(ws[1..]);
    }
  }

  lemma RankFalls(c: Config, s: State, w: nat)
    requires Sound(c, s) && ShutDown(s) && Enabled(c, s, Loop(w))
    ensures var r := LoopStep(c, s, w);
      && |r.workers| == |s.workers| && r.workers == s.workers[w := r.workers[w]]
      && Rank(r.workers[w]) < Rank(s.workers[w])
  {
    hide Counted, Conserved, TakeEntry, Enter, EnterNew, RemoveAt, Known;
    AtRest(s, w);
    assert OrderlyWorker(s, s.workers[w]);
  }

  /**
   From a state where the predicate holds, every run has at most Ranks (never more than 11 per
   worker) further actions: with the next lemma, every worker leaves within that bound.
   */
  lemma {:induction false} BoundedExit(c: Config, s: State, acts: seq<Action>)
    requires Sound(c, s) && ShutDown(s) && Possible(c, s, acts)
    ensures |acts| + Ranks(After(c, s, acts).workers) <= Ranks(s.workers) <= 11 * c.workers
    decreases |acts|
  {
    RanksBound(s.workers);
    if acts != [] {
      ShutDownStable(c, s, acts[0]);
      var w := acts[0].w;
      RankFalls(c, s, w);
      RanksUpdate(s.workers, w, Step(c, s, acts[0]).workers[w]);
      SoundStep(c, s, acts[0]);
      BoundedExit(c, Step(c, s, acts[0]), acts[1..]);
    }
  }

  /** As long as some worker has not left, some worker can move. */
  lemma ExitNeverStuck(c: Config, s: State, w: nat) returns (v: nat)
    requires Sound(c, s) && ShutDown(s) && w < |s.workers| && !s.workers[w].phase.Done?
    ensures Enabled(c, s, Loop(v))
  {
    AtRest(s, w);
    v := if s.lock.Some? then s.lock.value else w;
  }

  /** So from there some run lets all of them leave. */
  lemma {:induction false} EveryoneCanLeave(c: Config, s: State) returns (acts: seq<Action>)
    requires Sound(c, s) && ShutDown(s)
    ensures Possible(c, s, acts)
    ensures forall w | 0 <= w < c.workers :: After(c, s, acts).workers[w].phase.Done?
    decreases Ranks(s.workers)
  {
    if w :| 0 <= w < c.workers && !s.workers[w].phase.Done? {
      var v := ExitNeverStuck(c, s, w);
      ShutDownStable(c, s, Loop(v));
      RankFalls(c, s, v);
      RanksUpdate(s.workers, v, Step(c, s, Loop(v)).workers[v]);
      SoundStep(c, s, Loop(v));
      hide Sound, ShutDown, Step, Enabled, Ranks, Rank;
      var rest := EveryoneCanLeave(c, Step(c, s, Loop(v)));
      acts := [Loop(v)] + rest;
      assert acts[1..] == rest;
    } else {
      acts := [];
    }
  }

  /** In every configuration a run that stops the scheduler ends with all workers out of run. */
  lemma ExitReachable(c: Config) returns (acts: seq<Action>)
    ensures Possible(c, Init(c), acts)
    ensures forall w | 0 <= w < c.workers :: After(c, Init(c), acts).workers[w].phase.Done?
  {
    SoundInit(c);
    SoundStep(c, Init(c), StopAuto);
    var s := Step(c, Init(c), StopAuto);
    SoundStep(c, s, StopFlag);
    var t := Step(c, s, StopFlag);
    var rest := EveryoneCanLeave(c, t);
    hide Sound, Step;
    var more := [StopFlag] + rest;
    assert more[1..] == rest;
    assert Possible(c, s, more) && After(c, s, more) == After(c, t, rest);
    acts := [StopAuto] + more;
    assert acts[1..] == more;
  }

  /** stop() on the caller's thread enters the loop exactly when something is left to do. */
  lemma CallerRunsIff(c: Config, s: State, w: nat)
    requires WellFormed(c, s) && Enabled(c, s, Loop(w)) && s.workers[w].phase.Parked?
    ensures var r := Step(c, s, Loop(w));
      && (r.workers[w].phase.Done? <==> s.autoStop && s.stopping && s.tasks == [] && s.active == 0)
      && (r.workers[w].phase.Done? || r.workers[w].phase.Top?)
      && r == s.(workers := r.workers) && r.workers == s.workers[w := s.workers[w].(phase := r.workers[w].phase)]
  {
  }
}
