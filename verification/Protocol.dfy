/**
 The N:M scheduler as a step relation (sylar/scheduler.cpp, sylar/fiber.cpp).

 Worker k is the thread with id k. Every action below is one memory-atomic piece of the code;
 the actions of different workers interleave freely, except where m_mutex is held. In
 particular the pick loop advances one entry per action while it holds the lock, and a fiber
 that stops running first writes its state and only later leaves its stack.
 */
module Protocol {
  import opened Basics
  import opened TaskQueue

  /** A fiber with a stack of its own; `cb` says whether m_cb holds a function. */
  datatype Fiber = Fiber(st: FState, cb: bool)

  type Entry = Task<nat, nat>

  const NOTHING: Entry := Task(None, None, ANY_THREAD)

  /** Where a worker is in Scheduler::run. `viaCb` tells the two dispatch branches apart. */
  datatype Phase =
    | Parked                            // the caller's thread before stop() looks at it
    | Top                               // loop head
    | Scan(next: nat)                   // pick loop, m_mutex held
    | Held(task: Entry)                 // left the pick loop; an empty task when nothing was found
    | Running(f: nat, viaCb: bool)      // inside the fiber
    | Leaving(f: nat, viaCb: bool)      // the fiber wrote its final or READY state, swapcontext is still to come
    | Post(f: nat, viaCb: bool)         // back in run, the active counter not yet decremented
    | CheckExcept(f: nat)               // about to test cbFiber's state against EXCEPT
    | CheckTerm(f: nat)                 // about to test it against TERM
    | Clearing(f: nat)                  // about to call cbFiber->reset(nullptr)
    | Idle                              // inside the idle fiber, about to ask stopping()
    | Done                              // run returned, or stop() found nothing left for the caller to do

  datatype Worker = Worker(phase: Phase, cbFiber: Option<nat>, idle: FState)

  /**
   The scheduler. `accepted`, `dispatched` and `leaked` are history: no step reads them.
   `accepted` collects entries put in the list, `dispatched` those swapped in, `leaked` those
   taken out although their fiber had already finished.
   */
  datatype State = State(
    tasks: seq<Entry>,
    active: int,
    autoStop: bool,
    stopping: bool,
    lock: Option<nat>,
    fibers: seq<Fiber>,
    workers: seq<Worker>,
    accepted: multiset<Entry>,
    dispatched: multiset<Entry>,
    leaked: multiset<Entry>)

  /**
   How the scheduler is built and how its fibers behave.
     workers    the number of threads that execute run, the caller's included
     useCaller  the last worker is the thread that calls stop()
     atomicOut  writing READY/TERM/EXCEPT and leaving the stack are one step; false is the code
     pinned     a fiber that is queued again while it runs is queued for the thread it runs on
     loose      any fiber's handle may be queued by anybody, at any time and any number of times;
                otherwise only the running fiber queues its own, once, before it yields
   */
  datatype Config = Config(workers: nat, useCaller: bool, atomicOut: bool, pinned: bool, loose: bool)

  /** Who calls schedule(): a thread outside the scheduler, or the fiber running on a worker. */
  datatype Action =
    | SubmitCb(src: Option<nat>, cb: Option<nat>, pin: int)
    | SubmitFiber(src: Option<nat>, pin: int)
    | SubmitHandle(src: Option<nat>, f: nat, pin: int)
    | Requeue(w: nat, pin: int)
    | Yield(w: nat)
    | Finish(w: nat, threw: bool)
    | StopAuto
    | StopFlag
    | Loop(w: nat)

  function Init(c: Config): State {
    State([], 0, false, false, None, [],
          seq(c.workers, i => Worker(if c.useCaller && i == c.workers - 1 then Parked else Top, None, INIT)),
          multiset{}, multiset{}, multiset{})
  }

  /** Scheduler::stopping */
  predicate ShutDown(s: State) {
    s.autoStop && s.stopping && s.tasks == [] && s.active == 0
  }

  predicate InQueue(q: seq<Entry>, f: nat) {
    exists i | 0 <= i < |q| :: q[i].fiber == Some(f)
  }

  /** The fiber a phase names, if any. */
  function Named(p: Phase): Option<nat> {
    match p
    case Held(t) => t.fiber
    case Running(f, _) => Some(f)
    case Leaving(f, _) => Some(f)
    case Post(f, _) => Some(f)
    case CheckExcept(f) => Some(f)
    case CheckTerm(f) => Some(f)
    case Clearing(f) => Some(f)
    case _ => None
  }

  predicate Known(f: Option<nat>, count: nat) {
    f.Some? ==> f.value < count
  }

  /** Every fiber that is mentioned exists. */
  predicate WellFormed(c: Config, s: State) {
    && |s.workers| == c.workers
    && (forall i | 0 <= i < |s.tasks| :: Known(s.tasks[i].fiber, |s.fibers|))
    && (forall w | 0 <= w < |s.workers| ::
          Known(Named(s.workers[w].phase), |s.fibers|) && Known(s.workers[w].cbFiber, |s.fibers|))
  }

  /** Worker w runs a fiber whose function is still executing. */
  predicate Alive(s: State, w: nat) {
    && w < |s.workers|
    && s.workers[w].phase.Running?
    && s.workers[w].phase.f < |s.fibers|
    && s.fibers[s.workers[w].phase.f].cb
  }

  /** External schedule() calls end before stop(); running fibers may schedule at any time. */
  predicate MaySubmit(s: State, src: Option<nat>) {
    s.lock.None? && (if src.None? then !s.autoStop else Alive(s, src.value))
  }

  predicate Enabled(c: Config, s: State, a: Action) {
    match a
    case SubmitCb(src, _, _) => MaySubmit(s, src)
    case SubmitFiber(src, _) => MaySubmit(s, src)
    case SubmitHandle(src, f, _) =>
      c.loose && MaySubmit(s, src) && f < |s.fibers|
    case Requeue(w, pin) =>
      && s.lock.None? && Alive(s, w) && (c.pinned ==> pin == w)
      && (!c.loose ==> !InQueue(s.tasks, s.workers[w].phase.f))
    case Yield(w) =>
      // the duty stated at sylar/scheduler.cpp:241
      Alive(s, w) && (!c.loose ==> InQueue(s.tasks, s.workers[w].phase.f))
    case Finish(w, threw) =>
      && w < |s.workers| && s.workers[w].phase.Running? && s.workers[w].phase.f < |s.fibers|
      && (threw || s.fibers[s.workers[w].phase.f].cb)
      && (!c.loose ==> !InQueue(s.tasks, s.workers[w].phase.f))
    case StopAuto => !s.autoStop
    case StopFlag => s.autoStop && !s.stopping
    case Loop(w) =>
      w < |s.workers| &&
      match s.workers[w].phase
      case Parked => s.autoStop && s.stopping && s.lock.None?
      case Top => s.lock.None?
      case Scan(_) => s.lock == Some(w)
      case Running(_, _) => false
      case Idle => s.lock.None?
      case Done => false
      case _ => true
  }

  // Each action as a function of the state.

  function Enqueue(s: State, t: Entry): State {
    s.(tasks := Scheduled(s.tasks, t),
       accepted := if t.Empty() then s.accepted else s.accepted + multiset{t})
  }

  function SetPhase(s: State, w: nat, p: Phase): State
    requires w < |s.workers|
  {
    s.(workers := s.workers[w := s.workers[w].(phase := p)])
  }

  /** The running fiber records `fb` and gives up its stack, at once or in a later step. */
  function Depart(c: Config, s: State, w: nat, fb: Fiber): State
    requires w < |s.workers| && s.workers[w].phase.Running? && s.workers[w].phase.f < |s.fibers|
  {
    var p := s.workers[w].phase;
    s.(fibers := s.fibers[p.f := fb],
       workers := s.workers[w := s.workers[w].(
                    phase := if c.atomicOut then Post(p.f, p.viaCb) else Leaving(p.f, p.viaCb))])
  }

  function EndScan(s: State, w: nat): State
    requires w < |s.workers|
  {
    SetPhase(s, w, Held(NOTHING)).(lock := None)
  }

  /** The entry leaves the list and the counter goes up in one critical section. */
  function TakeEntry(s: State, w: nat, i: nat): State
    requires w < |s.workers| && i < |s.tasks|
  {
    SetPhase(s, w, Held(s.tasks[i])).(tasks := RemoveAt(s.tasks, i), active := s.active + 1, lock := None)
  }

  /** One action of the pick loop at entry `i`. */
  function ScanStep(s: State, w: nat, i: nat): State
    requires w < |s.workers|
    requires i < |s.tasks| ==> Known(s.tasks[i].fiber, |s.fibers|)
  {
    if i >= |s.tasks| then EndScan(s, w)
    else if Foreign(s.tasks[i], w) then SetPhase(s, w, Scan(i + 1))
    else if s.tasks[i].fiber.Some? && s.fibers[s.tasks[i].fiber.value].st == EXEC then SetPhase(s, w, Scan(i + 1))
    else TakeEntry(s, w, i)
  }

  /** The task holds a fiber that swapIn may resume. */
  predicate Resumable(s: State, t: Entry)
    requires Known(t.fiber, |s.fibers|)
  {
    t.fiber.Some? && !Finished(s.fibers[t.fiber.value].st)
  }

  /** Worker w switches to fiber f, which is in state `fb`, to run task t. */
  function Enter(s: State, w: nat, f: nat, fb: Fiber, viaCb: bool, t: Entry): State
    requires w < |s.workers| && f < |s.fibers|
  {
    s.(fibers := s.fibers[f := fb],
       workers := s.workers[w := s.workers[w].(phase := Running(f, viaCb))],
       dispatched := s.dispatched + multiset{t})
  }

  /** Worker w switches to a new fiber made for the callback of t and remembers it. */
  function EnterNew(s: State, w: nat, t: Entry): State
    requires w < |s.workers|
  {
    s.(fibers := s.fibers + [Fiber(EXEC, true)],
       workers := s.workers[w := s.workers[w].(phase := Running(|s.fibers|, true), cbFiber := Some(|s.fibers|))],
       dispatched := s.dispatched + multiset{t})
  }

  /** Worker w has nothing to run: it leaves the loop or enters its idle fiber. */
  function EnterIdle(s: State, w: nat, t: Entry): State
    requires w < |s.workers|
  {
    var me := s.workers[w];
    s.(workers := s.workers[w := if me.idle == TERM then me.(phase := Done) else me.(phase := Idle, idle := EXEC)],
       leaked := if t.Empty() then s.leaked else s.leaked + multiset{t})
  }

  /** The three-way branch after the pick loop, up to the context switch. */
  function Dispatch(s: State, w: nat, t: Entry): State
    requires w < |s.workers|
    requires Known(t.fiber, |s.fibers|) && Known(s.workers[w].cbFiber, |s.fibers|)
  {
    if Resumable(s, t) then Enter(s, w, t.fiber.value, s.fibers[t.fiber.value].(st := EXEC), false, t)
    else if t.cb.None? then EnterIdle(s, w, t)
    else if s.workers[w].cbFiber.Some? then Enter(s, w, s.workers[w].cbFiber.value, Fiber(EXEC, true), true, t)
    else EnterNew(s, w, t)
  }

  /** The callback fiber is finished: it is reset with no function and kept. */
  function ClearCb(s: State, w: nat, f: nat): State
    requires w < |s.workers| && f < |s.fibers|
  {
    s.(fibers := s.fibers[f := Fiber(INIT, false)],
       workers := s.workers[w := s.workers[w].(phase := Top)])
  }

  /**
   Where the worker is after a step that touches neither the list nor a fiber: the lock is
   taken, a stack is left, the counter goes down, cbFiber is judged (a finished one is kept for
   reset, any other handle is given up), or idle() asks stopping() and yields or returns.
   */
  function NextWorker(s: State, w: nat): Worker
    requires w < |s.workers| && Known(Named(s.workers[w].phase), |s.fibers|)
  {
    var me := s.workers[w];
    match me.phase
    case Parked => me.(phase := if ShutDown(s) then Done else Top)
    case Top => me.(phase := Scan(0))
    case Leaving(f, v) => me.(phase := Post(f, v))
    case Post(f, v) => me.(phase := if v then CheckExcept(f) else Top)
    case CheckExcept(f) => me.(phase := if s.fibers[f].st == EXCEPT then Clearing(f) else CheckTerm(f))
    case CheckTerm(f) =>
      if s.fibers[f].st == TERM then me.(phase := Clearing(f)) else me.(phase := Top, cbFiber := None)
    case Idle => me.(phase := Top, idle := if ShutDown(s) then TERM else READY)
    case _ => me
  }

  function Move(s: State, w: nat): State
    requires w < |s.workers| && Known(Named(s.workers[w].phase), |s.fibers|)
  {
    s.(workers := s.workers[w := NextWorker(s, w)],
       lock := if s.workers[w].phase.Top? then Some(w) else s.lock,
       active := if s.workers[w].phase.Post? then s.active - 1 else s.active)
  }

  function LoopStep(c: Config, s: State, w: nat): State
    requires WellFormed(c, s) && Enabled(c, s, Loop(w))
  {
    assert Known(Named(s.workers[w].phase), |s.fibers|);
    match s.workers[w].phase
    case Scan(i) => ScanStep(s, w, i)
    case Held(t) => Dispatch(s, w, t)
    case Clearing(f) => ClearCb(s, w, f)
    case _ => Move(s, w)
  }

  function Step(c: Config, s: State, a: Action): State
    requires WellFormed(c, s) && Enabled(c, s, a)
  {
    match a
    case SubmitCb(_, cb, pin) => Enqueue(s, Task(None, cb, pin))
    case SubmitFiber(_, pin) =>
      Enqueue(s, Task(Some(|s.fibers|), None, pin)).(fibers := s.fibers + [Fiber(INIT, true)])
    case SubmitHandle(_, f, pin) => Enqueue(s, Task(Some(f), None, pin))
    case Requeue(w, pin) => Enqueue(s, Task(Some(s.workers[w].phase.f), None, pin))
    case Yield(w) => Depart(c, s, w, s.fibers[s.workers[w].phase.f].(st := READY))
    case Finish(w, threw) =>
      Depart(c, s, w, if threw then s.fibers[s.workers[w].phase.f].(st := EXCEPT) else Fiber(TERM, false))
    case StopAuto => s.(autoStop := true)
    case StopFlag => s.(stopping := true)
    case Loop(w) => LoopStep(c, s, w)
  }

  /** The run-time assertions the code checks while it performs `a` (SYLAR_ASSERT). */
  predicate AssertionsHold(c: Config, s: State, a: Action)
    requires WellFormed(c, s) && Enabled(c, s, a)
  {
    match a
    case Yield(w) => s.fibers[s.workers[w].phase.f].st == EXEC
    case Loop(w) => (
      var me := s.workers[w];
      match me.phase
      case Scan(i) => i < |s.tasks| && !Foreign(s.tasks[i], w) ==> !s.tasks[i].Empty()
      case Held(t) =>
        if Resumable(s, t) then s.fibers[t.fiber.value].st != EXEC
        else if t.cb.Some? && me.cbFiber.Some? then
          Finished(s.fibers[me.cbFiber.value].st) || s.fibers[me.cbFiber.value].st == INIT
        else t.cb.None? && me.idle != TERM ==> me.idle != EXEC
      case Clearing(f) => Finished(s.fibers[f].st) || s.fibers[f].st == INIT
      case Idle => me.idle == EXEC
      case _ => true)
    case _ => true
  }

  // Runs.

  lemma StepWellFormed(c: Config, s: State, a: Action)
    requires WellFormed(c, s) && Enabled(c, s, a)
    ensures WellFormed(c, Step(c, s, a))
  {
    hide LoopStep;
    if a.Loop? {
      LoopWellFormed(c, s, a.w);
    }
  }

  lemma LoopWellFormed(c: Config, s: State, w: nat)
    requires WellFormed(c, s) && Enabled(c, s, Loop(w))
    ensures WellFormed(c, LoopStep(c, s, w))
  {
    hide ScanStep, Dispatch, Move;
    assert Known(Named(s.workers[w].phase), |s.fibers|);
    match s.workers[w].phase {
      case Scan(i) => ScanWellFormed(c, s, w, i);
      case Held(t) => DispatchWellFormed(c, s, w, t);
      case Clearing(f) =>
      case _ => MoveWellFormed(c, s, w);
    }
  }

  lemma MoveWellFormed(c: Config, s: State, w: nat)
    requires WellFormed(c, s) && w < c.workers && Known(Named(s.workers[w].phase), |s.fibers|)
    ensures WellFormed(c, Move(s, w))
  {
    hide ShutDown;
  }

  lemma ScanWellFormed(c: Config, s: State, w: nat, i: nat)
    requires WellFormed(c, s) && w < c.workers
    ensures WellFormed(c, ScanStep(s, w, i))
  {
  }

  lemma DispatchWellFormed(c: Config, s: State, w: nat, t: Entry)
    requires WellFormed(c, s) && w < c.workers && Known(t.fiber, |s.fibers|)
    ensures WellFormed(c, Dispatch(s, w, t))
  {
    hide EnterNew, EnterIdle;
    EnterWellFormed(c, s, w, t);
  }

  lemma EnterWellFormed(c: Config, s: State, w: nat, t: Entry)
    requires WellFormed(c, s) && w < c.workers
    ensures WellFormed(c, EnterNew(s, w, t)) && WellFormed(c, EnterIdle(s, w, t))
  {
  }

  /** `acts` can be performed one after the other from s. */
  ghost predicate Possible(c: Config, s: State, acts: seq<Action>)
    requires WellFormed(c, s)
    decreases |acts|
  {
    acts == [] || (
      && Enabled(c, s, acts[0])
      && (StepWellFormed(c, s, acts[0]); Possible(c, Step(c, s, acts[0]), acts[1..])))
  }

  ghost function After(c: Config, s: State, acts: seq<Action>): (r: State)
    requires WellFormed(c, s) && Possible(c, s, acts)
    ensures WellFormed(c, r)
    decreases |acts|
  {
    if acts == [] then s else
    StepWellFormed(c, s, acts[0]);
    After(c, Step(c, s, acts[0]), acts[1..])
  }

  ghost predicate Reachable(c: Config, s: State) {
    exists acts: seq<Action> :: Possible(c, Init(c), acts) && After(c, Init(c), acts) == s
  }

  lemma {:induction false} Extend(c: Config, s: State, acts: seq<Action>, a: Action)
    requires WellFormed(c, s) && Possible(c, s, acts) && Enabled(c, After(c, s, acts), a)
    ensures Possible(c, s, acts + [a])
    ensures After(c, s, acts + [a]) == Step(c, After(c, s, acts), a)
    decreases |acts|
  {
    if acts == [] {
      assert acts + [a] == [a];
    } else {
      StepWellFormed(c, s, acts[0]);
      assert (acts + [a])[1..] == acts[1..] + [a];
      Extend(c, Step(c, s, acts[0]), acts[1..], a);
    }
  }

  lemma ReachableStep(c: Config, s: State, a: Action)
    requires Reachable(c, s) && WellFormed(c, s) && Enabled(c, s, a)
    ensures Reachable(c, Step(c, s, a))
  {
    var acts :| Possible(c, Init(c), acts) && After(c, Init(c), acts) == s;
    Extend(c, Init(c), acts, a);
  }
}
