/**
 What was asked for is what is queued, held and run: every entry goes back to one call of
 schedule() with the same handle, callback and thread. And how a fiber ended is what its state
 says.
 */
module Requests {
  import opened Basics
  import opened TaskQueue
  import opened Protocol
  import opened Shutdown
  import opened Fairness

  /** What a call asks for: a fiber or a callback, and the thread, -1 for any. */
  datatype Request = Request(fiber: bool, cb: Option<nat>, thread: int)

  /** The request of an action that schedules something; an empty callback asks for nothing. */
  function AskedBy(a: Action): seq<Request> {
    match a
    case SubmitCb(_, cb, pin) => if cb.None? then [] else [Request(false, cb, pin)]
    case SubmitFiber(_, pin) => [Request(true, None, pin)]
    case SubmitHandle(_, _, pin) => [Request(true, None, pin)]
    case Requeue(_, pin) => [Request(true, None, pin)]
    case _ => []
  }

  /** All requests, from the actions alone. */
  function Asked(acts: seq<Action>): seq<Request> {
    if acts == [] then [] else AskedBy(acts[0]) + Asked(acts[1..])
  }

  /** The handle that the request passes: a new fiber, the one named, or the caller's own. */
  function HandleOf(c: Config, s: State, a: Action): seq<Option<nat>>
    requires WellFormed(c, s) && Enabled(c, s, a)
  {
    match a
    case SubmitCb(_, cb, _) => if cb.None? then [] else [None]
    case SubmitFiber(_, _) => [Some(|s.fibers|)]
    case SubmitHandle(_, f, _) => [Some(f)]
    case Requeue(w, _) => [Some(s.workers[w].phase.f)]
    case _ => []
  }

  ghost function Handles(c: Config, s: State, acts: seq<Action>): (r: seq<Option<nat>>)
    requires WellFormed(c, s) && Possible(c, s, acts)
    ensures |r| == |Asked(acts)|
    ensures forall i | 0 <= i < |r| :: r[i].Some? <==> Asked(acts)[i].fiber
    decreases |acts|
  {
    if acts == [] then [] else
    StepWellFormed(c, s, acts[0]);
    HandleOf(c, s, acts[0]) + Handles(c, Step(c, s, acts[0]), acts[1..])
  }

  /** The entries that requests with these handles stand for. */
  function Entries(asked: seq<Request>, handles: seq<Option<nat>>): (r: seq<Entry>)
    requires |asked| == |handles|
    ensures |r| == |asked|
    ensures forall i | 0 <= i < |r| ::
      r[i].fiber == handles[i] && r[i].cb == asked[i].cb && r[i].thread == asked[i].thread
  {
    if asked == [] then [] else
    [Task(handles[0], asked[0].cb, asked[0].thread)] + Entries(asked[1..], handles[1..])
  }

  lemma EntriesAppend(a: seq<Request>, h: seq<Option<nat>>, b: seq<Request>, k: seq<Option<nat>>)
    requires |a| == |h| && |b| == |k|
    ensures Entries(a + b, h + k) == Entries(a, h) + Entries(b, k)
  {
  }

  /** One action accepts what it asks for and nothing else. */
  lemma StepAccepts(c: Config, s: State, a: Action)
    requires WellFormed(c, s) && Enabled(c, s, a)
    ensures |AskedBy(a)| == |HandleOf(c, s, a)|
    ensures Step(c, s, a).accepted == s.accepted + multiset(Entries(AskedBy(a), HandleOf(c, s, a)))
  {
    EntriesFew(AskedBy(a), HandleOf(c, s, a));
    hide LoopStep, Depart, Enqueue, Entries, WellFormed;
    match a {
      case Loop(w) => LoopAccepts(c, s, w);
      case Yield(_) => DepartAccepts(c, s, a);
      case Finish(_, _) => DepartAccepts(c, s, a);
      case SubmitCb(_, cb, pin) => EnqueueAccepts(s, Task(None, cb, pin));
      case SubmitFiber(_, pin) => EnqueueAccepts(s, Task(Some(|s.fibers|), None, pin));
      case SubmitHandle(_, f, pin) => EnqueueAccepts(s, Task(Some(f), None, pin));
      case Requeue(w, pin) => EnqueueAccepts(s, Task(Some(s.workers[w].phase.f), None, pin));
      case _ =>
    }
  }

  lemma EnqueueAccepts(s: State, t: Entry)
    ensures Enqueue(s, t).accepted == if t.Empty() then s.accepted else s.accepted + multiset{t}
    ensures Enqueue(s, t).fibers == s.fibers
  {
  }

  lemma EntriesFew(asked: seq<Request>, handles: seq<Option<nat>>)
    requires |asked| == |handles| <= 1
    ensures multiset(Entries(asked, handles)) ==
      if asked == [] then multiset{} else multiset{Task(handles[0], asked[0].cb, asked[0].thread)}
  {
  }

  lemma LoopAccepts(c: Config, s: State, w: nat)
    requires WellFormed(c, s) && Enabled(c, s, Loop(w))
    ensures LoopStep(c, s, w).accepted == s.accepted && |s.fibers| <= |LoopStep(c, s, w).fibers|
  {
    hide RemoveAt, ShutDown, NextWorker;
  }

  lemma DepartAccepts(c: Config, s: State, a: Action)
    requires WellFormed(c, s) && Enabled(c, s, a) && (a.Yield? || a.Finish?)
    ensures Step(c, s, a).accepted == s.accepted && |Step(c, s, a).fibers| == |s.fibers|
  {
  }

  lemma {:induction false} AcceptedAfter(c: Config, s: State, acts: seq<Action>)
    requires WellFormed(c, s) && Possible(c, s, acts)
    ensures After(c, s, acts).accepted == s.accepted + multiset(Entries(Asked(acts), Handles(c, s, acts)))
    decreases |acts|
  {
    if acts != [] {
      hide Step, Enabled, WellFormed, AskedBy, HandleOf, Entries;
      StepWellFormed(c, s, acts[0]);
      StepAccepts(c, s, acts[0]);
      var t := Step(c, s, acts[0]);
      AcceptedAfter(c, t, acts[1..]);
      EntriesAppend(AskedBy(acts[0]), HandleOf(c, s, acts[0]), Asked(acts[1..]), Handles(c, t, acts[1..]));
    }
  }

  // Whole runs.

  /**
   Over every run from the start, the accepted entries are the requests of the actions, each with
   its own handle, callback and thread.
   */
  lemma AcceptedIsAsked(c: Config, acts: seq<Action>)
    requires Possible(c, Init(c), acts)
    ensures After(c, Init(c), acts).accepted == multiset(Entries(Asked(acts), Handles(c, Init(c), acts)))
  {
    AcceptedAfter(c, Init(c), acts);
  }

  /** When a worker has left, what was run is exactly what was asked for. */
  lemma ExitRanWhatWasAsked(c: Config, acts: seq<Action>, w: nat)
    requires Possible(c, Init(c), acts) && w < c.workers && After(c, Init(c), acts).workers[w].phase.Done?
    ensures After(c, Init(c), acts).dispatched == multiset(Entries(Asked(acts), Handles(c, Init(c), acts)))
  {
    var s := After(c, Init(c), acts);
    assert Reachable(c, s);
    hide *;
    AcceptedIsAsked(c, acts);
    AllRan(c, s, w);
  }

  lemma AllRan(c: Config, s: State, w: nat)
    requires Reachable(c, s) && w < |s.workers| && s.workers[w].phase.Done?
    ensures s.accepted == s.dispatched
  {
    hide *;
    GracefulExit(c, s, w);
  }

  lemma HeldIsAccepted(c: Config, s: State, w: nat)
    requires Sound(c, s) && w < c.workers && s.workers[w].phase.Held? && !s.workers[w].phase.task.Empty()
    ensures s.workers[w].phase.task in s.accepted
  {
    var t := s.workers[w].phase.task;
    assert Conserved(s, t);
    HandUpdate(s.workers, w, Worker(Top, None, INIT), t);
  }

  /**
   Whatever a worker holds was asked for: request i of the run has the same handle and callback,
   and its thread is that worker, or any.
   */
  lemma HeldWasAsked(c: Config, acts: seq<Action>, w: nat) returns (i: nat)
    requires Possible(c, Init(c), acts) && w < c.workers
    requires var me := After(c, Init(c), acts).workers[w]; me.phase.Held? && !me.phase.task.Empty()
    ensures i < |Asked(acts)|
    ensures var t := After(c, Init(c), acts).workers[w].phase.task;
      && t.fiber == Handles(c, Init(c), acts)[i] && t.cb == Asked(acts)[i].cb && t.thread == Asked(acts)[i].thread
      && (Asked(acts)[i].thread == -1 || Asked(acts)[i].thread == w)
  {
    var s := After(c, Init(c), acts);
    var t := s.workers[w].phase.task;
    PinsAfter(c, Init(c), acts);
    assert !Foreign(t, w);
    assert Sound(c, s) by { SoundInit(c); SoundAfter(c, Init(c), acts); }
    hide Sound, Possible, After, PinsRespected;
    HeldIsAccepted(c, s, w);
    AcceptedIsAsked(c, acts);
    i := IndexOf(Entries(Asked(acts), Handles(c, Init(c), acts)), t);
  }

  lemma IndexOf(es: seq<Entry>, t: Entry) returns (i: nat)
    requires t in multiset(es)
    ensures i < |es| && es[i] == t
  {
    i :| 0 <= i < |es| && es[i] == t;
  }

  /** A fiber all of whose requests so far name thread p is not held by any worker but p. */
  lemma HeldByItsThread(c: Config, acts: seq<Action>, f: nat, p: int, w: nat)
    requires Possible(c, Init(c), acts) && w < c.workers && p != -1
    requires forall i | 0 <= i < |Asked(acts)| ::
      Handles(c, Init(c), acts)[i] == Some(f) ==> Asked(acts)[i].thread == p
    requires var me := After(c, Init(c), acts).workers[w]; me.phase.Held? && me.phase.task.fiber == Some(f)
    ensures w == p
  {
    var i := HeldWasAsked(c, acts, w);
  }

  // A fiber from its submission on.

  /** The first action of a run, and what is left. */
  lemma Unfold(c: Config, s: State, acts: seq<Action>)
    requires WellFormed(c, s) && acts != []
    ensures Possible(c, s, acts) <==>
      Enabled(c, s, acts[0]) && WellFormed(c, Step(c, s, acts[0])) && Possible(c, Step(c, s, acts[0]), acts[1..])
    ensures Possible(c, s, acts) ==>
      && After(c, s, acts) == After(c, Step(c, s, acts[0]), acts[1..])
      && Handles(c, s, acts) == HandleOf(c, s, acts[0]) + Handles(c, Step(c, s, acts[0]), acts[1..])
  {
    hide Step, Enabled, WellFormed, HandleOf;
    if Enabled(c, s, acts[0]) {
      StepWellFormed(c, s, acts[0]);
    }
  }

  /** Requests only pass handles of fibers that exist, or of the one they make. */
  lemma {:induction false} HandlesExist(c: Config, s: State, acts: seq<Action>)
    requires WellFormed(c, s) && Possible(c, s, acts)
    ensures |s.fibers| <= |After(c, s, acts).fibers|
    ensures forall i | 0 <= i < |Asked(acts)| && Handles(c, s, acts)[i].Some? ::
      Handles(c, s, acts)[i].value < |After(c, s, acts).fibers|
    decreases |acts|
  {
    if acts != [] {
      hide Step, Enabled, WellFormed, AskedBy;
      StepWellFormed(c, s, acts[0]);
      OneExists(c, s, acts[0]);
      hide HandleOf;
      HandlesExist(c, Step(c, s, acts[0]), acts[1..]);
    }
  }

  lemma OneExists(c: Config, s: State, a: Action)
    requires WellFormed(c, s) && Enabled(c, s, a)
    ensures |s.fibers| <= |Step(c, s, a).fibers|
    ensures |HandleOf(c, s, a)| == |AskedBy(a)|
    ensures forall i | 0 <= i < |HandleOf(c, s, a)| && HandleOf(c, s, a)[i].Some? ::
      HandleOf(c, s, a)[i].value < |Step(c, s, a).fibers|
  {
    hide LoopStep, Depart, Scheduled;
    if a.Loop? {
      LoopAccepts(c, s, a.w);
    } else if a.Yield? || a.Finish? {
      DepartAccepts(c, s, a);
    }
  }

  /** Entries accepted so far only name fibers that exist. */
  lemma AcceptedExist(c: Config, acts: seq<Action>, t: Entry)
    requires Possible(c, Init(c), acts) && t in After(c, Init(c), acts).accepted && t.fiber.Some?
    ensures t.fiber.value < |After(c, Init(c), acts).fibers|
  {
    AcceptedIsAsked(c, acts);
    HandlesExist(c, Init(c), acts);
    hide *;
    var i := IndexOf(Entries(Asked(acts), Handles(c, Init(c), acts)), t);
  }

  /**
   A fiber submitted for thread p: as long as nothing in `b` asks for it again, which only it can
   do, running, when handles are queued as meant, no worker but p holds it.
   */
  lemma SubmittedForThread(c: Config, a: seq<Action>, src: Option<nat>, p: int, b: seq<Action>, w: nat)
    requires Possible(c, Init(c), a) && Possible(c, After(c, Init(c), a), [SubmitFiber(src, p)] + b)
    requires w < c.workers && p != -1
    requires var s := After(c, Init(c), a);
      NotAgain(Handles(c, s, [SubmitFiber(src, p)] + b), |s.fibers|)
    requires var s := After(c, Init(c), a);
      var me := After(c, s, [SubmitFiber(src, p)] + b).workers[w];
      me.phase.Held? && me.phase.task.fiber == Some(|s.fibers|)
    ensures w == p
  {
    var s, acts := After(c, Init(c), a), [SubmitFiber(src, p)] + b;
    var r := After(c, s, acts);
    var t, f := r.workers[w].phase.task, |s.fibers|;
    FirstRequest(c, s, src, p, b);
    RunIsSound(c, a, acts);
    hide *;
    AcceptedAfter(c, s, acts);
    HeldIsAccepted(c, r, w);
    HeldHere(r, w);
    assert t !in s.accepted by {
      if t in s.accepted {
        AcceptedExist(c, a, t);
      }
    }
    var i := IndexOf(Entries(Asked(acts), Handles(c, s, acts)), t);
    OnlyFirst(Handles(c, s, acts), f, i);
  }

  /** Only the first handle may be f. */
  predicate NotAgain(handles: seq<Option<nat>>, f: nat) {
    forall j | 0 < j < |handles| :: handles[j] != Some(f)
  }

  lemma OnlyFirst(handles: seq<Option<nat>>, f: nat, i: nat)
    requires NotAgain(handles, f) && i < |handles| && handles[i] == Some(f)
    ensures i == 0
  {
  }

  lemma FirstRequest(c: Config, s: State, src: Option<nat>, p: int, b: seq<Action>)
    requires WellFormed(c, s) && Possible(c, s, [SubmitFiber(src, p)] + b)
    ensures var acts := [SubmitFiber(src, p)] + b;
      && Asked(acts) != [] && Asked(acts)[0].thread == p && Handles(c, s, acts)[0] == Some(|s.fibers|)
  {
    var acts := [SubmitFiber(src, p)] + b;
    assert AskedBy(acts[0]) == [Request(true, None, p)];
    Unfold(c, s, acts);
    hide Step, WellFormed, Possible, Handles, Enabled;
  }

  lemma RunIsSound(c: Config, a: seq<Action>, b: seq<Action>)
    requires Possible(c, Init(c), a) && Possible(c, After(c, Init(c), a), b)
    ensures var r := After(c, After(c, Init(c), a), b); Sound(c, r) && PinsRespected(r)
  {
    SoundInit(c);
    SoundAfter(c, Init(c), a);
    PinsAfter(c, Init(c), a);
    SoundAfter(c, After(c, Init(c), a), b);
    PinsAfter(c, After(c, Init(c), a), b);
  }

  lemma HeldHere(s: State, w: nat)
    requires PinsRespected(s) && w < |s.workers| && s.workers[w].phase.Held?
    ensures s.workers[w].phase.task.thread == -1 || s.workers[w].phase.task.thread == w
  {
  }

  // How a fiber ended.

  /** Whether the function of fiber f threw when it last ended, or `before` if it did not end. */
  ghost function LastEnd(c: Config, s: State, acts: seq<Action>, f: nat, before: Option<bool>): Option<bool>
    requires WellFormed(c, s) && Possible(c, s, acts)
    decreases |acts|
  {
    if acts == [] then before else
    StepWellFormed(c, s, acts[0]);
    LastEnd(c, Step(c, s, acts[0]), acts[1..], f,
            if acts[0].Finish? && s.workers[acts[0].w].phase.f == f then Some(acts[0].threw) else before)
  }

  /** The state of fiber f says that it ended so. */
  predicate EndIs(s: State, f: nat, end: Option<bool>) {
    f < |s.fibers| ==>
      (s.fibers[f].st == EXCEPT ==> end == Some(true)) && (s.fibers[f].st == TERM ==> end == Some(false))
  }

  lemma EndStep(c: Config, s: State, a: Action, f: nat, end: Option<bool>)
    requires WellFormed(c, s) && Enabled(c, s, a) && EndIs(s, f, end)
    ensures EndIs(Step(c, s, a), f, if a.Finish? && s.workers[a.w].phase.f == f then Some(a.threw) else end)
  {
    hide RemoveAt, ShutDown, Scheduled, LoopStep;
    if a.Loop? {
      LoopEnds(c, s, a.w, f);
    }
  }

  lemma LoopEnds(c: Config, s: State, w: nat, f: nat)
    requires WellFormed(c, s) && Enabled(c, s, Loop(w))
    ensures var r := LoopStep(c, s, w);
      f < |r.fibers| && Finished(r.fibers[f].st) ==> f < |s.fibers| && s.fibers[f].st == r.fibers[f].st
  {
    hide RemoveAt, ShutDown, NextWorker, Dispatch;
    if s.workers[w].phase.Held? {
      DispatchEnds(s, w, s.workers[w].phase.task, f);
    }
  }

  lemma DispatchEnds(s: State, w: nat, t: Entry, f: nat)
    requires w < |s.workers| && Known(t.fiber, |s.fibers|) && Known(s.workers[w].cbFiber, |s.fibers|)
    ensures var r := Dispatch(s, w, t);
      f < |r.fibers| && Finished(r.fibers[f].st) ==> f < |s.fibers| && s.fibers[f].st == r.fibers[f].st
  {
  }

  lemma {:induction false} EndAfter(c: Config, s: State, acts: seq<Action>, f: nat, end: Option<bool>)
    requires WellFormed(c, s) && Possible(c, s, acts) && EndIs(s, f, end)
    ensures EndIs(After(c, s, acts), f, LastEnd(c, s, acts, f, end))
    decreases |acts|
  {
    if acts != [] {
      hide Step, Enabled, WellFormed, EndIs;
      StepWellFormed(c, s, acts[0]);
      EndStep(c, s, acts[0], f, end);
      EndAfter(c, Step(c, s, acts[0]), acts[1..], f,
               if acts[0].Finish? && s.workers[acts[0].w].phase.f == f then Some(acts[0].threw) else end);
    }
  }

  /** Over every run: a fiber in EXCEPT threw when it last ended, one in TERM returned. */
  lemma StateTellsTheEnd(c: Config, acts: seq<Action>, f: nat)
    requires Possible(c, Init(c), acts) && f < |After(c, Init(c), acts).fibers|
    ensures var st, end := After(c, Init(c), acts).fibers[f].st, LastEnd(c, Init(c), acts, f, None);
      (st == EXCEPT ==> end == Some(true)) && (st == TERM ==> end == Some(false))
  {
    EndAfter(c, Init(c), acts, f, None);
  }
}
