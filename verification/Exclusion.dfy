/**
 Who has which fiber: the inductive invariant that ties queue membership, held tasks, running
 fibers and kept callback fibers together, for every configuration that does not queue handles
 loosely.
 */
module Exclusion {
  import opened Basics
  import opened TaskQueue
  import opened Protocol

  /** A fiber is in one worker's hand, runs on one worker, or neither. */
  datatype At = Away | Hand(w: nat) | Run(w: nat)

  /** Where fiber handles are: in the list, with a worker, and kept as a worker's cbFiber. */
  datatype Place = Place(queued: bool, at: At, keeper: Option<nat>)

  type Places = seq<Place>

  /** The worker is in the callback branch, anywhere from the switch to the reset. */
  predicate ViaCb(p: Phase) {
    match p
    case Running(_, v) => v
    case Leaving(_, v) => v
    case Post(_, v) => v
    case CheckExcept(_) => true
    case CheckTerm(_) => true
    case Clearing(_) => true
    case _ => false
  }

  predicate FiberOk(fb: Fiber, p: Place) {
    && (fb.st == EXEC <==> p.at.Run?)
    && (p.at.Hand? ==> !p.queued && fb.st != EXEC && !Finished(fb.st))
    && (p.queued ==> !Finished(fb.st))
    && (fb.st == READY ==> p.queued || p.at.Hand?)
    && (p.queued || p.at != Away ==> fb.cb)
  }

  /** What worker w says about the places. */
  predicate WorkerOk(fibers: seq<Fiber>, g: Places, w: nat, me: Worker)
    requires |g| == |fibers|
  {
    && Known(Named(me.phase), |g|) && Known(me.cbFiber, |g|)
    && (me.phase.Held? && me.phase.task.fiber.Some? ==> g[me.phase.task.fiber.value].at == Hand(w))
    && (me.phase.Running? ==> g[me.phase.f].at == Run(w))
    && (me.phase.Clearing? ==> Finished(fibers[me.phase.f].st))
    && (ViaCb(me.phase) ==> me.cbFiber == Named(me.phase))
    && (!ViaCb(me.phase) && Named(me.phase).Some? ==> me.cbFiber != Named(me.phase))
    && (me.cbFiber.Some? ==> g[me.cbFiber.value].keeper == Some(w))
    && (me.cbFiber.Some? && !ViaCb(me.phase) ==>
          fibers[me.cbFiber.value] == Fiber(INIT, false) && !g[me.cbFiber.value].queued
          && g[me.cbFiber.value].at == Away)
  }

  /** What the place of fiber f says about the workers. */
  predicate PlaceOk(workers: seq<Worker>, f: nat, p: Place) {
    && (p.at.Hand? ==> p.at.w < |workers| && workers[p.at.w].phase.Held? && workers[p.at.w].phase.task.fiber == Some(f))
    && (p.at.Run? ==> p.at.w < |workers| && workers[p.at.w].phase.Running? && workers[p.at.w].phase.f == f)
    && (p.keeper.Some? ==> p.keeper.value < |workers| && workers[p.keeper.value].cbFiber == Some(f))
  }

  ghost predicate QueueOk(q: seq<Entry>, g: Places) {
    && (forall i | 0 <= i < |q| ::
          !q[i].Empty() && Known(q[i].fiber, |g|) &&
          (q[i].fiber.Some? ==> q[i].cb.None? && g[q[i].fiber.value].queued))
    && (forall i, j | 0 <= i < j < |q| :: q[i].fiber.Some? ==> q[i].fiber != q[j].fiber)
    && (forall f | 0 <= f < |g| :: g[f].queued ==> InQueue(q, f))
  }

  ghost predicate Placed(s: State, g: Places) {
    && |g| == |s.fibers|
    && QueueOk(s.tasks, g)
    && (forall f | 0 <= f < |g| :: FiberOk(s.fibers[f], g[f]) && PlaceOk(s.workers, f, g[f]))
    && (forall w | 0 <= w < |s.workers| :: WorkerOk(s.fibers, g, w, s.workers[w]))
    && (forall w | 0 <= w < |s.workers| :: s.workers[w].phase.Held? ==>
          s.workers[w].phase.task.fiber.Some? ==> s.workers[w].phase.task.cb.None?)
  }

  /** A worker moves on without touching the list or any fiber. */
  lemma QuietPlaced(s: State, r: State, w: nat, g: Places)
    requires Placed(s, g) && w < |s.workers| == |r.workers|
    requires r.workers == s.workers[w := r.workers[w]] && r.tasks == s.tasks && r.fibers == s.fibers
    requires !s.workers[w].phase.Running? && !r.workers[w].phase.Running?
    requires Named(s.workers[w].phase).None? || !s.workers[w].phase.Held?
    requires r.workers[w].phase.Held? ==> r.workers[w].phase.task == NOTHING
    requires r.workers[w].cbFiber == s.workers[w].cbFiber
    requires WorkerOk(s.fibers, g, w, r.workers[w])
    ensures Placed(r, g)
  {
  }

  lemma EnqueuePlaced(s: State, t: Entry, g: Places)
    requires Placed(s, g) && t.fiber.None?
    ensures Placed(Enqueue(s, t), g)
  {
    var r := Enqueue(s, t);
    forall f | 0 <= f < |g| && g[f].queued ensures InQueue(r.tasks, f) {
      var i :| 0 <= i < |s.tasks| && s.tasks[i].fiber == Some(f);
      assert r.tasks[i].fiber == Some(f);
    }
  }

  lemma NewFiberPlaced(s: State, pin: int, g: Places)
    requires Placed(s, g)
    ensures Placed(Enqueue(s, Task(Some(|s.fibers|), None, pin)).(fibers := s.fibers + [Fiber(INIT, true)]),
                   g + [Place(true, Away, None)])
  {
    var h := g + [Place(true, Away, None)];
    var q := s.tasks + [Task(Some(|s.fibers|), None, pin)];
    assert q[|s.tasks|].fiber == Some(|s.fibers|);
    forall f | 0 <= f < |h| && h[f].queued ensures InQueue(q, f) {
      if f < |g| {
        var i :| 0 <= i < |s.tasks| && s.tasks[i].fiber == Some(f);
        assert q[i].fiber == Some(f);
      }
    }
  }

  lemma RequeuePlaced(s: State, w: nat, pin: int, g: Places)
    requires Placed(s, g) && Alive(s, w) && !InQueue(s.tasks, s.workers[w].phase.f)
    ensures var f := s.workers[w].phase.f;
      f < |g| && Placed(Enqueue(s, Task(Some(f), None, pin)), g[f := g[f].(queued := true)])
  {
    var f := s.workers[w].phase.f;
    var h := g[f := g[f].(queued := true)];
    var q := s.tasks + [Task(Some(f), None, pin)];
    assert q[|s.tasks|].fiber == Some(f);
    assert WorkerOk(s.fibers, g, w, s.workers[w]);
    forall k | 0 <= k < |h| && h[k].queued ensures InQueue(q, k) {
      if k != f {
        var i :| 0 <= i < |s.tasks| && s.tasks[i].fiber == Some(k);
        assert q[i].fiber == Some(k);
      }
    }
    forall v | 0 <= v < |s.workers| ensures WorkerOk(s.fibers, h, v, s.workers[v]) {
      assert WorkerOk(s.fibers, g, v, s.workers[v]);
    }
  }

  lemma DepartPlaced(c: Config, s: State, w: nat, fb: Fiber, g: Places)
    requires Placed(s, g) && w < |s.workers| && s.workers[w].phase.Running? && s.workers[w].phase.f < |s.fibers|
    requires fb.st == READY ==> fb.cb && InQueue(s.tasks, s.workers[w].phase.f)
    requires fb.st != READY ==> Finished(fb.st) && !InQueue(s.tasks, s.workers[w].phase.f)
    ensures var f := s.workers[w].phase.f; Placed(Depart(c, s, w, fb), g[f := g[f].(at := Away)])
  {
    var f := s.workers[w].phase.f;
    var h := g[f := g[f].(at := Away)];
    var r := Depart(c, s, w, fb);
    assert WorkerOk(s.fibers, g, w, s.workers[w]);
    forall v | 0 <= v < |r.workers| ensures WorkerOk(r.fibers, h, v, r.workers[v]) {
      assert WorkerOk(s.fibers, g, v, s.workers[v]);
    }
    forall k | 0 <= k < |h| && h[k].queued ensures InQueue(r.tasks, k) {
    }
  }

  lemma TakePlaced(s: State, w: nat, i: nat, g: Places)
    requires Placed(s, g) && w < |s.workers| && s.workers[w].phase == Scan(i) && i < |s.tasks|
    requires Known(s.tasks[i].fiber, |s.fibers|)
    requires s.tasks[i].fiber.Some? ==> s.fibers[s.tasks[i].fiber.value].st != EXEC
    ensures Placed(TakeEntry(s, w, i),
                   if s.tasks[i].fiber.None? then g else
                   var f := s.tasks[i].fiber.value; g[f := Place(false, Hand(w), g[f].keeper)])
  {
    var r := TakeEntry(s, w, i);
    var t := s.tasks[i];
    var h := if t.fiber.None? then g else g[t.fiber.value := Place(false, Hand(w), g[t.fiber.value].keeper)];
    assert WorkerOk(s.fibers, g, w, s.workers[w]);
    forall v | 0 <= v < |r.workers| ensures WorkerOk(r.fibers, h, v, r.workers[v]) {
      assert WorkerOk(s.fibers, g, v, s.workers[v]);
    }
    TakeQueueOk(s.tasks, i, g, h);
  }

  lemma TakeQueueOk(q: seq<Entry>, i: nat, g: Places, h: Places)
    requires QueueOk(q, g) && i < |q| && |h| == |g|
    requires forall f | 0 <= f < |g| :: h[f].queued == (g[f].queued && q[i].fiber != Some(f))
    ensures QueueOk(RemoveAt(q, i), h)
  {
    var r := RemoveAt(q, i);
    assert forall k | 0 <= k < |r| :: r[k] == if k < i then q[k] else q[k + 1];
    forall f | 0 <= f < |h| && h[f].queued ensures InQueue(r, f) {
      var k :| 0 <= k < |q| && q[k].fiber == Some(f);
      assert r[if k < i then k else k - 1].fiber == Some(f);
    }
  }

  lemma EnterPlaced(s: State, w: nat, f: nat, viaCb: bool, t: Entry, g: Places)
    requires Placed(s, g) && w < |s.workers| && s.workers[w].phase == Held(t) && f < |s.fibers|
    requires if viaCb then t.fiber.None? && s.workers[w].cbFiber == Some(f) else t.fiber == Some(f)
    ensures Placed(Enter(s, w, f, Fiber(EXEC, true), viaCb, t), g[f := g[f].(at := Run(w))])
  {
    var h := g[f := g[f].(at := Run(w))];
    var r := Enter(s, w, f, Fiber(EXEC, true), viaCb, t);
    assert WorkerOk(s.fibers, g, w, s.workers[w]);
    forall v | 0 <= v < |r.workers| ensures WorkerOk(r.fibers, h, v, r.workers[v]) {
      assert WorkerOk(s.fibers, g, v, s.workers[v]);
    }
  }

  lemma EnterNewPlaced(s: State, w: nat, t: Entry, g: Places)
    requires Placed(s, g) && w < |s.workers| && s.workers[w].phase == Held(t) && t.fiber.None?
    requires s.workers[w].cbFiber.None?
    ensures Placed(EnterNew(s, w, t), g + [Place(false, Run(w), Some(w))])
  {
    var h := g + [Place(false, Run(w), Some(w))];
    var r := EnterNew(s, w, t);
    forall v | 0 <= v < |r.workers| ensures WorkerOk(r.fibers, h, v, r.workers[v]) {
      assert WorkerOk(s.fibers, g, v, s.workers[v]);
    }
  }

  lemma DropPlaced(s: State, w: nat, f: nat, g: Places)
    requires Placed(s, g) && w < |s.workers| && s.workers[w].phase == CheckTerm(f)
    requires f < |s.fibers| && s.fibers[f].st != TERM
    ensures f < |g| && Placed(Move(s, w), g[f := g[f].(keeper := None)])
  {
    assert WorkerOk(s.fibers, g, w, s.workers[w]);
    var h := g[f := g[f].(keeper := None)];
    var r := Move(s, w);
    forall v | 0 <= v < |r.workers| ensures WorkerOk(r.fibers, h, v, r.workers[v]) {
      assert WorkerOk(s.fibers, g, v, s.workers[v]);
    }
  }

  lemma ClearPlaced(s: State, w: nat, f: nat, g: Places)
    requires Placed(s, g) && w < |s.workers| && s.workers[w].phase == Clearing(f) && f < |s.fibers|
    ensures Placed(ClearCb(s, w, f), g)
  {
    assert WorkerOk(s.fibers, g, w, s.workers[w]);
    assert FiberOk(s.fibers[f], g[f]) && PlaceOk(s.workers, f, g[f]);
    var r := ClearCb(s, w, f);
    forall v | 0 <= v < |r.workers| ensures WorkerOk(r.fibers, g, v, r.workers[v]) {
      assert WorkerOk(s.fibers, g, v, s.workers[v]);
    }
  }

  // One step, then every reachable state.

  lemma ScanPlaced(c: Config, s: State, w: nat, i: nat, g: Places) returns (h: Places)
    requires WellFormed(c, s) && Placed(s, g) && w < c.workers && s.workers[w].phase == Scan(i)
    ensures Placed(ScanStep(s, w, i), h)
  {
    hide Placed, TakeEntry;
    PlacedWorker(s, w, g);
    h := g;
    if i < |s.tasks| && !Foreign(s.tasks[i], w)
      && (s.tasks[i].fiber.Some? ==> s.fibers[s.tasks[i].fiber.value].st != EXEC) {
      TakePlaced(s, w, i, g);
      if s.tasks[i].fiber.Some? {
        h := g[s.tasks[i].fiber.value := Place(false, Hand(w), g[s.tasks[i].fiber.value].keeper)];
      }
    } else {
      QuietPlaced(s, ScanStep(s, w, i), w, g);
    }
  }

  lemma PlacedWorker(s: State, w: nat, g: Places)
    requires Placed(s, g) && w < |s.workers|
    ensures |g| == |s.fibers| && WorkerOk(s.fibers, g, w, s.workers[w])
    ensures Named(s.workers[w].phase).Some? ==>
      var f := Named(s.workers[w].phase).value; FiberOk(s.fibers[f], g[f]) && PlaceOk(s.workers, f, g[f])
    ensures s.workers[w].phase.Held? && s.workers[w].phase.task.fiber.Some? ==> s.workers[w].phase.task.cb.None?
  {
  }

  lemma DispatchPlaced(c: Config, s: State, w: nat, t: Entry, g: Places) returns (h: Places)
    requires WellFormed(c, s) && Placed(s, g) && w < c.workers && s.workers[w].phase == Held(t)
    requires Known(t.fiber, |s.fibers|)
    ensures Placed(Dispatch(s, w, t), h)
    ensures t.fiber.Some? ==> Resumable(s, t)
    ensures Dispatch(s, w, t).leaked == s.leaked || (!t.Empty() && t.fiber.None? && t.cb.None?)
  {
    hide Placed, Enter, EnterNew;
    PlacedWorker(s, w, g);
    var me := s.workers[w];
    if t.fiber.Some? {
      var f := t.fiber.value;
      assert s.fibers[f].(st := EXEC) == Fiber(EXEC, true);
      EnterPlaced(s, w, f, false, t, g);
      h := g[f := g[f].(at := Run(w))];
      assert Dispatch(s, w, t).leaked == s.leaked by { EnterLeaks(s, w, f, false, t); }
    } else if t.cb.None? {
      QuietPlaced(s, EnterIdle(s, w, t), w, g);
      h := g;
    } else if me.cbFiber.Some? {
      var f := me.cbFiber.value;
      EnterPlaced(s, w, f, true, t, g);
      h := g[f := g[f].(at := Run(w))];
      assert Dispatch(s, w, t).leaked == s.leaked by { EnterLeaks(s, w, f, true, t); }
    } else {
      EnterNewPlaced(s, w, t, g);
      h := g + [Place(false, Run(w), Some(w))];
      assert Dispatch(s, w, t).leaked == s.leaked by { EnterLeaks(s, w, 0, true, t); }
    }
  }

  lemma EnterLeaks(s: State, w: nat, f: nat, viaCb: bool, t: Entry)
    requires w < |s.workers|
    ensures f < |s.fibers| ==> Enter(s, w, f, Fiber(EXEC, true), viaCb, t).leaked == s.leaked
    ensures EnterNew(s, w, t).leaked == s.leaked
  {
  }

  lemma LoopPlaced(c: Config, s: State, w: nat, g: Places) returns (h: Places)
    requires WellFormed(c, s) && Placed(s, g) && Enabled(c, s, Loop(w))
    ensures Placed(LoopStep(c, s, w), h)
  {
    hide Placed, ScanStep, Dispatch, Move, ClearCb;
    h := g;
    var p := s.workers[w].phase;
    if p.Scan? {
      h := ScanPlaced(c, s, w, p.next, g);
    } else if p.Held? {
      h := DispatchPlaced(c, s, w, p.task, g);
    } else if p.Clearing? {
      ClearPlaced(s, w, p.f, g);
    } else {
      h := MovePlaced(c, s, w, g);
    }
  }

  lemma MovePlaced(c: Config, s: State, w: nat, g: Places) returns (h: Places)
    requires WellFormed(c, s) && Placed(s, g) && Enabled(c, s, Loop(w))
    requires var p := s.workers[w].phase; !p.Scan? && !p.Held? && !p.Clearing?
    ensures Known(Named(s.workers[w].phase), |s.fibers|) && Placed(Move(s, w), h)
  {
    hide Placed, ShutDown;
    PlacedWorker(s, w, g);
    var p := s.workers[w].phase;
    if p.CheckTerm? && s.fibers[p.f].st != TERM {
      DropPlaced(s, w, p.f, g);
      h := g[p.f := g[p.f].(keeper := None)];
    } else {
      QuietPlaced(s, Move(s, w), w, g);
      h := g;
    }
  }

  lemma StepPlaced(c: Config, s: State, a: Action, g: Places) returns (h: Places)
    requires !c.loose && WellFormed(c, s) && Placed(s, g) && Enabled(c, s, a)
    ensures Placed(Step(c, s, a), h)
  {
    hide Placed, LoopStep, Depart, Enqueue;
    h := g;
    match a {
      case Loop(w) => h := LoopPlaced(c, s, w, g);
      case SubmitCb(_, cb, pin) => EnqueuePlaced(s, Task(None, cb, pin), g);
      case SubmitFiber(_, pin) =>
        NewFiberPlaced(s, pin, g);
        h := g + [Place(true, Away, None)];
      case Requeue(w, pin) =>
        RequeuePlaced(s, w, pin, g);
        h := g[s.workers[w].phase.f := g[s.workers[w].phase.f].(queued := true)];
      case Yield(w) =>
        var f := s.workers[w].phase.f;
        PlacedWorker(s, w, g);
        DepartPlaced(c, s, w, s.fibers[f].(st := READY), g);
        h := g[f := g[f].(at := Away)];
      case Finish(w, threw) =>
        var f := s.workers[w].phase.f;
        PlacedWorker(s, w, g);
        DepartPlaced(c, s, w, if threw then s.fibers[f].(st := EXCEPT) else Fiber(TERM, false), g);
        h := g[f := g[f].(at := Away)];
      case _ => FlagsPlaced(c, s, a, g);
    }
  }

  lemma FlagsPlaced(c: Config, s: State, a: Action, g: Places)
    requires WellFormed(c, s) && Placed(s, g) && Enabled(c, s, a) && (a.StopAuto? || a.StopFlag?)
    ensures Placed(Step(c, s, a), g)
  {
  }

  // With self-scheduled fibers pinned to the thread they run on, a fiber has one home.

  type Homes = seq<Option<nat>>

  predicate HomeOk(h: Homes, w: nat, me: Worker) {
    && Known(Named(me.phase), |h|) && Known(me.cbFiber, |h|)
    && (Named(me.phase).Some? ==>
          var home := h[Named(me.phase).value]; home == Some(w) || (home.None? && me.phase.Held?))
    && (me.cbFiber.Some? ==> h[me.cbFiber.value] == Some(w))
  }

  /** A fiber that has run is named only by the worker it first ran on. */
  ghost predicate Homed(s: State, h: Homes) {
    && |h| == |s.fibers|
    && (forall i | 0 <= i < |s.tasks| :: Known(s.tasks[i].fiber, |h|) &&
          (s.tasks[i].fiber.Some? && h[s.tasks[i].fiber.value].Some? ==>
            s.tasks[i].thread == h[s.tasks[i].fiber.value].value))
    && (forall w | 0 <= w < |s.workers| :: HomeOk(h, w, s.workers[w]))
  }

  lemma MoveHomed(s: State, r: State, w: nat, h: Homes)
    requires Homed(s, h) && w < |s.workers| == |r.workers|
    requires r.workers == s.workers[w := r.workers[w]] && r.tasks == s.tasks && |r.fibers| == |s.fibers|
    requires HomeOk(h, w, r.workers[w])
    ensures Homed(r, h)
  {
  }

  lemma ScanHomed(c: Config, s: State, w: nat, i: nat, h: Homes)
    requires WellFormed(c, s) && Homed(s, h) && w < c.workers && s.workers[w].phase == Scan(i)
    ensures Homed(ScanStep(s, w, i), h)
  {
    var r := ScanStep(s, w, i);
    assert HomeOk(h, w, s.workers[w]);
    forall k | 0 <= k < |r.tasks| ensures Known(r.tasks[k].fiber, |h|) &&
      (r.tasks[k].fiber.Some? && h[r.tasks[k].fiber.value].Some? ==>
        r.tasks[k].thread == h[r.tasks[k].fiber.value].value)
    {
      assert r.tasks[k] in s.tasks;
    }
    assert HomeOk(h, w, r.workers[w]);
  }

  lemma EnterHomed(s: State, w: nat, f: nat, t: Entry, g: Places, h: Homes)
    requires Placed(s, g) && Homed(s, h) && w < |s.workers| && s.workers[w].phase == Held(t) && t.fiber == Some(f)
    ensures f < |s.fibers| == |h| && Homed(Enter(s, w, f, Fiber(EXEC, true), false, t), h[f := Some(w)])
  {
    assert WorkerOk(s.fibers, g, w, s.workers[w]);
    assert FiberOk(s.fibers[f], g[f]);
    assert HomeOk(h, w, s.workers[w]);
    var r := Enter(s, w, f, Fiber(EXEC, true), false, t);
    forall v | 0 <= v < |r.workers| ensures HomeOk(h[f := Some(w)], v, r.workers[v]) {
      assert HomeOk(h, v, s.workers[v]) && WorkerOk(s.fibers, g, v, s.workers[v]);
    }
  }

  lemma EnterNewHomed(s: State, w: nat, t: Entry, h: Homes)
    requires Homed(s, h) && w < |s.workers| && s.workers[w].phase == Held(t)
    ensures Homed(EnterNew(s, w, t), h + [Some(w)])
  {
    var r := EnterNew(s, w, t);
    forall v | 0 <= v < |r.workers| ensures HomeOk(h + [Some(w)], v, r.workers[v]) {
      assert HomeOk(h, v, s.workers[v]);
    }
  }

  lemma DispatchHomed(c: Config, s: State, w: nat, t: Entry, g: Places, h: Homes) returns (k: Homes)
    requires WellFormed(c, s) && Placed(s, g) && Homed(s, h)
    requires w < c.workers && s.workers[w].phase == Held(t) && Known(t.fiber, |s.fibers|)
    ensures Homed(Dispatch(s, w, t), k)
  {
    hide Homed, Placed, Enter, EnterNew, EnterIdle;
    k := h;
    PlacedWorker(s, w, g);
    if t.fiber.Some? {
      var f := t.fiber.value;
      assert s.fibers[f].(st := EXEC) == Fiber(EXEC, true);
      EnterHomed(s, w, f, t, g, h);
      k := h[f := Some(w)];
    } else if t.cb.None? {
      assert Homed(EnterIdle(s, w, t), h) by { IdleHomed(s, w, t, h); }
    } else if s.workers[w].cbFiber.Some? {
      assert Homed(Enter(s, w, s.workers[w].cbFiber.value, Fiber(EXEC, true), true, t), h) by {
        ReuseHomed(s, w, t, h);
      }
    } else {
      EnterNewHomed(s, w, t, h);
      k := h + [Some(w)];
    }
  }

  lemma IdleHomed(s: State, w: nat, t: Entry, h: Homes)
    requires Homed(s, h) && w < |s.workers|
    ensures Homed(EnterIdle(s, w, t), h)
  {
    assert HomeOk(h, w, s.workers[w]);
    MoveHomed(s, EnterIdle(s, w, t), w, h);
  }

  lemma ReuseHomed(s: State, w: nat, t: Entry, h: Homes)
    requires Homed(s, h) && w < |s.workers| && s.workers[w].cbFiber.Some? && s.workers[w].cbFiber.value < |s.fibers|
    ensures Homed(Enter(s, w, s.workers[w].cbFiber.value, Fiber(EXEC, true), true, t), h)
  {
    assert HomeOk(h, w, s.workers[w]);
    MoveHomed(s, Enter(s, w, s.workers[w].cbFiber.value, Fiber(EXEC, true), true, t), w, h);
  }

  lemma LoopHomed(c: Config, s: State, w: nat, g: Places, h: Homes) returns (k: Homes)
    requires WellFormed(c, s) && Placed(s, g) && Homed(s, h) && Enabled(c, s, Loop(w))
    ensures Homed(LoopStep(c, s, w), k)
  {
    hide Homed, Placed, ScanStep, Dispatch, ShutDown;
    k := h;
    var p := s.workers[w].phase;
    if p.Scan? {
      ScanHomed(c, s, w, p.next, h);
    } else if p.Held? {
      k := DispatchHomed(c, s, w, p.task, g, h);
    } else {
      OtherHomed(c, s, w, h);
    }
  }

  lemma OtherHomed(c: Config, s: State, w: nat, h: Homes)
    requires WellFormed(c, s) && Homed(s, h) && Enabled(c, s, Loop(w))
    requires !s.workers[w].phase.Scan? && !s.workers[w].phase.Held?
    ensures Homed(LoopStep(c, s, w), h)
  {
    hide Homed, ScanStep, Dispatch, ShutDown;
    HomedWorker(s, w, h);
    assert HomeOk(h, w, NextWorker(s, w));
    MoveHomed(s, LoopStep(c, s, w), w, h);
  }

  lemma HomedWorker(s: State, w: nat, h: Homes)
    requires Homed(s, h) && w < |s.workers|
    ensures |h| == |s.fibers| && HomeOk(h, w, s.workers[w])
  {
  }

  lemma SubmitHomed(s: State, t: Entry, h: Homes)
    requires Homed(s, h)
    requires t.fiber.Some? ==> t.fiber.value < |h| && h[t.fiber.value].Some? && t.thread == h[t.fiber.value].value
    ensures Homed(Enqueue(s, t), h)
  {
  }

  lemma NewFiberHomed(s: State, pin: int, h: Homes)
    requires Homed(s, h)
    ensures Homed(Enqueue(s, Task(Some(|s.fibers|), None, pin)).(fibers := s.fibers + [Fiber(INIT, true)]), h + [None])
  {
    forall v | 0 <= v < |s.workers| ensures HomeOk(h + [None], v, s.workers[v]) {
      assert HomeOk(h, v, s.workers[v]);
    }
  }

  lemma DepartHomed(c: Config, s: State, w: nat, fb: Fiber, h: Homes)
    requires Homed(s, h) && w < |s.workers| && s.workers[w].phase.Running? && s.workers[w].phase.f < |s.fibers|
    ensures Homed(Depart(c, s, w, fb), h)
  {
    assert HomeOk(h, w, s.workers[w]);
    MoveHomed(s, Depart(c, s, w, fb), w, h);
  }

  lemma StepHomed(c: Config, s: State, a: Action, g: Places, h: Homes) returns (k: Homes)
    requires !c.loose && c.pinned && WellFormed(c, s) && Placed(s, g) && Homed(s, h) && Enabled(c, s, a)
    ensures Homed(Step(c, s, a), k)
  {
    hide Homed, Placed, LoopStep, Depart, Enqueue;
    k := h;
    match a {
      case Loop(w) => k := LoopHomed(c, s, w, g, h);
      case SubmitCb(_, cb, pin) => SubmitHomed(s, Task(None, cb, pin), h);
      case SubmitFiber(_, pin) =>
        NewFiberHomed(s, pin, h);
        k := h + [None];
      case Requeue(w, pin) =>
        HomedWorker(s, w, h);
        SubmitHomed(s, Task(Some(s.workers[w].phase.f), None, pin), h);
      case Yield(w) => DepartHomed(c, s, w, s.fibers[s.workers[w].phase.f].(st := READY), h);
      case Finish(w, threw) =>
        DepartHomed(c, s, w, if threw then s.fibers[s.workers[w].phase.f].(st := EXCEPT) else Fiber(TERM, false), h);
      case _ => FlagsHomed(c, s, a, h);
    }
  }

  lemma FlagsHomed(c: Config, s: State, a: Action, h: Homes)
    requires WellFormed(c, s) && Homed(s, h) && Enabled(c, s, a) && (a.StopAuto? || a.StopFlag?)
    ensures Homed(Step(c, s, a), h)
  {
  }
}
