/**
 The scheduler with the caller's thread as its only worker (sylar/scheduler.cpp: run, stop),
 on objects that are updated in place. Switching to a fiber is a call that returns when the
 fiber switches back.
 */
module SingleWorker {
  import opened Basics
  import opened TaskQueue
  import opened Workload

  class Fiber {
    var state: FState
    var code: Code    // what is left to run: m_cb at first, then the saved context
    var hasCb: bool   // m_cb holds a function

    constructor (code: Code)
      ensures state == INIT && this.code == code && hasCb
    {
      state, this.code, hasCb := INIT, code, true;
    }

    /** Fiber::reset; the precondition is the code's assertion. */
    method Reset(cb: Option<Code>)
      requires Finished(state) || state == INIT
      modifies this
      ensures state == INIT && hasCb == cb.Some? && (cb.Some? ==> code == cb.value)
    {
      hasCb := cb.Some?;
      if cb.Some? {
        code := cb.value;
      }
      state := INIT;
    }
  }

  type Entry = Task<Fiber, Code>

  class Scheduler {
    const tid: int            // the caller's thread
    var tasks: seq<Entry>
    var active: int
    var idle: int
    var autoStop: bool
    var stopping: bool
    var rootState: FState
    ghost var order: seq<Code>    // the slices run so far
    ghost var fibers: set<Fiber>  // every fiber the scheduler has met

    /** The constructor with one thread and use_caller: m_stopping starts true. */
    constructor (tid: int)
      ensures Valid() && Settled({}) && this.tid == tid && tasks == [] && active == 0 && rootState == INIT
      ensures !autoStop && stopping && order == []
    {
      this.tid, tasks, active, idle := tid, [], 0, 0;
      autoStop, stopping, rootState := false, true, INIT;
      order, fibers := [], {};
    }

    /** Entries are for this thread, and a queued fiber is queued once and can be resumed. */
    ghost predicate Valid()
      reads this`tasks, this`fibers, fibers
    {
      && (forall i | 0 <= i < |tasks| :: EntryOk(tasks[i]))
      && (forall i, j | 0 <= i < j < |tasks| :: tasks[i].fiber.Some? ==> tasks[i].fiber != tasks[j].fiber)
    }

    ghost predicate EntryOk(t: Entry)
      reads this`fibers, fibers
    {
      && !Foreign(t, tid) && (t.fiber.Some? <==> t.cb.None?)
      && (t.fiber.Some? ==> t.fiber.value in fibers && t.fiber.value.hasCb
                            && (t.fiber.value.state == INIT || t.fiber.value.state == READY))
    }

    ghost predicate Queued(f: Fiber)
      reads this`tasks
    {
      exists i | 0 <= i < |tasks| :: tasks[i].fiber == Some(f)
    }

    /** No fiber other than those in `but` runs, and one that yielded is in the list. */
    ghost predicate Settled(but: set<Fiber>)
      reads this`tasks, this`fibers, fibers
    {
      forall f | f in fibers && f !in but :: f.state != EXEC && (f.state == READY ==> Queued(f))
    }

    /** A callback fiber kept for reuse. */
    ghost predicate Reusable(f: Fiber?)
      reads this`fibers, f
    {
      f != null ==> f in fibers && f.state == INIT && !f.hasCb
    }

    ghost function CodeOf(t: Entry): Code
      reads if t.fiber.Some? then {t.fiber.value} else {}
    {
      if t.fiber.Some? then t.fiber.value.code else if t.cb.Some? then t.cb.value else Return
    }

    /** The list as the work it stands for. */
    ghost function Codes(): (r: seq<Code>)
      requires Valid()
      reads this`tasks, this`fibers, fibers
      ensures |r| == |tasks|
    {
      var q, fs := tasks, fibers;
      seq(|q|, i requires 0 <= i < |q| && (q[i].fiber.Some? ==> q[i].fiber.value in fs) reads fs => CodeOf(q[i]))
    }

    /** The fibers of the list that are running. */
    ghost function Executing(q: seq<Entry>): set<Fiber>
      reads set t | t in q && t.fiber.Some? :: t.fiber.value
    {
      set t | t in q && t.fiber.Some? && t.fiber.value.state == EXEC :: t.fiber.value
    }

    /** scheduleNoLock */
    method Schedule(t: Entry) returns (needTickle: bool)
      modifies this`tasks
      ensures tasks == Scheduled(old(tasks), t)
      ensures needTickle <==> old(tasks) == []
    {
      needTickle := tasks == [];
      if t.fiber.Some? || t.cb.Some? {
        tasks := tasks + [t];
      }
    }

    /**
     The pick loop: it removes the least-index eligible entry and keeps the others in order. It
     asks for a tickle exactly when it skipped an entry pinned elsewhere or took one that was
     not the last.
     */
    method Pick() returns (task: Entry, tickle: bool)
      requires forall i | 0 <= i < |tasks| :: !tasks[i].Empty()
      modifies this`tasks, this`active
      ensures var q, k := old(tasks), FirstEligible(old(tasks), tid, Executing(old(tasks)));
        && (k < |q| ==> task == q[k] && tasks == RemoveAt(q, k) && active == old(active) + 1)
        && (k == |q| ==> task == Task(None, None, ANY_THREAD) && tasks == q && active == old(active))
        && (tickle <==> (exists j | 0 <= j < k :: Foreign(q[j], tid)) || k + 1 < |q|)
    {
      hide FirstEligible, RemoveAt;
      task, tickle := Task(None, None, ANY_THREAD), false;
      ghost var exec := Executing(tasks);
      var it := 0;
      while it < |tasks|
        invariant it <= |tasks| && tasks == old(tasks) && active == old(active)
        invariant task == Task(None, None, ANY_THREAD)
        invariant forall j | 0 <= j < it :: !Eligible(tasks[j], tid, exec)
        invariant tickle <==> exists j | 0 <= j < it :: Foreign(tasks[j], tid)
      {
        var e := tasks[it];
        if e.thread != ANY_THREAD && e.thread != tid {
          it := it + 1;
          tickle := true;
          continue;
        }
        assert !e.Empty();
        if e.fiber.Some? && e.fiber.value.state == EXEC {
          assert e in tasks && e.fiber.value in exec;
          it := it + 1;
          continue;
        }
        assert Eligible(e, tid, exec);
        assert it == FirstEligible(tasks, tid, exec);
        task := e;
        active := active + 1;
        tasks := RemoveAt(tasks, it);
        tickle := tickle || it < |tasks|;
        return;
      }
    }

    /** schedule() as called by running code. */
    method Spawn(child: Code, asFiber: bool, pin: bool)
      requires Valid()
      modifies this`tasks, this`fibers
      ensures Valid() && old(fibers) <= fibers && fresh(fibers - old(fibers))
      ensures forall g | g in fibers - old(fibers) :: g.state == INIT
      ensures |tasks| == |old(tasks)| + 1 && old(tasks) <= tasks
      ensures tasks[|old(tasks)|].fiber.Some? ==> tasks[|old(tasks)|].fiber.value !in old(fibers)
      ensures tasks[|old(tasks)|].fiber.Some? <==> asFiber
      ensures tasks[|old(tasks)|].thread == if pin then tid else -1
      ensures Codes() == old(Codes()) + [child]
    {
      ghost var prior := Codes();
      var thread := if pin then tid else ANY_THREAD;
      if asFiber {
        var g := new Fiber(child);
        fibers := fibers + {g};
        var _ := Schedule(Task(Some(g), None, thread));
      } else {
        var _ := Schedule(Task(None, Some(child), thread));
      }
      assert Valid();
      assert forall i | 0 <= i < |prior| :: Codes()[i] == prior[i];
    }

    /** One call of schedule() by the code of f. */
    method Advance(f: Fiber)
      requires Valid() && f in fibers && !Queued(f) && f.hasCb && f.state == EXEC && f.code.Schedule?
      modifies this`tasks, this`fibers, f`code
      ensures Valid() && !Queued(f) && old(fibers) <= fibers && fresh(fibers - old(fibers)) && old(tasks) <= tasks
      ensures forall g | g in fibers - old(fibers) :: g.state == INIT
      ensures f.code == old(f.code).next
      ensures Codes() + Produce(f.code) == old(Codes()) + Produce(old(f.code))
    {
      ghost var prior := Codes();
      Spawn(f.code.child, f.code.asFiber, f.code.pin);
      ghost var now := Codes();
      assert now + Produce(f.code.next) == prior + Produce(f.code);
      f.code := f.code.next;
      assert Codes() == now;
    }

    /** The end of a slice: YieldToReady after queueing itself, or the end of MainFunc. */
    method SwapOut(f: Fiber)
      requires Valid() && f in fibers && !Queued(f) && f.hasCb && f.state == EXEC && !f.code.Schedule?
      modifies this`tasks, f
      ensures Valid() && old(tasks) <= tasks
      ensures Codes() == old(Codes()) + Produce(old(f.code))
      ensures f.state == EndState(old(f.code)) && (f.state == READY <==> Queued(f))
      ensures !f.hasCb <==> f.state == TERM
      ensures match old(f.code)
        case Yield(pin, next) =>
          f.state == READY && f.code == next && tasks == old(tasks) + [Task(Some(f), None, if pin then tid else -1)]
        case Return => f.state == TERM && tasks == old(tasks)
        case _ => f.state == EXCEPT && tasks == old(tasks)
    {
      ghost var prior, q := Codes(), tasks;
      match f.code {
        case Yield(pin, next) =>
          var _ := Schedule(Task(Some(f), None, if pin then tid else ANY_THREAD));
          f.code := next;
          f.state := READY;
          assert tasks[|q|].fiber == Some(f);
        case Return =>
          f.hasCb := false;
          f.state := TERM;
        case Throw =>
          f.state := EXCEPT;
      }
      assert Valid();
      assert forall i | 0 <= i < |prior| :: Codes()[i] == prior[i];
    }

    /**
     swapIn up to the matching swapOut: the fiber runs one slice. It appends what the slice
     schedules, in order, and itself when it yields.
     */
    method SwapIn(f: Fiber)
      requires Valid() && f in fibers && !Queued(f) && f.hasCb && (f.state == INIT || f.state == READY)
      modifies this`tasks, this`fibers, this`order, f
      ensures Valid() && old(fibers) <= fibers && fresh(fibers - old(fibers)) && old(tasks) <= tasks
      ensures forall g | g in fibers - old(fibers) :: g.state == INIT
      ensures Codes() == old(Codes()) + Produce(old(f.code))
      ensures f.state == EndState(old(f.code)) && (f.state == READY <==> Queued(f))
      ensures f.state == match Last(old(f.code)) case Return => TERM case Throw => EXCEPT case _ => READY
      ensures order == old(order) + [old(f.code)]
    {
      ghost var before, code, start, kept := Codes(), f.code, fibers, tasks;
      order := order + [f.code];
      f.state := EXEC;
      assert Codes() == before;
      while f.code.Schedule?
        invariant Valid() && f in fibers && !Queued(f) && f.state == EXEC && f.hasCb
        invariant start <= fibers && fresh(fibers - start) && kept <= tasks
        invariant forall g | g in fibers - start :: g.state == INIT
        invariant Codes() + Produce(f.code) == before + Produce(code)
        invariant EndState(f.code) == EndState(code) && Last(f.code) == Last(code)
        invariant order == old(order) + [code]
        decreases f.code
      {
        Advance(f);
      }
      SwapOut(f);
    }

    /** The pick loop when the list holds only what this thread can run: it takes the first. */
    method TakeNext() returns (task: Entry)
      requires Valid() && Settled({})
      modifies this`tasks, this`active
      ensures Valid()
      ensures old(tasks) == [] ==> task == Task(None, None, ANY_THREAD) && tasks == [] && active == old(active)
      ensures old(tasks) != [] ==>
        && task == old(tasks)[0] && active == old(active) + 1
        && EntryOk(task) && CodeOf(task) == old(Codes())[0] && Codes() == old(Codes())[1..]
        && (task.fiber.Some? ==> !Queued(task.fiber.value))
        && Settled(if task.fiber.Some? then {task.fiber.value} else {})
    {
      hide FirstEligible, RemoveAt;
      ghost var q, prior := tasks, Codes();
      assert forall k | 0 <= k < |q| :: EntryOk(q[k]);
      if q != [] {
        HeadFirst(q, tid, Executing(q));
      }
      var tickle;
      task, tickle := Pick();
      if q != [] {
        assert tasks == q[1..];
        forall i | 0 <= i < |tasks| ensures EntryOk(tasks[i]) {
          assert EntryOk(q[i + 1]);
        }
        assert EntryOk(q[0]);
        TailOf(q, prior);
      }
    }

    /** What removing the first entry leaves. */
    lemma TailOf(q: seq<Entry>, prior: seq<Code>)
      requires Valid() && q != [] && tasks == q[1..] && |prior| == |q|
      requires forall i | 0 <= i < |q| :: EntryOk(q[i]) && prior[i] == CodeOf(q[i])
      requires forall i | 1 <= i < |q| :: q[0].fiber.Some? ==> q[0].fiber != q[i].fiber
      requires forall f | f in fibers ::
        f.state != EXEC && (f.state == READY ==> exists i :: 0 <= i < |q| && q[i].fiber == Some(f))
      ensures Codes() == prior[1..]
      ensures q[0].fiber.Some? ==> !Queued(q[0].fiber.value)
      ensures Settled(if q[0].fiber.Some? then {q[0].fiber.value} else {})
    {
      forall f | f in fibers && f.state == READY && Some(f) != q[0].fiber ensures Queued(f) {
        var i :| 0 <= i < |q| && q[i].fiber == Some(f);
        assert tasks[i - 1].fiber == Some(f);
      }
    }

    /** The fiber branch of run. */
    method RunFiber(f: Fiber)
      requires Valid() && Settled({f}) && f in fibers && !Queued(f) && f.hasCb && (f.state == INIT || f.state == READY)
      modifies this`tasks, this`active, this`fibers, this`order, f
      ensures Valid() && Settled({}) && old(fibers) <= fibers && fresh(fibers - old(fibers))
      ensures Codes() == old(Codes()) + Produce(old(f.code))
      ensures order == old(order) + [old(f.code)] && active == old(active) - 1
      ensures Finished(f.state) <==> Last(old(f.code)) == Return || Last(old(f.code)) == Throw
    {
      ghost var q := tasks;
      SwapIn(f);
      active := active - 1;
      assert Codes() == old(Codes()) + Produce(old(f.code));
      forall g | g in fibers ensures g.state != EXEC && (g.state == READY ==> Queued(g)) {
        if g != f && g in old(fibers) && g.state == READY {
          var i :| 0 <= i < |q| && q[i].fiber == Some(g);
          assert tasks[i].fiber == Some(g);
        }
      }
    }

    /** The callback branch of run; `kept` is cbFiber after it. */
    method RunCallback(cb: Code, cbFiber: Fiber?) returns (kept: Fiber?)
      requires Valid() && Settled({}) && Reusable(cbFiber)
      modifies this`tasks, this`active, this`fibers, this`order, if cbFiber == null then {} else {cbFiber}
      ensures Valid() && Settled({}) && old(fibers) <= fibers && fresh(fibers - old(fibers))
      ensures Codes() == old(Codes()) + Produce(cb)
      ensures order == old(order) + [cb] && active == old(active) - 1
      ensures Reusable(kept)
      ensures kept != null <==> Last(cb) == Return || Last(cb) == Throw
      ensures kept != null && cbFiber != null ==> kept == cbFiber
    {
      ghost var prior := Codes();
      kept := cbFiber;
      if kept != null {
        kept.Reset(Some(cb));
      } else {
        kept := new Fiber(cb);
        fibers := fibers + {kept};
      }
      assert Valid() && Codes() == prior;
      RunFiber(kept);
      if Finished(kept.state) {
        ghost var now := Codes();
        assert !Queued(kept);
        kept.Reset(None);
        assert Valid() && Codes() == now;
      } else {
        kept := null;
      }
    }

    /**
     Scheduler::run with the stop flags set. It runs all the work there is, scheduled before or
     on the way, in the order the list dictates, and then leaves through the idle fiber, which
     it enters once.
     */
    method Run() returns (idleEntries: nat)
      requires Valid() && Settled({}) && autoStop && stopping && active == 0
      modifies this`tasks, this`active, this`idle, this`fibers, this`order, fibers
      ensures Valid() && Settled({}) && fresh(fibers - old(fibers)) && old(fibers) <= fibers
      ensures tasks == [] && active == 0 && idle == old(idle) && idleEntries == 1
      ensures order == old(order) + DrainOrder(old(Codes()))
      ensures forall f | f in fibers :: f.state == INIT || Finished(f.state)
    {
      hide Produce, Work, DrainOrder;
      ghost var total := old(order) + DrainOrder(old(Codes()));
      assert DrainOrder([]) == [] by { DrainNothing(); }
      var idleState := INIT;
      var cbFiber: Fiber? := null;
      idleEntries := 0;
      while true
        invariant Valid() && Settled({}) && active == 0 && idle == old(idle)
        invariant old(fibers) <= fibers && fresh(fibers - old(fibers))
        invariant Reusable(cbFiber)
        invariant idleState == INIT || idleState == TERM
        invariant idleState == TERM ==> tasks == []
        invariant idleEntries == if idleState == TERM then 1 else 0
        invariant order + DrainOrder(Codes()) == total
        decreases Work(Codes()), if idleState == TERM then 0 else 1
      {
        ghost var before := Codes();
        if before != [] {
          StepShrinks(before);
          DrainUnfold(before);
        }
        var task := TakeNext();
        if task.fiber.Some? && !Finished(task.fiber.value.state) {
          RunFiber(task.fiber.value);
        } else if task.cb.Some? {
          cbFiber := RunCallback(task.cb.value, cbFiber);
        } else {
          if idleState == TERM {
            break;
          }
          idle := idle + 1;
          idleEntries := idleEntries + 1;
          idleState := if autoStop && stopping && tasks == [] && active == 0 then TERM else READY;
          idle := idle - 1;
        }
      }
    }

    /**
     Scheduler::stop when the caller's thread is the only worker. It ends with everything run,
     in list order; with nothing to do it returns without switching to the root fiber. The
     precondition leaves out a second stop() after new work was submitted.
     */
    method Stop()
      requires Valid() && Settled({}) && active == 0
      requires rootState == INIT || (rootState == TERM && tasks == [])
      modifies this, fibers
      ensures Valid() && autoStop && stopping && tasks == [] && active == 0 && idle == old(idle)
      ensures order == old(order) + DrainOrder(old(Codes()))
      ensures rootState == if old(tasks) == [] then old(rootState) else TERM
      ensures forall f | f in fibers :: f.state != READY && f.state != EXEC
    {
      ghost var prior := Codes();
      autoStop := true;
      if rootState == TERM || rootState == INIT {
        stopping := true;
        if autoStop && stopping && tasks == [] && active == 0 {
          return;
        }
      }
      stopping := true;
      if !(autoStop && stopping && tasks == [] && active == 0) {
        assert rootState != EXEC;
        rootState := EXEC;
        assert Codes() == prior;
        var _ := Run();
        rootState := TERM;
      }
    }
  }
}
