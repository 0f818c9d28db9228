/**
 Context switching on one thread (sylar/fiber.cpp): three thread-local pointers, a saved context
 in each fiber, and the discipline under which every switch out resumes the point just after the
 matching switch in, whatever the series of switches. A context is the place in the code where
 its fiber goes on. Fibers come from other threads and go to them.
 */
module FiberSwitch {
  import opened Basics

  type Point = nat

  class Fiber {
    var state: FState
    var ctx: Point      // m_ctx

    /** A fiber with a stack starts at its entry point. */
    constructor (entry: Point)
      ensures state == INIT && ctx == entry
    {
      state, ctx := INIT, entry;
    }

    /** The main fiber of a thread: no stack, already running. */
    constructor Main()
      ensures state == EXEC
    {
      state, ctx := EXEC, 0;
    }
  }

  // Series of switches, without contexts.

  /**
   A thread. `chain` is who switched to whom, from the main fiber up, `stack` where each of them
   but the last goes on, and `left` where the thread's other fibers left off.
   */
  datatype Thread = Thread(main: Fiber, sched: Fiber, chain: seq<Fiber>, stack: seq<Point>, left: map<Fiber, Point>)

  /** Adopt: other threads left f in state `st` at `ctx`, and it comes here. Lend: f may go elsewhere. */
  datatype Op =
    | Adopt(f: Fiber, st: FState, ctx: Point)
    | Lend(f: Fiber)
    | SwapIn(f: Fiber, here: Point)
    | Yield(here: Point)
    | End(threw: bool, here: Point)
    | Call(here: Point)
    | EndRoot(threw: bool, here: Point)

  /** Main fiber, then the root fiber where run has one of its own, then at most one task. */
  predicate Linked(main: Fiber, sched: Fiber, chain: seq<Fiber>) {
    && chain != [] && chain[0] == main
    && (|chain| == 1
        || (|chain| == 2 && ((sched == main && chain[1] != main) || (sched != main && chain[1] == sched)))
        || (|chain| == 3 && sched != main && chain[1] == sched && chain[2] != main && chain[2] != sched))
  }

  lemma LinkedPush(main: Fiber, sched: Fiber, chain: seq<Fiber>, f: Fiber)
    requires Linked(main, sched, chain) && chain[|chain| - 1] == sched && f != main && f != sched
    ensures Linked(main, sched, chain + [f])
    ensures forall i | 0 <= i < |chain| - 1 :: chain[i] != sched
  {
  }

  predicate Shape(m: Thread) {
    && Linked(m.main, m.sched, m.chain) && |m.stack| == |m.chain| - 1
    && (forall f | f in m.chain :: f !in m.left)
    && (m.sched in m.chain || m.sched in m.left)
  }

  function Current(m: Thread): Fiber
    requires Shape(m)
  {
    m.chain[|m.chain| - 1]
  }

  /** swapIn from the scheduling fiber, swapOut from a task, call from the main fiber, back from the root. */
  predicate Legal(m: Thread, op: Op)
    requires Shape(m)
  {
    match op
    case Adopt(f, st, _) => f !in m.chain && f !in m.left && st != EXEC
    case Lend(f) => f in m.left && f != m.sched
    case SwapIn(f, _) => Current(m) == m.sched && f in m.left
    case Yield(_) => Current(m) != m.main && Current(m) != m.sched
    case End(_, _) => Current(m) != m.main && Current(m) != m.sched
    case Call(_) => m.chain == [m.main] && m.sched != m.main
    case EndRoot(_, _) => Current(m) == m.sched && m.sched != m.main
  }

  function Push(m: Thread, f: Fiber, here: Point): Thread {
    m.(chain := m.chain + [f], stack := m.stack + [here], left := m.left - {f})
  }

  function Pop(m: Thread, here: Point): Thread
    requires Shape(m) && |m.chain| > 1
  {
    m.(chain := m.chain[..|m.chain| - 1], stack := m.stack[..|m.stack| - 1], left := m.left[Current(m) := here])
  }

  function Step(m: Thread, op: Op): (r: Thread)
    requires Shape(m) && Legal(m, op)
    ensures Shape(r)
  {
    match op
    case Adopt(f, _, ctx) => m.(left := m.left[f := ctx])
    case Lend(f) => m.(left := m.left - {f})
    case SwapIn(f, here) => Push(m, f, here)
    case Yield(here) => Pop(m, here)
    case End(_, here) => Pop(m, here)
    case Call(here) => Push(m, m.sched, here)
    case EndRoot(_, here) => Pop(m, here)
  }

  /** Where control goes on, for a switch: out to the point on top of the stack, in to where the fiber left off. */
  function Target(m: Thread, op: Op): Option<Point>
    requires Shape(m) && Legal(m, op)
  {
    match op
    case Adopt(_, _, _) => None
    case Lend(_) => None
    case SwapIn(f, _) => Some(m.left[f])
    case Call(_) => Some(m.left[m.sched])
    case _ => Some(m.stack[|m.stack| - 1])
  }

  predicate AllLegal(m: Thread, ops: seq<Op>)
    requires Shape(m)
    decreases |ops|
  {
    ops == [] || (Legal(m, ops[0]) && AllLegal(Step(m, ops[0]), ops[1..]))
  }

  function After(m: Thread, ops: seq<Op>): (r: Thread)
    requires Shape(m) && AllLegal(m, ops)
    ensures Shape(r)
    decreases |ops|
  {
    if ops == [] then m else After(Step(m, ops[0]), ops[1..])
  }

  function Targets(m: Thread, ops: seq<Op>): (r: seq<Option<Point>>)
    requires Shape(m) && AllLegal(m, ops)
    ensures |r| == |ops|
    decreases |ops|
  {
    if ops == [] then [] else [Target(m, ops[0])] + Targets(Step(m, ops[0]), ops[1..])
  }

  /** What is left of a series from operation k on. */
  lemma Rest(m: Thread, ops: seq<Op>, k: nat)
    requires Shape(m) && k <= |ops| && AllLegal(m, ops[k..])
    ensures k == |ops| ==> After(m, ops[k..]) == m && Targets(m, ops[k..]) == []
    ensures k < |ops| ==>
      && Legal(m, ops[k]) && AllLegal(Step(m, ops[k]), ops[k + 1..])
      && After(m, ops[k..]) == After(Step(m, ops[k]), ops[k + 1..])
      && Targets(m, ops[k..]) == [Target(m, ops[k])] + Targets(Step(m, ops[k]), ops[k + 1..])
  {
    if k < |ops| {
      assert ops[k..][1..] == ops[k + 1..];
    }
  }

  /** Every part of a run is a run from where the part before it ended. */
  lemma {:induction false} Parts(m: Thread, a: seq<Op>, b: seq<Op>)
    requires Shape(m)
    ensures AllLegal(m, a + b) <==> AllLegal(m, a) && AllLegal(After(m, a), b)
    ensures AllLegal(m, a + b) ==>
      After(m, a + b) == After(After(m, a), b) && Targets(m, a + b) == Targets(m, a) + Targets(After(m, a), b)
    decreases |a|
  {
    if a == [] {
      assert a + b == b;
    } else {
      hide Legal, Step, Target, Shape;
      assert (a + b)[1..] == a[1..] + b;
      if Legal(m, a[0]) {
        Parts(Step(m, a[0]), a[1..], b);
      }
    }
  }

  /** The chain has more than d fibers all the time. */
  predicate Deeper(m: Thread, ops: seq<Op>, d: nat)
    requires Shape(m) && AllLegal(m, ops)
    decreases |ops|
  {
    |m.chain| > d && (ops != [] ==> Deeper(Step(m, ops[0]), ops[1..], d))
  }

  lemma {:induction false} PointStays(m: Thread, ops: seq<Op>, d: nat)
    requires Shape(m) && AllLegal(m, ops) && Deeper(m, ops, d + 1)
    ensures d < |m.stack| && d < |After(m, ops).stack|
    ensures After(m, ops).stack[d] == m.stack[d]
    decreases |ops|
  {
    if ops != [] {
      PointStays(Step(m, ops[0]), ops[1..], d);
    }
  }

  function Adopted(ops: seq<Op>): set<Fiber> {
    set i | 0 <= i < |ops| && ops[i].Adopt? :: ops[i].f
  }

  lemma Regroup(a: seq<Option<Point>>, x: Option<Point>, b: seq<Option<Point>>)
    ensures (a + [x]) + b == a + ([x] + b)
  {
  }

  lemma AdoptedHas(ops: seq<Op>, k: nat)
    requires k < |ops|
    ensures ops[k].Adopt? ==> ops[k].f in Adopted(ops)
  {
  }

  predicate SwitchIn(op: Op) {
    op.SwapIn? || op.Call?
  }

  /**
   At any moment of a run: a switch in, then operations that keep the chain deeper than it was,
   then one that does not. That one goes on just after the switch in.
   */
  lemma MatchingSwitchResumes(m: Thread, into: Op, between: seq<Op>, back: Op)
    requires Shape(m) && Legal(m, into) && AllLegal(Step(m, into), between)
    requires Legal(After(Step(m, into), between), back)
    requires SwitchIn(into) && Deeper(Step(m, into), between, |m.chain|)
    requires |Step(After(Step(m, into), between), back).chain| <= |m.chain|
    ensures Target(After(Step(m, into), between), back) == Some(into.here)
  {
    PointStays(Step(m, into), between, |m.stack|);
    DepthAfter(Step(m, into), between, |m.chain|);
  }

  lemma {:induction false} DepthAfter(m: Thread, ops: seq<Op>, d: nat)
    requires Shape(m) && AllLegal(m, ops) && Deeper(m, ops, d)
    ensures |After(m, ops).chain| > d
    decreases |ops|
  {
    if ops != [] {
      DepthAfter(Step(m, ops[0]), ops[1..], d);
    }
  }

  /** The operation does not touch where f left off. */
  predicate Aside(sched: Fiber, f: Fiber, op: Op) {
    match op
    case Adopt(g, _, _) => g != f
    case Lend(g) => g != f
    case SwapIn(g, _) => g != f
    case Call(_) => sched != f
    case _ => true
  }

  lemma {:induction false} LeftStays(m: Thread, ops: seq<Op>, f: Fiber)
    requires Shape(m) && AllLegal(m, ops) && f in m.left && forall k | 0 <= k < |ops| :: Aside(m.sched, f, ops[k])
    ensures After(m, ops).sched == m.sched && f in After(m, ops).left && After(m, ops).left[f] == m.left[f]
    decreases |ops|
  {
    if ops != [] {
      assert Aside(m.sched, f, ops[0]);
      LeftStays(Step(m, ops[0]), ops[1..], f);
    }
  }

  /** A fiber that switches out goes on right there when this thread next switches to it. */
  lemma SwitchedOutResumes(m: Thread, out: Op, between: seq<Op>, into: Op)
    requires Shape(m) && Legal(m, out) && AllLegal(Step(m, out), between) && Legal(After(Step(m, out), between), into)
    requires (out.Yield? || out.End? || out.EndRoot?) && SwitchIn(into)
    requires Current(m) == if into.SwapIn? then into.f else m.sched
    requires forall k | 0 <= k < |between| :: Aside(m.sched, Current(m), between[k])
    ensures Target(After(Step(m, out), between), into) == Some(out.here)
  {
    LeftStays(Step(m, out), between, Current(m));
  }

  // The objects.

  class ThreadLocals {
    var current: Fiber      // fiber.cpp's t_scheduler_fiber: the current fiber
    var main: Fiber         // t_threadFiber
    var sched: Fiber        // scheduler.cpp's t_scheduler_fiber: the fiber that executes run
    ghost var chain: seq<Fiber>     // who switched to whom, from the main fiber up
    ghost var resume: seq<Point>    // where each of them but the last goes on
    ghost var fibers: set<Fiber>    // the fibers used on this thread

    /** GetThis() on a thread without fibers; the main fiber also executes run. */
    constructor ()
      ensures Valid() && chain == [main] && sched == main && fibers == {main} && fresh(main)
    {
      var m := new Fiber.Main();
      current, main, sched := m, m, m;
      chain, resume, fibers := [m], [], {m};
    }

    /** All of the invariant except that the states of the fibers in `but` are left open. */
    ghost predicate ValidBut(but: set<Fiber>)
      reads this, fibers
    {
      && Linked(main, sched, chain) && sched in fibers && |resume| == |chain| - 1
      && (forall i | 0 <= i < |chain| :: chain[i] in fibers)
      && current == chain[|chain| - 1]
      && (forall i | 0 <= i < |resume| :: chain[i].ctx == resume[i])
      && (forall f | f in fibers && f !in but :: f.state == EXEC <==> f in chain)
    }

    /** The thread that these pointers and contexts stand for. */
    ghost function View(): Thread
      reads this, fibers`ctx
    {
      Thread(main, sched, chain, resume, map f | f in fibers && f !in chain :: f.ctx)
    }

    lemma ViewIs(m: Thread)
      requires m.main == main && m.sched == sched && m.chain == chain && m.stack == resume
      requires forall f :: f in m.left <==> f in fibers && f !in chain
      requires forall f | f in m.left :: m.left[f] == f.ctx
      ensures View() == m
    {
    }

    /** The current fiber is the top of the chain, and exactly the chain's fibers are EXEC. */
    ghost predicate Valid()
      reads this, fibers
    {
      ValidBut({})
    }

    /** A new fiber for this thread; `asRoot` makes it the one that executes run. */
    method NewFiber(entry: Point, asRoot: bool) returns (f: Fiber)
      requires Valid() && (asRoot ==> chain == [main] && sched == main)
      modifies this`fibers, this`sched
      ensures Valid() && fresh(f) && fibers == old(fibers) + {f} && f.state == INIT && f.ctx == entry
      ensures sched == if asRoot then f else old(sched)
    {
      f := new Fiber(entry);
      fibers := fibers + {f};
      if asRoot {
        sched := f;
      }
    }

    /** Other threads left f, which does not run, in this state and context; this thread may now resume it. */
    method Adopt(f: Fiber, st: FState, ctx: Point)
      requires Valid() && f !in fibers && st != EXEC
      modifies this`fibers, f
      ensures Valid() && fibers == old(fibers) + {f} && f.state == st && f.ctx == ctx
      ensures View() == Step(old(View()), Op.Adopt(f, st, ctx))
    {
      f.state, f.ctx := st, ctx;
      fibers := fibers + {f};
    }

    /** The fiber's handle goes to another thread; nothing is claimed about it until it is adopted again. */
    method Lend(f: Fiber)
      requires Valid() && f in fibers && f !in chain && f != sched
      modifies this`fibers
      ensures Valid() && fibers == old(fibers) - {f}
      ensures View() == Step(old(View()), Op.Lend(f))
    {
      fibers := fibers - {f};
    }

    /** swapIn, from the scheduling fiber. */
    method SwapIn(f: Fiber, here: Point) returns (at: Point)
      requires Valid() && current == sched && f in fibers && f !in chain && f != sched && f != main
      modifies this`current, this`chain, this`resume, f`state, sched`ctx
      ensures Valid() && chain == old(chain) + [f] && resume == old(resume) + [here]
      ensures at == old(f.ctx)
      ensures View() == Step(old(View()), Op.SwapIn(f, here))
    {
      ghost var m := Push(View(), f, here);
      assert m == Step(View(), Op.SwapIn(f, here));
      LinkedPush(main, sched, chain, f);
      hide Linked, Shape, Legal, Step;
      current := f;
      assert f.state != EXEC;
      f.state := EXEC;
      sched.ctx, at := here, f.ctx;
      chain, resume := chain + [f], resume + [here];
      assert forall g :: g in chain <==> g in old(chain) || g == f;
      ViewIs(m);
    }

    /** swapOut, from a task fiber that no longer is EXEC. */
    method SwapOut(here: Point) returns (at: Point)
      requires ValidBut({current}) && current.state != EXEC && current != main && current != sched
      modifies this`current, this`chain, this`resume, current`ctx
      ensures Valid() && chain == old(chain)[..|old(chain)| - 1] && current == sched
      ensures at == old(resume)[|old(resume)| - 1] && resume == old(resume)[..|old(resume)| - 1]
      ensures old(current).ctx == here
      ensures View() == Pop(old(View()), here)
    {
      ghost var m := Pop(View(), here);
      var self := current;
      current := sched;
      self.ctx, at := here, sched.ctx;
      chain, resume := chain[..|chain| - 1], resume[..|resume| - 1];
      ViewIs(m);
    }

    /** YieldToReady: the fiber goes on after this call when it is next switched to. */
    method YieldToReady(here: Point) returns (at: Point)
      requires Valid() && current != main && current != sched
      modifies this`current, this`chain, this`resume, current`ctx, current`state
      ensures Valid() && chain == old(chain)[..|old(chain)| - 1] && current == sched
      ensures at == old(resume)[|old(resume)| - 1] && resume == old(resume)[..|old(resume)| - 1]
      ensures old(current).state == READY && old(current).ctx == here
      ensures View() == Step(old(View()), Yield(here))
    {
      current.state := READY;
      assert ValidBut({current}) && resume != [];
      hide ValidBut, View, Linked;
      at := SwapOut(here);
    }

    /** The end of MainFunc. */
    method End(threw: bool, here: Point) returns (at: Point)
      requires Valid() && current != main && current != sched
      modifies this`current, this`chain, this`resume, current`ctx, current`state
      ensures Valid() && chain == old(chain)[..|old(chain)| - 1] && current == sched
      ensures at == old(resume)[|old(resume)| - 1] && resume == old(resume)[..|old(resume)| - 1]
      ensures old(current).state == if threw then EXCEPT else TERM
      ensures View() == Step(old(View()), Op.End(threw, here))
    {
      current.state := if threw then EXCEPT else TERM;
      assert ValidBut({current}) && resume != [];
      hide ValidBut, View, Linked;
      at := SwapOut(here);
    }

    /** call, from the main fiber to the root fiber. */
    method Call(here: Point) returns (at: Point)
      requires Valid() && chain == [main] && sched != main
      modifies this`current, this`chain, this`resume, sched`state, main`ctx
      ensures Valid() && chain == [main, sched] && resume == [here]
      ensures at == old(sched.ctx)
      ensures View() == Step(old(View()), Op.Call(here))
    {
      current := sched;
      assert sched.state != EXEC;
      sched.state := EXEC;
      main.ctx, at := here, sched.ctx;
      chain, resume := [main, sched], [here];
    }

    /** The end of CallerMainFunc: back, from the root fiber to the main fiber. */
    method EndRoot(threw: bool, here: Point) returns (at: Point)
      requires Valid() && current == sched && sched != main
      modifies this`current, this`chain, this`resume, current`ctx, current`state
      ensures Valid() && chain == [main] && current == main
      ensures at == old(resume)[0] && resume == []
      ensures sched.state == if threw then EXCEPT else TERM
      ensures View() == Step(old(View()), Op.EndRoot(threw, here))
    {
      current.state := if threw then EXCEPT else TERM;
      var self := current;
      current := main;
      self.ctx, at := here, main.ctx;
      chain, resume := [main], [];
    }

    method Perform(op: Op) returns (at: Option<Point>)
      requires Valid() && Legal(View(), op)
      modifies this, fibers, if op.Adopt? then {op.f} else {}
      ensures Valid() && fibers <= old(fibers) + if op.Adopt? then {op.f} else {}
      ensures View() == Step(old(View()), op) && at == Target(old(View()), op)
    {
      at := None;
      var p: Point;
      match op {
        case Adopt(f, st, ctx) => Adopt(f, st, ctx);
        case Lend(f) => Lend(f);
        case SwapIn(f, here) => p := SwapIn(f, here); at := Some(p);
        case Yield(here) => p := YieldToReady(here); at := Some(p);
        case End(threw, here) => p := End(threw, here); at := Some(p);
        case Call(here) => p := Call(here); at := Some(p);
        case EndRoot(threw, here) => p := EndRoot(threw, here); at := Some(p);
      }
    }

    /**
     Any legal series: the invariant holds throughout, and with nothing but the saved contexts
     each switch goes on where the stack of the series says.
     */
    method PerformAll(ops: seq<Op>) returns (ats: seq<Option<Point>>)
      requires Valid() && AllLegal(View(), ops)
      modifies this, fibers, Adopted(ops)
      ensures Valid() && View() == After(old(View()), ops) && ats == Targets(old(View()), ops)
    {
      ghost var start, m := View(), View();
      assert Shape(start);
      hide *;
      ats := [];
      var k := 0;
      assert ops[0..] == ops;
      while k < |ops|
        invariant k <= |ops| && Valid() && Shape(m) && m == View() && fibers <= old(fibers) + Adopted(ops)
        invariant AllLegal(m, ops[k..]) && After(m, ops[k..]) == After(start, ops)
        invariant ats + Targets(m, ops[k..]) == Targets(start, ops)
      {
        Rest(m, ops, k);
        AdoptedHas(ops, k);
        var at := Perform(ops[k]);
        m := Step(m, ops[k]);
        Regroup(ats, at, Targets(m, ops[k + 1..]));
        ats := ats + [at];
        k := k + 1;
      }
      Rest(m, ops, k);
    }

    /**
     Why the root fiber must be entered with call: swapIn on it, from the main fiber, saves to
     and loads from one and the same context. Control stays where it was, but the root fiber is
     now EXEC and current, so the invariant is lost.
     */
    method SwapInOnRoot(here: Point) returns (at: Point)
      requires Valid() && chain == [main] && sched != main
      modifies this`current, sched
      ensures at == here && sched.state == EXEC && current == sched && main.state == EXEC
      ensures !Valid()
    {
      current := sched;
      sched.state := EXEC;
      sched.ctx := here;
      at := sched.ctx;
    }
  }
}
