/**
 Several threads that switch fibers and pass them on (sylar/fiber.cpp, sylar/scheduler.cpp): a
 fiber that switches out on one thread goes on right there on whichever thread resumes it.
 */
module FiberMigration {
  import opened Basics
  import opened FiberSwitch

  /** The threads, and where the fibers left off that are on no thread at the moment. */
  datatype World = World(threads: seq<Thread>, pool: map<Fiber, Point>)

  /** Thread t performs an operation. */
  datatype Move = Move(t: nat, op: Op)

  function On(m: Thread): set<Fiber> {
    (set f | f in m.chain) + m.left.Keys
  }

  /** No fiber is in two places. */
  predicate Apart(w: World) {
    && (forall t | 0 <= t < |w.threads| :: Shape(w.threads[t]) && On(w.threads[t]) !! w.pool.Keys)
    && (forall t, u | 0 <= t < u < |w.threads| :: On(w.threads[t]) !! On(w.threads[u]))
  }

  /** A thread adopts a fiber from the pool, at the point where the last thread left it. */
  predicate Allowed(w: World, v: Move)
    requires Apart(w)
  {
    && v.t < |w.threads| && Legal(w.threads[v.t], v.op)
    && (v.op.Adopt? ==> v.op.f in w.pool && v.op.ctx == w.pool[v.op.f])
  }

  function Perform(w: World, v: Move): (r: World)
    requires Apart(w) && Allowed(w, v)
    ensures Apart(r)
  {
    var m := w.threads[v.t];
    StepOn(m, v.op);
    World(w.threads[v.t := Step(m, v.op)],
          match v.op
          case Adopt(f, _, _) => w.pool - {f}
          case Lend(f) => w.pool[f := m.left[f]]
          case _ => w.pool)
  }

  /** Which fibers a thread has after an operation. */
  lemma StepOn(m: Thread, op: Op)
    requires Shape(m) && Legal(m, op)
    ensures On(Step(m, op)) == match op
      case Adopt(f, _, _) => On(m) + {f}
      case Lend(f) => On(m) - {f}
      case _ => On(m)
  {
    if op.Yield? || op.End? || op.EndRoot? {
      assert m.chain == m.chain[..|m.chain| - 1] + [Current(m)];
    }
  }

  predicate AllAllowed(w: World, vs: seq<Move>)
    requires Apart(w)
    decreases |vs|
  {
    vs == [] || (Allowed(w, vs[0]) && AllAllowed(Perform(w, vs[0]), vs[1..]))
  }

  function After(w: World, vs: seq<Move>): (r: World)
    requires Apart(w) && AllAllowed(w, vs)
    ensures Apart(r)
    decreases |vs|
  {
    if vs == [] then w else After(Perform(w, vs[0]), vs[1..])
  }

  /** Fiber f is on no chain, and will go on at p. */
  ghost predicate Rests(w: World, f: Fiber, p: Point) {
    || (f in w.pool && w.pool[f] == p)
    || (exists t :: 0 <= t < |w.threads| && f in w.threads[t].left && w.threads[t].left[f] == p)
  }

  /** The move switches to fiber f. */
  predicate Enters(w: World, v: Move, f: Fiber) {
    v.t < |w.threads| && ((v.op.SwapIn? && v.op.f == f) || (v.op.Call? && w.threads[v.t].sched == f))
  }

  /** None of the moves switches to f. */
  predicate StaysOut(w: World, vs: seq<Move>, f: Fiber)
    requires Apart(w) && AllAllowed(w, vs)
    decreases |vs|
  {
    vs == [] || (!Enters(w, vs[0], f) && StaysOut(Perform(w, vs[0]), vs[1..], f))
  }

  lemma RestsOn(w: World, v: Move, f: Fiber, p: Point)
    requires Apart(w) && Allowed(w, v) && Rests(w, f, p) && !Enters(w, v, f)
    ensures Rests(Perform(w, v), f, p)
  {
    var r := Perform(w, v);
    if f in w.pool {
      assert v.op.Adopt? && v.op.f == f ==> r.threads[v.t].left[f] == p;
    } else {
      var t :| 0 <= t < |w.threads| && f in w.threads[t].left && w.threads[t].left[f] == p;
      assert f in On(w.threads[t]);
      if t == v.t {
        assert v.op == Lend(f) || (f in r.threads[t].left && r.threads[t].left[f] == p);
      } else {
        assert r.threads[t] == w.threads[t];
      }
    }
  }

  lemma {:induction false} RestsThroughout(w: World, vs: seq<Move>, f: Fiber, p: Point)
    requires Apart(w) && AllAllowed(w, vs) && Rests(w, f, p) && StaysOut(w, vs, f)
    ensures Rests(After(w, vs), f, p)
    decreases |vs|
  {
    if vs != [] {
      hide Rests, Enters, Allowed, Perform, Apart;
      RestsOn(w, vs[0], f, p);
      RestsThroughout(Perform(w, vs[0]), vs[1..], f, p);
    }
  }

  /** Whoever switches to a fiber at rest goes on where it rests. */
  lemma EntersWhereItRests(w: World, v: Move, f: Fiber, p: Point)
    requires Apart(w) && Allowed(w, v) && Rests(w, f, p) && Enters(w, v, f)
    ensures Target(w.threads[v.t], v.op) == Some(p)
  {
    var m := w.threads[v.t];
    assert f in m.left && f in On(m);
    if t :| 0 <= t < |w.threads| && f in w.threads[t].left && w.threads[t].left[f] == p {
      assert f in On(w.threads[t]);
    }
  }

  /**
   At any moment of a run of any number of threads: a fiber switches out, other moves follow that
   do not switch to it, whatever threads it is passed on to, and then some thread does. It goes
   on just where it switched out.
   */
  lemma ResumesOnAnyThread(w: World, out: Move, between: seq<Move>, into: Move)
    requires Apart(w) && Allowed(w, out) && AllAllowed(Perform(w, out), between)
    requires Allowed(After(Perform(w, out), between), into)
    requires out.op.Yield? || out.op.End? || out.op.EndRoot?
    requires var f := Current(w.threads[out.t]);
      && StaysOut(Perform(w, out), between, f)
      && Enters(After(Perform(w, out), between), into, f)
    ensures var z := After(Perform(w, out), between);
      Target(z.threads[into.t], into.op) == Some(out.op.here)
  {
    var f := Current(w.threads[out.t]);
    assert Perform(w, out).threads[out.t].left[f] == out.op.here;
    RestsThroughout(Perform(w, out), between, f, out.op.here);
    EntersWhereItRests(After(Perform(w, out), between), into, f, out.op.here);
  }
}
