/**
 What tasks do when they run, as far as one scheduling thread is concerned, and the order in
 which that thread must run them. Nothing here mentions fibers, reuse or the heap.
 */
module Workload {
  import opened Basics

  /**
   The code of a callback or fiber: it schedules other work, puts itself back in the list and
   yields, and finally returns or throws. `pin` says whether schedule() names the thread.
   */
  datatype Code =
    | Return
    | Throw
    | Schedule(child: Code, asFiber: bool, pin: bool, next: Code)
    | Yield(pin: bool, next: Code)

  function Size(p: Code): nat {
    match p
    case Return => 1
    case Throw => 1
    case Schedule(child, _, _, next) => 1 + Size(child) + Size(next)
    case Yield(_, next) => 1 + Size(next)
  }

  function Work(q: seq<Code>): nat {
    if q == [] then 0 else Size(q[0]) + Work(q[1..])
  }

  /** What one slice of p, up to its next yield or its end, appends to the list. */
  function Produce(p: Code): seq<Code> {
    match p
    case Return => []
    case Throw => []
    case Schedule(child, _, _, next) => [child] + Produce(next)
    case Yield(_, next) => [next]
  }

  /** The state a slice of p leaves its fiber in. */
  function EndState(p: Code): (st: FState)
    ensures st == READY || Finished(st)
  {
    match p
    case Return => TERM
    case Throw => EXCEPT
    case Schedule(_, _, _, next) => EndState(next)
    case Yield(_, _) => READY
  }

  /** What a slice of p ends with, once all it schedules is scheduled. */
  function Last(p: Code): (r: Code)
    ensures !r.Schedule?
  {
    if p.Schedule? then Last(p.next) else p
  }

  /** A return ends in TERM, a throw in EXCEPT, and a yield in READY. */
  lemma {:induction false} EndStateIs(p: Code)
    ensures EndState(p) == TERM <==> Last(p) == Return
    ensures EndState(p) == EXCEPT <==> Last(p) == Throw
    ensures EndState(p) == READY <==> Last(p).Yield?
  {
    if p.Schedule? {
      EndStateIs(p.next);
    }
  }

  lemma {:induction false} WorkAppend(a: seq<Code>, b: seq<Code>)
    ensures Work(a + b) == Work(a) + Work(b)
  {
    if a == [] {
      assert a + b == b;
    } else {
      assert (a + b)[1..] == a[1..] + b;
      WorkAppend(a[1..], b);
    }
  }

  lemma {:induction false} SliceShrinks(p: Code)
    ensures Work(Produce(p)) < Size(p)
  {
    match p
    case Schedule(child, _, _, next) =>
      SliceShrinks(next);
      WorkAppend([child], Produce(next));
    case Yield(_, next) => assert Produce(p)[1..] == [];
    case _ =>
  }

  lemma StepShrinks(q: seq<Code>)
    requires q != []
    ensures Work(q[1..] + Produce(q[0])) < Work(q)
  {
    WorkAppend(q[1..], Produce(q[0]));
    SliceShrinks(q[0]);
  }

  /** First in, first out: the slices that are run, in order, starting from list q. */
  function DrainOrder(q: seq<Code>): seq<Code>
    decreases Work(q)
  {
    if q == [] then [] else
    StepShrinks(q);
    [q[0]] + DrainOrder(q[1..] + Produce(q[0]))
  }

  lemma DrainNothing()
    ensures DrainOrder([]) == []
  {
  }

  lemma DrainUnfold(q: seq<Code>)
    requires q != []
    ensures DrainOrder(q) == [q[0]] + DrainOrder(q[1..] + Produce(q[0]))
  {
  }

  lemma Regroup(a: seq<Code>, b: seq<Code>, c: seq<Code>)
    ensures (a + b) + c == a + (b + c)
  {
  }

  function ProduceAll(q: seq<Code>): seq<Code> {
    if q == [] then [] else Produce(q[0]) + ProduceAll(q[1..])
  }

  /**
   Fairness of the order: everything in the list is run before anything it produces, so
   yielding tasks take turns.
   */
  lemma {:induction false} TakesTurns(a: seq<Code>, b: seq<Code>)
    ensures DrainOrder(a + b) == a + DrainOrder(b + ProduceAll(a))
    decreases |a|
  {
    if a == [] {
      assert a + b == b && b + ProduceAll(a) == b;
    } else {
      hide DrainOrder, Produce, Work;
      var x, t, p := [a[0]], a[1..], Produce(a[0]);
      DrainUnfold(a + b);
      assert (a + b)[1..] == t + b && a == x + t;
      Regroup(t, b, p);
      TakesTurns(t, b + p);
      Regroup(b, p, ProduceAll(t));
      Regroup(x, t, DrainOrder(b + ProduceAll(a)));
    }
  }

  /** The slices that occur in code p, counting everything p schedules. */
  function Slices(p: Code): multiset<Code>
    decreases p, 1
  {
    multiset{p} + Later(p)
  }

  /** Those other than the first. */
  function Later(p: Code): multiset<Code>
    decreases p, 0
  {
    match p
    case Return => multiset{}
    case Throw => multiset{}
    case Schedule(child, _, _, next) => Slices(child) + Later(next)
    case Yield(_, next) => Slices(next)
  }

  function AllSlices(q: seq<Code>): multiset<Code> {
    if q == [] then multiset{} else Slices(q[0]) + AllSlices(q[1..])
  }

  lemma {:induction false} SlicesAppend(a: seq<Code>, b: seq<Code>)
    ensures AllSlices(a + b) == AllSlices(a) + AllSlices(b)
  {
    if a == [] {
      assert a + b == b;
    } else {
      assert (a + b)[1..] == a[1..] + b;
      SlicesAppend(a[1..], b);
    }
  }

  lemma {:induction false} ProduceSlices(p: Code)
    ensures AllSlices(Produce(p)) == Later(p)
  {
    match p
    case Schedule(child, _, _, next) =>
      ProduceSlices(next);
      SlicesAppend([child], Produce(next));
    case Yield(_, next) => assert Produce(p)[1..] == [];
    case _ =>
  }

  /** Every slice of all the work, scheduled now or later, is run exactly as often as it occurs. */
  lemma {:induction false} RunsEachSliceOnce(q: seq<Code>)
    ensures multiset(DrainOrder(q)) == AllSlices(q)
    decreases Work(q)
  {
    if q != [] {
      hide DrainOrder, Produce, Work, Later;
      var r := q[1..] + Produce(q[0]);
      StepShrinks(q);
      DrainUnfold(q);
      RunsEachSliceOnce(r);
      SlicesAppend(q[1..], Produce(q[0]));
      ProduceSlices(q[0]);
    }
  }
}
