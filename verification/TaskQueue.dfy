/**
 The scheduler's task list (sylar/scheduler.h, sylar/scheduler.cpp): what an entry is, which
 entry a worker takes, and how long an entry can be passed over.

 F stands for fiber handles and C for callbacks.
 */
module TaskQueue {
  import opened Basics

  /** Scheduler::Task. A pin of ANY_THREAD lets every worker run the entry. */
  datatype Task<+F, +C> = Task(fiber: Option<F>, cb: Option<C>, thread: int) {
    predicate Empty() {
      fiber.None? && cb.None?
    }
  }

  const ANY_THREAD := -1

  /** The entry is pinned to a thread other than `tid`. */
  predicate Foreign<F, C>(t: Task<F, C>, tid: int) {
    t.thread != ANY_THREAD && t.thread != tid
  }

  /** Worker `tid` may take the entry now; `exec` holds the fibers in state EXEC. */
  predicate Eligible<F(==), C>(t: Task<F, C>, tid: int, exec: set<F>) {
    !Foreign(t, tid) && (t.fiber.Some? ==> t.fiber.value !in exec)
  }

  /** scheduleNoLock: an entry with neither fiber nor callback is dropped. */
  function Scheduled<F, C>(q: seq<Task<F, C>>, t: Task<F, C>): (r: seq<Task<F, C>>)
    ensures (forall i | 0 <= i < |q| :: !q[i].Empty()) ==> forall i | 0 <= i < |r| :: !r[i].Empty()
  {
    if t.Empty() then q else q + [t]
  }

  /** The position the pick loop stops at: the least eligible index, or the length. */
  function FirstEligible<F(==), C>(q: seq<Task<F, C>>, tid: int, exec: set<F>): (k: nat)
    ensures k <= |q|
    ensures k < |q| ==> Eligible(q[k], tid, exec)
    ensures forall j | 0 <= j < k :: !Eligible(q[j], tid, exec)
  {
    if q == [] || Eligible(q[0], tid, exec) then 0 else 1 + FirstEligible(q[1..], tid, exec)
  }

  function RemoveAt<T>(s: seq<T>, k: nat): (r: seq<T>)
    requires k < |s|
    ensures |r| == |s| - 1
    ensures multiset(s) == multiset(r) + multiset{s[k]}
  {
    assert s == s[..k] + [s[k]] + s[k + 1..];
    s[..k] + s[k + 1..]
  }

  lemma HeadFirst<F, C>(q: seq<Task<F, C>>, tid: int, exec: set<F>)
    requires q != [] && Eligible(q[0], tid, exec)
    ensures FirstEligible(q, tid, exec) == 0 && RemoveAt(q, 0) == q[1..]
  {
  }

  /** What happens to the list: an append under the lock, or one pass of the pick loop. */
  datatype Op<F, C> = Append(task: Task<F, C>) | Pick(tid: int, exec: set<F>)

  function Apply<F(==), C>(q: seq<Task<F, C>>, op: Op<F, C>): seq<Task<F, C>> {
    match op
    case Append(t) => Scheduled(q, t)
    case Pick(tid, exec) =>
      var k := FirstEligible(q, tid, exec);
      if k < |q| then RemoveAt(q, k) else q
  }

  /** Where the entry at `pos` stands after `op`; None once it has been taken. */
  function Follow<F(==), C>(q: seq<Task<F, C>>, pos: nat, op: Op<F, C>): (r: Option<nat>)
    requires pos < |q|
    ensures r.Some? ==> r.value <= pos && r.value < |Apply(q, op)| && Apply(q, op)[r.value] == q[pos]
    ensures r.None? ==> op.Pick? && Eligible(q[pos], op.tid, op.exec)
    ensures r.None? ==> multiset(q) == multiset(Apply(q, op)) + multiset{q[pos]}
  {
    match op
    case Append(_) => Some(pos)
    case Pick(tid, exec) =>
      var k := FirstEligible(q, tid, exec);
      if k == pos then None else if k < pos then Some(pos - 1) else Some(pos)
  }

  /**
   Over a history of operations, the number of passes by workers that were allowed to take
   the entry at `pos` and yet took another one, counted until the entry itself is taken.
   */
  function Bypasses<F(==), C>(q: seq<Task<F, C>>, pos: nat, ops: seq<Op<F, C>>): nat
    requires pos < |q|
    decreases |ops|
  {
    if ops == [] then 0 else
    var here := if ops[0].Pick? && Eligible(q[pos], ops[0].tid, ops[0].exec) then 1 else 0;
    match Follow(q, pos, ops[0])
    case None => 0
    case Some(p) => here + Bypasses(Apply(q, ops[0]), p, ops[1..])
  }

  /** An entry at index i is passed over at most i times, whatever is appended meanwhile. */
  lemma {:induction false} BoundedBypass<F, C>(q: seq<Task<F, C>>, pos: nat, ops: seq<Op<F, C>>)
    requires pos < |q|
    ensures Bypasses(q, pos, ops) <= pos
    decreases |ops|
  {
    if ops != [] && Follow(q, pos, ops[0]).Some? {
      BoundedBypass(Apply(q, ops[0]), Follow(q, pos, ops[0]).value, ops[1..]);
    }
  }
}
