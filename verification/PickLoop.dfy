/**
 The pick loop among running workers: although other workers change fiber states while it looks
 at one entry after the other, a whole pass takes the first entry that it may take and did not
 see running, which is one Pick of TaskQueue.
 */
module PickLoop {
  import opened Basics
  import opened TaskQueue
  import opened Protocol
  import opened Shutdown
  import opened Discipline

  /** Worker w is in its pick loop now and after each of `acts`, all one pass. */
  ghost predicate Scanning(c: Config, s: State, acts: seq<Action>, w: nat)
    requires WellFormed(c, s) && Possible(c, s, acts)
    decreases |acts|
  {
    && w < c.workers && s.workers[w].phase.Scan?
    && (acts != [] ==> (StepWellFormed(c, s, acts[0]); Scanning(c, Step(c, s, acts[0]), acts[1..], w)))
  }

  /** The indices at which w finds a fiber in state EXEC when it comes to them. */
  ghost function SeenRunning(c: Config, s: State, acts: seq<Action>, w: nat): set<nat>
    requires WellFormed(c, s) && Possible(c, s, acts) && Scanning(c, s, acts, w)
    decreases |acts|
  {
    if acts == [] then {} else
    StepWellFormed(c, s, acts[0]);
    var i := s.workers[w].phase.next;
    (if acts[0] == Loop(w) && i < |s.tasks| && s.tasks[i].fiber.Some? && s.fibers[s.tasks[i].fiber.value].st == EXEC
     then {i} else {})
    + SeenRunning(c, Step(c, s, acts[0]), acts[1..], w)
  }

  /** While w scans, no action changes the list, and only its own move it on. */
  lemma ScanningStep(c: Config, s: State, a: Action, w: nat)
    requires WellFormed(c, s) && LockOk(s) && Enabled(c, s, a) && w < c.workers && s.workers[w].phase.Scan?
    requires Step(c, s, a).workers[w].phase.Scan?
    ensures var r, i := Step(c, s, a), s.workers[w].phase.next;
      && r.tasks == s.tasks
      && r.workers[w].phase.next == (if a == Loop(w) then i + 1 else i)
      && (a == Loop(w) ==> i < |s.tasks| && (!Foreign(s.tasks[i], w) ==>
            s.tasks[i].fiber.Some? && s.fibers[s.tasks[i].fiber.value].st == EXEC))
  {
    hide RemoveAt, Scheduled, ShutDown, Dispatch, NextWorker;
    if a.Loop? && a.w != w && s.workers[a.w].phase.Held? {
      DispatchBalanced(c, s, a.w, s.workers[a.w].phase.task, NOTHING);
    }
  }

  /** The entries a pass has gone by are those it could not take. */
  lemma {:induction false} GoneBy(c: Config, s: State, acts: seq<Action>, w: nat)
    requires Sound(c, s) && Possible(c, s, acts) && Scanning(c, s, acts, w)
    ensures var r, seen, start := After(c, s, acts), SeenRunning(c, s, acts, w), s.workers[w].phase.next;
      && r.tasks == s.tasks && r.workers[w].phase.Scan?
      && var n := r.workers[w].phase.next;
      && start <= n && (n == start || n <= |s.tasks|)
      && (forall j | start <= j < n :: Foreign(s.tasks[j], w) || j in seen)
      && (forall j | j in seen :: start <= j < n && s.tasks[j].fiber.Some?)
    decreases |acts|
  {
    if acts != [] {
      hide Step, Enabled, LockOk, NoEmptyEntry, Counted, Orderly, Conserved, Foreign;
      var t, i := Step(c, s, acts[0]), s.workers[w].phase.next;
      ScanningStep(c, s, acts[0], w);
      SoundStep(c, s, acts[0]);
      GoneBy(c, t, acts[1..], w);
      var r, n := After(c, s, acts), After(c, s, acts).workers[w].phase.next;
      var seen, later := SeenRunning(c, s, acts, w), SeenRunning(c, t, acts[1..], w);
      assert r == After(c, t, acts[1..]);
      var here := if acts[0] == Loop(w) && i < |s.tasks| && s.tasks[i].fiber.Some?
                    && s.fibers[s.tasks[i].fiber.value].st == EXEC then {i} else {};
      assert seen == here + later;
      forall j | i <= j < n ensures Foreign(s.tasks[j], w) || j in seen {
        assert j == i || Foreign(s.tasks[j], w) || j in later;
      }
      forall j | j in seen ensures i <= j < n && s.tasks[j].fiber.Some? {
        assert j in here || j in later;
      }
    }
  }

  /** The state after `acts` and one more action of worker w. */
  ghost function Next(c: Config, s: State, acts: seq<Action>, w: nat): (r: State)
    requires WellFormed(c, s) && Possible(c, s, acts) && Enabled(c, After(c, s, acts), Loop(w))
    ensures WellFormed(c, r) && w < |r.workers|
  {
    StepWellFormed(c, After(c, s, acts), Loop(w));
    Step(c, After(c, s, acts), Loop(w))
  }

  /**
   A pass that starts in state s and leaves the loop right after `acts` takes the first entry of
   s's list that is neither pinned elsewhere nor was seen running, or nothing when there is none,
   and keeps the others in order, whatever the other workers did meanwhile.
   */
  lemma PassTakesFirst(c: Config, s: State, acts: seq<Action>, w: nat) returns (n: nat)
    requires Sound(c, s) && Possible(c, s, acts) && Scanning(c, s, acts, w)
    requires s.workers[w].phase == Scan(0) && Enabled(c, After(c, s, acts), Loop(w))
    ensures n <= |s.tasks| && forall j | 0 <= j < n :: Foreign(s.tasks[j], w) || j in SeenRunning(c, s, acts, w)
    ensures var r := Next(c, s, acts, w);
      !r.workers[w].phase.Scan? ==>
      && (n < |s.tasks| ==> !Foreign(s.tasks[n], w) && n !in SeenRunning(c, s, acts, w))
      && r.workers[w].phase == Held(if n < |s.tasks| then s.tasks[n] else NOTHING)
      && r.tasks == if n < |s.tasks| then RemoveAt(s.tasks, n) else s.tasks
    ensures forall j | j in SeenRunning(c, s, acts, w) :: j < n && s.tasks[j].fiber.Some?
  {
    GoneBy(c, s, acts, w);
    n := After(c, s, acts).workers[w].phase.next;
    assert Next(c, s, acts, w) == ScanStep(After(c, s, acts), w, n);
  }

  /** Each fiber is in the list at most once. */
  ghost predicate HandlesOnce(q: seq<Entry>) {
    forall i, j | 0 <= i < j < |q| :: q[i].fiber.Some? ==> q[i].fiber != q[j].fiber
  }

  ghost function FibersAt(q: seq<Entry>, at: set<nat>): set<nat> {
    set j | j in at && j < |q| && q[j].fiber.Some? :: q[j].fiber.value
  }

  lemma ReachableHandlesOnce(c: Config, s: State)
    requires !c.loose && Reachable(c, s)
    ensures HandlesOnce(s.tasks)
  {
    var g, h := ConsistentReachable(c, s);
  }

  /** So with every handle in the list once, a pass is the Pick with the fibers it saw running. */
  lemma PassIsPick(c: Config, s: State, acts: seq<Action>, w: nat)
    requires Sound(c, s) && Possible(c, s, acts) && Scanning(c, s, acts, w) && HandlesOnce(s.tasks)
    requires s.workers[w].phase == Scan(0) && Enabled(c, After(c, s, acts), Loop(w))
    ensures var r, seen := Next(c, s, acts, w), FibersAt(s.tasks, SeenRunning(c, s, acts, w));
      var k := FirstEligible(s.tasks, w, seen);
      !r.workers[w].phase.Scan? ==>
      && r.workers[w].phase == Held(if k < |s.tasks| then s.tasks[k] else NOTHING)
      && r.tasks == Apply(s.tasks, Pick(w, seen))
  {
    var n := PassTakesFirst(c, s, acts, w);
    var at := SeenRunning(c, s, acts, w);
    hide *;
    FirstIs(s.tasks, w, at, n);
  }

  lemma FirstIs(q: seq<Entry>, w: nat, at: set<nat>, n: nat)
    requires HandlesOnce(q) && n <= |q|
    requires forall j | j in at :: j < n && q[j].fiber.Some?
    requires forall j | 0 <= j < n :: Foreign(q[j], w) || j in at
    ensures (n < |q| ==> !Foreign(q[n], w) && n !in at) ==>
      var seen := FibersAt(q, at);
      && FirstEligible(q, w, seen) == n
      && Apply(q, Pick(w, seen)) == if n < |q| then RemoveAt(q, n) else q
  {
    var seen := FibersAt(q, at);
    forall j | 0 <= j < n ensures !Eligible(q[j], w, seen) {
      if j in at {
        assert q[j].fiber.value in seen;
      }
    }
  }
}
