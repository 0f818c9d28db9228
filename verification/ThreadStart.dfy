/**
 Scheduler::start against the threads it creates (sylar/scheduler.cpp, sylar/thread.cpp): start
 holds m_mutex for its whole length and waits, inside it, for each new thread's semaphore.
 */
module ThreadStart {
  /** Where start() is; `i` is the loop index. */
  datatype Starter = Create(i: nat) | Wait(i: nat) | Record(i: nat) | Unlocked

  /** Where a thread is: Thread::run up to notify(), then Scheduler::run up to its first lock. */
  datatype Stage = Unborn | Born | HasId | Posted | InRun

  /** `id` is m_id and `sem` the value of m_semaphore. */
  datatype Thread = Thread(stage: Stage, id: int, sem: nat)

  datatype State = State(starter: Starter, threads: seq<Thread>, ids: seq<int>)

  datatype Action = Start | Advance(t: nat)

  /** tids[t] is what GetThreadId() returns on thread t; m_id starts as -1. */
  function Init(tids: seq<int>): (s: State)
    ensures Inv(tids, s)
  {
    State(if tids == [] then Unlocked else Create(0), seq(|tids|, i => Thread(Unborn, -1, 0)), [])
  }

  predicate Enabled(s: State, a: Action) {
    match a
    case Start => (
      match s.starter
      case Create(i) => i < |s.threads|
      case Wait(i) => i < |s.threads| && s.threads[i].sem > 0
      case Record(i) => i < |s.threads|
      case Unlocked => false)
    case Advance(t) =>
      t < |s.threads| &&
      match s.threads[t].stage
      case Unborn => false
      case Born => true
      case HasId => true
      case Posted => s.starter.Unlocked?   // the pick loop needs m_mutex
      case InRun => false
  }

  function Step(tids: seq<int>, s: State, a: Action): State
    requires |s.threads| == |tids| && Enabled(s, a)
  {
    match a
    case Start => (
      match s.starter
      case Create(i) => s.(threads := s.threads[i := s.threads[i].(stage := Born)], starter := Wait(i))
      case Wait(i) => s.(threads := s.threads[i := s.threads[i].(sem := s.threads[i].sem - 1)], starter := Record(i))
      case Record(i) => s.(ids := s.ids + [s.threads[i].id],
        starter := if i + 1 < |s.threads| then Create(i + 1) else Unlocked)
      case Unlocked => s)
    case Advance(t) =>
      var th := s.threads[t];
      s.(threads := s.threads[t :=
        match th.stage
        case Born => th.(stage := HasId, id := tids[t])
        case HasId => th.(stage := Posted, sem := th.sem + 1)
        case _ => th.(stage := InRun)])
  }

  /** How many threads start() is done with, and which one it is busy with. */
  function Index(s: State): nat {
    match s.starter
    case Create(i) => i
    case Wait(i) => i
    case Record(i) => i
    case Unlocked => |s.threads|
  }

  predicate ThreadOk(s: State, tid: int, t: nat)
    requires t < |s.threads|
  {
    var th := s.threads[t];
    && (th.stage == Unborn <==> t > Index(s) || (t == Index(s) && s.starter.Create?))
    && (th.stage == HasId || th.stage == Posted || th.stage == InRun ==> th.id == tid)
    && (th.stage == InRun ==> s.starter.Unlocked?)
    && (th.sem == if th.stage == Posted && t == Index(s) && s.starter.Wait? then 1 else 0)
    && (t < Index(s) || (t == Index(s) && s.starter.Record?) ==> th.stage == Posted || th.stage == InRun)
  }

  predicate Inv(tids: seq<int>, s: State) {
    && |s.threads| == |tids|
    && (!s.starter.Unlocked? ==> Index(s) < |tids|)
    && s.ids == tids[..Index(s)]
    && (forall t | 0 <= t < |tids| :: ThreadOk(s, tids[t], t))
  }

  lemma InvStep(tids: seq<int>, s: State, a: Action)
    requires Inv(tids, s) && Enabled(s, a)
    ensures Inv(tids, Step(tids, s, a))
  {
    var r := Step(tids, s, a);
    var i := if a.Start? then Index(s) else a.t;
    assert ThreadOk(s, tids[i], i);
    forall t | 0 <= t < |tids| ensures ThreadOk(r, tids[t], t) {
      assert ThreadOk(s, tids[t], t);
    }
  }

  ghost predicate Possible(tids: seq<int>, s: State, acts: seq<Action>)
    requires Inv(tids, s)
    decreases |acts|
  {
    acts == [] || (Enabled(s, acts[0])
      && (InvStep(tids, s, acts[0]); Possible(tids, Step(tids, s, acts[0]), acts[1..])))
  }

  ghost function After(tids: seq<int>, s: State, acts: seq<Action>): (r: State)
    requires Inv(tids, s) && Possible(tids, s, acts)
    ensures Inv(tids, r)
    decreases |acts|
  {
    if acts == [] then s else
    InvStep(tids, s, acts[0]);
    After(tids, Step(tids, s, acts[0]), acts[1..])
  }

  // Progress.

  function ToGo(th: Thread): nat {
    match th.stage
    case Unborn => 4
    case Born => 3
    case HasId => 2
    case Posted => 1
    case InRun => 0
  }

  function AllToGo(ths: seq<Thread>): nat {
    if ths == [] then 0 else ToGo(ths[0]) + AllToGo(ths[1..])
  }

  lemma {:induction false} ToGoUpdate(ths: seq<Thread>, t: nat, th: Thread)
    requires t < |ths|
    ensures AllToGo(ths[t := th]) == AllToGo(ths) - ToGo(ths[t]) + ToGo(th)
  {
    if t > 0 {
      ToGoUpdate(ths[1..], t - 1, th);
      assert ths[t := th][1..] == ths[1..][t - 1 := th];
    }
  }

  /** The steps left for start(): creating a thread counts with the thread. */
  function StartToGo(s: State): nat {
    match s.starter
    case Create(i) => if i < |s.threads| then 2 * (|s.threads| - i) else 0
    case Wait(i) => if i < |s.threads| then 2 * (|s.threads| - i) else 0
    case Record(i) => if i < |s.threads| then 2 * (|s.threads| - i) - 1 else 0
    case Unlocked => 0
  }

  lemma StepShrinks(tids: seq<int>, s: State, a: Action)
    requires Inv(tids, s) && Enabled(s, a)
    ensures var r := Step(tids, s, a); StartToGo(r) + AllToGo(r.threads) < StartToGo(s) + AllToGo(s.threads)
  {
    var i := if a.Start? then Index(s) else a.t;
    assert ThreadOk(s, tids[i], i);
    ToGoUpdate(s.threads, i, Step(tids, s, a).threads[i]);
  }

  lemma {:induction false} BoundedFrom(tids: seq<int>, s: State, acts: seq<Action>)
    requires Inv(tids, s) && Possible(tids, s, acts)
    ensures |acts| <= StartToGo(s) + AllToGo(s.threads)
    decreases |acts|
  {
    if acts != [] {
      StepShrinks(tids, s, acts[0]);
      InvStep(tids, s, acts[0]);
      BoundedFrom(tids, Step(tids, s, acts[0]), acts[1..]);
    }
  }

  lemma {:induction false} FreshToGo(ths: seq<Thread>)
    requires forall t | 0 <= t < |ths| :: ths[t].stage == Unborn
    ensures AllToGo(ths) == 4 * |ths|
  {
    if ths != [] {
      FreshToGo(ths[1..]);
    }
  }

  /** As long as start() has not released the mutex, start() or the thread it waits for can move. */
  lemma StartNeverStuck(tids: seq<int>, s: State)
    requires Inv(tids, s) && !s.starter.Unlocked?
    ensures Enabled(s, Start) || Enabled(s, Advance(Index(s)))
  {
    assert ThreadOk(s, tids[Index(s)], Index(s));
  }

  lemma InitToGo(tids: seq<int>)
    ensures StartToGo(Init(tids)) + AllToGo(Init(tids).threads) <= 6 * |tids|
  {
    hide AllToGo;
    FreshToGo(Init(tids).threads);
  }

  /** What every reachable state has recorded, and who is past the first lock. */
  lemma RecordedIds(tids: seq<int>, s: State)
    requires Inv(tids, s)
    ensures s.ids <= tids && (s.starter.Unlocked? ==> s.ids == tids)
    ensures forall t | 0 <= t < |tids| :: s.threads[t].stage == InRun ==> s.starter.Unlocked?
  {
    forall t | 0 <= t < |tids| ensures s.threads[t].stage == InRun ==> s.starter.Unlocked? {
      assert ThreadOk(s, tids[t], t);
    }
  }

  /**
   No deadlock: in every interleaving start() can go on until it has released the mutex, and no
   run is longer than six steps a thread. It then has recorded the real id of every thread, in
   order, and no thread got past its first lock before.
   */
  lemma StartCompletes(tids: seq<int>, acts: seq<Action>)
    requires Possible(tids, Init(tids), acts)
    ensures var r := After(tids, Init(tids), acts);
      && |acts| <= 6 * |tids|
      && r.ids <= tids
      && (if r.starter.Unlocked? then r.ids == tids else exists a :: Enabled(r, a))
      && (forall t | 0 <= t < |tids| :: r.threads[t].stage == InRun ==> r.starter.Unlocked?)
  {
    hide *;
    BoundedFrom(tids, Init(tids), acts);
    InitToGo(tids);
    var r := After(tids, Init(tids), acts);
    RecordedIds(tids, r);
    if !r.starter.Unlocked? {
      StartNeverStuck(tids, r);
    }
  }
}
