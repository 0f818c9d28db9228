/**
 One configuration variable with its listeners (sylar/config.h, ConfigVar). Calls are serial,
 and listeners neither throw nor call back into the variable.
 */
module ConfigVar {
  import opened Basics

  /** Listener `id` was told that the value goes from `was` to `now`. */
  datatype Call<T> = Call(id: nat, was: T, now: T)

  /** m_val, the keys of m_cbs, m_fun_id, and the calls made so far. */
  datatype Var<T> = Var(val: T, ids: seq<nat>, last: nat, calls: seq<Call<T>>)

  datatype Op<T> = Set(v: T) | Add | Del(id: nat) | Clear

  function Notify<T>(ids: seq<nat>, was: T, now: T): (r: seq<Call<T>>)
    ensures |r| == |ids| && forall i | 0 <= i < |ids| :: r[i] == Call(ids[i], was, now)
  {
    if ids == [] then [] else [Call(ids[0], was, now)] + Notify(ids[1..], was, now)
  }

  function Without(ids: seq<nat>, id: nat): (r: seq<nat>)
    ensures forall x :: x in r <==> x in ids && x != id
  {
    if ids == [] then [] else (if ids[0] == id then [] else [ids[0]]) + Without(ids[1..], id)
  }

  /** One public call; `eq` is operator== of the type. */
  function Do<T>(eq: (T, T) -> bool, v: Var<T>, op: Op<T>): Var<T> {
    match op
    case Set(x) => if eq(x, v.val) then v else v.(val := x, calls := v.calls + Notify(v.ids, v.val, x))
    case Add => v.(ids := v.ids + [v.last + 1], last := v.last + 1)
    case Del(id) => v.(ids := Without(v.ids, id))
    case Clear => v.(ids := [], last := 0)
  }

  function DoAll<T>(eq: (T, T) -> bool, v: Var<T>, ops: seq<Op<T>>): Var<T>
    decreases |ops|
  {
    if ops == [] then v else DoAll(eq, Do(eq, v, ops[0]), ops[1..])
  }

  /** Live ids ascend, so they are unique, and the counter bounds them. */
  ghost predicate GoodIds<T>(v: Var<T>) {
    Ascending(v.ids) && forall x | x in v.ids :: x <= v.last
  }

  predicate Ascending(ids: seq<nat>) {
    forall i, j | 0 <= i < j < |ids| :: ids[i] < ids[j]
  }

  lemma {:induction false} WithoutAscends(ids: seq<nat>, id: nat)
    requires Ascending(ids)
    ensures Ascending(Without(ids, id))
  {
    if ids != [] {
      WithoutAscends(ids[1..], id);
      var rest := Without(ids[1..], id);
      forall i | 0 <= i < |rest| ensures ids[0] < rest[i] {
        assert rest[i] in ids[1..];
      }
      var r := Without(ids, id);
      assert r == (if ids[0] == id then [] else [ids[0]]) + rest;
    }
  }

  lemma DoKeepsIds<T>(eq: (T, T) -> bool, v: Var<T>, op: Op<T>)
    requires GoodIds(v)
    ensures GoodIds(Do(eq, v, op))
  {
    hide Without, Notify;
    if op.Del? {
      WithoutAscends(v.ids, op.id);
    } else if op.Add? {
      var r := v.ids + [v.last + 1];
      forall i, j | 0 <= i < j < |r| ensures r[i] < r[j] {
        assert v.ids[i] in v.ids;
      }
    }
  }

  lemma {:induction false} IdsStayGood<T>(eq: (T, T) -> bool, v: Var<T>, ops: seq<Op<T>>)
    requires GoodIds(v)
    ensures GoodIds(DoAll(eq, v, ops))
    decreases |ops|
  {
    if ops != [] {
      DoKeepsIds(eq, v, ops[0]);
      IdsStayGood(eq, Do(eq, v, ops[0]), ops[1..]);
    }
  }

  // Which ids are handed out.

  /** How many listeners were added since the last clearListener, or at all. */
  function Added<T>(ops: seq<Op<T>>): nat {
    if ops == [] then 0 else
    var last := ops[|ops| - 1];
    if last.Clear? then 0 else Added(ops[..|ops| - 1]) + if last.Add? then 1 else 0
  }

  lemma {:induction false} DoAllLast<T>(eq: (T, T) -> bool, v: Var<T>, ops: seq<Op<T>>, op: Op<T>)
    ensures DoAll(eq, v, ops + [op]) == Do(eq, DoAll(eq, v, ops), op)
    decreases |ops|
  {
    if ops == [] {
      assert ops + [op] == [op] && [op][1..] == [];
    } else {
      assert (ops + [op])[1..] == ops[1..] + [op];
      DoAllLast(eq, Do(eq, v, ops[0]), ops[1..], op);
    }
  }

  /** The counter is the number of listeners added since the last clearListener. */
  lemma {:induction false} CounterCountsAdds<T>(eq: (T, T) -> bool, v: Var<T>, ops: seq<Op<T>>)
    ensures DoAll(eq, v, ops).last == Added(ops) + if Clear in ops then 0 else v.last
    decreases |ops|
  {
    if ops != [] {
      hide DoAll, Notify, Without;
      var k := |ops| - 1;
      assert ops == ops[..k] + [ops[k]];
      DoAllLast(eq, v, ops[..k], ops[k]);
      CounterCountsAdds(eq, v, ops[..k]);
    } else {
      assert DoAll(eq, v, []) == v;
    }
  }

  /** The ids that addListener returns during `ops`. */
  function HandedOut<T>(eq: (T, T) -> bool, v: Var<T>, ops: seq<Op<T>>): set<nat>
    decreases |ops|
  {
    if ops == [] then {} else
    (if ops[0].Add? then {v.last + 1} else {}) + HandedOut(eq, Do(eq, v, ops[0]), ops[1..])
  }

  /** An id was handed out, in `ops` or before, if and only if the counter once reached it. */
  lemma {:induction false} HandedOutIffReached<T>(eq: (T, T) -> bool, v: Var<T>, ops: seq<Op<T>>, id: nat)
    requires id > 0
    ensures (id <= v.last || id in HandedOut(eq, v, ops)) <==>
      exists k :: 0 <= k <= |ops| && id <= DoAll(eq, v, ops[..k]).last
    decreases |ops|
  {
    if ops == [] {
      assert DoAll(eq, v, ops[..0]) == v;
    } else {
      hide DoAll, Notify, Without;
      var w := Do(eq, v, ops[0]);
      HandedOutIffReached(eq, w, ops[1..], id);
      FirstOf(eq, v, ops);
      if id <= v.last {
        assert id <= DoAll(eq, v, ops[..0]).last;
      }
      if k :| 0 <= k <= |ops[1..]| && id <= DoAll(eq, w, ops[1..][..k]).last {
        assert id <= DoAll(eq, v, ops[..k + 1]).last;
      }
      if k :| 0 <= k <= |ops| && id <= DoAll(eq, v, ops[..k]).last {
        if k > 0 {
          assert id <= DoAll(eq, w, ops[1..][..k - 1]).last;
        }
      }
    }
  }

  lemma FirstOf<T>(eq: (T, T) -> bool, v: Var<T>, ops: seq<Op<T>>)
    requires ops != []
    ensures DoAll(eq, v, ops[..0]) == v
    ensures forall k | 0 < k <= |ops| :: DoAll(eq, v, ops[..k]) == DoAll(eq, Do(eq, v, ops[0]), ops[1..][..k - 1])
  {
    forall k | 0 < k <= |ops| ensures DoAll(eq, v, ops[..k]) == DoAll(eq, Do(eq, v, ops[0]), ops[1..][..k - 1]) {
      assert ops[..k][1..] == ops[1..][..k - 1];
    }
  }

  /** Listeners added since the last clearListener, those before `ops` included. */
  ghost function Reach<T>(v: Var<T>, ops: seq<Op<T>>): nat {
    Added(ops) + if Clear in ops then 0 else v.last
  }

  lemma CounterIsReach<T>(eq: (T, T) -> bool, v: Var<T>, ops: seq<Op<T>>)
    ensures DoAll(eq, v, ops).last == Reach(v, ops)
  {
    CounterCountsAdds(eq, v, ops);
  }

  /**
   The id the next addListener returns was handed out before if and only if, at some earlier
   moment, more listeners had been added since the clearListener before it than have been now.
   */
  lemma NextIdIsReusedIff<T>(eq: (T, T) -> bool, v: Var<T>, ops: seq<Op<T>>)
    ensures var next := DoAll(eq, v, ops).last + 1;
      && DoAll(eq, v, ops + [Add]).ids == DoAll(eq, v, ops).ids + [next]
      && (next <= v.last || next in HandedOut(eq, v, ops) <==>
            exists k :: 0 <= k <= |ops| && Reach(v, ops[..k]) > Reach(v, ops))
  {
    DoAllLast(eq, v, ops, Add);
    hide DoAll, Reach, HandedOut, Notify, Without;
    CounterIsReach(eq, v, ops);
    forall k | 0 <= k <= |ops| ensures DoAll(eq, v, ops[..k]).last == Reach(v, ops[..k]) {
      CounterIsReach(eq, v, ops[..k]);
    }
    HandedOutIffReached(eq, v, ops, DoAll(eq, v, ops).last + 1);
  }

  // A listener that is removed.

  /** Which ids are listed after one call. */
  lemma ListedAfter<T>(eq: (T, T) -> bool, v: Var<T>, op: Op<T>, id: nat)
    ensures id in Do(eq, v, op).ids <==>
      match op
      case Set(_) => id in v.ids
      case Add => id in v.ids || id == v.last + 1
      case Del(x) => id in v.ids && id != x
      case Clear => false
  {
  }

  lemma {:induction false} HandedOutLast<T>(eq: (T, T) -> bool, v: Var<T>, ops: seq<Op<T>>, op: Op<T>)
    ensures HandedOut(eq, v, ops + [op]) ==
      HandedOut(eq, v, ops) + if op.Add? then {DoAll(eq, v, ops).last + 1} else {}
    decreases |ops|
  {
    if ops == [] {
      assert ops + [op] == [op] && [op][1..] == [];
    } else {
      hide Do;
      assert (ops + [op])[1..] == ops[1..] + [op];
      HandedOutLast(eq, Do(eq, v, ops[0]), ops[1..], op);
    }
  }

  /** delListener takes out exactly that id, and the others stay in order. */
  lemma {:induction false} DelTakesOut<T>(eq: (T, T) -> bool, v: Var<T>, id: nat)
    requires GoodIds(v)
    ensures var r := Do(eq, v, Del(id));
      && id !in r.ids && r.val == v.val && r.last == v.last && r.calls == v.calls
      && (id !in v.ids ==> r.ids == v.ids)
      && (forall k | 0 <= k < |v.ids| && v.ids[k] == id :: r.ids == v.ids[..k] + v.ids[k + 1..])
  {
    forall k | 0 <= k < |v.ids| && v.ids[k] == id ensures Without(v.ids, id) == v.ids[..k] + v.ids[k + 1..] {
      WithoutOne(v.ids, id, k);
    }
    if id !in v.ids {
      WithoutNone(v.ids, id);
    }
  }

  lemma {:induction false} WithoutNone(ids: seq<nat>, id: nat)
    requires id !in ids
    ensures Without(ids, id) == ids
  {
    if ids != [] {
      WithoutNone(ids[1..], id);
      assert ids == [ids[0]] + ids[1..];
    }
  }

  lemma {:induction false} WithoutOne(ids: seq<nat>, id: nat, k: nat)
    requires Ascending(ids) && k < |ids| && ids[k] == id
    ensures Without(ids, id) == ids[..k] + ids[k + 1..]
  {
    if k == 0 {
      WithoutNone(ids[1..], id);
    } else {
      WithoutOne(ids[1..], id, k - 1);
      assert ids[..k] == [ids[0]] + ids[1..][..k - 1] && ids[k + 1..] == ids[1..][k..];
    }
  }

  /** An id that is not listed and not handed out during `ops` is told nothing. */
  lemma {:induction false} UnlistedIsSilent<T>(eq: (T, T) -> bool, v: Var<T>, ops: seq<Op<T>>, id: nat)
    requires id !in v.ids && id !in HandedOut(eq, v, ops)
    ensures var r := DoAll(eq, v, ops);
      && id !in r.ids && v.calls <= r.calls
      && forall i | |v.calls| <= i < |r.calls| :: r.calls[i].id != id
    decreases |ops|
  {
    if ops != [] {
      hide Notify, Without;
      ListedAfter(eq, v, ops[0], id);
      UnlistedIsSilent(eq, Do(eq, v, ops[0]), ops[1..], id);
    }
  }

  /** From delListener on, no call carries the id until addListener hands it out again. */
  lemma DeletedIsSilent<T>(eq: (T, T) -> bool, v: Var<T>, id: nat, ops: seq<Op<T>>)
    requires GoodIds(v) && id !in HandedOut(eq, Do(eq, v, Del(id)), ops)
    ensures var r := DoAll(eq, Do(eq, v, Del(id)), ops);
      && id !in r.ids && v.calls <= r.calls
      && forall i | |v.calls| <= i < |r.calls| :: r.calls[i].id != id
  {
    DelTakesOut(eq, v, id);
    UnlistedIsSilent(eq, Do(eq, v, Del(id)), ops, id);
  }

  // The chain of changes.

  /** A value that was stored, and the listeners present at that moment. */
  datatype Change<T> = Change(was: T, now: T, ids: seq<nat>)

  /** The changes that `ops` make, starting from v. */
  function Changes<T>(eq: (T, T) -> bool, v: Var<T>, ops: seq<Op<T>>): seq<Change<T>>
    decreases |ops|
  {
    if ops == [] then [] else
    (if ops[0].Set? && !eq(ops[0].v, v.val) then [Change(v.val, ops[0].v, v.ids)] else [])
    + Changes(eq, Do(eq, v, ops[0]), ops[1..])
  }

  /** The calls that a list of changes must cause: every listener present, once, ascending. */
  function CallsOf<T>(cs: seq<Change<T>>): seq<Call<T>> {
    if cs == [] then [] else Notify(cs[0].ids, cs[0].was, cs[0].now) + CallsOf(cs[1..])
  }

  ghost predicate Linked<T>(start: T, cs: seq<Change<T>>, end: T)
    decreases |cs|
  {
    if cs == [] then start == end else cs[0].was == start && Linked(cs[0].now, cs[1..], end)
  }

  lemma Regroup<T>(a: seq<Call<T>>, b: seq<Call<T>>, c: seq<Call<T>>)
    ensures (a + b) + c == a + (b + c)
  {
  }

  lemma DoChanges<T>(eq: (T, T) -> bool, v: Var<T>, op: Op<T>)
    ensures var w := Do(eq, v, op);
      if op.Set? && !eq(op.v, v.val) then w.val == op.v && w.calls == v.calls + Notify(v.ids, v.val, op.v)
      else w.val == v.val && w.calls == v.calls
  {
  }

  /**
   Over any series of calls, the listeners are told exactly the changes, in order, each by every
   listener present, and the changes link end to end from the first value to the last.
   */
  lemma {:induction false} ChangesLinkAndAreTold<T>(eq: (T, T) -> bool, v: Var<T>, ops: seq<Op<T>>)
    ensures var cs, r := Changes(eq, v, ops), DoAll(eq, v, ops);
      && Linked(v.val, cs, r.val)
      && r.calls == v.calls + CallsOf(cs)
      && forall i | 0 <= i < |cs| :: !eq(cs[i].now, cs[i].was)
    decreases |ops|
  {
    if ops != [] {
      hide Notify, Do;
      var w := Do(eq, v, ops[0]);
      DoChanges(eq, v, ops[0]);
      ChangesLinkAndAreTold(eq, w, ops[1..]);
      var rest := Changes(eq, w, ops[1..]);
      var cs := Changes(eq, v, ops);
      if ops[0].Set? && !eq(ops[0].v, v.val) {
        assert cs[1..] == rest;
        Regroup(v.calls, Notify(v.ids, v.val, ops[0].v), CallsOf(rest));
        assert forall i | 0 < i < |cs| :: cs[i] == rest[i - 1];
      } else {
        assert cs == rest;
      }
    }
  }

  /** Each change is told in ascending order of ids, so no listener is told twice. */
  lemma {:induction false} ToldInIdOrder<T>(eq: (T, T) -> bool, v: Var<T>, ops: seq<Op<T>>)
    requires GoodIds(v)
    ensures forall i | 0 <= i < |Changes(eq, v, ops)| :: Ascending(Changes(eq, v, ops)[i].ids)
    decreases |ops|
  {
    if ops != [] {
      hide Do;
      DoKeepsIds(eq, v, ops[0]);
      ToldInIdOrder(eq, Do(eq, v, ops[0]), ops[1..]);
    }
  }

  class ConfigVar<T> {
    var val: T
    var ids: seq<nat>                 // the keys of m_cbs, in map order
    var last: nat                     // m_fun_id
    ghost var calls: seq<Call<T>>
    const eq: (T, T) -> bool

    constructor (default: T, eq: (T, T) -> bool)
      ensures View() == Var(default, [], 0, []) && Valid() && this.eq == eq
    {
      val, ids, last, calls, this.eq := default, [], 0, [], eq;
    }

    ghost function View(): Var<T>
      reads this
    {
      Var(val, ids, last, calls)
    }

    ghost predicate Valid()
      reads this
    {
      GoodIds(View())
    }

    method SetValue(v: T)
      requires Valid()
      modifies this
      ensures Valid() && View() == Do(eq, old(View()), Set(v))
    {
      hide Notify;
      if eq(v, val) {
        return;
      }
      ghost var told := Notify(ids, val, v);
      var i := 0;
      while i < |ids|
        invariant i <= |ids| && val == old(val) && ids == old(ids) && last == old(last)
        invariant calls == old(calls) + told[..i]
      {
        calls := calls + [Call(ids[i], val, v)];
        i := i + 1;
      }
      assert told[..i] == told;
      val := v;
    }

    /** A value that does not convert is reported and changes nothing. */
    method FromString<S>(text: S, convert: S -> Option<T>) returns (ok: bool)
      requires Valid()
      modifies this
      ensures Valid() && ok == convert(text).Some?
      ensures View() == if ok then Do(eq, old(View()), Set(convert(text).value)) else old(View())
    {
      var v := convert(text);
      ok := v.Some?;
      if ok {
        SetValue(v.value);
      }
    }

    method AddListener() returns (id: nat)
      requires Valid()
      modifies this
      ensures Valid() && View() == Do(eq, old(View()), Add)
      ensures id in ids && id !in old(ids)
    {
      DoKeepsIds(eq, View(), Add);
      last := last + 1;
      id := last;
      ids := ids + [id];
    }

    method DelListener(id: nat)
      requires Valid()
      modifies this
      ensures Valid() && View() == Do(eq, old(View()), Del(id))
      ensures forall x :: x in ids <==> x in old(ids) && x != id
    {
      DoKeepsIds(eq, View(), Del(id));
      ids := Without(ids, id);
    }

    method ClearListener()
      requires Valid()
      modifies this
      ensures Valid() && View() == Do(eq, old(View()), Clear)
    {
      ids, last := [], 0;
    }
  }
}
