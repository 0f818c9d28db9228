/**
 What the paths of a flattened tree are and in which order they come, without the functions that
 build them: keys with dots between them, in the order of the document.
 */
module ConfigPaths {
  import opened Yaml
  import opened ConfigLoad

  // Paths.

  function Dotted(keys: seq<string>): string {
    if keys == [] then [] else if |keys| == 1 then keys[0] else keys[0] + "." + Dotted(keys[1..])
  }

  /** Empty keys at the start leave no trace in a path. */
  function Named(keys: seq<string>): seq<string> {
    if keys == [] || keys[0] != [] then keys else Named(keys[1..])
  }

  /** The parts of s between its dots. */
  function Split(s: string): seq<string>
    decreases |s|
  {
    var k := Dot(s);
    if k == |s| then [s] else [s[..k]] + Split(s[k + 1..])
  }

  /** The position of the first dot, or the length. */
  function Dot(s: string): (k: nat)
    ensures k <= |s| && (forall i | 0 <= i < k :: s[i] != '.') && (k < |s| ==> s[k] == '.')
    ensures '.' !in s ==> k == |s|
  {
    if s == [] || s[0] == '.' then 0 else 1 + Dot(s[1..])
  }

  lemma DotIs(s: string, k: nat)
    requires k < |s| && (forall i | 0 <= i < k :: s[i] != '.') && s[k] == '.'
    ensures Dot(s) == k
  {
  }

  lemma Regroup(a: string, b: string, c: string)
    ensures (a + b) + c == a + (b + c)
  {
  }

  lemma {:induction false} PathBelow(prefix: string, keys: seq<string>)
    requires prefix != []
    ensures PathOf(prefix, keys) == if keys == [] then prefix else prefix + "." + Dotted(keys)
    decreases |keys|
  {
    if keys != [] {
      PathBelow(Join(prefix, keys[0]), keys[1..]);
      if |keys| > 1 {
        Regroup(prefix + ".", keys[0] + ".", Dotted(keys[1..]));
        Regroup(prefix + ".", keys[0], ".");
      }
    }
  }

  lemma {:induction false} PathIsDotted(keys: seq<string>)
    ensures PathOf([], keys) == Dotted(Named(keys))
    decreases |keys|
  {
    if keys != [] {
      if keys[0] == [] {
        PathIsDotted(keys[1..]);
      } else {
        PathBelow(keys[0], keys[1..]);
      }
    }
  }

  lemma SplitFirst(a: string, b: string)
    requires '.' !in a
    ensures Split(a + "." + b) == [a] + Split(b)
  {
    var s := a + "." + b;
    assert s[..|a|] == a && s[|a| + 1..] == b;
    assert forall i | 0 <= i < |a| :: s[i] == a[i];
    DotIs(s, |a|);
  }

  lemma SplitNone(a: string)
    requires '.' !in a
    ensures Split(a) == [a]
  {
  }

  lemma {:induction false} SplitDotted(keys: seq<string>)
    requires keys != [] && forall i | 0 <= i < |keys| :: '.' !in keys[i]
    ensures Split(Dotted(keys)) == keys
    decreases |keys|
  {
    hide Split;
    if |keys| == 1 {
      SplitNone(keys[0]);
      assert keys == [keys[0]];
    } else {
      SplitDotted(keys[1..]);
      SplitFirst(keys[0], Dotted(keys[1..]));
      assert keys == [keys[0]] + keys[1..];
    }
  }

  /**
   The flattened tree holds exactly the nodes reached through valid keys, each under its keys with
   dots between them.
   */
  lemma ListedIffDotted(node: Node, e: Entry)
    ensures e in Flatten([], node) <==>
      exists keys: seq<string> :: Leads(node, keys, e.1) && e.0 == Dotted(Named(keys)) && AllValid(keys)
  {
    ListedIffKeysValid(node, e);
    if keys: seq<string> :| Leads(node, keys, e.1) && PathOf([], keys) == e.0 && AllValid(keys) {
      PathIsDotted(keys);
    }
    if keys: seq<string> :| Leads(node, keys, e.1) && e.0 == Dotted(Named(keys)) && AllValid(keys) {
      PathIsDotted(keys);
    }
  }

  /** Keys that are not empty and have no dot come back from the path they lead to. */
  lemma KeysComeBack(node: Node, keys: seq<string>, target: Node)
    requires Leads(node, keys, target) && AllValid(keys) && keys != []
    requires forall i | 0 <= i < |keys| :: keys[i] != [] && '.' !in keys[i]
    ensures exists e :: e in Flatten([], node) && e.1 == target && Split(e.0) == keys
  {
    assert Named(keys) == keys;
    SplitDotted(keys);
    ListedIffDotted(node, (Dotted(keys), target));
  }

  /** Which paths can be listed at all: lower-case letters, dots, underscores and the digits up to 8. */
  lemma ListableIff(p: string)
    ensures (exists tree, value :: (p, value) in Flatten([], tree)) <==>
      forall i | 0 <= i < |p| :: 'a' <= p[i] <= 'z' || p[i] == '.' || p[i] == '_' || '0' <= p[i] <= '8'
  {
    if tree, value :| (p, value) in Flatten([], tree) {
      ListedIsValid([], tree, (p, value));
    }
    if ValidPath(p) {
      var leaf := Scalar([]);
      assert (p, leaf) in Flatten([], Map([Pair(p, leaf)])) by {
        OnePair(p, leaf);
        assert Flatten(p, leaf)[0] == (p, leaf);
        assert Flatten([], Map([Pair(p, leaf)]))[1] == (p, leaf);
      }
    }
  }

  /** A leaf two levels down sets the variable named after both keys. */
  lemma NestedLeafSets<V>(eq: Equal<V>, convert: Convert<V>, a: string, b: string, text: string, was: V)
    requires a != [] && ValidPath(a) && ValidPath(b)
    ensures var name, tree := a + "." + b, Map([Pair(a, Map([Pair(b, Scalar(text))]))]);
      Stored(eq, convert, name, Flatten([], tree), was) == Put(eq, name, convert(name, Scalar(text)), was)
  {
    var name, leaf := a + "." + b, Scalar(text);
    var inner := Map([Pair(b, leaf)]);
    var tree := Map([Pair(a, inner)]);
    ValidName(a, b);
    OnePair(a, inner);
    OneBelow(a, b, leaf);
    var es := Flatten([], tree);
    assert es == [([], tree), (a, inner), (name, leaf)];
    LowerValid(name);
    LowerValid(a);
    assert es[..2] == [([], tree), (a, inner)];
    assert es[..2][..1] == [([], tree)] && es[..2][..1][..0] == [];
    assert |a| != |name|;
    assert Given(convert, name, es[0]).None? && Given(convert, name, es[1]).None?;
    OthersLeaveIt(eq, convert, name, es[..2], 0, was);
  }

  lemma ValidName(a: string, b: string)
    requires ValidPath(a) && ValidPath(b)
    ensures ValidPath(a + "." + b)
  {
    var s := a + "." + b;
    assert forall i | 0 <= i < |s| :: s[i] == if i < |a| then a[i] else if i == |a| then '.' else b[i - |a| - 1];
  }

  lemma OneBelow(a: string, b: string, leaf: Node)
    requires a != [] && ValidPath(a) && ValidPath(a + "." + b) && leaf.Scalar?
    ensures Flatten(a, Map([Pair(b, leaf)])) == [(a, Map([Pair(b, leaf)])), (a + "." + b, leaf)]
  {
    var pairs := [Pair(b, leaf)];
    assert FlattenPairs(a, pairs) == Flatten(a + "." + b, leaf) + FlattenPairs(a, pairs[1..]);
    assert FlattenPairs(a, pairs[1..]) == [];
  }

  // Order.

  /** The child numbers p lead from the node to a node below it. */
  predicate Place(node: Node, p: seq<nat>)
    decreases |p|
  {
    p == [] || (node.Map? && p[0] < |node.pairs| && Place(node.pairs[p[0]].value, p[1..]))
  }

  function NodeAt(node: Node, p: seq<nat>): Node
    requires Place(node, p)
    decreases |p|
  {
    if p == [] then node else NodeAt(node.pairs[p[0]].value, p[1..])
  }

  function KeysAt(node: Node, p: seq<nat>): (keys: seq<string>)
    requires Place(node, p)
    ensures |keys| == |p|
    decreases |p|
  {
    if p == [] then [] else [node.pairs[p[0]].key] + KeysAt(node.pairs[p[0]].value, p[1..])
  }

  /** In the document, p comes before q: above it, or in an earlier branch. */
  predicate Before(p: seq<nat>, q: seq<nat>)
    decreases |p|
  {
    q != [] && (p == [] || p[0] < q[0] || (p[0] == q[0] && Before(p[1..], q[1..])))
  }

  /** The entries are the nodes at these places, and the places ascend. */
  ghost predicate Lists(prefix: string, node: Node, es: seq<Entry>, ps: seq<seq<nat>>) {
    && |ps| == |es|
    && (forall i | 0 <= i < |ps| ::
          Place(node, ps[i]) && es[i] == (PathOf(prefix, KeysAt(node, ps[i])), NodeAt(node, ps[i])))
    && (forall i, j | 0 <= i < j < |ps| :: Before(ps[i], ps[j]))
  }

  function Under(k: nat, ps: seq<seq<nat>>): (r: seq<seq<nat>>)
    ensures |r| == |ps| && forall i | 0 <= i < |ps| :: r[i] == [k] + ps[i]
  {
    if ps == [] then [] else [[k] + ps[0]] + Under(k, ps[1..])
  }

  lemma {:induction false} InOrder(prefix: string, node: Node) returns (ps: seq<seq<nat>>)
    ensures Lists(prefix, node, Flatten(prefix, node), ps)
    ensures ValidPath(prefix) ==> Complete(node, ps, 0) && [] in ps
    decreases node, 1, 0
  {
    if !ValidPath(prefix) {
      ps := [];
    } else {
      FlattenMap(prefix, node);
      if node.Map? {
        var below := PairsInOrder(prefix, node, 0);
        assert node.pairs[0..] == node.pairs;
        ps := [[]] + below;
        hide *;
        RootFirst(prefix, node, FlattenPairs(prefix, node.pairs), below);
      } else {
        ps := [[]];
        assert ps[0] == [];
        hide *;
        OnlyRoot(prefix, node);
      }
    }
  }

  lemma OnlyRoot(prefix: string, node: Node)
    ensures Lists(prefix, node, [(prefix, node)], [[]])
    ensures !node.Map? ==> Complete(node, [[]], 0)
  {
  }

  lemma RootFirst(prefix: string, node: Node, es: seq<Entry>, ps: seq<seq<nat>>)
    requires Lists(prefix, node, es, ps) && From(ps, 0) && Complete(node, ps, 0)
    ensures Lists(prefix, node, [(prefix, node)] + es, [[]] + ps)
    ensures Complete(node, [[]] + ps, 0) && [] in [[]] + ps
  {
    OnlyRoot(prefix, node);
    Appended(prefix, node, [(prefix, node)], [[]], es, ps);
    assert ([[]] + ps)[0] == [];
  }

  lemma Appended(prefix: string, node: Node, a: seq<Entry>, ps: seq<seq<nat>>, b: seq<Entry>, qs: seq<seq<nat>>)
    requires Lists(prefix, node, a, ps) && Lists(prefix, node, b, qs)
    requires forall i, j | 0 <= i < |ps| && 0 <= j < |qs| :: Before(ps[i], qs[j])
    ensures Lists(prefix, node, a + b, ps + qs)
  {
    hide Place, PathOf, KeysAt, NodeAt, Before;
  }

  /** Every place whose keys are valid and that starts at branch k or later is among ps. */
  ghost predicate Complete(node: Node, ps: seq<seq<nat>>, k: nat) {
    forall p | p != [] && Place(node, p) && p[0] >= k && AllValid(KeysAt(node, p)) :: p in ps
  }

  ghost predicate From(ps: seq<seq<nat>>, k: nat) {
    forall i | 0 <= i < |ps| :: ps[i] != [] && ps[i][0] >= k
  }

  lemma {:induction false} PairsInOrder(prefix: string, node: Node, k: nat) returns (ps: seq<seq<nat>>)
    requires node.Map? && k <= |node.pairs| && ValidPath(prefix)
    ensures Lists(prefix, node, FlattenPairs(prefix, node.pairs[k..]), ps)
    ensures From(ps, k) && Complete(node, ps, k)
    decreases node, 0, |node.pairs| - k
  {
    if k == |node.pairs| {
      ps := [];
      FlattenMap(prefix, node);
      assert node.pairs[k..] == [];
    } else {
      var path, child := Join(prefix, node.pairs[k].key), node.pairs[k].value;
      var here := InOrder(path, child);
      var rest := PairsInOrder(prefix, node, k + 1);
      ps := Under(k, here) + rest;
      assert node.pairs[k..][1..] == node.pairs[k + 1..];
      assert FlattenPairs(prefix, node.pairs[k..]) == Flatten(path, child) + FlattenPairs(prefix, node.pairs[k + 1..]);
      JoinValid(prefix, node.pairs[k].key);
      hide *;
      BranchListed(prefix, node, k, here);
      BranchesFollow(k, here, rest);
      Appended(prefix, node, Flatten(path, child), Under(k, here), FlattenPairs(prefix, node.pairs[k + 1..]), rest);
      BranchComplete(node, k, here, rest);
    }
  }

  lemma BranchesFollow(k: nat, here: seq<seq<nat>>, rest: seq<seq<nat>>)
    requires From(rest, k + 1)
    ensures From(Under(k, here) + rest, k)
    ensures forall i, j | 0 <= i < |Under(k, here)| && 0 <= j < |rest| :: Before(Under(k, here)[i], rest[j])
  {
  }
  /** A branch of the tree, with its number put before the places in it. */
  lemma BranchListed(prefix: string, node: Node, k: nat, here: seq<seq<nat>>)
    requires node.Map? && k < |node.pairs|
    requires var path, child := Join(prefix, node.pairs[k].key), node.pairs[k].value;
      Lists(path, child, Flatten(path, child), here)
    ensures Lists(prefix, node, Flatten(Join(prefix, node.pairs[k].key), node.pairs[k].value), Under(k, here))
  {
    var ps := Under(k, here);
    var path, child := Join(prefix, node.pairs[k].key), node.pairs[k].value;
    hide Before;
    forall i | 0 <= i < |ps|
      ensures Place(node, ps[i]) && NodeAt(node, ps[i]) == NodeAt(child, here[i])
      ensures PathOf(prefix, KeysAt(node, ps[i])) == PathOf(path, KeysAt(child, here[i]))
    {
      OneBranch(prefix, node, k, here[i]);
    }
    forall i, j | 0 <= i < j < |ps| ensures Before(ps[i], ps[j]) {
      SameBranch(k, here[i], here[j]);
    }
  }

  lemma OneBranch(prefix: string, node: Node, k: nat, q: seq<nat>)
    requires node.Map? && k < |node.pairs| && Place(node.pairs[k].value, q)
    ensures Place(node, [k] + q) && NodeAt(node, [k] + q) == NodeAt(node.pairs[k].value, q)
    ensures PathOf(prefix, KeysAt(node, [k] + q)) ==
      PathOf(Join(prefix, node.pairs[k].key), KeysAt(node.pairs[k].value, q))
  {
    var p := [k] + q;
    assert p[1..] == q;
    assert KeysAt(node, p)[1..] == KeysAt(node.pairs[k].value, q);
  }

  lemma SameBranch(k: nat, p: seq<nat>, q: seq<nat>)
    requires Before(p, q)
    ensures Before([k] + p, [k] + q)
  {
    assert ([k] + p)[1..] == p && ([k] + q)[1..] == q;
  }

  lemma KeysBelow(node: Node, p: seq<nat>)
    requires p != [] && Place(node, p) && AllValid(KeysAt(node, p))
    ensures ValidPath(node.pairs[p[0]].key) && AllValid(KeysAt(node.pairs[p[0]].value, p[1..]))
  {
    var keys := KeysAt(node, p);
    assert ValidPath(keys[0]) && keys[1..] == KeysAt(node.pairs[p[0]].value, p[1..]);
    assert forall i | 0 < i < |keys| :: keys[1..][i - 1] == keys[i];
  }

  lemma InBranch(node: Node, p: seq<nat>, here: seq<seq<nat>>)
    requires p != [] && Place(node, p) && AllValid(KeysAt(node, p))
    requires ValidPath(node.pairs[p[0]].key) ==> Complete(node.pairs[p[0]].value, here, 0) && [] in here
    ensures p in Under(p[0], here)
  {
    KeysBelow(node, p);
    assert Place(node.pairs[p[0]].value, p[1..]);
    hide Place, KeysAt, AllValid, Under;
    assert p[1..] in here by {
      assert p[1..] != [] ==> p[1..][0] >= 0;
    }
    UnderHas(p[0], here, p[1..]);
    assert p == [p[0]] + p[1..];
  }

  lemma {:induction false} UnderHas(k: nat, ps: seq<seq<nat>>, q: seq<nat>)
    requires q in ps
    ensures [k] + q in Under(k, ps)
  {
    var i :| 0 <= i < |ps| && ps[i] == q;
    assert Under(k, ps)[i] == [k] + q;
  }

  lemma BranchComplete(node: Node, k: nat, here: seq<seq<nat>>, rest: seq<seq<nat>>)
    requires node.Map? && k < |node.pairs| && Complete(node, rest, k + 1)
    requires ValidPath(node.pairs[k].key) ==> Complete(node.pairs[k].value, here, 0) && [] in here
    ensures Complete(node, Under(k, here) + rest, k)
  {
    hide Under, KeysAt, AllValid, Place;
    forall p | p != [] && Place(node, p) && p[0] >= k && AllValid(KeysAt(node, p)) ensures p in Under(k, here) + rest {
      if p[0] == k {
        InBranch(node, p, here);
      }
    }
  }

  /**
   The list is the document, read from the top: the places with valid keys, all of them, each
   once, a node before everything below it and branches in order, with dotted paths.
   */
  lemma DocumentOrder(node: Node) returns (ps: seq<seq<nat>>)
    ensures |ps| == |Flatten([], node)|
    ensures forall i | 0 <= i < |ps| :: Place(node, ps[i])
    ensures forall i | 0 <= i < |ps| ::
      Flatten([], node)[i] == (Dotted(Named(KeysAt(node, ps[i]))), NodeAt(node, ps[i]))
    ensures forall i, j | 0 <= i < j < |ps| :: Before(ps[i], ps[j])
    ensures forall p | Place(node, p) && AllValid(KeysAt(node, p)) :: p in ps
  {
    ps := InOrder([], node);
    forall i | 0 <= i < |ps| ensures PathOf([], KeysAt(node, ps[i])) == Dotted(Named(KeysAt(node, ps[i]))) {
      PathIsDotted(KeysAt(node, ps[i]));
    }
    forall p | Place(node, p) && AllValid(KeysAt(node, p)) ensures p in ps {
      assert p == [] || p[0] >= 0;
    }
  }
}
