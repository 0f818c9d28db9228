/**
 Loading configuration variables from a YAML tree (sylar/config.cpp, sylar/config.h): the
 flattening of the tree into paths, and what each registered variable ends up with.
 */
module ConfigLoad {
  import opened Basics
  import opened Yaml

  type Entry = (string, Node)

  /** fromString of the variable of that name, and operator== of its type. */
  type Convert<V> = (string, Node) -> Option<V>
  type Equal<!V> = (string, V, V) -> bool

  /** The characters ListAllMember lets through; the list has no '9'. */
  predicate PathChar(c: char) {
    'a' <= c <= 'z' || c == '.' || c == '_' || '0' <= c <= '8'
  }

  /** The characters Config::Lookup accepts in a variable's name. */
  predicate NameChar(c: char) {
    'a' <= c <= 'z' || c == '.' || c == '_' || '0' <= c <= '9'
  }

  predicate ValidPath(s: string) {
    forall i | 0 <= i < |s| :: PathChar(s[i])
  }

  function Join(prefix: string, key: string): string {
    if prefix == [] then key else prefix + "." + key
  }

  /** Pre-order: a node comes before everything below it; an invalid path yields nothing. */
  function Flatten(prefix: string, node: Node): seq<Entry>
    decreases node, 1
  {
    if !ValidPath(prefix) then [] else
    [(prefix, node)] + if node.Map? then FlattenPairs(prefix, node.pairs) else []
  }

  function FlattenPairs(prefix: string, pairs: seq<Pair>): seq<Entry>
    decreases pairs, 0
  {
    if pairs == [] then [] else
    Flatten(Join(prefix, pairs[0].key), pairs[0].value) + FlattenPairs(prefix, pairs[1..])
  }

  // Which paths are listed.

  /** Following `keys` down from node can end at target. */
  ghost predicate Leads(node: Node, keys: seq<string>, target: Node)
    decreases |keys|
  {
    if keys == [] then node == target else
    node.Map? && exists i | 0 <= i < |node.pairs| ::
      node.pairs[i].key == keys[0] && Leads(node.pairs[i].value, keys[1..], target)
  }

  function PathOf(prefix: string, keys: seq<string>): string
    decreases |keys|
  {
    if keys == [] then prefix else PathOf(Join(prefix, keys[0]), keys[1..])
  }

  predicate AllValid(keys: seq<string>) {
    forall i | 0 <= i < |keys| :: ValidPath(keys[i])
  }

  lemma JoinValid(prefix: string, key: string)
    requires ValidPath(prefix)
    ensures ValidPath(Join(prefix, key)) <==> ValidPath(key)
  {
    var j := Join(prefix, key);
    if prefix != [] {
      assert forall i | 0 <= i < |key| :: j[|prefix| + 1 + i] == key[i];
      assert forall i | 0 <= i < |j| ::
        j[i] == if i < |prefix| then prefix[i] else if i == |prefix| then '.' else key[i - |prefix| - 1];
    }
  }

  lemma {:induction false} InPairs(prefix: string, pairs: seq<Pair>, e: Entry)
    ensures e in FlattenPairs(prefix, pairs) <==>
      exists i | 0 <= i < |pairs| :: e in Flatten(Join(prefix, pairs[i].key), pairs[i].value)
    decreases |pairs|
  {
    if pairs != [] {
      InPairs(prefix, pairs[1..], e);
      assert forall i | 0 < i < |pairs| :: pairs[i] == pairs[1..][i - 1];
      if e in FlattenPairs(prefix, pairs[1..]) {
        var i :| 0 <= i < |pairs[1..]| && e in Flatten(Join(prefix, pairs[1..][i].key), pairs[1..][i].value);
        assert pairs[i + 1] == pairs[1..][i];
      }
    }
  }

  /** Every listed entry is reached by keys that are all valid. */
  lemma {:induction false} ListedHasKeys(prefix: string, node: Node, e: Entry) returns (keys: seq<string>)
    requires e in Flatten(prefix, node)
    ensures Leads(node, keys, e.1) && PathOf(prefix, keys) == e.0 && AllValid(keys)
    decreases node
  {
    if e == (prefix, node) {
      keys := [];
    } else {
      InPairs(prefix, node.pairs, e);
      var i :| 0 <= i < |node.pairs| && e in Flatten(Join(prefix, node.pairs[i].key), node.pairs[i].value);
      var key, child := node.pairs[i].key, node.pairs[i].value;
      JoinValid(prefix, key);
      var rest := ListedHasKeys(Join(prefix, key), child, e);
      keys := [key] + rest;
      hide *;
      OneKeyMore(prefix, node, i, rest, e);
    }
  }

  lemma OneKeyMore(prefix: string, node: Node, i: nat, rest: seq<string>, e: Entry)
    requires node.Map? && i < |node.pairs| && ValidPath(node.pairs[i].key) && AllValid(rest)
    requires Leads(node.pairs[i].value, rest, e.1) && PathOf(Join(prefix, node.pairs[i].key), rest) == e.0
    ensures var keys := [node.pairs[i].key] + rest;
      Leads(node, keys, e.1) && PathOf(prefix, keys) == e.0 && AllValid(keys)
  {
    var keys := [node.pairs[i].key] + rest;
    assert keys[1..] == rest;
  }

  lemma {:induction false} KeysAreListed(prefix: string, node: Node, keys: seq<string>, target: Node)
    requires ValidPath(prefix) && Leads(node, keys, target) && AllValid(keys)
    ensures (PathOf(prefix, keys), target) in Flatten(prefix, node)
    decreases |keys|
  {
    if keys != [] {
      var i :| 0 <= i < |node.pairs| && node.pairs[i].key == keys[0] && Leads(node.pairs[i].value, keys[1..], target);
      assert ValidPath(keys[0]);
      JoinValid(prefix, keys[0]);
      KeysAreListed(Join(prefix, keys[0]), node.pairs[i].value, keys[1..], target);
      InPairs(prefix, node.pairs, (PathOf(prefix, keys), target));
    }
  }

  /**
   The flattened tree holds exactly the nodes reached through valid keys: an invalid key hides
   the subtree under it and nothing else.
   */
  lemma ListedIffKeysValid(node: Node, e: Entry)
    ensures e in Flatten([], node) <==>
      exists keys: seq<string> :: Leads(node, keys, e.1) && PathOf([], keys) == e.0 && AllValid(keys)
  {
    if e in Flatten([], node) {
      var keys := ListedHasKeys([], node, e);
    }
    if keys: seq<string> :| Leads(node, keys, e.1) && PathOf([], keys) == e.0 && AllValid(keys) {
      KeysAreListed([], node, keys, e.1);
    }
  }

  lemma {:induction false} ListedIsValid(prefix: string, node: Node, e: Entry)
    requires e in Flatten(prefix, node)
    ensures ValidPath(e.0)
    decreases node
  {
    if e != (prefix, node) {
      InPairs(prefix, node.pairs, e);
      var i :| 0 <= i < |node.pairs| && e in Flatten(Join(prefix, node.pairs[i].key), node.pairs[i].value);
      ListedIsValid(Join(prefix, node.pairs[i].key), node.pairs[i].value, e);
    }
  }

  function Lower(c: char): char {
    if 'A' <= c <= 'Z' then (c as int + 32) as char else c
  }

  function LowerAll(s: string): (r: string)
    ensures |r| == |s| && forall i | 0 <= i < |s| :: r[i] == Lower(s[i])
  {
    if s == [] then [] else [Lower(s[0])] + LowerAll(s[1..])
  }

  /** LoadFromYaml looks the variable up for this entry. */
  predicate Names(name: string, e: Entry) {
    e.0 != [] && LowerAll(e.0) == name
  }

  /**
   A name that Config::Lookup accepts can be set from some tree if and only if it is not empty
   and has no '9': the root is skipped, and the two character lists disagree.
   */
  lemma LoadableIffNoNine(name: string)
    requires forall i | 0 <= i < |name| :: NameChar(name[i])
    ensures (exists tree, e :: e in Flatten([], tree) && Names(name, e)) <==> name != [] && '9' !in name
  {
    if tree, e :| e in Flatten([], tree) && Names(name, e) {
      ListedIsValid([], tree, e);
      assert forall i | 0 <= i < |name| :: name[i] == Lower(e.0[i]) && PathChar(e.0[i]);
    }
    if name != [] && '9' !in name {
      var leaf := Scalar([]);
      var tree := Map([Pair(name, leaf)]);
      assert forall i | 0 <= i < |name| :: name[i] in name;
      assert Leads(leaf, [], leaf) && [name][1..] == [];
      assert Leads(tree, [name], leaf) by {
        assert tree.pairs[0].key == [name][0] && Leads(tree.pairs[0].value, [name][1..], leaf);
      }
      KeysAreListed([], tree, [name], leaf);
      LowerValid(name);
      assert Names(name, (name, leaf));
    }
  }

  // What loading does to the registered variables.

  /** The value that the entry has for this variable, when it names it and converts. */
  function Given<V>(convert: Convert<V>, name: string, e: Entry): Option<V> {
    if Names(name, e) then convert(name, e.1) else None
  }

  /** setValue keeps the old value when the new one compares equal to it. */
  function Put<V>(eq: Equal<V>, name: string, given: Option<V>, was: V): V {
    if given.Some? && !eq(name, given.value, was) then given.value else was
  }

  /** What the variable holds after the entries, one after the other. */
  function Stored<V>(eq: Equal<V>, convert: Convert<V>, name: string, es: seq<Entry>, was: V): V
    decreases |es|
  {
    if es == [] then was else
    Put(eq, name, Given(convert, name, es[|es| - 1]), Stored(eq, convert, name, es[..|es| - 1], was))
  }

  /** Entry i is the last one with a value for the variable. */
  ghost predicate IsLast<V>(convert: Convert<V>, name: string, es: seq<Entry>, i: int) {
    0 <= i < |es| && Given(convert, name, es[i]).Some? && forall j | i < j < |es| :: Given(convert, name, es[j]).None?
  }

  /** Entries without a value for the variable leave it alone. */
  lemma {:induction false} OthersLeaveIt<V>(
      eq: Equal<V>, convert: Convert<V>, name: string, es: seq<Entry>, i: nat, was: V)
    requires i <= |es| && forall j | i <= j < |es| :: Given(convert, name, es[j]).None?
    ensures Stored(eq, convert, name, es, was) == Stored(eq, convert, name, es[..i], was)
    decreases |es|
  {
    if i == |es| {
      assert es[..i] == es;
    } else {
      assert es[..|es| - 1][..i] == es[..i];
      OthersLeaveIt(eq, convert, name, es[..|es| - 1], i, was);
    }
  }

  /**
   The last entry with a value decides, unless its value compares equal to the one that the
   entries before it left; then that one stays. Without such an entry nothing changes.
   */
  lemma LastDecides<V>(eq: Equal<V>, convert: Convert<V>, name: string, es: seq<Entry>, was: V)
    ensures (forall i | 0 <= i < |es| :: Given(convert, name, es[i]).None?) ==>
      Stored(eq, convert, name, es, was) == was
    ensures forall i | IsLast(convert, name, es, i) ::
      Stored(eq, convert, name, es, was) ==
        Put(eq, name, Given(convert, name, es[i]), Stored(eq, convert, name, es[..i], was))
  {
    hide Given, Put;
    if forall i | 0 <= i < |es| :: Given(convert, name, es[i]).None? {
      OthersLeaveIt(eq, convert, name, es, 0, was);
    }
    forall i | IsLast(convert, name, es, i)
      ensures Stored(eq, convert, name, es, was) ==
        Put(eq, name, Given(convert, name, es[i]), Stored(eq, convert, name, es[..i], was))
    {
      OthersLeaveIt(eq, convert, name, es, i + 1, was);
      assert es[..i + 1][..i] == es[..i];
    }
  }

  /** The variable holds the last value that converts, or is unchanged when none does. */
  ghost predicate LastWins<V>(convert: Convert<V>, name: string, es: seq<Entry>, was: V, now: V) {
    && ((forall i | 0 <= i < |es| :: Given(convert, name, es[i]).None?) ==> now == was)
    && (forall i | IsLast(convert, name, es, i) :: Given(convert, name, es[i]) == Some(now))
  }

  /** For one tree: exactly when the last value that converts is the one stored. */
  lemma LastWinsIff<V>(eq: Equal<V>, convert: Convert<V>, name: string, es: seq<Entry>, was: V)
    ensures LastWins(convert, name, es, was, Stored(eq, convert, name, es, was)) <==>
      forall i | IsLast(convert, name, es, i) ::
        var v, prior := Given(convert, name, es[i]).value, Stored(eq, convert, name, es[..i], was);
        eq(name, v, prior) ==> v == prior
  {
    LastDecides(eq, convert, name, es, was);
  }

  /** The values that the entries have for the variable, in order. */
  function Values<V>(convert: Convert<V>, name: string, es: seq<Entry>): seq<V> {
    if es == [] then [] else
    Values(convert, name, es[..|es| - 1]) +
    match Given(convert, name, es[|es| - 1])
    case Some(v) => [v]
    case None => []
  }

  ghost predicate Equivalence<V(!new)>(eq: Equal<V>, name: string) {
    && (forall a: V :: eq(name, a, a))
    && (forall a: V, b: V :: eq(name, a, b) ==> eq(name, b, a))
    && (forall a: V, b: V, c: V :: eq(name, a, b) && eq(name, b, c) ==> eq(name, a, c))
  }

  /** From index k on the values compare equal to each other, and the one before k does not. */
  ghost predicate LastRun<V>(eq: Equal<V>, name: string, vs: seq<V>, k: nat) {
    && k < |vs|
    && (forall j | k <= j < |vs| :: eq(name, vs[j], vs[k]))
    && (k > 0 ==> !eq(name, vs[k - 1], vs[k]))
  }

  lemma RunGrows<V(!new)>(eq: Equal<V>, name: string, vs: seq<V>, k: nat, v: V)
    requires Equivalence(eq, name) && LastRun(eq, name, vs, k)
    ensures LastRun(eq, name, vs + [v], if eq(name, v, vs[k]) then k else |vs|)
  {
    var last := vs[|vs| - 1];
    assert eq(name, last, vs[k]);
    assert eq(name, last, v) ==> eq(name, v, last);
  }

  /**
   When operator== is an equivalence: the value held is the first of the last run of equal ones
   among the old value and the given ones. So the last given value is held exactly when it is
   identical to that one.
   */
  lemma HeldStartsLastRun<V(!new)>(
      eq: Equal<V>, convert: Convert<V>, name: string, es: seq<Entry>, was: V)
    returns (k: nat)
    requires Equivalence(eq, name)
    ensures var vs := [was] + Values(convert, name, es);
      && LastRun(eq, name, vs, k) && Stored(eq, convert, name, es, was) == vs[k]
      && (LastWins(convert, name, es, was, Stored(eq, convert, name, es, was)) <==> vs[k] == vs[|vs| - 1])
  {
    k := RunOf(eq, convert, name, es, was);
    LastOfValues(convert, name, es, was, Stored(eq, convert, name, es, was));
    hide *;
  }

  lemma {:induction false} RunOf<V(!new)>(
      eq: Equal<V>, convert: Convert<V>, name: string, es: seq<Entry>, was: V)
    returns (k: nat)
    requires Equivalence(eq, name)
    ensures var vs := [was] + Values(convert, name, es);
      LastRun(eq, name, vs, k) && Stored(eq, convert, name, es, was) == vs[k]
    decreases |es|
  {
    if es == [] {
      k := 0;
    } else {
      hide Given, Equivalence;
      var p := es[..|es| - 1];
      k := RunOf(eq, convert, name, p, was);
      var vs, g := [was] + Values(convert, name, p), Given(convert, name, es[|es| - 1]);
      if g.Some? {
        RunGrows(eq, name, vs, k, g.value);
        assert [was] + Values(convert, name, es) == vs + [g.value];
        k := if eq(name, g.value, vs[k]) then k else |vs|;
      } else {
        assert [was] + Values(convert, name, es) == vs;
      }
    }
  }

  lemma {:induction false} OthersGiveNothing<V>(
      convert: Convert<V>, name: string, es: seq<Entry>, i: nat)
    requires i <= |es| && forall j | i <= j < |es| :: Given(convert, name, es[j]).None?
    ensures Values(convert, name, es) == Values(convert, name, es[..i])
    decreases |es|
  {
    if i == |es| {
      assert es[..i] == es;
    } else {
      assert es[..|es| - 1][..i] == es[..i];
      OthersGiveNothing(convert, name, es[..|es| - 1], i);
    }
  }

  lemma {:induction false} FindLast<V>(convert: Convert<V>, name: string, es: seq<Entry>)
      returns (i: int)
    ensures IsLast(convert, name, es, i) || forall j | 0 <= j < |es| :: Given(convert, name, es[j]).None?
    decreases |es|
  {
    i := |es| - 1;
    if es != [] && Given(convert, name, es[i]).None? {
      i := FindLast(convert, name, es[..i]);
    }
  }

  /** The last value is that of the last entry with a value, or the old one when there is none. */
  lemma LastOfValues<V>(convert: Convert<V>, name: string, es: seq<Entry>, was: V, now: V)
    ensures var vs := [was] + Values(convert, name, es);
      LastWins(convert, name, es, was, now) <==> now == vs[|vs| - 1]
  {
    hide Given;
    var i := FindLast(convert, name, es);
    if IsLast(convert, name, es, i) {
      OthersGiveNothing(convert, name, es, i + 1);
      assert Values(convert, name, es[..i + 1]) ==
        Values(convert, name, es[..i]) + [Given(convert, name, es[i]).value] by {
        assert es[..i + 1][..i] == es[..i];
      }
    } else {
      OthersGiveNothing(convert, name, es, 0);
    }
  }

  /** operator== tells every value that can be loaded from every other value. */
  ghost predicate Discerning<V(!new)>(eq: Equal<V>, convert: Convert<V>, name: string) {
    forall node, was: V ::
      convert(name, node).Some? && eq(name, convert(name, node).value, was)
      ==> convert(name, node).value == was
  }

  /**
   For all trees: the last value that converts is always the one stored if and only if the
   operator== of the variable's type is discerning, which that of the logger definitions is not.
   */
  lemma LastAlwaysWinsIff<V(!new)>(eq: Equal<V>, convert: Convert<V>, name: string)
    requires name != [] && ValidPath(name)
    ensures (forall tree, was: V ::
      LastWins(convert, name, Flatten([], tree), was, Stored(eq, convert, name, Flatten([], tree), was)))
      <==> Discerning(eq, convert, name)
  {
    if Discerning(eq, convert, name) {
      forall tree, was: V
        ensures LastWins(convert, name, Flatten([], tree), was, Stored(eq, convert, name, Flatten([], tree), was)) {
        LastWinsIff(eq, convert, name, Flatten([], tree), was);
      }
    } else {
      var node, was: V :|
        convert(name, node).Some? && eq(name, convert(name, node).value, was) && convert(name, node).value != was;
      LastLoses(eq, convert, name, node, was);
    }
  }

  lemma LastLoses<V>(eq: Equal<V>, convert: Convert<V>, name: string, node: Node, was: V)
    requires name != [] && ValidPath(name)
    requires convert(name, node).Some? && eq(name, convert(name, node).value, was) && convert(name, node).value != was
    ensures var es := Flatten([], Map([Pair(name, node)]));
      !LastWins(convert, name, es, was, Stored(eq, convert, name, es, was))
  {
    var tree := Map([Pair(name, node)]);
    var es := Flatten([], tree);
    OnePair(name, node);
    forall j | 1 < j < |es| ensures Given(convert, name, es[j]).None? {
      ListedIsLonger(name, node, j - 1);
    }
    assert es[1] == (name, node);
    LowerValid(name);
    assert IsLast(convert, name, es, 1);
    assert Stored(eq, convert, name, es[..1], was) == was by {
      assert es[..1][0] == ([], tree) && es[..1][..0] == [];
    }
    LastDecides(eq, convert, name, es, was);
  }

  lemma OnePair(name: string, node: Node)
    ensures Flatten([], Map([Pair(name, node)])) == [([], Map([Pair(name, node)]))] + Flatten(name, node)
  {
    var pairs := [Pair(name, node)];
    assert FlattenPairs([], pairs) == Flatten(name, node) + FlattenPairs([], pairs[1..]);
    assert FlattenPairs([], pairs[1..]) == [];
  }

  lemma LowerValid(name: string)
    requires ValidPath(name)
    ensures LowerAll(name) == name
  {
  }

  /** Everything below a node has a longer path. */
  lemma ListedIsLonger(prefix: string, node: Node, j: nat)
    requires prefix != [] && 0 < j < |Flatten(prefix, node)|
    ensures |Flatten(prefix, node)[j].0| > |prefix|
  {
    var e := Flatten(prefix, node)[j];
    assert e == FlattenPairs(prefix, node.pairs)[j - 1];
    InPairs(prefix, node.pairs, e);
    var i :| 0 <= i < |node.pairs| && e in Flatten(Join(prefix, node.pairs[i].key), node.pairs[i].value);
    ListedIsNoShorter(Join(prefix, node.pairs[i].key), node.pairs[i].value, e);
  }

  lemma {:induction false} ListedIsNoShorter(prefix: string, node: Node, e: Entry)
    requires e in Flatten(prefix, node)
    ensures |e.0| >= |prefix|
    decreases node
  {
    if e != (prefix, node) {
      InPairs(prefix, node.pairs, e);
      var i :| 0 <= i < |node.pairs| && e in Flatten(Join(prefix, node.pairs[i].key), node.pairs[i].value);
      ListedIsNoShorter(Join(prefix, node.pairs[i].key), node.pairs[i].value, e);
    }
  }

  lemma PairsStep(prefix: string, pairs: seq<Pair>, i: nat, out: seq<Entry>)
    requires i < |pairs|
    ensures out + FlattenPairs(prefix, pairs[i..]) ==
            out + Flatten(Join(prefix, pairs[i].key), pairs[i].value) + FlattenPairs(prefix, pairs[i + 1..])
  {
    assert pairs[i..][1..] == pairs[i + 1..];
  }

  lemma Regroup(a: seq<Entry>, e: Entry, b: seq<Entry>)
    ensures (a + [e]) + b == a + ([e] + b)
  {
  }

  lemma FlattenMap(prefix: string, node: Node)
    requires ValidPath(prefix)
    ensures Flatten(prefix, node) == [(prefix, node)] + if node.Map? then FlattenPairs(prefix, node.pairs) else []
    ensures FlattenPairs(prefix, []) == []
  {
  }

  /**
   The variables and their values; `convert` is fromString of the variable of that name, and
   `eq` the operator== of its type.
   */
  class Config<V> {
    var datas: map<string, V>
    const convert: Convert<V>
    const eq: Equal<V>

    constructor (datas: map<string, V>, convert: Convert<V>, eq: Equal<V>)
      ensures this.datas == datas && this.convert == convert && this.eq == eq
    {
      this.datas, this.convert, this.eq := datas, convert, eq;
    }

    method ListAllMember(prefix: string, node: Node, output: seq<Entry>) returns (out: seq<Entry>)
      ensures out == output + Flatten(prefix, node)
      decreases node
    {
      if !ValidPath(prefix) {
        return output;
      }
      hide Flatten, FlattenPairs;
      FlattenMap(prefix, node);
      out := output + [(prefix, node)];
      if node.Map? {
        Regroup(output, (prefix, node), FlattenPairs(prefix, node.pairs));
        var i := 0;
        assert node.pairs[0..] == node.pairs;
        while i < |node.pairs|
          invariant i <= |node.pairs|
          invariant out + FlattenPairs(prefix, node.pairs[i..]) == output + Flatten(prefix, node)
        {
          var key := node.pairs[i].key;
          PairsStep(prefix, node.pairs, i, out);
          out := ListAllMember(Join(prefix, key), node.pairs[i].value, out);
          i := i + 1;
        }
        assert node.pairs[i..] == [];
      }
    }

    /**
     Each registered variable takes the entries that name it and convert, one after the other;
     no variable is created or removed.
     */
    method LoadFromYaml(node: Node)
      modifies this
      ensures datas.Keys == old(datas).Keys
      ensures forall name | name in datas ::
        datas[name] == Stored(eq, convert, name, Flatten([], node), old(datas)[name])
    {
      hide Stored, Put, Given;
      var all := ListAllMember([], node, []);
      assert all == Flatten([], node);
      var k := 0;
      StoredNone(eq, convert, datas);
      while k < |all|
        invariant k <= |all| && datas == StoredAll(eq, convert, all[..k], old(datas))
      {
        assert all[..k + 1] == all[..k] + [all[k]];
        StoredStep(eq, convert, all[..k], all[k], old(datas));
        Assign(all[k]);
        k := k + 1;
      }
      assert all[..k] == all;
    }

    /** What one entry does: fromString and then setValue of the variable it names, if any. */
    method Assign(e: Entry)
      modifies this
      ensures datas == map name | name in old(datas) :: Put(eq, name, Given(convert, name, e), old(datas)[name])
    {
      var key := LowerAll(e.0);
      if e.0 != [] && key in datas {
        var v := convert(key, e.1);
        if v.Some? && !eq(key, v.value, datas[key]) {
          datas := datas[key := v.value];
        }
      }
    }
  }

  /** What all the variables hold. */
  function StoredAll<V>(eq: Equal<V>, convert: Convert<V>, es: seq<Entry>, was: map<string, V>): map<string, V> {
    map name | name in was :: Stored(eq, convert, name, es, was[name])
  }

  lemma StoredNone<V>(eq: Equal<V>, convert: Convert<V>, was: map<string, V>)
    ensures StoredAll(eq, convert, [], was) == was
  {
  }

  lemma StoredStep<V>(eq: Equal<V>, convert: Convert<V>, es: seq<Entry>, e: Entry, was: map<string, V>)
    ensures var now := StoredAll(eq, convert, es, was);
      StoredAll(eq, convert, es + [e], was) ==
        map name | name in now :: Put(eq, name, Given(convert, name, e), now[name])
  {
    assert (es + [e])[..|es|] == es;
  }
}
