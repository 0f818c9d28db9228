/**
 Conversion of typed values to YAML and back (sylar/config.h, Lexical_cast): integers,
 sequences, sets and string-keyed maps, nested at will.
 */
module ConfigCast {
  import opened Basics
  import opened Yaml

  datatype Ty = TInt | TSeq(elem: Ty) | TSet(elem: Ty) | TMap(elem: Ty)

  datatype Val = VInt(n: int) | VSeq(elems: seq<Val>) | VSet(members: set<Val>) | VMap(entries: map<string, Val>)

  const INT_MIN := -0x8000_0000
  const INT_MAX := 0x7fff_ffff

  /** v is a value of the C++ type ty. */
  ghost predicate HasType(v: Val, ty: Ty)
    decreases ty
  {
    match ty
    case TInt => v.VInt? && INT_MIN <= v.n <= INT_MAX
    case TSeq(e) => v.VSeq? && forall x | x in v.elems :: HasType(x, e)
    case TSet(e) => v.VSet? && forall x | x in v.members :: HasType(x, e)
    case TMap(e) => v.VMap? && forall k | k in v.entries :: HasType(v.entries[k], e)
  }

  // Integers as text.

  predicate AllDigits(s: string) {
    forall i | 0 <= i < |s| :: '0' <= s[i] <= '9'
  }

  function Digits(n: nat): (s: string)
    ensures s != [] && AllDigits(s)
  {
    var last := ('0' as int + n % 10) as char;
    if n < 10 then [last] else Digits(n / 10) + [last]
  }

  function DigitsValue(s: string): nat
    requires AllDigits(s)
  {
    if s == [] then 0 else 10 * DigitsValue(s[..|s| - 1]) + (s[|s| - 1] as int - '0' as int)
  }

  function IntText(n: int): string {
    if n < 0 then "-" + Digits(-n) else Digits(n)
  }

  /** boost::lexical_cast<int>: an optional sign, at least one digit, and a value that fits. */
  function ParseInt(s: string): Option<int> {
    var body := if s != [] && (s[0] == '-' || s[0] == '+') then s[1..] else s;
    if body == [] || !AllDigits(body) then None else
    var v: int := if s[0] == '-' then 0 - DigitsValue(body) else DigitsValue(body);
    if INT_MIN <= v <= INT_MAX then Some(v) else None
  }

  lemma {:induction false} DigitsRead(n: nat)
    ensures DigitsValue(Digits(n)) == n
  {
    var s := Digits(n);
    if n < 10 {
      assert s[..0] == [];
    } else {
      assert s[..|s| - 1] == Digits(n / 10);
      DigitsRead(n / 10);
    }
  }

  lemma IntRead(n: int)
    requires INT_MIN <= n <= INT_MAX
    ensures ParseInt(IntText(n)) == Some(n)
  {
    hide Digits, DigitsValue;
    DigitsRead(if n < 0 then -n else n);
    if n < 0 {
      assert IntText(n)[1..] == Digits(-n);
    }
  }

  // Which texts convert.

  /** Reading digits from the left. */
  function Decimal(s: string, acc: nat): nat
    requires AllDigits(s)
    decreases |s|
  {
    if s == [] then acc else Decimal(s[1..], 10 * acc + (s[0] as int - '0' as int))
  }

  lemma {:induction false} DecimalLast(s: string, acc: nat)
    requires s != [] && AllDigits(s)
    ensures Decimal(s, acc) == 10 * Decimal(s[..|s| - 1], acc) + (s[|s| - 1] as int - '0' as int)
    decreases |s|
  {
    if |s| == 1 {
      assert s[1..] == [] && s[..0] == [];
    } else {
      var d := 10 * acc + (s[0] as int - '0' as int);
      DecimalLast(s[1..], d);
      assert s[1..][..|s| - 2] == s[..|s| - 1][1..];
    }
  }

  lemma {:induction false} ValueIsDecimal(s: string)
    requires AllDigits(s)
    ensures DigitsValue(s) == Decimal(s, 0)
    decreases |s|
  {
    if s != [] {
      DecimalLast(s, 0);
      ValueIsDecimal(s[..|s| - 1]);
    }
  }

  /** An optional sign and at least one digit, which read as n. */
  predicate Denotes(sign: string, body: string, n: int) {
    && (sign == "" || sign == "+" || sign == "-") && body != [] && AllDigits(body)
    && n == if sign == "-" then 0 - Decimal(body, 0) else Decimal(body, 0)
  }

  /**
   A text converts to n exactly when it is an optional sign and at least one digit, read as a
   decimal number that fits into 32 bits. All other texts are refused.
   */
  lemma ParsesIff(t: string, n: int)
    ensures ParseInt(t) == Some(n) <==>
      INT_MIN <= n <= INT_MAX && exists sign, body :: t == sign + body && Denotes(sign, body, n)
  {
    if ParseInt(t) == Some(n) {
      var sign, body := Parsed(t, n);
    }
    if sign, body :| t == sign + body && Denotes(sign, body, n) {
      ValueIsDecimal(body);
      SignApart(sign, body);
    }
  }

  lemma Parsed(t: string, n: int) returns (sign: string, body: string)
    requires ParseInt(t) == Some(n)
    ensures t == sign + body && Denotes(sign, body, n)
  {
    var signed := t != [] && (t[0] == '-' || t[0] == '+');
    sign, body := if signed then t[..1] else "", if signed then t[1..] else t;
    ValueIsDecimal(body);
    assert signed ==> sign == [t[0]];
  }

  lemma SignApart(sign: string, body: string)
    requires (sign == "" || sign == "+" || sign == "-") && body != [] && AllDigits(body)
    ensures var t := sign + body;
      && (t[0] == '-' || t[0] == '+' <==> sign != "") && (t[0] == '-' <==> sign == "-")
      && (if sign != "" then t[1..] else t) == body
  {
  }

  /** No needless character: no plus sign, no leading zero, no minus before zero. */
  predicate Shortest(t: string) {
    var body := if t != [] && t[0] == '-' then t[1..] else t;
    body != [] && AllDigits(body) && (body[0] == '0' ==> t == "0")
  }

  lemma {:induction false} DigitsOf(s: string)
    requires s != [] && AllDigits(s) && (s[0] == '0' ==> s == "0")
    ensures Digits(DigitsValue(s)) == s && (s != "0" ==> DigitsValue(s) > 0)
    decreases |s|
  {
    var p, d := s[..|s| - 1], s[|s| - 1] as int - '0' as int;
    if p == [] {
      assert s == [s[0]];
    } else {
      assert p[0] == s[0];
      DigitsOf(p);
      assert DigitsValue(s) / 10 == DigitsValue(p) && DigitsValue(s) % 10 == d;
      assert s == p + [s[|s| - 1]];
    }
  }

  lemma {:induction false} DigitsShortest(n: nat)
    ensures Digits(n)[0] == '0' ==> n == 0
  {
    if n >= 10 {
      DigitsShortest(n / 10);
    }
  }

  /** What is written for an integer: the one shortest text that converts to it. */
  lemma IntTextIff(t: string, n: int)
    requires INT_MIN <= n <= INT_MAX
    ensures t == IntText(n) <==> ParseInt(t) == Some(n) && Shortest(t)
  {
    hide Digits, DigitsValue;
    IntRead(n);
    var m := if n < 0 then -n else n;
    DigitsShortest(m);
    Zero();
    assert n < 0 ==> IntText(n)[1..] == Digits(m);
    assert Shortest(IntText(n));
    if ParseInt(t) == Some(n) && Shortest(t) {
      if t[0] == '-' {
        DigitsOf(t[1..]);
        assert t == "-" + t[1..];
      } else {
        DigitsOf(t);
      }
    }
  }

  lemma Zero()
    ensures Digits(0) == "0" && DigitsValue("0") == 0
  {
    assert "0"[..0] == [];
  }

  // From YAML.

  function Members(vs: seq<Val>): (s: set<Val>)
    ensures forall v :: v in s <==> v in vs
  {
    set v | v in vs
  }

  function Decode(ty: Ty, node: Node): Option<Val>
    decreases ty, 1, 0
  {
    match ty
    case TInt => (
      if !node.Scalar? then None else
      match ParseInt(node.text)
      case Some(n) => Some(VInt(n))
      case None => None)
    case TSeq(e) => (
      match Elements(e, node)
      case Some(vs) => Some(VSeq(vs))
      case None => None)
    case TSet(e) => (
      match Elements(e, node)
      case Some(vs) => Some(VSet(Members(vs)))
      case None => None)
    case TMap(e) => Entries(e, if node.Map? then node.pairs else [], node)
  }

  /** The children of a sequence, converted; a scalar has none. */
  function Elements(e: Ty, node: Node): Option<seq<Val>>
    decreases e, 2, 0
  {
    match node
    case Scalar(_) => Some([])
    case Sequence(items) => DecodeAll(e, items)
    case Map(pairs) => if pairs == [] then Some([]) else None
  }

  function DecodeAll(e: Ty, nodes: seq<Node>): Option<seq<Val>>
    decreases e, 1, |nodes| + 1
  {
    if nodes == [] then Some([]) else
    match (Decode(e, nodes[0]), DecodeAll(e, nodes[1..]))
    case (Some(v), Some(vs)) => Some([v] + vs)
    case _ => None
  }

  /** The pairs of a map, converted; the first of several equal keys is kept. */
  function Entries(e: Ty, pairs: seq<Pair>, node: Node): Option<Val>
    decreases e, 2, 0
  {
    if node.Sequence? && node.items != [] then None else
    match DecodePairs(e, pairs)
    case Some(m) => Some(VMap(m))
    case None => None
  }

  function DecodePairs(e: Ty, pairs: seq<Pair>): Option<map<string, Val>>
    decreases e, 1, |pairs| + 1
  {
    if pairs == [] then Some(map[]) else
    match (Decode(e, pairs[0].value), DecodePairs(e, pairs[1..]))
    case (Some(v), Some(m)) => Some(m[pairs[0].key := v])
    case _ => None
  }

  // To YAML. The containers may be unordered, so a value has many encodings.

  ghost predicate Encodes(v: Val, node: Node)
    decreases node
  {
    match v
    case VInt(n) => node == Scalar(IntText(n))
    case VSeq(vs) =>
      node.Sequence? && |node.items| == |vs| && forall i | 0 <= i < |vs| :: Encodes(vs[i], node.items[i])
    case VSet(s) =>
      node.Sequence? && exists vs: seq<Val> ::
        |vs| == |node.items| && Members(vs) == s && forall i | 0 <= i < |vs| :: Encodes(vs[i], node.items[i])
    case VMap(m) =>
      && node.Map?
      && (forall i | 0 <= i < |node.pairs| ::
          node.pairs[i].key in m && Encodes(m[node.pairs[i].key], node.pairs[i].value))
      && (forall i, j | 0 <= i < j < |node.pairs| :: node.pairs[i].key != node.pairs[j].key)
      && (forall k | k in m :: exists i :: 0 <= i < |node.pairs| && node.pairs[i].key == k)
  }

  lemma {:induction false} AllRead(e: Ty, vs: seq<Val>, nodes: seq<Node>)
    requires |vs| == |nodes| && forall i | 0 <= i < |vs| :: Decode(e, nodes[i]) == Some(vs[i])
    ensures DecodeAll(e, nodes) == Some(vs)
    decreases |vs|
  {
    if vs != [] {
      AllRead(e, vs[1..], nodes[1..]);
      assert vs == [vs[0]] + vs[1..];
    }
  }

  lemma {:induction false} PairsRead(e: Ty, m: map<string, Val>, pairs: seq<Pair>)
    requires forall i | 0 <= i < |pairs| :: pairs[i].key in m && Decode(e, pairs[i].value) == Some(m[pairs[i].key])
    ensures DecodePairs(e, pairs).Some?
    ensures var r := DecodePairs(e, pairs).value;
      && (forall k | k in r :: k in m && r[k] == m[k])
      && (forall i | 0 <= i < |pairs| :: pairs[i].key in r)
    decreases |pairs|
  {
    if pairs != [] {
      PairsRead(e, m, pairs[1..]);
      assert forall i | 0 < i < |pairs| :: pairs[i] == pairs[1..][i - 1];
    }
  }

  /** Converting a value to YAML, in any container order, and back gives the value. */
  lemma {:induction false} RoundTrip(v: Val, ty: Ty, node: Node)
    requires HasType(v, ty) && Encodes(v, node)
    ensures Decode(ty, node) == Some(v)
    decreases ty
  {
    match ty
    case TInt => IntRead(v.n);
    case TSeq(e) =>
      forall i | 0 <= i < |v.elems| ensures Decode(e, node.items[i]) == Some(v.elems[i]) {
        RoundTrip(v.elems[i], e, node.items[i]);
      }
      AllRead(e, v.elems, node.items);
    case TSet(e) =>
      var vs: seq<Val> :| |vs| == |node.items| && Members(vs) == v.members
        && forall i | 0 <= i < |vs| :: Encodes(vs[i], node.items[i]);
      forall i | 0 <= i < |vs| ensures Decode(e, node.items[i]) == Some(vs[i]) {
        assert vs[i] in v.members;
        RoundTrip(vs[i], e, node.items[i]);
      }
      AllRead(e, vs, node.items);
    case TMap(e) =>
      forall i | 0 <= i < |node.pairs| ensures Decode(e, node.pairs[i].value) == Some(v.entries[node.pairs[i].key]) {
        RoundTrip(v.entries[node.pairs[i].key], e, node.pairs[i].value);
      }
      PairsRead(e, v.entries, node.pairs);
      assert DecodePairs(e, node.pairs).value == v.entries;
  }

  /** Of several equal keys the first is kept, and every pair must convert. */
  lemma {:induction false} FirstKeyIsKept(e: Ty, pairs: seq<Pair>, i: nat)
    requires DecodePairs(e, pairs).Some? && i < |pairs| && forall j | 0 <= j < i :: pairs[j].key != pairs[i].key
    ensures pairs[i].key in DecodePairs(e, pairs).value
    ensures Decode(e, pairs[i].value) == Some(DecodePairs(e, pairs).value[pairs[i].key])
    decreases |pairs|
  {
    if i > 0 {
      assert pairs[0].key != pairs[i].key;
      assert forall j | 0 <= j < i - 1 :: pairs[1..][j] == pairs[j + 1];
      FirstKeyIsKept(e, pairs[1..], i - 1);
    }
  }

  /** A sequence converts exactly when all its elements do, each to its own place. */
  lemma {:induction false} AllOrNothing(e: Ty, nodes: seq<Node>)
    ensures DecodeAll(e, nodes).Some? <==> forall i | 0 <= i < |nodes| :: Decode(e, nodes[i]).Some?
    ensures DecodeAll(e, nodes).Some? ==>
      && |DecodeAll(e, nodes).value| == |nodes|
      && forall i | 0 <= i < |nodes| :: Decode(e, nodes[i]) == Some(DecodeAll(e, nodes).value[i])
    decreases |nodes|
  {
    if nodes != [] {
      AllOrNothing(e, nodes[1..]);
      assert forall i | 0 < i < |nodes| :: nodes[i] == nodes[1..][i - 1];
      assert forall i | 0 <= i < |nodes| - 1 :: nodes[1..][i] == nodes[i + 1];
    }
  }

  lemma {:induction false} AllPairsOrNothing(e: Ty, pairs: seq<Pair>)
    ensures DecodePairs(e, pairs).Some? <==> forall i | 0 <= i < |pairs| :: Decode(e, pairs[i].value).Some?
    decreases |pairs|
  {
    if pairs != [] {
      AllPairsOrNothing(e, pairs[1..]);
      assert forall i | 0 < i < |pairs| :: pairs[i] == pairs[1..][i - 1];
      assert forall i | 0 <= i < |pairs| - 1 :: pairs[1..][i] == pairs[i + 1];
    }
  }

  /** Nodes of another shape: a scalar is an empty container, a container is no integer. */
  lemma OtherShapes(e: Ty, text: string, items: seq<Node>, pairs: seq<Pair>)
    ensures Decode(TSeq(e), Scalar(text)) == Some(VSeq([])) && Decode(TSet(e), Scalar(text)) == Some(VSet({}))
    ensures Decode(TMap(e), Scalar(text)) == Some(VMap(map[]))
    ensures items != [] ==> Decode(TMap(e), Sequence(items)) == None
    ensures pairs != [] ==> Decode(TSeq(e), Yaml.Map(pairs)) == Decode(TSet(e), Yaml.Map(pairs)) == None
    ensures Decode(TInt, Sequence(items)) == Decode(TInt, Yaml.Map(pairs)) == None
  {
    assert Members([]) == {};
    assert Elements(e, Scalar(text)) == Some([]);
    assert DecodePairs(e, []) == Some(map[]);
    assert Entries(e, [], Scalar(text)) == Some(VMap(map[]));
    assert Decode(TMap(e), Scalar(text)) == Entries(e, [], Scalar(text));
    assert Decode(TSet(e), Scalar(text)) == Some(VSet(Members([])));
  }

  // The loops of the four casts.

  lemma {:induction false} DecodeAllSplit(e: Ty, a: seq<Node>, n: Node)
    ensures DecodeAll(e, a + [n]) == match (DecodeAll(e, a), Decode(e, n))
      case (Some(vs), Some(v)) => Some(vs + [v])
      case _ => None
    decreases |a|
  {
    if a == [] {
      assert a + [n] == [n] && [n][1..] == [];
      assert Decode(e, n).Some? ==> [Decode(e, n).value] + [] == [] + [Decode(e, n).value];
    } else {
      assert (a + [n])[1..] == a[1..] + [n] && (a + [n])[0] == a[0];
      DecodeAllSplit(e, a[1..], n);
      if DecodeAll(e, a).Some? && Decode(e, n).Some? {
        var v, vs, w := Decode(e, a[0]).value, DecodeAll(e, a[1..]).value, Decode(e, n).value;
        assert [v] + (vs + [w]) == ([v] + vs) + [w];
      }
    }
  }

  lemma {:induction false} DecodePairsSplit(e: Ty, a: seq<Pair>, p: Pair)
    ensures DecodePairs(e, a + [p]) == match (DecodePairs(e, a), Decode(e, p.value))
      case (Some(m), Some(v)) => Some(if p.key in m then m else m[p.key := v])
      case _ => None
    decreases |a|
  {
    if a == [] {
      assert a + [p] == [p] && [p][1..] == [];
    } else {
      assert (a + [p])[1..] == a[1..] + [p] && (a + [p])[0] == a[0];
      DecodePairsSplit(e, a[1..], p);
      if DecodePairs(e, a).Some? && Decode(e, p.value).Some? {
        var m, k, v := DecodePairs(e, a[1..]).value, a[0].key, Decode(e, a[0].value).value;
        var w := Decode(e, p.value).value;
        assert (if p.key in m then m else m[p.key := w])[k := v] ==
          if p.key in m[k := v] then m[k := v] else m[k := v][p.key := w];
      }
    }
  }

  lemma {:induction false} DecodeAllPrefix(e: Ty, a: seq<Node>, b: seq<Node>)
    requires DecodeAll(e, a).None?
    ensures DecodeAll(e, a + b).None?
    decreases |a|
  {
    assert (a + b)[1..] == a[1..] + b;
    if DecodeAll(e, a[1..]).None? {
      DecodeAllPrefix(e, a[1..], b);
    }
  }

  lemma {:induction false} DecodePairsPrefix(e: Ty, a: seq<Pair>, b: seq<Pair>)
    requires DecodePairs(e, a).None?
    ensures DecodePairs(e, a + b).None?
    decreases |a|
  {
    assert (a + b)[1..] == a[1..] + b;
    if DecodePairs(e, a[1..]).None? {
      DecodePairsPrefix(e, a[1..], b);
    }
  }

  method FromString(ty: Ty, node: Node) returns (r: Option<Val>)
    ensures r == Decode(ty, node)
    decreases ty, 1
  {
    match ty
    case TInt => r := Decode(ty, node);
    case TSeq(e) =>
      var vs := FromElements(e, node);
      r := if vs.Some? then Some(VSeq(vs.value)) else None;
    case TSet(e) =>
      var vs := FromElements(e, node);
      r := if vs.Some? then Some(VSet(Members(vs.value))) else None;
    case TMap(e) =>
      if node.Sequence? && node.items != [] {
        return None;
      }
      var pairs := if node.Map? then node.pairs else [];
      var container: map<string, Val> := map[];
      var i := 0;
      while i < |pairs|
        invariant i <= |pairs| && DecodePairs(e, pairs[..i]) == Some(container)
      {
        var v := FromString(e, pairs[i].value);
        assert pairs[..i + 1] == pairs[..i] + [pairs[i]];
        DecodePairsSplit(e, pairs[..i], pairs[i]);
        if v.None? {
          assert pairs == pairs[..i + 1] + pairs[i + 1..];
          DecodePairsPrefix(e, pairs[..i + 1], pairs[i + 1..]);
          return None;
        }
        if pairs[i].key !in container {
          container := container[pairs[i].key := v.value];
        }
        i := i + 1;
      }
      assert pairs[..i] == pairs;
      r := Some(VMap(container));
  }

  method FromElements(e: Ty, node: Node) returns (r: Option<seq<Val>>)
    ensures r == Elements(e, node)
    decreases e, 2
  {
    if node.Map? && node.pairs != [] {
      return None;
    }
    var items := if node.Sequence? then node.items else [];
    var container: seq<Val> := [];
    var i := 0;
    while i < |items|
      invariant i <= |items| && DecodeAll(e, items[..i]) == Some(container)
    {
      var v := FromString(e, items[i]);
      assert items[..i + 1] == items[..i] + [items[i]];
      DecodeAllSplit(e, items[..i], items[i]);
      if v.None? {
        assert items == items[..i + 1] + items[i + 1..];
        DecodeAllPrefix(e, items[..i + 1], items[i + 1..]);
        return None;
      }
      container := container + [v.value];
      i := i + 1;
    }
    assert items[..i] == items;
    r := Some(container);
  }

  method ToYaml(v: Val, ghost ty: Ty) returns (node: Node)
    requires HasType(v, ty)
    ensures Encodes(v, node)
    decreases ty, 1
  {
    match v
    case VInt(n) => node := Scalar(IntText(n));
    case VSeq(vs) =>
      var items: seq<Node> := [];
      while |items| < |vs|
        invariant |items| <= |vs| && forall i | 0 <= i < |items| :: Encodes(vs[i], items[i])
        decreases |vs| - |items|
      {
        var item := ToYaml(vs[|items|], ty.elem);
        items := items + [item];
      }
      node := Sequence(items);
    case VSet(s) => node := SetToYaml(s, ty.elem);
    case VMap(m) => node := MapToYaml(m, ty.elem);
  }

  /** The members in whatever order the container has. */
  method SetToYaml(s: set<Val>, ghost e: Ty) returns (node: Node)
    requires HasType(VSet(s), TSet(e))
    ensures Encodes(VSet(s), node)
    decreases e, 2
  {
    assert forall x | x in s :: HasType(x, e);
    hide *;
    var items: seq<Node> := [];
    ghost var vs: seq<Val> := [];
    var rest := s;
    NothingEncoded();
    while rest != {}
      invariant rest <= s && s == rest + Members(vs) && AllEncode(vs, items)
      decreases |rest|
    {
      var x :| x in rest;
      var item := ToYaml(x, e);
      AppendEncoded(vs, items, x, item);
      items, vs, rest := items + [item], vs + [x], rest - {x};
    }
    node := Sequence(items);
    SetEncoded(s, vs, items);
  }

  ghost predicate AllEncode(vs: seq<Val>, items: seq<Node>) {
    |vs| == |items| && forall i | 0 <= i < |vs| :: Encodes(vs[i], items[i])
  }

  lemma NothingEncoded()
    ensures AllEncode([], []) && Members([]) == {}
  {
  }

  lemma AppendEncoded(vs: seq<Val>, items: seq<Node>, x: Val, item: Node)
    requires AllEncode(vs, items) && Encodes(x, item)
    ensures AllEncode(vs + [x], items + [item]) && Members(vs + [x]) == Members(vs) + {x}
  {
    hide Encodes;
  }

  lemma SetEncoded(s: set<Val>, vs: seq<Val>, items: seq<Node>)
    requires AllEncode(vs, items) && Members(vs) == s
    ensures Encodes(VSet(s), Sequence(items))
  {
  }

  lemma MapEncoded(m: map<string, Val>, pairs: seq<Pair>)
    requires forall i | 0 <= i < |pairs| :: pairs[i].key in m && Encodes(m[pairs[i].key], pairs[i].value)
    requires forall i, j | 0 <= i < j < |pairs| :: pairs[i].key != pairs[j].key
    requires forall k | k in m :: exists i :: 0 <= i < |pairs| && pairs[i].key == k
    ensures Encodes(VMap(m), Yaml.Map(pairs))
  {
  }

  method MapToYaml(m: map<string, Val>, ghost e: Ty) returns (node: Node)
    requires HasType(VMap(m), TMap(e))
    ensures Encodes(VMap(m), node)
    decreases e, 2
  {
    hide Encodes;
    var pairs: seq<Pair> := [];
    var rest := m.Keys;
    while rest != {}
      invariant rest <= m.Keys
      invariant forall i | 0 <= i < |pairs| ::
        pairs[i].key in m && pairs[i].key !in rest && Encodes(m[pairs[i].key], pairs[i].value)
      invariant forall i, j | 0 <= i < j < |pairs| :: pairs[i].key != pairs[j].key
      invariant forall k | k in m && k !in rest :: exists i :: 0 <= i < |pairs| && pairs[i].key == k
      decreases |rest|
    {
      var k :| k in rest;
      var item := ToYaml(m[k], e);
      ghost var prior := pairs;
      pairs, rest := pairs + [Pair(k, item)], rest - {k};
      assert pairs[|prior|].key == k && forall i | 0 <= i < |prior| :: pairs[i] == prior[i];
    }
    node := Yaml.Map(pairs);
    MapEncoded(m, pairs);
  }
}
