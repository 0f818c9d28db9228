/**
 The log pattern compiler (sylar/log.cpp, LogFormatter::init): a grammar for patterns, a
 printer, the scanner that the code runs, and what ties the three together.
 */
module LogPattern {
  /** What a pattern consists of. PatternError is the literal "<<pattern_error>>". */
  datatype Piece = Lit(text: string) | Hole(name: string, fmt: string) | PatternError

  predicate IsAlpha(c: char) {
    'a' <= c <= 'z' || 'A' <= c <= 'Z'
  }

  /** A character that the name loop does not stop at; a '}' outside a format is one of them. */
  predicate NameChar(c: char) {
    IsAlpha(c) || c == '}'
  }

  /** The longest prefix of s made of name characters. */
  function Name(s: string): (n: string)
    ensures n <= s && (forall i | 0 <= i < |n| :: NameChar(n[i]))
    ensures |n| < |s| ==> !NameChar(s[|n|])
  {
    if s == [] || !NameChar(s[0]) then [] else
    var n := Name(s[1..]);
    assert s == [s[0]] + s[1..];
    [s[0]] + n
  }

  /** The position of the first '}', or the length. */
  function Close(s: string): (k: nat)
    ensures k <= |s| && (forall i | 0 <= i < k :: s[i] != '}')
    ensures k < |s| ==> s[k] == '}'
  {
    if s == [] || s[0] == '}' then 0 else 1 + Close(s[1..])
  }

  function Flush(pending: string): seq<Piece> {
    if pending == [] then [] else [Lit(pending)]
  }

  /** What follows a '%' that is not doubled: a placeholder of so many characters, or a '{' never closed. */
  datatype Directive = Found(name: string, fmt: string, used: nat) | Unclosed

  /** The longest name, then a format if a brace follows. */
  function Read(t: string): (d: Directive)
    ensures d.Found? ==> d.used <= |t|
  {
    var name := Name(t);
    var rest := t[|name|..];
    if rest == [] || rest[0] != '{' then Found(name, [], |name|) else
    var k := Close(rest[1..]);
    if k < |rest| - 1 then Found(name, rest[1..][..k], |name| + k + 2) else Unclosed
  }

  lemma NameIs(t: string, k: nat)
    requires k <= |t| && (forall j | 0 <= j < k :: NameChar(t[j])) && (k < |t| ==> !NameChar(t[k]))
    ensures Name(t) == t[..k]
  {
    var n := Name(t);
    assert n == t[..|n|];
  }

  lemma CloseIs(t: string, k: nat)
    requires k <= |t| && (forall j | 0 <= j < k :: t[j] != '}') && (k < |t| ==> t[k] == '}')
    ensures Close(t) == k
  {
  }

  lemma ReadPlain(t: string, k: nat)
    requires k <= |t| && (forall j | 0 <= j < k :: NameChar(t[j])) && (k < |t| ==> !NameChar(t[k]) && t[k] != '{')
    ensures Read(t) == Found(t[..k], [], k)
  {
    NameIs(t, k);
  }

  lemma ReadBraced(t: string, b: nat, k: nat)
    requires b < k <= |t| && (forall j | 0 <= j < b :: NameChar(t[j])) && t[b] == '{'
    requires (forall j | b < j < k :: t[j] != '}') && (k < |t| ==> t[k] == '}')
    ensures Read(t) == if k < |t| then Found(t[..b], t[b + 1..k], k + 1) else Unclosed
  {
    NameIs(t, b);
    var u := t[b..][1..];
    assert u == t[b + 1..];
    CloseIs(u, k - b - 1);
    if k < |t| {
      assert u[..k - b - 1] == t[b + 1..k];
    }
  }

  /**
   The grammar. `pending` is literal text not yet emitted. After '%' comes either another '%' or
   a directive; an unclosed brace emits an error piece at once, keeps the pending text and goes
   on right after the '%'.
   */
  function Parse(s: string, pending: string): seq<Piece>
    decreases |s|
  {
    if s == [] then Flush(pending)
    else if s[0] != '%' then Parse(s[1..], pending + [s[0]])
    else if |s| > 1 && s[1] == '%' then Parse(s[2..], pending + "%")
    else
      match Read(s[1..])
      case Found(name, fmt, used) => Flush(pending) + [Hole(name, fmt)] + Parse(s[1 + used..], [])
      case Unclosed => [PatternError] + Parse(s[1..], pending)
  }

  lemma ParseDirective(s: string, pending: string)
    requires s != [] && s[0] == '%' && (|s| > 1 ==> s[1] != '%')
    ensures match Read(s[1..])
      case Found(name, fmt, used) =>
        Parse(s, pending) == Flush(pending) + [Hole(name, fmt)] + Parse(s[1 + used..], [])
      case Unclosed => Parse(s, pending) == [PatternError] + Parse(s[1..], pending)
  {
  }

  lemma ParseChar(s: string, pending: string)
    requires s != []
    ensures s[0] != '%' ==> Parse(s, pending) == Parse(s[1..], pending + [s[0]])
    ensures |s| > 1 && s[0] == '%' && s[1] == '%' ==> Parse(s, pending) == Parse(s[2..], pending + "%")
  {
  }

  // Printing.

  function PrintText(t: string): string {
    if t == [] then [] else (if t[0] == '%' then "%%" else [t[0]]) + PrintText(t[1..])
  }

  function PrintPiece(p: Piece): string {
    match p
    case Lit(t) => PrintText(t)
    case Hole(name, fmt) => "%" + name + "{" + fmt + "}"
    case PatternError => []
  }

  function Print(ps: seq<Piece>): string {
    if ps == [] then [] else PrintPiece(ps[0]) + Print(ps[1..])
  }

  predicate GoodPiece(p: Piece) {
    match p
    case Lit(t) => t != []
    case Hole(name, fmt) =>
      '}' !in fmt && forall i | 0 <= i < |name| :: 'a' <= name[i] <= 'z' || 'A' <= name[i] <= 'Z' || name[i] == '}'
    case PatternError => false
  }

  /** Non-empty literals, no two of them adjacent, names and formats that can be written. */
  predicate Canonical(ps: seq<Piece>) {
    && (forall i | 0 <= i < |ps| :: GoodPiece(ps[i]))
    && (forall i | 0 <= i < |ps| - 1 :: ps[i].Lit? ==> !ps[i + 1].Lit?)
  }

  lemma Shift(a: string, t: string)
    requires t != []
    ensures a + t == a + [t[0]] + t[1..]
  {
  }

  lemma TextHead(t: string, s: string)
    requires t != []
    ensures PrintText(t) + s == (if t[0] == '%' then "%%" else [t[0]]) + (PrintText(t[1..]) + s)
  {
  }

  /** Literal text is read back onto the pending text. */
  lemma {:induction false} ParseText(t: string, s: string, pending: string)
    ensures Parse(PrintText(t) + s, pending) == Parse(s, pending + t)
  {
    hide Parse;
    if t == [] {
      assert PrintText(t) + s == s && pending + t == pending;
    } else {
      var p := PrintText(t) + s;
      var u := PrintText(t[1..]) + s;
      Shift(pending, t);
      ParseChar(p, pending);
      ParseText(t[1..], s, pending + [t[0]]);
      hide PrintText;
      if t[0] == '%' {
        assert p == "%%" + u && p[2..] == u by { TextHead(t, s); }
      } else {
        assert p == [t[0]] + u && p[1..] == u by { TextHead(t, s); }
      }
    }
  }

  lemma ParseHole(name: string, fmt: string, s: string, pending: string)
    requires GoodPiece(Hole(name, fmt))
    ensures Parse(PrintPiece(Hole(name, fmt)) + s, pending) == Flush(pending) + [Hole(name, fmt)] + Parse(s, [])
  {
    hide Parse, Read, Name, Close;
    var u := name + "{" + fmt + "}" + s;
    var p := PrintPiece(Hole(name, fmt)) + s;
    var b, k := |name|, |name| + 1 + |fmt|;
    assert p == "%" + u;
    assert u[b] == '{' && u[k] == '}' && u[..b] == name && u[b + 1..k] == fmt && u[k + 1..] == s;
    ReadBraced(u, b, k);
    assert p[1..] == u && p[1 + (k + 1)..] == s;
    assert b > 0 ==> u[0] == name[0];
    ParseDirective(p, pending);
  }

  lemma Join(a: seq<Piece>, p: Piece, b: seq<Piece>)
    ensures (a + [p]) + b == a + ([p] + b)
  {
  }

  /** Printed pieces are read back after any pending text that is not followed by a literal. */
  lemma {:induction false} PrintedIsRead(ps: seq<Piece>, pending: string)
    requires Canonical(ps) && (pending != [] && ps != [] ==> !ps[0].Lit?)
    ensures Parse(Print(ps), pending) == Flush(pending) + ps
    decreases |ps|
  {
    if ps != [] {
      hide Parse, PrintText;
      var rest := ps[1..];
      assert ps == [ps[0]] + rest;
      match ps[0] {
        case Hole(name, fmt) =>
          PrintedIsRead(rest, []);
          ParseHole(name, fmt, Print(rest), pending);
          Join(Flush(pending), ps[0], rest);
        case Lit(t) =>
          PrintedIsRead(rest, t);
          ParseText(t, Print(rest), []);
          assert pending == [] && [] + t == t;
      }
    }
  }

  /** Scanning a printed list of pieces gives that list back. */
  lemma RoundTrip(ps: seq<Piece>)
    requires Canonical(ps)
    ensures Parse(Print(ps), []) == ps
  {
    PrintedIsRead(ps, []);
  }

  lemma {:induction false} ParsedIsGood(s: string, pending: string)
    requires PatternError !in Parse(s, pending)
    ensures Canonical(Parse(s, pending))
    decreases |s|
  {
    hide Parse, Read, Canonical;
    if s == [] {
      assert Canonical(Parse(s, pending)) by { ParsedEmpty(pending); }
    } else if s[0] != '%' {
      ParseChar(s, pending);
      ParsedIsGood(s[1..], pending + [s[0]]);
    } else if |s| > 1 && s[1] == '%' {
      ParseChar(s, pending);
      ParsedIsGood(s[2..], pending + "%");
    } else {
      ParseDirective(s, pending);
      if Read(s[1..]).Found? {
        var d := Read(s[1..]);
        var tail := s[1 + d.used..];
        assert GoodPiece(Hole(d.name, d.fmt)) by { ReadIsGood(s[1..]); }
        GoodSeam(pending, Hole(d.name, d.fmt), Parse(tail, []));
        ParsedIsGood(tail, []);
      }
    }
  }

  lemma ParsedEmpty(pending: string)
    ensures Canonical(Parse([], pending))
  {
  }

  lemma ReadIsGood(t: string)
    ensures Read(t).Found? ==> GoodPiece(Hole(Read(t).name, Read(t).fmt))
  {
  }

  lemma GoodSeam(pending: string, h: Piece, ps: seq<Piece>)
    requires h.Hole? && GoodPiece(h)
    ensures var all := Flush(pending) + [h] + ps;
      (PatternError in all <==> PatternError in ps) && (Canonical(ps) ==> Canonical(all))
  {
    var all := Flush(pending) + [h] + ps;
    var d := |Flush(pending)| + 1;
    assert forall i | 0 <= i < |ps| :: all[d + i] == ps[i];
    assert forall i | d <= i < |all| :: all[i] == ps[i - d];
  }

  /**
   Printing what the scanner made of a pattern without unclosed braces gives a pattern that
   the scanner reads the same way.
   */
  lemma PrintedMeansTheSame(p: string)
    requires PatternError !in Parse(p, [])
    ensures Parse(Print(Parse(p, [])), []) == Parse(p, [])
  {
    ParsedIsGood(p, []);
    RoundTrip(Parse(p, []));
  }

  /** Text without '%' becomes pending text. */
  lemma {:induction false} ParsePlain(t: string, s: string, pending: string)
    requires '%' !in t
    ensures Parse(t + s, pending) == Parse(s, pending + t)
    decreases |t|
  {
    hide Parse;
    if t == [] {
      assert t + s == s && pending + t == pending;
    } else {
      assert (t + s)[1..] == t[1..] + s;
      Shift(pending, t);
      ParseChar(t + s, pending);
      ParsePlain(t[1..], s, pending + [t[0]]);
    }
  }

  lemma ParseNothing(pending: string)
    ensures Parse([], pending) == Flush(pending)
  {
  }

  /**
   Recovery from a brace that is never closed, whatever follows: the error comes before the text
   that was pending, the name and the brace become text, and all after them is scanned as usual.
   */
  lemma UnclosedRecovery(name: string, s: string, pending: string)
    requires (forall i | 0 <= i < |name| :: NameChar(name[i])) && '}' !in s
    ensures Parse("%" + name + "{" + s, pending) == [PatternError] + Parse(s, pending + name + "{")
  {
    hide Parse, Read, Name, Close;
    var u := name + "{" + s;
    var p := "%" + name + "{" + s;
    var b := |name|;
    assert p == "%" + u;
    assert u[b] == '{' && (b > 0 ==> u[0] == name[0]);
    ReadBraced(u, b, |u|);
    assert p[1..] == u;
    ParseDirective(p, pending);
    ParsePlain(name + "{", s, pending);
    assert pending + (name + "{") == pending + name + "{";
  }

  /** Without a further '%' the rest is one literal. */
  lemma UnclosedAtEnd(name: string, s: string, pending: string)
    requires (forall i | 0 <= i < |name| :: NameChar(name[i])) && '%' !in s && '}' !in s
    ensures Parse("%" + name + "{" + s, pending) == [PatternError, Lit(pending + name + "{" + s)]
  {
    hide Parse;
    UnclosedRecovery(name, s, pending);
    ParsePlain(s, [], pending + name + "{");
    ParseNothing(pending + name + "{" + s);
    assert s + [] == s;
  }

  /**
   A placeholder without braces, where its name cannot go on: the longest name, an empty format,
   and the rest from there. With an empty name and nothing after it, this is a '%' at the end.
   */
  lemma PlainHole(name: string, s: string, pending: string)
    requires forall i | 0 <= i < |name| :: IsAlpha(name[i])
    requires s != [] ==> !IsAlpha(s[0]) && s[0] != '{' && s[0] != '}' && (name == [] ==> s[0] != '%')
    ensures Parse("%" + name + s, pending) == Flush(pending) + [Hole(name, [])] + Parse(s, [])
  {
    hide Parse, Read, Name, Close;
    var u := name + s;
    var p := "%" + name + s;
    assert p == "%" + u;
    assert u[..|name|] == name && u[|name|..] == s && (name != [] ==> u[0] == name[0]);
    ReadPlain(u, |name|);
    assert p[1..] == u && p[1 + |name|..] == s;
    ParseDirective(p, pending);
  }

  // Items and the error flag.

  /** A StringFormatItem, or one of the item classes of the table with its format. */
  datatype Item = Text(text: string) | Field(name: string, fmt: string)

  const TABLE := {"m", "p", "r", "c", "t", "n", "d", "f", "l", "T", "F", "N"}
  const ERROR_TEXT := "<<pattern_error>>"

  predicate Listed(name: string) {
    name in TABLE
  }

  function ItemOf(p: Piece): Item {
    match p
    case Lit(t) => Text(t)
    case PatternError => Text(ERROR_TEXT)
    case Hole(name, fmt) => if Listed(name) then Field(name, fmt) else Text("<<error_format %" + name + ">>")
  }

  function Items(ps: seq<Piece>): seq<Item> {
    if ps == [] then [] else [ItemOf(ps[0])] + Items(ps[1..])
  }

  /** An unclosed brace or a name outside the table. */
  predicate Bad(p: Piece) {
    p.PatternError? || (p.Hole? && !Listed(p.name))
  }

  predicate Faulty(ps: seq<Piece>) {
    exists i | 0 <= i < |ps| :: Bad(ps[i])
  }

  // From pattern text to items.

  lemma {:induction false} ItemsAre(ps: seq<Piece>)
    ensures |Items(ps)| == |ps| && forall i | 0 <= i < |ps| :: Items(ps)[i] == ItemOf(ps[i])
  {
    if ps != [] {
      ItemsAre(ps[1..]);
    }
  }

  /** The names that have an item class. */
  predicate HasItem(name: string) {
    |name| == 1 && name[0] in {'m', 'p', 'r', 'c', 't', 'n', 'd', 'f', 'l', 'T', 'F', 'N'}
  }

  lemma HasItemIsListed(name: string)
    ensures HasItem(name) <==> Listed(name)
  {
    assert forall t | t in TABLE :: |t| == 1;
    if |name| == 1 {
      assert name == [name[0]];
    }
  }

  /**
   The compiled form of a printed list: a literal gives its text, a placeholder the item of its
   name with its own format, or an error text when no item has that name, in order; and the error
   flag is set exactly when there is such a name.
   */
  lemma PrintedCompiles(ps: seq<Piece>)
    requires Canonical(ps)
    ensures var items := Items(Parse(Print(ps), []));
      && |items| == |ps|
      && forall i | 0 <= i < |ps| ::
           (ps[i].Lit? ==> items[i] == Text(ps[i].text))
           && (ps[i].Hole? && HasItem(ps[i].name) ==> items[i] == Field(ps[i].name, ps[i].fmt))
           && (ps[i].Hole? && !HasItem(ps[i].name) ==> items[i] == Text("<<error_format %" + ps[i].name + ">>"))
    ensures Faulty(Parse(Print(ps), [])) <==> exists i | 0 <= i < |ps| :: ps[i].Hole? && !HasItem(ps[i].name)
  {
    RoundTrip(ps);
    hide Parse, Print, Canonical, Items, HasItem, Listed;
    ItemsAre(ps);
    forall i | 0 <= i < |ps|
      ensures ps[i].Hole? ==> (HasItem(ps[i].name) <==> Listed(ps[i].name))
      ensures !ps[i].PatternError?
    {
      if ps[i].Hole? {
        HasItemIsListed(ps[i].name);
      }
      assert GoodPiece(ps[i]) by { GoodAt(ps, i); }
    }
  }

  lemma GoodAt(ps: seq<Piece>, i: nat)
    requires Canonical(ps) && i < |ps|
    ensures GoodPiece(ps[i])
  {
  }

  /** An unclosed brace: the error text is the first item, and what follows compiles as usual. */
  lemma UnclosedCompiles(name: string, s: string, pending: string)
    requires (forall i | 0 <= i < |name| :: NameChar(name[i])) && '}' !in s
    ensures var ps := Parse("%" + name + "{" + s, pending);
      Items(ps) == [Text("<<pattern_error>>")] + Items(Parse(s, pending + name + "{")) && Faulty(ps)
  {
    UnclosedRecovery(name, s, pending);
    var ps, rest := Parse("%" + name + "{" + s, pending), Parse(s, pending + name + "{");
    hide Parse;
    assert ps[1..] == rest && ps[0] == PatternError;
    assert Bad(ps[0]);
  }

  /** An entry of the scanner's vector: text, format, and 1 for a placeholder. */
  type Slot = (string, string, int)

  function SlotOf(p: Piece): Slot {
    match p
    case Lit(t) => (t, [], 0)
    case PatternError => (ERROR_TEXT, [], 0)
    case Hole(name, fmt) => (name, fmt, 1)
  }

  function Slots(ps: seq<Piece>): (r: seq<Slot>)
    ensures |r| == |ps| && forall i | 0 <= i < |ps| :: r[i] == SlotOf(ps[i])
  {
    if ps == [] then [] else [SlotOf(ps[0])] + Slots(ps[1..])
  }

  class LogFormatter {
    const pattern: string
    var items: seq<Item>
    var error: bool

    constructor (pattern: string)
      ensures this.pattern == pattern
      ensures items == Items(Parse(pattern, [])) && error == Faulty(Parse(pattern, []))
    {
      this.pattern, items, error := pattern, [], false;
      new;
      Init();
    }

    /** The scanner, index by index as the code runs it, and the second pass over its vector. */
    method Init()
      requires items == [] && !error
      modifies this
      ensures items == Items(Parse(pattern, [])) && error == Faulty(Parse(pattern, []))
    {
      hide Parse, Listed, Items, Slots;
      var vec, bad := Scan();
      error := bad;
      ghost var ps := Parse(pattern, []);
      var k := 0;
      assert ps[0..] == ps;
      while k < |vec|
        invariant k <= |vec| == |ps| && vec == Slots(ps)
        invariant items + Items(ps[k..]) == Items(ps)
        invariant error <==> PatternError in ps || exists i | 0 <= i < k :: Bad(ps[i])
      {
        ItemsStep(ps, k);
        assert vec[k] == SlotOf(ps[k]);
        var name, fmt, kind := vec[k].0, vec[k].1, vec[k].2;
        ghost var prior, was := items, error;
        if kind == 0 {
          items := items + [Text(name)];
        } else if !Listed(name) {
          items := items + [Text("<<error_format %" + name + ">>")];
          error := true;
        } else {
          items := items + [Field(name, fmt)];
        }
        assert items == prior + [ItemOf(ps[k])];
        assert error <==> was || (kind != 0 && Bad(ps[k]));
        assert prior + ([ItemOf(ps[k])] + Items(ps[k + 1..])) == items + Items(ps[k + 1..]);
        k := k + 1;
      }
      assert Items(ps[k..]) == [] by { ItemsStep(ps, k); }
    }

    static lemma ItemsStep(ps: seq<Piece>, k: nat)
      requires k <= |ps|
      ensures k < |ps| ==> Items(ps[k..]) == [ItemOf(ps[k])] + Items(ps[k + 1..])
      ensures k == |ps| ==> Items(ps[k..]) == []
    {
      if k < |ps| {
        assert ps[k..][1..] == ps[k + 1..];
      }
    }

    method Scan() returns (vec: seq<Slot>, bad: bool)
      ensures vec == Slots(Parse(pattern, []))
      ensures bad <==> PatternError in Parse(pattern, [])
    {
      hide Parse, Read, Slots;
      vec, bad := [], false;
      var nstr: string := [];
      var i := 0;
      ghost var done: seq<Piece> := [];
      assert pattern[0..] == pattern;
      while i < |pattern|
        invariant i <= |pattern|
        invariant vec == Slots(done) && (bad <==> PatternError in done)
        invariant done + Parse(pattern[i..], nstr) == Parse(pattern, [])
        decreases |pattern| - i
      {
        ghost var s := pattern[i..];
        if pattern[i] != '%' {
          ParseChar(s, nstr);
          nstr := nstr + [pattern[i]];
          i := i + 1;
          assert s[1..] == pattern[i..];
          continue;
        }
        if i + 1 < |pattern| && pattern[i + 1] == '%' {
          ParseChar(s, nstr);
          nstr := nstr + "%";
          i := i + 2;
          assert s[2..] == pattern[i..];
          continue;
        }
        var n, status, str, fmt := Directive(i);
        assert s[1..] == pattern[i + 1..];
        ParseDirective(s, nstr);
        if status == 0 {
          ghost var emit := Flush(nstr) + [Hole(str, fmt)];
          assert s[n - i..] == pattern[n..];
          Emit(done, emit, Parse(pattern[n..], []));
          SlotsOf(nstr, Hole(str, fmt));
          if nstr != [] {
            vec := vec + [(nstr, [], 0)];
            nstr := [];
          }
          vec := vec + [(str, fmt, 1)];
          i := n;
          done := done + emit;
        } else {
          Emit(done, [PatternError], Parse(s[1..], nstr));
          SlotsOf([], PatternError);
          bad := true;
          vec := vec + [(ERROR_TEXT, fmt, 0)];
          i := i + 1;
          done := done + [PatternError];
        }
      }
      assert pattern[i..] == [];
      ParseNothing(nstr);
      Emit(done, Flush(nstr), []);
      if nstr != [] {
        vec := vec + [(nstr, [], 0)];
      }
    }

    static lemma SlotsOf(pending: string, p: Piece)
      ensures Slots(Flush(pending)) == if pending == [] then [] else [(pending, [], 0)]
      ensures Slots(Flush(pending) + [p]) == Slots(Flush(pending)) + [SlotOf(p)]
      ensures Slots([p]) == [SlotOf(p)]
    {
    }

    static lemma Emit(done: seq<Piece>, emit: seq<Piece>, rest: seq<Piece>)
      ensures Slots(done + emit) == Slots(done) + Slots(emit)
      ensures done + (emit + rest) == (done + emit) + rest
    {
      hide SlotOf;
      assert Slots(done + emit) == Slots(done) + Slots(emit) by { SlotsAppend(done, emit); }
    }

    static lemma SlotsAppend(a: seq<Piece>, b: seq<Piece>)
      ensures Slots(a + b) == Slots(a) + Slots(b)
    {
      hide SlotOf;
    }

    static lemma Slice(s: string, i: nat, a: nat, b: nat)
      requires a <= b && i + b <= |s|
      ensures s[i..][a..b] == s[i + a..i + b]
    {
    }

    /** The inner loop, started at a '%' that no second '%' follows. */
    method Directive(i: nat) returns (n: nat, status: int, str: string, fmt: string)
      requires i < |pattern| && pattern[i] == '%' && (i + 1 < |pattern| ==> pattern[i + 1] != '%')
      ensures status == 0 || status == 1
      ensures status == 0 ==> i < n <= |pattern| && Read(pattern[i + 1..]) == Found(str, fmt, n - i - 1)
      ensures status == 1 ==> fmt == [] && Read(pattern[i + 1..]) == Unclosed
    {
      hide Read;
      n, status, str, fmt := i + 1, 0, [], [];
      var begin := 0;
      ghost var t := pattern[i + 1..];
      while n < |pattern|
        invariant i < n <= |pattern| && fmt == []
        invariant status == 0 || status == 1
        invariant status == 0 ==> str == if n == |pattern| then t else []
        invariant status == 0 ==> forall k | 0 <= k < n - i - 1 :: NameChar(t[k])
        invariant status == 1 ==> i < begin < n && t[begin - i - 1] == '{'
        invariant status == 1 && n < |pattern| ==> str == t[..begin - i - 1]
        invariant status == 1 ==> forall k | 0 <= k < begin - i - 1 :: NameChar(t[k])
        invariant status == 1 ==> forall k | begin - i - 1 < k < n - i - 1 :: t[k] != '}'
      {
        var ch := pattern[n];
        assert ch == t[n - i - 1];
        if status == 0 && !IsAlpha(ch) && ch != '{' && ch != '}' {
          str := pattern[i + 1..n];
          ReadPlain(t, n - i - 1);
          return;
        }
        if status == 0 {
          if ch == '{' {
            str := pattern[i + 1..n];
            status := 1;
            begin := n;
            n := n + 1;
            continue;
          }
        } else if status == 1 {
          if ch == '}' {
            ReadBraced(t, begin - i - 1, n - i - 1);
            fmt := pattern[begin + 1..n];
            Slice(pattern, i + 1, begin - i, n - i - 1);
            status := 0;
            n := n + 1;
            return;
          }
        }
        n := n + 1;
        if n == |pattern| {
          if str == [] {
            str := pattern[i + 1..];
          }
        }
      }
      if status == 0 {
        ReadPlain(t, |t|);
      } else {
        ReadBraced(t, begin - i - 1, |t|);
      }
    }
  }
}
