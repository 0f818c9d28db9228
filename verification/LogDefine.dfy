/**
 Definitions of loggers in the configuration and their YAML form (sylar/log.cpp, LogDefine and
 the two Lexical_cast specialisations for it).
 */
module LogDefine {
  import opened Basics
  import opened Yaml

  datatype Level = UNKNOW | DEBUG | INFO | WARN | ERROR | FATAL

  function LevelText(l: Level): string {
    match l
    case UNKNOW => "UNKNON"
    case DEBUG => "DEBUG"
    case INFO => "INFO"
    case WARN => "WARN"
    case ERROR => "ERROR"
    case FATAL => "FATAL"
  }

  /** LogLevel::FromString looks at the first character only. */
  function LevelOf(s: string): Level {
    if s == [] then UNKNOW else
    match s[0]
    case 'd' => DEBUG case 'D' => DEBUG
    case 'i' => INFO case 'I' => INFO
    case 'w' => WARN case 'W' => WARN
    case 'e' => ERROR case 'E' => ERROR
    case 'f' => FATAL case 'F' => FATAL
    case _ => UNKNOW
  }

  const FILE := 1
  const STDOUT := 2

  datatype AppenderDef = AppenderDef(kind: int, level: Level, formatter: string, fileName: string)

  datatype LogDef = LogDef(name: string, level: Level, appenders: seq<AppenderDef>)

  // Reading.

  /** n[key] of a map; several equal keys give the first. */
  function Get(pairs: seq<Pair>, key: string): Option<Node> {
    if pairs == [] then None
    else if pairs[0].key == key then Some(pairs[0].value)
    else Get(pairs[1..], key)
  }

  /** The text under `key`, `default` without it; as<std::string> throws on what is not a scalar. */
  function TextAt(pairs: seq<Pair>, key: string, default: string): Result<string> {
    match Get(pairs, key)
    case None => Ok(default)
    case Some(n) => if n.Scalar? then Ok(n.text) else Thrown
  }

  /** Level and formatter, which both kinds of appender read alike. */
  function Finish(pairs: seq<Pair>, a: AppenderDef): Result<Option<AppenderDef>> {
    match (TextAt(pairs, "level", []), TextAt(pairs, "formatter", []))
    case (Ok(level), Ok(formatter)) => Ok(Some(a.(level := LevelOf(level), formatter := formatter)))
    case _ => Thrown
  }

  /** One element of "appenders": an appender, or nothing when the code reports it and goes on. */
  function ReadAppender(n: Node): Result<Option<AppenderDef>> {
    match n
    case Scalar(_) => Thrown
    case Sequence(_) => Ok(None)
    case Map(pairs) =>
      if Get(pairs, "type").None? then Ok(None) else
      match TextAt(pairs, "type", [])
      case Thrown => Thrown
      case Ok(kind) =>
        if kind == "FileLogAppender" then
          if Get(pairs, "fileName").None? then Ok(None) else
          match TextAt(pairs, "fileName", [])
          case Thrown => Thrown
          case Ok(file) => Finish(pairs, AppenderDef(FILE, UNKNOW, [], file))
        else if kind == "StdoutLogAppender" then Finish(pairs, AppenderDef(STDOUT, UNKNOW, [], []))
        else Ok(None)
  }

  function ReadAppenders(ns: seq<Node>): Result<seq<AppenderDef>> {
    if ns == [] then Ok([]) else
    match (ReadAppender(ns[0]), ReadAppenders(ns[1..]))
    case (Ok(a), Ok(rest)) => Ok((if a.Some? then [a.value] else []) + rest)
    case _ => Thrown
  }

  /** Lexical_cast<std::string, LogDefine> */
  function Read(n: Node): Result<LogDef> {
    if !n.Map? || Get(n.pairs, "name").None? then Thrown else
    var items := match Get(n.pairs, "appenders")
      case Some(Sequence(ns)) => ns
      case _ => [];
    match (TextAt(n.pairs, "name", []), TextAt(n.pairs, "level", []), ReadAppenders(items))
    case (Ok(name), Ok(level), Ok(appenders)) => Ok(LogDef(name, LevelOf(level), appenders))
    case _ => Thrown
  }

  // Writing.

  function LevelPair(l: Level): seq<Pair> {
    if l == UNKNOW then [] else [Pair("level", Scalar(LevelText(l)))]
  }

  function WriteAppender(a: AppenderDef): Node {
    Map((if a.kind == FILE then [Pair("type", Scalar("FileLogAppender")), Pair("file", Scalar(a.fileName))]
         else if a.kind == STDOUT then [Pair("type", Scalar("StdoutLogAppender"))]
         else [])
        + LevelPair(a.level)
        + (if a.formatter == [] then [] else [Pair("formatter", Scalar(a.formatter))]))
  }

  function WriteAppenders(defs: seq<AppenderDef>): (r: seq<Node>)
    ensures |r| == |defs|
  {
    if defs == [] then [] else [WriteAppender(defs[0])] + WriteAppenders(defs[1..])
  }

  /** Lexical_cast<LogDefine, std::string> */
  function Write(d: LogDef): Node {
    Map([Pair("name", Scalar(d.name))] + LevelPair(d.level)
        + (if d.appenders == [] then [] else [Pair("appenders", Sequence(WriteAppenders(d.appenders)))]))
  }

  // Round trip.

  /** What survives: the stdout appenders, in order, which have no file name to keep. */
  function Console(defs: seq<AppenderDef>): seq<AppenderDef> {
    if defs == [] then [] else
    (if defs[0].kind == STDOUT then [defs[0].(fileName := [])] else []) + Console(defs[1..])
  }

  lemma {:induction false} GetAppend(a: seq<Pair>, b: seq<Pair>, key: string)
    ensures Get(a + b, key) == if Get(a, key).Some? then Get(a, key) else Get(b, key)
  {
    if a == [] {
      assert a + b == b;
    } else {
      assert (a + b)[1..] == a[1..] + b;
      GetAppend(a[1..], b, key);
    }
  }

  lemma GetLevel(l: Level, key: string)
    ensures Get(LevelPair(l), key) == if l != UNKNOW && key == "level" then Some(Scalar(LevelText(l))) else None
    ensures LevelOf(if l == UNKNOW then [] else LevelText(l)) == l
  {
  }

  /** Looking a key up in what WriteAppender writes. */
  lemma GetWritten(a: AppenderDef, key: string)
    ensures a.kind == FILE && key == "type" ==> Get(WriteAppender(a).pairs, key) == Some(Scalar("FileLogAppender"))
    ensures a.kind == STDOUT && key == "type" ==> Get(WriteAppender(a).pairs, key) == Some(Scalar("StdoutLogAppender"))
    ensures a.kind != FILE && a.kind != STDOUT && key == "type" ==> Get(WriteAppender(a).pairs, key) == None
    ensures key == "fileName" ==> Get(WriteAppender(a).pairs, key) == None
    ensures key == "level" ==> Get(WriteAppender(a).pairs, key) == Get(LevelPair(a.level), key)
    ensures key == "formatter" ==>
      Get(WriteAppender(a).pairs, key) == if a.formatter == [] then None else Some(Scalar(a.formatter))
  {
    var head := if a.kind == FILE then [Pair("type", Scalar("FileLogAppender")), Pair("file", Scalar(a.fileName))]
                else if a.kind == STDOUT then [Pair("type", Scalar("StdoutLogAppender"))]
                else [];
    var tail := if a.formatter == [] then [] else [Pair("formatter", Scalar(a.formatter))];
    GetAppend(head + LevelPair(a.level), tail, key);
    GetAppend(head, LevelPair(a.level), key);
    GetLevel(a.level, key);
    assert key == "type" ==> key[0] == 't';
    assert "file"[0] == 'f' && "level"[0] == 'l' && "formatter"[0] == 'f';
    assert |"fileName"| == 8 && |"formatter"| == 9;
  }

  lemma AppenderRead(a: AppenderDef)
    ensures ReadAppender(WriteAppender(a)) == Ok(if a.kind == STDOUT then Some(a.(fileName := [])) else None)
  {
    hide Get, LevelOf, LevelPair, LevelText;
    GetWritten(a, "type");
    GetWritten(a, "fileName");
    GetWritten(a, "level");
    GetWritten(a, "formatter");
    GetLevel(a.level, "level");
    assert "FileLogAppender"[0] != "StdoutLogAppender"[0];
  }

  lemma {:induction false} AppendersRead(defs: seq<AppenderDef>)
    ensures ReadAppenders(WriteAppenders(defs)) == Ok(Console(defs))
  {
    hide ReadAppender, WriteAppender;
    if defs != [] {
      AppenderRead(defs[0]);
      AppendersRead(defs[1..]);
    }
  }

  lemma GetTop(d: LogDef, key: string)
    ensures key == "name" ==> Get(Write(d).pairs, key) == Some(Scalar(d.name))
    ensures key == "level" ==> Get(Write(d).pairs, key) == Get(LevelPair(d.level), key)
    ensures key == "appenders" ==>
      (Get(Write(d).pairs, key) == if d.appenders == [] then None else Some(Sequence(WriteAppenders(d.appenders))))
  {
    hide WriteAppenders;
    var head := [Pair("name", Scalar(d.name))];
    var tail := if d.appenders == [] then [] else [Pair("appenders", Sequence(WriteAppenders(d.appenders)))];
    GetAppend(head + LevelPair(d.level), tail, key);
    GetAppend(head, LevelPair(d.level), key);
    GetLevel(d.level, key);
    assert |"name"| == 4 && |"level"| == 5 && |"appenders"| == 9;
  }

  /**
   Writing a definition and reading it back drops every file appender, because its name is
   written under "file" and looked for under "fileName"; all the rest comes back.
   */
  lemma DefRead(d: LogDef)
    ensures Read(Write(d)) == Ok(d.(appenders := Console(d.appenders)))
  {
    hide Get, LevelOf, LevelPair, LevelText, ReadAppenders, WriteAppenders;
    AppendersRead(d.appenders);
    GetTop(d, "name");
    GetTop(d, "level");
    GetTop(d, "appenders");
    GetLevel(d.level, "level");
    assert d.appenders == [] ==> ReadAppenders([]) == Ok([]) && Console([]) == [] by { NoAppenders(); }
  }

  lemma NoAppenders()
    ensures ReadAppenders([]) == Ok([])
  {
  }

  /** An appender as the reader produces it for the console. */
  predicate IsConsole(a: AppenderDef) {
    a.kind == STDOUT && a.fileName == []
  }

  lemma {:induction false} ConsoleIdentity(defs: seq<AppenderDef>)
    ensures Console(defs) == defs <==> forall i | 0 <= i < |defs| :: IsConsole(defs[i])
    ensures |Console(defs)| <= |defs|
    ensures forall i | 0 <= i < |Console(defs)| :: IsConsole(Console(defs)[i])
  {
    if defs != [] {
      ConsoleIdentity(defs[1..]);
      if Console(defs) == defs {
        assert IsConsole(defs[0]);
        assert Console(defs[1..]) == defs[1..];
        assert forall i | 0 < i < |defs| :: defs[i] == defs[1..][i - 1];
      }
    }
  }

  /** The round trip is the identity exactly on definitions without file appenders. */
  lemma DefRoundTripIff(d: LogDef)
    ensures Read(Write(d)) == Ok(d) <==> forall i | 0 <= i < |d.appenders| :: IsConsole(d.appenders[i])
  {
    DefRead(d);
    ConsoleIdentity(d.appenders);
  }

  // Reading what the writer does not write.

  /** A file appender, whatever the order of its keys and whatever other keys there are. */
  lemma FileIsRead(pairs: seq<Pair>, file: string, level: string, formatter: string)
    requires Get(pairs, "type") == Some(Scalar("FileLogAppender")) && Get(pairs, "fileName") == Some(Scalar(file))
    requires Get(pairs, "level") == Some(Scalar(level)) || (Get(pairs, "level") == None && level == "")
    requires Get(pairs, "formatter") == Some(Scalar(formatter)) || (Get(pairs, "formatter") == None && formatter == "")
    ensures ReadAppender(Map(pairs)) == Ok(Some(AppenderDef(1, LevelOf(level), formatter, file)))
  {
    hide Get, LevelOf;
  }

  /** The same for the console; a file name is not looked at. */
  lemma ConsoleIsRead(pairs: seq<Pair>, level: string, formatter: string)
    requires Get(pairs, "type") == Some(Scalar("StdoutLogAppender"))
    requires Get(pairs, "level") == Some(Scalar(level)) || (Get(pairs, "level") == None && level == "")
    requires Get(pairs, "formatter") == Some(Scalar(formatter)) || (Get(pairs, "formatter") == None && formatter == "")
    ensures ReadAppender(Map(pairs)) == Ok(Some(AppenderDef(2, LevelOf(level), formatter, "")))
  {
    hide Get, LevelOf;
    assert "FileLogAppender"[0] != "StdoutLogAppender"[0];
  }

  /** n[key] is the value of the first pair with that key. */
  lemma {:induction false} GetIsFirst(pairs: seq<Pair>, key: string, i: nat)
    requires i <= |pairs| && forall j | 0 <= j < i :: pairs[j].key != key
    requires i < |pairs| ==> pairs[i].key == key
    ensures Get(pairs, key) == if i < |pairs| then Some(pairs[i].value) else None
    decreases |pairs|
  {
    if i > 0 {
      assert forall j | 0 <= j < i - 1 :: pairs[1..][j] == pairs[j + 1];
      GetIsFirst(pairs[1..], key, i - 1);
    }
  }

  /** What is reported and left out, and what throws. */
  lemma OtherAppenders(pairs: seq<Pair>, t: Node)
    ensures Get(pairs, "type") == None ==> ReadAppender(Map(pairs)) == Ok(None)
    ensures Get(pairs, "type") == Some(t) && !t.Scalar? ==> ReadAppender(Map(pairs)) == Thrown
    ensures Get(pairs, "type") == Some(t) && t.Scalar? && t.text != "FileLogAppender" && t.text != "StdoutLogAppender"
      ==> ReadAppender(Map(pairs)) == Ok(None)
    ensures Get(pairs, "type") == Some(Scalar("FileLogAppender")) && Get(pairs, "fileName") == None
      ==> ReadAppender(Map(pairs)) == Ok(None)
    ensures t.Sequence? ==> ReadAppender(t) == Ok(None)
    ensures t.Scalar? ==> ReadAppender(t) == Thrown
  {
    hide Get;
  }

  /** One element that throws makes the whole definition throw. */
  lemma {:induction false} AppendersThrowIff(ns: seq<Node>)
    ensures ReadAppenders(ns) == Thrown <==> exists i :: 0 <= i < |ns| && ReadAppender(ns[i]) == Thrown
  {
    hide ReadAppender;
    if ns != [] {
      AppendersThrowIff(ns[1..]);
      if i :| 0 <= i < |ns[1..]| && ReadAppender(ns[1..][i]) == Thrown {
        assert ReadAppender(ns[i + 1]) == Thrown;
      }
      assert forall i | 0 < i < |ns| :: ns[i] == ns[1..][i - 1];
    }
  }

  /** The set of definitions is read exactly when each of them is. */
  lemma {:induction false} DefsThrowIff(ns: seq<Node>)
    ensures ReadDefs(ns) == Thrown <==> exists i :: 0 <= i < |ns| && Read(ns[i]) == Thrown
  {
    hide Read;
    if ns != [] {
      DefsThrowIff(ns[1..]);
      if i :| 0 <= i < |ns[1..]| && Read(ns[1..][i]) == Thrown {
        assert Read(ns[i + 1]) == Thrown;
      }
      assert forall i | 0 < i < |ns| :: ns[i] == ns[1..][i - 1];
    }
  }

  /** The node the writer would make if it wrote the key that the reader looks for. */
  function MeantAppender(a: AppenderDef): Node {
    Map((if a.kind == FILE then [Pair("type", Scalar("FileLogAppender")), Pair("fileName", Scalar(a.fileName))]
         else [Pair("type", Scalar("StdoutLogAppender"))])
        + LevelPair(a.level)
        + (if a.formatter == [] then [] else [Pair("formatter", Scalar(a.formatter))]))
  }

  /** With that one key, every appender the reader can produce comes back as it was. */
  lemma MeantRoundTrip(a: AppenderDef)
    requires a.kind == FILE || IsConsole(a)
    ensures ReadAppender(MeantAppender(a)) == Ok(Some(a))
  {
    var head := if a.kind == FILE
      then [Pair("type", Scalar("FileLogAppender")), Pair("fileName", Scalar(a.fileName))]
      else [Pair("type", Scalar("StdoutLogAppender"))];
    var tail := if a.formatter == [] then [] else [Pair("formatter", Scalar(a.formatter))];
    MeantGet(head, a.level, tail, "type");
    MeantGet(head, a.level, tail, "fileName");
    MeantGet(head, a.level, tail, "level");
    MeantGet(head, a.level, tail, "formatter");
    GetLevel(a.level, "level");
    assert "type"[0] == 't' && "level"[0] == 'l' && "formatter"[0] == 'f' && "fileName"[0] == 'f';
    assert |"formatter"| == 9 && |"fileName"| == 8;
    GetIsFirst(head, "type", 0);
    GetIsFirst(head, "level", |head|);
    GetIsFirst(head, "formatter", |head|);
    var pairs := head + LevelPair(a.level) + tail;
    var level := if a.level == UNKNOW then "" else LevelText(a.level);
    if a.kind == FILE {
      GetIsFirst(head, "fileName", 1);
      FileIsRead(pairs, a.fileName, level, a.formatter);
    } else {
      ConsoleIsRead(pairs, level, a.formatter);
    }
  }

  lemma MeantGet(head: seq<Pair>, l: Level, tail: seq<Pair>, key: string)
    ensures Get(head + LevelPair(l) + tail, key) ==
      if Get(head, key).Some? then Get(head, key)
      else if Get(LevelPair(l), key).Some? then Get(LevelPair(l), key)
      else Get(tail, key)
  {
    GetAppend(head + LevelPair(l), tail, key);
    GetAppend(head, LevelPair(l), key);
  }

  function MeantAppenders(defs: seq<AppenderDef>): (r: seq<Node>)
    ensures |r| == |defs|
  {
    if defs == [] then [] else [MeantAppender(defs[0])] + MeantAppenders(defs[1..])
  }

  lemma {:induction false} MeantAppendersRead(defs: seq<AppenderDef>)
    requires forall i | 0 <= i < |defs| :: defs[i].kind == FILE || IsConsole(defs[i])
    ensures ReadAppenders(MeantAppenders(defs)) == Ok(defs)
  {
    if defs != [] {
      hide ReadAppender, MeantAppender;
      MeantRoundTrip(defs[0]);
      MeantAppendersRead(defs[1..]);
      assert defs == [defs[0]] + defs[1..];
    }
  }

  /** So with that key the round trip is the identity on every definition the reader can produce. */
  lemma MeantDefRoundTrip(d: LogDef)
    requires forall i | 0 <= i < |d.appenders| :: d.appenders[i].kind == FILE || IsConsole(d.appenders[i])
    ensures Read(Map([Pair("name", Scalar(d.name))] + LevelPair(d.level)
                     + [Pair("appenders", Sequence(MeantAppenders(d.appenders)))])) == Ok(d)
  {
    var head, tail := [Pair("name", Scalar(d.name))], [Pair("appenders", Sequence(MeantAppenders(d.appenders)))];
    MeantAppendersRead(d.appenders);
    MeantGet(head, d.level, tail, "name");
    MeantGet(head, d.level, tail, "level");
    MeantGet(head, d.level, tail, "appenders");
    GetLevel(d.level, "level");
    GetLevel(d.level, "appenders");
    assert |"name"| == 4 && |"level"| == 5 && |"appenders"| == 9;
    assert Get(head, "name") == Some(head[0].value) && Get(head, "level") == None && Get(head, "appenders") == None;
    assert Get(tail, "appenders") == Some(tail[0].value) && Get(tail, "level") == None;
    hide Get, LevelOf, LevelPair, LevelText, ReadAppenders, MeantAppenders;
  }

  /** Level names in either case, and the names that are written. */
  lemma LevelNames()
    ensures LevelText(LevelOf("debug")) == LevelText(LevelOf("DEBUG")) == "DEBUG"
    ensures LevelText(LevelOf("info")) == LevelText(LevelOf("INFO")) == "INFO"
    ensures LevelText(LevelOf("warn")) == LevelText(LevelOf("WARN")) == "WARN"
    ensures LevelText(LevelOf("error")) == LevelText(LevelOf("ERROR")) == "ERROR"
    ensures LevelText(LevelOf("fatal")) == LevelText(LevelOf("FATAL")) == "FATAL"
  {
  }

  /** Only the first character counts, in either case; all other texts mean UNKNOW. */
  lemma LevelIff(t: string, l: Level)
    requires l != UNKNOW
    ensures LevelOf(t) == l <==> t != [] && (t[0] == LevelText(l)[0] || t[0] as int == LevelText(l)[0] as int + 32)
  {
  }

  /** A definition without a name, or that is not a map, is refused. */
  lemma NamelessIsRefused(n: Node)
    requires n.Map? ==> forall i | 0 <= i < |n.pairs| :: n.pairs[i].key != "name"
    ensures Read(n) == Thrown
  {
    if n.Map? {
      GetIsFirst(n.pairs, "name", |n.pairs|);
    }
  }

  // The set of definitions, ordered by name: at most one for each name.

  type Defs = map<string, LogDef>

  predicate NamedByKey(m: Defs) {
    forall k | k in m :: m[k].name == k
  }

  /** The set cast: insert keeps the first definition of a name; one failure fails it all. */
  function ReadDefs(ns: seq<Node>): Result<Defs> {
    if ns == [] then Ok(map[]) else
    match (Read(ns[0]), ReadDefs(ns[1..]))
    case (Ok(d), Ok(m)) => Ok(m[d.name := d])
    case _ => Thrown
  }

  function WriteDefs(ds: seq<LogDef>): (r: seq<Node>)
    ensures |r| == |ds|
  {
    if ds == [] then [] else [Write(ds[0])] + WriteDefs(ds[1..])
  }

  function Survivor(d: LogDef): LogDef {
    d.(appenders := Console(d.appenders))
  }

  /** Definitions with distinct names, in any order, come back under their names. */
  lemma {:induction false} DefsRead(ds: seq<LogDef>)
    requires forall i, j | 0 <= i < j < |ds| :: ds[i].name != ds[j].name
    ensures ReadDefs(WriteDefs(ds)).Ok?
    ensures var m := ReadDefs(WriteDefs(ds)).value;
      && (forall i | 0 <= i < |ds| :: ds[i].name in m && m[ds[i].name] == Survivor(ds[i]))
      && (forall k | k in m :: exists i :: 0 <= i < |ds| && ds[i].name == k)
      && NamedByKey(m)
  {
    hide Read, Write, Console;
    if ds != [] {
      DefRead(ds[0]);
      DefsRead(ds[1..]);
      var m, r := ReadDefs(WriteDefs(ds)).value, ReadDefs(WriteDefs(ds[1..])).value;
      assert forall i | 0 < i < |ds| :: ds[i] == ds[1..][i - 1];
      forall k | k in m ensures exists i :: 0 <= i < |ds| && ds[i].name == k {
        if k != ds[0].name {
          var i :| 0 <= i < |ds[1..]| && ds[1..][i].name == k;
          assert ds[i + 1].name == k;
        }
      }
    }
  }

  lemma HeadRead(ns: seq<Node>)
    requires ns != [] && ReadDefs(ns).Ok?
    ensures Read(ns[0]).Ok? && ReadDefs(ns[1..]).Ok?
    ensures ReadDefs(ns).value == ReadDefs(ns[1..]).value[Read(ns[0]).value.name := Read(ns[0]).value]
  {
  }

  lemma {:induction false} EachIsRead(ns: seq<Node>, i: nat)
    requires ReadDefs(ns).Ok? && i < |ns|
    ensures Read(ns[i]).Ok?
    decreases |ns|
  {
    hide Read, ReadDefs;
    HeadRead(ns);
    if i > 0 {
      EachIsRead(ns[1..], i - 1);
    }
  }

  /** Of several definitions with one name the first is kept. */
  lemma {:induction false} FirstIsKept(ns: seq<Node>, i: nat)
    requires ReadDefs(ns).Ok? && i < |ns| && Read(ns[i]).Ok?
    requires forall j | 0 <= j < i :: Read(ns[j]).Ok? ==> Read(ns[j]).value.name != Read(ns[i]).value.name
    ensures var d := Read(ns[i]).value; d.name in ReadDefs(ns).value && ReadDefs(ns).value[d.name] == d
    decreases |ns|
  {
    hide Read, ReadDefs;
    HeadRead(ns);
    if i > 0 {
      assert forall j | 0 <= j < i - 1 :: ns[1..][j] == ns[j + 1];
      assert Read(ns[0]).value.name != Read(ns[i]).value.name;
      FirstIsKept(ns[1..], i - 1);
    }
  }

  /** And every definition that is kept is such a first one. */
  lemma {:induction false} KeptIsFirst(ns: seq<Node>, k: string) returns (i: nat)
    requires ReadDefs(ns).Ok? && k in ReadDefs(ns).value
    ensures i < |ns| && Read(ns[i]) == Ok(ReadDefs(ns).value[k]) && ReadDefs(ns).value[k].name == k
    ensures forall j | 0 <= j < i :: Read(ns[j]).Ok? && Read(ns[j]).value.name != k
    decreases |ns|
  {
    assert ns != [];
    hide Read, ReadDefs;
    HeadRead(ns);
    if Read(ns[0]).value.name == k {
      i := 0;
    } else {
      i := KeptIsFirst(ns[1..], k);
      i := i + 1;
      assert forall j | 0 < j < i :: ns[j] == ns[1..][j - 1];
    }
  }

  /** One more definition at the end goes in unless its name is taken. */
  lemma {:induction false} ReadDefsSplit(a: seq<Node>, n: Node)
    ensures ReadDefs(a + [n]) == match (ReadDefs(a), Read(n))
      case (Ok(m), Ok(d)) => Ok(if d.name in m then m else m[d.name := d])
      case _ => Thrown
    decreases |a|
  {
    hide Read;
    if a == [] {
      assert a + [n] == [n] && [n][1..] == [];
    } else {
      assert (a + [n])[1..] == a[1..] + [n];
      ReadDefsSplit(a[1..], n);
      if ReadDefs(a).Ok? && Read(n).Ok? {
        var m, d, e := ReadDefs(a[1..]).value, Read(a[0]).value, Read(n).value;
        assert (if e.name in m then m else m[e.name := e])[d.name := d] ==
          if e.name in m[d.name := d] then m[d.name := d] else m[d.name := d][e.name := e];
      }
    }
  }

  lemma {:induction false} ThrownStays(a: seq<Node>, b: seq<Node>)
    requires ReadDefs(a).Thrown?
    ensures ReadDefs(a + b).Thrown?
    decreases |a|
  {
    hide Read;
    assert (a + b)[1..] == a[1..] + b;
    if ReadDefs(a[1..]).Thrown? {
      ThrownStays(a[1..], b);
    }
  }

  // The loops.

  method ToDef(n: Node) returns (r: Result<LogDef>)
    ensures r == Read(n)
  {
    if !n.Map? || Get(n.pairs, "name").None? {
      return Thrown;
    }
    hide Get, TextAt, LevelOf;
    var name := TextAt(n.pairs, "name", []);
    var level := TextAt(n.pairs, "level", []);
    var list := Get(n.pairs, "appenders");
    var appenders := ToAppenders(if list.Some? && list.value.Sequence? then list.value.items else []);
    if name.Thrown? || level.Thrown? || appenders.Thrown? {
      return Thrown;
    }
    r := Ok(LogDef(name.value, LevelOf(level.value), appenders.value));
  }

  /** The loop of the set cast for definitions, with insert. */
  method ToDefs(ns: seq<Node>) returns (r: Result<Defs>)
    ensures r == ReadDefs(ns)
  {
    hide Read, ReadDefs;
    var container: Defs := map[];
    var i := 0;
    assert ReadDefs([]) == Ok(map[]) by { NoDefs(); }
    while i < |ns|
      invariant i <= |ns| && ReadDefs(ns[..i]) == Ok(container)
    {
      var d := ToDef(ns[i]);
      assert ns[..i + 1] == ns[..i] + [ns[i]];
      ReadDefsSplit(ns[..i], ns[i]);
      if d.Thrown? {
        assert ns == ns[..i + 1] + ns[i + 1..];
        ThrownStays(ns[..i + 1], ns[i + 1..]);
        return Thrown;
      }
      if d.value.name !in container {
        container := container[d.value.name := d.value];
      }
      i := i + 1;
    }
    assert ns[..i] == ns;
    r := Ok(container);
  }

  lemma NoDefs()
    ensures ReadDefs([]) == Ok(map[])
  {
  }

  method ToAppenders(ns: seq<Node>) returns (r: Result<seq<AppenderDef>>)
    ensures r == ReadAppenders(ns)
  {
    hide ReadAppender;
    var appenders: seq<AppenderDef> := [];
    var x := 0;
    assert ns[0..] == ns;
    AfterStep([], None, ReadAppenders(ns));
    while x < |ns|
      invariant x <= |ns|
      invariant After(appenders, ReadAppenders(ns[x..])) == ReadAppenders(ns)
    {
      assert ns[x..][1..] == ns[x + 1..];
      var a := ReadAppender(ns[x]);
      if a.Thrown? {
        return Thrown;
      }
      ghost var prior := appenders;
      if a.value.Some? {
        appenders := appenders + [a.value.value];
      }
      AfterStep(prior, a.value, ReadAppenders(ns[x + 1..]));
      x := x + 1;
    }
    assert ns[x..] == [] && appenders + [] == appenders;
    r := Ok(appenders);
  }

  function After(done: seq<AppenderDef>, rest: Result<seq<AppenderDef>>): Result<seq<AppenderDef>> {
    match rest
    case Ok(v) => Ok(done + v)
    case Thrown => Thrown
  }

  lemma AfterStep(done: seq<AppenderDef>, a: Option<AppenderDef>, rest: Result<seq<AppenderDef>>)
    ensures rest.Ok? ==>
      After(done, Ok((if a.Some? then [a.value] else []) + rest.value)) ==
        After(if a.Some? then done + [a.value] else done, rest)
    ensures After([], rest) == rest
  {
    if rest.Ok? {
      assert [] + rest.value == rest.value;
      assert a.Some? ==> done + ([a.value] + rest.value) == done + [a.value] + rest.value;
    }
  }

  method ToNode(d: LogDef) returns (n: Node)
    ensures n == Write(d)
  {
    hide WriteAppender, LevelPair;
    var nodes: seq<Node> := [];
    var x := 0;
    assert d.appenders[0..] == d.appenders;
    while x < |d.appenders|
      invariant x <= |d.appenders|
      invariant nodes + WriteAppenders(d.appenders[x..]) == WriteAppenders(d.appenders)
    {
      assert d.appenders[x..][1..] == d.appenders[x + 1..];
      nodes := nodes + [WriteAppender(d.appenders[x])];
      x := x + 1;
    }
    assert d.appenders[x..] == [];
    assert nodes == WriteAppenders(d.appenders);
    n := Map([Pair("name", Scalar(d.name))] + LevelPair(d.level)
             + (if nodes == [] then [] else [Pair("appenders", Sequence(nodes))]));
  }
}
