/**
 The listener that keeps the loggers in step with the configured definitions (sylar/log.cpp,
 LogIniter and LoggerManager), first as a function on states, over whole series of updates of
 the "logs" variable, then as the code that updates Logger objects.
 */
module LoggerRegistry {
  import opened LogDefine
  import opened ConfigVar
  import LogPattern

  /** A LogAppender: type, file, level, and the pattern of its formatter. */
  datatype Appender = Appender(kind: int, fileName: string, level: Level, pattern: string)

  const DEFAULT_PATTERN := "%d{%Y-%m-%d %H:%M:%S}%T%t%T%N%T%F%T[%p]%T[%c]%T%f:%l%T%m%n"
  const DEFAULT_FILE := "default.txt"

  predicate PatternOk(p: string) {
    !LogPattern.Faulty(LogPattern.Parse(p, []))
  }

  /** The appender made for a definition: a faulty or empty formatter leaves the default one. */
  function Build(a: AppenderDef): Appender {
    Appender(a.kind,
             if a.kind == FILE then (if a.fileName == [] then DEFAULT_FILE else a.fileName) else [],
             a.level,
             if a.formatter != [] && PatternOk(a.formatter) then a.formatter else DEFAULT_PATTERN)
  }

  function BuildAll(defs: seq<AppenderDef>): (r: seq<Appender>)
    ensures |r| == |defs| && forall i | 0 <= i < |defs| :: r[i] == Build(defs[i])
  {
    if defs == [] then [] else [Build(defs[0])] + BuildAll(defs[1..])
  }

  datatype LoggerState = LoggerState(level: Level, appenders: seq<Appender>)

  type Registry = map<string, LoggerState>

  const ERASED := LoggerState(UNKNOW, [])

  function Built(d: LogDef): LoggerState {
    LoggerState(d.level, BuildAll(d.appenders))
  }

  /**
   LogDefine::operator==. As coded (`deep` false) it compares appenders with themselves; with
   `deep` true it compares them with the other definition's, as meant.
   */
  predicate SameDef(deep: bool, a: LogDef, b: LogDef) {
    a.name == b.name && a.level == b.level && (deep ==> a.appenders == b.appenders)
  }

  /** operator== of the set of definitions. */
  predicate SameDefs(deep: bool, x: Defs, y: Defs) {
    x.Keys == y.Keys && forall n | n in x :: SameDef(deep, x[n], y[n])
  }

  function Eq(deep: bool): (Defs, Defs) -> bool {
    (x, y) => SameDefs(deep, x, y)
  }

  /** The entry is new or differs from the one it replaces. */
  predicate Changed(deep: bool, was: Defs, now: Defs, n: string) {
    n in now && (n !in was || !SameDef(deep, now[n], was[n]))
  }

  /**
   The registry after the listener's loop has treated the names in `seen`. Names dropped from
   the set are erased only once some entry was new or changed.
   */
  function ReconcileOver(deep: bool, reg: Registry, was: Defs, now: Defs, seen: set<string>): Registry {
    var changed := set n | n in seen && Changed(deep, was, now, n);
    map n | n in reg.Keys + changed ::
      if n in changed then Built(now[n])
      else if changed != {} && n in was && n !in now then ERASED
      else reg[n]
  }

  function Reconcile(deep: bool, reg: Registry, was: Defs, now: Defs): Registry {
    ReconcileOver(deep, reg, was, now, now.Keys)
  }

  // What the functions above come to, field by field.

  /** The formatter is one that setFormatter gets: not empty, every brace closed, every name known. */
  predicate Accepted(p: string) {
    var ps := LogPattern.Parse(p, []);
    p != [] && forall i | 0 <= i < |ps| :: !ps[i].PatternError? && (ps[i].Hole? ==> LogPattern.HasItem(ps[i].name))
  }

  /** The appender is what the definition describes; 1 is a file. */
  predicate Realizes(a: Appender, d: AppenderDef) {
    && a.kind == d.kind && a.level == d.level
    && a.fileName == (if d.kind != 1 then "" else if d.fileName == "" then "default.txt" else d.fileName)
    && (Accepted(d.formatter) ==> a.pattern == d.formatter)
    && (!Accepted(d.formatter) ==> a.pattern == DEFAULT_PATTERN)
  }

  predicate AllRealized(made: seq<Appender>, ds: seq<AppenderDef>) {
    |made| == |ds| && forall i | 0 <= i < |ds| :: Realizes(made[i], ds[i])
  }

  lemma AcceptedIff(p: string)
    ensures Accepted(p) <==> p != [] && PatternOk(p)
  {
    var ps := LogPattern.Parse(p, []);
    hide LogPattern.Parse, LogPattern.HasItem, LogPattern.Listed;
    forall i | 0 <= i < |ps|
      ensures LogPattern.Bad(ps[i]) <==> ps[i].PatternError? || (ps[i].Hole? && !LogPattern.HasItem(ps[i].name))
    {
      if ps[i].Hole? {
        LogPattern.HasItemIsListed(ps[i].name);
      }
    }
  }

  lemma RealizesIff(a: Appender, d: AppenderDef)
    ensures Realizes(a, d) <==> a == Build(d)
  {
    AcceptedIff(d.formatter);
  }

  lemma AllRealizedIff(made: seq<Appender>, ds: seq<AppenderDef>)
    ensures AllRealized(made, ds) <==> made == BuildAll(ds)
  {
    hide Realizes, Build;
    forall i | 0 <= i < |ds| && i < |made| ensures Realizes(made[i], ds[i]) <==> made[i] == Build(ds[i]) {
      RealizesIff(made[i], ds[i]);
    }
  }

  /** Matching means, for each definition, its level and exactly the appenders it describes. */
  lemma MatchesIffRealized(reg: Registry, stored: Defs)
    ensures Matches(reg, stored) <==> forall n | n in stored ::
      n in reg && reg[n].level == stored[n].level && AllRealized(reg[n].appenders, stored[n].appenders)
  {
    hide AllRealized, BuildAll;
    forall n | n in stored && n in reg
      ensures AllRealized(reg[n].appenders, stored[n].appenders) <==> reg[n].appenders == BuildAll(stored[n].appenders)
    {
      AllRealizedIff(reg[n].appenders, stored[n].appenders);
    }
  }

  /** The entry is new, or does not have the name and level of the one it replaces. */
  predicate NewOrChanged(was: Defs, now: Defs, n: string) {
    n in now && (n !in was || now[n].name != was[n].name || now[n].level != was[n].level)
  }

  /**
   One run of the listener as coded, logger by logger: a new or changed definition is realized,
   a dropped one loses its level and appenders if anything was new or changed, and all other
   loggers are left alone.
   */
  lemma ReconcileMeans(reg: Registry, was: Defs, now: Defs)
    ensures var r := Reconcile(false, reg, was, now);
      && (forall n | NewOrChanged(was, now, n) ::
            n in r && r[n].level == now[n].level && AllRealized(r[n].appenders, now[n].appenders))
      && (forall n | n in reg && !NewOrChanged(was, now, n) ::
            n in r && if n in was && n !in now && exists m :: NewOrChanged(was, now, m)
                      then r[n].level == UNKNOW && r[n].appenders == []
                      else r[n] == reg[n])
      && (forall n | n in r :: n in reg || NewOrChanged(was, now, n))
  {
    hide AllRealized, BuildAll;
    var r := Reconcile(false, reg, was, now);
    var changed := set n | n in now.Keys && Changed(false, was, now, n);
    assert forall n :: Changed(false, was, now, n) <==> NewOrChanged(was, now, n);
    assert forall n :: n in changed <==> NewOrChanged(was, now, n);
    forall n | NewOrChanged(was, now, n) ensures AllRealized(r[n].appenders, now[n].appenders) {
      AllRealizedIff(r[n].appenders, now[n].appenders);
    }
  }

  // Series of calls on the variable.

  /** The variable, the loggers, and whether the listener added under `id` is still there. */
  datatype System = System(v: Var<Defs>, reg: Registry, heard: bool)

  /** The call leaves the listener with this id in place. */
  predicate Keeps(id: nat, op: Op<Defs>) {
    !op.Clear? && !(op.Del? && op.id == id)
  }

  /** The call stores another value. */
  predicate Stores(deep: bool, y: System, op: Op<Defs>) {
    op.Set? && !SameDefs(deep, op.v, y.v.val)
  }

  function Act(deep: bool, id: nat, y: System, op: Op<Defs>): System {
    System(Do(Eq(deep), y.v, op),
           if Stores(deep, y, op) && y.heard then Reconcile(deep, y.reg, y.v.val, op.v) else y.reg,
           y.heard && Keeps(id, op))
  }

  function Run(deep: bool, id: nat, y: System, ops: seq<Op<Defs>>): System
    decreases |ops|
  {
    if ops == [] then y else Act(deep, id, Run(deep, id, y, ops[..|ops| - 1]), ops[|ops| - 1])
  }

  /** Every definition has its logger, at the level it says. */
  predicate LevelsAgree(reg: Registry, stored: Defs) {
    forall n | n in stored :: n in reg && reg[n].level == stored[n].level
  }

  /** ... and with exactly the appenders it says. */
  predicate Matches(reg: Registry, stored: Defs) {
    forall n | n in stored :: n in reg && reg[n] == Built(stored[n])
  }

  predicate Agrees(y: System) {
    LevelsAgree(y.reg, y.v.val)
  }

  predicate Exact(y: System) {
    Matches(y.reg, y.v.val)
  }

  /** The variable goes its own way; the listener is lost with the first call that removes it. */
  lemma {:induction false} RunIs(deep: bool, id: nat, y: System, ops: seq<Op<Defs>>)
    ensures Run(deep, id, y, ops).v == DoAll(Eq(deep), y.v, ops)
    ensures Run(deep, id, y, ops).heard <==> y.heard && forall i | 0 <= i < |ops| :: Keeps(id, ops[i])
    ensures !y.heard ==> Run(deep, id, y, ops).reg == y.reg
    decreases |ops|
  {
    if ops != [] {
      hide Do, DoAll, Reconcile, SameDefs, Keeps;
      var k := |ops| - 1;
      RunIs(deep, id, y, ops[..k]);
      assert ops == ops[..k] + [ops[k]];
      DoAllLast(Eq(deep), y.v, ops[..k], ops[k]);
    }
  }

  /** The listener is there exactly as long as its id is listed, unless the id is handed out again. */
  lemma {:induction false} HeardIffListed(deep: bool, id: nat, y: System, ops: seq<Op<Defs>>)
    requires GoodIds(y.v) && (y.heard <==> id in y.v.ids) && id !in HandedOut(Eq(deep), y.v, ops)
    ensures Run(deep, id, y, ops).heard <==> id in DoAll(Eq(deep), y.v, ops).ids
    ensures Run(deep, id, y, ops).v == DoAll(Eq(deep), y.v, ops)
    decreases |ops|
  {
    RunIs(deep, id, y, ops);
    if ops == [] {
      assert DoAll(Eq(deep), y.v, ops) == y.v;
    } else {
      var k := |ops| - 1;
      assert ops == ops[..k] + [ops[k]];
      HandedOutLast(Eq(deep), y.v, ops[..k], ops[k]);
      HeardIffListed(deep, id, y, ops[..k]);
      DoAllLast(Eq(deep), y.v, ops[..k], ops[k]);
      hide DoAll, Reconcile, SameDefs, Run, HandedOut;
      ListedAfter(Eq(deep), DoAll(Eq(deep), y.v, ops[..k]), ops[k], id);
      RunIs(deep, id, y, ops[..k]);
    }
  }

  // The listener's runs are the calls it gets.

  /** The registry after the listener with this id got its share of the calls. */
  function Replay(deep: bool, id: nat, reg: Registry, calls: seq<Call<Defs>>): Registry
    decreases |calls|
  {
    if calls == [] then reg else
    Replay(deep, id, if calls[0].id == id then Reconcile(deep, reg, calls[0].was, calls[0].now) else reg, calls[1..])
  }

  lemma {:induction false} ReplayAppend(deep: bool, id: nat, reg: Registry, a: seq<Call<Defs>>, b: seq<Call<Defs>>)
    ensures Replay(deep, id, reg, a + b) == Replay(deep, id, Replay(deep, id, reg, a), b)
    decreases |a|
  {
    if a == [] {
      assert a + b == b;
    } else {
      hide Reconcile;
      assert (a + b)[1..] == a[1..] + b;
      ReplayAppend(deep, id, if a[0].id == id then Reconcile(deep, reg, a[0].was, a[0].now) else reg, a[1..], b);
    }
  }

  lemma {:induction false} ReplayNotify(deep: bool, id: nat, reg: Registry, ids: seq<nat>, was: Defs, now: Defs)
    requires Ascending(ids)
    ensures Replay(deep, id, reg, Notify(ids, was, now)) == if id in ids then Reconcile(deep, reg, was, now) else reg
    decreases |ids|
  {
    if ids != [] {
      hide Reconcile;
      assert Notify(ids, was, now)[1..] == Notify(ids[1..], was, now);
      ReplayNotify(deep, id, if ids[0] == id then Reconcile(deep, reg, was, now) else reg, ids[1..], was, now);
      assert ids[0] !in ids[1..];
    }
  }

  /** One call on the variable tells the listener what it needs to know. */
  lemma ActTells(deep: bool, id: nat, z: System, op: Op<Defs>) returns (told: seq<Call<Defs>>)
    requires GoodIds(z.v) && (z.heard ==> id in z.v.ids)
    ensures var r := Act(deep, id, z, op);
      && GoodIds(r.v) && r.v.calls == z.v.calls + told
      && (r.heard ==> z.heard && id in r.v.ids && r.reg == Replay(deep, id, z.reg, told))
  {
    GoodAscends(z.v);
    DoKeepsIds(Eq(deep), z.v, op);
    hide Reconcile, SameDefs, Notify, GoodIds, Ascending;
    if Stores(deep, z, op) {
      told := Notify(z.v.ids, z.v.val, op.v);
      ReplayNotify(deep, id, z.reg, z.v.ids, z.v.val, op.v);
    } else {
      told := [];
      assert z.v.calls + told == z.v.calls;
    }
  }

  /**
   As long as the listener is there, the registry is what its calls make of it: ConfigVar tells
   it every stored change, once.
   */
  lemma {:induction false} RegistryFollowsCalls(deep: bool, id: nat, y: System, ops: seq<Op<Defs>>)
    requires y.heard && id in y.v.ids && GoodIds(y.v)
    ensures var r := Run(deep, id, y, ops);
      && GoodIds(r.v) && y.v.calls <= r.v.calls
      && (r.heard ==> id in r.v.ids && r.reg == Replay(deep, id, y.reg, r.v.calls[|y.v.calls|..]))
    decreases |ops|
  {
    if ops == [] {
      assert y.v.calls[|y.v.calls|..] == [];
    } else {
      hide Act, Replay, GoodIds;
      var k := |ops| - 1;
      RegistryFollowsCalls(deep, id, y, ops[..k]);
      var z, r := Run(deep, id, y, ops[..k]), Run(deep, id, y, ops);
      var told := ActTells(deep, id, z, ops[k]);
      assert r.v.calls[|y.v.calls|..] == z.v.calls[|y.v.calls|..] + told;
      ReplayAppend(deep, id, y.reg, z.v.calls[|y.v.calls|..], told);
    }
  }

  lemma GoodAscends(v: Var<Defs>)
    requires GoodIds(v)
    ensures Ascending(v.ids)
  {
  }

  // Agreement over any series of calls.

  lemma ReconcileLevels(deep: bool, reg: Registry, was: Defs, now: Defs)
    requires LevelsAgree(reg, was)
    ensures LevelsAgree(Reconcile(deep, reg, was, now), now)
  {
  }

  lemma ReconcileMatches(reg: Registry, was: Defs, now: Defs)
    requires Matches(reg, was)
    ensures Matches(Reconcile(true, reg, was, now), now)
  {
  }

  /** While the listener is there, every stored definition has its logger at its level. */
  lemma {:induction false} LevelsAlwaysAgree(deep: bool, id: nat, y: System, ops: seq<Op<Defs>>)
    requires Agrees(y)
    ensures Run(deep, id, y, ops).heard ==> Agrees(Run(deep, id, y, ops))
    decreases |ops|
  {
    if ops != [] {
      hide Reconcile, LevelsAgree, SameDefs;
      var k := |ops| - 1;
      LevelsAlwaysAgree(deep, id, y, ops[..k]);
      var z := Run(deep, id, y, ops[..k]);
      if Stores(deep, z, ops[k]) && z.heard {
        ReconcileLevels(deep, z.reg, z.v.val, ops[k].v);
      }
    }
  }

  /** With the comparison as meant, appenders agree too. */
  lemma {:induction false} DeepAlwaysMatches(id: nat, y: System, ops: seq<Op<Defs>>)
    requires Exact(y)
    ensures Run(true, id, y, ops).heard ==> Exact(Run(true, id, y, ops))
    ensures var r := Run(true, id, y, ops);
      r.heard ==> forall n | n in r.v.val ::
        n in r.reg && r.reg[n].level == r.v.val[n].level && AllRealized(r.reg[n].appenders, r.v.val[n].appenders)
    decreases |ops|
  {
    MatchesIffRealized(Run(true, id, y, ops).reg, Run(true, id, y, ops).v.val);
    hide AllRealized;
    if ops != [] {
      hide Reconcile, Matches, SameDefs;
      var k := |ops| - 1;
      DeepAlwaysMatches(id, y, ops[..k]);
      var z := Run(true, id, y, ops[..k]);
      if Stores(true, z, ops[k]) && z.heard {
        ReconcileMatches(z.reg, z.v.val, ops[k].v);
      }
    }
  }

  /** Without the listener, some update is not followed. */
  lemma UpdateUnfollowed(deep: bool, id: nat, y: System) returns (m: Defs)
    requires !y.heard
    ensures !Agrees(Act(deep, id, y, Set(m)))
  {
    if !Agrees(y) {
      m := y.v.val;
    } else {
      var a := "a";
      var level := if a in y.reg && y.reg[a].level == INFO then WARN else INFO;
      m := map[a := LogDef(a, level, [])];
      assert a in m;
      assert a in y.v.val ==> y.v.val[a].level != level;
      assert !SameDefs(deep, m, y.v.val);
    }
  }

  /**
   Agreement is guaranteed for whatever set comes next if and only if the calls so far kept the
   listener: neither clearListener nor delListener of its id was among them.
   */
  lemma AgreementIffListenerKept(deep: bool, id: nat, y: System, ops: seq<Op<Defs>>)
    requires y.heard && Agrees(y)
    ensures (forall m :: Agrees(Act(deep, id, Run(deep, id, y, ops), Set(m)))) <==>
      forall i | 0 <= i < |ops| :: Keeps(id, ops[i])
  {
    RunIs(deep, id, y, ops);
    var r := Run(deep, id, y, ops);
    if r.heard {
      forall m ensures Agrees(Act(deep, id, r, Set(m))) {
        LevelsAlwaysAgree(deep, id, y, ops);
        if Stores(deep, r, Set(m)) {
          ReconcileLevels(deep, r.reg, r.v.val, m);
        }
      }
    } else {
      var m := UpdateUnfollowed(deep, id, r);
    }
  }

  // The comparison as coded.

  /** An entry compares equal to the one it replaces although other appenders come out of it. */
  predicate Overlooked(was: Defs, now: Defs, n: string) {
    n in now && n in was && SameDef(false, now[n], was[n]) && BuildAll(now[n].appenders) != BuildAll(was[n].appenders)
  }

  /** One call as coded keeps loggers and definitions matching exactly when nothing stored is overlooked. */
  lemma CodedMatchesIff(id: nat, y: System, op: Op<Defs>)
    requires y.heard && Exact(y)
    ensures Exact(Act(false, id, y, op)) <==>
      !op.Set? || SameDefs(false, op.v, y.v.val) || forall n :: !Overlooked(y.v.val, op.v, n)
  {
    hide BuildAll;
    if Stores(false, y, op) {
      var r := Act(false, id, y, op);
      forall n | n in op.v ensures n in r.reg && (r.reg[n] == Built(op.v[n]) <==> !Overlooked(y.v.val, op.v, n)) {
      }
    }
  }

  /**
   Over a series of calls that keep the listener: loggers and definitions match after every one
   if and only if no call stores a set with an overlooked entry.
   */
  lemma {:induction false} CodedRunMatchesIff(id: nat, y: System, ops: seq<Op<Defs>>)
    requires y.heard && Exact(y) && forall i | 0 <= i < |ops| :: Keeps(id, ops[i])
    ensures (forall k | 0 <= k <= |ops| :: Exact(Run(false, id, y, ops[..k]))) <==>
      forall k, n | 0 <= k < |ops| && Stores(false, Run(false, id, y, ops[..k]), ops[k]) ::
        !Overlooked(Run(false, id, y, ops[..k]).v.val, ops[k].v, n)
    decreases |ops|
  {
    hide Exact, Overlooked, Stores, Act, Keeps;
    if ops == [] {
      assert ops[..0] == [];
    } else {
      var m := |ops| - 1;
      var p := ops[..m];
      CodedRunMatchesIff(id, y, p);
      assert forall k | 0 <= k <= m :: p[..k] == ops[..k];
      assert ops[..m + 1] == ops && p[..m] == p;
      RunIs(false, id, y, p);
      var z := Run(false, id, y, p);
      assert Run(false, id, y, ops) == Act(false, id, z, ops[m]);
      hide Run;
      if Exact(z) {
        MatchesAfter(id, z, ops[m]);
      }
    }
  }

  lemma MatchesAfter(id: nat, y: System, op: Op<Defs>)
    requires y.heard && Exact(y)
    ensures Exact(Act(false, id, y, op)) <==> (Stores(false, y, op) ==> forall n :: !Overlooked(y.v.val, op.v, n))
  {
    CodedMatchesIff(id, y, op);
  }

  /** An update that says something new is ignored altogether exactly when only appenders differ. */
  lemma UpdateIgnoredIff(id: nat, y: System, now: Defs)
    ensures now != y.v.val && Act(false, id, y, Set(now)) == y <==>
      SameDefs(false, now, y.v.val) && exists n :: n in now && now[n].appenders != y.v.val[n].appenders
  {
    hide Reconcile, Notify;
    var was := y.v.val;
    if SameDefs(false, now, was) {
      if forall n | n in now :: now[n].appenders == was[n].appenders {
        assert forall n | n in now :: now[n] == was[n];
        assert now == was;
      }
    } else {
      assert Act(false, id, y, Set(now)).v.val == now;
    }
  }

  /** For each stored name, the definition it had when it was last new or changed level. */
  function Origins(id: nat, src: Defs, y: System, ops: seq<Op<Defs>>): Defs
    decreases |ops|
  {
    if ops == [] then src else
    var k := |ops| - 1;
    var z, s := Run(false, id, y, ops[..k]), Origins(id, src, y, ops[..k]);
    if Stores(false, z, ops[k]) then NextOrigins(s, z.v.val, ops[k].v) else s
  }

  function NextOrigins(src: Defs, was: Defs, now: Defs): Defs {
    map n | n in now :: if Changed(false, was, now, n) || n !in src then now[n] else src[n]
  }

  predicate FromOrigins(reg: Registry, src: Defs, stored: Defs) {
    && src.Keys == stored.Keys
    && forall n | n in stored :: n in reg && reg[n] == Built(src[n])
  }

  lemma ReconcileOrigins(reg: Registry, src: Defs, was: Defs, now: Defs)
    requires FromOrigins(reg, src, was)
    ensures FromOrigins(Reconcile(false, reg, was, now), NextOrigins(src, was, now), now)
  {
  }

  /**
   As coded, a logger carries the appenders of its definition's origin. So it matches the
   stored definition if and only if both build the same appenders.
   */
  lemma {:induction false} AppendersComeFromOrigin(id: nat, src: Defs, y: System, ops: seq<Op<Defs>>)
    requires FromOrigins(y.reg, src, y.v.val)
    ensures var r, o := Run(false, id, y, ops), Origins(id, src, y, ops);
      r.heard ==>
      && FromOrigins(r.reg, o, r.v.val)
      && forall n | n in r.v.val ::
           r.reg[n].appenders == BuildAll(r.v.val[n].appenders)
           <==> BuildAll(o[n].appenders) == BuildAll(r.v.val[n].appenders)
    decreases |ops|
  {
    if ops != [] {
      hide Reconcile, NextOrigins, SameDefs, BuildAll;
      var k := |ops| - 1;
      AppendersComeFromOrigin(id, src, y, ops[..k]);
      var z, s := Run(false, id, y, ops[..k]), Origins(id, src, y, ops[..k]);
      if Stores(false, z, ops[k]) && z.heard {
        ReconcileOrigins(z.reg, s, z.v.val, ops[k].v);
      }
    }
  }

  /**
   A run where the comparison as coded leaves a logger without the appender its stored definition
   lists: the second update gives "a" an appender and only changes the level of "b".
   */
  lemma CodedComparisonMisses() returns (ops: seq<Op<Defs>>)
    ensures var r := Run(false, 1, System(Var(map[], [1], 1, []), map[], true), ops);
      r.heard && !Exact(r)
  {
    var a, b := "a", "b";
    assert a != b by { assert a[0] != b[0]; }
    var console := AppenderDef(STDOUT, INFO, [], []);
    var first: Defs := map[a := LogDef(a, INFO, []), b := LogDef(b, INFO, [])];
    var second: Defs := map[a := LogDef(a, INFO, [console]), b := LogDef(b, WARN, [])];
    ops := [Set(first), Set(second)];
    assert Overlooked(first, second, a) by { assert BuildAll([console]) != []; }
    assert !SameDef(false, second[b], first[b]);
    TwoUpdates(first, second, a);
  }

  lemma TwoUpdates(first: Defs, second: Defs, n: string)
    requires Overlooked(first, second, n) && !SameDefs(false, second, first)
    ensures var r := Run(false, 1, System(Var(map[], [1], 1, []), map[], true), [Set(first), Set(second)]);
      r.heard && !Exact(r)
  {
    hide Reconcile, Matches, Notify, BuildAll, SameDef;
    var y := System(Var(map[], [1], 1, []), map[], true);
    var ops := [Set(first), Set(second)];
    assert ops[..1] == [Set(first)] && ops[..1][..0] == [];
    var z := Run(false, 1, y, ops[..1]);
    assert Run(false, 1, y, ops[..1][..0]) == y;
    assert z == Act(false, 1, y, Set(first));
    NewNamesMatch(false, y.reg, first);
    MatchesAfter(1, z, Set(second));
  }

  lemma NewNamesMatch(deep: bool, reg: Registry, now: Defs)
    ensures Matches(Reconcile(deep, reg, map[], now), now)
  {
  }

  // Names that leave the set.

  lemma ReconcileDrops(deep: bool, reg: Registry, was: Defs, now: Defs, n: string)
    requires n !in now && n in reg
    ensures n in Reconcile(deep, reg, was, now)
    ensures Reconcile(deep, reg, was, now)[n] ==
      if n in was && exists m :: Changed(deep, was, now, m) then ERASED else reg[n]
  {
    var changed := set m | m in now.Keys && Changed(deep, was, now, m);
    if m :| Changed(deep, was, now, m) {
      assert m in changed;
    }
  }

  /**
   A name was stored at first and is not at the end, and the listener was there throughout. Then
   call k is the last that dropped it, and from then on its logger stays erased if that update
   had a new or changed entry, and otherwise stays just as it was before, until the end.
   */
  lemma {:induction false} DroppedIsErasedIff(
      deep: bool, id: nat, y: System, ops: seq<Op<Defs>>, n: string)
    returns (k: nat)
    requires Agrees(y) && n in y.v.val
    requires n !in Run(deep, id, y, ops).v.val && Run(deep, id, y, ops).heard
    ensures k < |ops| && ops[k].Set? && n !in ops[k].v && n in Run(deep, id, y, ops[..k]).v.val
    ensures forall j | k < j < |ops| && ops[j].Set? :: n !in ops[j].v
    ensures var z, r := Run(deep, id, y, ops[..k]), Run(deep, id, y, ops);
      && n in z.reg && n in r.reg && z.reg[n].level == z.v.val[n].level
      && r.reg[n] == (if exists m :: Changed(deep, z.v.val, ops[k].v, m) then ERASED else z.reg[n])
    decreases |ops|
  {
    var last := |ops| - 1;
    var z := Run(deep, id, y, ops[..last]);
    assert Run(deep, id, y, ops) == Act(deep, id, z, ops[last]);
    hide Changed, Act, Run, LevelsAgree;
    HeardBefore(deep, id, y, ops, last);
    if n in z.v.val {
      StoredHasLogger(deep, id, y, ops[..last], n);
      k := last;
    } else {
      k := DroppedIsErasedIff(deep, id, y, ops[..last], n);
      assert ops[..last][..k] == ops[..k];
    }
    ActDrops(deep, id, z, ops[last], n);
    hide *;
  }

  lemma HeardBefore(deep: bool, id: nat, y: System, ops: seq<Op<Defs>>, k: nat)
    requires k <= |ops| && Run(deep, id, y, ops).heard
    ensures Run(deep, id, y, ops[..k]).heard
  {
    RunIs(deep, id, y, ops);
    RunIs(deep, id, y, ops[..k]);
  }

  lemma StoredHasLogger(deep: bool, id: nat, y: System, ops: seq<Op<Defs>>, n: string)
    requires Agrees(y) && Run(deep, id, y, ops).heard && n in Run(deep, id, y, ops).v.val
    ensures var r := Run(deep, id, y, ops); n in r.reg && r.reg[n].level == r.v.val[n].level
  {
    LevelsAlwaysAgree(deep, id, y, ops);
  }

  /** One call after which a name is not stored. */
  lemma ActDrops(deep: bool, id: nat, z: System, op: Op<Defs>, n: string)
    requires z.heard && n in z.reg && n !in Act(deep, id, z, op).v.val
    ensures n in z.v.val ==> op.Set?
    ensures op.Set? ==> n !in op.v
    ensures var r := Act(deep, id, z, op).reg;
      && n in r
      && r[n] == (if n in z.v.val && exists m :: Changed(deep, z.v.val, op.v, m) then ERASED else z.reg[n])
  {
    hide Reconcile, Changed;
    if Stores(deep, z, op) {
      ReconcileDrops(deep, z.reg, z.v.val, op.v, n);
    }
  }

  /** A logger whose name is in neither the stored nor any later set keeps its state. */
  lemma {:induction false} UnnamedIsUntouched(deep: bool, id: nat, y: System, ops: seq<Op<Defs>>, n: string)
    requires n in y.reg && n !in y.v.val && forall i | 0 <= i < |ops| :: ops[i].Set? ==> n !in ops[i].v
    ensures var r := Run(deep, id, y, ops); n in r.reg && n !in r.v.val && r.reg[n] == y.reg[n]
    decreases |ops|
  {
    if ops != [] {
      hide Reconcile;
      var k := |ops| - 1;
      UnnamedIsUntouched(deep, id, y, ops[..k], n);
      var z := Run(deep, id, y, ops[..k]);
      if Stores(deep, z, ops[k]) {
        ReconcileDrops(deep, z.reg, z.v.val, ops[k].v, n);
      }
    }
  }

  // The objects.

  class Logger {
    const name: string
    var level: Level
    var appenders: seq<Appender>

    constructor (name: string)
      ensures this.name == name && level == DEBUG && appenders == []
    {
      this.name, level, appenders := name, DEBUG, [];
    }
  }

  class LoggerManager {
    var loggers: map<string, Logger>

    /** Only the root logger, which writes to the console. */
    constructor ()
      ensures Valid() && View() == map["root" := LoggerState(DEBUG, [Appender(STDOUT, [], DEBUG, DEFAULT_PATTERN)])]
    {
      var root := new Logger("root");
      root.appenders := [Appender(STDOUT, [], DEBUG, DEFAULT_PATTERN)];
      loggers := map["root" := root];
    }

    /** Each logger is filed under its name, so no two names share one. */
    predicate Valid()
      reads this
    {
      forall n | n in loggers :: loggers[n].name == n
    }

    ghost function View(): Registry
      reads this, loggers.Values
    {
      map n | n in loggers :: LoggerState(loggers[n].level, loggers[n].appenders)
    }

    /** A logger, once made, is the same object for ever; a new one is at DEBUG without appenders. */
    method GetLogger(name: string) returns (l: Logger)
      requires Valid()
      modifies this
      ensures Valid() && name in loggers && loggers[name] == l
      ensures name in old(loggers) ==> loggers == old(loggers)
      ensures name !in old(loggers) ==>
        fresh(l) && loggers == old(loggers)[name := l] && l.level == DEBUG && l.appenders == []
    {
      if name in loggers {
        return loggers[name];
      }
      l := new Logger(name);
      loggers := loggers[name := l];
    }

    /** Soft deletion. */
    method EraseLogger(name: string)
      requires Valid()
      modifies if name in loggers then {loggers[name]} else {}
      ensures View() == if name in old(loggers) then old(View())[name := ERASED] else old(View())
      ensures name in loggers ==> loggers[name].level == UNKNOW && loggers[name].appenders == []
    {
      if name !in loggers {
        return;
      }
      loggers[name].level := UNKNOW;
      loggers[name].appenders := [];
    }

    /** What the listener does for one new or changed definition, before it looks for dropped names. */
    method Install(d: LogDef)
      requires Valid()
      modifies this, loggers.Values
      ensures Valid() && fresh(loggers.Values - old(loggers.Values))
      ensures forall n | n in old(loggers) :: n in loggers && loggers[n] == old(loggers)[n]
      ensures View() == old(View())[d.name := Built(d)]
      ensures d.name in loggers && loggers[d.name].level == d.level
      ensures AllRealized(loggers[d.name].appenders, d.appenders)
    {
      hide BuildAll;
      ghost var before := View();
      var logger := GetLogger(d.name);
      logger.level := d.level;
      AddAppenders(logger, d.appenders);
      hide AllRealized;
      assert forall n | n in loggers && n != d.name :: loggers[n] != logger;
      assert View()[d.name] == Built(d);
    }

    method AddAppenders(logger: Logger, defs: seq<AppenderDef>)
      modifies logger`appenders
      ensures logger.appenders == BuildAll(defs) && AllRealized(logger.appenders, defs)
    {
      AllRealizedIff(BuildAll(defs), defs);
      hide Build, AllRealized;
      logger.appenders := [];
      var k := 0;
      while k < |defs|
        invariant k == |logger.appenders| <= |defs|
        invariant forall i | 0 <= i < k :: logger.appenders[i] == Build(defs[i])
      {
        logger.appenders := logger.appenders + [Build(defs[k])];
        k := k + 1;
      }
    }

    /** The inner loop: every old name that the new set lacks is erased. */
    method EraseDropped(was: Defs, now: Defs)
      requires Valid()
      modifies loggers.Values
      ensures View() == Dropped(old(View()), was, now.Keys, was.Keys)
    {
      hide Dropped;
      ghost var before := View();
      var rest := was.Keys;
      assert was.Keys - rest == {};
      DroppedMore(before, was, now.Keys, {}, "");
      while rest != {}
        invariant rest <= was.Keys && View() == Dropped(before, was, now.Keys, was.Keys - rest)
        decreases |rest|
      {
        var n :| n in rest;
        DroppedMore(before, was, now.Keys, was.Keys - rest, n);
        assert was.Keys - (rest - {n}) == (was.Keys - rest) + {n};
        if n !in now {
          EraseLogger(n);
        }
        rest := rest - {n};
      }
      assert was.Keys - rest == was.Keys;
    }

    /** The loggers themselves, as far as the view tells. */
    lemma Means(reg: Registry, was: Defs, now: Defs)
      requires View() == Reconcile(false, reg, was, now)
      ensures forall n | NewOrChanged(was, now, n) ::
        n in loggers && loggers[n].level == now[n].level && AllRealized(loggers[n].appenders, now[n].appenders)
      ensures forall n | n in reg && n in was && n !in now && (exists m :: NewOrChanged(was, now, m)) ::
        n in loggers && loggers[n].level == UNKNOW && loggers[n].appenders == []
    {
      ReconcileMeans(reg, was, now);
      hide Reconcile, AllRealized;
      forall n | n in View() ensures n in loggers && View()[n] == LoggerState(loggers[n].level, loggers[n].appenders) {
      }
    }

    /** The listener. The sets are visited in name order, which makes no difference. */
    method OnChange(was: Defs, now: Defs)
      requires Valid() && NamedByKey(now)
      modifies this, loggers.Values
      ensures Valid() && View() == Reconcile(false, old(View()), was, now)
      ensures forall n | NewOrChanged(was, now, n) ::
        n in loggers && loggers[n].level == now[n].level && AllRealized(loggers[n].appenders, now[n].appenders)
      ensures forall n | n in old(loggers) && n in was && n !in now && (exists m :: NewOrChanged(was, now, m)) ::
        n in loggers && loggers[n].level == UNKNOW && loggers[n].appenders == []
      ensures forall n | n in old(loggers) :: n in loggers && loggers[n] == old(loggers)[n]
    {
      hide ReconcileOver, Dropped, Built, AllRealized, NewOrChanged;
      ghost var reg := View();
      var rest := now.Keys;
      assert now.Keys - rest == {};
      ReconcileNone(reg, was, now);
      while rest != {}
        invariant Valid() && rest <= now.Keys
        invariant fresh(loggers.Values - old(loggers.Values))
        invariant forall n | n in old(loggers) :: n in loggers && loggers[n] == old(loggers)[n]
        invariant View() == ReconcileOver(false, reg, was, now, now.Keys - rest)
        decreases |rest|
      {
        var n :| n in rest;
        ReconcileMore(reg, was, now, now.Keys - rest, n);
        assert now.Keys - (rest - {n}) == (now.Keys - rest) + {n};
        rest := rest - {n};
        if n in was && SameDef(false, now[n], was[n]) {
          continue;
        }
        Install(now[n]);
        EraseDropped(was, now);
      }
      assert now.Keys - rest == now.Keys;
      Means(reg, was, now);
    }
  }

  /** The names in `seen` that are in the old set and not among `kept` are erased. */
  function Dropped(reg: Registry, was: Defs, kept: set<string>, seen: set<string>): Registry {
    map n | n in reg :: if n in seen && n in was && n !in kept then ERASED else reg[n]
  }

  lemma DroppedMore(reg: Registry, was: Defs, kept: set<string>, seen: set<string>, n: string)
    ensures Dropped(reg, was, kept, {}) == reg
    ensures Dropped(reg, was, kept, seen).Keys == reg.Keys
    ensures Dropped(reg, was, kept, seen + {n}) ==
      if n in reg && n in was && n !in kept then Dropped(reg, was, kept, seen)[n := ERASED]
      else Dropped(reg, was, kept, seen)
  {
  }

  lemma ReconcileNone(reg: Registry, was: Defs, now: Defs)
    ensures ReconcileOver(false, reg, was, now, {}) == reg
  {
  }

  lemma ReconcileMore(reg: Registry, was: Defs, now: Defs, seen: set<string>, n: string)
    requires n in now && seen <= now.Keys
    ensures ReconcileOver(false, reg, was, now, seen + {n}) ==
      if !Changed(false, was, now, n) then ReconcileOver(false, reg, was, now, seen)
      else Dropped(ReconcileOver(false, reg, was, now, seen)[n := Built(now[n])], was, now.Keys, was.Keys)
  {
    hide Built, SameDef;
    var c := set m | m in seen && Changed(false, was, now, m);
    var d := set m | m in seen + {n} && Changed(false, was, now, m);
    if Changed(false, was, now, n) {
      assert d == c + {n};
      assert n in d;
    } else {
      assert d == c;
    }
  }
}
