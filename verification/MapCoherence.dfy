/**
 The column and query tables of one server under its RWMutex: any number of threads check the
 version, rebuild the tables and scrape. Every field access is one step.
 */
module MapCoherence {
  import opened Prelude
  import opened Versions
  import opened Metrics
  import opened Tables
  import opened UserQueries

  datatype TableSet = TableSet(metricMap: MetricMaps, overrides: map<string, Sql>)

  const NOTHING := TableSet(map[], map[])

  // The three fields a rebuild writes. The table of columns starts out nil.
  datatype Shared = Shared(version: Version, metricMap: Option<MetricMaps>, overrides: map<string, Sql>)

  const FRESH := Shared(Version(0, 0, 0), None, map[])

  // What a rebuild for a version may start from, and what the user's file may add to it.
  datatype Sources = Sources(base: (Version, TableSet) -> bool, user: (Version, TableSet) -> bool)

  datatype Phase =
    | Idle
    | Fetched(v: Version)
    | SameVersion(v: Version)
    | Locking(v: Version)
    | AtMap(v: Version)
    | AtOverrides(v: Version, base: TableSet)
    | AtVersion(v: Version, base: TableSet)
    | AtUser(v: Version, base: TableSet)
    | MergingMap(v: Version, base: TableSet, user: TableSet, left: set<string>)
    | MergingOverrides(v: Version, base: TableSet, user: TableSet, left: set<string>)
    | RLocking(known: Option<Version>)
    | Reading(known: Option<Version>)
    | SawMap(known: Option<Version>, m: MetricMaps)
    | SawBoth(known: Option<Version>, m: MetricMaps, o: map<string, Sql>)

  datatype World = World(shared: Shared, writer: Option<nat>, readers: set<nat>, threads: map<nat, Phase>)

  datatype Action =
    | Fetch(version: Version)
    | FetchFails
    | TestVersion
    | TestMap
    | Lock
    | SetMap(base: TableSet)
    | SetOverrides
    | SetVersion
    | NoUserTables
    | ReadUserTables(user: TableSet)
    | MergeMapKey(k: string)
    | MapMerged
    | MergeOverrideKey(k: string)
    | Unlock
    | RLock
    | ReadMap
    | ReadOverrides
    | RUnlock

  predicate Writes(p: Phase) {
    p.AtMap? || p.AtOverrides? || p.AtVersion? || p.AtUser? || p.MergingMap? || p.MergingOverrides?
  }

  predicate Reads(p: Phase) { p.Reading? || p.SawMap? || p.SawBoth? }

  function MapOf(s: Shared): MetricMaps {
    match s.metricMap
    case Some(m) => m
    case None => map[]
  }

  // ----- Steps of one thread -----

  ghost predicate Enabled(src: Sources, w: World, p: Phase, a: Action) {
    match a
    case Fetch(_) => p.Idle?
    case FetchFails => p.Idle?
    case TestVersion => p.Fetched?
    case TestMap => p.SameVersion?
    case Lock => p.Locking? && w.writer.None? && w.readers == {}
    case SetMap(base) => p.AtMap? && src.base(p.v, base)
    case SetOverrides => p.AtOverrides?
    case SetVersion => p.AtVersion?
    case NoUserTables => p.AtUser?
    case ReadUserTables(user) => p.AtUser? && src.user(p.v, user)
    case MergeMapKey(k) => p.MergingMap? && k in p.left && k in p.user.metricMap
    case MapMerged => p.MergingMap? && p.left == {}
    case MergeOverrideKey(k) => p.MergingOverrides? && k in p.left && k in p.user.overrides
    case Unlock => p.MergingOverrides? && p.left == {}
    case RLock => p.RLocking? && w.writer.None?
    case ReadMap => p.Reading?
    case ReadOverrides => p.SawMap?
    case RUnlock => Reads(p)
  }

  ghost function Move(src: Sources, w: World, p: Phase, a: Action): Phase
    requires Enabled(src, w, p, a)
  {
    match a
    case Fetch(v) => Fetched(v)
    case FetchFails => RLocking(None)
    case TestVersion => if p.v != w.shared.version then Locking(p.v) else SameVersion(p.v)
    case TestMap => if w.shared.metricMap.None? then Locking(p.v) else RLocking(Some(p.v))
    case Lock => AtMap(p.v)
    case SetMap(base) => AtOverrides(p.v, base)
    case SetOverrides => AtVersion(p.v, p.base)
    case SetVersion => AtUser(p.v, p.base)
    case NoUserTables => MergingOverrides(p.v, p.base, NOTHING, {})
    case ReadUserTables(user) => MergingMap(p.v, p.base, user, user.metricMap.Keys)
    case MergeMapKey(k) => MergingMap(p.v, p.base, p.user, p.left - {k})
    case MapMerged => MergingOverrides(p.v, p.base, p.user, p.user.overrides.Keys)
    case MergeOverrideKey(k) => MergingOverrides(p.v, p.base, p.user, p.left - {k})
    case Unlock => RLocking(Some(p.v))
    case RLock => Reading(p.known)
    case ReadMap => SawMap(p.known, MapOf(w.shared))
    case ReadOverrides => SawBoth(p.known, p.m, w.shared.overrides)
    case RUnlock => Idle
  }

  ghost function Write(src: Sources, w: World, p: Phase, a: Action): Shared
    requires Enabled(src, w, p, a)
  {
    var s := w.shared;
    match a
    case SetMap(base) => s.(metricMap := Some(base.metricMap))
    case SetOverrides => s.(overrides := p.base.overrides)
    case SetVersion => s.(version := p.v)
    case MergeMapKey(k) => s.(metricMap := Some(MapOf(s)[k := p.user.metricMap[k]]))
    case MergeOverrideKey(k) => s.(overrides := s.overrides[k := p.user.overrides[k]])
    case _ => s
  }

  ghost function Next(src: Sources, w: World, t: nat, a: Action): World
    requires t in w.threads && Enabled(src, w, w.threads[t], a)
  {
    var p := w.threads[t];
    World(Write(src, w, p, a),
          if a.Lock? then Some(t) else if a.Unlock? then None else w.writer,
          if a.RLock? then w.readers + {t} else if a.RUnlock? then w.readers - {t} else w.readers,
          w.threads[t := Move(src, w, p, a)])
  }

  ghost predicate Initial(w: World) {
    && w.shared == FRESH && w.writer.None? && w.readers == {}
    && forall t :: t in w.threads ==> w.threads[t].Idle?
  }

  datatype Stamp = Stamp(thread: nat, action: Action)

  ghost predicate IsRun(src: Sources, worlds: seq<World>, stamps: seq<Stamp>) {
    && |worlds| == |stamps| + 1 && Initial(worlds[0])
    && forall i :: 0 <= i < |stamps| ==> IsStep(src, worlds[i], stamps[i], worlds[i + 1])
  }

  ghost predicate IsStep(src: Sources, w: World, s: Stamp, w': World) {
    && s.thread in w.threads && Enabled(src, w, w.threads[s.thread], s.action)
    && w' == Next(src, w, s.thread, s.action)
  }

  // ----- Coherence -----

  // A map and overrides that come from one rebuild for version v plus its user overlay.
  ghost predicate FromRebuild(src: Sources, v: Version, m: MetricMaps, o: map<string, Sql>) {
    exists base, user :: FromParts(src, v, base, user)
      && m == base.metricMap + user.metricMap && o == base.overrides + user.overrides
  }

  ghost predicate FromParts(src: Sources, v: Version, base: TableSet, user: TableSet) {
    src.base(v, base) && (user == NOTHING || src.user(v, user))
  }

  ghost predicate Coherent(src: Sources, s: Shared) {
    s == FRESH || (s.metricMap.Some? && FromRebuild(src, s.version, s.metricMap.value, s.overrides))
  }

  // What the thread that holds the write lock has already written.
  ghost predicate Written(src: Sources, s: Shared, p: Phase) {
    match p
    case AtOverrides(v, base) => src.base(v, base) && s.metricMap == Some(base.metricMap)
    case AtVersion(v, base) => src.base(v, base) && s == Shared(s.version, Some(base.metricMap), base.overrides)
    case AtUser(v, base) => src.base(v, base) && s == Shared(v, Some(base.metricMap), base.overrides)
    case MergingMap(v, base, user, left) =>
      && FromParts(src, v, base, user) && left <= user.metricMap.Keys
      && s == Shared(v, Some(base.metricMap + (user.metricMap - left)), base.overrides)
    case MergingOverrides(v, base, user, left) =>
      && FromParts(src, v, base, user) && left <= user.overrides.Keys
      && s == Shared(v, Some(base.metricMap + user.metricMap), base.overrides + (user.overrides - left))
    case _ => true
  }

  ghost predicate Sees(s: Shared, p: Phase) {
    match p
    case SawMap(_, m) => m == MapOf(s)
    case SawBoth(_, m, o) => m == MapOf(s) && o == s.overrides
    case _ => true
  }

  // The mutex: the writer excludes everybody, and the phases agree with it.
  ghost predicate LockInv(w: World) {
    && (w.writer.Some? ==> w.readers == {})
    && (forall t :: t in w.threads ==> (Writes(w.threads[t]) <==> w.writer == Some(t)))
    && (forall t :: t in w.threads ==> (Reads(w.threads[t]) <==> t in w.readers))
  }

  ghost predicate AllAccounted(src: Sources, w: World) {
    forall t :: t in w.threads ==> Written(src, w.shared, w.threads[t]) && Sees(w.shared, w.threads[t])
  }

  ghost predicate Inv(src: Sources, w: World) {
    LockInv(w) && AllAccounted(src, w) && (w.writer.None? ==> Coherent(src, w.shared))
  }

  // Only the holder of the write lock changes a field, and it keeps its own account right.
  lemma WriteKeeps(src: Sources, w: World, p: Phase, a: Action)
    requires Enabled(src, w, p, a) && Written(src, w.shared, p)
    ensures Written(src, Write(src, w, p, a), Move(src, w, p, a))
    ensures !Writes(p) ==> Write(src, w, p, a) == w.shared
  {
    match a {
      case NoUserTables =>
        MergeDone(p.base.metricMap, NOTHING.metricMap);
        MergeDone(p.base.overrides, NOTHING.overrides);
      case ReadUserTables(user) =>
        MergeDone(p.base.metricMap, user.metricMap);
      case MergeMapKey(k) =>
        MergeOne(p.base.metricMap, p.user.metricMap, p.left, k);
      case MapMerged =>
        MergeDone(p.base.metricMap, p.user.metricMap);
        MergeDone(p.base.overrides, p.user.overrides);
      case MergeOverrideKey(k) =>
        MergeOne(p.base.overrides, p.user.overrides, p.left, k);
      case _ =>
    }
  }

  lemma UnlockIsCoherent(src: Sources, s: Shared, p: Phase)
    requires p.MergingOverrides? && p.left == {} && Written(src, s, p)
    ensures Coherent(src, s)
  {
  }

  lemma LockKeeps(src: Sources, w: World, s: Stamp, w': World)
    requires LockInv(w) && IsStep(src, w, s, w')
    ensures LockInv(w')
  {
  }

  lemma OthersAreIdleOrUnaffected(w: World, t: nat, writer: nat)
    requires LockInv(w) && t in w.threads && t != writer && w.writer == Some(writer)
    ensures !Writes(w.threads[t]) && !Reads(w.threads[t])
  {
  }

  lemma AccountsKeep(src: Sources, w: World, s: Stamp, w': World)
    requires LockInv(w) && AllAccounted(src, w) && IsStep(src, w, s, w')
    ensures AllAccounted(src, w')
    ensures !Writes(w.threads[s.thread]) ==> w'.shared == w.shared
  {
    var p := w.threads[s.thread];
    WriteKeeps(src, w, p, s.action);
    forall t | t in w'.threads
      ensures Written(src, w'.shared, w'.threads[t]) && Sees(w'.shared, w'.threads[t])
    {
      if t != s.thread && Writes(p) {
        OthersAreIdleOrUnaffected(w, t, s.thread);
      }
    }
  }

  lemma StepKeeps(src: Sources, w: World, s: Stamp, w': World)
    requires Inv(src, w) && IsStep(src, w, s, w')
    ensures Inv(src, w')
  {
    LockKeeps(src, w, s, w');
    AccountsKeep(src, w, s, w');
    if s.action.Unlock? {
      UnlockIsCoherent(src, w.shared, w.threads[s.thread]);
    }
  }

  lemma {:induction false} RunKeeps(src: Sources, worlds: seq<World>, stamps: seq<Stamp>, i: nat)
    requires IsRun(src, worlds, stamps) && i < |worlds|
    ensures Inv(src, worlds[i])
  {
    if i > 0 {
      RunKeeps(src, worlds, stamps, i - 1);
      assert IsStep(src, worlds[i - 1], stamps[i - 1], worlds[i]);
      StepKeeps(src, worlds[i - 1], stamps[i - 1], worlds[i]);
    }
  }

  // Whenever the write lock is free, all three fields come from one rebuild, or none was made.
  lemma TablesAreCoherent(src: Sources, worlds: seq<World>, stamps: seq<Stamp>, i: nat)
    requires IsRun(src, worlds, stamps) && i < |worlds|
    ensures worlds[i].writer.None? ==> Coherent(src, worlds[i].shared)
  {
    RunKeeps(src, worlds, stamps, i);
  }

  // No scrape ever holds a half-built or mixed pair of tables.
  lemma ScrapesSeeOneRebuild(src: Sources, worlds: seq<World>, stamps: seq<Stamp>, i: nat, t: nat)
    requires IsRun(src, worlds, stamps) && i < |worlds| && t in worlds[i].threads && worlds[i].threads[t].SawBoth?
    ensures var p := worlds[i].threads[t];
            (p.m == map[] && p.o == map[]) || FromRebuild(src, worlds[i].shared.version, p.m, p.o)
  {
    RunKeeps(src, worlds, stamps, i);
    assert Reads(worlds[i].threads[t]);
    assert Sees(worlds[i].shared, worlds[i].threads[t]);
  }

  // ----- A server whose version does not change -----

  ghost predicate OneVersion(stamps: seq<Stamp>, v: Version) {
    forall i :: 0 <= i < |stamps| && stamps[i].action.Fetch? ==> stamps[i].action.version == v
  }

  ghost predicate Built(s: Shared, v: Version) { s.metricMap.Some? && s.version == v }

  // How far the rebuild for v has come when a thread is in this phase.
  ghost predicate Knows(s: Shared, p: Phase, v: Version) {
    match p
    case Idle => true
    case Fetched(v') => v' == v
    case SameVersion(v') => v' == v && s.version == v
    case Locking(v') => v' == v
    case AtMap(v') => v' == v
    case AtOverrides(v', _) => v' == v && s.metricMap.Some?
    case AtVersion(v', _) => v' == v && s.metricMap.Some?
    case AtUser(v', _) => v' == v && Built(s, v)
    case MergingMap(v', _, _, _) => v' == v && Built(s, v)
    case MergingOverrides(v', _, _, _) => v' == v && Built(s, v)
    case RLocking(known) => known.Some? ==> Built(s, v)
    case Reading(known) => known.Some? ==> Built(s, v)
    case SawMap(known, _) => known.Some? ==> Built(s, v)
    case SawBoth(known, _, _) => known.Some? ==> Built(s, v)
  }

  ghost predicate AllKnow(w: World, v: Version) {
    forall t :: t in w.threads ==> Knows(w.shared, w.threads[t], v)
  }

  lemma {:induction false} RunKnows(src: Sources, worlds: seq<World>, stamps: seq<Stamp>, v: Version, i: nat)
    requires IsRun(src, worlds, stamps) && OneVersion(stamps, v) && i < |worlds|
    ensures AllKnow(worlds[i], v)
  {
    if i > 0 {
      RunKnows(src, worlds, stamps, v, i - 1);
      var w, w', s := worlds[i - 1], worlds[i], stamps[i - 1];
      assert IsStep(src, w, s, w');
      assert w.shared.metricMap.Some? ==> w'.shared.metricMap.Some?;
      assert Knows(w.shared, w.threads[s.thread], v);
      assert w.shared.version == v ==> w'.shared.version == v;
      forall t | t in w'.threads
        ensures Knows(w'.shared, w'.threads[t], v)
      {
        assert Knows(w.shared, w.threads[t], v);
      }
    }
  }

  // Then a scrape whose version check succeeded sees the tables of that version, although the
  // test before the rebuild takes no lock.
  lemma CheckedScrapesSeeTheirVersion(src: Sources, worlds: seq<World>, stamps: seq<Stamp>, v: Version, i: nat, t: nat)
    requires IsRun(src, worlds, stamps) && OneVersion(stamps, v) && i < |worlds|
    requires t in worlds[i].threads && worlds[i].threads[t].SawBoth? && worlds[i].threads[t].known.Some?
    ensures FromRebuild(src, v, worlds[i].threads[t].m, worlds[i].threads[t].o)
  {
    RunKeeps(src, worlds, stamps, i);
    RunKnows(src, worlds, stamps, v, i);
    var w := worlds[i];
    assert Knows(w.shared, w.threads[t], v) && Reads(w.threads[t]) && Sees(w.shared, w.threads[t]);
  }

  // Nobody has come, or is about to come, for the write lock.
  ghost predicate Settled(w: World, v: Version) {
    Built(w.shared, v) && forall t :: t in w.threads ==> !w.threads[t].Locking? && !Writes(w.threads[t])
  }

  lemma SettledStep(src: Sources, w: World, s: Stamp, w': World, v: Version)
    requires IsStep(src, w, s, w') && Settled(w, v) && AllKnow(w, v)
    ensures Settled(w', v) && w'.shared == w.shared
  {
    assert Knows(w.shared, w.threads[s.thread], v);
  }

  // From then on no check leads to a rebuild: the tables stay for as long as the version does.
  lemma {:induction false} SettledTablesStay(src: Sources, worlds: seq<World>, stamps: seq<Stamp>, v: Version, i: nat,
                                             j: nat)
    requires IsRun(src, worlds, stamps) && OneVersion(stamps, v) && i <= j < |worlds| && Settled(worlds[i], v)
    ensures Settled(worlds[j], v) && worlds[j].shared == worlds[i].shared
    decreases j
  {
    if i < j {
      SettledTablesStay(src, worlds, stamps, v, i, j - 1);
      RunKnows(src, worlds, stamps, v, j - 1);
      assert IsStep(src, worlds[j - 1], stamps[j - 1], worlds[j]);
      SettledStep(src, worlds[j - 1], stamps[j - 1], worlds[j], v);
    }
  }

  // ----- A check that fails -----

  // The steps of one thread alone.
  ghost predicate Leads(src: Sources, w: World, t: nat, actions: seq<Action>, w': World)
    decreases |actions|
  {
    if actions == [] then w' == w
    else
      && t in w.threads && Enabled(src, w, w.threads[t], actions[0])
      && Leads(src, Next(src, w, t, actions[0]), t, actions[1..], w')
  }

  lemma LeadsOn(src: Sources, w: World, t: nat, a: Action, rest: seq<Action>, w': World)
    requires t in w.threads && Enabled(src, w, w.threads[t], a) && Leads(src, Next(src, w, t, a), t, rest, w')
    ensures Leads(src, w, t, [a] + rest, w')
  {
    assert ([a] + rest)[1..] == rest;
  }

  // When the version cannot be fetched the scrape goes on, with the tables as they are.
  lemma FailedCheckStillScrapes(src: Sources, w: World, t: nat) returns (w': World)
    requires t in w.threads && w.threads[t].Idle? && w.writer.None?
    ensures Leads(src, w, t, [FetchFails, RLock, ReadMap, ReadOverrides], w')
    ensures w'.shared == w.shared && t in w'.threads
    ensures w'.threads[t] == SawBoth(None, MapOf(w.shared), w.shared.overrides)
  {
    var w1 := Next(src, w, t, FetchFails);
    var w2 := Next(src, w1, t, RLock);
    var w3 := Next(src, w2, t, ReadMap);
    w' := Next(src, w3, t, ReadOverrides);
    LeadsOn(src, w3, t, ReadOverrides, [], w');
    LeadsOn(src, w2, t, ReadMap, [ReadOverrides] + [], w');
    LeadsOn(src, w1, t, RLock, [ReadMap] + ([ReadOverrides] + []), w');
    LeadsOn(src, w, t, FetchFails, [RLock] + ([ReadMap] + ([ReadOverrides] + [])), w');
    assert [FetchFails] + ([RLock] + ([ReadMap] + ([ReadOverrides] + [])))
      == [FetchFails, RLock, ReadMap, ReadOverrides];
  }

  // ----- The exporter's own sources -----

  // files holds for every content the user's file may decode to.
  datatype Exporter = Exporter(
    builtins: Declarations, disableDefaults: bool, labels: map<string, string>, files: UserFile -> bool)

  function SetupOf(e: Exporter, v: Version): Setup { Setup(v, e.labels, "pg") }

  ghost predicate IsDefault(e: Exporter, v: Version, t: TableSet) {
    && !e.disableDefaults && IsDescMap(SetupOf(e, v), e.builtins, t.metricMap)
    && t.overrides == OverrideMap(v, BuiltinOverrides())
  }

  ghost predicate IsFile(e: Exporter, v: Version, u: UserFile, t: TableSet) {
    e.files(u) && IsDescMap(SetupOf(e, v), DeclareAll(u), t.metricMap) && t.overrides == QueriesOf(u)
  }

  ghost function SourcesOf(e: Exporter): Sources {
    Sources((v, t) => t == NOTHING || IsDefault(e, v, t), (v, t) => exists u: UserFile :: IsFile(e, v, u, t))
  }

  // A namespace of the user's file has the file's columns and SQL.
  ghost predicate UsersOwn(e: Exporter, v: Version, u: UserFile, m: MetricMaps, o: map<string, Sql>, ns: string)
    requires ns in u
  {
    && ns in m && Compiled(v, ns, e.labels, Declare(u[ns]), m[ns])
    && ns in o && o[ns] == UserSql(u[ns].query)
  }

  // Any other namespace has what a rebuild for this version gives it, in both tables: the built-in
  // columns and override, or neither when no defaults were built.
  ghost predicate BuiltIn(e: Exporter, v: Version, defaults: bool, m: MetricMaps, o: map<string, Sql>, ns: string) {
    && (ns in m <==> defaults && ns in e.builtins)
    && (ns in m && ns in e.builtins ==> Compiled(v, ns, e.labels, e.builtins[ns], m[ns]))
    && (ns in o <==> defaults && ns in BuiltinOverrides())
    && (ns in o && ns in BuiltinOverrides() ==> o[ns] == FirstMatch(BuiltinOverrides()[ns], v))
  }

  // One version, one file that was read (or none), one choice of defaults, for the whole pair.
  ghost predicate OnePair(e: Exporter, v: Version, u: UserFile, defaults: bool, m: MetricMaps, o: map<string, Sql>) {
    && (u == map[] || e.files(u)) && (defaults ==> !e.disableDefaults)
    && (forall ns :: ns in u ==> UsersOwn(e, v, u, m, o, ns))
    && forall ns :: ns !in u ==> BuiltIn(e, v, defaults, m, o, ns)
  }

  // The empty overlay is that of an empty file.
  ghost predicate FromFile(e: Exporter, v: Version, u: UserFile, t: TableSet) {
    if u == map[] then t == NOTHING else IsFile(e, v, u, t)
  }

  lemma EmptyFileAddsNothing(e: Exporter, v: Version, t: TableSet)
    requires IsFile(e, v, map[], t)
    ensures t == NOTHING
  {
    forall ns: string
      ensures ns !in t.metricMap
    {
      DefaultPrefix(SetupOf(e, v), DeclareAll(map[]), t.metricMap, ns);
    }
    assert t.metricMap == map[] && t.overrides == map[];
  }

  lemma UsersPart(e: Exporter, v: Version, u: UserFile, base: TableSet, user: TableSet, ns: string)
    requires FromFile(e, v, u, user)
    ensures ns in u ==> UsersOwn(e, v, u, base.metricMap + user.metricMap, base.overrides + user.overrides, ns)
    ensures ns !in u ==> ns !in user.metricMap && ns !in user.overrides
  {
    if u != map[] {
      DefaultPrefix(SetupOf(e, v), DeclareAll(u), user.metricMap, ns);
    }
  }

  lemma BuiltInPart(e: Exporter, v: Version, defaults: bool, base: TableSet, ns: string)
    requires if defaults then IsDefault(e, v, base) else base == NOTHING
    ensures BuiltIn(e, v, defaults, base.metricMap, base.overrides, ns)
  {
    if defaults {
      DefaultPrefix(SetupOf(e, v), e.builtins, base.metricMap, ns);
    }
  }

  lemma PairOf(e: Exporter, v: Version, u: UserFile, defaults: bool, base: TableSet, user: TableSet)
    requires (u == map[] || e.files(u)) && (defaults ==> !e.disableDefaults)
    requires FromFile(e, v, u, user)
    requires if defaults then IsDefault(e, v, base) else base == NOTHING
    ensures OnePair(e, v, u, defaults, base.metricMap + user.metricMap, base.overrides + user.overrides)
  {
    forall ns: string
      ensures ns in u ==> UsersOwn(e, v, u, base.metricMap + user.metricMap, base.overrides + user.overrides, ns)
      ensures ns !in u ==> BuiltIn(e, v, defaults, base.metricMap + user.metricMap, base.overrides + user.overrides, ns)
    {
      UsersPart(e, v, u, base, user, ns);
      BuiltInPart(e, v, defaults, base, ns);
    }
  }

  // In every run, the two tables a scrape sees are those of one version and at most one file that
  // was read: exactly the namespaces of that file have its columns, and they have its SQL; all
  // others are built in, in both tables.
  lemma PairsBelongTogether(e: Exporter, worlds: seq<World>, stamps: seq<Stamp>, i: nat, t: nat)
    returns (u: UserFile, defaults: bool)
    requires IsRun(SourcesOf(e), worlds, stamps) && i < |worlds|
    requires t in worlds[i].threads && worlds[i].threads[t].SawBoth?
    ensures OnePair(e, worlds[i].shared.version, u, defaults, worlds[i].threads[t].m, worlds[i].threads[t].o)
  {
    ScrapesSeeOneRebuild(SourcesOf(e), worlds, stamps, i, t);
    var p, v := worlds[i].threads[t], worlds[i].shared.version;
    if !FromRebuild(SourcesOf(e), v, p.m, p.o) {
      u, defaults := map[], false;
      PairOf(e, v, u, defaults, NOTHING, NOTHING);
    } else {
      var base, user :| FromParts(SourcesOf(e), v, base, user)
        && p.m == base.metricMap + user.metricMap && p.o == base.overrides + user.overrides;
      defaults := base != NOTHING;
      u := map[];
      if user != NOTHING {
        u :| IsFile(e, v, u, user);
        if u == map[] {
          EmptyFileAddsNothing(e, v, user);
        }
      }
      PairOf(e, v, u, defaults, base, user);
    }
  }
}
