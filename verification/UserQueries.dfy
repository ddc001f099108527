/** User-defined queries laid over the tables of a server. */
module UserQueries {
  import opened Prelude
  import opened Versions
  import opened Metrics
  import opened Tables
  import opened RowLoop

  datatype MappingOption = MappingOption(usage: string, description: string)

  // One decoded namespace of the user's file. Decoding itself is a parameter: None is a failure.
  datatype UserQuery = UserQuery(
    query: string, metrics: seq<map<string, MappingOption>>, master: bool, cacheSeconds: nat)

  type UserFile = map<string, UserQuery>

  // An unknown usage is reported by the source but read as its zero value, DISCARD.
  function ToUsage(s: string): Usage {
    match s
    case "LABEL" => LABEL
    case "COUNTER" => COUNTER
    case "GAUGE" => GAUGE
    case "HISTOGRAM" => HISTOGRAM
    case "MAPPEDMETRIC" => MAPPEDMETRIC
    case "DURATION" => DURATION
    case _ => DISCARD
  }

  // User columns have no version range.
  function ToColumn(o: MappingOption): Column { Column(ToUsage(o.usage), o.description, None) }

  function ToColumns(entry: map<string, MappingOption>): map<string, Column> {
    map c | c in entry :: ToColumn(entry[c])
  }

  function UserColumns(metrics: seq<map<string, MappingOption>>): map<string, Column> {
    if metrics == [] then map[]
    else UserColumns(metrics[..|metrics| - 1]) + ToColumns(metrics[|metrics| - 1])
  }

  function Declare(q: UserQuery): Declared {
    Declared(UserColumns(q.metrics), q.master, q.cacheSeconds)
  }

  function DeclareAll(u: UserFile): Declarations { map ns | ns in u :: Declare(u[ns]) }

  function QueriesOf(u: UserFile): map<string, Sql> { map ns | ns in u :: UserSql(u[ns].query) }

  // A usage is that of its text; every other text means DISCARD.
  ghost predicate IsUsageOf(usage: Usage, text: string) {
    && (usage.LABEL? <==> text == "LABEL")
    && (usage.COUNTER? <==> text == "COUNTER")
    && (usage.GAUGE? <==> text == "GAUGE")
    && (usage.HISTOGRAM? <==> text == "HISTOGRAM")
    && (usage.MAPPEDMETRIC? <==> text == "MAPPEDMETRIC")
    && (usage.DURATION? <==> text == "DURATION")
  }

  // The last entry that mentions a column decides its usage and its description.
  lemma {:induction false} LaterEntriesWin(metrics: seq<map<string, MappingOption>>, i: nat, c: string)
    requires i < |metrics| && c in metrics[i]
    requires forall j :: i < j < |metrics| ==> c !in metrics[j]
    ensures c in UserColumns(metrics)
    ensures var column := UserColumns(metrics)[c];
            && IsUsageOf(column.usage, metrics[i][c].usage)
            && column.description == metrics[i][c].description && column.supported == None
    decreases |metrics|
  {
    if i < |metrics| - 1 {
      LaterEntriesWin(metrics[..|metrics| - 1], i, c);
    }
  }

  method ReadEntry(base: map<string, Column>, entry: map<string, MappingOption>) returns (columns: map<string, Column>)
    ensures columns == base + ToColumns(entry)
  {
    columns := base;
    var left := entry.Keys;
    MergeDone(base, ToColumns(entry));
    while left != {}
      invariant left <= entry.Keys
      invariant columns == base + (ToColumns(entry) - left)
      decreases |left|
    {
      var c :| c in left;
      MergeOne(base, ToColumns(entry), left, c);
      left := left - {c};
      columns := columns[c := ToColumn(entry[c])];
    }
  }

  method ReadColumns(metrics: seq<map<string, MappingOption>>) returns (columns: map<string, Column>)
    ensures columns == UserColumns(metrics)
  {
    columns := map[];
    for i := 0 to |metrics|
      invariant columns == UserColumns(metrics[..i])
    {
      assert metrics[..i + 1][..i] == metrics[..i];
      columns := ReadEntry(columns, metrics[i]);
    }
    assert metrics[..|metrics|] == metrics;
  }

  // The columns are those that some entry mentions.
  lemma {:induction false} MentionedColumns(metrics: seq<map<string, MappingOption>>)
    ensures UserColumns(metrics).Keys == set i, c | 0 <= i < |metrics| && c in metrics[i] :: c
    decreases |metrics|
  {
    if metrics != [] {
      MentionedColumns(metrics[..|metrics| - 1]);
    }
  }

  method ParseUserQueries(u: UserFile) returns (metricMaps: Declarations, newQueryOverrides: map<string, Sql>)
    ensures metricMaps == DeclareAll(u) && newQueryOverrides == QueriesOf(u)
    ensures metricMaps.Keys == newQueryOverrides.Keys == u.Keys
    ensures forall ns :: ns in u ==>
      && newQueryOverrides[ns] == UserSql(u[ns].query)
      && metricMaps[ns].master == u[ns].master && metricMaps[ns].cacheSeconds == u[ns].cacheSeconds
      && metricMaps[ns].columns.Keys == (set i, c | 0 <= i < |u[ns].metrics| && c in u[ns].metrics[i] :: c)
  {
    metricMaps, newQueryOverrides := map[], map[];
    var left := u.Keys;
    while left != {}
      invariant left <= u.Keys
      invariant metricMaps == map ns | ns in u && ns !in left :: Declare(u[ns])
      invariant newQueryOverrides == map ns | ns in u && ns !in left :: UserSql(u[ns].query)
      decreases |left|
    {
      var ns :| ns in left;
      left := left - {ns};
      newQueryOverrides := newQueryOverrides[ns := UserSql(u[ns].query)];
      var columns := ReadColumns(u[ns].metrics);
      metricMaps := metricMaps[ns := Declared(columns, u[ns].master, u[ns].cacheSeconds)];
    }
    forall ns | ns in u
      ensures metricMaps[ns].columns.Keys == set i, c | 0 <= i < |u[ns].metrics| && c in u[ns].metrics[i] :: c
    {
      MentionedColumns(u[ns].metrics);
    }
  }

  class ServerTables {
    var metricMap: MetricMaps
    var queryOverrides: map<string, Sql>
    const labels: map<string, string>
    const prefix: string

    constructor (labels: map<string, string>, prefix: string)
      ensures metricMap == map[] && queryOverrides == map[]
      ensures this.labels == labels && this.prefix == prefix
    {
      this.labels, this.prefix := labels, prefix;
      metricMap, queryOverrides := map[], map[];
    }

    method MergeMetricMap(extra: MetricMaps)
      modifies this`metricMap
      ensures metricMap == old(metricMap) + extra
    {
      var left := extra.Keys;
      MergeDone(metricMap, extra);
      while left != {}
        invariant left <= extra.Keys
        invariant metricMap == old(metricMap) + (extra - left)
        decreases |left|
      {
        var k :| k in left;
        MergeOne(old(metricMap), extra, left, k);
        left := left - {k};
        metricMap := metricMap[k := extra[k]];
      }
    }

    method MergeOverrides(extra: map<string, Sql>)
      modifies this`queryOverrides
      ensures queryOverrides == old(queryOverrides) + extra
    {
      var left := extra.Keys;
      MergeDone(queryOverrides, extra);
      while left != {}
        invariant left <= extra.Keys
        invariant queryOverrides == old(queryOverrides) + (extra - left)
        decreases |left|
      {
        var k :| k in left;
        MergeOne(old(queryOverrides), extra, left, k);
        left := left - {k};
        queryOverrides := queryOverrides[k := extra[k]];
      }
    }

    // Neither table changes, or both do.
    method AddQueries(content: Option<UserFile>, v: Version) returns (ok: bool, ghost added: MetricMaps)
      modifies this
      ensures ok <==> content.Some?
      ensures !ok ==> metricMap == old(metricMap) && queryOverrides == old(queryOverrides)
      ensures ok ==>
        && IsDescMap(Setup(v, labels, prefix), DeclareAll(content.value), added)
        && metricMap == old(metricMap) + added
        && queryOverrides == old(queryOverrides) + QueriesOf(content.value)
    {
      added := map[];
      if content.None? {
        return false, added;
      }
      var metricMaps, newQueryOverrides := ParseUserQueries(content.value);
      var partialExporterMap := MakeDescMap(Setup(v, labels, prefix), metricMaps);
      added := partialExporterMap;
      MergeMetricMap(partialExporterMap);
      MergeOverrides(newQueryOverrides);
      return true, added;
    }
  }

  // ----- What the overlay means for every namespace, under the default prefix -----

  lemma OverlaidRequest(u: UserFile, overrides: map<string, Sql>, ns: string)
    ensures RequestFor(overrides + QueriesOf(u), ns)
            == if ns !in u then RequestFor(overrides, ns)
               else if u[ns].query == "" then Nothing
               else RunSql(UserSql(u[ns].query))
  {
  }

  lemma OverlaidColumns(s: Setup, u: UserFile, tables: MetricMaps, added: MetricMaps, ns: string)
    requires IsDescMap(s, DeclareAll(u), added) && s.prefix == "pg"
    ensures ns in u ==> ns in added && Compiled(s.version, ns, s.constLabels, Declare(u[ns]), (tables + added)[ns])
    ensures ns !in u ==>
      (ns in tables + added <==> ns in tables) && (ns in tables ==> (tables + added)[ns] == tables[ns])
  {
    DefaultPrefix(s, DeclareAll(u), added, ns);
  }

  // The user's namespaces get the user's columns and run the user's SQL, unless that is empty;
  // every other namespace keeps its entries in both tables.
  lemma OverlayIsExact(s: Setup, u: UserFile, tables: MetricMaps, added: MetricMaps, overrides: map<string, Sql>,
                       ns: string)
    requires IsDescMap(s, DeclareAll(u), added) && s.prefix == "pg"
    ensures ns in u ==>
      && ns in added && Compiled(s.version, ns, s.constLabels, Declare(u[ns]), (tables + added)[ns])
      && RequestFor(overrides + QueriesOf(u), ns) == if u[ns].query == "" then Nothing else RunSql(UserSql(u[ns].query))
    ensures ns !in u ==>
      && (ns in tables + added <==> ns in tables) && (ns in tables ==> (tables + added)[ns] == tables[ns])
      && RequestFor(overrides + QueriesOf(u), ns) == RequestFor(overrides, ns)
  {
    OverlaidColumns(s, u, tables, added, ns);
    OverlaidRequest(u, overrides, ns);
  }

  // ----- Other prefixes -----

  // The table entry of a user namespace moves to its renamed key.
  lemma RenamedColumns(s: Setup, u: UserFile, tables: MetricMaps, added: MetricMaps, ns: string)
    requires IsDescMap(s, DeclareAll(u), added) && KeepsApart(s.prefix, u.Keys) && ns in u
    ensures var name := Rename(ns, s.prefix);
            name in tables + added && CompiledAs(s, ns, Declare(u[ns]), (tables + added)[name])
  {
    OwnDeclaration(s, DeclareAll(u), added, ns);
  }

  // Its query does not: under a prefix that keeps the file's namespaces apart, the columns of a
  // user namespace are those under its renamed key, and that key runs the SQL of whatever
  // namespace of the file has this very name, or else what it ran before: a built-in override, or
  // the select of the new name. So it runs its own SQL exactly when that has the same text.
  lemma PrefixedNamespaceRunsItsSql(s: Setup, u: UserFile, tables: MetricMaps, added: MetricMaps,
                                    overrides: map<string, Sql>, ns: string)
    requires IsDescMap(s, DeclareAll(u), added) && KeepsApart(s.prefix, u.Keys) && ns in u
    ensures var name, all := Rename(ns, s.prefix), tables + added;
            name in all && CompiledAs(s, ns, Declare(u[ns]), all[name])
    ensures var name, request := Rename(ns, s.prefix), RequestFor(overrides + QueriesOf(u), Rename(ns, s.prefix));
            request
            == if name in u && u[name].query == "" then Nothing
               else if name in u then RunSql(UserSql(u[name].query))
               else if name !in overrides then SelectAll(name)
               else if overrides[name] == NoSql || overrides[name] == UserSql("") then Nothing
               else RunSql(overrides[name])
    ensures var name, request := Rename(ns, s.prefix), RequestFor(overrides + QueriesOf(u), Rename(ns, s.prefix));
            u[ns].query != "" ==>
              (request == RunSql(UserSql(u[ns].query))
               <==> if name in u then u[name].query == u[ns].query
                    else name in overrides && overrides[name] == UserSql(u[ns].query))
  {
    RenamedColumns(s, u, tables, added, ns);
    OverlaidRequest(u, overrides, Rename(ns, s.prefix));
  }

  // ----- Which files run as written -----

  // Alphabetical order of names of one length.
  predicate Below(a: string, b: string) {
    |a| == |b| > 0 && (a[0] < b[0] || (a[0] == b[0] && Below(a[1..], b[1..])))
  }

  lemma {:induction false} BelowIsTransitive(a: string, b: string, c: string)
    requires Below(a, b) && Below(b, c)
    ensures Below(a, c)
    decreases |a|
  {
    if a[0] == b[0] == c[0] {
      BelowIsTransitive(a[1..], b[1..], c[1..]);
    }
  }

  lemma {:induction false} NotBelowItself(a: string)
    ensures !Below(a, a)
    decreases |a|
  {
    if a != "" {
      NotBelowItself(a[1..]);
    }
  }

  // Renaming moves names in one direction, which depends on the prefix alone.
  predicate Moves(prefix: string, a: string, b: string) {
    if |prefix| > 2 then |a| < |b|
    else if |prefix| < 2 then |b| < |a|
    else if Below("pg", prefix) then Below(a, b)
    else Below(b, a)
  }

  lemma MovesIsTransitive(prefix: string, a: string, b: string, c: string)
    requires Moves(prefix, a, b) && Moves(prefix, b, c)
    ensures Moves(prefix, a, c)
  {
    if |prefix| == 2 {
      if Below("pg", prefix) {
        BelowIsTransitive(a, b, c);
      } else {
        BelowIsTransitive(c, b, a);
      }
    }
  }

  lemma NothingMovesToItself(prefix: string, a: string)
    ensures !Moves(prefix, a, a)
  {
    NotBelowItself(a);
  }

  lemma {:induction false} BelowAppended(a: string, b: string, rest: string)
    requires Below(a, b)
    ensures Below(a + rest, b + rest)
    decreases |a|
  {
    if a[0] == b[0] {
      BelowAppended(a[1..], b[1..], rest);
      assert (a + rest)[1..] == a[1..] + rest && (b + rest)[1..] == b[1..] + rest;
    }
  }

  lemma OtherPairIsBelow(prefix: string)
    requires |prefix| == 2 && prefix != "pg"
    ensures Below("pg", prefix) || Below(prefix, "pg")
  {
    assert prefix == [prefix[0], prefix[1]];
    assert "pg"[1..] == "g" && prefix[1..] == [prefix[1]];
  }

  lemma FirstPlaceMoves(prefix: string, rest: string)
    requires prefix != "pg"
    ensures Moves(prefix, "pg" + rest, prefix + rest)
  {
    if |prefix| == 2 {
      OtherPairIsBelow(prefix);
      if Below("pg", prefix) {
        BelowAppended("pg", prefix, rest);
      } else {
        BelowAppended(prefix, "pg", rest);
      }
    }
  }

  lemma {:induction false} RenameMoves(name: string, prefix: string)
    requires Rename(name, prefix) != name
    ensures Moves(prefix, name, Rename(name, prefix))
    decreases |name|
  {
    if prefix == "pg" {
      DefaultPrefixKeepsNames(name);
    } else if "pg" <= name {
      assert name == "pg" + name[2..];
      FirstPlaceMoves(prefix, name[2..]);
    } else {
      assert name == [name[0]] + name[1..];
      RenameMoves(name[1..], prefix);
    }
  }

  // Some name of a finite set moves to no other.
  lemma {:induction false} LastMoved(prefix: string, names: set<string>) returns (m: string)
    requires names != {}
    ensures m in names && forall a :: a in names ==> !Moves(prefix, m, a)
    decreases |names|
  {
    m :| m in names;
    if names == {m} {
      NothingMovesToItself(prefix, m);
    } else {
      var n := LastMoved(prefix, names - {m});
      if Moves(prefix, n, m) {
        forall a | a in names
          ensures !Moves(prefix, m, a)
        {
          if a == m {
            NothingMovesToItself(prefix, m);
          } else if Moves(prefix, m, a) {
            MovesIsTransitive(prefix, n, m, a);
          }
        }
      } else {
        m := n;
      }
    }
  }

  lemma MovedStaysMoved(prefix: string, names: set<string>, m: string)
    requires KeepsApart(prefix, names) && m in names && Rename(m, prefix) in names && Rename(m, prefix) != m
    ensures Rename(Rename(m, prefix), prefix) != Rename(m, prefix)
  {
  }

  // Renaming maps no finite set of names into itself but by leaving them alone.
  lemma ClosedMeansUnchanged(prefix: string, names: set<string>)
    requires KeepsApart(prefix, names) && forall ns :: ns in names ==> Rename(ns, prefix) in names
    ensures forall ns :: ns in names ==> Rename(ns, prefix) == ns
  {
    var moved := set ns | ns in names && Rename(ns, prefix) != ns;
    if moved != {} {
      var m := LastMoved(prefix, moved);
      MovedStaysMoved(prefix, names, m);
      RenameMoves(m, prefix);
    }
    forall ns | ns in names
      ensures Rename(ns, prefix) == ns
    {
      assert ns !in moved;
    }
  }

  ghost predicate RunsOwnSql(s: Setup, u: UserFile, overrides: map<string, Sql>, ns: string)
    requires ns in u
  {
    RequestFor(overrides + QueriesOf(u), Rename(ns, s.prefix)) == RunSql(UserSql(u[ns].query))
  }

  lemma OwnSqlNeedsTheName(s: Setup, u: UserFile, overrides: map<string, Sql>, ns: string)
    requires ns in u && u[ns].query != "" && forall k :: k in overrides ==> !overrides[k].UserSql?
    ensures RunsOwnSql(s, u, overrides, ns) ==> Rename(ns, s.prefix) in u
    ensures Rename(ns, s.prefix) == ns ==> RunsOwnSql(s, u, overrides, ns)
  {
    OverlaidRequest(u, overrides, Rename(ns, s.prefix));
  }

  // With built-in overrides only, every namespace of a file runs its own SQL exactly when the
  // prefix renames none of them.
  lemma FileRunsAsWritten(s: Setup, u: UserFile, overrides: map<string, Sql>)
    requires KeepsApart(s.prefix, u.Keys) && forall ns :: ns in u ==> u[ns].query != ""
    requires forall k :: k in overrides ==> !overrides[k].UserSql?
    ensures (forall ns :: ns in u ==> RunsOwnSql(s, u, overrides, ns))
            <==> forall ns :: ns in u ==> Rename(ns, s.prefix) == ns
  {
    if forall ns :: ns in u ==> RunsOwnSql(s, u, overrides, ns) {
      forall ns | ns in u.Keys
        ensures Rename(ns, s.prefix) in u.Keys
      {
        OwnSqlNeedsTheName(s, u, overrides, ns);
      }
      ClosedMeansUnchanged(s.prefix, u.Keys);
    }
    if forall ns :: ns in u ==> Rename(ns, s.prefix) == ns {
      forall ns | ns in u
        ensures RunsOwnSql(s, u, overrides, ns)
      {
        OwnSqlNeedsTheName(s, u, overrides, ns);
      }
    }
  }
}
