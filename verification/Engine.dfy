/**
 The whole engine: compiled tables, the row loop over the answers of the database, and the shared
 cache, put together.
 */
module Engine {
  import opened Prelude
  import opened Metrics
  import opened Versions
  import opened Tables
  import opened RowLoop
  import UserQueries
  import Cache = ScrapeCache
  import opened ConcurrentScrapes
  import Coherence = MapCoherence
  import Rebuilds

  // What a scrape needs besides its tables to run queries.
  datatype Source = Source(driver: Driver, overrides: map<string, Sql>, serverLabels: map<string, string>)

  // What becomes of an answer to the query of a namespace.
  function ScanOf(src: Source, ns: string, mapping: Namespace, resp: Response): Scan
    requires WellLabelled(mapping) && ShapedResponse(resp)
  {
    if RequestFor(src.overrides, ns).Nothing? then Done([], [])
    else Interpret(src.driver, ns, mapping, src.serverLabels, resp)
  }

  // The metrics of a finished scan count; a fatal failure delivers none; a panic delivers nothing.
  function OutcomeOf(scan: Scan): Option<Outcome> {
    match scan
    case Done(metrics, _) => Some(Rows(metrics))
    case Aborted(_) => Some(Failed)
    case Panic => None
  }

  // A failed query or a scan that is cut short delivers nothing; a finished scan its metrics.
  ghost predicate IsOutcome(src: Source, ns: string, mapping: Namespace, resp: Response, r: Option<Outcome>)
    requires WellLabelled(mapping) && ShapedResponse(resp)
  {
    match resp
    case QueryError => r == Some(Failed)
    case ColumnsError => r == Some(Failed)
    case Result(names, rows) =>
      match ScanRows(Env(src.driver, ns, mapping, names, src.serverLabels), rows)
      case Done(metrics, _) => r == Some(Rows(metrics))
      case Aborted(_) => r == Some(Failed)
      case Panic => r == None
  }

  method RunQuery(src: Source, db: Request -> Response, ns: string, mapping: Namespace) returns (r: Option<Outcome>)
    requires WellLabelled(mapping) && forall q :: ShapedResponse(db(q))
    ensures r == OutcomeOf(ScanOf(src, ns, mapping, db(RequestFor(src.overrides, ns))))
    // A disabled namespace delivers nothing and is no failure.
    ensures ns in src.overrides && (src.overrides[ns] == NoSql || src.overrides[ns] == UserSql("")) ==>
      r == Some(Rows([]))
    ensures ns !in src.overrides ==> IsOutcome(src, ns, mapping, db(SelectAll(ns)), r)
    ensures ns in src.overrides && src.overrides[ns] != NoSql && src.overrides[ns] != UserSql("") ==>
      IsOutcome(src, ns, mapping, db(RunSql(src.overrides[ns])), r)
  {
    var scan := QueryNamespace(src.driver, db, src.overrides, ns, mapping, src.serverLabels);
    return OutcomeOf(scan);
  }

  // Every table was compiled from some declaration, for some version, in some order.
  ghost predicate TablesCompiled(tables: MetricMaps) {
    forall ns :: ns in tables ==> IsCompiled(tables[ns])
  }

  ghost predicate IsCompiled(r: Namespace) {
    exists v, name, constLabels, d :: Compiled(v, name, constLabels, d, r)
  }

  // So the row loop is defined on every table.
  lemma CompiledTablesAreLabelled(tables: MetricMaps, ns: string)
    requires TablesCompiled(tables) && ns in tables
    ensures WellLabelled(tables[ns])
  {
    var v, name, constLabels, d :| Compiled(v, name, constLabels, d, tables[ns]);
    CompiledIsLabelled(v, name, constLabels, d, tables[ns]);
  }

  // Compiling and overlaying give such tables, under any prefix.
  lemma {:induction false} FiledAreCompiled(s: Setup, declared: Declarations, results: MetricMaps, order: seq<string>)
    requires AllCompiled(s, declared, results.Keys, results) && forall i :: 0 <= i < |order| ==> order[i] in results
    ensures TablesCompiled(Filed(results, s.prefix, order))
    decreases |order|
  {
    if order != [] {
      var ns := order[|order| - 1];
      FiledAreCompiled(s, declared, results, order[..|order| - 1]);
      assert CompiledAs(s, ns, declared[ns], results[ns]);
    }
  }

  lemma DescMapIsCompiled(s: Setup, declared: Declarations, m: MetricMaps)
    requires IsDescMap(s, declared, m)
    ensures TablesCompiled(m)
  {
    var order, results :| MadeBy(s, declared, declared.Keys, m, order, results);
    FiledAreCompiled(s, declared, results, order);
  }

  lemma OverlaidTablesAreCompiled(tables: MetricMaps, added: MetricMaps)
    requires TablesCompiled(tables) && TablesCompiled(added)
    ensures TablesCompiled(tables + added)
  {
  }

  lemma DefaultsAreCompiled(e: Coherence.Exporter, v: Version, base: Coherence.TableSet)
    requires Coherence.SourcesOf(e).base(v, base)
    ensures TablesCompiled(base.metricMap)
  {
    if base != Coherence.NOTHING {
      DescMapIsCompiled(Coherence.SetupOf(e, v), e.builtins, base.metricMap);
    }
  }

  lemma FilesAreCompiled(e: Coherence.Exporter, v: Version, user: Coherence.TableSet)
    requires user == Coherence.NOTHING || Coherence.SourcesOf(e).user(v, user)
    ensures TablesCompiled(user.metricMap)
  {
    if user != Coherence.NOTHING {
      var u :| Coherence.IsFile(e, v, u, user);
      DescMapIsCompiled(Coherence.SetupOf(e, v), UserQueries.DeclareAll(u), user.metricMap);
    }
  }

  // In every run of the exporter, whatever tables a scrape sees were compiled.
  lemma SeenTablesAreCompiled(e: Coherence.Exporter, worlds: seq<Coherence.World>, stamps: seq<Coherence.Stamp>,
                              i: nat, t: nat)
    requires Coherence.IsRun(Coherence.SourcesOf(e), worlds, stamps) && i < |worlds|
    requires t in worlds[i].threads && worlds[i].threads[t].SawBoth?
    ensures TablesCompiled(worlds[i].threads[t].m)
  {
    Coherence.ScrapesSeeOneRebuild(Coherence.SourcesOf(e), worlds, stamps, i, t);
    var p, v := worlds[i].threads[t], worlds[i].shared.version;
    if Coherence.FromRebuild(Coherence.SourcesOf(e), v, p.m, p.o) {
      var base, user :| Coherence.FromParts(Coherence.SourcesOf(e), v, base, user)
        && p.m == base.metricMap + user.metricMap && p.o == base.overrides + user.overrides;
      DefaultsAreCompiled(e, v, base);
      FilesAreCompiled(e, v, user);
      OverlaidTablesAreCompiled(base.metricMap, user.metricMap);
    }
  }

  // The logged outcome is what the row loop makes of this answer.
  ghost predicate Scanned(cfg: Cache.Config, src: Source, q: Query, resp: Response) {
    && q.ns in cfg.tables && ShapedResponse(resp)
    && (WellLabelled(cfg.tables[q.ns]) ==> OutcomeOf(ScanOf(src, q.ns, cfg.tables[q.ns], resp)) == Some(q.outcome))
  }

  // The answers of the database, one for each logged query.
  ghost predicate AllScanned(cfg: Cache.Config, src: Source, log: seq<Query>, resps: seq<Response>) {
    |resps| == |log| && forall i :: 0 <= i < |log| ==> Scanned(cfg, src, log[i], resps[i])
  }

  // This metric is that of cell (r, c) of the answer: it carries the value, the type and the
  // descriptor of that cell, and its labels are read from row r.
  ghost predicate IsCellOf(src: Source, ns: string, mapping: Namespace, resp: Response, m: Metric, r: nat, c: nat) {
    && WellLabelled(mapping) && resp.Result? && r < |resp.rows| && resp.rows[r].Some?
    && var env, row := Env(src.driver, ns, mapping, resp.names, src.serverLabels), resp.rows[r].value;
    && LabelsReadable(env) && |row| == |resp.names| && c < |row|
    && CellAt(env, row, c) == Emit(m) && Paired(env, row, m) && Carries(env, row, c, m)
  }

  lemma ScannedMetric(cfg: Cache.Config, src: Source, q: Query, resp: Response, k: nat) returns (r: nat, c: nat)
    requires TablesCompiled(cfg.tables) && Scanned(cfg, src, q, resp) && k < |Emitted(q.outcome)|
    ensures IsCellOf(src, q.ns, cfg.tables[q.ns], resp, Emitted(q.outcome)[k], r, c)
  {
    CompiledTablesAreLabelled(cfg.tables, q.ns);
    var env := Env(src.driver, q.ns, cfg.tables[q.ns], resp.names, src.serverLabels);
    r, c := LabelPairing(env, resp.rows, k);
  }

  // Metrics that a logged query backs are those of cells of its answer.
  lemma BackedIsACell(cfg: Cache.Config, src: Source, log: seq<Query>, resps: seq<Response>, ns: string,
                      metrics: seq<Metric>, from: Cache.Time, now: Cache.Time, k: nat)
    returns (q: nat, r: nat, c: nat)
    requires TablesCompiled(cfg.tables) && AllScanned(cfg, src, log, resps)
    requires Backed(log, ns, metrics, from, now) && k < |metrics|
    ensures q < |log| && log[q].ns == ns && ns in cfg.tables && from <= log[q].begin
    ensures IsCellOf(src, ns, cfg.tables[ns], resps[q], metrics[k], r, c)
  {
    q :| 0 <= q < |log| && Answers(log[q], ns, metrics, from, now);
    assert Scanned(cfg, src, log[q], resps[q]);
    r, c := ScannedMetric(cfg, src, log[q], resps[q], k);
  }

  // With compiled tables, in every interleaving, every metric that a scrape emits, fresh or
  // cached, is that of a cell of the answer to one query of its namespace, begun at most
  // cacheSeconds before the scrape, and its labels are read from the row of that cell.
  lemma EveryMetricIsACell(cfg: Cache.Config, worlds: seq<World>, stamps: seq<Stamp>, src: Source, resps: seq<Response>,
                           i: nat, id: nat, ns: string, k: nat)
    returns (q: nat, r: nat, c: nat)
    requires TablesCompiled(cfg.tables) && IsRun(cfg, worlds, stamps) && i < |worlds|
    requires AllScanned(cfg, src, worlds[i].log, resps)
    requires id in worlds[i].scrapes && ns in worlds[i].scrapes[id].emitted && k < |worlds[i].scrapes[id].emitted[ns]|
    ensures ns in cfg.tables && q < |worlds[i].log| && worlds[i].log[q].ns == ns
    ensures worlds[i].scrapes[id].start - cfg.tables[ns].cacheSeconds * 1_000_000_000 <= worlds[i].log[q].begin
    ensures IsCellOf(src, ns, cfg.tables[ns], resps[q], worlds[i].scrapes[id].emitted[ns][k], r, c)
  {
    var w, s := worlds[i], worlds[i].scrapes[id];
    EmissionsAreFresh(cfg, worlds, stamps, i, id, ns);
    q, r, c := BackedIsACell(cfg, src, w.log, resps, ns, s.emitted[ns], s.start - Cache.MaxAge(cfg, ns), w.now, k);
  }

  // ----- Across rebuilds -----

  // Every table of every era was compiled.
  ghost predicate ErasCompiled(x: Rebuilds.Site) {
    forall era: nat :: TablesCompiled(x.ConfigOf(era).tables)
  }

  // Every logged query was read with the tables and overrides of its era.
  ghost predicate ErasScanned(x: Rebuilds.Site, src: nat -> Source, resps: seq<Response>) {
    && |resps| == |x.w.log| == |x.eras|
    && forall i :: 0 <= i < |resps| ==> Scanned(x.ConfigOf(x.eras[i]), src(x.eras[i]), x.w.log[i], resps[i])
  }

  lemma FromIsACell(x: Rebuilds.Site, src: nat -> Source, resps: seq<Response>, ns: string, metrics: seq<Metric>,
                    era: nat, from: Cache.Time, k: nat)
    returns (q: nat, r: nat, c: nat)
    requires ErasCompiled(x) && ErasScanned(x, src, resps) && Rebuilds.From(x, ns, metrics, era, from) && k < |metrics|
    ensures q < |x.w.log| && q < |x.eras| && x.eras[q] == era && ns in x.ConfigOf(era).tables
    ensures from <= x.w.log[q].begin
    ensures IsCellOf(src(era), ns, x.ConfigOf(era).tables[ns], resps[q], metrics[k], r, c)
  {
    q :| Rebuilds.Gives(x, q, ns, metrics, era, from);
    assert Scanned(x.ConfigOf(x.eras[q]), src(x.eras[q]), x.w.log[q], resps[q]);
    r, c := ScannedMetric(x.ConfigOf(era), src(era), x.w.log[q], resps[q], k);
  }

  // In every history of rebuilds, every metric that a scrape emits is that of a cell, read with the
  // tables of one era, of the answer to one query of that era, begun at most cacheSeconds, by the
  // tables of now, before the scrape.
  lemma EveryMetricHasItsEra(sites: seq<Rebuilds.Site>, events: seq<Rebuilds.Event>, src: nat -> Source,
                             resps: seq<Response>, i: nat, id: nat, ns: string, k: nat)
    returns (q: nat, r: nat, c: nat)
    requires Rebuilds.IsHistory(sites, events) && i < |sites| && ErasCompiled(sites[i])
    requires ErasScanned(sites[i], src, resps)
    requires id in sites[i].w.scrapes && ns in sites[i].w.scrapes[id].emitted
    requires k < |sites[i].w.scrapes[id].emitted[ns]|
    ensures var x, era := sites[i], Rebuilds.EraOf(sites[i], id, ns);
            && q < |x.w.log| && q < |x.eras| && x.eras[q] == era && ns in x.ConfigOf(era).tables
            && ns in x.cfg.tables
            && x.w.scrapes[id].start - x.cfg.tables[ns].cacheSeconds * 1_000_000_000 <= x.w.log[q].begin
            && IsCellOf(src(era), ns, x.ConfigOf(era).tables[ns], resps[q], x.w.scrapes[id].emitted[ns][k], r, c)
  {
    var x, s := sites[i], sites[i].w.scrapes[id];
    var era := Rebuilds.EraOf(x, id, ns);
    Rebuilds.OldMetricsExactly(sites, events, i, id, ns);
    q, r, c := FromIsACell(x, src, resps, ns, s.emitted[ns], era, s.start - Cache.MaxAge(x.cfg, ns), k);
  }
}
