/** The per-namespace, time-based metric cache of a server, and scrapes that run one after another. */
module ScrapeCache {
  import opened Prelude
  import opened Metrics

  // Nanoseconds.
  type Time = int

  const SECOND: int := 1_000_000_000

  datatype Cached = Cached(metrics: seq<Metric>, lastScrape: Time)

  type Cache = map<string, Cached>

  // The tables of one server, whether it is a master, and whether its version is in runonserver.
  datatype Config = Config(tables: MetricMaps, isMaster: bool, inRange: bool)

  predicate Skipped(cfg: Config, ns: string)
    requires ns in cfg.tables
  {
    (cfg.tables[ns].master && !cfg.isMaster) || !cfg.inRange
  }

  predicate Active(cfg: Config, ns: string) { ns in cfg.tables && !Skipped(cfg, ns) }

  function Lookup(cache: Cache, ns: string): Option<Cached> {
    if ns in cache then Some(cache[ns]) else None
  }

  function MaxAge(cfg: Config, ns: string): Time
    requires ns in cfg.tables
  {
    cfg.tables[ns].cacheSeconds * SECOND
  }

  predicate NeedsQuery(cfg: Config, ns: string, found: Option<Cached>, start: Time)
    requires ns in cfg.tables
  {
    found.None? || start - found.value.lastScrape > MaxAge(cfg, ns)
  }

  // What one namespace would answer if it were queried during a given scrape.
  type Answers = string -> Outcome

  predicate Queries(cfg: Config, cache: Cache, start: Time, ns: string) {
    Active(cfg, ns) && NeedsQuery(cfg, ns, Lookup(cache, ns), start)
  }

  function Emission(cfg: Config, cache: Cache, start: Time, db: Answers, ns: string): seq<Metric>
    requires Active(cfg, ns)
  {
    if Queries(cfg, cache, start, ns) then Emitted(db(ns)) else cache[ns].metrics
  }

  predicate Stores(cfg: Config, cache: Cache, start: Time, ns: string) {
    Queries(cfg, cache, start, ns) && cfg.tables[ns].cacheSeconds > 0
  }

  function Refreshed(cfg: Config, cache: Cache, start: Time, db: Answers): Cache {
    RefreshedFor(cfg, cache, start, db, cfg.tables.Keys)
  }

  // The cache once the scrape is done with some of the namespaces.
  function RefreshedFor(cfg: Config, cache: Cache, start: Time, db: Answers, done: set<string>): Cache {
    cache + map ns | ns in done && Stores(cfg, cache, start, ns) :: Cached(Emitted(db(ns)), start)
  }

  lemma RefreshedAt(cfg: Config, cache: Cache, start: Time, db: Answers, done: set<string>, ns: string)
    ensures Lookup(RefreshedFor(cfg, cache, start, db, done), ns)
            == if ns in done && Stores(cfg, cache, start, ns) then Some(Cached(Emitted(db(ns)), start))
               else Lookup(cache, ns)
  {
  }

  lemma RefreshOne(cfg: Config, cache: Cache, start: Time, db: Answers, done: set<string>, ns: string)
    ensures RefreshedFor(cfg, cache, start, db, done + {ns})
            == if Stores(cfg, cache, start, ns)
               then RefreshedFor(cfg, cache, start, db, done)[ns := Cached(Emitted(db(ns)), start)]
               else RefreshedFor(cfg, cache, start, db, done)
  {
    var more := RefreshedFor(cfg, cache, start, db, done + {ns});
    var one := RefreshedFor(cfg, cache, start, db, done);
    forall x: string
      ensures Lookup(more, x) == if x == ns && Stores(cfg, cache, start, ns) then Some(Cached(Emitted(db(ns)), start))
                                 else Lookup(one, x)
    {
      RefreshedAt(cfg, cache, start, db, done + {ns}, x);
      RefreshedAt(cfg, cache, start, db, done, x);
    }
    SameLookups(more, if Stores(cfg, cache, start, ns) then one[ns := Cached(Emitted(db(ns)), start)] else one);
  }

  lemma SameLookups(a: Cache, b: Cache)
    requires forall x: string :: Lookup(a, x) == Lookup(b, x)
    ensures a == b
  {
    assert forall x :: x in a <==> Lookup(a, x).Some?;
    assert forall x :: x in b <==> Lookup(b, x).Some?;
    assert forall x :: x in a ==> a[x] == Lookup(a, x).value;
  }

  // What the scrape has reported once it is done with some of the namespaces.
  ghost predicate Reported(cfg: Config, cache: Cache, start: Time, db: Answers, done: set<string>,
                           emitted: map<string, seq<Metric>>, errors: set<string>) {
    && (forall ns :: ns in emitted <==> Active(cfg, ns) && ns in done)
    && (forall ns :: ns in emitted ==> emitted[ns] == Emission(cfg, cache, start, db, ns))
    && (forall ns :: ns in errors <==> ns in done && Queries(cfg, cache, start, ns) && db(ns).Failed?)
  }

  // A namespace is decided by its own cache entry.
  lemma OwnEntryDecides(cfg: Config, a: Cache, b: Cache, start: Time, db: Answers, ns: string)
    requires Lookup(a, ns) == Lookup(b, ns)
    ensures Queries(cfg, a, start, ns) == Queries(cfg, b, start, ns)
    ensures Active(cfg, ns) ==> Emission(cfg, a, start, db, ns) == Emission(cfg, b, start, db, ns)
  {
  }

  ghost predicate Progress(cfg: Config, before: Cache, start: Time, db: Answers, done: set<string>,
                           cache: Cache, emitted: map<string, seq<Metric>>, errors: set<string>) {
    cache == RefreshedFor(cfg, before, start, db, done) && Reported(cfg, before, start, db, done, emitted, errors)
  }

  lemma SkipOne(cfg: Config, before: Cache, start: Time, db: Answers, done: set<string>,
                cache: Cache, emitted: map<string, seq<Metric>>, errors: set<string>, ns: string)
    requires Progress(cfg, before, start, db, done, cache, emitted, errors)
    requires ns in cfg.tables && ns !in done && !Active(cfg, ns)
    ensures Progress(cfg, before, start, db, done + {ns}, cache, emitted, errors)
  {
    RefreshOne(cfg, before, start, db, done, ns);
  }

  // What ScrapeNamespace does to the cache, the emission and the errors is the next step of progress.
  lemma ScrapeOne(cfg: Config, before: Cache, start: Time, db: Answers, done: set<string>,
                  cache: Cache, emitted: map<string, seq<Metric>>, errors: set<string>, ns: string)
    requires Progress(cfg, before, start, db, done, cache, emitted, errors)
    requires Active(cfg, ns) && ns !in done
    ensures var m := Emission(cfg, cache, start, db, ns);
            Progress(cfg, before, start, db, done + {ns},
                     if Stores(cfg, cache, start, ns) then cache[ns := Cached(m, start)] else cache,
                     emitted[ns := m],
                     if Queries(cfg, cache, start, ns) && db(ns).Failed? then errors + {ns} else errors)
  {
    RefreshedAt(cfg, before, start, db, done, ns);
    OwnEntryDecides(cfg, before, cache, start, db, ns);
    RefreshOne(cfg, before, start, db, done, ns);
  }

  // ----- A scrape in the terms of its configuration -----

  // A namespace is scraped within the version range, and master namespaces on a master only.
  ghost predicate IsScraped(cfg: Config, ns: string) {
    ns in cfg.tables && cfg.inRange && (cfg.tables[ns].master ==> cfg.isMaster)
  }

  // Its metrics are missing, or older than the seconds they may be cached.
  ghost predicate IsStale(cfg: Config, cache: Cache, start: Time, ns: string)
    requires ns in cfg.tables
  {
    ns !in cache || start - cache[ns].lastScrape > cfg.tables[ns].cacheSeconds * 1_000_000_000
  }

  // Stale namespaces are queried, and a failed query gives an error and no metrics; the others
  // are served from the cache.
  ghost predicate IsServed(cfg: Config, cache: Cache, start: Time, outcome: Outcome, ns: string, metrics: seq<Metric>,
                           failed: bool)
    requires ns in cfg.tables
  {
    if IsStale(cfg, cache, start, ns) then
      failed == outcome.Failed? && metrics == match outcome case Rows(m) => m case Failed => []
    else !failed && metrics == cache[ns].metrics
  }

  // A query's metrics, even none, are cached as of the start of the scrape, if they may be cached.
  ghost predicate IsKept(cfg: Config, before: Cache, after: Cache, start: Time, ns: string, metrics: seq<Metric>)
    requires ns in cfg.tables
  {
    if IsStale(cfg, before, start, ns) && cfg.tables[ns].cacheSeconds > 0 then
      ns in after && after[ns] == Cached(metrics, start)
    else IsUntouched(before, after, ns)
  }

  ghost predicate IsUntouched(before: Cache, after: Cache, ns: string) {
    (ns in before <==> ns in after) && (ns in before ==> after[ns] == before[ns])
  }

  lemma ActiveMeansScraped(cfg: Config, ns: string)
    ensures Active(cfg, ns) <==> IsScraped(cfg, ns)
  {
  }

  lemma ServedAsStated(cfg: Config, cache: Cache, start: Time, db: Answers, ns: string)
    requires Active(cfg, ns)
    ensures Queries(cfg, cache, start, ns) <==> IsStale(cfg, cache, start, ns)
    ensures IsServed(cfg, cache, start, db(ns), ns, Emission(cfg, cache, start, db, ns),
                     Queries(cfg, cache, start, ns) && db(ns).Failed?)
  {
  }

  // The cache of a whole scrape, namespace by namespace.
  lemma KeptAsStated(cfg: Config, cache: Cache, start: Time, db: Answers, ns: string)
    ensures Active(cfg, ns) ==>
      IsKept(cfg, cache, Refreshed(cfg, cache, start, db), start, ns, Emission(cfg, cache, start, db, ns))
    ensures !Active(cfg, ns) ==> IsUntouched(cache, Refreshed(cfg, cache, start, db), ns)
  {
    RefreshedAt(cfg, cache, start, db, cfg.tables.Keys, ns);
  }

  lemma ReportedMeans(cfg: Config, cache: Cache, start: Time, db: Answers, emitted: map<string, seq<Metric>>,
                      errors: set<string>)
    requires Reported(cfg, cache, start, db, cfg.tables.Keys, emitted, errors)
    ensures forall ns :: ns in emitted <==> IsScraped(cfg, ns)
    ensures forall ns :: ns in errors ==> ns in emitted
    ensures forall ns :: ns in emitted ==> IsServed(cfg, cache, start, db(ns), ns, emitted[ns], ns in errors)
    ensures forall ns :: ns in emitted ==>
      IsKept(cfg, cache, Refreshed(cfg, cache, start, db), start, ns, emitted[ns])
    ensures forall ns :: ns !in emitted ==> IsUntouched(cache, Refreshed(cfg, cache, start, db), ns)
  {
    forall ns
      ensures ns in emitted <==> IsScraped(cfg, ns)
      ensures ns in errors ==> ns in emitted
      ensures ns in emitted ==> IsServed(cfg, cache, start, db(ns), ns, emitted[ns], ns in errors)
      ensures ns in emitted ==> IsKept(cfg, cache, Refreshed(cfg, cache, start, db), start, ns, emitted[ns])
      ensures ns !in emitted ==> IsUntouched(cache, Refreshed(cfg, cache, start, db), ns)
    {
      ActiveMeansScraped(cfg, ns);
      KeptAsStated(cfg, cache, start, db, ns);
      if Active(cfg, ns) {
        ServedAsStated(cfg, cache, start, db, ns);
      }
    }
  }

  class CachingServer {
    var metricCache: Cache

    // One iteration of the loop over the namespaces.
    method ScrapeNamespace(cfg: Config, ns: string, scrapeStart: Time, db: Answers)
      returns (metrics: seq<Metric>, failed: bool)
      requires Active(cfg, ns)
      modifies this
      ensures metrics == Emission(cfg, old(metricCache), scrapeStart, db, ns)
      ensures failed <==> Queries(cfg, old(metricCache), scrapeStart, ns) && db(ns).Failed?
      ensures metricCache == if Stores(cfg, old(metricCache), scrapeStart, ns)
                             then old(metricCache)[ns := Cached(metrics, scrapeStart)]
                             else old(metricCache)
      ensures IsServed(cfg, old(metricCache), scrapeStart, db(ns), ns, metrics, failed)
      ensures IsKept(cfg, old(metricCache), metricCache, scrapeStart, ns, metrics)
      ensures forall k :: k != ns ==> IsUntouched(old(metricCache), metricCache, k)
    {
      var found := Lookup(metricCache, ns);
      failed := false;
      if NeedsQuery(cfg, ns, found, scrapeStart) {
        var outcome := db(ns);
        failed := outcome.Failed?;
        metrics := Emitted(outcome);
        if cfg.tables[ns].cacheSeconds > 0 {
          metricCache := metricCache[ns := Cached(metrics, scrapeStart)];
        }
      } else {
        metrics := found.value.metrics;
      }
    }

    // One scrape with nobody else at the cache; namespaces come in an arbitrary order.
    method QueryNamespaceMappings(cfg: Config, scrapeStart: Time, db: Answers)
      returns (emitted: map<string, seq<Metric>>, namespaceErrors: set<string>)
      modifies this
      ensures metricCache == Refreshed(cfg, old(metricCache), scrapeStart, db)
      ensures Reported(cfg, old(metricCache), scrapeStart, db, cfg.tables.Keys, emitted, namespaceErrors)
      // In the terms of the configuration alone: what is emitted, from where, and what is cached.
      ensures forall ns ::
        ns in emitted <==> ns in cfg.tables && cfg.inRange && (cfg.tables[ns].master ==> cfg.isMaster)
      ensures forall ns :: ns in namespaceErrors ==> ns in emitted
      ensures forall ns :: ns in emitted ==>
        && IsServed(cfg, old(metricCache), scrapeStart, db(ns), ns, emitted[ns], ns in namespaceErrors)
        && IsKept(cfg, old(metricCache), metricCache, scrapeStart, ns, emitted[ns])
      ensures forall ns :: ns !in emitted ==> IsUntouched(old(metricCache), metricCache, ns)
    {
      emitted, namespaceErrors := map[], {};
      ghost var before := metricCache;
      ghost var all := cfg.tables.Keys;
      var left := cfg.tables.Keys;
      TakenAll(all);
      while left != {}
        invariant left <= all
        invariant Progress(cfg, before, scrapeStart, db, all - left, metricCache, emitted, namespaceErrors)
        decreases |left|
      {
        var ns :| ns in left;
        TakeOne(all, left, ns);
        if Skipped(cfg, ns) {
          SkipOne(cfg, before, scrapeStart, db, all - left, metricCache, emitted, namespaceErrors, ns);
        } else {
          ScrapeOne(cfg, before, scrapeStart, db, all - left, metricCache, emitted, namespaceErrors, ns);
          var metrics, failed := ScrapeNamespace(cfg, ns, scrapeStart, db);
          emitted := emitted[ns := metrics];
          if failed {
            namespaceErrors := namespaceErrors + {ns};
          }
        }
        left := left - {ns};
      }
      ReportedMeans(cfg, before, scrapeStart, db, emitted, namespaceErrors);
    }
  }

  // ----- Runs of scrapes, from an empty cache -----

  datatype Call = Call(start: Time, db: Answers)

  function CacheAfter(cfg: Config, calls: seq<Call>): Cache {
    if calls == [] then map[]
    else
      var n := |calls| - 1;
      Refreshed(cfg, CacheAfter(cfg, calls[..n]), calls[n].start, calls[n].db)
  }

  ghost predicate Cacheable(cfg: Config, ns: string) {
    Active(cfg, ns) && cfg.tables[ns].cacheSeconds > 0
  }

  // The cache entry of one namespace, followed on its own.
  ghost function EntryAfter(cfg: Config, calls: seq<Call>, ns: string): Option<Cached>
    requires Cacheable(cfg, ns)
  {
    if calls == [] then None
    else
      var n := |calls| - 1;
      var found := EntryAfter(cfg, calls[..n], ns);
      if NeedsQuery(cfg, ns, found, calls[n].start) then Some(Cached(Emitted(calls[n].db(ns)), calls[n].start))
      else found
  }

  lemma {:induction false} EntriesAreIndependent(cfg: Config, calls: seq<Call>, ns: string)
    requires Cacheable(cfg, ns)
    ensures Lookup(CacheAfter(cfg, calls), ns) == EntryAfter(cfg, calls, ns)
    decreases |calls|
  {
    if calls != [] {
      var n := |calls| - 1;
      EntriesAreIndependent(cfg, calls[..n], ns);
      RefreshedAt(cfg, CacheAfter(cfg, calls[..n]), calls[n].start, calls[n].db, cfg.tables.Keys, ns);
    }
  }

  // Does scrape i really query the namespace?
  ghost predicate Real(cfg: Config, calls: seq<Call>, ns: string, i: int)
    requires Cacheable(cfg, ns) && 0 <= i < |calls|
  {
    NeedsQuery(cfg, ns, EntryAfter(cfg, calls[..i], ns), calls[i].start)
  }

  lemma RealMeansQueried(cfg: Config, calls: seq<Call>, ns: string, i: nat)
    requires Cacheable(cfg, ns) && i < |calls|
    ensures Real(cfg, calls, ns, i) <==> Queries(cfg, CacheAfter(cfg, calls[..i]), calls[i].start, ns)
  {
    EntriesAreIndependent(cfg, calls[..i], ns);
  }

  ghost function CountReal(cfg: Config, calls: seq<Call>, ns: string): nat
    requires Cacheable(cfg, ns)
  {
    if calls == [] then 0
    else CountReal(cfg, calls[..|calls| - 1], ns) + if Real(cfg, calls, ns, |calls| - 1) then 1 else 0
  }

  // Scrape r is the latest of the run that refreshed the namespace.
  ghost predicate Latest(cfg: Config, calls: seq<Call>, ns: string, r: int)
    requires Cacheable(cfg, ns)
  {
    && 0 <= r < |calls| && Real(cfg, calls, ns, r)
    && forall j :: r < j < |calls| ==> !Real(cfg, calls, ns, j)
  }

  ghost predicate Ordered(calls: seq<Call>) {
    forall i, j :: 0 <= i <= j < |calls| ==> calls[i].start <= calls[j].start
  }

  lemma RealInPrefix(cfg: Config, calls: seq<Call>, ns: string, n: nat, i: nat)
    requires Cacheable(cfg, ns) && i < n <= |calls|
    ensures Real(cfg, calls[..n], ns, i) <==> Real(cfg, calls, ns, i)
  {
    assert calls[..n][..i] == calls[..i];
  }

  lemma LatestExtends(cfg: Config, calls: seq<Call>, ns: string, r: int)
    requires Cacheable(cfg, ns) && calls != []
    requires Latest(cfg, calls[..|calls| - 1], ns, r) && !Real(cfg, calls, ns, |calls| - 1)
    ensures Latest(cfg, calls, ns, r)
  {
    forall j | r <= j < |calls| - 1
      ensures Real(cfg, calls, ns, j) <==> j == r
    {
      RealInPrefix(cfg, calls, ns, |calls| - 1, j);
    }
  }

  // The first scrape always queries, and the entry is that of the latest one that did.
  lemma {:induction false} EntryIsLatest(cfg: Config, calls: seq<Call>, ns: string) returns (r: int)
    requires Cacheable(cfg, ns) && calls != []
    ensures Latest(cfg, calls, ns, r)
    ensures EntryAfter(cfg, calls, ns) == Some(Cached(Emitted(calls[r].db(ns)), calls[r].start))
    decreases |calls|
  {
    var n := |calls| - 1;
    if Real(cfg, calls, ns, n) {
      r := n;
    } else {
      assert calls[..0] == [];
      r := EntryIsLatest(cfg, calls[..n], ns);
      LatestExtends(cfg, calls, ns, r);
    }
  }

  // Every emission is that of an uncached reference sampled at the latest refresh, which is at
  // most cacheSeconds old.
  lemma CachedRefinesReference(cfg: Config, calls: seq<Call>, ns: string, i: nat) returns (r: int)
    requires Cacheable(cfg, ns) && i < |calls|
    ensures 0 <= r <= i && Latest(cfg, calls[..i + 1], ns, r)
    ensures Emission(cfg, CacheAfter(cfg, calls[..i]), calls[i].start, calls[i].db, ns) == Emitted(calls[r].db(ns))
    ensures r < i ==> calls[i].start - calls[r].start <= cfg.tables[ns].cacheSeconds * 1_000_000_000
  {
    var upto, before := calls[..i + 1], calls[..i];
    assert upto[..i] == before;
    EntriesAreIndependent(cfg, before, ns);
    r := EntryIsLatest(cfg, upto, ns);
    if !Real(cfg, upto, ns, i) {
      assert EntryAfter(cfg, upto, ns) == EntryAfter(cfg, before, ns);
    }
  }

  // Two scrapes that really query a namespace start more than cacheSeconds apart.
  lemma RealQueriesFarApart(cfg: Config, calls: seq<Call>, ns: string, i: nat, j: nat)
    requires Cacheable(cfg, ns) && Ordered(calls)
    requires i < j < |calls| && Real(cfg, calls, ns, i) && Real(cfg, calls, ns, j)
    ensures calls[j].start - calls[i].start > cfg.tables[ns].cacheSeconds * 1_000_000_000
  {
    var r := EntryIsLatest(cfg, calls[..j], ns);
    RealInPrefix(cfg, calls, ns, j, i);
    assert i <= r;
    assert calls[i].start <= calls[r].start;
  }

  // The time that k real queries take at least.
  function Span(k: nat, age: Time): Time {
    if k <= 1 then 0 else Span(k - 1, age) + age
  }

  lemma {:induction false} SpanIsProduct(k: nat, age: Time)
    requires k >= 1
    ensures Span(k, age) == (k - 1) * age
  {
    if k > 1 {
      SpanIsProduct(k - 1, age);
    }
  }

  lemma {:induction false} SpanBound(cfg: Config, calls: seq<Call>, ns: string) returns (r: int)
    requires Cacheable(cfg, ns) && Ordered(calls) && calls != []
    ensures CountReal(cfg, calls, ns) >= 1 && Latest(cfg, calls, ns, r)
    ensures Span(CountReal(cfg, calls, ns), MaxAge(cfg, ns)) <= calls[r].start - calls[0].start
    decreases |calls|
  {
    var n := |calls| - 1;
    if n == 0 {
      assert calls[..0] == [];
      r := 0;
    } else {
      r := SpanBound(cfg, calls[..n], ns);
      if Real(cfg, calls, ns, n) {
        RealInPrefix(cfg, calls, ns, n, r);
        RealQueriesFarApart(cfg, calls, ns, r, n);
        r := n;
      } else {
        LatestExtends(cfg, calls, ns, r);
      }
    }
  }

  // k real queries by scrapes that start within a span of T take (k - 1) * cacheSeconds <= T.
  lemma RateBound(cfg: Config, calls: seq<Call>, ns: string)
    requires Cacheable(cfg, ns) && Ordered(calls) && calls != []
    ensures (CountReal(cfg, calls, ns) - 1) * MaxAge(cfg, ns) <= calls[|calls| - 1].start - calls[0].start
  {
    var r := SpanBound(cfg, calls, ns);
    SpanIsProduct(CountReal(cfg, calls, ns), MaxAge(cfg, ns));
    assert calls[r].start <= calls[|calls| - 1].start;
  }
}
