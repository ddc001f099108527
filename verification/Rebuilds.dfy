/**
 Scrapes of one server across rebuilds of its tables. A rebuild waits until no scrape is under way,
 replaces the tables, and leaves the cache as it is.
 */
module Rebuilds {
  import opened Prelude
  import opened Metrics
  import opened ScrapeCache
  import opened ConcurrentScrapes

  // What a scrape found in the cache, and in which era that was queried.
  datatype Found = Found(entry: Option<Cached>, era: nat)

  // What a scrape has found and emitted, by era.
  datatype Notes = Notes(seen: map<string, Found>, told: map<string, nat>)

  // Rebuilds count the eras; past holds the tables of the earlier ones. eras and tags say when
  // logged queries and cache entries are from.
  datatype Site = Site(
    cfg: Config, w: World, past: seq<Config>, rebuiltAt: Time,
    eras: seq<nat>, tags: map<string, nat>, notes: map<nat, Notes>)
  {
    function Era(): nat { |past| }

    function ConfigOf(era: nat): Config { if era < |past| then past[era] else cfg }
  }

  datatype Event = Step(id: nat, action: Action) | Rebuild(cfg: Config)

  ghost predicate Possible(x: Site, e: Event) {
    match e
    case Step(id, a) => Enabled(x.cfg, x.w, id, a)
    case Rebuild(_) => forall id :: id in x.w.scrapes ==> Finished(x.w.scrapes[id])
  }

  function NotesOf(x: Site, id: nat): Notes {
    if id in x.notes then x.notes[id] else Notes(map[], map[])
  }

  function Noted(x: Site, id: nat, a: Action): Notes
    requires Enabled(x.cfg, x.w, id, a)
  {
    var n := NotesOf(x, id);
    match a
    case Begin => Notes(map[], map[])
    case LookUp(ns) =>
      n.(seen := n.seen[ns := Found(Lookup(x.w.cache, ns), if ns in x.tags then x.tags[ns] else x.Era())])
    case UseCached =>
      var ns := x.w.scrapes[id].phase.ns;
      n.(told := n.told[ns := if ns in n.seen then n.seen[ns].era else x.Era()])
    case EndQuery(_) => n.(told := n.told[x.w.scrapes[id].phase.ns := x.Era()])
    case _ => n
  }

  ghost function After(x: Site, e: Event): Site
    requires Possible(x, e)
  {
    match e
    case Step(id, a) =>
      Site(x.cfg, Next(x.cfg, x.w, id, a), x.past, x.rebuiltAt,
           if a.EndQuery? then x.eras + [x.Era()] else x.eras,
           if a.WriteBack? then x.tags[x.w.scrapes[id].phase.ns := x.Era()] else x.tags,
           if a.Tick? then x.notes else x.notes[id := Noted(x, id, a)])
    case Rebuild(cfg) => Site(cfg, x.w.(scrapes := map[]), x.past + [x.cfg], x.w.now, x.eras, x.tags, map[])
  }

  ghost predicate Start(x: Site) {
    Initial(x.w) && x.past == [] && x.rebuiltAt == x.w.now && x.eras == [] && x.tags == map[] && x.notes == map[]
  }

  ghost predicate IsHistory(sites: seq<Site>, events: seq<Event>) {
    && |sites| == |events| + 1 && Start(sites[0])
    && forall i :: 0 <= i < |events| ==> Possible(sites[i], events[i]) && sites[i + 1] == After(sites[i], events[i])
  }

  // ----- Where metrics are from -----

  // These metrics are the whole result of logged query i, of an era, begun at or after a time.
  ghost predicate Gives(x: Site, i: int, ns: string, metrics: seq<Metric>, era: nat, from: Time) {
    && 0 <= i < |x.w.log| && i < |x.eras| && x.eras[i] == era
    && ConcurrentScrapes.Answers(x.w.log[i], ns, metrics, from, x.w.now)
  }

  ghost predicate From(x: Site, ns: string, metrics: seq<Metric>, era: nat, from: Time) {
    exists i :: Gives(x, i, ns, metrics, era, from)
  }

  // A scrape that found this will emit metrics of an earlier era: there was an entry of one, and
  // it was not too old for the tables of now.
  predicate Old(x: Site, s: Scrape, ns: string, f: Found)
    requires ns in x.cfg.tables
  {
    f.entry.Some? && f.era < x.Era() && s.start - f.entry.value.lastScrape <= MaxAge(x.cfg, ns)
  }

  ghost predicate EntryKnown(x: Site, ns: string)
    requires ns in x.w.cache
  {
    && ns in x.tags && x.tags[ns] <= x.Era() && From(x, ns, x.w.cache[ns].metrics, x.tags[ns], x.w.cache[ns].lastScrape)
    && (x.tags[ns] < x.Era() ==> x.w.cache[ns].lastScrape <= x.rebuiltAt)
  }

  ghost predicate CacheKnown(x: Site) { forall ns :: ns in x.w.cache ==> EntryKnown(x, ns) }

  ghost predicate SeenKnown(x: Site, ns: string, f: Found) {
    && f.era <= x.Era()
    && (f.entry.Some? ==> From(x, ns, f.entry.value.metrics, f.era, f.entry.value.lastScrape))
    && (f.entry.Some? && f.era < x.Era() ==> f.entry.value.lastScrape <= x.rebuiltAt)
  }

  ghost predicate ToldKnown(x: Site, s: Scrape, n: Notes, ns: string)
    requires ns in s.emitted
  {
    && ns in n.told && ns in n.seen && ns in x.cfg.tables
    && n.told[ns] <= x.Era() && From(x, ns, s.emitted[ns], n.told[ns], s.start - MaxAge(x.cfg, ns))
    && (n.told[ns] < x.Era() <==> Old(x, s, ns, n.seen[ns]))
  }

  ghost predicate PhaseKnown(x: Site, s: Scrape, n: Notes) {
    match s.phase
    case Choosing => true
    case Deciding(ns, found) => ns in n.seen && n.seen[ns].entry == found
    case Waiting(ns, begin) =>
      && ns in x.cfg.tables && ns in n.seen && NeedsQuery(x.cfg, ns, n.seen[ns].entry, s.start)
      && s.start <= begin <= x.w.now
    case Storing(ns, metrics) => From(x, ns, metrics, x.Era(), s.start)
  }

  ghost predicate ScrapeKnown(x: Site, s: Scrape, n: Notes) {
    && x.rebuiltAt <= s.start <= x.w.now && PhaseKnown(x, s, n)
    && (forall ns :: ns in n.seen ==> SeenKnown(x, ns, n.seen[ns]))
    && (forall ns :: ns in s.emitted ==> ToldKnown(x, s, n, ns))
  }

  ghost predicate Known(x: Site) {
    && ConcurrentScrapes.Inv(x.cfg, x.w) && x.rebuiltAt <= x.w.now && |x.eras| == |x.w.log|
    && x.tags.Keys == x.w.cache.Keys && CacheKnown(x)
    && forall id :: id in x.w.scrapes ==> id in x.notes && ScrapeKnown(x, x.w.scrapes[id], x.notes[id])
  }

  // ----- Preservation -----

  // y has the log of x, and perhaps more.
  ghost predicate Later(x: Site, y: Site) {
    && y.cfg == x.cfg && y.past == x.past && y.rebuiltAt == x.rebuiltAt && x.w.now <= y.w.now
    && |x.eras| == |x.w.log| && |y.eras| == |y.w.log| && x.w.log <= y.w.log && x.eras <= y.eras
  }

  lemma FromLater(x: Site, y: Site, ns: string, metrics: seq<Metric>, era: nat, from: Time, from': Time)
    requires x.w.log <= y.w.log && x.eras <= y.eras && x.w.now <= y.w.now
    requires From(x, ns, metrics, era, from) && from' <= from
    ensures From(y, ns, metrics, era, from')
  {
    var i :| Gives(x, i, ns, metrics, era, from);
    assert y.w.log[i] == x.w.log[i];
    assert Gives(y, i, ns, metrics, era, from');
  }

  lemma SeenLater(x: Site, y: Site, n: Notes)
    requires Later(x, y) && forall ns :: ns in n.seen ==> SeenKnown(x, ns, n.seen[ns])
    ensures forall ns :: ns in n.seen ==> SeenKnown(y, ns, n.seen[ns])
  {
    forall ns | ns in n.seen && n.seen[ns].entry.Some?
      ensures From(y, ns, n.seen[ns].entry.value.metrics, n.seen[ns].era, n.seen[ns].entry.value.lastScrape)
    {
      assert SeenKnown(x, ns, n.seen[ns]);
      var c := n.seen[ns].entry.value;
      FromLater(x, y, ns, c.metrics, n.seen[ns].era, c.lastScrape, c.lastScrape);
    }
  }

  lemma ToldLater(x: Site, y: Site, s: Scrape, n: Notes)
    requires Later(x, y) && forall ns :: ns in s.emitted ==> ToldKnown(x, s, n, ns)
    ensures forall ns :: ns in s.emitted ==> ToldKnown(y, s, n, ns)
  {
    forall ns | ns in s.emitted
      ensures ToldKnown(y, s, n, ns)
    {
      assert ToldKnown(x, s, n, ns);
      var from := s.start - MaxAge(x.cfg, ns);
      FromLater(x, y, ns, s.emitted[ns], n.told[ns], from, from);
    }
  }

  lemma ScrapeLater(x: Site, y: Site, s: Scrape, n: Notes)
    requires Later(x, y) && ScrapeKnown(x, s, n)
    ensures ScrapeKnown(y, s, n)
  {
    SeenLater(x, y, n);
    ToldLater(x, y, s, n);
    if s.phase.Storing? {
      FromLater(x, y, s.phase.ns, s.phase.metrics, x.Era(), s.start, s.start);
    }
  }

  lemma CacheLater(x: Site, y: Site)
    requires Later(x, y) && CacheKnown(x) && y.w.cache == x.w.cache && y.tags == x.tags
    ensures CacheKnown(y)
  {
    forall ns | ns in x.w.cache
      ensures EntryKnown(y, ns)
    {
      assert EntryKnown(x, ns);
      FromLater(x, y, ns, x.w.cache[ns].metrics, x.tags[ns], x.w.cache[ns].lastScrape, x.w.cache[ns].lastScrape);
    }
  }

  // The scrape that looks a namespace up has not emitted it.
  lemma NotYetEmitted(cfg: Config, w: World, id: nat, ns: string)
    requires ConcurrentScrapes.Inv(cfg, w) && id in w.scrapes
    requires ns in w.scrapes[id].todo || ns in InHand(w.scrapes[id].phase)
    ensures ns !in w.scrapes[id].emitted
  {
    assert GoodScrape(cfg, w, w.scrapes[id]);
  }

  // What matters of the scrape that moves.
  ghost predicate MoverKnown(x: Site, id: nat) {
    && id in x.w.scrapes && id in x.notes && ScrapeKnown(x, x.w.scrapes[id], x.notes[id])
    && |x.eras| == |x.w.log|
  }

  // A scrape that looks a namespace up it has not emitted.
  lemma SeeOne(x: Site, s: Scrape, t: Scrape, n: Notes, m: Notes, ns: string, f: Found)
    requires SeenKnown(x, ns, f) && ns !in s.emitted && t.emitted == s.emitted && t.start == s.start
    requires m == n.(seen := n.seen[ns := f])
    requires forall k :: k in n.seen ==> SeenKnown(x, k, n.seen[k])
    requires forall k :: k in s.emitted ==> ToldKnown(x, s, n, k)
    ensures forall k :: k in m.seen ==> SeenKnown(x, k, m.seen[k])
    ensures forall k :: k in t.emitted ==> ToldKnown(x, t, m, k)
  {
    forall k | k in t.emitted
      ensures ToldKnown(x, t, m, k)
    {
      assert ToldKnown(x, s, n, k);
    }
  }

  // A scrape that tells metrics of an era.
  lemma TellOne(y: Site, s: Scrape, t: Scrape, n: Notes, m: Notes, ns: string, metrics: seq<Metric>, era: nat)
    requires ns in y.cfg.tables && From(y, ns, metrics, era, s.start - MaxAge(y.cfg, ns))
    requires ns in n.seen && era <= y.Era() && (era < y.Era() <==> Old(y, s, ns, n.seen[ns]))
    requires forall k :: k in s.emitted ==> ToldKnown(y, s, n, k)
    requires t.start == s.start && t.emitted == s.emitted[ns := metrics] && m == n.(told := n.told[ns := era])
    ensures forall k :: k in t.emitted ==> ToldKnown(y, t, m, k)
  {
    forall k | k in t.emitted
      ensures ToldKnown(y, t, m, k)
    {
      if k != ns {
        assert ToldKnown(y, s, n, k);
      }
    }
  }

  lemma LookUpKeeps(x: Site, id: nat, ns: string)
    requires MoverKnown(x, id) && x.tags.Keys == x.w.cache.Keys && (ns in x.w.cache ==> EntryKnown(x, ns))
    requires Enabled(x.cfg, x.w, id, LookUp(ns)) && ns !in x.w.scrapes[id].emitted
    ensures var y := After(x, Step(id, LookUp(ns)));
            ScrapeKnown(x, y.w.scrapes[id], y.notes[id])
  {
    var y := After(x, Step(id, LookUp(ns)));
    var f := Found(Lookup(x.w.cache, ns), if ns in x.tags then x.tags[ns] else x.Era());
    SeeOne(x, x.w.scrapes[id], y.w.scrapes[id], x.notes[id], y.notes[id], ns, f);
  }

  lemma UseCachedKeeps(x: Site, id: nat)
    requires MoverKnown(x, id) && Enabled(x.cfg, x.w, id, UseCached)
    ensures var y := After(x, Step(id, UseCached));
            ScrapeKnown(x, y.w.scrapes[id], y.notes[id])
  {
    var y := After(x, Step(id, UseCached));
    var s, n := x.w.scrapes[id], x.notes[id];
    var ns := s.phase.ns;
    var c, era := n.seen[ns].entry.value, n.seen[ns].era;
    assert SeenKnown(x, ns, n.seen[ns]);
    FromLater(x, x, ns, c.metrics, era, c.lastScrape, s.start - MaxAge(x.cfg, ns));
    TellOne(x, s, y.w.scrapes[id], n, y.notes[id], ns, c.metrics, era);
  }

  lemma NewQueryIsFrom(x: Site, id: nat, o: Outcome)
    requires MoverKnown(x, id) && Enabled(x.cfg, x.w, id, EndQuery(o))
    ensures var y := After(x, Step(id, EndQuery(o)));
            From(y, x.w.scrapes[id].phase.ns, Emitted(o), y.Era(), x.w.scrapes[id].start)
  {
    var y := After(x, Step(id, EndQuery(o)));
    assert Gives(y, |x.eras|, x.w.scrapes[id].phase.ns, Emitted(o), y.Era(), x.w.scrapes[id].start);
  }

  lemma EndQueryKeeps(x: Site, id: nat, o: Outcome)
    requires MoverKnown(x, id) && Enabled(x.cfg, x.w, id, EndQuery(o))
    requires Later(x, After(x, Step(id, EndQuery(o))))
    ensures var y := After(x, Step(id, EndQuery(o)));
            ScrapeKnown(y, y.w.scrapes[id], y.notes[id])
  {
    var y := After(x, Step(id, EndQuery(o)));
    var s, n := x.w.scrapes[id], x.notes[id];
    var ns := s.phase.ns;
    NewQueryIsFrom(x, id, o);
    ScrapeLater(x, y, s, n);
    FromLater(y, y, ns, Emitted(o), y.Era(), s.start, s.start - MaxAge(y.cfg, ns));
    TellOne(y, s, y.w.scrapes[id], n, y.notes[id], ns, Emitted(o), y.Era());
  }

  // What a step leaves alone.
  lemma StepIsLater(x: Site, id: nat, a: Action)
    requires |x.eras| == |x.w.log| && Enabled(x.cfg, x.w, id, a)
    ensures Later(x, After(x, Step(id, a)))
  {
  }

  lemma MoverKeeps(x: Site, id: nat, a: Action)
    requires Known(x) && Enabled(x.cfg, x.w, id, a) && !a.Tick?
    ensures var y := After(x, Step(id, a));
            ScrapeKnown(y, y.w.scrapes[id], y.notes[id])
  {
    var y := After(x, Step(id, a));
    StepIsLater(x, id, a);
    if a.EndQuery? {
      EndQueryKeeps(x, id, a.outcome);
    } else if !a.Begin? {
      if a.LookUp? {
        NotYetEmitted(x.cfg, x.w, id, a.ns);
        LookUpKeeps(x, id, a.ns);
      } else if a.UseCached? {
        UseCachedKeeps(x, id);
      } else {
        OtherMoveKeeps(x, id, a);
      }
      ScrapeLater(x, y, y.w.scrapes[id], y.notes[id]);
    }
  }

  lemma OtherMoveKeeps(x: Site, id: nat, a: Action)
    requires MoverKnown(x, id) && Enabled(x.cfg, x.w, id, a) && (a.Skip? || a.StartQuery? || a.WriteBack?)
    ensures var y := After(x, Step(id, a));
            ScrapeKnown(x, y.w.scrapes[id], y.notes[id])
  {
    var y := After(x, Step(id, a));
    var s, n, t := x.w.scrapes[id], x.notes[id], y.w.scrapes[id];
    forall k | k in t.emitted
      ensures ToldKnown(x, t, n, k)
    {
      assert ToldKnown(x, s, n, k);
    }
  }

  lemma WriteBackKeeps(x: Site, id: nat)
    requires Known(x) && Enabled(x.cfg, x.w, id, WriteBack)
    ensures CacheKnown(After(x, Step(id, WriteBack)))
  {
    var y := After(x, Step(id, WriteBack));
    var s := x.w.scrapes[id];
    assert ScrapeKnown(x, s, x.notes[id]);
    forall ns | ns in y.w.cache
      ensures EntryKnown(y, ns)
    {
      if ns != s.phase.ns {
        assert EntryKnown(x, ns);
        FromLater(x, y, ns, x.w.cache[ns].metrics, x.tags[ns], x.w.cache[ns].lastScrape, x.w.cache[ns].lastScrape);
      } else {
        FromLater(x, y, ns, s.phase.metrics, x.Era(), s.start, s.start);
      }
    }
  }

  lemma StepKeepsKnown(x: Site, id: nat, a: Action)
    requires Known(x) && Enabled(x.cfg, x.w, id, a)
    ensures Known(After(x, Step(id, a)))
  {
    var y := After(x, Step(id, a));
    StepIsLater(x, id, a);
    StepKeeps(x.cfg, x.w, id, a);
    if a.WriteBack? {
      WriteBackKeeps(x, id);
    } else {
      CacheLater(x, y);
    }
    forall j | j in y.w.scrapes
      ensures j in y.notes && ScrapeKnown(y, y.w.scrapes[j], y.notes[j])
    {
      if a.Tick? || j != id {
        ScrapeLater(x, y, x.w.scrapes[j], x.notes[j]);
      } else {
        MoverKeeps(x, id, a);
      }
    }
  }

  lemma RebuildKeepsKnown(x: Site, cfg: Config)
    requires Known(x) && Possible(x, Rebuild(cfg))
    ensures Known(After(x, Rebuild(cfg)))
  {
    var y := After(x, Rebuild(cfg));
    forall ns | ns in y.w.cache
      ensures EntryKnown(y, ns)
    {
      assert EntryKnown(x, ns);
      FromLater(x, y, ns, x.w.cache[ns].metrics, x.tags[ns], x.w.cache[ns].lastScrape, x.w.cache[ns].lastScrape);
    }
    assert y.w.log == x.w.log;
  }

  lemma {:induction false} HistoryIsKnown(sites: seq<Site>, events: seq<Event>, i: nat)
    requires IsHistory(sites, events) && i < |sites|
    ensures Known(sites[i])
  {
    if i > 0 {
      HistoryIsKnown(sites, events, i - 1);
      match events[i - 1] {
        case Step(id, a) => StepKeepsKnown(sites[i - 1], id, a);
        case Rebuild(cfg) => RebuildKeepsKnown(sites[i - 1], cfg);
      }
    }
  }

  // ----- Theorems -----

  // The era whose query and tables made what a scrape emitted for a namespace.
  ghost function EraOf(x: Site, id: nat, ns: string): nat {
    if id in x.notes && ns in x.notes[id].told then x.notes[id].told[ns] else x.Era()
  }

  // In every history: what a scrape emits is the whole result of one query of that era, begun no
  // earlier than the scrape's start minus the cacheSeconds of now. The era is an earlier one
  // exactly when the lookup found an entry of an earlier era that is not older than that.
  lemma OldMetricsExactly(sites: seq<Site>, events: seq<Event>, i: nat, id: nat, ns: string)
    requires IsHistory(sites, events) && i < |sites|
    requires id in sites[i].w.scrapes && ns in sites[i].w.scrapes[id].emitted
    ensures var x, s := sites[i], sites[i].w.scrapes[id];
            && id in x.notes && ns in x.notes[id].seen && ns in x.cfg.tables
            && From(x, ns, s.emitted[ns], EraOf(x, id, ns), s.start - MaxAge(x.cfg, ns))
            && (EraOf(x, id, ns) < x.Era() <==> Old(x, s, ns, x.notes[id].seen[ns]))
  {
    HistoryIsKnown(sites, events, i);
    assert ToldKnown(sites[i], sites[i].w.scrapes[id], sites[i].notes[id], ns);
  }

  // Metrics of an earlier rebuild end cacheSeconds after the latest one, by the tables of now.
  lemma OldMetricsEnd(sites: seq<Site>, events: seq<Event>, i: nat, id: nat, ns: string)
    requires IsHistory(sites, events) && i < |sites|
    requires id in sites[i].w.scrapes && ns in sites[i].w.scrapes[id].emitted
    requires EraOf(sites[i], id, ns) < sites[i].Era()
    ensures ns in sites[i].cfg.tables
    ensures sites[i].w.scrapes[id].start - sites[i].rebuiltAt <= MaxAge(sites[i].cfg, ns)
  {
    OldMetricsExactly(sites, events, i, id, ns);
    HistoryIsKnown(sites, events, i);
    var x := sites[i];
    assert SeenKnown(x, ns, x.notes[id].seen[ns]);
  }

  // Freshness survives rebuilds.
  lemma EmissionsStayFresh(sites: seq<Site>, events: seq<Event>, i: nat, id: nat, ns: string)
    requires IsHistory(sites, events) && i < |sites|
    requires id in sites[i].w.scrapes && ns in sites[i].w.scrapes[id].emitted
    ensures ns in sites[i].cfg.tables
    ensures var x := sites[i];
            Backed(x.w.log, ns, x.w.scrapes[id].emitted[ns], x.w.scrapes[id].start - MaxAge(x.cfg, ns), x.w.now)
  {
    HistoryIsKnown(sites, events, i);
    assert GoodScrape(sites[i].cfg, sites[i].w, sites[i].w.scrapes[id]);
  }

  // ----- The bound is tight -----

  datatype History = History(sites: seq<Site>, events: seq<Event>)

  ghost predicate Good(h: History) { IsHistory(h.sites, h.events) }

  ghost function Last(h: History): Site
    requires h.sites != []
  {
    h.sites[|h.sites| - 1]
  }

  lemma Extend(h: History, e: Event) returns (more: History)
    requires Good(h) && Possible(Last(h), e)
    ensures Good(more) && Last(more) == After(Last(h), e)
  {
    more := History(h.sites + [After(Last(h), e)], h.events + [e]);
  }

  lemma Begun(cfg: Config) returns (h: History)
    ensures Good(h) && Last(h) == Site(cfg, World(0, map[], map[], []), [], 0, [], map[], map[])
  {
    h := History([Site(cfg, World(0, map[], map[], []), [], 0, [], map[], map[])], []);
  }

  // The first era, with one scrape in a given state.
  ghost predicate FirstEra(x: Site, cfg: Config, s: Scrape) {
    && x.cfg == cfg && x.past == [] && x.rebuiltAt == x.w.now == 0
    && x.w.scrapes == map[0 := s] && x.w.cache == map[] && x.tags == map[]
  }

  lemma FirstLookUp(cfg: Config, ns: string) returns (h: History)
    requires cfg.tables.Keys == {ns} && Cacheable(cfg, ns)
    ensures Good(h) && FirstEra(Last(h), cfg, Scrape(0, {}, Deciding(ns, None), map[]))
  {
    assert cfg.tables.Keys - {ns} == {};
    h := Begun(cfg);
    h := Extend(h, Step(0, Begin));
    h := Extend(h, Step(0, LookUp(ns)));
  }

  lemma FirstQuery(cfg: Config, ns: string, o: Outcome) returns (h: History)
    requires cfg.tables.Keys == {ns} && Cacheable(cfg, ns)
    ensures Good(h) && FirstEra(Last(h), cfg, Scrape(0, {}, Storing(ns, Emitted(o)), map[ns := Emitted(o)]))
  {
    h := FirstLookUp(cfg, ns);
    h := Extend(h, Step(0, StartQuery));
    assert FirstEra(Last(h), cfg, Scrape(0, {}, Waiting(ns, 0), map[]));
    h := Extend(h, Step(0, EndQuery(o)));
  }

  // The second era, in which the cache is from the first.
  ghost predicate SecondEra(x: Site, cfg: Config, ns: string, o: Outcome) {
    && x.cfg == cfg && x.Era() == 1 && x.rebuiltAt == 0
    && x.w.cache == map[ns := Cached(Emitted(o), 0)] && x.tags == map[ns := 0]
  }

  // A server with this one namespace alone.
  function OnlyWith(cfg: Config, ns: string): Config
    requires ns in cfg.tables
  {
    cfg.(tables := map[ns := cfg.tables[ns]])
  }

  // One scrape of it, which queries and stores, and then a rebuild that brings in the rest.
  lemma ScrapeAndRebuild(cfg: Config, ns: string, o: Outcome) returns (h: History)
    requires Cacheable(cfg, ns)
    ensures Good(h) && SecondEra(Last(h), cfg, ns, o) && Last(h).w.now == 0 && Last(h).w.scrapes == map[]
  {
    h := FirstQuery(OnlyWith(cfg, ns), ns, o);
    h := Extend(h, Step(0, WriteBack));
    h := Extend(h, Rebuild(cfg));
  }

  lemma SecondLookUp(cfg: Config, ns: string, later: nat, o: Outcome) returns (h: History)
    requires Cacheable(cfg, ns)
    ensures Good(h) && SecondEra(Last(h), cfg, ns, o)
    ensures Last(h).w.scrapes
            == map[0 := Scrape(later, cfg.tables.Keys - {ns}, Deciding(ns, Some(Cached(Emitted(o), 0))), map[])]
    ensures 0 in Last(h).notes && ns in Last(h).notes[0].seen && Last(h).notes[0].seen[ns].era == 0
  {
    h := ScrapeAndRebuild(cfg, ns, o);
    h := Extend(h, Step(0, Tick(later)));
    h := Extend(h, Step(0, Begin));
    h := Extend(h, Step(0, LookUp(ns)));
  }

  // At the end a scrape that started so long after the rebuild has emitted metrics of before it.
  ghost predicate EmitsOld(h: History, id: nat, ns: string, later: nat) {
    && h.sites != [] && id in Last(h).w.scrapes && ns in Last(h).w.scrapes[id].emitted
    && Last(h).w.scrapes[id].start - Last(h).rebuiltAt == later
    && EraOf(Last(h), id, ns) < Last(h).Era()
  }

  // Then a scrape that starts later, but not too late.
  lemma OldIsEmitted(cfg: Config, ns: string, later: nat, o: Outcome) returns (h: History)
    requires Cacheable(cfg, ns) && later <= MaxAge(cfg, ns)
    ensures Good(h) && h.sites != [] && Last(h).cfg == cfg && EmitsOld(h, 0, ns, later)
  {
    h := SecondLookUp(cfg, ns, later, o);
    h := Extend(h, Step(0, UseCached));
  }

  ghost predicate MayEmitOld(cfg: Config, ns: string, later: nat) {
    exists h: History, id: nat :: Good(h) && h.sites != [] && Last(h).cfg == cfg && EmitsOld(h, id, ns, later)
  }

  // On every server: a scrape may emit metrics of an earlier rebuild exactly up to cacheSeconds
  // after the latest.
  lemma MayEmitOldExactly(cfg: Config, ns: string, later: nat)
    requires Cacheable(cfg, ns)
    ensures MayEmitOld(cfg, ns, later) <==> later <= MaxAge(cfg, ns)
  {
    if later <= MaxAge(cfg, ns) {
      var h := OldIsEmitted(cfg, ns, later, Failed);
    }
    if MayEmitOld(cfg, ns, later) {
      var h: History, id: nat :| Good(h) && h.sites != [] && Last(h).cfg == cfg && EmitsOld(h, id, ns, later);
      OldMetricsEnd(h.sites, h.events, |h.sites| - 1, id, ns);
    }
  }
}
