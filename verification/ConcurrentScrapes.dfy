/**
 Overlapping scrapes of one server, as steps over the shared cache. The lookup and the write-back
 are separate critical sections; the query and the emission lie between them.
 */
module ConcurrentScrapes {
  import opened Prelude
  import opened Metrics
  import opened ScrapeCache

  // One real query: who sent it, when it began and ended, what came back.
  datatype Query = Query(ns: string, scraper: nat, begin: Time, end: Time, outcome: Outcome)

  datatype Phase =
    | Choosing
    | Deciding(ns: string, found: Option<Cached>)
    | Waiting(ns: string, begin: Time)
    | Storing(ns: string, metrics: seq<Metric>)

  datatype Scrape = Scrape(
    start: Time, todo: set<string>, phase: Phase, emitted: map<string, seq<Metric>>)

  datatype World = World(now: Time, cache: Cache, scrapes: map<nat, Scrape>, log: seq<Query>)

  datatype Action =
    | Tick(time: Time)
    | Begin
    | Skip(ns: string)
    | LookUp(ns: string)
    | UseCached
    | StartQuery
    | EndQuery(outcome: Outcome)
    | WriteBack

  // ----- Steps -----

  predicate Enabled(cfg: Config, w: World, id: nat, a: Action) {
    match a
    case Tick(time) => time >= w.now
    case Begin => id !in w.scrapes
    case _ => id in w.scrapes && EnabledIn(cfg, w.scrapes[id], a)
  }

  predicate EnabledIn(cfg: Config, s: Scrape, a: Action) {
    match a
    case Tick(_) => false
    case Begin => false
    case Skip(ns) => s.phase.Choosing? && ns in s.todo && ns in cfg.tables && Skipped(cfg, ns)
    case LookUp(ns) => s.phase.Choosing? && ns in s.todo && Active(cfg, ns)
    case UseCached =>
      s.phase.Deciding? && Active(cfg, s.phase.ns) && !NeedsQuery(cfg, s.phase.ns, s.phase.found, s.start)
    case StartQuery =>
      s.phase.Deciding? && Active(cfg, s.phase.ns) && NeedsQuery(cfg, s.phase.ns, s.phase.found, s.start)
    case EndQuery(_) => s.phase.Waiting? && Active(cfg, s.phase.ns)
    case WriteBack => s.phase.Storing?
  }

  function NewScrape(cfg: Config, now: Time): Scrape {
    Scrape(now, cfg.tables.Keys, Choosing, map[])
  }

  function Move(cfg: Config, w: World, s: Scrape, a: Action): Scrape
    requires EnabledIn(cfg, s, a)
  {
    match a
    case Skip(ns) => s.(todo := s.todo - {ns})
    case LookUp(ns) => s.(todo := s.todo - {ns}, phase := Deciding(ns, Lookup(w.cache, ns)))
    case UseCached => s.(emitted := s.emitted[s.phase.ns := s.phase.found.value.metrics], phase := Choosing)
    case StartQuery => s.(phase := Waiting(s.phase.ns, w.now))
    case EndQuery(o) =>
      var ns := s.phase.ns;
      s.(emitted := s.emitted[ns := Emitted(o)],
         phase := if cfg.tables[ns].cacheSeconds > 0 then Storing(ns, Emitted(o)) else Choosing)
    case WriteBack => s.(phase := Choosing)
  }

  function Next(cfg: Config, w: World, id: nat, a: Action): World
    requires Enabled(cfg, w, id, a)
  {
    if a.Tick? then w.(now := a.time)
    else if a.Begin? then w.(scrapes := w.scrapes[id := NewScrape(cfg, w.now)])
    else
      var s := w.scrapes[id];
      w.(scrapes := w.scrapes[id := Move(cfg, w, s, a)],
         log := if a.EndQuery? then w.log + [Query(s.phase.ns, id, s.phase.begin, w.now, a.outcome)] else w.log,
         cache := if a.WriteBack? then w.cache[s.phase.ns := Cached(s.phase.metrics, s.start)] else w.cache)
  }

  predicate Finished(s: Scrape) { s.phase.Choosing? && s.todo == {} }

  ghost predicate Initial(w: World) {
    w.cache == map[] && w.scrapes == map[] && w.log == []
  }

  // A run interleaves any number of scrapes in any way.
  datatype Stamp = Stamp(id: nat, action: Action)

  ghost predicate IsRun(cfg: Config, worlds: seq<World>, stamps: seq<Stamp>) {
    && |worlds| == |stamps| + 1 && Initial(worlds[0])
    && forall i :: 0 <= i < |stamps| ==>
      && Enabled(cfg, worlds[i], stamps[i].id, stamps[i].action)
      && worlds[i + 1] == Next(cfg, worlds[i], stamps[i].id, stamps[i].action)
  }

  // ----- Freshness -----

  // These metrics are the whole result of this query, which began at or after a given time.
  ghost predicate Answers(q: Query, ns: string, metrics: seq<Metric>, from: Time, now: Time) {
    q.ns == ns && Emitted(q.outcome) == metrics && from <= q.begin <= q.end <= now
  }

  ghost predicate Backed(log: seq<Query>, ns: string, metrics: seq<Metric>, from: Time, now: Time) {
    exists i :: 0 <= i < |log| && Answers(log[i], ns, metrics, from, now)
  }

  ghost predicate GoodPhase(cfg: Config, w: World, s: Scrape) {
    match s.phase
    case Choosing => true
    case Deciding(ns, found) =>
      found.Some? ==> Backed(w.log, ns, found.value.metrics, found.value.lastScrape, w.now)
    case Waiting(_, begin) => s.start <= begin <= w.now
    case Storing(ns, metrics) => Backed(w.log, ns, metrics, s.start, w.now)
  }

  // The namespaces a scrape has neither finished nor still to choose.
  function InHand(p: Phase): set<string> {
    match p
    case Deciding(ns, _) => {ns}
    case Waiting(ns, _) => {ns}
    case _ => {}
  }

  // Every active namespace is emitted once: it is emitted, in hand or still to do.
  ghost predicate Accounted(cfg: Config, s: Scrape) {
    && s.todo <= cfg.tables.Keys
    && s.todo !! InHand(s.phase) && s.emitted.Keys !! s.todo && s.emitted.Keys !! InHand(s.phase)
    && forall ns :: (ns in s.emitted || ns in InHand(s.phase) || (ns in s.todo && Active(cfg, ns))) <==> Active(cfg, ns)
  }

  ghost predicate Fresh(cfg: Config, w: World, s: Scrape) {
    forall ns :: ns in s.emitted ==>
      && ns in cfg.tables
      && Backed(w.log, ns, s.emitted[ns], s.start - MaxAge(cfg, ns), w.now)
  }

  ghost predicate GoodScrape(cfg: Config, w: World, s: Scrape) {
    s.start <= w.now && GoodPhase(cfg, w, s) && Accounted(cfg, s) && Fresh(cfg, w, s)
  }

  ghost predicate GoodCache(w: World) {
    forall ns :: ns in w.cache ==> Backed(w.log, ns, w.cache[ns].metrics, w.cache[ns].lastScrape, w.now)
  }

  ghost predicate Inv(cfg: Config, w: World) {
    GoodCache(w) && forall id :: id in w.scrapes ==> GoodScrape(cfg, w, w.scrapes[id])
  }

  // ----- Preservation -----

  lemma BackedLater(log: seq<Query>, more: seq<Query>, ns: string, m: seq<Metric>, from: Time, from': Time,
                    now: Time, now': Time)
    requires Backed(log, ns, m, from, now) && from' <= from && now <= now'
    ensures Backed(log + more, ns, m, from', now')
  {
    var i :| 0 <= i < |log| && Answers(log[i], ns, m, from, now);
    assert Answers((log + more)[i], ns, m, from', now');
  }

  // The log and the clock only grow, so what was good for another scrape stays good.
  lemma GoodLater(cfg: Config, w: World, w': World, s: Scrape, more: seq<Query>)
    requires GoodScrape(cfg, w, s) && w.now <= w'.now && w'.log == w.log + more
    ensures GoodScrape(cfg, w', s)
  {
    match s.phase {
      case Choosing =>
      case Deciding(ns, found) =>
        if found.Some? {
          var c := found.value;
          BackedLater(w.log, more, ns, c.metrics, c.lastScrape, c.lastScrape, w.now, w'.now);
        }
      case Waiting(_, _) =>
      case Storing(ns, metrics) =>
        BackedLater(w.log, more, ns, metrics, s.start, s.start, w.now, w'.now);
    }
    forall ns | ns in s.emitted
      ensures Backed(w'.log, ns, s.emitted[ns], s.start - MaxAge(cfg, ns), w'.now)
    {
      var from := s.start - MaxAge(cfg, ns);
      BackedLater(w.log, more, ns, s.emitted[ns], from, from, w.now, w'.now);
    }
  }

  lemma CacheLater(w: World, w': World, more: seq<Query>)
    requires GoodCache(w) && w.cache == w'.cache && w.now <= w'.now && w'.log == w.log + more
    ensures GoodCache(w')
  {
    forall ns | ns in w.cache
      ensures Backed(w'.log, ns, w.cache[ns].metrics, w.cache[ns].lastScrape, w'.now)
    {
      var c := w.cache[ns];
      BackedLater(w.log, more, ns, c.metrics, c.lastScrape, c.lastScrape, w.now, w'.now);
    }
  }

  lemma EmittedStaysFresh(cfg: Config, w: World, s: Scrape, ns: string, metrics: seq<Metric>, t: Scrape)
    requires Fresh(cfg, w, s) && ns in cfg.tables
    requires Backed(w.log, ns, metrics, s.start - MaxAge(cfg, ns), w.now)
    requires t.start == s.start && t.emitted == s.emitted[ns := metrics]
    ensures Fresh(cfg, w, t)
  {
  }

  lemma MoveKeeps(cfg: Config, w: World, id: nat, a: Action)
    requires Inv(cfg, w) && id in w.scrapes && EnabledIn(cfg, w.scrapes[id], a) && !a.EndQuery?
    ensures GoodScrape(cfg, w, Move(cfg, w, w.scrapes[id], a))
  {
    var s := w.scrapes[id];
    var t := Move(cfg, w, s, a);
    match a {
      case Skip(ns) =>
      case LookUp(ns) =>
      case UseCached =>
        var ns, c := s.phase.ns, s.phase.found.value;
        BackedLater(w.log, [], ns, c.metrics, c.lastScrape, s.start - MaxAge(cfg, ns), w.now, w.now);
        assert w.log + [] == w.log;
        EmittedStaysFresh(cfg, w, s, ns, c.metrics, t);
      case StartQuery =>
      case WriteBack =>
    }
  }

  lemma EndQueryKeeps(cfg: Config, w: World, id: nat, o: Outcome)
    requires Inv(cfg, w) && id in w.scrapes && EnabledIn(cfg, w.scrapes[id], EndQuery(o))
    ensures var w' := Next(cfg, w, id, EndQuery(o));
            GoodScrape(cfg, w', w'.scrapes[id])
  {
    var s := w.scrapes[id];
    var w' := Next(cfg, w, id, EndQuery(o));
    var t := w'.scrapes[id];
    var ns := s.phase.ns;
    var q := Query(ns, id, s.phase.begin, w.now, o);
    GoodLater(cfg, w, w', s, [q]);
    assert w'.log[|w.log|] == q;
    assert Answers(q, ns, Emitted(o), s.start, w'.now);
    assert Answers(q, ns, Emitted(o), s.start - MaxAge(cfg, ns), w'.now);
    assert Backed(w'.log, ns, Emitted(o), s.start, w'.now);
    EmittedStaysFresh(cfg, w', s, ns, Emitted(o), t);
  }

  lemma StepKeeps(cfg: Config, w: World, id: nat, a: Action)
    requires Inv(cfg, w) && Enabled(cfg, w, id, a)
    ensures Inv(cfg, Next(cfg, w, id, a))
  {
    var w' := Next(cfg, w, id, a);
    var more := if a.EndQuery? then [w'.log[|w.log|]] else [];
    assert w'.log == w.log + more;
    forall j | j in w'.scrapes
      ensures GoodScrape(cfg, w', w'.scrapes[j])
    {
      if j in w.scrapes && w'.scrapes[j] == w.scrapes[j] {
        GoodLater(cfg, w, w', w.scrapes[j], more);
      } else if a.EndQuery? {
        EndQueryKeeps(cfg, w, id, a.outcome);
      } else if !a.Begin? {
        MoveKeeps(cfg, w, id, a);
        GoodLater(cfg, w, w', w'.scrapes[j], more);
      }
    }
    if a.WriteBack? {
      assert GoodScrape(cfg, w, w.scrapes[id]);
      assert w.log + [] == w.log;
    } else {
      CacheLater(w, w', more);
    }
  }

  lemma {:induction false} RunKeeps(cfg: Config, worlds: seq<World>, stamps: seq<Stamp>, i: nat)
    requires IsRun(cfg, worlds, stamps) && i < |worlds|
    ensures Inv(cfg, worlds[i])
  {
    if i > 0 {
      RunKeeps(cfg, worlds, stamps, i - 1);
      StepKeeps(cfg, worlds[i - 1], stamps[i - 1].id, stamps[i - 1].action);
    }
  }

  // ----- Theorems -----

  // In every interleaving, what a scrape emits for a namespace is the whole result of one logged
  // query of it, begun no earlier than the scrape's start minus cacheSeconds.
  lemma EmissionsAreFresh(cfg: Config, worlds: seq<World>, stamps: seq<Stamp>, i: nat, id: nat, ns: string)
    requires IsRun(cfg, worlds, stamps) && i < |worlds|
    requires id in worlds[i].scrapes && ns in worlds[i].scrapes[id].emitted
    ensures ns in cfg.tables
    ensures var s := worlds[i].scrapes[id];
            Backed(worlds[i].log, ns, s.emitted[ns], s.start - cfg.tables[ns].cacheSeconds * 1_000_000_000,
                   worlds[i].now)
  {
    RunKeeps(cfg, worlds, stamps, i);
    assert GoodScrape(cfg, worlds[i], worlds[i].scrapes[id]);
  }

  // A scrape that is through has emitted the namespaces that it is to scrape and no others: within
  // the version range, those of a master on a master only.
  lemma FinishedScrapesAreComplete(cfg: Config, worlds: seq<World>, stamps: seq<Stamp>, i: nat, id: nat)
    requires IsRun(cfg, worlds, stamps) && i < |worlds| && id in worlds[i].scrapes
    requires Finished(worlds[i].scrapes[id])
    ensures forall ns :: ns in worlds[i].scrapes[id].emitted
                         <==> ns in cfg.tables && cfg.inRange && (cfg.tables[ns].master ==> cfg.isMaster)
  {
    RunKeeps(cfg, worlds, stamps, i);
    assert GoodScrape(cfg, worlds[i], worlds[i].scrapes[id]);
  }

  // ----- A scrape that nobody disturbs -----

  // The steps of one loop iteration in a row.
  function Solo(cfg: Config, w: World, id: nat, ns: string, o: Outcome): World
    requires Enabled(cfg, w, id, LookUp(ns))
  {
    var w1 := Next(cfg, w, id, LookUp(ns));
    if Enabled(cfg, w1, id, UseCached) then Next(cfg, w1, id, UseCached)
    else
      var w2 := Next(cfg, w1, id, StartQuery);
      var w3 := Next(cfg, w2, id, EndQuery(o));
      if Enabled(cfg, w3, id, WriteBack) then Next(cfg, w3, id, WriteBack) else w3
  }

  // Without interference an iteration does what the sequential scrape does: the same emission, the
  // same cache, and a query is logged exactly when the sequential scrape really queries.
  lemma SoloIsSequential(cfg: Config, w: World, id: nat, ns: string, db: string -> Outcome)
    requires Enabled(cfg, w, id, LookUp(ns))
    ensures var s, w' := w.scrapes[id], Solo(cfg, w, id, ns, db(ns));
            var m := Emission(cfg, w.cache, s.start, db, ns);
            && w'.scrapes == w.scrapes[id := Scrape(s.start, s.todo - {ns}, Choosing, s.emitted[ns := m])]
            && w'.cache == (if Stores(cfg, w.cache, s.start, ns) then w.cache[ns := Cached(m, s.start)] else w.cache)
            && w'.log == w.log
                         + if Queries(cfg, w.cache, s.start, ns) then [Query(ns, id, w.now, w.now, db(ns))] else []
  {
    var s := w.scrapes[id];
    var w1 := Next(cfg, w, id, LookUp(ns));
    assert w1.scrapes[id].phase == Deciding(ns, Lookup(w.cache, ns));
    assert w.log + [] == w.log;
  }
}
