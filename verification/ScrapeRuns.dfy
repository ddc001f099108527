/** Runs of scrapes put together step by step, which show that the bounds on real queries are tight. */
module ScrapeRuns {
  import opened Prelude
  import opened Metrics
  import opened ScrapeCache
  import opened ConcurrentScrapes
  import opened SeparateScrapes

  // ----- Building runs -----

  datatype Run = Run(worlds: seq<World>, stamps: seq<Stamp>)

  ghost predicate Good(cfg: Config, r: Run) { IsRun(cfg, r.worlds, r.stamps) }

  ghost function Last(r: Run): World
    requires r.worlds != []
  {
    r.worlds[|r.worlds| - 1]
  }

  // more goes on from r, without overlap if r has none.
  ghost predicate Continues(cfg: Config, r: Run, more: Run) {
    Good(cfg, more) && (NoOverlap(r.worlds, r.stamps) ==> NoOverlap(more.worlds, more.stamps))
  }

  lemma EmptyRun() returns (r: Run)
    ensures forall cfg :: Good(cfg, r)
    ensures |r.worlds| == 1 && Last(r) == World(0, map[], map[], []) && NoOverlap(r.worlds, r.stamps)
  {
    r := Run([World(0, map[], map[], [])], []);
  }

  lemma Extend(cfg: Config, r: Run, id: nat, a: Action) returns (more: Run)
    requires Good(cfg, r) && Enabled(cfg, Last(r), id, a)
    ensures Good(cfg, more) && |more.stamps| == |r.stamps| + 1 && r.worlds <= more.worlds
    ensures Last(more) == Next(cfg, Last(r), id, a)
    ensures !a.Begin? || AllFinished(Last(r)) ==> Continues(cfg, r, more)
  {
    more := Run(r.worlds + [Next(cfg, Last(r), id, a)], r.stamps + [Stamp(id, a)]);
  }

  lemma BeginAt(cfg: Config, r: Run, id: nat, time: Time) returns (more: Run)
    requires Good(cfg, r) && id !in Last(r).scrapes && Last(r).now <= time
    ensures Good(cfg, more)
    ensures var w := Last(r);
            Last(more) == World(time, w.cache, w.scrapes[id := NewScrape(cfg, time)], w.log)
    ensures AllFinished(Last(r)) ==> Continues(cfg, r, more)
  {
    var r1 := Extend(cfg, r, id, Tick(time));
    more := Extend(cfg, r1, id, Begin);
  }

  // A scrape moves on from world w to a state of its own, at a given time.
  ghost function Moved(w: World, now: Time, id: nat, s: Scrape): World {
    World(now, w.cache, w.scrapes[id := s], w.log)
  }

  lemma MovedTwice(w: World, n1: Time, n2: Time, id: nat, s: Scrape, t: Scrape)
    ensures Moved(Moved(w, n1, id, s), n2, id, t) == Moved(w, n2, id, t)
  {
    assert w.scrapes[id := s][id := t] == w.scrapes[id := t];
  }

  // The scrape can choose the namespace.
  ghost predicate CanChoose(cfg: Config, w: World, id: nat, ns: string) {
    Active(cfg, ns) && id in w.scrapes && w.scrapes[id].phase.Choosing? && ns in w.scrapes[id].todo
  }

  // It looks the namespace up and starts to query it at a given time.
  lemma RunToWaiting(cfg: Config, r: Run, id: nat, ns: string, begin: Time) returns (more: Run)
    requires Good(cfg, r) && CanChoose(cfg, Last(r), id, ns) && Last(r).now <= begin
    requires NeedsQuery(cfg, ns, Lookup(Last(r).cache, ns), Last(r).scrapes[id].start)
    ensures Continues(cfg, r, more)
    ensures var s := Last(r).scrapes[id];
            Last(more) == Moved(Last(r), begin, id, Scrape(s.start, s.todo - {ns}, Waiting(ns, begin), s.emitted))
  {
    var w, s := Last(r), Last(r).scrapes[id];
    var s1 := Scrape(s.start, s.todo - {ns}, Deciding(ns, Lookup(w.cache, ns)), s.emitted);
    var r1 := Extend(cfg, r, id, LookUp(ns));
    assert Last(r1) == Moved(w, w.now, id, s1);
    var r2 := Extend(cfg, r1, id, Tick(begin));
    assert Last(r2) == Moved(w, begin, id, s1);
    more := Extend(cfg, r2, id, StartQuery);
    MovedTwice(w, begin, begin, id, s1, Scrape(s.start, s.todo - {ns}, Waiting(ns, begin), s.emitted));
  }

  // What a scrape is after the answer.
  ghost function Answered(cfg: Config, s: Scrape, ns: string, o: Outcome): Scrape
    requires ns in cfg.tables
  {
    Scrape(s.start, s.todo - {ns}, if cfg.tables[ns].cacheSeconds > 0 then Storing(ns, Emitted(o)) else Choosing,
           s.emitted[ns := Emitted(o)])
  }

  // The query is answered at once.
  lemma RunToAnswer(cfg: Config, r: Run, id: nat, ns: string, begin: Time, o: Outcome) returns (more: Run)
    requires Good(cfg, r) && CanChoose(cfg, Last(r), id, ns) && Last(r).now <= begin
    requires NeedsQuery(cfg, ns, Lookup(Last(r).cache, ns), Last(r).scrapes[id].start)
    ensures Continues(cfg, r, more)
    ensures var w, s := Last(r), Last(r).scrapes[id];
            Last(more) == World(begin, w.cache, w.scrapes[id := Answered(cfg, s, ns, o)],
                                w.log + [Query(ns, id, begin, begin, o)])
  {
    var w, s := Last(r), Last(r).scrapes[id];
    var r1 := RunToWaiting(cfg, r, id, ns, begin);
    more := Extend(cfg, r1, id, EndQuery(o));
    MovedTwice(w, begin, begin, id, Last(r1).scrapes[id], Answered(cfg, s, ns, o));
  }

  // ----- The rest of a scrape -----

  // From w to x, scrape id has gone on with other namespaces than ns.
  ghost predicate WentOn(w: World, x: World, id: nat, ns: string) {
    && x.now == w.now && w.log <= x.log && Lookup(x.cache, ns) == Lookup(w.cache, ns)
    && id in w.scrapes && x.scrapes.Keys == w.scrapes.Keys && x.scrapes[id].start == w.scrapes[id].start
    && forall k :: k in w.scrapes && k != id ==> x.scrapes[k] == w.scrapes[k]
  }

  // The scrape chooses, and has these namespaces to do.
  ghost predicate Chooses(w: World, id: nat, todo: set<string>) {
    id in w.scrapes && w.scrapes[id].phase.Choosing? && w.scrapes[id].todo == todo
  }

  // One other namespace, queried and perhaps stored.
  lemma OneQuery(cfg: Config, r: Run, id: nat, ns: string, x: string, o: Outcome) returns (more: Run)
    requires Good(cfg, r) && x != ns && CanChoose(cfg, Last(r), id, x)
    requires NeedsQuery(cfg, x, Lookup(Last(r).cache, x), Last(r).scrapes[id].start)
    ensures Continues(cfg, r, more) && WentOn(Last(r), Last(more), id, ns)
    ensures Chooses(Last(more), id, Last(r).scrapes[id].todo - {x})
  {
    more := RunToAnswer(cfg, r, id, x, Last(r).now, o);
    if Last(more).scrapes[id].phase.Storing? {
      more := Extend(cfg, more, id, WriteBack);
    }
  }

  // One other namespace: skipped, queried, or emitted from the cache.
  lemma OneMore(cfg: Config, r: Run, id: nat, ns: string, x: string, o: Outcome) returns (more: Run)
    requires Good(cfg, r) && x != ns && x in cfg.tables
    requires id in Last(r).scrapes && x in Last(r).scrapes[id].todo && Last(r).scrapes[id].phase.Choosing?
    ensures Continues(cfg, r, more) && WentOn(Last(r), Last(more), id, ns)
    ensures Chooses(Last(more), id, Last(r).scrapes[id].todo - {x})
  {
    if !Active(cfg, x) {
      more := Extend(cfg, r, id, Skip(x));
    } else if NeedsQuery(cfg, x, Lookup(Last(r).cache, x), Last(r).scrapes[id].start) {
      more := OneQuery(cfg, r, id, ns, x, o);
    } else {
      more := Extend(cfg, r, id, LookUp(x));
      more := Extend(cfg, more, id, UseCached);
    }
  }

  lemma WentOnTwice(w: World, x: World, y: World, id: nat, ns: string)
    requires WentOn(w, x, id, ns) && WentOn(x, y, id, ns)
    ensures WentOn(w, y, id, ns)
  {
  }

  lemma {:induction false} FinishScrape(cfg: Config, r: Run, id: nat, ns: string, todo: set<string>, o: Outcome)
    returns (more: Run)
    requires Good(cfg, r) && Chooses(Last(r), id, todo) && ns !in todo && todo <= cfg.tables.Keys
    ensures Continues(cfg, r, more) && WentOn(Last(r), Last(more), id, ns) && Finished(Last(more).scrapes[id])
    decreases |todo|
  {
    if todo == {} {
      more := r;
    } else {
      var x :| x in todo;
      var r1 := OneMore(cfg, r, id, ns, x, o);
      more := FinishScrape(cfg, r1, id, ns, todo - {x}, o);
      WentOnTwice(Last(r), Last(r1), Last(more), id, ns);
    }
  }

  // A scrape that begins and then queries the namespace first.
  lemma BeginAndQuery(cfg: Config, r: Run, id: nat, ns: string, start: Time, begin: Time, o: Outcome)
    returns (more: Run)
    requires Good(cfg, r) && Cacheable(cfg, ns) && id !in Last(r).scrapes
    requires Last(r).now <= start <= begin && NeedsQuery(cfg, ns, Lookup(Last(r).cache, ns), start)
    ensures Good(cfg, more) && (AllFinished(Last(r)) ==> Continues(cfg, r, more))
    ensures var w := Last(r);
            Last(more) == World(begin, w.cache, w.scrapes[id := Answered(cfg, NewScrape(cfg, start), ns, o)],
                                w.log + [Query(ns, id, begin, begin, o)])
  {
    var w := Last(r);
    var r1 := BeginAt(cfg, r, id, start);
    more := RunToAnswer(cfg, r1, id, ns, begin, o);
    var s, t := NewScrape(cfg, start), Answered(cfg, NewScrape(cfg, start), ns, o);
    assert w.scrapes[id := s][id := t] == w.scrapes[id := t];
  }

  // ----- Tightness of the spacing -----

  // The first scrape of a server, to its end, in which the namespace is queried with a delay.
  lemma FirstScrape(cfg: Config, ns: string, delay: nat, o: Outcome) returns (r: Run)
    requires Cacheable(cfg, ns)
    ensures Good(cfg, r) && NoOverlap(r.worlds, r.stamps) && AllFinished(Last(r))
    ensures var w := Last(r);
            && w.now == delay && w.log != [] && w.log[0] == Query(ns, 0, delay, delay, o)
            && w.scrapes.Keys == {0} && w.scrapes[0].start == 0
            && Lookup(w.cache, ns) == Some(Cached(Emitted(o), 0))
  {
    var r0 := EmptyRun();
    var r1 := BeginAndQuery(cfg, r0, 0, ns, 0, delay, o);
    var r2 := Extend(cfg, r1, 0, WriteBack);
    assert Chooses(Last(r2), 0, cfg.tables.Keys - {ns});
    r := FinishScrape(cfg, r2, 0, ns, cfg.tables.Keys - {ns}, o);
    assert Last(r).log[0] == Last(r2).log[0];
  }

  // Two queries of the log, the first of which began with this delay.
  ghost predicate WithDelay(r: Run, ns: string, i: nat, j: nat, delay: nat) {
    && r.worlds != [] && i < j < |Last(r).log| && Last(r).log[i].ns == ns && Last(r).log[j].ns == ns
    && Delay(Last(r), Last(r).log[i]) == delay
  }

  // On every server: two scrapes that do not overlap, the first with a given delay; the second
  // queries as soon as it can.
  lemma TwoScrapes(cfg: Config, ns: string, delay: nat, o: Outcome) returns (r: Run, i: nat, j: nat)
    requires Cacheable(cfg, ns)
    ensures Good(cfg, r) && NoOverlap(r.worlds, r.stamps) && WithDelay(r, ns, i, j, delay)
    ensures Last(r).log[j].begin - Last(r).log[i].begin
            == if delay <= MaxAge(cfg, ns) then MaxAge(cfg, ns) - delay + 1 else 0
  {
    var r1 := FirstScrape(cfg, ns, delay, o);
    var next := if delay <= MaxAge(cfg, ns) then MaxAge(cfg, ns) + 1 else delay;
    r := BeginAndQuery(cfg, r1, 1, ns, next, next, o);
    i, j := 0, |Last(r1).log|;
  }

  // Every later real query of the namespace begins more than cacheSeconds after one with this
  // delay, by a scrape that overlaps no other.
  ghost predicate Guaranteed(cfg: Config, ns: string, delay: nat)
    requires ns in cfg.tables
  {
    forall r: Run, i: nat, j: nat ::
      Good(cfg, r) && WithDelay(r, ns, i, j, delay) && Solitary(r.worlds, r.stamps, Last(r).log[i].scraper) ==>
      Last(r).log[j].begin - Last(r).log[i].begin > MaxAge(cfg, ns)
  }

  // Exactly a query at its scrape's start guarantees the full cacheSeconds.
  lemma GuaranteedExactly(cfg: Config, ns: string, delay: nat)
    requires Cacheable(cfg, ns)
    ensures Guaranteed(cfg, ns, delay) <==> delay == 0
  {
    if delay == 0 {
      forall r: Run, i: nat, j: nat |
        Good(cfg, r) && WithDelay(r, ns, i, j, delay) && Solitary(r.worlds, r.stamps, Last(r).log[i].scraper)
        ensures Last(r).log[j].begin - Last(r).log[i].begin > MaxAge(cfg, ns)
      {
        QueriesAreSpaced(cfg, r.worlds, r.stamps, ns, |r.worlds| - 1, i, j);
      }
    } else {
      var r, i, j := TwoScrapes(cfg, ns, delay, Failed);
      NoOverlapIsSolitary(r.worlds, r.stamps, Last(r).log[i].scraper);
    }
  }

  // ----- Overlap -----

  // Any number of overlapping scrapes may all query the namespace at the same time.
  lemma {:induction false} ManyQueries(cfg: Config, ns: string, n: nat, o: Outcome) returns (r: Run)
    requires Cacheable(cfg, ns)
    ensures Good(cfg, r) && Last(r).now == 0 && Last(r).cache == map[] && |Last(r).log| == n
    ensures forall k :: k in Last(r).scrapes ==> k < n && Last(r).scrapes[k].start == 0
    ensures forall i :: 0 <= i < n ==> Last(r).log[i] == Query(ns, i, 0, 0, o)
  {
    if n == 0 {
      r := EmptyRun();
    } else {
      var r1 := ManyQueries(cfg, ns, n - 1, o);
      r := BeginAndQuery(cfg, r1, n - 1, ns, 0, 0, o);
    }
  }

  // An entry can go back: the second of two scrapes stores first.
  lemma LastScrapeCanGoBack(cfg: Config, ns: string, o: Outcome) returns (r: Run, i: nat)
    requires Cacheable(cfg, ns)
    ensures Good(cfg, r) && i < |r.stamps| && ns in r.worlds[i].cache && ns in r.worlds[i + 1].cache
    ensures r.worlds[i + 1].cache[ns].lastScrape < r.worlds[i].cache[ns].lastScrape
  {
    var r0 := EmptyRun();
    var r1 := BeginAndQuery(cfg, r0, 0, ns, 0, 0, o);
    var r2 := BeginAndQuery(cfg, r1, 1, ns, 1, 1, o);
    var r3 := Extend(cfg, r2, 1, WriteBack);
    r := Extend(cfg, r3, 0, WriteBack);
    i := |r3.stamps|;
  }
}
