/**
 Scrapes that overlap and scrapes that do not: when lastScrape goes back, how far apart the real
 queries of a namespace are, and runs that show both are tight.
 */
module SeparateScrapes {
  import opened Prelude
  import opened Metrics
  import opened ScrapeCache
  import opened ConcurrentScrapes

  ghost predicate AllFinished(w: World) {
    forall id :: id in w.scrapes ==> Finished(w.scrapes[id])
  }

  // No scrape begins before all earlier ones are through.
  ghost predicate NoOverlap(worlds: seq<World>, stamps: seq<Stamp>) {
    forall i :: 0 <= i < |stamps| && i < |worlds| && stamps[i].action.Begin? ==> AllFinished(worlds[i])
  }

  // A scrape that overlaps no other: none is under way when it begins, and none begins while it is.
  ghost predicate Solitary(worlds: seq<World>, stamps: seq<Stamp>, id: nat) {
    forall i :: 0 <= i < |stamps| && i < |worlds| && stamps[i].action.Begin? ==>
      if stamps[i].id == id then AllFinished(worlds[i])
      else id in worlds[i].scrapes ==> Finished(worlds[i].scrapes[id])
  }

  lemma NoOverlapIsSolitary(worlds: seq<World>, stamps: seq<Stamp>, id: nat)
    requires NoOverlap(worlds, stamps)
    ensures Solitary(worlds, stamps, id)
  {
  }

  // ----- lastScrape -----

  // Step c stores the namespace.
  ghost predicate Writes(worlds: seq<World>, stamps: seq<Stamp>, c: nat, ns: string)
    requires c < |stamps| && c < |worlds|
  {
    && stamps[c].action.WriteBack? && stamps[c].id in worlds[c].scrapes
    && worlds[c].scrapes[stamps[c].id].phase.Storing? && worlds[c].scrapes[stamps[c].id].phase.ns == ns
  }

  // Step c is the latest before step i to store it.
  ghost predicate LatestWrite(worlds: seq<World>, stamps: seq<Stamp>, c: nat, i: nat, ns: string)
    requires i <= |stamps| < |worlds|
  {
    c < i && Writes(worlds, stamps, c, ns) && forall j :: c < j < i ==> !Writes(worlds, stamps, j, ns)
  }

  // In a run, a scrape keeps its start from its Begin on, and what is finished stays so.
  lemma {:induction false} Stays(cfg: Config, worlds: seq<World>, stamps: seq<Stamp>, i: nat, j: nat, id: nat)
    requires IsRun(cfg, worlds, stamps) && i <= j < |worlds|
    ensures worlds[i].now <= worlds[j].now
    ensures id in worlds[i].scrapes ==>
      && id in worlds[j].scrapes && worlds[j].scrapes[id].start == worlds[i].scrapes[id].start
      && (Finished(worlds[i].scrapes[id]) ==> Finished(worlds[j].scrapes[id]))
    decreases j - i
  {
    if i < j {
      Stays(cfg, worlds, stamps, i, j - 1, id);
      assert worlds[j] == Next(cfg, worlds[j - 1], stamps[j - 1].id, stamps[j - 1].action);
    }
  }

  lemma {:induction false} BegunAt(cfg: Config, worlds: seq<World>, stamps: seq<Stamp>, i: nat, id: nat)
    returns (b: nat)
    requires IsRun(cfg, worlds, stamps) && i < |worlds| && id in worlds[i].scrapes
    ensures b < i && stamps[b] == Stamp(id, Begin) && worlds[b].now == worlds[i].scrapes[id].start
  {
    assert i > 0;
    assert worlds[i] == Next(cfg, worlds[i - 1], stamps[i - 1].id, stamps[i - 1].action);
    if id in worlds[i - 1].scrapes {
      b := BegunAt(cfg, worlds, stamps, i - 1, id);
    } else {
      b := i - 1;
    }
  }

  lemma {:induction false} WrittenAt(cfg: Config, worlds: seq<World>, stamps: seq<Stamp>, i: nat, ns: string)
    returns (c: nat)
    requires IsRun(cfg, worlds, stamps) && i < |worlds| && ns in worlds[i].cache
    ensures LatestWrite(worlds, stamps, c, i, ns)
    ensures worlds[i].cache[ns].lastScrape == worlds[c].scrapes[stamps[c].id].start
  {
    assert i > 0;
    assert worlds[i] == Next(cfg, worlds[i - 1], stamps[i - 1].id, stamps[i - 1].action);
    if Writes(worlds, stamps, i - 1, ns) {
      c := i - 1;
    } else {
      c := WrittenAt(cfg, worlds, stamps, i - 1, ns);
    }
  }

  // A scrape begins at step b, later than the start of one that is then under way.
  ghost predicate BeginsWithin(worlds: seq<World>, stamps: seq<Stamp>, b: nat, later: nat, id: nat)
    requires |stamps| < |worlds|
  {
    && b < |stamps| && stamps[b] == Stamp(later, Begin)
    && id in worlds[b].scrapes && !Finished(worlds[b].scrapes[id]) && worlds[b].scrapes[id].start < worlds[b].now
  }

  // The step stores the namespace over the entry of a scrape that began within its own.
  ghost predicate StoresOverLater(worlds: seq<World>, stamps: seq<Stamp>, i: nat, ns: string)
    requires i < |stamps| < |worlds|
  {
    && Writes(worlds, stamps, i, ns)
    && exists c: nat, b: nat ::
         LatestWrite(worlds, stamps, c, i, ns) && b < i && BeginsWithin(worlds, stamps, b, stamps[c].id, stamps[i].id)
  }

  lemma OnlyWritesMoveBack(cfg: Config, worlds: seq<World>, stamps: seq<Stamp>, i: nat, ns: string)
    requires IsRun(cfg, worlds, stamps) && i < |stamps| && ns in worlds[i].cache
    ensures ns in worlds[i + 1].cache
    ensures worlds[i + 1].cache[ns].lastScrape < worlds[i].cache[ns].lastScrape
            <==> Writes(worlds, stamps, i, ns) && worlds[i].scrapes[stamps[i].id].start < worlds[i].cache[ns].lastScrape
  {
    assert worlds[i + 1] == Next(cfg, worlds[i], stamps[i].id, stamps[i].action);
  }

  // A scrape that stores with an earlier start than that of the entry was under way when the
  // scrape of the entry began.
  lemma EarlierStartOverlaps(cfg: Config, worlds: seq<World>, stamps: seq<Stamp>, i: nat, ns: string)
    requires IsRun(cfg, worlds, stamps) && i < |stamps| && ns in worlds[i].cache && Writes(worlds, stamps, i, ns)
    requires worlds[i].scrapes[stamps[i].id].start < worlds[i].cache[ns].lastScrape
    ensures StoresOverLater(worlds, stamps, i, ns)
  {
    var id := stamps[i].id;
    var c := WrittenAt(cfg, worlds, stamps, i, ns);
    var later := stamps[c].id;
    var b := BegunAt(cfg, worlds, stamps, c, later);
    var a := BegunAt(cfg, worlds, stamps, i, id);
    if b < a {
      Stays(cfg, worlds, stamps, b, a, id);
    }
    assert a < b;
    assert worlds[a + 1] == Next(cfg, worlds[a], id, Begin);
    Stays(cfg, worlds, stamps, a + 1, b, id);
    Stays(cfg, worlds, stamps, b, i, id);
    assert BeginsWithin(worlds, stamps, b, later, id);
  }

  lemma OverlapIsEarlier(cfg: Config, worlds: seq<World>, stamps: seq<Stamp>, i: nat, ns: string)
    requires IsRun(cfg, worlds, stamps) && i < |stamps| && ns in worlds[i].cache
    requires StoresOverLater(worlds, stamps, i, ns)
    ensures worlds[i].scrapes[stamps[i].id].start < worlds[i].cache[ns].lastScrape
  {
    var c: nat, b: nat :|
      LatestWrite(worlds, stamps, c, i, ns) && b < i && BeginsWithin(worlds, stamps, b, stamps[c].id, stamps[i].id);
    var d := WrittenAt(cfg, worlds, stamps, i, ns);
    assert d == c;
    Stays(cfg, worlds, stamps, b, i, stamps[i].id);
    assert worlds[b + 1] == Next(cfg, worlds[b], stamps[b].id, Begin);
    Stays(cfg, worlds, stamps, b + 1, i, stamps[c].id);
    Stays(cfg, worlds, stamps, c, i, stamps[c].id);
  }

  // In every run, a step moves lastScrape back exactly when it stores over the entry of a scrape
  // that began while its own was under way, at a later time.
  lemma GoesBackExactly(cfg: Config, worlds: seq<World>, stamps: seq<Stamp>, i: nat, ns: string)
    requires IsRun(cfg, worlds, stamps) && i < |stamps| && ns in worlds[i].cache
    ensures ns in worlds[i + 1].cache
    ensures worlds[i + 1].cache[ns].lastScrape < worlds[i].cache[ns].lastScrape
            <==> StoresOverLater(worlds, stamps, i, ns)
  {
    OnlyWritesMoveBack(cfg, worlds, stamps, i, ns);
    if StoresOverLater(worlds, stamps, i, ns) {
      OverlapIsEarlier(cfg, worlds, stamps, i, ns);
    } else if worlds[i + 1].cache[ns].lastScrape < worlds[i].cache[ns].lastScrape {
      EarlierStartOverlaps(cfg, worlds, stamps, i, ns);
    }
  }

  lemma NeverBackWithoutOverlap(cfg: Config, worlds: seq<World>, stamps: seq<Stamp>, i: nat, ns: string)
    requires IsRun(cfg, worlds, stamps) && NoOverlap(worlds, stamps) && i < |stamps| && ns in worlds[i].cache
    ensures ns in worlds[i + 1].cache && worlds[i].cache[ns].lastScrape <= worlds[i + 1].cache[ns].lastScrape
  {
    GoesBackExactly(cfg, worlds, stamps, i, ns);
    forall b: nat, later: nat, id: nat
      ensures !BeginsWithin(worlds, stamps, b, later, id)
    {
      assert b < |stamps| && stamps[b].action.Begin? ==> AllFinished(worlds[b]);
    }
  }

  // ----- Spacing after a scrape that overlaps no other -----

  // The start of the scrape that sent a logged query.
  ghost function StartOf(w: World, q: Query): Time {
    if q.scraper in w.scrapes then w.scrapes[q.scraper].start else 0
  }

  // A logged query is that of a known scrape, which started before it and has emitted it.
  ghost predicate QueryKnown(w: World, q: Query) {
    && q.scraper in w.scrapes && q.ns in w.scrapes[q.scraper].emitted
    && w.scrapes[q.scraper].start <= q.begin
  }

  ghost predicate LogKnown(w: World) {
    && (forall k :: k in w.scrapes ==> w.scrapes[k].start <= w.now)
    && forall i :: 0 <= i < |w.log| ==> QueryKnown(w, w.log[i])
  }

  // The other scrapes are through, or this one is and they started after it.
  ghost predicate Apart(w: World, id: nat) {
    id in w.scrapes ==>
      forall k :: k in w.scrapes && k != id ==>
        Finished(w.scrapes[k]) || (Finished(w.scrapes[id]) && w.scrapes[id].start <= w.scrapes[k].start)
  }

  ghost predicate Asked(w: World, id: nat, ns: string) {
    exists i :: 0 <= i < |w.log| && w.log[i].scraper == id && w.log[i].ns == ns
  }

  // The cache knows of its query, or is about to.
  ghost predicate Remembered(w: World, id: nat, ns: string) {
    Asked(w, id, ns) ==>
      && id in w.scrapes
      && (|| (w.scrapes[id].phase.Storing? && w.scrapes[id].phase.ns == ns)
          || (ns in w.cache && w.scrapes[id].start <= w.cache[ns].lastScrape))
  }

  // A scrape that decides on the namespace has found an entry no older than a time; one that
  // waits for it started late enough.
  ghost predicate Late(cfg: Config, s: Scrape, ns: string, time: Time)
    requires ns in cfg.tables
  {
    match s.phase
    case Deciding(x, found) => x == ns ==> found.Some? && time <= found.value.lastScrape
    case Waiting(x, _) => x == ns ==> s.start - time > MaxAge(cfg, ns)
    case _ => true
  }

  ghost predicate OthersLate(cfg: Config, w: World, id: nat, ns: string)
    requires ns in cfg.tables
  {
    Asked(w, id, ns) && id in w.scrapes ==>
      forall k :: k in w.scrapes && k != id ==> Late(cfg, w.scrapes[k], ns, w.scrapes[id].start)
  }

  // Whatever is logged after its query is by scrapes that started late enough.
  ghost predicate Spaced(cfg: Config, w: World, id: nat, ns: string)
    requires ns in cfg.tables
  {
    forall i, j :: 0 <= i < j < |w.log| && w.log[i].scraper == id && w.log[i].ns == ns && w.log[j].ns == ns ==>
      StartOf(w, w.log[j]) - StartOf(w, w.log[i]) > MaxAge(cfg, ns)
  }

  ghost predicate Protected(cfg: Config, w: World, id: nat, ns: string)
    requires ns in cfg.tables
  {
    && Inv(cfg, w) && LogKnown(w) && Apart(w, id)
    && Remembered(w, id, ns) && OthersLate(cfg, w, id, ns) && Spaced(cfg, w, id, ns)
  }

  // The step does not make the scrape overlap another.
  ghost predicate KeepsSolitary(w: World, id: nat, s: Stamp) {
    s.action.Begin? ==>
      if s.id == id then AllFinished(w) else id in w.scrapes ==> Finished(w.scrapes[id])
  }

  lemma QueryStaysKnown(cfg: Config, w: World, id: nat, a: Action, q: Query)
    requires QueryKnown(w, q) && Enabled(cfg, w, id, a)
    ensures QueryKnown(Next(cfg, w, id, a), q)
  {
  }

  lemma WaitsAfterStart(cfg: Config, w: World, id: nat)
    requires Inv(cfg, w) && id in w.scrapes && w.scrapes[id].phase.Waiting?
    ensures w.scrapes[id].start <= w.scrapes[id].phase.begin
  {
    assert GoodScrape(cfg, w, w.scrapes[id]);
  }

  lemma StepKeepsLogKnown(cfg: Config, w: World, id: nat, a: Action)
    requires LogKnown(w) && Enabled(cfg, w, id, a)
    requires a.EndQuery? ==> w.scrapes[id].start <= w.scrapes[id].phase.begin
    ensures LogKnown(Next(cfg, w, id, a))
  {
    var w' := Next(cfg, w, id, a);
    forall i | 0 <= i < |w'.log|
      ensures QueryKnown(w', w'.log[i])
    {
      if i < |w.log| {
        assert w'.log[i] == w.log[i];
        QueryStaysKnown(cfg, w, id, a, w.log[i]);
      }
    }
  }

  lemma StepKeepsApart(cfg: Config, w: World, id: nat, s: Stamp)
    requires LogKnown(w) && Apart(w, id) && Enabled(cfg, w, s.id, s.action) && KeepsSolitary(w, id, s)
    ensures Apart(Next(cfg, w, s.id, s.action), id)
  {
  }

  // What was asked after the step was asked before it, or is now.
  lemma AskedBefore(cfg: Config, w: World, id: nat, ns: string, s: Stamp)
    requires Enabled(cfg, w, s.id, s.action)
    ensures Asked(Next(cfg, w, s.id, s.action), id, ns)
            <==> Asked(w, id, ns) || (s.action.EndQuery? && s.id == id && w.scrapes[id].phase.ns == ns)
  {
    var w' := Next(cfg, w, s.id, s.action);
    assert forall i :: 0 <= i < |w.log| ==> w'.log[i] == w.log[i];
    if s.action.EndQuery? {
      assert w'.log[|w.log|].scraper == s.id;
    }
  }

  lemma StepKeepsRemembered(cfg: Config, w: World, id: nat, ns: string, s: Stamp)
    requires Cacheable(cfg, ns) && Apart(w, id) && Remembered(w, id, ns) && Enabled(cfg, w, s.id, s.action)
    ensures Remembered(Next(cfg, w, s.id, s.action), id, ns)
  {
    AskedBefore(cfg, w, id, ns, s);
  }

  lemma StepKeepsLate(cfg: Config, w: World, id: nat, ns: string, s: Stamp)
    requires Cacheable(cfg, ns) && Apart(w, id) && Remembered(w, id, ns) && OthersLate(cfg, w, id, ns)
    requires Enabled(cfg, w, s.id, s.action)
    ensures OthersLate(cfg, Next(cfg, w, s.id, s.action), id, ns)
  {
    var w' := Next(cfg, w, s.id, s.action);
    AskedBefore(cfg, w, id, ns, s);
    if Asked(w', id, ns) && id in w'.scrapes {
      forall k | k in w'.scrapes && k != id
        ensures Late(cfg, w'.scrapes[k], ns, w'.scrapes[id].start)
      {
        if k in w.scrapes {
          if Asked(w, id, ns) {
            MoveKeepsLate(cfg, w, id, ns, k, s);
          } else {
            assert Finished(w.scrapes[k]);
          }
        }
      }
    }
  }

  lemma MoveKeepsLate(cfg: Config, w: World, id: nat, ns: string, k: nat, s: Stamp)
    requires Cacheable(cfg, ns) && Asked(w, id, ns) && Apart(w, id) && Remembered(w, id, ns)
    requires k in w.scrapes && k != id && Late(cfg, w.scrapes[k], ns, w.scrapes[id].start)
    requires Enabled(cfg, w, s.id, s.action)
    ensures Late(cfg, Next(cfg, w, s.id, s.action).scrapes[k], ns, w.scrapes[id].start)
  {
  }

  lemma AsksOnce(cfg: Config, w: World, id: nat, ns: string)
    requires Inv(cfg, w) && LogKnown(w)
    requires id in w.scrapes && w.scrapes[id].phase.Waiting? && w.scrapes[id].phase.ns == ns
    ensures !Asked(w, id, ns)
  {
    assert GoodScrape(cfg, w, w.scrapes[id]);
    assert ns in InHand(w.scrapes[id].phase);
  }

  lemma StepKeepsSpaced(cfg: Config, w: World, id: nat, ns: string, s: Stamp)
    requires Cacheable(cfg, ns) && LogKnown(w) && OthersLate(cfg, w, id, ns) && Spaced(cfg, w, id, ns)
    requires Enabled(cfg, w, s.id, s.action)
    requires s.action.EndQuery? ==> !Asked(w, s.id, w.scrapes[s.id].phase.ns)
    ensures Spaced(cfg, Next(cfg, w, s.id, s.action), id, ns)
  {
    var w' := Next(cfg, w, s.id, s.action);
    forall i, j | 0 <= i < j < |w'.log| && w'.log[i].scraper == id && w'.log[i].ns == ns && w'.log[j].ns == ns
      ensures StartOf(w', w'.log[j]) - StartOf(w', w'.log[i]) > MaxAge(cfg, ns)
    {
      assert w'.log[i] == w.log[i];
      StartStays(cfg, w, s, w.log[i]);
      if j < |w.log| {
        assert w'.log[j] == w.log[j];
        StartStays(cfg, w, s, w.log[j]);
      } else {
        assert Asked(w, id, ns);
        assert Late(cfg, w.scrapes[s.id], ns, w.scrapes[id].start);
      }
    }
  }

  lemma StartStays(cfg: Config, w: World, s: Stamp, q: Query)
    requires Enabled(cfg, w, s.id, s.action) && q.scraper in w.scrapes
    ensures q.scraper in Next(cfg, w, s.id, s.action).scrapes
    ensures StartOf(Next(cfg, w, s.id, s.action), q) == StartOf(w, q)
  {
  }

  lemma StepProtects(cfg: Config, w: World, id: nat, ns: string, s: Stamp)
    requires Cacheable(cfg, ns) && Protected(cfg, w, id, ns)
    requires KeepsSolitary(w, id, s) && Enabled(cfg, w, s.id, s.action)
    ensures var w' := Next(cfg, w, s.id, s.action);
            && LogKnown(w') && Apart(w', id) && Remembered(w', id, ns)
            && OthersLate(cfg, w', id, ns) && Spaced(cfg, w', id, ns)
  {
    if s.action.EndQuery? {
      WaitsAfterStart(cfg, w, s.id);
    }
    StepKeepsLogKnown(cfg, w, s.id, s.action);
    StepKeepsApart(cfg, w, id, s);
    StepKeepsRemembered(cfg, w, id, ns, s);
    StepKeepsLate(cfg, w, id, ns, s);
    if s.action.EndQuery? {
      AsksOnce(cfg, w, s.id, w.scrapes[s.id].phase.ns);
    }
    StepKeepsSpaced(cfg, w, id, ns, s);
  }

  lemma {:induction false} RunProtects(cfg: Config, worlds: seq<World>, stamps: seq<Stamp>, id: nat, ns: string, i: nat)
    requires Cacheable(cfg, ns) && IsRun(cfg, worlds, stamps) && Solitary(worlds, stamps, id) && i < |worlds|
    ensures Protected(cfg, worlds[i], id, ns)
  {
    RunKeeps(cfg, worlds, stamps, i);
    if i > 0 {
      RunProtects(cfg, worlds, stamps, id, ns, i - 1);
      var w, s := worlds[i - 1], stamps[i - 1];
      assert KeepsSolitary(w, id, s);
      StepProtects(cfg, w, id, ns, s);
    }
  }

  // Whatever other scrapes do among themselves: after a real query of a namespace by a scrape that
  // overlaps no other, the next one is by a scrape that starts more than cacheSeconds later.
  lemma SolitaryProtects(cfg: Config, worlds: seq<World>, stamps: seq<Stamp>, ns: string, k: nat, i: nat, j: nat)
    requires Cacheable(cfg, ns) && IsRun(cfg, worlds, stamps) && k < |worlds|
    requires i < j < |worlds[k].log| && worlds[k].log[i].ns == ns && worlds[k].log[j].ns == ns
    requires Solitary(worlds, stamps, worlds[k].log[i].scraper)
    ensures var w := worlds[k];
            StartOf(w, w.log[j]) - StartOf(w, w.log[i]) > MaxAge(cfg, ns)
  {
    RunProtects(cfg, worlds, stamps, worlds[k].log[i].scraper, ns, k);
  }

  // How long after its scrape's start a query began.
  ghost function Delay(w: World, q: Query): Time { q.begin - StartOf(w, q) }

  // The queries themselves begin more than cacheSeconds apart, less the delay of the earlier one.
  lemma QueriesAreSpaced(cfg: Config, worlds: seq<World>, stamps: seq<Stamp>, ns: string, k: nat, i: nat, j: nat)
    requires Cacheable(cfg, ns) && IsRun(cfg, worlds, stamps) && k < |worlds|
    requires i < j < |worlds[k].log| && worlds[k].log[i].ns == ns && worlds[k].log[j].ns == ns
    requires Solitary(worlds, stamps, worlds[k].log[i].scraper)
    ensures var w := worlds[k];
            w.log[j].begin - w.log[i].begin > MaxAge(cfg, ns) - Delay(w, w.log[i])
  {
    SolitaryProtects(cfg, worlds, stamps, ns, k, i, j);
    RunProtects(cfg, worlds, stamps, worlds[k].log[i].scraper, ns, k);
  }

  // Real queries of a namespace by scrapes that start within cacheSeconds of each other.
  ghost predicate InWindow(cfg: Config, w: World, ns: string, window: set<nat>)
    requires ns in cfg.tables
  {
    && (forall i :: i in window ==> i < |w.log| && w.log[i].ns == ns)
    && forall i, j :: i in window && j in window ==> StartOf(w, w.log[j]) - StartOf(w, w.log[i]) <= MaxAge(cfg, ns)
  }

  // Those whose scrapes overlap another.
  ghost function Overlapping(worlds: seq<World>, stamps: seq<Stamp>, w: World, window: set<nat>): set<nat> {
    set i | i in window && i < |w.log| && !Solitary(worlds, stamps, w.log[i].scraper)
  }

  // At most one of them is by a scrape that overlaps no other.
  lemma WindowBound(cfg: Config, worlds: seq<World>, stamps: seq<Stamp>, ns: string, k: nat, window: set<nat>)
    requires Cacheable(cfg, ns) && IsRun(cfg, worlds, stamps) && k < |worlds|
    requires InWindow(cfg, worlds[k], ns, window)
    ensures |window| <= 1 + |Overlapping(worlds, stamps, worlds[k], window)|
  {
    var w, over := worlds[k], Overlapping(worlds, stamps, worlds[k], window);
    var alone := window - over;
    forall i, j | i in alone && j in alone
      ensures i == j
    {
      if i < j {
        SolitaryProtects(cfg, worlds, stamps, ns, k, i, j);
      } else if j < i {
        SolitaryProtects(cfg, worlds, stamps, ns, k, j, i);
      }
    }
    AtMostOne(alone);
    assert window == alone + over;
  }

  lemma AtMostOne(s: set<nat>)
    requires forall i, j :: i in s && j in s ==> i == j
    ensures |s| <= 1
  {
    if i :| i in s {
      assert s == {i};
    }
  }

  // No query is logged twice by one scrape, so the bound counts scrapes.
  lemma OneQueryEach(cfg: Config, worlds: seq<World>, stamps: seq<Stamp>, k: nat, i: nat, j: nat)
    requires IsRun(cfg, worlds, stamps) && k < |worlds| && i < j < |worlds[k].log|
    ensures worlds[k].log[i].ns != worlds[k].log[j].ns || worlds[k].log[i].scraper != worlds[k].log[j].scraper
  {
    RunAsksOnce(cfg, worlds, stamps, k);
  }

  ghost predicate NoneTwice(w: World) {
    forall i, j :: 0 <= i < j < |w.log| ==> w.log[i].ns != w.log[j].ns || w.log[i].scraper != w.log[j].scraper
  }

  lemma {:induction false} RunAsksOnce(cfg: Config, worlds: seq<World>, stamps: seq<Stamp>, k: nat)
    requires IsRun(cfg, worlds, stamps) && k < |worlds|
    ensures LogKnown(worlds[k]) && NoneTwice(worlds[k])
  {
    if k > 0 {
      RunAsksOnce(cfg, worlds, stamps, k - 1);
      RunKeeps(cfg, worlds, stamps, k - 1);
      var w, s := worlds[k - 1], stamps[k - 1];
      assert worlds[k] == Next(cfg, w, s.id, s.action);
      if s.action.EndQuery? {
        WaitsAfterStart(cfg, w, s.id);
      }
      StepKeepsLogKnown(cfg, w, s.id, s.action);
      if s.action.EndQuery? {
        AsksOnce(cfg, w, s.id, w.scrapes[s.id].phase.ns);
        LogOnce(w, Next(cfg, w, s.id, s.action).log[|w.log|]);
      }
    }
  }

  lemma LogOnce(w: World, q: Query)
    requires NoneTwice(w) && !Asked(w, q.scraper, q.ns)
    ensures NoneTwice(World(w.now, w.cache, w.scrapes, w.log + [q]))
  {
  }
}
