/**
 PostgresCollector.Collect: one goroutine per collector, all sending on one channel, joined by a
 wait group. A send is one step, taken when the receiver is ready.
 */
module ForkJoin {
  import opened Prelude

  // What a collector sends: the metrics of its Update, how long that took, whether it succeeded.
  datatype Sample = Update(metric: int) | Duration(nanoseconds: nat) | Success(value: int)

  datatype Event = Event(name: string, sample: Sample)

  // Update, seen from outside: the metrics it sends and whether it returned nil.
  datatype Behaviour = Behaviour(metrics: seq<int>, ok: bool)

  type Collectors = map<string, Behaviour>

  datatype Phase =
    | Unborn
    | Updating(begin: nat, sent: nat)
    | Reporting(duration: nat)
    | Closing(duration: nat)
    | Returning(duration: nat)
    | Gone(duration: nat)

  // left holds the collectors that the loop of Collect has not come to.
  datatype Main = Forking(left: set<string>) | Returned

  datatype World = World(now: nat, main: Main, wg: int, workers: map<string, Phase>, channel: seq<Event>)

  // The steps of execute, in one goroutine.
  datatype Move = Begin | SendMetric | EndUpdate | SendDuration | SendSuccess | WgDone

  datatype Action = Fork(name: string) | Work(name: string, move: Move) | Return

  predicate CanMove(b: Behaviour, p: Phase, m: Move, now: nat) {
    match m
    case Begin => p.Unborn?
    case SendMetric => p.Updating? && p.sent < |b.metrics|
    case EndUpdate => p.Updating? && p.sent == |b.metrics| && p.begin <= now
    case SendDuration => p.Reporting?
    case SendSuccess => p.Closing?
    case WgDone => p.Returning?
  }

  function Flag(ok: bool): int { if ok then 1 else 0 }

  function Moved(b: Behaviour, p: Phase, m: Move, now: nat): Phase
    requires CanMove(b, p, m, now)
  {
    match m
    case Begin => Updating(now, 0)
    case SendMetric => Updating(p.begin, p.sent + 1)
    case EndUpdate => Reporting(now - p.begin)
    case SendDuration => Closing(p.duration)
    case SendSuccess => Returning(p.duration)
    case WgDone => Gone(p.duration)
  }

  function Said(b: Behaviour, p: Phase, m: Move, now: nat): Option<Sample>
    requires CanMove(b, p, m, now)
  {
    match m
    case SendMetric => Some(Update(b.metrics[p.sent]))
    case SendDuration => Some(Duration(p.duration))
    case SendSuccess => Some(Success(Flag(b.ok)))
    case _ => None
  }

  // A goroutine may begin once Collect has forked it.
  predicate Enabled(cs: Collectors, w: World, a: Action, now: nat) {
    match a
    case Fork(n) => w.main.Forking? && n in w.main.left
    case Return => w.main.Forking? && w.main.left == {} && w.wg == 0
    case Work(n, m) =>
      && n in w.workers && n in cs && CanMove(cs[n], w.workers[n], m, now)
      && (w.main.Forking? ==> n !in w.main.left)
  }

  function Sent(channel: seq<Event>, n: string, said: Option<Sample>): seq<Event> {
    if said.None? then channel else channel + [Event(n, said.value)]
  }

  // Time may pass before any step.
  function Next(cs: Collectors, w: World, a: Action, now: nat): World
    requires Enabled(cs, w, a, now)
  {
    match a
    case Fork(n) => World(now, Forking(w.main.left - {n}), w.wg, w.workers, w.channel)
    case Return => World(now, Returned, w.wg, w.workers, w.channel)
    case Work(n, m) =>
      var p := w.workers[n];
      World(now, w.main, if m.WgDone? then w.wg - 1 else w.wg,
            w.workers[n := Moved(cs[n], p, m, now)], Sent(w.channel, n, Said(cs[n], p, m, now)))
  }

  // wg.Add has been called before the first fork.
  ghost predicate Initial(cs: Collectors, w: World) {
    && w.main == Forking(cs.Keys) && w.wg == |cs| && w.channel == []
    && w.workers == map n | n in cs :: Unborn
  }

  datatype Stamp = Stamp(action: Action, time: nat)

  ghost predicate IsStep(cs: Collectors, w: World, s: Stamp, w': World) {
    s.time >= w.now && Enabled(cs, w, s.action, s.time) && w' == Next(cs, w, s.action, s.time)
  }

  ghost predicate IsRun(cs: Collectors, worlds: seq<World>, stamps: seq<Stamp>) {
    && |worlds| == |stamps| + 1 && Initial(cs, worlds[0])
    && forall i :: 0 <= i < |stamps| ==> IsStep(cs, worlds[i], stamps[i], worlds[i + 1])
  }

  // ----- Traces -----

  function Of(channel: seq<Event>, name: string): seq<Sample> {
    if channel == [] then []
    else
      var n := |channel| - 1;
      Of(channel[..n], name) + if channel[n].name == name then [channel[n].sample] else []
  }

  function Updates(metrics: seq<int>): seq<Sample> {
    seq(|metrics|, i requires 0 <= i < |metrics| => Update(metrics[i]))
  }

  // What a worker has sent when it is in a given phase.
  function TraceAt(b: Behaviour, p: Phase): seq<Sample> {
    match p
    case Unborn => []
    case Updating(_, sent) => if sent <= |b.metrics| then Updates(b.metrics[..sent]) else []
    case Reporting(_) => Updates(b.metrics)
    case Closing(d) => Updates(b.metrics) + [Duration(d)]
    case Returning(d) => Updates(b.metrics) + [Duration(d), Success(Flag(b.ok))]
    case Gone(d) => Updates(b.metrics) + [Duration(d), Success(Flag(b.ok))]
  }

  // Collectors that the wait group still counts: those not yet gone, forked or not.
  function Unfinished(w: World): set<string> { Pending(w.workers) }

  function Pending(workers: map<string, Phase>): set<string> {
    set n | n in workers && !workers[n].Gone?
  }

  ghost predicate Traced(cs: Collectors, w: World)
    requires w.workers.Keys == cs.Keys
  {
    && (forall n :: n in cs ==> Of(w.channel, n) == TraceAt(cs[n], w.workers[n]))
    && forall i :: 0 <= i < |w.channel| ==> w.channel[i].name in cs
  }

  ghost predicate MainKnows(cs: Collectors, w: World)
    requires w.workers.Keys == cs.Keys
  {
    match w.main
    case Forking(left) => left <= cs.Keys && forall n :: n in left ==> w.workers[n].Unborn?
    case Returned => Unfinished(w) == {}
  }

  ghost predicate UpdatesBounded(cs: Collectors, w: World)
    requires w.workers.Keys == cs.Keys
  {
    forall n :: n in cs && w.workers[n].Updating? ==>
      w.workers[n].sent <= |cs[n].metrics| && w.workers[n].begin <= w.now
  }

  ghost predicate Inv(cs: Collectors, w: World) {
    w.workers.Keys == cs.Keys && Traced(cs, w) && MainKnows(cs, w) && UpdatesBounded(cs, w) && w.wg == |Unfinished(w)|
  }

  lemma OfAppend(channel: seq<Event>, e: Event, name: string)
    ensures Of(channel + [e], name) == Of(channel, name) + if e.name == name then [e.sample] else []
  {
  }

  function Extend(t: seq<Sample>, said: Option<Sample>): seq<Sample> {
    if said.None? then t else t + [said.value]
  }

  lemma OfSent(channel: seq<Event>, n: string, said: Option<Sample>, name: string)
    ensures Of(Sent(channel, n, said), name) == if n == name then Extend(Of(channel, name), said) else Of(channel, name)
  {
  }

  lemma MoveExtendsTrace(b: Behaviour, p: Phase, m: Move, now: nat)
    requires CanMove(b, p, m, now)
    ensures TraceAt(b, Moved(b, p, m, now)) == Extend(TraceAt(b, p), Said(b, p, m, now))
  {
  }

  lemma SentByOne(channel: seq<Event>, n: string, said: Option<Sample>)
    ensures forall i :: 0 <= i < |Sent(channel, n, said)| ==>
      Sent(channel, n, said)[i].name == if i < |channel| then channel[i].name else n
  {
  }

  lemma WorkerKeepsTraces(cs: Collectors, w: World, n: string, m: Move, now: nat)
    requires Inv(cs, w) && now >= w.now && Enabled(cs, w, Work(n, m), now)
    ensures var w' := Next(cs, w, Work(n, m), now);
            w'.workers.Keys == cs.Keys && Traced(cs, w')
  {
    var w', said := Next(cs, w, Work(n, m), now), Said(cs[n], w.workers[n], m, now);
    forall k | k in cs
      ensures Of(w'.channel, k) == TraceAt(cs[k], w'.workers[k])
    {
      OfSent(w.channel, n, said, k);
      if k == n {
        MoveExtendsTrace(cs[n], w.workers[n], m, now);
      }
    }
    SentByOne(w.channel, n, said);
  }

  lemma PendingAfter(workers: map<string, Phase>, n: string, p: Phase)
    requires n in workers && !workers[n].Gone?
    ensures |Pending(workers[n := p])| == |Pending(workers)| - if p.Gone? then 1 else 0
  {
    assert Pending(workers[n := p]) == if p.Gone? then Pending(workers) - {n} else Pending(workers);
  }

  lemma WorkerKeepsCount(cs: Collectors, w: World, n: string, m: Move, now: nat)
    requires w.wg == |Unfinished(w)| && Enabled(cs, w, Work(n, m), now)
    ensures var w' := Next(cs, w, Work(n, m), now);
            w'.wg == |Unfinished(w')|
  {
    PendingAfter(w.workers, n, Moved(cs[n], w.workers[n], m, now));
  }

  lemma WorkerKeepsRest(cs: Collectors, w: World, n: string, m: Move, now: nat)
    requires Inv(cs, w) && now >= w.now && Enabled(cs, w, Work(n, m), now)
    ensures var w' := Next(cs, w, Work(n, m), now);
            w'.workers.Keys == cs.Keys && MainKnows(cs, w') && UpdatesBounded(cs, w')
  {
    assert n in Unfinished(w);
  }

  lemma MainStepKeeps(cs: Collectors, w: World, s: Stamp, w': World)
    requires Inv(cs, w) && IsStep(cs, w, s, w') && !s.action.Work?
    ensures Inv(cs, w')
  {
    assert Unfinished(w') == Unfinished(w);
  }

  lemma StepKeeps(cs: Collectors, w: World, s: Stamp, w': World)
    requires Inv(cs, w) && IsStep(cs, w, s, w')
    ensures Inv(cs, w')
  {
    if s.action.Work? {
      WorkerKeepsTraces(cs, w, s.action.name, s.action.move, s.time);
      WorkerKeepsCount(cs, w, s.action.name, s.action.move, s.time);
      WorkerKeepsRest(cs, w, s.action.name, s.action.move, s.time);
    } else {
      MainStepKeeps(cs, w, s, w');
    }
  }

  lemma InitiallyInv(cs: Collectors, w: World)
    requires Initial(cs, w)
    ensures Inv(cs, w)
  {
    assert Unfinished(w) == cs.Keys;
  }

  lemma {:induction false} RunKeeps(cs: Collectors, worlds: seq<World>, stamps: seq<Stamp>, i: nat)
    requires IsRun(cs, worlds, stamps) && i < |worlds|
    ensures Inv(cs, worlds[i])
  {
    if i == 0 {
      InitiallyInv(cs, worlds[0]);
    } else {
      RunKeeps(cs, worlds, stamps, i - 1);
      StepKeeps(cs, worlds[i - 1], stamps[i - 1], worlds[i]);
    }
  }

  // ----- Theorems -----

  // At every moment the wait group counts the goroutines that are not through, so it never goes
  // below zero.
  lemma WaitGroupCounts(cs: Collectors, worlds: seq<World>, stamps: seq<Stamp>, i: nat)
    requires IsRun(cs, worlds, stamps) && i < |worlds|
    ensures worlds[i].wg == |Unfinished(worlds[i])| && worlds[i].wg >= 0
  {
    RunKeeps(cs, worlds, stamps, i);
  }

  // The first n metrics of Update in order, one duration, and a flag that is 1 exactly if Update
  // returned nil.
  ghost predicate IsFullTrace(b: Behaviour, d: nat, t: seq<Sample>) {
    var n := |b.metrics|;
    && |t| == n + 2
    && (forall i :: 0 <= i < n ==> t[i] == Update(b.metrics[i]))
    && t[n] == Duration(d)
    && t[n + 1] == Success(if b.ok then 1 else 0)
  }

  ghost predicate Does(stamps: seq<Stamp>, i: int, n: string, m: Move) {
    0 <= i < |stamps| && stamps[i].action == Work(n, m)
  }

  // The duration is the time from the step that begins Update to the one that ends it.
  ghost predicate Lasted(stamps: seq<Stamp>, n: string, d: nat) {
    exists s, e :: Does(stamps, s, n, Begin) && Does(stamps, e, n, EndUpdate) && s < e
      && d == stamps[e].time - stamps[s].time
  }

  // What a phase remembers of the times so far.
  ghost predicate Clocked(stamps: seq<Stamp>, n: string, p: Phase) {
    match p
    case Unborn => true
    case Updating(begin, _) => exists s :: Does(stamps, s, n, Begin) && stamps[s].time == begin
    case Reporting(d) => Lasted(stamps, n, d)
    case Closing(d) => Lasted(stamps, n, d)
    case Returning(d) => Lasted(stamps, n, d)
    case Gone(d) => Lasted(stamps, n, d)
  }

  lemma ClockedLater(stamps: seq<Stamp>, i: nat, n: string, p: Phase)
    requires i < |stamps| && Clocked(stamps[..i], n, p)
    ensures Clocked(stamps[..i + 1], n, p)
  {
    assert forall k, m :: Does(stamps[..i], k, n, m) ==> Does(stamps[..i + 1], k, n, m);
  }

  lemma MoveClocks(b: Behaviour, stamps: seq<Stamp>, i: nat, n: string, p: Phase)
    requires i < |stamps| && stamps[i].action.Work? && stamps[i].action.name == n
    requires CanMove(b, p, stamps[i].action.move, stamps[i].time) && Clocked(stamps[..i], n, p)
    ensures Clocked(stamps[..i + 1], n, Moved(b, p, stamps[i].action.move, stamps[i].time))
  {
    var now := stamps[..i + 1];
    ClockedLater(stamps, i, n, p);
    assert Does(now, i, n, stamps[i].action.move);
    if stamps[i].action.move.EndUpdate? {
      var s :| Does(stamps[..i], s, n, Begin) && stamps[s].time == p.begin;
      assert Does(now, s, n, Begin);
    }
  }

  lemma {:induction false} RunClocks(cs: Collectors, worlds: seq<World>, stamps: seq<Stamp>, i: nat, n: string)
    requires IsRun(cs, worlds, stamps) && i < |worlds| && n in cs
    ensures n in worlds[i].workers && Clocked(stamps[..i], n, worlds[i].workers[n])
  {
    if i > 0 {
      RunClocks(cs, worlds, stamps, i - 1, n);
      var p, a := worlds[i - 1].workers[n], stamps[i - 1].action;
      assert IsStep(cs, worlds[i - 1], stamps[i - 1], worlds[i]);
      if a.Work? && a.name == n {
        MoveClocks(cs[n], stamps, i - 1, n, p);
      } else {
        ClockedLater(stamps, i - 1, n, p);
      }
    }
  }

  lemma GoneMeansFull(b: Behaviour, p: Phase)
    requires p.Gone?
    ensures IsFullTrace(b, p.duration, TraceAt(b, p))
  {
  }

  // When Collect has returned, the channel history is a shuffle of the full traces.
  lemma ReturnedMeansShuffle(cs: Collectors, worlds: seq<World>, stamps: seq<Stamp>, i: nat)
    requires IsRun(cs, worlds, stamps) && i < |worlds| && worlds[i].main.Returned?
    ensures forall n :: n in cs ==>
      exists d: nat :: Lasted(stamps[..i], n, d) && IsFullTrace(cs[n], d, Of(worlds[i].channel, n))
    ensures forall k :: 0 <= k < |worlds[i].channel| ==> worlds[i].channel[k].name in cs
  {
    RunKeeps(cs, worlds, stamps, i);
    forall n | n in cs
      ensures exists d: nat :: Lasted(stamps[..i], n, d) && IsFullTrace(cs[n], d, Of(worlds[i].channel, n))
    {
      var p := worlds[i].workers[n];
      assert n !in Unfinished(worlds[i]);
      GoneMeansFull(cs[n], p);
      RunClocks(cs, worlds, stamps, i, n);
      assert Lasted(stamps[..i], n, p.duration);
    }
  }

  // Nothing is lost or sent later: the length of the history is the sum of the traces.
  function TraceLengths(cs: Collectors, names: seq<string>): nat
    requires forall i :: 0 <= i < |names| ==> names[i] in cs
  {
    if names == [] then 0
    else |cs[names[|names| - 1]].metrics| + 2 + TraceLengths(cs, names[..|names| - 1])
  }

  function TotalOf(channel: seq<Event>, names: seq<string>): nat {
    if names == [] then 0
    else |Of(channel, names[|names| - 1])| + TotalOf(channel, names[..|names| - 1])
  }

  lemma {:induction false} TotalGrowsByOne(channel: seq<Event>, e: Event, names: seq<string>)
    requires forall i, j :: 0 <= i < j < |names| ==> names[i] != names[j]
    ensures TotalOf(channel + [e], names) == TotalOf(channel, names) + if e.name in names then 1 else 0
    decreases |names|
  {
    if names != [] {
      var n := |names| - 1;
      OfAppend(channel, e, names[n]);
      TotalGrowsByOne(channel, e, names[..n]);
      assert e.name in names <==> e.name in names[..n] || e.name == names[n];
    }
  }

  lemma {:induction false} TotalIsLength(channel: seq<Event>, names: seq<string>)
    requires forall i, j :: 0 <= i < j < |names| ==> names[i] != names[j]
    requires forall k :: 0 <= k < |channel| ==> channel[k].name in names
    ensures TotalOf(channel, names) == |channel|
    decreases |channel|
  {
    if channel == [] {
      TotalOfNothing(names);
    } else {
      var n := |channel| - 1;
      assert channel == channel[..n] + [channel[n]];
      TotalIsLength(channel[..n], names);
      TotalGrowsByOne(channel[..n], channel[n], names);
    }
  }

  lemma {:induction false} TotalOfNothing(names: seq<string>)
    ensures TotalOf([], names) == 0
    decreases |names|
  {
    if names != [] {
      TotalOfNothing(names[..|names| - 1]);
    }
  }

  lemma {:induction false} FullTracesAddUp(cs: Collectors, channel: seq<Event>, names: seq<string>)
    requires forall i :: 0 <= i < |names| ==>
      names[i] in cs && |Of(channel, names[i])| == |cs[names[i]].metrics| + 2
    ensures TotalOf(channel, names) == TraceLengths(cs, names)
    decreases |names|
  {
    if names != [] {
      FullTracesAddUp(cs, channel, names[..|names| - 1]);
    }
  }

  lemma ReturnedMeansComplete(cs: Collectors, worlds: seq<World>, stamps: seq<Stamp>, i: nat, names: seq<string>)
    requires IsRun(cs, worlds, stamps) && i < |worlds| && worlds[i].main.Returned?
    requires Enumerates(names, cs.Keys)
    ensures |worlds[i].channel| == TraceLengths(cs, names)
  {
    ReturnedMeansShuffle(cs, worlds, stamps, i);
    TotalIsLength(worlds[i].channel, names);
    FullTracesAddUp(cs, worlds[i].channel, names);
  }

  // ----- Termination and progress, given a receiver -----

  function PhaseWork(b: Behaviour, p: Phase): nat {
    match p
    case Unborn => |b.metrics| + 5
    case Updating(_, sent) => if sent <= |b.metrics| then |b.metrics| - sent + 4 else 0
    case Reporting(_) => 3
    case Closing(_) => 2
    case Returning(_) => 1
    case Gone(_) => 0
  }

  function WorkOf(cs: Collectors, w: World, names: seq<string>): nat
    requires forall i :: 0 <= i < |names| ==> names[i] in cs && names[i] in w.workers
  {
    if names == [] then 0
    else
      var n := |names| - 1;
      PhaseWork(cs[names[n]], w.workers[names[n]]) + WorkOf(cs, w, names[..n])
  }

  function MainWork(m: Main): nat {
    match m
    case Forking(left) => |left| + 1
    case Returned => 0
  }

  lemma {:induction false} WorkOfOthers(cs: Collectors, w: World, w': World, names: seq<string>, c: string)
    requires forall i :: 0 <= i < |names| ==> names[i] in cs && names[i] in w.workers && names[i] in w'.workers
    requires forall i, j :: 0 <= i < j < |names| ==> names[i] != names[j]
    requires c in cs && c in w.workers && c in w'.workers
    requires forall n :: n in cs && n in w.workers && n != c ==> n in w'.workers && w'.workers[n] == w.workers[n]
    ensures WorkOf(cs, w', names) == WorkOf(cs, w, names)
      + if c in names then PhaseWork(cs[c], w'.workers[c]) - PhaseWork(cs[c], w.workers[c]) else 0
    decreases |names|
  {
    if names != [] {
      var n := |names| - 1;
      WorkOfOthers(cs, w, w', names[..n], c);
      assert c in names <==> c in names[..n] || c == names[n];
    }
  }

  ghost function TotalWork(cs: Collectors, w: World, names: seq<string>): nat
    requires w.workers.Keys == cs.Keys && Enumerates(names, cs.Keys)
  {
    MainWork(w.main) + WorkOf(cs, w, names)
  }

  lemma MovesDoWork(b: Behaviour, p: Phase, m: Move, now: nat)
    requires CanMove(b, p, m, now)
    ensures PhaseWork(b, Moved(b, p, m, now)) < PhaseWork(b, p)
  {
  }

  // Every step does work, so no run is longer than the work there is at the start.
  lemma StepsDoWork(cs: Collectors, w: World, s: Stamp, w': World, names: seq<string>)
    requires w.workers.Keys == cs.Keys && IsStep(cs, w, s, w') && Enumerates(names, cs.Keys)
    ensures w'.workers.Keys == cs.Keys && TotalWork(cs, w', names) < TotalWork(cs, w, names)
  {
    if s.action.Work? {
      var n := s.action.name;
      MovesDoWork(cs[n], w.workers[n], s.action.move, s.time);
      WorkOfOthers(cs, w, w', names, n);
    } else {
      SameWork(cs, w, w', names);
    }
  }

  lemma {:induction false} SameWork(cs: Collectors, w: World, w': World, names: seq<string>)
    requires forall i :: 0 <= i < |names| ==> names[i] in cs && names[i] in w.workers
    requires w'.workers == w.workers
    ensures WorkOf(cs, w', names) == WorkOf(cs, w, names)
    decreases |names|
  {
    if names != [] {
      SameWork(cs, w, w', names[..|names| - 1]);
    }
  }

  lemma InitialKeys(cs: Collectors, w: World)
    requires Initial(cs, w)
    ensures w.workers.Keys == cs.Keys
  {
  }

  lemma {:induction false} RunsAreBounded(cs: Collectors, worlds: seq<World>, stamps: seq<Stamp>, names: seq<string>,
                                          i: nat)
    requires IsRun(cs, worlds, stamps) && i < |worlds| && Enumerates(names, cs.Keys)
    ensures worlds[0].workers.Keys == cs.Keys == worlds[i].workers.Keys
    ensures i + TotalWork(cs, worlds[i], names) <= TotalWork(cs, worlds[0], names)
  {
    if i == 0 {
      InitialKeys(cs, worlds[0]);
    } else {
      RunsAreBounded(cs, worlds, stamps, names, i - 1);
      StepsDoWork(cs, worlds[i - 1], stamps[i - 1], worlds[i], names);
    }
  }

  // The step a worker that is not through can always take next.
  function NextOf(b: Behaviour, p: Phase): Move {
    match p
    case Unborn => Begin
    case Updating(_, sent) => if sent < |b.metrics| then SendMetric else EndUpdate
    case Reporting(_) => SendDuration
    case Closing(_) => SendSuccess
    case _ => WgDone
  }

  // Until Collect returns some step is possible: with the bound above, every run that is not
  // stopped ends with Collect returned.
  lemma NoDeadlock(cs: Collectors, worlds: seq<World>, stamps: seq<Stamp>, i: nat) returns (a: Action)
    requires IsRun(cs, worlds, stamps) && i < |worlds| && !worlds[i].main.Returned?
    ensures Enabled(cs, worlds[i], a, worlds[i].now)
  {
    var w := worlds[i];
    RunKeeps(cs, worlds, stamps, i);
    if w.main.left != {} {
      var n :| n in w.main.left;
      a := Fork(n);
    } else if Unfinished(w) != {} {
      var n :| n in Unfinished(w);
      a := Work(n, NextOf(cs[n], w.workers[n]));
    } else {
      a := Return;
    }
  }
}
