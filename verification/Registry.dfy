/** NewPostgresCollector and its global memo of initiated collectors. */
module Registry {
  import opened Prelude

  type Collector = nat

  type Memo = map<string, Collector>

  type Flags = map<string, bool>

  // The arguments of one call and what the outside world does during it: the result of every
  // factory if it is called, and whether connecting to the instance succeeds.
  datatype Call = Call(filters: seq<string>, factories: map<string, Result<Collector>>, dsn: string, connects: bool)

  // One factory call and whether it succeeded.
  datatype Invocation = Invocation(name: string, ok: bool)

  type Log = seq<Invocation>

  predicate GoodFilters(flags: Flags, filters: seq<string>) {
    forall i :: 0 <= i < |filters| ==> filters[i] in flags && flags[filters[i]]
  }

  // The collectors a call asks for.
  function Wanted(flags: Flags, filters: seq<string>): set<string> {
    set n | n in flags && flags[n] && (filters == [] || n in filters)
  }

  ghost predicate OnceEach(log: Log) {
    forall i, j :: 0 <= i < j < |log| && log[i].ok && log[j].ok ==> log[i].name != log[j].name
  }

  ghost predicate Succeeded(log: Log, n: string) { Invocation(n, true) in log }

  // What the invocations of one call did to the memo: old entries stay, and the new ones are those
  // whose factory succeeded, once each.
  ghost predicate Grown(c: Call, wanted: set<string>, before: Memo, after: Memo, calls: Log) {
    && (forall n :: n in before ==> n in after && after[n] == before[n])
    && (forall n :: n in after && n !in before ==> n in wanted && n in c.factories && c.factories[n] == Ok(after[n]))
    && (forall n :: Succeeded(calls, n) <==> n in after && n !in before)
    && OnceEach(calls)
  }

  // The map returned on success is the memo, on the wanted names.
  ghost predicate Delivers(wanted: set<string>, after: Memo, r: Memo) {
    r.Keys == wanted && forall n :: n in r ==> n in after && r[n] == after[n]
  }

  ghost predicate LastFailed(calls: Log) { calls != [] && !calls[|calls| - 1].ok }

  // The error is that of the factory called last.
  ghost predicate IsFactoryError(c: Call, calls: Log, r: Result<Memo>) {
    && calls != []
    && var n := calls[|calls| - 1].name;
    n in c.factories && c.factories[n].Err? && r == Err(c.factories[n].error)
  }

  // The first filter that names no enabled collector.
  ghost predicate IsFirstBad(flags: Flags, filters: seq<string>, i: int) {
    && 0 <= i < |filters| && !(filters[i] in flags && flags[filters[i]])
    && forall j :: 0 <= j < i ==> filters[j] in flags && flags[filters[j]]
  }

  // The whole effect of a call.
  ghost predicate Effect(flags: Flags, c: Call, before: Memo, after: Memo, calls: Log, r: Result<Memo>) {
    var wanted := Wanted(flags, c.filters);
    if !GoodFilters(flags, c.filters) then r.Err? && after == before && calls == []
    else
      && Grown(c, wanted, before, after, calls)
      && (r.Ok? ==> Delivers(wanted, after, r.value))
      && (r.Ok? <==> !LastFailed(calls) && c.dsn != "" && c.connects)
      && (!LastFailed(calls) ==> wanted <= after.Keys)
  }

  lemma GrowByOne(c: Call, wanted: set<string>, before: Memo, after: Memo, calls: Log, n: string)
    requires Grown(c, wanted, before, after, calls)
    requires n in wanted && n !in after && n in c.factories
    ensures c.factories[n].Ok? ==>
      Grown(c, wanted, before, after[n := c.factories[n].value], calls + [Invocation(n, true)])
    ensures c.factories[n].Err? ==> Grown(c, wanted, before, after, calls + [Invocation(n, false)])
  {
  }

  lemma SkipKey(wanted: set<string>, left: set<string>, key: string)
    requires key in left && key !in wanted
    ensures wanted - (left - {key}) == wanted - left
  {
  }

  // One more wanted collector, which the memo of now holds.
  lemma DeliverOne(wanted: set<string>, left: set<string>, memo: Memo, more: Memo, r: Memo, key: string)
    requires Delivers(wanted - left, memo, r) && key in left && key in wanted && key in more
    requires forall n :: n in memo ==> n in more && more[n] == memo[n]
    ensures Delivers(wanted - (left - {key}), more, r[key := more[key]])
  {
  }

  class CollectorRegistry {
    const collectorState: Flags
    var initiatedCollectors: Memo

    constructor (flags: Flags)
      ensures collectorState == flags && initiatedCollectors == map[]
    {
      collectorState := flags;
      initiatedCollectors := map[];
    }

    // The loop under the mutex, in an arbitrary order, stopped by the first failing factory.
    method Initiate(c: Call) returns (r: Result<Memo>, ghost calls: Log)
      requires collectorState.Keys <= c.factories.Keys
      modifies this
      ensures var wanted := Wanted(collectorState, c.filters);
              && Grown(c, wanted, old(initiatedCollectors), initiatedCollectors, calls)
              && (r.Ok? <==> !LastFailed(calls))
              && (r.Ok? ==> Delivers(wanted, initiatedCollectors, r.value))
      ensures r.Err? ==> IsFactoryError(c, calls, r)
    {
      ghost var before, wanted := initiatedCollectors, Wanted(collectorState, c.filters);
      var collectors: Memo := map[];
      calls := [];
      var left := collectorState.Keys;
      while left != {}
        invariant left <= collectorState.Keys
        invariant Delivers(wanted - left, initiatedCollectors, collectors)
        invariant Grown(c, wanted, before, initiatedCollectors, calls)
        invariant !LastFailed(calls)
        decreases |left|
      {
        var key :| key in left;
        if !collectorState[key] || (c.filters != [] && key !in c.filters) {
          SkipKey(wanted, left, key);
          left := left - {key};
          continue;
        }
        if key in initiatedCollectors {
          DeliverOne(wanted, left, initiatedCollectors, initiatedCollectors, collectors, key);
          collectors := collectors[key := initiatedCollectors[key]];
        } else {
          var made := c.factories[key];
          GrowByOne(c, wanted, before, initiatedCollectors, calls, key);
          calls := calls + [Invocation(key, made.Ok?)];
          if made.Err? {
            return Err(made.error), calls;
          }
          DeliverOne(wanted, left, initiatedCollectors, initiatedCollectors[key := made.value], collectors, key);
          collectors := collectors[key := made.value];
          initiatedCollectors := initiatedCollectors[key := made.value];
        }
        left := left - {key};
      }
      assert wanted - {} == wanted;
      return Ok(collectors), calls;
    }

    method NewPostgresCollector(c: Call) returns (r: Result<Memo>, ghost calls: Log)
      requires collectorState.Keys <= c.factories.Keys
      modifies this
      ensures Effect(collectorState, c, old(initiatedCollectors), initiatedCollectors, calls, r)
      // Success: the enabled collectors, of which the filters, if any, choose.
      ensures r.Ok? ==> forall n ::
        n in r.value <==> n in collectorState && collectorState[n] && (c.filters == [] || n in c.filters)
      // Failure: the first bad filter, or the factory that failed, or else the instance.
      ensures forall i :: IsFirstBad(collectorState, c.filters, i) ==>
        r == Err((if c.filters[i] in collectorState then "disabled collector: " else "missing collector: ")
                 + c.filters[i])
      ensures LastFailed(calls) ==> IsFactoryError(c, calls, r)
      ensures r.Err? && GoodFilters(collectorState, c.filters) && !LastFailed(calls) ==>
        r == Err(if c.dsn == "" then "empty dsn" else "connection failed")
    {
      calls := [];
      for i := 0 to |c.filters|
        invariant forall j :: 0 <= j < i ==> c.filters[j] in collectorState && collectorState[c.filters[j]]
        invariant initiatedCollectors == old(initiatedCollectors)
      {
        if c.filters[i] !in collectorState {
          return Err("missing collector: " + c.filters[i]), calls;
        }
        if !collectorState[c.filters[i]] {
          return Err("disabled collector: " + c.filters[i]), calls;
        }
      }
      r, calls := Initiate(c);
      if r.Err? {
        return r, calls;
      }
      if c.dsn == "" {
        return Err("empty dsn"), calls;
      }
      if !c.connects {
        return Err("connection failed"), calls;
      }
    }
  }

  // ----- Any sequence of calls -----

  datatype Step = Step(call: Call, calls: Log, result: Result<Memo>)

  ghost predicate IsRun(flags: Flags, memos: seq<Memo>, steps: seq<Step>) {
    && |memos| == |steps| + 1 && memos[0] == map[]
    && forall i :: 0 <= i < |steps| ==>
      Effect(flags, steps[i].call, memos[i], memos[i + 1], steps[i].calls, steps[i].result)
  }

  // All factory calls of the first n steps.
  function Invocations(steps: seq<Step>, n: nat): Log
    requires n <= |steps|
  {
    if n == 0 then [] else Invocations(steps, n - 1) + steps[n - 1].calls
  }

  lemma AppendOnce(log: Log, calls: Log)
    requires OnceEach(log) && OnceEach(calls)
    requires forall n: string :: !(Succeeded(log, n) && Succeeded(calls, n))
    ensures OnceEach(log + calls)
    ensures forall n: string :: Succeeded(log + calls, n) <==> Succeeded(log, n) || Succeeded(calls, n)
  {
    forall i | 0 <= i < |log| && log[i].ok
      ensures Succeeded(log, log[i].name)
    {
      assert log[i] == Invocation(log[i].name, true);
    }
    forall i | 0 <= i < |calls| && calls[i].ok
      ensures Succeeded(calls, calls[i].name)
    {
      assert calls[i] == Invocation(calls[i].name, true);
    }
  }

  // Each factory succeeds at most once, over all calls; those that did are the memo's names.
  lemma {:induction false} FactoriesSucceedOnce(flags: Flags, memos: seq<Memo>, steps: seq<Step>, n: nat)
    requires IsRun(flags, memos, steps) && n <= |steps|
    ensures OnceEach(Invocations(steps, n))
    ensures forall k: string :: Succeeded(Invocations(steps, n), k) <==> k in memos[n]
  {
    if n > 0 {
      FactoriesSucceedOnce(flags, memos, steps, n - 1);
      var s := steps[n - 1];
      assert Effect(flags, s.call, memos[n - 1], memos[n], s.calls, s.result);
      AppendOnce(Invocations(steps, n - 1), s.calls);
    }
  }

  lemma {:induction false} MemoOnlyGrows(flags: Flags, memos: seq<Memo>, steps: seq<Step>, i: nat, j: nat, k: string)
    requires IsRun(flags, memos, steps) && i <= j < |memos| && k in memos[i]
    ensures k in memos[j] && memos[j][k] == memos[i][k]
    decreases j
  {
    if i < j {
      MemoOnlyGrows(flags, memos, steps, i, j - 1, k);
      var s := steps[j - 1];
      assert Effect(flags, s.call, memos[j - 1], memos[j], s.calls, s.result);
    }
  }

  // A successful call returns exactly the wanted names, with the collectors that the memo holds
  // then and ever after; so two callers share the collector of a name.
  lemma ReturnedCollectorsAreShared(flags: Flags, memos: seq<Memo>, steps: seq<Step>, i: nat, j: nat)
    requires IsRun(flags, memos, steps) && i < |steps| && i < j < |memos| && steps[i].result.Ok?
    ensures GoodFilters(flags, steps[i].call.filters)
    ensures Delivers(Wanted(flags, steps[i].call.filters), memos[j], steps[i].result.value)
  {
    var s := steps[i];
    assert Effect(flags, s.call, memos[i], memos[i + 1], s.calls, s.result);
    forall n | n in s.result.value
      ensures n in memos[j] && s.result.value[n] == memos[j][n]
    {
      MemoOnlyGrows(flags, memos, steps, i + 1, j, n);
    }
  }
}
