/** Running the query of one namespace and turning its rows into metrics. */
module RowLoop {
  import opened Prelude
  import opened Metrics
  import opened Versions
  import opened Tables

  // A value as the database driver delivers it.
  datatype Cell =
    | Int(n: int) | Real(x: Float) | Time(unix: int) | Bytes(b: string) | Text(s: string) | Bool(v: bool) | Null

  // The conversions of the driver and of the exporter, each of which may fail.
  datatype Driver = Driver(
    toFloat: Cell -> Option<Float>,
    toUint: Cell -> Option<nat>,
    toStr: Cell -> string,
    floats: Cell -> Option<seq<Float>>,
    ints: Cell -> Option<seq<int>>)

  datatype Problem = MissingColumn(name: string) | BadCell(name: string) | UnknownBadCell(name: string)

  datatype Failure = QueryFailed | ColumnsFailed | RowFailed | BadBuckets(name: string) | BadBucketValues(name: string)

  datatype CellResult = Emit(metric: Metric) | NonFatal(problem: Problem) | Discard | Fatal(failure: Failure)

  // What stays fixed while the rows of one namespace are read.
  datatype Env = Env(
    driver: Driver, ns: string, mapping: Namespace, names: seq<string>, serverLabels: map<string, string>)

  type Row = seq<Cell>

  // ----- Column lookup -----

  // The first n names; with repeated names the last one wins.
  function IndexUpTo(names: seq<string>, n: nat): (idx: map<string, nat>)
    requires n <= |names|
    ensures forall i :: 0 <= i < n ==> names[i] in idx
    ensures forall x :: x in idx ==> idx[x] < n && names[idx[x]] == x
  {
    if n == 0 then map[] else IndexUpTo(names, n - 1)[names[n - 1] := n - 1]
  }

  function Index(names: seq<string>): (idx: map<string, nat>)
    ensures forall x :: x in idx <==> x in names
    ensures forall x :: x in idx ==> idx[x] < |names| && names[idx[x]] == x
  {
    IndexUpTo(names, |names|)
  }

  lemma {:induction false} IndexIsLast(names: seq<string>, n: nat, c: nat)
    requires c < n <= |names| && forall j :: c < j < n ==> names[j] != names[c]
    ensures IndexUpTo(names, n)[names[c]] == c
  {
    if c < n - 1 {
      IndexIsLast(names, n - 1, c);
    }
  }

  // A missing key of the Go map reads as index 0.
  function IndexOrZero(names: seq<string>, x: string): nat {
    if x in Index(names) then Index(names)[x] else 0
  }

  predicate LabelsReadable(env: Env) { env.mapping.labels == [] || env.names != [] }

  function LabelValues(env: Env, row: Row): (values: seq<string>)
    requires LabelsReadable(env) && |row| == |env.names|
    ensures |values| == |env.mapping.labels|
  {
    seq(|env.mapping.labels|, i requires 0 <= i < |env.mapping.labels| =>
      env.driver.toStr(row[IndexOrZero(env.names, env.mapping.labels[i])]))
  }

  // ----- One cell -----

  // Bucket i pairs key i with value i, as a 64-bit unsigned number; surplus keys are dropped.
  function Buckets(keys: seq<Float>, values: seq<int>, n: nat): map<Float, nat>
    requires n <= |keys|
  {
    if n == 0 then map[]
    else if n - 1 >= |values| then Buckets(keys, values, n - 1)
    else Buckets(keys, values, n - 1)[keys[n - 1] := values[n - 1] % 0x1_0000_0000_0000_0000]
  }

  function Min(a: nat, b: nat): nat { if a < b then a else b }

  // Exactly the keys that have a value, each with the value at its last place, modulo 2^64.
  ghost predicate PairsByPlace(keys: seq<Float>, values: seq<int>, buckets: map<Float, nat>) {
    && (forall k :: k in buckets <==> k in keys[..Min(|keys|, |values|)])
    && forall i :: 0 <= i < |keys| && i < |values|
          && (forall j :: i < j < |keys| && j < |values| ==> keys[j] != keys[i])
        ==> keys[i] in buckets && buckets[keys[i]] == values[i] % 0x1_0000_0000_0000_0000
  }

  lemma {:induction false} BucketsPair(keys: seq<Float>, values: seq<int>)
    ensures PairsByPlace(keys, values, Buckets(keys, values, |keys|))
  {
    forall k
      ensures k in Buckets(keys, values, |keys|) <==> k in keys[..Min(|keys|, |values|)]
    {
      BucketKeys(keys, values, |keys|, k);
    }
    forall i | 0 <= i < |keys| && i < |values| && forall j :: i < j < |keys| && j < |values| ==> keys[j] != keys[i]
      ensures keys[i] in Buckets(keys, values, |keys|)
      ensures Buckets(keys, values, |keys|)[keys[i]] == values[i] % 0x1_0000_0000_0000_0000
    {
      BucketAt(keys, values, |keys|, i);
    }
  }

  lemma {:induction false} BucketKeys(keys: seq<Float>, values: seq<int>, n: nat, k: Float)
    requires n <= |keys|
    ensures k in Buckets(keys, values, n) <==> k in keys[..Min(n, |values|)]
  {
    if n > 0 {
      BucketKeys(keys, values, n - 1, k);
      if n - 1 < |values| {
        assert keys[..n] == keys[..n - 1] + [keys[n - 1]];
      }
    }
  }

  lemma {:induction false} BucketAt(keys: seq<Float>, values: seq<int>, n: nat, i: nat)
    requires i < n <= |keys| && i < |values|
    requires forall j :: i < j < n && j < |values| ==> keys[j] != keys[i]
    ensures keys[i] in Buckets(keys, values, n)
    ensures Buckets(keys, values, n)[keys[i]] == values[i] % 0x1_0000_0000_0000_0000
  {
    if i < n - 1 {
      BucketAt(keys, values, n - 1, i);
    }
  }

  function HistogramCell(env: Env, row: Row, c: nat, desc: Desc): CellResult
    requires LabelsReadable(env) && |row| == |env.names| && c < |row|
  {
    var name, idx, d := env.names[c], Index(env.names), env.driver;
    var keys := d.floats(row[c]);
    if keys.None? then Fatal(BadBuckets(name))
    else if name + "_bucket" !in idx then NonFatal(MissingColumn(name + "_bucket"))
    else
      var values := d.ints(row[idx[name + "_bucket"]]);
      if values.None? then Fatal(BadBucketValues(name))
      else if name + "_sum" !in idx then NonFatal(MissingColumn(name + "_sum"))
      else
        var sum := d.toFloat(row[idx[name + "_sum"]]);
        if sum.None? then NonFatal(BadCell(name + "_sum"))
        else if name + "_count" !in idx then NonFatal(MissingColumn(name + "_count"))
        else
          var count := d.toUint(row[idx[name + "_count"]]);
          if count.None? then NonFatal(BadCell(name + "_count"))
          else Emit(Histogram(desc, count.value, sum.value, Buckets(keys.value, values.value, |keys.value|),
                              LabelValues(env, row)))
  }

  function UnknownDesc(env: Env, name: string): Desc {
    Desc(env.ns + "_" + name, "Unknown metric from " + env.ns, env.mapping.labels, env.serverLabels)
  }

  // A compiled column that is not discarded has a descriptor and a value type.
  ghost predicate Usable(m: MetricMap) { m.discard || (m.desc.Some? && m.vtype.Some?) }

  ghost predicate WellLabelled(ns: Namespace) {
    forall x :: x in ns.columns ==>
      && Usable(ns.columns[x])
      && (!ns.columns[x].discard ==> ns.columns[x].desc.value.variableLabels == ns.labels)
  }

  function CellAt(env: Env, row: Row, c: nat): CellResult
    requires WellLabelled(env.mapping) && LabelsReadable(env) && |row| == |env.names| && c < |row|
  {
    var name := env.names[c];
    if name in env.mapping.columns then
      var m := env.mapping.columns[name];
      if m.discard then Discard
      else if m.histogram then HistogramCell(env, row, c, m.desc.value)
      else
        match env.driver.toFloat(row[c])
        case None => NonFatal(BadCell(name))
        case Some(x) => Emit(Const(m.desc.value, m.vtype.value, x, LabelValues(env, row)))
    else
      match env.driver.toFloat(row[c])
      case None => NonFatal(UnknownBadCell(name))
      case Some(x) => Emit(Const(UnknownDesc(env, name), UntypedValue, x, LabelValues(env, row)))
  }

  // ----- All cells -----

  function RowTrace(env: Env, row: Row): (t: seq<CellResult>)
    requires WellLabelled(env.mapping) && LabelsReadable(env) && |row| == |env.names|
    ensures |t| == |env.names|
  {
    seq(|env.names|, c requires 0 <= c < |env.names| => CellAt(env, row, c))
  }

  function Emits(t: seq<CellResult>): seq<Metric> {
    if t == [] then []
    else Emits(t[..|t| - 1]) + if t[|t| - 1].Emit? then [t[|t| - 1].metric] else []
  }

  function Problems(t: seq<CellResult>): seq<Problem> {
    if t == [] then []
    else Problems(t[..|t| - 1]) + if t[|t| - 1].NonFatal? then [t[|t| - 1].problem] else []
  }

  function Discards(t: seq<CellResult>): nat {
    if t == [] then 0
    else Discards(t[..|t| - 1]) + if t[|t| - 1].Discard? then 1 else 0
  }

  function FirstFatal(t: seq<CellResult>): Option<Failure> {
    if t == [] then None
    else match FirstFatal(t[..|t| - 1])
      case Some(f) => Some(f)
      case None => if t[|t| - 1].Fatal? then Some(t[|t| - 1].failure) else None
  }

  // Panic is an index out of range: a label is wanted of a row without columns.
  datatype Scan = Done(metrics: seq<Metric>, problems: seq<Problem>) | Aborted(failure: Failure) | Panic

  // A row is missing when scanning it failed.
  ghost predicate Shaped(env: Env, rows: seq<Option<Row>>) {
    forall r :: 0 <= r < |rows| && rows[r].Some? ==> |rows[r].value| == |env.names|
  }

  function Prepend(metrics: seq<Metric>, problems: seq<Problem>, rest: Scan): Scan {
    match rest
    case Done(m, p) => Done(metrics + m, problems + p)
    case _ => rest
  }

  function ScanRows(env: Env, rows: seq<Option<Row>>): Scan
    requires WellLabelled(env.mapping) && Shaped(env, rows)
    decreases |rows|
  {
    if rows == [] then Done([], [])
    else if rows[0].None? then Aborted(RowFailed)
    else if !LabelsReadable(env) then Panic
    else
      var t := RowTrace(env, rows[0].value);
      match FirstFatal(t)
      case Some(f) => Aborted(f)
      case None => Prepend(Emits(t), Problems(t), ScanRows(env, rows[1..]))
  }

  method ReadBuckets(keys: seq<Float>, values: seq<int>) returns (buckets: map<Float, nat>)
    ensures buckets == Buckets(keys, values, |keys|)
    ensures PairsByPlace(keys, values, buckets)
  {
    buckets := map[];
    var i := 0;
    while i < |keys| && i < |values|
      invariant i <= |keys| && i <= |values|
      invariant buckets == Buckets(keys, values, i)
    {
      buckets := buckets[keys[i] := values[i] % 0x1_0000_0000_0000_0000];
      i := i + 1;
    }
    SurplusKeys(keys, values, i, |keys|);
    BucketsPair(keys, values);
  }

  // A companion column of a histogram, when the result has it.
  function Companion(env: Env, row: Row, c: nat, suffix: string): Option<Cell>
    requires |row| == |env.names| && c < |row|
  {
    var idx, name := Index(env.names), env.names[c] + suffix;
    if name in idx then Some(row[idx[name]]) else None
  }

  // All that a histogram is made of is there and converts.
  ghost predicate IsComplete(env: Env, row: Row, c: nat)
    requires |row| == |env.names| && c < |row|
  {
    var d := env.driver;
    var bucket := Companion(env, row, c, "_bucket");
    var sum, count := Companion(env, row, c, "_sum"), Companion(env, row, c, "_count");
    && d.floats(row[c]).Some?
    && bucket.Some? && d.ints(bucket.value).Some?
    && sum.Some? && d.toFloat(sum.value).Some?
    && count.Some? && d.toUint(count.value).Some?
  }

  // A metric holds exactly what the columns of the histogram say.
  ghost predicate Holds(env: Env, row: Row, c: nat, desc: Desc, m: Metric)
    requires LabelsReadable(env) && |row| == |env.names| && c < |row| && IsComplete(env, row, c)
  {
    var d := env.driver;
    && m.Histogram? && m.desc == desc && m.labelValues == LabelValues(env, row)
    && Some(m.sum) == d.toFloat(Companion(env, row, c, "_sum").value)
    && Some(m.count) == d.toUint(Companion(env, row, c, "_count").value)
    && PairsByPlace(d.floats(row[c]).value, d.ints(Companion(env, row, c, "_bucket").value).value, m.buckets)
  }

  // Only bucket arrays that do not convert are fatal.
  ghost predicate IsFatal(env: Env, row: Row, c: nat)
    requires |row| == |env.names| && c < |row|
  {
    || env.driver.floats(row[c]).None?
    || (Companion(env, row, c, "_bucket").Some? && env.driver.ints(Companion(env, row, c, "_bucket").value).None?)
  }

  // The first obstacle decides which failure or problem is reported.
  ghost predicate IsObstacle(env: Env, row: Row, c: nat, r: CellResult)
    requires |row| == |env.names| && c < |row|
  {
    var name, d, bucket := env.names[c], env.driver, Companion(env, row, c, "_bucket");
    var sum, count := Companion(env, row, c, "_sum"), Companion(env, row, c, "_count");
    match r
    case Fatal(BadBuckets(n)) => n == name && d.floats(row[c]).None?
    case Fatal(BadBucketValues(n)) => n == name && d.floats(row[c]).Some?
    case NonFatal(MissingColumn(n)) =>
      || (n == name + "_bucket" && bucket.None?)
      || (n == name + "_sum" && bucket.Some? && sum.None?)
      || (n == name + "_count" && bucket.Some? && sum.Some? && d.toFloat(sum.value).Some? && count.None?)
    case NonFatal(BadCell(n)) =>
      || (n == name + "_sum" && bucket.Some? && sum.Some? && d.toFloat(sum.value).None?)
      || (n == name + "_count" && bucket.Some? && sum.Some? && d.toFloat(sum.value).Some? && count.Some?)
    case _ => false
  }

  lemma HistogramMeans(env: Env, row: Row, c: nat, desc: Desc)
    requires LabelsReadable(env) && |row| == |env.names| && c < |row|
    ensures HistogramCell(env, row, c, desc).Emit? <==> IsComplete(env, row, c)
    ensures HistogramCell(env, row, c, desc).Emit? ==> Holds(env, row, c, desc, HistogramCell(env, row, c, desc).metric)
    ensures HistogramCell(env, row, c, desc).Fatal? <==> IsFatal(env, row, c)
    ensures HistogramCell(env, row, c, desc).NonFatal? <==> !IsComplete(env, row, c) && !IsFatal(env, row, c)
    ensures !HistogramCell(env, row, c, desc).Emit? ==> IsObstacle(env, row, c, HistogramCell(env, row, c, desc))
  {
    var keys, bucket := env.driver.floats(row[c]), Companion(env, row, c, "_bucket");
    if keys.Some? && bucket.Some? && env.driver.ints(bucket.value).Some? {
      BucketsPair(keys.value, env.driver.ints(bucket.value).value);
    }
  }

  method ReadHistogram(env: Env, row: Row, c: nat, columnIdx: map<string, nat>, desc: Desc, labels: seq<string>)
    returns (r: CellResult)
    requires LabelsReadable(env) && |row| == |env.names| && c < |row|
    requires columnIdx == Index(env.names) && labels == LabelValues(env, row)
    ensures r == HistogramCell(env, row, c, desc)
    ensures r.Emit? <==> IsComplete(env, row, c)
    ensures r.Emit? ==> Holds(env, row, c, desc, r.metric)
    ensures r.Fatal? <==> IsFatal(env, row, c)
    ensures r.NonFatal? <==> !IsComplete(env, row, c) && !IsFatal(env, row, c)
    ensures !r.Emit? ==> IsObstacle(env, row, c, r)
  {
    HistogramMeans(env, row, c, desc);
    var name := env.names[c];
    var keys := env.driver.floats(row[c]);
    if keys.None? {
      return Fatal(BadBuckets(name));
    }
    if name + "_bucket" !in columnIdx {
      return NonFatal(MissingColumn(name + "_bucket"));
    }
    var values := env.driver.ints(row[columnIdx[name + "_bucket"]]);
    if values.None? {
      return Fatal(BadBucketValues(name));
    }
    var buckets := ReadBuckets(keys.value, values.value);
    if name + "_sum" !in columnIdx {
      return NonFatal(MissingColumn(name + "_sum"));
    }
    var sum := env.driver.toFloat(row[columnIdx[name + "_sum"]]);
    if sum.None? {
      return NonFatal(BadCell(name + "_sum"));
    }
    if name + "_count" !in columnIdx {
      return NonFatal(MissingColumn(name + "_count"));
    }
    var count := env.driver.toUint(row[columnIdx[name + "_count"]]);
    if count.None? {
      return NonFatal(BadCell(name + "_count"));
    }
    return Emit(Histogram(desc, count.value, sum.value, buckets, labels));
  }

  lemma {:induction false} SurplusKeys(keys: seq<Float>, values: seq<int>, i: nat, n: nat)
    requires i <= n <= |keys| && (i == n || i == |values|)
    ensures Buckets(keys, values, n) == Buckets(keys, values, i)
  {
    if i < n {
      SurplusKeys(keys, values, i, n - 1);
    }
  }

  method ReadLabels(env: Env, row: Row, columnIdx: map<string, nat>) returns (labels: seq<string>)
    requires LabelsReadable(env) && |row| == |env.names|
    requires columnIdx == Index(env.names)
    ensures labels == LabelValues(env, row)
  {
    labels := [];
    ghost var wanted := LabelValues(env, row);
    for i := 0 to |env.mapping.labels|
      invariant labels == wanted[..i]
    {
      var name := env.mapping.labels[i];
      assert wanted[i] == env.driver.toStr(row[IndexOrZero(env.names, name)]);
      labels := labels + [env.driver.toStr(row[if name in columnIdx then columnIdx[name] else 0])];
    }
    assert labels == wanted;
  }

  // The mapping of a column that is known and not discarded.
  ghost function Known(env: Env, c: nat): Option<MetricMap>
    requires c < |env.names|
  {
    var name := env.names[c];
    if name in env.mapping.columns && !env.mapping.columns[name].discard then Some(env.mapping.columns[name]) else None
  }

  // The metric of a cell: described and typed by the mapping of its column, or untyped and named
  // after namespace and column when there is none, with the value of this very cell.
  ghost predicate Carries(env: Env, row: Row, c: nat, m: Metric)
    requires LabelsReadable(env) && |row| == |env.names| && c < |row|
  {
    var name, known := env.names[c], Known(env, c);
    if known.Some? then
      && known.value.desc == Some(m.desc)
      && if known.value.histogram then IsComplete(env, row, c) && Holds(env, row, c, m.desc, m)
         else m.Const? && known.value.vtype == Some(m.vtype) && env.driver.toFloat(row[c]) == Some(m.value)
    else
      && name !in env.mapping.columns
      && m.Const? && m.vtype == UntypedValue && env.driver.toFloat(row[c]) == Some(m.value)
      && m.desc.name == env.ns + "_" + name && m.desc.help == "Unknown metric from " + env.ns
      && m.desc.variableLabels == env.mapping.labels && m.desc.constLabels == env.serverLabels
  }

  // What is reported of a plain cell that does not convert.
  ghost predicate IsUnreadable(env: Env, c: nat, r: CellResult)
    requires c < |env.names|
  {
    r == NonFatal(if Known(env, c).Some? then BadCell(env.names[c]) else UnknownBadCell(env.names[c]))
  }

  // Everything that can become of a cell, and when.
  lemma CellMeans(env: Env, row: Row, c: nat)
    requires WellLabelled(env.mapping) && LabelsReadable(env) && |row| == |env.names| && c < |row|
    ensures var r, known := CellAt(env, row, c), Known(env, c);
            && (r.Discard? <==> env.names[c] in env.mapping.columns && known.None?)
            && (r.Emit? ==> Carries(env, row, c, r.metric))
            && (!r.Discard? && known.Some? && known.value.histogram ==>
                  && (r.Emit? <==> IsComplete(env, row, c)) && (r.Fatal? <==> IsFatal(env, row, c))
                  && (!r.Emit? ==> IsObstacle(env, row, c, r)))
            && (!r.Discard? && !(known.Some? && known.value.histogram) ==>
                  && (r.Emit? <==> env.driver.toFloat(row[c]).Some?)
                  && (!r.Emit? ==> IsUnreadable(env, c, r)))
  {
    var known := Known(env, c);
    if known.Some? && known.value.histogram {
      HistogramMeans(env, row, c, known.value.desc.value);
    }
  }

  method ReadCell(env: Env, row: Row, c: nat, columnIdx: map<string, nat>, labels: seq<string>) returns (r: CellResult)
    requires WellLabelled(env.mapping) && LabelsReadable(env) && |row| == |env.names| && c < |row|
    requires columnIdx == Index(env.names) && labels == LabelValues(env, row)
    ensures r == CellAt(env, row, c)
    ensures r.Discard? <==> env.names[c] in env.mapping.columns && env.mapping.columns[env.names[c]].discard
    ensures r.Emit? ==> Carries(env, row, c, r.metric)
    ensures var known := Known(env, c);
            if r.Discard? then known.None?
            else if known.Some? && known.value.histogram then
              && (r.Emit? <==> IsComplete(env, row, c)) && (r.Fatal? <==> IsFatal(env, row, c))
              && (!r.Emit? ==> IsObstacle(env, row, c, r))
            else (r.Emit? <==> env.driver.toFloat(row[c]).Some?) && (!r.Emit? ==> IsUnreadable(env, c, r))
  {
    CellMeans(env, row, c);
    var name := env.names[c];
    if name in env.mapping.columns {
      var m := env.mapping.columns[name];
      if m.discard {
        return Discard;
      }
      if m.histogram {
        r := ReadHistogram(env, row, c, columnIdx, m.desc.value, labels);
        return r;
      }
      var value := env.driver.toFloat(row[c]);
      if value.None? {
        return NonFatal(BadCell(name));
      }
      return Emit(Const(m.desc.value, m.vtype.value, value.value, labels));
    }
    var value := env.driver.toFloat(row[c]);
    if value.None? {
      return NonFatal(UnknownBadCell(name));
    }
    return Emit(Const(UnknownDesc(env, name), UntypedValue, value.value, labels));
  }

  // What the loop has gathered from the first c cells.
  ghost predicate Gathered(t: seq<CellResult>, c: nat, metrics: seq<Metric>, problems: seq<Problem>)
    requires c <= |t|
  {
    metrics == Emits(t[..c]) && problems == Problems(t[..c]) && FirstFatal(t[..c]) == None
  }

  lemma GatherOne(t: seq<CellResult>, c: nat, metrics: seq<Metric>, problems: seq<Problem>)
    requires c < |t| && Gathered(t, c, metrics, problems) && !t[c].Fatal?
    ensures Gathered(t, c + 1, if t[c].Emit? then metrics + [t[c].metric] else metrics,
                     if t[c].NonFatal? then problems + [t[c].problem] else problems)
  {
    assert t[..c + 1][..c] == t[..c];
    assert metrics + [] == metrics && problems + [] == problems;
  }

  // The loop over the columns of one row.
  method ReadRow(env: Env, row: Row, columnIdx: map<string, nat>) returns (r: Scan)
    requires WellLabelled(env.mapping) && LabelsReadable(env) && |row| == |env.names|
    requires columnIdx == Index(env.names)
    ensures var t := RowTrace(env, row);
            r == match FirstFatal(t) case Some(f) => Aborted(f) case None => Done(Emits(t), Problems(t))
  {
    var metrics: seq<Metric>, problems: seq<Problem> := [], [];
    var labels := ReadLabels(env, row, columnIdx);
    ghost var t := RowTrace(env, row);
    for c := 0 to |env.names|
      invariant Gathered(t, c, metrics, problems)
    {
      var cell := ReadCell(env, row, c, columnIdx, labels);
      if !t[c].Fatal? {
        GatherOne(t, c, metrics, problems);
      }
      match cell {
        case Fatal(failure) =>
          FatalStays(t, c);
          return Aborted(failure);
        case NonFatal(problem) => problems := problems + [problem];
        case Emit(metric) => metrics := metrics + [metric];
        case Discard =>
      }
    }
    assert t[..|env.names|] == t;
    return Done(metrics, problems);
  }

  lemma {:induction false} FatalStays(t: seq<CellResult>, c: nat)
    requires c < |t| && FirstFatal(t[..c]) == None && t[c].Fatal?
    ensures FirstFatal(t) == Some(t[c].failure)
    decreases |t|
  {
    var n := |t| - 1;
    if c < n {
      assert t[..n][..c] == t[..c];
      FatalStays(t[..n], c);
    }
  }

  method MakeIndex(names: seq<string>) returns (columnIdx: map<string, nat>)
    ensures columnIdx == Index(names)
  {
    columnIdx := map[];
    for i := 0 to |names|
      invariant columnIdx == IndexUpTo(names, i)
    {
      columnIdx := columnIdx[names[i] := i];
    }
  }

  // One row of the scan.
  lemma ScanFrom(env: Env, rows: seq<Option<Row>>, i: nat)
    requires WellLabelled(env.mapping) && Shaped(env, rows) && i < |rows|
    ensures Shaped(env, rows[i..]) && Shaped(env, rows[i + 1..])
    ensures rows[i].None? ==> ScanRows(env, rows[i..]) == Aborted(RowFailed)
    ensures rows[i].Some? && !LabelsReadable(env) ==> ScanRows(env, rows[i..]) == Panic
    ensures rows[i].Some? && LabelsReadable(env) ==>
      var t := RowTrace(env, rows[i].value);
      ScanRows(env, rows[i..]) == match FirstFatal(t)
        case Some(f) => Aborted(f)
        case None => Prepend(Emits(t), Problems(t), ScanRows(env, rows[i + 1..]))
  {
    assert rows[i..][1..] == rows[i + 1..];
  }

  // The loop over the rows. A fatal error returns none of the metrics gathered so far.
  method ReadRows(env: Env, rows: seq<Option<Row>>) returns (r: Scan)
    requires WellLabelled(env.mapping) && Shaped(env, rows)
    ensures r == ScanRows(env, rows)
  {
    var columnIdx := MakeIndex(env.names);
    var metrics: seq<Metric>, problems: seq<Problem> := [], [];
    for i := 0 to |rows|
      invariant ScanRows(env, rows) == Prepend(metrics, problems, ScanRows(env, rows[i..]))
    {
      ScanFrom(env, rows, i);
      if rows[i].None? {
        return Aborted(RowFailed);
      }
      if !LabelsReadable(env) {
        return Panic;
      }
      var row := ReadRow(env, rows[i].value, columnIdx);
      if row.Aborted? {
        return row;
      }
      PrependTwice(metrics, problems, row.metrics, row.problems, ScanRows(env, rows[i + 1..]));
      metrics := metrics + row.metrics;
      problems := problems + row.problems;
    }
    return Done(metrics, problems);
  }

  lemma PrependTwice(m1: seq<Metric>, p1: seq<Problem>, m2: seq<Metric>, p2: seq<Problem>, rest: Scan)
    ensures Prepend(m1, p1, Prepend(m2, p2, rest)) == Prepend(m1 + m2, p1 + p2, rest)
  {
  }

  // ----- Choosing the query -----

  datatype Request = Nothing | SelectAll(ns: string) | RunSql(query: Sql)

  predicate IsEmpty(q: Sql) { q.NoSql? || q == UserSql("") }

  function RequestFor(overrides: map<string, Sql>, ns: string): Request {
    if ns !in overrides then SelectAll(ns)
    else if IsEmpty(overrides[ns]) then Nothing
    else RunSql(overrides[ns])
  }

  datatype Response = QueryError | ColumnsError | Result(names: seq<string>, rows: seq<Option<Row>>)

  ghost predicate ShapedResponse(resp: Response) {
    resp.Result? ==> forall r :: 0 <= r < |resp.rows| && resp.rows[r].Some? ==> |resp.rows[r].value| == |resp.names|
  }

  function Interpret(driver: Driver, ns: string, mapping: Namespace, serverLabels: map<string, string>,
                     resp: Response): Scan
    requires WellLabelled(mapping) && ShapedResponse(resp)
  {
    match resp
    case QueryError => Aborted(QueryFailed)
    case ColumnsError => Aborted(ColumnsFailed)
    case Result(names, rows) => ScanRows(Env(driver, ns, mapping, names, serverLabels), rows)
  }

  // What an answer comes to: either error is fatal, and a result is read row by row.
  ghost predicate IsReadOf(driver: Driver, ns: string, mapping: Namespace, serverLabels: map<string, string>,
                           resp: Response, r: Scan)
    requires WellLabelled(mapping) && ShapedResponse(resp)
  {
    match resp
    case QueryError => r == Aborted(QueryFailed)
    case ColumnsError => r == Aborted(ColumnsFailed)
    case Result(names, rows) => r == ScanRows(Env(driver, ns, mapping, names, serverLabels), rows)
  }

  method QueryNamespace(driver: Driver, db: Request -> Response, overrides: map<string, Sql>, ns: string,
                        mapping: Namespace, serverLabels: map<string, string>)
    returns (r: Scan)
    requires WellLabelled(mapping) && forall q :: ShapedResponse(db(q))
    ensures ns in overrides && IsEmpty(overrides[ns]) ==> r == Done([], [])
    ensures !(ns in overrides && IsEmpty(overrides[ns])) ==>
      r == Interpret(driver, ns, mapping, serverLabels, db(RequestFor(overrides, ns)))
    // A disabled namespace is not queried; an override is run, and without one the relation is read.
    ensures ns in overrides && (overrides[ns] == NoSql || overrides[ns] == UserSql("")) ==> r == Done([], [])
    ensures ns !in overrides ==> IsReadOf(driver, ns, mapping, serverLabels, db(SelectAll(ns)), r)
    ensures ns in overrides && overrides[ns] != NoSql && overrides[ns] != UserSql("") ==>
      IsReadOf(driver, ns, mapping, serverLabels, db(RunSql(overrides[ns])), r)
  {
    if ns in overrides && IsEmpty(overrides[ns]) {
      return Done([], []);
    }
    var resp := if ns !in overrides then db(SelectAll(ns)) else db(RunSql(overrides[ns]));
    match resp {
      case QueryError => return Aborted(QueryFailed);
      case ColumnsError => return Aborted(ColumnsFailed);
      case Result(names, rows) =>
        r := ReadRows(Env(driver, ns, mapping, names, serverLabels), rows);
    }
  }

  // ----- Conservation of cells -----

  predicate NoFatal(t: seq<CellResult>) { FirstFatal(t).None? }

  // Every cell of the result, row by row and column by column within a row.
  function Trace(env: Env, rows: seq<Option<Row>>): seq<CellResult>
    requires WellLabelled(env.mapping) && LabelsReadable(env) && Shaped(env, rows)
    requires forall r :: 0 <= r < |rows| ==> rows[r].Some?
    decreases |rows|
  {
    if rows == [] then [] else RowTrace(env, rows[0].value) + Trace(env, rows[1..])
  }

  lemma OneMoreRow(r: nat, width: nat)
    ensures (r + 1) * width == r * width + width
  {
  }

  lemma {:induction false} TraceLength(env: Env, rows: seq<Option<Row>>)
    requires WellLabelled(env.mapping) && LabelsReadable(env) && Shaped(env, rows)
    requires forall r :: 0 <= r < |rows| ==> rows[r].Some?
    ensures |Trace(env, rows)| == |rows| * |env.names|
    decreases |rows|
  {
    if rows != [] {
      TraceLength(env, rows[1..]);
      OneMoreRow(|rows| - 1, |env.names|);
    }
  }

  // Place p of the trace is cell (r, c) with p == r * columns + c.
  lemma {:induction false} TraceOrigin(env: Env, rows: seq<Option<Row>>, p: nat) returns (r: nat, c: nat)
    requires WellLabelled(env.mapping) && LabelsReadable(env) && Shaped(env, rows)
    requires forall i :: 0 <= i < |rows| ==> rows[i].Some?
    requires p < |Trace(env, rows)|
    ensures r < |rows| && c < |env.names| && p == r * |env.names| + c
    ensures Trace(env, rows)[p] == CellAt(env, rows[r].value, c)
    decreases |rows|
  {
    var width := |env.names|;
    if p < width {
      r, c := 0, p;
    } else {
      r, c := TraceOrigin(env, rows[1..], p - width);
      OneMoreRow(r, width);
      r := r + 1;
    }
  }

  lemma {:induction false} Partition(t: seq<CellResult>)
    requires NoFatal(t)
    ensures |Emits(t)| + |Problems(t)| + Discards(t) == |t|
    decreases |t|
  {
    if t != [] {
      Partition(t[..|t| - 1]);
    }
  }

  lemma {:induction false} Concatenate(a: seq<CellResult>, b: seq<CellResult>)
    requires NoFatal(a) && NoFatal(b)
    ensures NoFatal(a + b)
    ensures Emits(a + b) == Emits(a) + Emits(b) && Problems(a + b) == Problems(a) + Problems(b)
    decreases |b|
  {
    if b == [] {
      assert a + b == a;
    } else {
      Concatenate(a, b[..|b| - 1]);
      assert (a + b)[..|a + b| - 1] == a + b[..|b| - 1];
    }
  }

  lemma {:induction false} DoneMeansTrace(env: Env, rows: seq<Option<Row>>)
    requires WellLabelled(env.mapping) && Shaped(env, rows) && ScanRows(env, rows).Done?
    requires rows != []
    ensures LabelsReadable(env) && forall r :: 0 <= r < |rows| ==> rows[r].Some?
    ensures var t := Trace(env, rows);
            NoFatal(t) && ScanRows(env, rows) == Done(Emits(t), Problems(t))
    decreases |rows|
  {
    var t := RowTrace(env, rows[0].value);
    if |rows| == 1 {
      assert rows[1..] == [];
      assert t + [] == t && Emits(t) + [] == Emits(t) && Problems(t) + [] == Problems(t);
    } else {
      DoneMeansTrace(env, rows[1..]);
      assert forall r :: 0 < r < |rows| ==> rows[r] == rows[1..][r - 1];
      Concatenate(t, Trace(env, rows[1..]));
    }
  }

  // Metrics, non-fatal errors and discarded cells add up to rows times columns, and the metrics
  // are those of the cells in row-then-column order.
  lemma CellConservation(env: Env, rows: seq<Option<Row>>)
    requires WellLabelled(env.mapping) && Shaped(env, rows) && ScanRows(env, rows).Done?
    requires rows != []
    ensures LabelsReadable(env) && forall r :: 0 <= r < |rows| ==> rows[r].Some?
    ensures var t, s := Trace(env, rows), ScanRows(env, rows);
            && |s.metrics| + |s.problems| + Discards(t) == |rows| * |env.names|
            && s.metrics == Emits(t) && s.problems == Problems(t)
  {
    DoneMeansTrace(env, rows);
    Partition(Trace(env, rows));
    TraceLength(env, rows);
  }

  // Where the metrics of a trace sit.
  function Places(t: seq<CellResult>): seq<nat> {
    if t == [] then []
    else Places(t[..|t| - 1]) + if t[|t| - 1].Emit? then [|t| - 1] else []
  }

  // The metrics keep the order of the cells: their places strictly increase, and every place that
  // emits is among them.
  lemma {:induction false} EmitsInOrder(t: seq<CellResult>, k: nat)
    requires k < |Emits(t)|
    ensures |Places(t)| == |Emits(t)|
    ensures Places(t)[k] < |t| && t[Places(t)[k]] == Emit(Emits(t)[k])
    ensures k > 0 ==> Places(t)[k - 1] < Places(t)[k]
    decreases |t|
  {
    var n := |t| - 1;
    PlacesBounded(t[..n]);
    if k < |Emits(t[..n])| {
      EmitsInOrder(t[..n], k);
    }
  }

  lemma {:induction false} PlacesBounded(t: seq<CellResult>)
    ensures |Places(t)| == |Emits(t)|
    ensures forall k :: 0 <= k < |Places(t)| ==> Places(t)[k] < |t|
    decreases |t|
  {
    if t != [] {
      PlacesBounded(t[..|t| - 1]);
    }
  }

  lemma {:induction false} EveryEmitHasItsPlace(t: seq<CellResult>, i: nat)
    requires i < |t| && t[i].Emit?
    ensures i in Places(t)
    decreases |t|
  {
    if i < |t| - 1 {
      EveryEmitHasItsPlace(t[..|t| - 1], i);
    } else {
      assert Places(t)[|Places(t)| - 1] == i;
    }
  }

  // When the scan is cut short instead: a row that cannot be scanned, a fatal cell, or labels
  // wanted of rows without columns.
  ghost predicate BadRow(env: Env, row: Option<Row>)
    requires WellLabelled(env.mapping) && (row.Some? ==> |row.value| == |env.names|)
  {
    row.None? || !LabelsReadable(env) || !NoFatal(RowTrace(env, row.value))
  }

  lemma {:induction false} DoneExactly(env: Env, rows: seq<Option<Row>>)
    requires WellLabelled(env.mapping) && Shaped(env, rows)
    ensures ScanRows(env, rows).Done? <==> forall r :: 0 <= r < |rows| ==> !BadRow(env, rows[r])
    decreases |rows|
  {
    if rows != [] && !BadRow(env, rows[0]) {
      DoneExactly(env, rows[1..]);
      assert forall r :: 0 < r < |rows| ==> rows[r] == rows[1..][r - 1];
    }
  }

  // Which failure a row gives, as the first fatal cell decides.
  ghost predicate Breaks(env: Env, row: Option<Row>, f: Failure)
    requires WellLabelled(env.mapping) && (row.Some? ==> |row.value| == |env.names|)
  {
    match row
    case None => f == RowFailed
    case Some(cells) =>
      LabelsReadable(env) && exists c: nat :: c < |env.names| && IsFirstFatal(RowTrace(env, cells), c, f)
  }

  ghost predicate IsFirstFatal(t: seq<CellResult>, c: nat, f: Failure) {
    c < |t| && t[c] == Fatal(f) && forall j :: 0 <= j < c ==> !t[j].Fatal?
  }

  lemma {:induction false} FirstFatalIs(t: seq<CellResult>, f: Failure)
    ensures FirstFatal(t) == None <==> forall j :: 0 <= j < |t| ==> !t[j].Fatal?
    ensures FirstFatal(t) == Some(f) <==> exists c: nat :: c < |t| && IsFirstFatal(t, c, f)
    decreases |t|
  {
    if t != [] {
      var n := |t| - 1;
      FirstFatalIs(t[..n], f);
      assert t == t[..n] + [t[n]];
      assert forall c: nat :: c < n ==> (IsFirstFatal(t, c, f) <==> IsFirstFatal(t[..n], c, f));
      assert IsFirstFatal(t, n, f) <==> FirstFatal(t[..n]) == None && t[n] == Fatal(f);
    }
  }

  ghost predicate IsFirstBad(env: Env, rows: seq<Option<Row>>, r: nat)
    requires WellLabelled(env.mapping) && Shaped(env, rows)
  {
    r < |rows| && BadRow(env, rows[r]) && forall j :: 0 <= j < r ==> !BadRow(env, rows[j])
  }

  // The first bad row decides how a scan ends that does not complete.
  lemma {:induction false} FirstBadDecides(env: Env, rows: seq<Option<Row>>, r: nat, f: Failure)
    requires WellLabelled(env.mapping) && Shaped(env, rows) && IsFirstBad(env, rows, r)
    ensures ScanRows(env, rows) == Aborted(f) <==> Breaks(env, rows[r], f)
    ensures ScanRows(env, rows) == Panic <==> rows[r].Some? && env.mapping.labels != [] && env.names == []
    decreases |rows|
  {
    if r > 0 {
      assert !BadRow(env, rows[0]);
      assert forall j :: 0 < j < |rows| ==> rows[j] == rows[1..][j - 1];
      assert IsFirstBad(env, rows[1..], r - 1);
      FirstBadDecides(env, rows[1..], r - 1, f);
    } else if rows[0].Some? && LabelsReadable(env) {
      FirstFatalIs(RowTrace(env, rows[0].value), f);
    }
  }

  // Every problem is reported, in the order of the cells.
  lemma {:induction false} ProblemsInOrder(t: seq<CellResult>, i: nat)
    requires i < |t| && t[i].NonFatal?
    ensures |Problems(t[..i])| < |Problems(t)| && Problems(t)[|Problems(t[..i])|] == t[i].problem
    decreases |t|
  {
    var n := |t| - 1;
    if i < n {
      ProblemsInOrder(t[..n], i);
      assert t[..n][..i] == t[..i];
    }
  }

  // ----- Label pairing -----

  // The column a label is read from: the last one of its name, or column 0 when there is none.
  ghost predicate IsSource(names: seq<string>, name: string, c: nat)
    requires c < |names|
  {
    if name in names then names[c] == name && (forall j :: c < j < |names| ==> names[j] != name) else c == 0
  }

  // One value per variable label, and value i is that of the source column of label i.
  ghost predicate Paired(env: Env, row: Row, m: Metric)
    requires |row| == |env.names|
  {
    && m.desc.variableLabels == env.mapping.labels
    && |m.labelValues| == |m.desc.variableLabels|
    && forall i, c :: 0 <= i < |m.labelValues| && 0 <= c < |row| && IsSource(env.names, m.desc.variableLabels[i], c)
        ==> m.labelValues[i] == env.driver.toStr(row[c])
  }

  lemma LabelValueAt(env: Env, row: Row, i: nat, c: nat)
    requires LabelsReadable(env) && |row| == |env.names|
    requires i < |env.mapping.labels| && c < |row| && IsSource(env.names, env.mapping.labels[i], c)
    ensures LabelValues(env, row)[i] == env.driver.toStr(row[c])
  {
    if env.mapping.labels[i] in env.names {
      IndexIsLast(env.names, |env.names|, c);
    }
    assert IndexOrZero(env.names, env.mapping.labels[i]) == c;
  }

  lemma EmitsItsLabels(env: Env, row: Row, c: nat)
    requires WellLabelled(env.mapping) && LabelsReadable(env) && |row| == |env.names| && c < |row|
    requires CellAt(env, row, c).Emit?
    ensures var m := CellAt(env, row, c).metric;
            m.desc.variableLabels == env.mapping.labels && m.labelValues == LabelValues(env, row)
  {
  }

  lemma EmittedIsPaired(env: Env, row: Row, c: nat)
    requires WellLabelled(env.mapping) && LabelsReadable(env) && |row| == |env.names| && c < |row|
    requires CellAt(env, row, c).Emit?
    ensures Paired(env, row, CellAt(env, row, c).metric)
  {
    EmitsItsLabels(env, row, c);
    LabelsPair(env, row, CellAt(env, row, c).metric);
  }

  lemma LabelsPair(env: Env, row: Row, m: Metric)
    requires LabelsReadable(env) && |row| == |env.names|
    requires m.desc.variableLabels == env.mapping.labels && m.labelValues == LabelValues(env, row)
    ensures Paired(env, row, m)
  {
    forall i, k | 0 <= i < |m.labelValues| && 0 <= k < |row| && IsSource(env.names, env.mapping.labels[i], k)
      ensures m.labelValues[i] == env.driver.toStr(row[k])
    {
      LabelValueAt(env, row, i, k);
    }
  }

  lemma {:induction false} FilledIsLabelled(ctx: Context, columns: map<string, Column>, order: seq<string>, x: string)
    requires forall i :: 0 <= i < |order| ==> order[i] in columns
    requires x in Fill(ctx, columns, order)
    ensures var m := Fill(ctx, columns, order)[x];
            Usable(m) && (!m.discard ==> m.desc.value.variableLabels == ctx.labels)
    decreases |order|
  {
    var n := |order| - 1;
    var c := order[n];
    EntriesAt(ctx, c, columns[c], x);
    if x !in Entries(ctx, c, columns[c]) {
      FilledIsLabelled(ctx, columns, order[..n], x);
    }
  }

  // Whatever the iteration orders, clashes included.
  lemma CompiledIsLabelled(v: Version, name: string, constLabels: map<string, string>, d: Declared, r: Namespace)
    requires Compiled(v, name, constLabels, d, r)
    ensures WellLabelled(r)
  {
    var ctx := Context(v, name, r.labels, constLabels);
    var order :| Enumerates(order, d.columns.Keys) && r.columns == Fill(ctx, d.columns, order);
    forall x | x in r.columns
      ensures Usable(r.columns[x])
      ensures !r.columns[x].discard ==> r.columns[x].desc.value.variableLabels == r.labels
    {
      FilledIsLabelled(ctx, d.columns, order, x);
    }
  }

  // Metric k of a scan over such a namespace is paired with the row of the k-th emitting cell.
  lemma LabelPairing(env: Env, rows: seq<Option<Row>>, k: nat) returns (r: nat, c: nat)
    requires WellLabelled(env.mapping)
    requires Shaped(env, rows) && ScanRows(env, rows).Done?
    requires k < |ScanRows(env, rows).metrics|
    ensures r < |rows| && rows[r].Some? && c < |env.names| && LabelsReadable(env)
    ensures CellAt(env, rows[r].value, c) == Emit(ScanRows(env, rows).metrics[k])
    ensures Paired(env, rows[r].value, ScanRows(env, rows).metrics[k])
    ensures Carries(env, rows[r].value, c, ScanRows(env, rows).metrics[k])
  {
    DoneMeansTrace(env, rows);
    var t := Trace(env, rows);
    EmitsInOrder(t, k);
    r, c := TraceOrigin(env, rows, Places(t)[k]);
    EmittedIsPaired(env, rows[r].value, c);
    CellMeans(env, rows[r].value, c);
  }
}
