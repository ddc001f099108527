/** The built-in columns of pg_stat_replication, with usages and version ranges, for any help texts. */
module ReplicationTable {
  import opened Prelude
  import opened Versions
  import opened Metrics
  import opened Tables

  // Help texts carry no logic.
  type Help = string -> string

  function Group(names: set<string>, usage: Usage, range: Option<Range>, help: Help): map<string, Column> {
    map c | c in names :: Column(usage, help(c), range)
  }

  function Gauges(help: Help): map<string, Column> {
    map c | c in ReplicationGauges() :: Column(GAUGE, help(c), Some(ReplicationGauges()[c]))
  }

  const PLAIN := {
    "usesysid", "usename", "client_hostname", "client_port", "backend_start", "backend_xmin", "sync_priority",
    "sync_state", "plugin", "slot_type", "datoid", "database", "active", "active_pid", "xmin", "catalog_xmin",
    "restart_lsn", "pg_current_xlog_location", "confirmed_flush_lsn"}

  const LOCATIONS := {"sent_location", "write_location", "flush_location", "replay_location"}

  const LSNS := {
    "sent_lsn", "write_lsn", "flush_lsn", "replay_lsn", "pg_current_wal_lsn", "write_lag", "flush_lag", "replay_lag"}

  // No name is in two groups, so the order of the sum does not matter.
  function Dropped(help: Help): map<string, Column> {
    Group(PLAIN, DISCARD, None, help)
    + Group({"procpid"}, DISCARD, Some(Below(V9_2)), help)
    + Group({"pid"}, DISCARD, Some(From(V9_2)), help)
    + Group(LOCATIONS, DISCARD, Some(Below(V10)), help)
    + Group(LSNS, DISCARD, Some(From(V10)), help)
  }

  function Labels(help: Help): map<string, Column> {
    Group({"application_name", "client_addr", "state"}, LABEL, None, help)
    + Group({"slot_name"}, LABEL, Some(From(V9_2)), help)
  }

  function Replication(help: Help): Declared {
    Declared(Dropped(help) + Labels(help) + Gauges(help), true, 0)
  }

  ghost predicate HistogramFree(columns: map<string, Column>) {
    forall c :: c in columns ==> !columns[c].usage.HISTOGRAM?
  }

  lemma UnionIsHistogramFree(a: map<string, Column>, b: map<string, Column>)
    requires HistogramFree(a) && HistogramFree(b)
    ensures HistogramFree(a + b)
  {
  }

  ghost predicate Only(columns: map<string, Column>, usage: Usage) {
    forall c :: c in columns ==> columns[c].usage == usage
  }

  lemma UnionOnly(a: map<string, Column>, b: map<string, Column>, usage: Usage)
    requires Only(a, usage) && Only(b, usage)
    ensures Only(a + b, usage)
  {
  }

  lemma DroppedOnlyDiscards(help: Help)
    ensures Only(Dropped(help), DISCARD)
  {
    var plain := Group(PLAIN, DISCARD, None, help);
    var procpid := Group({"procpid"}, DISCARD, Some(Below(V9_2)), help);
    var pid := Group({"pid"}, DISCARD, Some(From(V9_2)), help);
    var locations := Group(LOCATIONS, DISCARD, Some(Below(V10)), help);
    var lsns := Group(LSNS, DISCARD, Some(From(V10)), help);
    UnionOnly(plain, procpid, DISCARD);
    UnionOnly(plain + procpid, pid, DISCARD);
    UnionOnly(plain + procpid + pid, locations, DISCARD);
    UnionOnly(plain + procpid + pid + locations, lsns, DISCARD);
  }

  lemma LabelsOnly(help: Help)
    ensures Only(Labels(help), LABEL)
    ensures forall x :: x in Labels(help) <==> IsLabel(x)
  {
  }

  lemma NoHistograms(help: Help, v: Version)
    ensures !Clashes(v, Replication(help).columns)
  {
    DroppedOnlyDiscards(help);
    UnionIsHistogramFree(Dropped(help), Labels(help));
    UnionIsHistogramFree(Dropped(help) + Labels(help), Gauges(help));
  }

  // At every version and for every iteration order, a gauge of the built-in table is active exactly
  // when the query chosen for that version names its column.
  lemma GaugeActiveExactly(v: Version, constLabels: map<string, string>, help: Help, r: Namespace, gauge: string)
    requires Compiled(v, REPLICATION, constLabels, Replication(help), r) && gauge in ReplicationGauges()
    ensures gauge in r.columns
    ensures var q := FirstMatch(ReplicationOverrides(), v);
            q.Builtin? && (!r.columns[gauge].discard <==> gauge in q.columns)
  {
    var columns := Replication(help).columns;
    NoHistograms(help, v);
    assert gauge in Gauges(help);
    assert columns[gauge] == Column(GAUGE, help(gauge), Some(ReplicationGauges()[gauge]));
    DroppedExactly(v, REPLICATION, constLabels, Replication(help), r, gauge);
    GaugesMatchQueries(v, gauge);
  }

  ghost predicate IsLabel(x: string) {
    x == "application_name" || x == "client_addr" || x == "state" || x == "slot_name"
  }

  lemma GaugesAreNoLabels(x: string)
    requires x in ReplicationGauges()
    ensures !IsLabel(x)
  {
    assert |x| == 24 || |x| == 21 || |x| == 15;
    assert |"application_name"| == 16 && |"client_addr"| == 11 && |"state"| == 5 && |"slot_name"| == 9;
  }

  lemma DeclaredUsage(help: Help, x: string)
    requires x in Replication(help).columns && x !in ReplicationGauges()
    ensures Replication(help).columns[x].usage == if IsLabel(x) then LABEL else DISCARD
  {
    LabelsOnly(help);
    DroppedOnlyDiscards(help);
  }

  // At every version these four are the labels, slot_name too, although below 9.2.0 its range
  // excludes it.
  lemma LabelsExactly(v: Version, constLabels: map<string, string>, help: Help, r: Namespace, x: string)
    requires Compiled(v, REPLICATION, constLabels, Replication(help), r)
    ensures x in r.labels <==> x == "application_name" || x == "client_addr" || x == "state" || x == "slot_name"
  {
    var columns := Replication(help).columns;
    assert x in r.labels <==> x in LabelColumns(columns);
    if x in ReplicationGauges() {
      GaugesAreNoLabels(x);
      assert columns[x] == Gauges(help)[x];
    } else if x in columns {
      DeclaredUsage(help, x);
    } else {
      LabelsOnly(help);
    }
  }

  // Whatever is neither gauge nor label is discarded, and so are the labels.
  lemma OthersAreDiscarded(v: Version, constLabels: map<string, string>, help: Help, r: Namespace, x: string)
    requires Compiled(v, REPLICATION, constLabels, Replication(help), r)
    requires x in Replication(help).columns && x !in ReplicationGauges()
    ensures x in r.columns && r.columns[x].discard
  {
    NoHistograms(help, v);
    DeclaredUsage(help, x);
    DroppedExactly(v, REPLICATION, constLabels, Replication(help), r, x);
  }
}
