/** Server versions, version ranges, and the version-dependent query overrides. */
module Versions {
  import opened Prelude

  datatype Version = Version(major: nat, minor: nat, patch: nat)

  // Precedence of section 11 of Semantic Versioning 2.0.0; server versions carry no pre-release.
  predicate Less(a: Version, b: Version) {
    || a.major < b.major
    || (a.major == b.major && a.minor < b.minor)
    || (a.major == b.major && a.minor == b.minor && a.patch < b.patch)
  }

  // ">=low <high", either end of which may be missing.
  datatype Range = Range(low: Option<Version>, high: Option<Version>)

  predicate Contains(r: Range, v: Version) {
    && (r.low.Some? ==> !Less(v, r.low.value))
    && (r.high.Some? ==> Less(v, r.high.value))
  }

  // In numbers: ranges compare the major number first, then the minor one, then the patch.
  lemma ContainsInNumbers(r: Range, v: Version)
    ensures Contains(r, v) <==>
      && (r.low.Some? ==>
            var l := r.low.value;
            || v.major > l.major
            || (v.major == l.major && (v.minor > l.minor || (v.minor == l.minor && v.patch >= l.patch))))
      && (r.high.Some? ==>
            var h := r.high.value;
            || v.major < h.major
            || (v.major == h.major && (v.minor < h.minor || (v.minor == h.minor && v.patch < h.patch))))
  {
  }

  const V9_2 := Version(9, 2, 0)
  const V9_4 := Version(9, 4, 0)
  const V10 := Version(10, 0, 0)

  function From(v: Version): Range { Range(Some(v), None) }

  function Below(v: Version): Range { Range(None, Some(v)) }

  function Between(a: Version, b: Version): Range { Range(Some(a), Some(b)) }

  // A built-in query is recorded by the columns it names; NoSql is the empty query, which
  // disables a namespace.
  datatype Sql = NoSql | Builtin(columns: set<string>) | UserSql(text: string)

  datatype Override = Override(range: Range, query: Sql)

  type Overrides = map<string, seq<Override>>

  const REPLICATION := "pg_stat_replication"
  const SLOTS := "pg_replication_slots"
  const ARCHIVER := "pg_stat_archiver"
  const ACTIVITY := "pg_stat_activity"

  const ACTIVITY_COLUMNS := {"datname", "state", "usename", "application_name", "count", "max_tx_duration"}

  function ReplicationOverrides(): seq<Override> {
    [Override(From(V10), Builtin({"pg_current_wal_lsn", "pg_current_wal_lsn_bytes", "pg_wal_lsn_diff"})),
     Override(Between(V9_2, V10), Builtin({"pg_current_xlog_location", "pg_xlog_location_diff"})),
     Override(Below(V9_2), Builtin({"pg_current_xlog_location"}))]
  }

  function SlotsOverrides(): seq<Override> {
    [Override(Between(V9_4, V10), Builtin({"slot_name", "database", "active", "pg_xlog_location_diff"})),
     Override(From(V10), Builtin({"slot_name", "database", "active", "pg_wal_lsn_diff"}))]
  }

  function ArchiverOverrides(): seq<Override> {
    [Override(From(V9_4), Builtin({"last_archive_age"}))]
  }

  function ActivityOverrides(): seq<Override> {
    [Override(From(V9_2), Builtin(ACTIVITY_COLUMNS)), Override(Below(V9_2), Builtin(ACTIVITY_COLUMNS))]
  }

  function BuiltinOverrides(): Overrides {
    map[REPLICATION := ReplicationOverrides(), SLOTS := SlotsOverrides(),
        ARCHIVER := ArchiverOverrides(), ACTIVITY := ActivityOverrides()]
  }

  // ----- Choosing one override per namespace -----

  function FirstMatch(defs: seq<Override>, v: Version): Sql {
    if defs == [] then NoSql
    else if Contains(defs[0].range, v) then defs[0].query
    else FirstMatch(defs[1..], v)
  }

  function OverrideMap(v: Version, overrides: Overrides): map<string, Sql> {
    map ns | ns in overrides :: FirstMatch(overrides[ns], v)
  }

  lemma {:induction false} FirstMatchIs(defs: seq<Override>, v: Version, i: nat)
    requires i <= |defs|
    requires forall j :: 0 <= j < i ==> !Contains(defs[j].range, v)
    ensures FirstMatch(defs, v)
            == if i < |defs| && Contains(defs[i].range, v) then defs[i].query else FirstMatch(defs[i..], v)
  {
    if i > 0 {
      FirstMatchIs(defs[1..], v, i - 1);
      assert defs[1..][i - 1..] == defs[i..];
    }
  }

  // Entry n is the first whose range holds the version; n is the length when none does.
  ghost predicate IsFirst(defs: seq<Override>, v: Version, n: int) {
    && 0 <= n <= |defs| && (forall j :: 0 <= j < n ==> !Contains(defs[j].range, v))
    && (n < |defs| ==> Contains(defs[n].range, v))
  }

  method MakeQueryOverrideMap(v: Version, overrides: Overrides) returns (resultMap: map<string, Sql>)
    ensures resultMap == OverrideMap(v, overrides)
    // The first entry whose range holds the version, or the empty query.
    ensures resultMap.Keys == overrides.Keys
    ensures forall ns, n :: ns in overrides && IsFirst(overrides[ns], v, n) ==>
      resultMap[ns] == if n < |overrides[ns]| then overrides[ns][n].query else NoSql
  {
    resultMap := map[];
    var left := overrides.Keys;
    while left != {}
      invariant left <= overrides.Keys
      invariant resultMap == map ns | ns in overrides && ns !in left :: FirstMatch(overrides[ns], v)
      decreases |left|
    {
      var name :| name in left;
      left := left - {name};
      var defs := overrides[name];
      var matched := false;
      ghost var before := resultMap;
      for i := 0 to |defs|
        invariant !matched && resultMap == before
        invariant forall j :: 0 <= j < i ==> !Contains(defs[j].range, v)
      {
        FirstMatchIs(defs, v, i);
        if Contains(defs[i].range, v) {
          resultMap := resultMap[name := defs[i].query];
          matched := true;
          break;
        }
      }
      if !matched {
        FirstMatchIs(defs, v, |defs|);
        resultMap := resultMap[name := NoSql];
      }
    }
    forall ns, n | ns in overrides && IsFirst(overrides[ns], v, n)
      ensures resultMap[ns] == if n < |overrides[ns]| then overrides[ns][n].query else NoSql
    {
      FirstMatchIs(overrides[ns], v, n);
    }
  }

  // ----- The list order does not matter -----

  ghost predicate AtMostOne(defs: seq<Override>, v: Version) {
    forall i, j :: 0 <= i < j < |defs| ==> !(Contains(defs[i].range, v) && Contains(defs[j].range, v))
  }

  // Whatever way the list is rearranged, the same query is chosen.
  lemma OrderIrrelevant(defs: seq<Override>, moved: seq<Override>, v: Version)
    requires AtMostOne(defs, v) && multiset(moved) == multiset(defs)
    ensures FirstMatch(moved, v) == FirstMatch(defs, v)
  {
    var n := First(defs, v);
    var m := First(moved, v);
    if n < |defs| {
      assert defs[n] in multiset(moved);
      assert defs[n] in moved;
    }
    if m < |moved| {
      assert moved[m] in multiset(defs);
      var i :| 0 <= i < |defs| && defs[i] == moved[m];
      assert n <= i;
    }
  }

  // The first matching entry, or the length of the list.
  lemma {:induction false} First(defs: seq<Override>, v: Version) returns (n: nat)
    ensures n <= |defs| && forall j :: 0 <= j < n ==> !Contains(defs[j].range, v)
    ensures n < |defs| ==> Contains(defs[n].range, v) && FirstMatch(defs, v) == defs[n].query
    ensures n == |defs| ==> FirstMatch(defs, v) == NoSql
  {
    if defs == [] || Contains(defs[0].range, v) {
      n := 0;
    } else {
      n := First(defs[1..], v);
      assert forall j :: 0 < j <= n ==> j == |defs| || defs[j] == defs[1..][j - 1];
      n := n + 1;
    }
  }

  // ----- The built-in table is a closed set -----

  // No two ranges of a namespace overlap, at any version.
  lemma NoOverlap(v: Version, ns: string)
    requires ns in BuiltinOverrides()
    ensures AtMostOne(BuiltinOverrides()[ns], v)
  {
  }

  lemma ReplicationQuery(v: Version)
    ensures FirstMatch(ReplicationOverrides(), v)
            == ReplicationOverrides()[if !Less(v, V10) then 0 else if !Less(v, V9_2) then 1 else 2].query
  {
    var d := ReplicationOverrides();
    assert Contains(d[0].range, v) <==> !Less(v, V10);
    assert Contains(d[1].range, v) <==> !Less(v, V9_2) && Less(v, V10);
    assert Contains(d[2].range, v) <==> Less(v, V9_2);
    var _ := First(d, v);
  }

  // What runs for pg_stat_replication, by the numbers of the version.
  lemma ReplicationInNumbers(v: Version)
    ensures FirstMatch(ReplicationOverrides(), v)
            == if v.major >= 10 then Builtin({"pg_current_wal_lsn", "pg_current_wal_lsn_bytes", "pg_wal_lsn_diff"})
               else if v.major == 9 && v.minor >= 2 then Builtin({"pg_current_xlog_location", "pg_xlog_location_diff"})
               else Builtin({"pg_current_xlog_location"})
  {
    ReplicationQuery(v);
  }

  // What runs for pg_replication_slots.
  lemma SlotsInNumbers(v: Version)
    ensures FirstMatch(SlotsOverrides(), v)
            == if v.major >= 10 then Builtin({"slot_name", "database", "active", "pg_wal_lsn_diff"})
               else if v.major == 9 && v.minor >= 4
               then Builtin({"slot_name", "database", "active", "pg_xlog_location_diff"})
               else NoSql
  {
    var d := SlotsOverrides();
    assert Contains(d[0].range, v) <==> !Less(v, V9_4) && Less(v, V10);
    assert Contains(d[1].range, v) <==> !Less(v, V10);
    var _ := First(d, v);
  }

  // The other two.
  lemma OthersInNumbers(v: Version)
    ensures FirstMatch(ArchiverOverrides(), v)
            == if v.major >= 10 || (v.major == 9 && v.minor >= 4) then Builtin({"last_archive_age"}) else NoSql
    ensures FirstMatch(ActivityOverrides(), v)
            == Builtin({"datname", "state", "usename", "application_name", "count", "max_tx_duration"})
  {
    var a := ActivityOverrides();
    assert Contains(a[0].range, v) || Contains(a[1].range, v);
    var _ := First(a, v);
    var _ := First(ArchiverOverrides(), v);
  }

  // The empty query is chosen exactly below 9.4, for the slots and the archiver.
  lemma DisabledExactly(v: Version, ns: string)
    requires ns in BuiltinOverrides()
    ensures FirstMatch(BuiltinOverrides()[ns], v) == NoSql <==>
      (ns == "pg_replication_slots" || ns == "pg_stat_archiver") && (v.major < 9 || (v.major == 9 && v.minor < 4))
  {
    ReplicationInNumbers(v);
    SlotsInNumbers(v);
    OthersInNumbers(v);
  }

  // The version-gated GAUGE columns of pg_stat_replication.
  function ReplicationGauges(): map<string, Range> {
    map["pg_current_wal_lsn_bytes" := From(V10),
        "pg_xlog_location_diff" := Between(V9_2, V10),
        "pg_wal_lsn_diff" := From(V10)]
  }

  // A gated gauge is active exactly when the query chosen for that version names its column.
  lemma GaugesMatchQueries(v: Version, gauge: string)
    requires gauge in ReplicationGauges()
    ensures var q := FirstMatch(ReplicationOverrides(), v);
            q.Builtin? && (Contains(ReplicationGauges()[gauge], v) <==> gauge in q.columns)
  {
    ReplicationQuery(v);
    assert |"pg_current_wal_lsn_bytes"| == 24 && |"pg_xlog_location_diff"| == 21 && |"pg_wal_lsn_diff"| == 15;
    assert |"pg_current_wal_lsn"| == 18 && |"pg_current_xlog_location"| == 24;
    assert "pg_current_wal_lsn_bytes"[11] != "pg_current_xlog_location"[11];
  }
}
