/** Compiling the column tables of a server version into what the row loop executes. */
module Tables {
  import opened Prelude
  import opened Metrics
  import opened Versions

  datatype Usage = DISCARD | LABEL | COUNTER | GAUGE | MAPPEDMETRIC | DURATION | HISTOGRAM

  datatype Column = Column(usage: Usage, description: string, supported: Option<Range>)

  // One namespace as declared.
  datatype Declared = Declared(columns: map<string, Column>, master: bool, cacheSeconds: nat)

  // What all columns of a namespace share.
  datatype Context = Context(version: Version, name: string, labels: seq<string>, constLabels: map<string, string>)

  const DROPPED := MetricMap(true, false, None, None)
  const HISTOGRAM_PART := MetricMap(true, true, None, None)

  predicate Supported(col: Column, v: Version) {
    col.supported.Some? ==> Contains(col.supported.value, v)
  }

  predicate IsHistogram(col: Column, v: Version) { Supported(col, v) && col.usage.HISTOGRAM? }

  function Describe(ctx: Context, name: string, col: Column): Option<Desc> {
    Some(Desc(ctx.name + "_" + name, col.description, ctx.labels, ctx.constLabels))
  }

  // What a column is compiled to under its own name.
  function Own(ctx: Context, name: string, col: Column): MetricMap {
    if !Supported(col, ctx.version) then DROPPED
    else match col.usage
      case DISCARD => DROPPED
      case LABEL => DROPPED
      case COUNTER => MetricMap(false, false, Some(CounterValue), Describe(ctx, name, col))
      case GAUGE => MetricMap(false, false, Some(GaugeValue), Describe(ctx, name, col))
      case HISTOGRAM => MetricMap(false, true, Some(UntypedValue), Describe(ctx, name, col))
      case MAPPEDMETRIC => MetricMap(false, false, Some(GaugeValue), Describe(ctx, name, col))
      case DURATION => MetricMap(false, false, Some(GaugeValue), Describe(ctx, name + "_milliseconds", col))
  }

  predicate IsPart(part: string, name: string) {
    part == name + "_bucket" || part == name + "_sum" || part == name + "_count"
  }

  // The entries that processing one column writes.
  function Entries(ctx: Context, name: string, col: Column): map<string, MetricMap> {
    if IsHistogram(col, ctx.version) then
      map[name := Own(ctx, name, col), name + "_bucket" := HISTOGRAM_PART,
          name + "_sum" := HISTOGRAM_PART, name + "_count" := HISTOGRAM_PART]
    else map[name := Own(ctx, name, col)]
  }

  lemma EntriesAt(ctx: Context, name: string, col: Column, x: string)
    ensures x in Entries(ctx, name, col) <==> x == name || (IsHistogram(col, ctx.version) && IsPart(x, name))
    ensures Entries(ctx, name, col)[name] == Own(ctx, name, col)
    ensures x in Entries(ctx, name, col) && x != name ==> Entries(ctx, name, col)[x] == HISTOGRAM_PART
  {
  }

  // Processing the columns in a given order; later writes win.
  function Fill(ctx: Context, columns: map<string, Column>, order: seq<string>): map<string, MetricMap>
    requires forall i :: 0 <= i < |order| ==> order[i] in columns
  {
    if order == [] then map[]
    else
      var n := |order| - 1;
      Fill(ctx, columns, order[..n]) + Entries(ctx, order[n], columns[order[n]])
  }

  function LabelColumns(columns: map<string, Column>): set<string> {
    set c | c in columns && columns[c].usage.LABEL?
  }

  // r is what some pair of iteration orders makes of a namespace.
  ghost predicate Compiled(v: Version, name: string, constLabels: map<string, string>, d: Declared, r: Namespace) {
    && Enumerates(r.labels, LabelColumns(d.columns))
    && r.master == d.master && r.cacheSeconds == d.cacheSeconds
    && Filled(Context(v, name, r.labels, constLabels), d.columns, d.columns.Keys, r.columns)
  }

  // The first loop over the columns: labels, whatever version they are for.
  method CollectLabels(columns: map<string, Column>) returns (labels: seq<string>)
    ensures Enumerates(labels, LabelColumns(columns))
    ensures forall c :: c in labels <==> c in columns && columns[c].usage.LABEL?
  {
    labels := [];
    var left := columns.Keys;
    ghost var found: set<string> := {};
    while left != {}
      invariant left <= columns.Keys && found == LabelColumns(columns) - left
      invariant Enumerates(labels, found)
      decreases |left|
    {
      var c :| c in left;
      left := left - {c};
      if columns[c].usage.LABEL? {
        EnumeratesExtend(labels, found, c);
        labels := labels + [c];
        found := found + {c};
      }
    }
    assert found == LabelColumns(columns);
  }

  // thisMap is what processing these columns in some order has made.
  ghost predicate Filled(ctx: Context, columns: map<string, Column>, done: set<string>, thisMap: map<string,
                         MetricMap>) {
    && done <= columns.Keys
    && exists order :: Enumerates(order, done) && thisMap == Fill(ctx, columns, order)
  }

  lemma FillAppend(ctx: Context, columns: map<string, Column>, order: seq<string>, c: string)
    requires c in columns && forall i :: 0 <= i < |order| ==> order[i] in columns
    ensures Fill(ctx, columns, order + [c]) == Fill(ctx, columns, order) + Entries(ctx, c, columns[c])
  {
    assert (order + [c])[..|order|] == order;
  }

  lemma FillOne(ctx: Context, columns: map<string, Column>, done: set<string>, thisMap: map<string, MetricMap>,
                c: string)
    requires Filled(ctx, columns, done, thisMap) && c in columns && c !in done
    ensures Filled(ctx, columns, done + {c}, thisMap + Entries(ctx, c, columns[c]))
  {
    var order :| Enumerates(order, done) && thisMap == Fill(ctx, columns, order);
    EnumeratesExtend(order, done, c);
    FillAppend(ctx, columns, order, c);
  }

  // The second loop; its order need not be that of the first.
  method FillColumns(ctx: Context, columns: map<string, Column>) returns (thisMap: map<string, MetricMap>)
    ensures Filled(ctx, columns, columns.Keys, thisMap)
  {
    thisMap := map[];
    var left := columns.Keys;
    assert Enumerates<string>([], {}) && Fill(ctx, columns, []) == thisMap;
    TakenAll(columns.Keys);
    while left != {}
      invariant left <= columns.Keys && Filled(ctx, columns, columns.Keys - left, thisMap)
      decreases |left|
    {
      var c :| c in left;
      TakeOne(columns.Keys, left, c);
      FillOne(ctx, columns, columns.Keys - left, thisMap, c);
      left := left - {c};
      thisMap := thisMap + Entries(ctx, c, columns[c]);
    }
  }

  method CompileNamespace(v: Version, name: string, constLabels: map<string, string>, d: Declared)
    returns (r: Namespace)
    ensures Compiled(v, name, constLabels, d, r)
    ensures r.master == d.master && r.cacheSeconds == d.cacheSeconds
    ensures forall c :: c in r.labels <==> c in d.columns && d.columns[c].usage.LABEL?
  {
    var labels := CollectLabels(d.columns);
    var columns := FillColumns(Context(v, name, labels, constLabels), d.columns);
    return Namespace(labels, columns, d.master, d.cacheSeconds);
  }

  // ----- Confluence -----

  // Some histogram has a part that is also configured as a column of its own.
  ghost predicate Clashes(v: Version, columns: map<string, Column>) {
    exists h, part :: h in columns && part in columns && IsHistogram(columns[h], v) && IsPart(part, h)
  }

  // The compiled column that no order can change.
  function Settled(ctx: Context, columns: map<string, Column>, x: string): MetricMap {
    if x in columns then Own(ctx, x, columns[x]) else HISTOGRAM_PART
  }

  ghost predicate PartOfSome(v: Version, columns: map<string, Column>, names: set<string>, x: string) {
    exists h :: h in names && h in columns && IsHistogram(columns[h], v) && IsPart(x, h)
  }

  lemma {:induction false} FillAt(ctx: Context, columns: map<string, Column>, order: seq<string>, names: set<string>,
                                  x: string)
    requires !Clashes(ctx.version, columns)
    requires names <= columns.Keys && Enumerates(order, names)
    ensures x in Fill(ctx, columns, order) <==> x in names || PartOfSome(ctx.version, columns, names, x)
    ensures x in Fill(ctx, columns, order) ==> Fill(ctx, columns, order)[x] == Settled(ctx, columns, x)
    decreases |order|
  {
    if order != [] {
      var n := |order| - 1;
      var c := order[n];
      EnumeratesPrefix(order, names);
      FillAt(ctx, columns, order[..n], names - {c}, x);
      EntriesAt(ctx, c, columns[c], x);
      assert PartOfSome(ctx.version, columns, names, x) <==>
        PartOfSome(ctx.version, columns, names - {c}, x) || (IsHistogram(columns[c], ctx.version) && IsPart(x, c));
    }
  }

  ghost predicate OrderFree(ctx: Context, columns: map<string, Column>) {
    forall o1, o2 :: Enumerates(o1, columns.Keys) && Enumerates(o2, columns.Keys) ==>
      Fill(ctx, columns, o1) == Fill(ctx, columns, o2)
  }

  lemma NoClashIsOrderFree(ctx: Context, columns: map<string, Column>)
    requires !Clashes(ctx.version, columns)
    ensures OrderFree(ctx, columns)
  {
    forall o1, o2 | Enumerates(o1, columns.Keys) && Enumerates(o2, columns.Keys)
      ensures Fill(ctx, columns, o1) == Fill(ctx, columns, o2)
    {
      forall x
        ensures x in Fill(ctx, columns, o1) <==> x in Fill(ctx, columns, o2)
        ensures x in Fill(ctx, columns, o1) ==> Fill(ctx, columns, o1)[x] == Fill(ctx, columns, o2)[x]
      {
        FillAt(ctx, columns, o1, columns.Keys, x);
        FillAt(ctx, columns, o2, columns.Keys, x);
      }
    }
  }

  lemma {:induction false} AnOrder(keys: set<string>) returns (order: seq<string>)
    ensures Enumerates(order, keys)
    decreases |keys|
  {
    if keys == {} {
      order := [];
    } else {
      var k :| k in keys;
      order := AnOrder(keys - {k});
      EnumeratesExtend(order, keys - {k}, k);
      assert keys - {k} + {k} == keys;
      order := order + [k];
    }
  }

  // An order that ends in two given keys.
  lemma OrderEndingIn(keys: set<string>, a: string, b: string) returns (order: seq<string>)
    requires a in keys && b in keys && a != b
    ensures Enumerates(order, keys) && |order| >= 2
    ensures order[|order| - 2] == a && order[|order| - 1] == b
  {
    var rest := AnOrder(keys - {a, b});
    EnumeratesExtend(rest, keys - {a, b}, a);
    EnumeratesExtend(rest + [a], keys - {a, b} + {a}, b);
    assert keys - {a, b} + {a} + {b} == keys;
    order := rest + [a] + [b];
  }

  lemma LastTwo(ctx: Context, columns: map<string, Column>, order: seq<string>, a: string, b: string, x: string)
    requires Enumerates(order, columns.Keys) && |order| >= 2
    requires order[|order| - 2] == a && order[|order| - 1] == b
    requires x in Entries(ctx, a, columns[a]) && x in Entries(ctx, b, columns[b])
    ensures x in Fill(ctx, columns, order) && Fill(ctx, columns, order)[x] == Entries(ctx, b, columns[b])[x]
  {
  }

  // A clash shows: whichever of the two columns is processed last decides.
  lemma ClashIsOrderBound(ctx: Context, columns: map<string, Column>, h: string, part: string)
    requires h in columns && part in columns && IsHistogram(columns[h], ctx.version) && IsPart(part, h)
    ensures !OrderFree(ctx, columns)
  {
    EntriesAt(ctx, h, columns[h], part);
    EntriesAt(ctx, part, columns[part], part);
    assert part != h by { assert |part| != |h|; }
    var o1 := OrderEndingIn(columns.Keys, h, part);
    var o2 := OrderEndingIn(columns.Keys, part, h);
    LastTwo(ctx, columns, o1, h, part, part);
    LastTwo(ctx, columns, o2, part, h, part);
    assert Own(ctx, part, columns[part]) != HISTOGRAM_PART;
  }

  // The exact condition for the compiled columns not to depend on the iteration order.
  lemma OrderFreeExactly(ctx: Context, columns: map<string, Column>)
    ensures OrderFree(ctx, columns) <==> !Clashes(ctx.version, columns)
  {
    if Clashes(ctx.version, columns) {
      var h, part :| h in columns && part in columns && IsHistogram(columns[h], ctx.version) && IsPart(part, h);
      ClashIsOrderBound(ctx, columns, h, part);
    } else {
      NoClashIsOrderFree(ctx, columns);
    }
  }

  // ----- Up to one permutation of the labels per namespace -----

  function Relabel(m: MetricMap, labels: seq<string>): MetricMap {
    if m.desc.Some? then m.(desc := Some(m.desc.value.(variableLabels := labels))) else m
  }

  function RelabelAll(columns: map<string, MetricMap>, labels: seq<string>): map<string, MetricMap> {
    map x | x in columns :: Relabel(columns[x], labels)
  }

  ghost predicate SameUpToLabels(r1: Namespace, r2: Namespace) {
    && multiset(r1.labels) == multiset(r2.labels)
    && r2 == Namespace(r2.labels, RelabelAll(r1.columns, r2.labels), r1.master, r1.cacheSeconds)
  }

  lemma RelabelEntries(c1: Context, c2: Context, name: string, col: Column)
    requires c2 == c1.(labels := c2.labels)
    ensures Entries(c2, name, col) == RelabelAll(Entries(c1, name, col), c2.labels)
  {
    forall x
      ensures x in Entries(c1, name, col) <==> x in Entries(c2, name, col)
      ensures x in Entries(c1, name, col) ==> Entries(c2, name, col)[x] == Relabel(Entries(c1, name, col)[x], c2.labels)
    {
      EntriesAt(c1, name, col, x);
      EntriesAt(c2, name, col, x);
    }
  }

  lemma RelabelUnion(a: map<string, MetricMap>, b: map<string, MetricMap>, labels: seq<string>)
    ensures RelabelAll(a + b, labels) == RelabelAll(a, labels) + RelabelAll(b, labels)
  {
  }

  lemma {:induction false} RelabelFill(c1: Context, c2: Context, columns: map<string, Column>, order: seq<string>)
    requires forall i :: 0 <= i < |order| ==> order[i] in columns
    requires c2 == c1.(labels := c2.labels)
    ensures Fill(c2, columns, order) == RelabelAll(Fill(c1, columns, order), c2.labels)
    decreases |order|
  {
    if order != [] {
      var n := |order| - 1;
      var c := order[n];
      RelabelFill(c1, c2, columns, order[..n]);
      RelabelEntries(c1, c2, c, columns[c]);
      RelabelUnion(Fill(c1, columns, order[..n]), Entries(c1, c, columns[c]), c2.labels);
    }
  }

  lemma {:induction false} SameElements(a: seq<string>, b: seq<string>, keys: set<string>)
    requires Enumerates(a, keys) && Enumerates(b, keys)
    ensures multiset(a) == multiset(b)
    decreases |a|
  {
    OnceEach(a, keys);
    OnceEach(b, keys);
  }

  lemma {:induction false} OnceEach(a: seq<string>, keys: set<string>)
    requires Enumerates(a, keys)
    ensures multiset(a) == multiset(keys)
    decreases |a|
  {
    if a == [] {
      assert keys == {};
    } else {
      var n := |a| - 1;
      EnumeratesPrefix(a, keys);
      OnceEach(a[..n], keys - {a[n]});
      assert a == a[..n] + [a[n]];
      assert multiset(keys) == multiset(keys - {a[n]}) + multiset{a[n]};
    }
  }

  lemma CompiledAgree(v: Version, name: string, constLabels: map<string, string>, d: Declared, r1: Namespace,
                      r2: Namespace)
    requires !Clashes(v, d.columns)
    requires Compiled(v, name, constLabels, d, r1) && Compiled(v, name, constLabels, d, r2)
    ensures SameUpToLabels(r1, r2)
  {
    var c1, c2 := Context(v, name, r1.labels, constLabels), Context(v, name, r2.labels, constLabels);
    var o1 :| Enumerates(o1, d.columns.Keys) && r1.columns == Fill(c1, d.columns, o1);
    var o2 :| Enumerates(o2, d.columns.Keys) && r2.columns == Fill(c2, d.columns, o2);
    SameElements(r1.labels, r2.labels, LabelColumns(d.columns));
    NoClashIsOrderFree(c2, d.columns);
    RelabelFill(c1, c2, d.columns, o1);
  }

  // ----- All namespaces -----

  // strings.Replace(s, "pg", prefix, 1)
  function Rename(s: string, prefix: string): string {
    if s == "" then ""
    else if "pg" <= s then prefix + s[2..]
    else [s[0]] + Rename(s[1..], prefix)
  }

  lemma {:induction false} DefaultPrefixKeepsNames(s: string)
    ensures Rename(s, "pg") == s
    decreases |s|
  {
    if s != "" && !("pg" <= s) {
      DefaultPrefixKeepsNames(s[1..]);
    }
  }

  type Declarations = map<string, Declared>

  // What makeDescMap is called with besides the declarations.
  datatype Setup = Setup(version: Version, constLabels: map<string, string>, prefix: string)

  ghost predicate CompiledAs(s: Setup, ns: string, d: Declared, r: Namespace) {
    Compiled(s.version, Rename(ns, s.prefix), s.constLabels, d, r)
  }

  // Every one of these namespaces compiled by itself.
  ghost predicate AllCompiled(s: Setup, declared: Declarations, names: set<string>, results: MetricMaps) {
    && results.Keys == names <= declared.Keys
    && forall ns :: ns in names ==> CompiledAs(s, ns, declared[ns], results[ns])
  }

  // Filing the results under their renamed keys, in a given order; later ones win.
  function Filed(results: MetricMaps, prefix: string, order: seq<string>): MetricMaps
    requires forall i :: 0 <= i < |order| ==> order[i] in results
  {
    if order == [] then map[]
    else
      var ns := order[|order| - 1];
      Filed(results, prefix, order[..|order| - 1])[Rename(ns, prefix) := results[ns]]
  }

  ghost predicate MadeBy(s: Setup, declared: Declarations, names: set<string>, m: MetricMaps, order: seq<string>,
                         results: MetricMaps) {
    Enumerates(order, names) && AllCompiled(s, declared, names, results) && m == Filed(results, s.prefix, order)
  }

  // m is what the loop may have made of some of the namespaces.
  ghost predicate MadeOf(s: Setup, declared: Declarations, names: set<string>, m: MetricMaps) {
    exists order, results :: MadeBy(s, declared, names, m, order, results)
  }

  // m is what makeDescMap may return.
  ghost predicate IsDescMap(s: Setup, declared: Declarations, m: MetricMaps) {
    MadeOf(s, declared, declared.Keys, m)
  }

  lemma FiledAppend(results: MetricMaps, prefix: string, order: seq<string>, ns: string)
    requires ns in results && forall i :: 0 <= i < |order| ==> order[i] in results
    ensures Filed(results, prefix, order + [ns]) == Filed(results, prefix, order)[Rename(ns, prefix) := results[ns]]
  {
    assert (order + [ns])[..|order|] == order;
  }

  lemma CompileOneMore(s: Setup, declared: Declarations, names: set<string>, results: MetricMaps, ns: string,
                       r: Namespace)
    requires AllCompiled(s, declared, names, results)
    requires ns in declared && ns !in names && CompiledAs(s, ns, declared[ns], r)
    ensures AllCompiled(s, declared, names + {ns}, results[ns := r])
  {
  }

  lemma FileLast(results: MetricMaps, prefix: string, order: seq<string>, ns: string, r: Namespace)
    requires ns !in results && forall i :: 0 <= i < |order| ==> order[i] in results
    ensures Filed(results[ns := r], prefix, order + [ns]) == Filed(results, prefix, order)[Rename(ns, prefix) := r]
  {
    OthersFiledAlike(results, results[ns := r], prefix, order);
    FiledAppend(results[ns := r], prefix, order, ns);
  }

  lemma Witness(s: Setup, declared: Declarations, names: set<string>, m: MetricMaps, order: seq<string>,
                results: MetricMaps)
    requires Enumerates(order, names) && AllCompiled(s, declared, names, results)
    requires m == Filed(results, s.prefix, order)
    ensures MadeOf(s, declared, names, m)
  {
    assert MadeBy(s, declared, names, m, order, results);
  }

  // One more namespace, filed last.
  lemma FileOne(s: Setup, declared: Declarations, names: set<string>, m: MetricMaps, ns: string, r: Namespace)
    requires MadeOf(s, declared, names, m) && ns in declared && ns !in names && CompiledAs(s, ns, declared[ns], r)
    ensures MadeOf(s, declared, names + {ns}, m[Rename(ns, s.prefix) := r])
  {
    var order, results :| MadeBy(s, declared, names, m, order, results);
    EnumeratesExtend(order, names, ns);
    CompileOneMore(s, declared, names, results, ns, r);
    FileLast(results, s.prefix, order, ns, r);
    Witness(s, declared, names + {ns}, m[Rename(ns, s.prefix) := r], order + [ns], results[ns := r]);
  }

  lemma {:induction false} OthersFiledAlike(a: MetricMaps, b: MetricMaps, prefix: string, order: seq<string>)
    requires forall i :: 0 <= i < |order| ==> order[i] in a && order[i] in b && a[order[i]] == b[order[i]]
    ensures Filed(a, prefix, order) == Filed(b, prefix, order)
    decreases |order|
  {
    if order != [] {
      OthersFiledAlike(a, b, prefix, order[..|order| - 1]);
    }
  }

  // One iteration of the loop over the namespaces.
  method AddNamespace(s: Setup, declared: Declarations, ghost done: set<string>, m: MetricMaps, ns: string)
    returns (more: MetricMaps)
    requires MadeOf(s, declared, done, m) && ns in declared && ns !in done
    ensures MadeOf(s, declared, done + {ns}, more)
  {
    var name := Rename(ns, s.prefix);
    var r := CompileNamespace(s.version, name, s.constLabels, declared[ns]);
    FileOne(s, declared, done, m, ns, r);
    return m[name := r];
  }

  method MakeDescMap(s: Setup, declared: Declarations) returns (m: MetricMaps)
    ensures IsDescMap(s, declared, m)
  {
    m := map[];
    var left := declared.Keys;
    Witness(s, declared, {}, m, [], map[]);
    TakenAll(declared.Keys);
    while left != {}
      invariant left <= declared.Keys && MadeOf(s, declared, declared.Keys - left, m)
      decreases |left|
    {
      var ns :| ns in left;
      TakeOne(declared.Keys, left, ns);
      m := AddNamespace(s, declared, declared.Keys - left, m, ns);
      left := left - {ns};
    }
  }

  // ----- Prefixes that keep the namespaces apart -----

  // What a caller can check of a prefix.
  ghost predicate KeepsApart(prefix: string, names: set<string>) {
    forall a, b :: a in names && b in names && Rename(a, prefix) == Rename(b, prefix) ==> a == b
  }

  lemma DefaultKeepsApart(names: set<string>)
    ensures KeepsApart("pg", names)
  {
    forall a, b | a in names && b in names && Rename(a, "pg") == Rename(b, "pg")
      ensures a == b
    {
      DefaultPrefixKeepsNames(a);
      DefaultPrefixKeepsNames(b);
    }
  }

  // Every filed name is that of a namespace, and every namespace has its name filed.
  lemma {:induction false} FiledAt(results: MetricMaps, prefix: string, order: seq<string>, name: string)
    requires forall i :: 0 <= i < |order| ==> order[i] in results
    ensures name in Filed(results, prefix, order) ==>
      exists ns :: ns in order && Rename(ns, prefix) == name && Filed(results, prefix, order)[name] == results[ns]
    ensures forall ns :: ns in order && Rename(ns, prefix) == name ==> name in Filed(results, prefix, order)
    decreases |order|
  {
    if order != [] {
      var n := |order| - 1;
      FiledAt(results, prefix, order[..n], name);
      assert order == order[..n] + [order[n]];
    }
  }

  // A map under which some name belongs to no namespace does not arise, whatever the prefix.
  lemma NamesAreRenamed(s: Setup, declared: Declarations, m: MetricMaps, name: string)
    requires IsDescMap(s, declared, m)
    ensures name in m <==> exists ns :: ns in declared && Rename(ns, s.prefix) == name
  {
    var order, results :| MadeBy(s, declared, declared.Keys, m, order, results);
    FiledAt(results, s.prefix, order, name);
  }

  // With the namespaces kept apart, each is compiled from its own declaration.
  lemma OwnDeclaration(s: Setup, declared: Declarations, m: MetricMaps, ns: string)
    requires IsDescMap(s, declared, m) && KeepsApart(s.prefix, declared.Keys) && ns in declared
    ensures Rename(ns, s.prefix) in m && CompiledAs(s, ns, declared[ns], m[Rename(ns, s.prefix)])
  {
    var order, results :| MadeBy(s, declared, declared.Keys, m, order, results);
    FiledAt(results, s.prefix, order, Rename(ns, s.prefix));
  }

  // With the default prefix every name is kept too.
  lemma DefaultPrefix(s: Setup, declared: Declarations, m: MetricMaps, ns: string)
    requires IsDescMap(s, declared, m) && s.prefix == "pg"
    ensures ns in m <==> ns in declared
    ensures ns in m ==> Compiled(s.version, ns, s.constLabels, declared[ns], m[ns])
  {
    DefaultPrefixKeepsNames(ns);
    DefaultKeepsApart(declared.Keys);
    NamesAreRenamed(s, declared, m, ns);
    if ns in declared {
      OwnDeclaration(s, declared, m, ns);
    }
    if other :| other in declared && Rename(other, "pg") == ns {
      DefaultPrefixKeepsNames(other);
    }
  }

  // Two compilations of the same tables hold the same names, and with the namespaces kept apart a
  // namespace without clash differs at most by one permutation of its labels.
  lemma Confluence(s: Setup, declared: Declarations, m1: MetricMaps, m2: MetricMaps)
    requires IsDescMap(s, declared, m1) && IsDescMap(s, declared, m2)
    ensures m1.Keys == m2.Keys
    ensures forall ns ::
      KeepsApart(s.prefix, declared.Keys) && ns in declared && !Clashes(s.version, declared[ns].columns) ==>
      Rename(ns, s.prefix) in m1 && Rename(ns, s.prefix) in m2
      && SameUpToLabels(m1[Rename(ns, s.prefix)], m2[Rename(ns, s.prefix)])
  {
    forall name: string
      ensures name in m1 <==> name in m2
    {
      NamesAreRenamed(s, declared, m1, name);
      NamesAreRenamed(s, declared, m2, name);
    }
    forall ns | KeepsApart(s.prefix, declared.Keys) && ns in declared && !Clashes(s.version, declared[ns].columns)
      ensures Rename(ns, s.prefix) in m1 && Rename(ns, s.prefix) in m2
      ensures SameUpToLabels(m1[Rename(ns, s.prefix)], m2[Rename(ns, s.prefix)])
    {
      OwnDeclaration(s, declared, m1, ns);
      OwnDeclaration(s, declared, m2, ns);
      var name := Rename(ns, s.prefix);
      CompiledAgree(s.version, name, s.constLabels, declared[ns], m1[name], m2[name]);
    }
  }

  // ----- Prefixes that do not -----

  lemma ACompilation(v: Version, name: string, constLabels: map<string, string>, d: Declared) returns (r: Namespace)
    ensures Compiled(v, name, constLabels, d, r)
  {
    var labels := AnOrder(LabelColumns(d.columns));
    var order := AnOrder(d.columns.Keys);
    r := Namespace(labels, Fill(Context(v, name, labels, constLabels), d.columns, order), d.master, d.cacheSeconds);
  }

  lemma {:induction false} AllCompilations(s: Setup, declared: Declarations, names: set<string>)
    returns (results: MetricMaps)
    requires names <= declared.Keys
    ensures results.Keys == names
    ensures forall ns :: ns in names ==> CompiledAs(s, ns, declared[ns], results[ns])
    decreases |names|
  {
    if names == {} {
      results := map[];
    } else {
      var ns :| ns in names;
      var rest := AllCompilations(s, declared, names - {ns});
      var r := ACompilation(s.version, Rename(ns, s.prefix), s.constLabels, declared[ns]);
      results := rest[ns := r];
    }
  }

  // An order that ends in a given key.
  lemma OrderEndingWith(keys: set<string>, a: string) returns (order: seq<string>)
    requires a in keys
    ensures Enumerates(order, keys) && order != [] && order[|order| - 1] == a
  {
    var rest := AnOrder(keys - {a});
    EnumeratesExtend(rest, keys - {a}, a);
    assert keys - {a} + {a} == keys;
    order := rest + [a];
  }

  // Whatever else is declared, a namespace may be filed last, and then owns its name.
  lemma AnyoneMayOwnTheName(s: Setup, declared: Declarations, a: string) returns (m: MetricMaps)
    requires a in declared
    ensures IsDescMap(s, declared, m)
    ensures Rename(a, s.prefix) in m && CompiledAs(s, a, declared[a], m[Rename(a, s.prefix)])
  {
    var results := AllCompilations(s, declared, declared.Keys);
    var order := OrderEndingWith(declared.Keys, a);
    m := Filed(results, s.prefix, order);
    assert MadeBy(s, declared, declared.Keys, m, order, results);
  }

  // Two namespaces with one name: either declaration may end up under it.
  lemma CollisionIsOpen(s: Setup, declared: Declarations, a: string, b: string) returns (ma: MetricMaps, mb: MetricMaps)
    requires a in declared && b in declared && Rename(a, s.prefix) == Rename(b, s.prefix)
    ensures IsDescMap(s, declared, ma) && IsDescMap(s, declared, mb)
    ensures var name := Rename(a, s.prefix);
            && name in ma && CompiledAs(s, a, declared[a], ma[name])
            && name in mb && CompiledAs(s, b, declared[b], mb[name])
  {
    ma := AnyoneMayOwnTheName(s, declared, a);
    mb := AnyoneMayOwnTheName(s, declared, b);
  }

  // Every result has every namespace compiled from its own declaration, whatever is declared.
  ghost predicate Faithful(s: Setup, names: set<string>) {
    forall declared: Declarations, m, ns :: declared.Keys == names && IsDescMap(s, declared, m) && ns in declared ==>
      Rename(ns, s.prefix) in m && CompiledAs(s, ns, declared[ns], m[Rename(ns, s.prefix)])
  }

  lemma ApartIsFaithful(s: Setup, names: set<string>)
    requires KeepsApart(s.prefix, names)
    ensures Faithful(s, names)
  {
    forall declared: Declarations, m, ns | declared.Keys == names && IsDescMap(s, declared, m) && ns in declared
      ensures Rename(ns, s.prefix) in m && CompiledAs(s, ns, declared[ns], m[Rename(ns, s.prefix)])
    {
      OwnDeclaration(s, declared, m, ns);
    }
  }

  lemma CollisionIsUnfaithful(s: Setup, names: set<string>, a: string, b: string)
    requires a in names && b in names && Rename(a, s.prefix) == Rename(b, s.prefix) && a != b
    ensures !Faithful(s, names)
  {
    var declared := map ns | ns in names :: Declared(map[], ns == a, 0);
    assert declared.Keys == names;
    var m := AnyoneMayOwnTheName(s, declared, a);
    assert m[Rename(b, s.prefix)].master && !declared[b].master;
  }

  // The exact condition on a prefix and a set of namespaces.
  lemma FaithfulExactly(s: Setup, names: set<string>)
    ensures Faithful(s, names) <==> KeepsApart(s.prefix, names)
  {
    if KeepsApart(s.prefix, names) {
      ApartIsFaithful(s, names);
    } else {
      var a, b :| a in names && b in names && Rename(a, s.prefix) == Rename(b, s.prefix) && a != b;
      CollisionIsUnfaithful(s, names, a, b);
    }
  }

  // ----- Version gates -----

  lemma OwnEntry(v: Version, name: string, constLabels: map<string, string>, d: Declared, r: Namespace, x: string)
    requires Compiled(v, name, constLabels, d, r) && !Clashes(v, d.columns) && x in d.columns
    ensures x in r.columns && r.columns[x] == Own(Context(v, name, r.labels, constLabels), x, d.columns[x])
  {
    var ctx := Context(v, name, r.labels, constLabels);
    var order :| Enumerates(order, d.columns.Keys) && r.columns == Fill(ctx, d.columns, order);
    FillAt(ctx, d.columns, order, d.columns.Keys, x);
  }

  // Where no order matters, a declared column is dropped exactly when its version range or its
  // usage says so.
  lemma DroppedExactly(v: Version, name: string, constLabels: map<string, string>, d: Declared, r: Namespace, x: string)
    requires Compiled(v, name, constLabels, d, r) && !Clashes(v, d.columns) && x in d.columns
    ensures x in r.columns
    ensures var col := d.columns[x];
            r.columns[x].discard
            <==> (col.supported.Some? && !Contains(col.supported.value, v)) || col.usage.DISCARD? || col.usage.LABEL?
  {
    OwnEntry(v, name, constLabels, d, r, x);
  }

  // ----- What a column is compiled to -----

  // The column is used: its version range and its usage let it through.
  ghost predicate IsUsed(v: Version, col: Column) {
    && (col.supported.Some? ==> Contains(col.supported.value, v))
    && !col.usage.DISCARD? && !col.usage.LABEL?
  }

  // Where no order matters, a used column has a value type by its usage, and a descriptor named
  // after the namespace and the column, with the declared description and the constant labels.
  lemma UsedColumn(v: Version, name: string, constLabels: map<string, string>, d: Declared, r: Namespace, x: string)
    requires Compiled(v, name, constLabels, d, r) && !Clashes(v, d.columns) && x in d.columns && IsUsed(v, d.columns[x])
    ensures x in r.columns && !r.columns[x].discard && r.columns[x].vtype.Some? && r.columns[x].desc.Some?
    ensures var usage, vtype := d.columns[x].usage, r.columns[x].vtype.value;
            && (vtype.CounterValue? <==> usage.COUNTER?)
            && (vtype.UntypedValue? <==> usage.HISTOGRAM?)
            && (vtype.GaugeValue? <==> usage.GAUGE? || usage.MAPPEDMETRIC? || usage.DURATION?)
            && (r.columns[x].histogram <==> usage.HISTOGRAM?)
    ensures var desc := r.columns[x].desc.value;
            && desc.name == name + "_" + x + (if d.columns[x].usage.DURATION? then "_milliseconds" else "")
            && desc.help == d.columns[x].description
            && desc.variableLabels == r.labels && desc.constLabels == constLabels
  {
    OwnEntry(v, name, constLabels, d, r, x);
    assert name + "_" + (x + "_milliseconds") == name + "_" + x + "_milliseconds";
    assert name + "_" + x + "" == name + "_" + x;
  }

  // The columns there are: the declared ones, and the three parts of every used histogram, which
  // are discarded unless they are configured themselves.
  lemma CompiledColumns(v: Version, name: string, constLabels: map<string, string>, d: Declared, r: Namespace,
                        x: string)
    requires Compiled(v, name, constLabels, d, r) && !Clashes(v, d.columns)
    ensures x in r.columns <==> x in d.columns || exists h :: h in d.columns && IsPartOfUsed(v, d.columns[h], h, x)
    ensures x in r.columns && x !in d.columns ==> r.columns[x].discard && r.columns[x].histogram
  {
    var ctx := Context(v, name, r.labels, constLabels);
    var order :| Enumerates(order, d.columns.Keys) && r.columns == Fill(ctx, d.columns, order);
    FillAt(ctx, d.columns, order, d.columns.Keys, x);
    if PartOfSome(v, d.columns, d.columns.Keys, x) {
      var h :| h in d.columns && IsHistogram(d.columns[h], v) && IsPart(x, h);
      assert IsPartOfUsed(v, d.columns[h], h, x);
    }
    if h :| h in d.columns && IsPartOfUsed(v, d.columns[h], h, x) {
      assert IsHistogram(d.columns[h], v) && IsPart(x, h);
    }
  }

  ghost predicate IsPartOfUsed(v: Version, col: Column, h: string, x: string) {
    IsUsed(v, col) && col.usage.HISTOGRAM? && (x == h + "_bucket" || x == h + "_sum" || x == h + "_count")
  }

  // ----- What renaming does -----

  ghost predicate Occurs(part: string, s: string, i: int) { 0 <= i <= |s| && part <= s[i..] }

  // The first "pg" is replaced, and nothing else.
  lemma {:induction false} RenameReplacesFirst(front: string, rest: string, prefix: string)
    requires forall i :: 0 <= i < |front| ==> !Occurs("pg", front + "pg" + rest, i)
    ensures Rename(front + "pg" + rest, prefix) == front + prefix + rest
    decreases |front|
  {
    var s := front + "pg" + rest;
    if front == "" {
      assert s == "pg" + rest && s[2..] == rest;
      assert front + prefix + rest == prefix + rest;
    } else {
      assert s[1..] == front[1..] + "pg" + rest && !Occurs("pg", s, 0) && s[0..] == s;
      forall i | 0 <= i < |front[1..]|
        ensures !Occurs("pg", front[1..] + "pg" + rest, i)
      {
        assert !Occurs("pg", s, i + 1) && s[1..][i..] == s[i + 1..];
      }
      RenameReplacesFirst(front[1..], rest, prefix);
      assert [front[0]] + (front[1..] + prefix + rest) == front + prefix + rest;
    }
  }

  lemma {:induction false} RenameLeavesOthers(s: string, prefix: string)
    requires forall i :: 0 <= i <= |s| ==> !Occurs("pg", s, i)
    ensures Rename(s, prefix) == s
    decreases |s|
  {
    if s != "" {
      assert !Occurs("pg", s, 0) && s[0..] == s;
      forall i | 0 <= i <= |s[1..]|
        ensures !Occurs("pg", s[1..], i)
      {
        assert !Occurs("pg", s, i + 1) && s[1..][i..] == s[i + 1..];
      }
      RenameLeavesOthers(s[1..], prefix);
    }
  }
}
