# Verified model of the postgres exporter

A Dafny 4.11 model of the parts of the exporter that hold state, run concurrently or parse text:

- the legacy scrape engine: version-dependent tables behind a read-write lock, the row loop, the
  time-based metric cache under overlapping scrapes, the connection pool;
- the collector runner: a fork-join over one channel, and the memo of initiated collectors;
- the text formats: key=value connection strings, constant labels, `pg_settings` values.

`dafny verify dfyconfig.toml` checks the whole project.

| file | content |
|---|---|
| `Prelude.dfy`, `Runes.dfy`, `Metrics.dfy` | result types, enumerations of map keys, rune classes, metrics and compiled tables |
| `DsnParser.dfy`, `DsnRoundTrip.dfy` | the rune automaton, what it makes of printed pairs |
| `DsnQuotes.dfy`, `DsnOddValues.dfy` | quotation marks inside values, and values that the parser takes apart |
| `DsnTarget.dfy` | DSNs and auth modules |
| `DsnRedaction.dfy`, `DsnJoinedKeys.dfy`, `DsnOddRedaction.dfy`, `DsnTailRedaction.dfy` | what `DSN.String` gives away of passwords |
| `Versions.dfy`, `Tables.dfy`, `ReplicationTable.dfy`, `UserQueries.dfy` | query overrides, table compilation, one built-in table, user overlay |
| `RowLoop.dfy` | choosing the query, rows to metrics |
| `ScrapeCache.dfy`, `ConcurrentScrapes.dfy` | the cache in sequential runs, and in every interleaving |
| `SeparateScrapes.dfy`, `ScrapeRuns.dfy` | what overlap does to the cache and to the rate of queries, and runs that show the bounds are tight |
| `MapCoherence.dfy`, `Rebuilds.dfy` | version checks, rebuilds and scrapes under the lock; the cache across rebuilds |
| `Engine.dfy` | tables, row loop and cache put together |
| `ForkJoin.dfy`, `Registry.dfy` | `Collect`/`execute`, `NewPostgresCollector` |
| `ConnectionPool.dfy` | `GetServer`, `Ping`, `Close` |
| `ConstLabels.dfy`, `Settings.dfy` | constant labels, setting units |

## How to read it

A loop of the source is a method with a loop, proved equal to a specification function; what the
source promises is proved of that function. Go visits map keys in an arbitrary order: such a loop
picks any remaining key, and its contract holds for every order. Goroutines are steps over a shared
state, and the theorems quantify over every run. Each field access under a lock is a step of its own.

What the model cannot see is a parameter and therefore arbitrary: URL parsing and query encoding,
decoding of the user file, driver conversions, float parsing, query results and failures, factories,
pings, clocks.
Times are integers in nanoseconds; sample values are reals.

Where the code does not do what its comments or a first reading suggest, the model follows the code:

- Two separator runes after a pair store its key again with an empty value, leading whitespace in a
  quoted value is lost, an empty value at the end is dropped, and a bare word at the end replaces the
  value of the previous key. `RoundTripExactly` and `LastWinsExactly` give the exact conditions for a
  printed list to come back, `BareWordOverwrites` the last case.
- Quotation marks do not protect an equals sign: `key="a=b"` reads as the item `(a, b)`
  (`EqualsRenames`). A value with an odd number of quotation marks is joined with the separator and the
  next key to one long key (`OddQuotesJoin`).
- `DSN.String`, whose comment promises to exclude any passwords, hides the password field only. For
  printed lists whose other values are clean, and any module laid over them:
  - a password without equals sign, with balanced quotation marks, of which something is kept, stays
    hidden (`Redaction`, which allows any values behind the last password);
  - the rest `b` of a password `a=b` with clean sides stays hidden if and only if a second separator rune
    drops it, or `a` is `password`, or a later item of key `a` or the module replaces it
    (`HiddenExactly`);
  - a password without equals sign, with an odd number of quotation marks, of which something is kept,
    shows no more than whether a password is set if and only if the joined key is not stored: no item
    follows, or the first one that does has no whitespace in its value and either a value and a
    successor or neither value nor separator (`HiddenOddExactly`);
  - for any front that the parser can read, equals signs and quotation marks included, a plain ending of
    the password stays hidden exactly under a condition that is read off the front (`HiddenEndExactly`);
  - module options may put a `password` key into the query, exactly when they name it
    (`CredentialInQueryOnlyFromOptions`).
- `makeDescMap` depends on the iteration order exactly when a supported HISTOGRAM column has one of its
  `_bucket`, `_sum` or `_count` columns configured as well (`OrderFreeExactly`).
- A LABEL column that the result lacks reads column 0, and an unsupported LABEL column stays a label
  (`LabelPairing`, `CollectLabels`). With no result columns at all this is an out-of-range index.
- A metric prefix other than `pg` renames a user namespace but not its query: the renamed namespace has
  the user's columns and runs something else (`PrefixedNamespaceRunsItsSql`). A whole file runs as
  written if and only if the prefix renames none of its namespaces (`FileRunsAsWritten`). A prefix may
  also give two namespaces one name; each is sure to be compiled from its own declaration if and only if
  the prefix keeps the names apart (`FaithfulExactly`).
- The rate bound is about scrape starts, because `lastScrape` is the start of the scrape. The queries
  themselves may begin closer together by the delay of the earlier one, even when scrapes do not overlap
  (`QueriesAreSpaced`, `TwoScrapes`): spacing above `cacheSeconds` is guaranteed if and only if the
  earlier query begins at its scrape's start (`GuaranteedExactly`).
- Overlapping scrapes may all query one namespace (`ManyQueries`). Within `cacheSeconds` at most one real
  query more is made than by scrapes that overlap another (`WindowBound`).
- `lastScrape` goes back exactly when a scrape stores over the entry of one that began while it was under
  way, at a later time (`GoesBackExactly`, `LastScrapeCanGoBack`), which takes overlapping scrapes
  (`NeverBackWithoutOverlap`).
- A rebuild of the tables leaves the cache alone, so a scrape may emit metrics of the tables before: up
  to `cacheSeconds` after the rebuild, and no longer (`OldMetricsExactly`, `MayEmitOldExactly`).
- `sanitizeValue` removes the unit and one more byte, so one spelling per unit works
  (`SurvivesExactly`); a setting that is just a unit is an out-of-range slice.

## Model

| member | source | states |
|---|---|---|
| DsnParser.ParseKeyValue | config/dsn.go:181-238 | the loop over the runes gives the run of the automaton, errors included |
| DsnParser.ParseBound | config/dsn.go:181-238 | for every input that parses: keys are nonempty, no key or value holds `=` or a quotation mark, and the entries with one separator each are no longer than the input |
| DsnRoundTrip.ParsePrinted | config/dsn.go:181-238 | the exact map parsed from any printed list of `key="value"` items with arbitrary whitespace separators, empty and padded values included |
| DsnRoundTrip.BareWordOverwrites | config/dsn.go:227-235 | a bare word after the last item becomes the value of that item's key |
| DsnRoundTrip.RoundTrip | config/dsn.go:181-238 | lists of any length, duplicate keys included, come back as their last-wins map |
| DsnRoundTrip.RoundTripExactly | config/dsn.go:189-235 | with distinct keys and values of any content, a list comes back if and only if every item survives: a clean value that starts with no whitespace and has at most one separator rune, or an empty value followed by a separator |
| DsnRoundTrip.LastWinsExactly | config/dsn.go:189-235 | with clean values and any keys, a list comes back as its last-wins map if and only if every item that decides a key is stored unchanged, or is an empty value at the very end behind an item of that key stored empty |
| DsnOddValues.EqualsRenames | config/dsn.go:219-226 | a list with a value `a=b`, both sides clean, parses as if it held the item `(a, b)` instead, after an empty one of the key where `a` starts with whitespace |
| DsnOddValues.BlankBeforeEquals | config/dsn.go:219-226 | with nothing but whitespace before the equals sign the list does not parse |
| DsnOddValues.OddQuotesJoin | config/dsn.go:189-235 | a value without equals sign and with an odd number of quotation marks, followed by one plain item, becomes one key with the separator and the next key |
| DsnQuotes.CleanIsCalm | config/dsn.go:189-206 | values without equals sign and quotation mark are calm, and all but their leading whitespace is kept |
| DsnQuotes.OneRune | config/dsn.go:189-219 | for every rune: the 30 quotation marks vanish, the 25 white-space runes end a value, a second equals sign is an error, and any other rune is kept |
| DsnQuotes.AnyQuotesRoundTrip | config/dsn.go:189-194 | surviving lists come back as their last-wins map under any quotation marks, single ones included, and the opening and closing ones need not match |
| DsnTarget.MatcherIsExact | config/dsn.go:127-130 | the hand-written matcher accepts exactly the strings that the regular expression splits |
| DsnTarget.OneRuneKey | config/dsn.go:127-130 | for every rune: a key of the first pair is made of ASCII letters and digits |
| DsnTarget.OneRuneInFront | config/dsn.go:127-130 | nothing but spaces may stand in front of it |
| DsnTarget.BuildDsn | config/dsn.go:140-175 | for every iteration order of the pairs: known keys fill fields, a missing host is localhost, a nonempty port is appended, all other keys form the query |
| DsnTarget.DsnFromKeyValue | config/dsn.go:125-176 | the guard, the parse error and the built DSN |
| DsnTarget.DsnRoundTripHolds | config/dsn.go:67-85 | a printed list takes the key-value path and gives the DSN of its last-wins map |
| DsnTarget.CredentialsNeverInQuery | config/dsn.go:96-161 | whatever the input and the form it takes, the query holds no `user` and no `password` |
| DsnTarget.SetAll | config/config.go:115-117 | for every order of the options, exactly they are set over the query |
| DsnTarget.ConfigureTarget | config/config.go:98-120 | a parse error is returned; otherwise nonempty module credentials and all options overlay the DSN |
| DsnTarget.PairsTarget | config/dsn.go:125-176 | every target that starts like pairs and parses as such: the four known keys fill the fields, a missing host is localhost, a port is appended, all other keys are the query, and the module is laid over |
| DsnTarget.URLTarget | config/dsn.go:88-123 | every target that is a URL: scheme, host and path are those of the URL, a credential is that of the module, else of the authority, else of the query, the query loses both credentials, and the options win over the rest; a URL that does not parse is an error |
| DsnTarget.OtherTarget | config/dsn.go:67-85 | every other target is read as a URL behind `postgresql://`, or is an error |
| DsnTarget.PrintedForm | config/dsn.go:36-46 | the text names user, host, path and query, and of the password only whether there is one |
| DsnTarget.CredentialInQueryOnlyFromOptions | config/config.go:104-117 | after the overlay a credential key is in the query if and only if the options name it |
| DsnRedaction.Redaction | config/dsn.go:34-46 | two lists that differ only in passwords without equals sign, with balanced quotation marks and not blank, what stands in front of them being as calm, parse alike and give, through overlay and printing, the same text |
| DsnRedaction.HiddenExactly | config/dsn.go:34-46 | in every list that holds the password `a=b`, clean otherwise, and under every module, what follows the equals sign stays out of the text if and only if a second separator rune drops it, `a` is `password` up to leading whitespace, or a later item or the module replaces what is stored under `a` |
| DsnOddRedaction.HiddenOddExactly | config/dsn.go:34-46 | in every list that holds a password with an odd number of quotation marks, clean otherwise, and under every module, the text shows no more of it than whether a password is set if and only if the key it is joined with is not stored |
| DsnOddRedaction.OddParses | config/dsn.go:189-235 | what every list with such a password parses to: at the end of the list it goes to its own key, elsewhere it is joined to the next |
| DsnTailRedaction.HiddenEndExactly | config/dsn.go:34-46 | for every front of a password that the parser can read, a plain ending stays out of the text if and only if the entry or key that it becomes part of is dropped, replaced, or the password |
| DsnTailRedaction.UnreadableFront | config/dsn.go:219-226 | a front that it cannot read leaves no key-value reading of the list |
| Versions.MakeQueryOverrideMap | cmd/postgres_exporter/queries.go:158-178 | every namespace gets the query of the first entry whose range holds the version, or the empty query where none does |
| Versions.ContainsInNumbers | cmd/postgres_exporter/queries.go:161-168 | ranges compare the major number, then the minor one, then the patch, and include their low end only |
| Versions.OrderIrrelevant | cmd/postgres_exporter/queries.go:161-170 | where at most one range matches, rearranging the list changes nothing |
| Versions.NoOverlap | cmd/postgres_exporter/queries.go:45-154 | at every version at most one built-in range of a namespace matches |
| Versions.ReplicationInNumbers | cmd/postgres_exporter/queries.go:48-76 | the WAL-LSN query of pg_stat_replication runs exactly from major 10 on, the xlog one with the difference exactly from 9.2, and the plain one below |
| Versions.SlotsInNumbers | cmd/postgres_exporter/queries.go:78-93 | which query of pg_replication_slots runs, by major and minor number |
| Versions.OthersInNumbers | cmd/postgres_exporter/queries.go:95-153 | so for pg_stat_archiver and pg_stat_activity |
| Versions.DisabledExactly | cmd/postgres_exporter/queries.go:45-154 | the empty query is chosen exactly for slots and archiver, when the major number is below 9, or 9 with a minor below 4 |
| Versions.GaugesMatchQueries | cmd/postgres_exporter/postgres_exporter.go:213-215 | at every version a gated gauge of pg_stat_replication is in range if and only if the chosen query names its column |
| Tables.CollectLabels | cmd/postgres_exporter/postgres_exporter.go:271-277 | the labels are the LABEL columns, each once, whatever their version range |
| Tables.CompileNamespace | cmd/postgres_exporter/postgres_exporter.go:266-392 | the result comes from some pair of orders of the two loops, with one label list throughout |
| Tables.MakeDescMap | cmd/postgres_exporter/postgres_exporter.go:263-396 | every declared namespace is present under its renamed key and every entry comes from a declaration of that key |
| Tables.OrderFreeExactly | cmd/postgres_exporter/postgres_exporter.go:279-390 | the compiled columns are the same for all orders if and only if no supported histogram has a part configured as a column |
| Tables.Confluence | cmd/postgres_exporter/postgres_exporter.go:263-396 | any two compilations hold the same names; under every prefix that keeps the namespaces apart, a namespace without clash differs at most by one permutation of its labels |
| Tables.OwnDeclaration | cmd/postgres_exporter/postgres_exporter.go:266-269 | under a prefix that keeps the namespaces apart, each is compiled from its own declaration under its renamed name |
| Tables.FaithfulExactly | cmd/postgres_exporter/postgres_exporter.go:266-396 | a prefix gives every namespace its own declaration, whatever is declared and in every order, if and only if it keeps the names apart |
| Tables.CollisionIsOpen | cmd/postgres_exporter/postgres_exporter.go:266-396 | when two namespaces get one name, either declaration may end up under it |
| Tables.DefaultPrefix | cmd/postgres_exporter/postgres_exporter.go:266-269 | under the default prefix the names are those declared and each is compiled from its own declaration |
| Tables.RenameReplacesFirst | cmd/postgres_exporter/postgres_exporter.go:266-269 | the first `pg` of a name becomes the prefix, and nothing else changes |
| Tables.DroppedExactly | cmd/postgres_exporter/postgres_exporter.go:279-306 | a declared column is discarded if and only if its range excludes the version or its usage is DISCARD or LABEL |
| Tables.UsedColumn | cmd/postgres_exporter/postgres_exporter.go:297-388 | a used column has CounterValue if and only if its usage is COUNTER, UntypedValue and the histogram flag if and only if it is HISTOGRAM, and GaugeValue otherwise; its descriptor is named namespace_column, with `_milliseconds` if and only if its usage is DURATION, and carries its description, the labels of the namespace and the constant labels |
| Tables.CompiledColumns | cmd/postgres_exporter/postgres_exporter.go:322-345 | the columns are exactly the declared ones and the three parts of every used histogram, which are discarded unless declared |
| ReplicationTable.GaugeActiveExactly | cmd/postgres_exporter/postgres_exporter.go:178-222 | the built-in pg_stat_replication: at every version and for every order, a compiled gauge is active if and only if the query chosen for the version names its column |
| ReplicationTable.LabelsExactly | cmd/postgres_exporter/postgres_exporter.go:178-222 | the labels of that table are application_name, client_addr, state and slot_name at every version, slot_name even where its range excludes it |
| ReplicationTable.OthersAreDiscarded | cmd/postgres_exporter/postgres_exporter.go:178-222 | at every version, whatever is no gauge of that table is discarded |
| UserQueries.ParseUserQueries | cmd/postgres_exporter/queries.go:180-223 | for every order: each user namespace gets its flags, its SQL, and exactly the columns that its entries mention |
| UserQueries.LaterEntriesWin | cmd/postgres_exporter/queries.go:206-220 | the last metrics entry that mentions a column decides: the usage is that of its text, any other text meaning DISCARD, the description is its own, and there is no version range |
| UserQueries.ServerTables.AddQueries | cmd/postgres_exporter/queries.go:233-263 | a file that does not decode changes neither table; otherwise both tables get exactly the compiled namespaces and their queries |
| UserQueries.OverlayIsExact | cmd/postgres_exporter/queries.go:239-261 | under the default prefix a user namespace has the user's columns and runs the user's SQL unless that is empty, and every other namespace keeps both entries |
| UserQueries.PrefixedNamespaceRunsItsSql | cmd/postgres_exporter/queries.go:239-261 | under any prefix that keeps the file's namespaces apart, the renamed namespace has the user's columns and runs the SQL of the namespace of that name in the file, or the built-in override or select of that name; its own SQL if and only if that is the same text |
| UserQueries.FileRunsAsWritten | cmd/postgres_exporter/queries.go:239-261 | under such a prefix all namespaces of a file run their own SQL if and only if the prefix renames none of them |
| RowLoop.QueryNamespace | cmd/postgres_exporter/namespace.go:30-61 | a namespace with an empty override is not queried and gives nothing; otherwise its override runs, or the select of its name when it has none, and either failure of the query is fatal |
| RowLoop.ReadHistogram | cmd/postgres_exporter/namespace.go:102-154 | a histogram is emitted if and only if all four columns are there and convert; its buckets are exactly the keys that have a value, each with the value at its last place modulo 2^64, and its sum and count are those of the row; only bucket arrays that do not convert are fatal, and the first obstacle is the one reported |
| RowLoop.ReadLabels | cmd/postgres_exporter/namespace.go:85-89 | value i is read from the last column named by label i, or from column 0 |
| RowLoop.ReadCell | cmd/postgres_exporter/namespace.go:94-178 | a known plain column is emitted if and only if its own cell converts, with that value and with the descriptor and value type of its mapping; an unknown one as an untyped metric namespace_column with the value of its cell; a histogram if and only if it is complete; discarded ones are skipped; otherwise the problem names the column |
| RowLoop.ReadRow | cmd/postgres_exporter/namespace.go:94-179 | the metrics and errors of one row in column order, or its first fatal error |
| RowLoop.ReadRows | cmd/postgres_exporter/namespace.go:75-181 | the metrics and errors of all rows, or the first fatal error without any metric |
| RowLoop.CellConservation | cmd/postgres_exporter/namespace.go:79-181 | metrics, non-fatal errors and discarded cells add up to rows times columns |
| RowLoop.EmitsInOrder | cmd/postgres_exporter/namespace.go:79-178 | metric k is that of the k-th emitting cell, and the places strictly increase |
| RowLoop.EveryEmitHasItsPlace | cmd/postgres_exporter/namespace.go:79-178 | no emitting cell is left out of the metrics |
| RowLoop.ProblemsInOrder | cmd/postgres_exporter/namespace.go:109-173 | every problem of a cell is reported, in the order of the cells |
| RowLoop.TraceOrigin | cmd/postgres_exporter/namespace.go:79-94 | place p of the trace is the cell in row p / columns and column p % columns |
| RowLoop.DoneExactly | cmd/postgres_exporter/namespace.go:79-118 | the scan ends without fatal error if and only if no row fails to scan, has a fatal cell, or lacks all columns while labels are wanted |
| RowLoop.FirstBadDecides | cmd/postgres_exporter/namespace.go:79-118 | a scan that does not complete ends with the failure of the first bad row: that of scanning it, or that of its first fatal cell, or an index out of range if and only if labels are wanted of rows without columns |
| RowLoop.CompiledIsLabelled | cmd/postgres_exporter/postgres_exporter.go:271-390 | for all orders, clashes included, every descriptor carries the label list of its namespace |
| RowLoop.LabelPairing | cmd/postgres_exporter/namespace.go:85-178 | every metric carries the value, value type and descriptor of its own cell; it has as many label values as its descriptor has labels, and value i is the string, in the metric's own row, of the last column that label i names, or of column 0 when no column has that name |
| ScrapeCache.CachingServer.ScrapeNamespace | cmd/postgres_exporter/namespace.go:210-261 | one iteration: a namespace is queried if and only if it is missing in the cache or more than cacheSeconds old; it emits the answer, or nothing after a failure, or else what is cached, and an answer is cached as of the start of the scrape if cacheSeconds is positive |
| ScrapeCache.CachingServer.QueryNamespaceMappings | cmd/postgres_exporter/namespace.go:186-265 | for every order: a namespace is emitted if and only if the version is in range and it is not for masters only on a server that is none; fresh or cached, failed and stored as by one iteration, and every other cache entry is untouched |
| ScrapeCache.EntriesAreIndependent | cmd/postgres_exporter/namespace.go:210-261 | over any run, the cache entry of a namespace evolves on its own |
| ScrapeCache.RealMeansQueried | cmd/postgres_exporter/namespace.go:210-222 | the decision to query, read off one entry, is that of the scrape on the whole cache |
| ScrapeCache.CachedRefinesReference | cmd/postgres_exporter/namespace.go:214-261 | over any run, each emission is that of an uncached reference at the latest refreshing scrape, at most cacheSeconds before |
| ScrapeCache.RealQueriesFarApart | cmd/postgres_exporter/namespace.go:216-259 | two scrapes that really query a namespace start more than cacheSeconds apart |
| ScrapeCache.RateBound | cmd/postgres_exporter/namespace.go:216-259 | k real queries of scrapes that start within a span T satisfy (k - 1) * cacheSeconds <= T |
| ConcurrentScrapes.EmissionsAreFresh | cmd/postgres_exporter/namespace.go:190-262 | in every interleaving, what a scrape emits for a namespace is the whole result of one query of it, a failed one counting as empty, begun no earlier than the scrape's start minus cacheSeconds |
| ConcurrentScrapes.FinishedScrapesAreComplete | cmd/postgres_exporter/namespace.go:192-262 | a scrape that is through has emitted exactly the namespaces that the version range and the master flags let it scrape |
| ConcurrentScrapes.SoloIsSequential | cmd/postgres_exporter/namespace.go:210-261 | an undisturbed iteration of the step model is that of the sequential one: same emission, same cache, same decision to query |
| SeparateScrapes.SolitaryProtects | cmd/postgres_exporter/namespace.go:190-262 | in every run, after a real query by a scrape that overlaps no other, the next one of the namespace is by a scrape that starts more than cacheSeconds later, whatever other scrapes do among themselves |
| SeparateScrapes.QueriesAreSpaced | cmd/postgres_exporter/namespace.go:190-262 | the queries themselves then begin more than cacheSeconds apart, less the delay of the earlier one after its scrape's start |
| SeparateScrapes.WindowBound | cmd/postgres_exporter/namespace.go:190-262 | of the real queries of a namespace by scrapes that start within cacheSeconds, all but one are by scrapes that overlap another |
| SeparateScrapes.OneQueryEach | cmd/postgres_exporter/namespace.go:190-262 | no scrape queries a namespace twice |
| SeparateScrapes.GoesBackExactly | cmd/postgres_exporter/namespace.go:254-259 | in every run, a step moves lastScrape back if and only if it stores over the entry of a scrape that began while its own was under way, at a later time |
| SeparateScrapes.NeverBackWithoutOverlap | cmd/postgres_exporter/namespace.go:254-259 | in runs without overlap lastScrape never decreases |
| ScrapeRuns.TwoScrapes | cmd/postgres_exporter/namespace.go:190-262 | the bound on queries is tight on every server: for every delay there is a run without overlap that meets it within one nanosecond, or begins both queries at once |
| ScrapeRuns.GuaranteedExactly | cmd/postgres_exporter/namespace.go:190-262 | on every server, spacing above cacheSeconds is guaranteed after a query by a scrape that overlaps no other if and only if it begins at its scrape's start |
| ScrapeRuns.ManyQueries | cmd/postgres_exporter/namespace.go:190-262 | on every server, any number of overlapping scrapes may all really query a namespace at one time |
| ScrapeRuns.LastScrapeCanGoBack | cmd/postgres_exporter/namespace.go:254-259 | a run from the empty cache in which lastScrape goes back |
| Engine.RunQuery | cmd/postgres_exporter/namespace.go:30-181 | a disabled namespace gives no metrics and no error, a finished scan its metrics, and a fatal failure nothing |
| Engine.EveryMetricIsACell | cmd/postgres_exporter/namespace.go:186-265 | with tables that compilation and overlay may give, in every interleaving, every metric a scrape emits, fresh or cached, is that of one cell of the answer to one query of its namespace, begun at most cacheSeconds before, with the value, value type and descriptor of that cell and its labels read from the row of that cell |
| Engine.SeenTablesAreCompiled | cmd/postgres_exporter/postgres_exporter.go:639-677 | in every run of the exporter, all tables that a scrape sees were compiled, which is what the previous row asks of them |
| Engine.EveryMetricHasItsEra | cmd/postgres_exporter/namespace.go:186-265 | across rebuilds, every metric a scrape emits is that of one cell, read with the tables of one era, of the answer to one query of that era, begun at most cacheSeconds before |
| Rebuilds.OldMetricsExactly | cmd/postgres_exporter/postgres_exporter.go:639-677 | across rebuilds, what a scrape emits is the whole result of one query of one era, begun at most cacheSeconds before, an earlier era if and only if the lookup found an entry of before the rebuild not older than the cacheSeconds of now |
| Rebuilds.OldMetricsEnd | cmd/postgres_exporter/postgres_exporter.go:639-677 | metrics of before a rebuild are emitted only by scrapes that start at most cacheSeconds after it |
| Rebuilds.MayEmitOldExactly | cmd/postgres_exporter/postgres_exporter.go:639-677 | on every server, a scrape that starts so long after a rebuild may emit metrics of before it if and only if that is at most cacheSeconds |
| Rebuilds.EmissionsStayFresh | cmd/postgres_exporter/namespace.go:190-262 | across rebuilds every emission is backed by a query begun no earlier than the scrape's start minus the cacheSeconds of now |
| MapCoherence.TablesAreCoherent | cmd/postgres_exporter/postgres_exporter.go:639-677 | in every run, whenever the write lock is free the version, columns and queries come from one rebuild plus its user overlay, or none was made |
| MapCoherence.ScrapesSeeOneRebuild | cmd/postgres_exporter/server.go:138-159 | no scrape holds a half-built or mixed pair of tables |
| MapCoherence.CheckedScrapesSeeTheirVersion | cmd/postgres_exporter/postgres_exporter.go:639-677 | while the server reports one version, a scrape whose check succeeded sees the tables of that version, although the test takes no lock |
| MapCoherence.SettledTablesStay | cmd/postgres_exporter/postgres_exporter.go:639-677 | while the server reports one version, once its tables are built and nobody is about to lock them, no check leads to a rebuild |
| MapCoherence.FailedCheckStillScrapes | cmd/postgres_exporter/datasource.go:110-115 | when the version cannot be fetched and nobody writes, the scrape goes on with the tables as they are |
| MapCoherence.PairsBelongTogether | cmd/postgres_exporter/queries.go:239-261 | in every run, the two tables a scrape sees are those of one version and at most one file that was read: exactly the namespaces of that file have its columns and its SQL, and every other namespace has the built-in columns and override of that version, or neither |
| ForkJoin.WaitGroupCounts | collector/collector.go:227-241 | in every run the wait group equals the number of unfinished goroutines |
| ForkJoin.ReturnedMeansShuffle | collector/collector.go:227-266 | when Collect has returned, the history restricted to a collector is its metrics in order, the time from the begin of its Update to its end, and 1 if Update returned nil or 0 if it did not |
| ForkJoin.ReturnedMeansComplete | collector/collector.go:227-266 | then the history is as long as all traces together |
| ForkJoin.RunsAreBounded | collector/collector.go:227-266 | every step does some of a finite amount of work |
| ForkJoin.NoDeadlock | collector/collector.go:227-266 | until Collect returns some step is possible |
| Registry.CollectorRegistry.NewPostgresCollector | collector/collector.go:139-212 | for every order and factory failure: the first bad filter is the error and changes nothing, the memo only gains collectors whose factory succeeded, once each, and success returns exactly the enabled names that the filters, if any, choose, as the memo holds them |
| Registry.FactoriesSucceedOnce | collector/collector.go:165-187 | over any sequence of calls each factory succeeds at most once, and the names that did are those of the memo |
| Registry.ReturnedCollectorsAreShared | collector/collector.go:154-187 | a returned map has exactly the enabled names, intersected with the filters, and agrees with the memo then and ever after |
| ConnectionPool.Server.Ping | cmd/postgres_exporter/server.go:122-130 | a failing ping closes the connection |
| ConnectionPool.Servers.GetServer | cmd/postgres_exporter/server.go:177-207 | the pool stays valid, success returns its open entry, failure leaves the DSN absent with nothing open, other entries are untouched, and exactly one attempt is made |
| ConnectionPool.Servers.Close | cmd/postgres_exporter/server.go:210-223 | every server ever opened is closed, and since the entries stay in the pool the next attempt on each of them fails |
| ConstLabels.ParseConstLabels | cmd/postgres_exporter/postgres_exporter.go:504-528 | the loop over the parts gives the fold of their meanings |
| ConstLabels.PartsAreIndependent | cmd/postgres_exporter/postgres_exporter.go:507-525 | every part of a comma-joined text counts by itself, in order |
| ConstLabels.RoundTrip | cmd/postgres_exporter/postgres_exporter.go:504-528 | rendered labels come back, with any whitespace padding and any malformed parts in between, later ones winning |
| ConstLabels.MapRoundTrip | cmd/postgres_exporter/postgres_exporter.go:504-528 | rendering a map in any order, padded and mixed with malformed parts, and parsing gives the map |
| Settings.PgSetting.SanitizeValue | cmd/postgres_exporter/pg_setting.go:105-113 | the setting loses the first listed unit it ends in and one more byte |
| Settings.PgSetting.NormaliseUnit | cmd/postgres_exporter/pg_setting.go:117-179 | the value in base units, or which step fails, for any float parser |
| Settings.SurvivesExactly | cmd/postgres_exporter/pg_setting.go:105-113 | a text that ends in a digit, some spaces and a unit sanitise to that text if and only if there is one space, or none before `kB`, `MB`, `GB` and `TB` |
| Settings.UntouchedExactly | cmd/postgres_exporter/pg_setting.go:105-113 | a text is left alone if and only if it ends in none of the ten units |
| Settings.OutOfRangeExactly | cmd/postgres_exporter/pg_setting.go:105-113 | the slice is out of range if and only if the text is one of `ms`, `s`, `min`, `h`, `d` and `B` |
| Settings.PlainNumbersSurvive | cmd/postgres_exporter/pg_setting.go:105-113 | a text that ends in a digit is left alone |
| Settings.SpellingHasItsValue | cmd/postgres_exporter/pg_setting.go:117-179 | with a parser that reads decimal numbers, every spelling of a decimal number, bare or with a unit behind the right gap, has that many times the seconds or bytes of its unit as its value, exactly, and "seconds" for units of time, "bytes" for units of memory; -1 is left alone |
| Settings.BaseUnits | cmd/postgres_exporter/pg_setting.go:125-135 | the base unit is seconds for the five units of time, bytes for the thirteen of memory, none for no unit, and unknown for everything else |
| Settings.WholeNumberValue | cmd/postgres_exporter/pg_setting.go:117-179 | so have the spellings of every whole number, of either sign |
| Settings.FractionSpells | cmd/postgres_exporter/pg_setting.go:120-123 | digits, a point and digits spell the whole part plus the digits behind the point over as many tens |
| Settings.ExponentSpells | cmd/postgres_exporter/pg_setting.go:120-123 | digits, an "e" and a whole number of either sign spell the digits times that power of ten |

## Left out

- discoverDatabaseDSNs: the filter loops and the reuse of one parsed URL in cmd/postgres_exporter/datasource.go are not modelled.
- The `Update` methods of the collectors: each is an arbitrary list of metrics and a result.
- URL parsing, URL encoding and `GetConnectionString`: a URL is a record of components, and encoding is a parameter.
- The other built-in column tables as data: pg_stat_replication is written out, and table compilation is proved for all tables.
- Pre-release and build tags of versions: the version regular expression never yields them.
- `MetricMap.conversion` and value mappings: the row loop never calls them.
- `runonserver`: whether the server version is in range is one flag of the configuration, since the source sets it per server.
- Changes of `server.master` between rebuilds: the cache theorems fix the flag with the tables of an era; a rebuild may set both.
- `rows.Err`: the source does not call it; the model starts from the rows that were delivered.
- Duplicate or invalid label names, on which the Prometheus client panics, and NaN bucket keys.
- Floating-point rounding and overflow: values are exact reals, and the theorems on settings ask for a parser that reads decimal numbers exactly.
- What the text shows of the front of a password with equals signs: the theorems are about what stands behind it.
- Writer preference of the read-write lock: the model allows more interleavings than the lock does.
- Contexts, timeouts, sleeps, logging, the version metric, `querySettings` and the gauges of the exporter itself.
- Hot reload of the configuration file, flags, HTTP, secrets and start-up.
