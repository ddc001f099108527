/** From a target string to a DSN: dispatch, key-value and URL forms, auth-module overlay, printing. */
module DsnTarget {
  import opened Prelude
  import opened Runes
  import opened DsnParser
  import opened DsnRoundTrip

  // url.Values: every key has a list of values.
  type Values = map<string, seq<string>>

  datatype DSN = DSN(scheme: string, username: string, password: string, host: string, path: string, query: Values)

  // What url.Parse delivers; the parser itself is a parameter of everything below.
  datatype URL = URL(scheme: string, user: string, pass: string, host: string, path: string, query: Values)

  type UrlParser = string -> Result<URL>

  datatype AuthModule = AuthModule(kind: string, username: string, password: string, options: map<string, string>)

  function Get(q: Values, k: string): string {
    if k in q && q[k] != [] then q[k][0] else ""
  }

  // ----- Recognising a key-value string: ^ *[a-zA-Z0-9]+ *= *[^= ]+ -----

  predicate LooksLikeKeyValue(text: string) {
    var t := DropWhile(text, IsBlank);
    var u := DropWhile(DropWhile(t, IsAlnum), IsBlank);
    && TakeWhile(t, IsAlnum) != ""
    && u != "" && u[0] == '='
    && var v := DropWhile(u[1..], IsBlank); v != "" && v[0] != '='
  }

  // The pieces that the regular expression asks for.
  ghost predicate Splits(text: string, gap0: string, word: string, gap1: string, gap2: string, rest: string) {
    && text == gap0 + (word + (gap1 + ("=" + (gap2 + rest))))
    && All(gap0, IsBlank) && All(gap1, IsBlank) && All(gap2, IsBlank)
    && word != "" && All(word, IsAlnum)
    && rest != "" && rest[0] != '=' && rest[0] != ' '
  }

  ghost predicate Matches(text: string) {
    exists gap0, word, gap1, gap2, rest :: Splits(text, gap0, word, gap1, gap2, rest)
  }

  lemma SplitsIsRecognised(text: string, gap0: string, word: string, gap1: string, gap2: string, rest: string)
    requires Splits(text, gap0, word, gap1, gap2, rest)
    ensures LooksLikeKeyValue(text)
  {
    var tail := "=" + (gap2 + rest);
    assert IsAlnum(word[0]);
    DropWhilePrefix(gap0, word + (gap1 + tail), IsBlank);
    assert gap1 != "" ==> IsBlank(gap1[0]);
    DropWhilePrefix(word, gap1 + tail, IsAlnum);
    DropWhilePrefix(gap1, tail, IsBlank);
    assert tail[1..] == gap2 + rest;
    DropWhilePrefix(gap2, rest, IsBlank);
  }

  // The hand-written matcher accepts exactly the strings the expression describes.
  lemma MatcherIsExact(text: string)
    ensures LooksLikeKeyValue(text) <==> Matches(text)
  {
    if Matches(text) {
      var gap0, word, gap1, gap2, rest :| Splits(text, gap0, word, gap1, gap2, rest);
      SplitsIsRecognised(text, gap0, word, gap1, gap2, rest);
    }
    if LooksLikeKeyValue(text) {
      var t := DropWhile(text, IsBlank);
      var t' := DropWhile(t, IsAlnum);
      var u := DropWhile(t', IsBlank);
      var v := DropWhile(u[1..], IsBlank);
      assert u == "=" + u[1..];
      assert Splits(text, TakeWhile(text, IsBlank), TakeWhile(t, IsAlnum), TakeWhile(t', IsBlank),
                    TakeWhile(u[1..], IsBlank), v);
    }
  }

  ghost predicate IsLetterOrDigit(n: int) { 0x30 <= n <= 0x39 || 0x41 <= n <= 0x5A || 0x61 <= n <= 0x7A }

  // Every rune there is: keys are ASCII letters and digits, and only spaces may stand in front.
  lemma OneRuneKey(c: char)
    ensures LooksLikeKeyValue([c] + "=v") <==> IsLetterOrDigit(c as int)
  {
    RecognisedOnceWordAhead(c, "=v");
  }

  lemma OneRuneInFront(c: char)
    ensures LooksLikeKeyValue([c] + "k=v") <==> IsLetterOrDigit(c as int) || c as int == 0x20
  {
    RecognisedOnceWordAhead(c, "k=v");
    DropWhilePrefix("k", "=v", IsAlnum);
    assert "k" + "=v" == "k=v";
  }

  lemma RecognisedOnceWordAhead(c: char, rest: string)
    requires rest != "" && !IsBlank(rest[0])
    ensures DropWhile([c] + rest, IsBlank) == if c == ' ' then rest else [c] + rest
    ensures DropWhile([c] + rest, IsAlnum) == if IsAlnum(c) then DropWhile(rest, IsAlnum) else [c] + rest
  {
    assert ([c] + rest)[1..] == rest;
  }

  // ----- Building the DSN -----

  predicate IsKnown(k: string) { k == "host" || k == "port" || k == "user" || k == "password" }

  function Field(pairs: map<string, string>, k: string): string {
    if k in pairs then pairs[k] else ""
  }

  function DsnOf(pairs: map<string, string>): DSN {
    var name := if Field(pairs, "host") == "" then "localhost" else Field(pairs, "host");
    var port := Field(pairs, "port");
    DSN("postgresql", Field(pairs, "user"), Field(pairs, "password"),
        if port == "" then name else name + ":" + port, "", Unknown(pairs))
  }

  function Single(m: map<string, string>): Values { map k | k in m :: [m[k]] }

  function Unknown(pairs: map<string, string>): Values {
    map k | k in pairs && !IsKnown(k) :: [pairs[k]]
  }

  // The pairs that have been visited.
  ghost function Part(pairs: map<string, string>, done: set<string>): map<string, string> {
    map k | k in pairs && k in done :: pairs[k]
  }

  lemma PartOne(pairs: map<string, string>, done: set<string>, k: string)
    requires k in pairs
    ensures Part(pairs, done + {k}) == Part(pairs, done)[k := pairs[k]]
  {
  }

  lemma PartAll(pairs: map<string, string>)
    ensures Part(pairs, {}) == map[] && Part(pairs, pairs.Keys) == pairs
  {
  }

  lemma VisitUnknown(seen: map<string, string>, k: string, v: string)
    ensures Unknown(seen[k := v]) == if IsKnown(k) then Unknown(seen) else Unknown(seen)[k := [v]]
  {
  }

  // What the five variables hold once some pairs have been visited.
  ghost predicate Holds(seen: map<string, string>, username: string, password: string, hostname: string, port: string,
                        query: Values) {
    && hostname == Field(seen, "host") && port == Field(seen, "port")
    && username == Field(seen, "user") && password == Field(seen, "password")
    && query == Unknown(seen)
  }

  function KeyValueDsn(text: string): Result<DSN> {
    if !LooksLikeKeyValue(text) then Err("input is not a key-value DSN")
    else match Parse(text)
      case Err(e) => Err("failed to parse key-value DSN: " + e)
      case Ok(pairs) => Ok(DsnOf(pairs))
  }

  // The pairs are visited in an arbitrary order.
  method BuildDsn(pairs: map<string, string>) returns (d: DSN)
    ensures d == DsnOf(pairs)
  {
    var query: Values := map[];
    var username, password, hostname, port := "", "", "", "";
    var left := pairs.Keys;
    ghost var all := pairs.Keys;
    TakenAll(all);
    PartAll(pairs);
    while left != {}
      invariant left <= all
      invariant Holds(Part(pairs, all - left), username, password, hostname, port, query)
      decreases |left|
    {
      var k :| k in left;
      var v := pairs[k];
      TakeOne(all, left, k);
      PartOne(pairs, all - left, k);
      VisitUnknown(Part(pairs, all - left), k, v);
      left := left - {k};
      if k == "host" {
        hostname := v;
      } else if k == "port" {
        port := v;
      } else if k == "user" {
        username := v;
      } else if k == "password" {
        password := v;
      } else {
        query := query[k := [v]];
      }
    }
    if hostname == "" {
      hostname := "localhost";
    }
    var host := if port == "" then hostname else hostname + ":" + port;
    return DSN("postgresql", username, password, host, "", query);
  }

  method DsnFromKeyValue(text: string) returns (r: Result<DSN>)
    ensures r == KeyValueDsn(text)
  {
    if !LooksLikeKeyValue(text) {
      return Err("input is not a key-value DSN");
    }
    var parsed := ParseKeyValue(text);
    if parsed.Err? {
      return Err("failed to parse key-value DSN: " + parsed.error);
    }
    var d := BuildDsn(parsed.value);
    return Ok(d);
  }

  // Credentials of the authority part win over those of the query, which always loses both keys.
  function DsnFromURL(text: string, parseURL: UrlParser): Result<DSN> {
    match parseURL(text)
    case Err(e) => Err(e)
    case Ok(u) =>
      var pass := if u.pass == "" then Get(u.query, "password") else u.pass;
      var user := if u.user == "" then Get(u.query, "user") else u.user;
      Ok(DSN(u.scheme, user, pass, u.host, u.path, u.query - {"password"} - {"user"}))
  }

  predicate HasURLPrefix(text: string) { "postgresql://" <= text || "postgres://" <= text }

  function DsnFromString(text: string, parseURL: UrlParser): Result<DSN> {
    if HasURLPrefix(text) then DsnFromURL(text, parseURL)
    else match KeyValueDsn(text)
      case Ok(d) => Ok(d)
      case Err(_) =>
        match DsnFromURL("postgresql://" + text, parseURL)
        case Ok(d) => Ok(d)
        case Err(_) => Err("could not understand DSN")
  }

  // ----- Overlaying an auth module -----

  function Overlay(d: DSN, m: AuthModule): DSN {
    d.(username := if m.kind == "userpass" && m.username != "" then m.username else d.username,
       password := if m.kind == "userpass" && m.password != "" then m.password else d.password,
       query := d.query + Single(m.options))
  }

  function Target(text: string, m: AuthModule, parseURL: UrlParser): Result<DSN> {
    match DsnFromString(text, parseURL)
    case Err(e) => Err(e)
    case Ok(d) => Ok(Overlay(d, m))
  }

  // The options are visited in an arbitrary order.
  method SetAll(base: Values, options: map<string, string>) returns (query: Values)
    ensures query == base + Single(options)
  {
    query := base;
    var left := options.Keys;
    MergeDone(base, Single(options));
    while left != {}
      invariant left <= options.Keys
      invariant query == base + (Single(options) - left)
      decreases |left|
    {
      var k :| k in left;
      MergeOne(base, Single(options), left, k);
      left := left - {k};
      query := query[k := [options[k]]];
    }
  }

  method ApplyModule(m: AuthModule, d: DSN) returns (r: DSN)
    ensures r == Overlay(d, m)
  {
    var username, password := d.username, d.password;
    if m.kind == "userpass" {
      if m.username != "" {
        username := m.username;
      }
      if m.password != "" {
        password := m.password;
      }
    }
    var query := SetAll(d.query, m.options);
    return d.(username := username, password := password, query := query);
  }

  method ConfigureTarget(m: AuthModule, text: string, parseURL: UrlParser) returns (r: Result<DSN>)
    ensures r == Target(text, m, parseURL)
  {
    var parsed := DsnFromString(text, parseURL);
    if parsed.Err? {
      return Err(parsed.error);
    }
    var d := ApplyModule(m, parsed.value);
    return Ok(d);
  }

  // ----- Printing; encode stands for url.Values.Encode -----

  function ToString(d: DSN, encode: Values -> string): string {
    if d.password != "" then
      d.scheme + "://" + d.username + ":******@" + d.host + d.path + "?" + encode(d.query)
    else if d.username != "" then
      d.scheme + "://" + d.username + "@" + d.host + d.path + "?" + encode(d.query)
    else
      d.scheme + "://" + d.host + d.path + "?" + encode(d.query)
  }

  // The text is a URL of all parts but the password, of which it shows only that there is one.
  lemma PrintedForm(d: DSN, encode: Values -> string)
    ensures var user := d.username + if d.password == "" then "" else ":******";
            ToString(d, encode)
            == d.scheme + "://" + (if user == "" then "" else user + "@") + d.host + d.path + "?" + encode(d.query)
  {
    assert d.username + "" == d.username && d.scheme + "://" + "" == d.scheme + "://";
    assert d.scheme + "://" + (d.username + "@") == d.scheme + "://" + d.username + "@";
    assert d.scheme + "://" + (d.username + ":******" + "@") == d.scheme + "://" + d.username + ":******@";
  }

  // ----- Where every part of a target comes from -----

  ghost predicate IsURLText(text: string) { "postgresql://" <= text || "postgres://" <= text }

  // The module's credential wins, then the one given, then the one in the query.
  ghost predicate IsCredential(c: string, m: AuthModule, own: string, given: string, query: Values, k: string) {
    if m.kind == "userpass" && own != "" then c == own
    else if given != "" then c == given
    else if k in query && |query[k]| > 0 then c == query[k][0]
    else c == ""
  }

  // The options of the module win over the rest of the query.
  ghost predicate IsQuery(query: Values, m: AuthModule, rest: Values) {
    && (forall k :: k in query <==> k in m.options || k in rest)
    && forall k :: k in query ==> query[k] == if k in m.options then [m.options[k]] else rest[k]
  }

  // The query of a URL loses both credentials.
  ghost predicate IsRest(query: Values, rest: Values) {
    && (forall k :: k in rest <==> k in query && k != "user" && k != "password")
    && forall k :: k in rest ==> rest[k] == query[k]
  }

  ghost predicate IsFromURL(u: URL, m: AuthModule, rest: Values, d: DSN) {
    && d.scheme == u.scheme && d.host == u.host && d.path == u.path
    && IsCredential(d.username, m, m.username, u.user, u.query, "user")
    && IsCredential(d.password, m, m.password, u.pass, u.query, "password")
    && IsRest(u.query, rest) && IsQuery(d.query, m, rest)
  }

  // Four keys have a meaning of their own, and all others go to the query.
  ghost predicate IsOwnKey(k: string) { k == "host" || k == "port" || k == "user" || k == "password" }

  ghost predicate IsOthers(pairs: map<string, string>, rest: Values) {
    && (forall k :: k in rest <==> k in pairs && !IsOwnKey(k))
    && forall k :: k in rest ==> rest[k] == [pairs[k]]
  }

  ghost predicate IsPair(pairs: map<string, string>, k: string, v: string) {
    if k in pairs then v == pairs[k] else v == ""
  }

  // Host, port, user and password of the pairs.
  ghost predicate IsFromPairs(h: string, p: string, user: string, pass: string, m: AuthModule, rest: Values, d: DSN) {
    && d.scheme == "postgresql" && d.path == ""
    && d.host == (if h == "" then "localhost" else h) + (if p == "" then "" else ":" + p)
    && IsCredential(d.username, m, m.username, user, map[], "")
    && IsCredential(d.password, m, m.password, pass, map[], "")
    && IsQuery(d.query, m, rest)
  }

  lemma FromURL(text: string, m: AuthModule, parseURL: UrlParser) returns (rest: Values)
    requires parseURL(text).Ok?
    ensures DsnFromURL(text, parseURL).Ok?
    ensures IsFromURL(parseURL(text).value, m, rest, Overlay(DsnFromURL(text, parseURL).value, m))
  {
    rest := parseURL(text).value.query - {"password"} - {"user"};
  }

  lemma OthersAreUnknown(pairs: map<string, string>)
    ensures IsOthers(pairs, Unknown(pairs))
  {
    assert forall k :: IsKnown(k) <==> IsOwnKey(k);
  }

  lemma HostOf(pairs: map<string, string>, h: string, p: string)
    requires h == Field(pairs, "host") && p == Field(pairs, "port")
    ensures DsnOf(pairs).host == (if h == "" then "localhost" else h) + (if p == "" then "" else ":" + p)
  {
    assert h + "" == h && "localhost" + "" == "localhost" && h + (":" + p) == h + ":" + p;
  }

  lemma FromPairs(pairs: map<string, string>, m: AuthModule)
    returns (h: string, p: string, user: string, pass: string, rest: Values)
    ensures IsPair(pairs, "host", h) && IsPair(pairs, "port", p)
    ensures IsPair(pairs, "user", user) && IsPair(pairs, "password", pass)
    ensures IsOthers(pairs, rest) && IsFromPairs(h, p, user, pass, m, rest, Overlay(DsnOf(pairs), m))
  {
    h, p, user, pass := Field(pairs, "host"), Field(pairs, "port"), Field(pairs, "user"), Field(pairs, "password");
    rest := Unknown(pairs);
    OthersAreUnknown(pairs);
    HostOf(pairs, h, p);
    OverlayIs(DsnOf(pairs), m);
  }

  lemma OverlayIs(d: DSN, m: AuthModule)
    ensures IsCredential(Overlay(d, m).username, m, m.username, d.username, map[], "")
    ensures IsCredential(Overlay(d, m).password, m, m.password, d.password, map[], "")
    ensures IsQuery(Overlay(d, m).query, m, d.query)
  {
  }

  // A URL that does not parse is an error.
  lemma URLTarget(text: string, m: AuthModule, parseURL: UrlParser) returns (rest: Values)
    requires IsURLText(text)
    ensures parseURL(text).Err? ==> Target(text, m, parseURL) == Err(parseURL(text).error)
    ensures parseURL(text).Ok? ==>
      Target(text, m, parseURL).Ok? && IsFromURL(parseURL(text).value, m, rest, Target(text, m, parseURL).value)
  {
    rest := map[];
    if parseURL(text).Ok? {
      rest := FromURL(text, m, parseURL);
    }
  }

  // A text that starts like pairs and parses as such is read as pairs.
  lemma PairsTarget(text: string, m: AuthModule, parseURL: UrlParser)
    returns (h: string, p: string, user: string, pass: string, rest: Values)
    requires !IsURLText(text) && Matches(text) && Parse(text).Ok?
    ensures var pairs := Parse(text).value;
            && IsPair(pairs, "host", h) && IsPair(pairs, "port", p)
            && IsPair(pairs, "user", user) && IsPair(pairs, "password", pass) && IsOthers(pairs, rest)
            && Target(text, m, parseURL).Ok?
            && IsFromPairs(h, p, user, pass, m, rest, Target(text, m, parseURL).value)
  {
    MatcherIsExact(text);
    h, p, user, pass, rest := FromPairs(Parse(text).value, m);
  }

  lemma SecondReading(text: string, parseURL: UrlParser)
    requires !IsURLText(text) && !(LooksLikeKeyValue(text) && Parse(text).Ok?)
    ensures var url := DsnFromURL("postgresql://" + text, parseURL);
            DsnFromString(text, parseURL) == if url.Ok? then url else Err("could not understand DSN")
  {
    assert KeyValueDsn(text).Err?;
  }

  // Any other text is read as a URL without its scheme.
  lemma OtherTarget(text: string, m: AuthModule, parseURL: UrlParser) returns (rest: Values)
    requires !IsURLText(text) && !(Matches(text) && Parse(text).Ok?)
    ensures var r, url := Target(text, m, parseURL), parseURL("postgresql://" + text);
            if url.Ok? then r.Ok? && IsFromURL(url.value, m, rest, r.value)
            else r == Err("could not understand DSN")
  {
    var url := "postgresql://" + text;
    MatcherIsExact(text);
    SecondReading(text, parseURL);
    rest := map[];
    if parseURL(url).Ok? {
      rest := FromURL(url, m, parseURL);
    }
  }

  // ----- Theorems -----

  lemma NoURLPrefix(prefix: string, key: string, rest: string)
    requires prefix != "" && prefix[|prefix| - 1] == '/'
    requires forall i :: 0 <= i < |prefix| ==> prefix[i] != '='
    requires All(key, IsAlnum)
    ensures !(prefix <= key + ("=" + rest))
  {
    var text := key + ("=" + rest);
    var last := |prefix| - 1;
    if last < |key| {
      assert text[last] == key[last] && IsAlnum(key[last]);
    } else {
      assert text[|key|] == '=' && prefix[|key|] != '=';
    }
  }

  lemma QuotedPairIsRecognised(key: string, rest: string)
    requires key != "" && All(key, IsAlnum) && rest != "" && rest[0] == '"'
    ensures LooksLikeKeyValue(key + ("=" + rest))
  {
    var text := key + ("=" + rest);
    assert text == "" + (key + ("" + ("=" + ("" + rest))));
    SplitsIsRecognised(text, "", key, "", "", rest);
  }

  lemma NotAURL(key: string, rest: string)
    requires All(key, IsAlnum)
    ensures !HasURLPrefix(key + ("=" + rest))
  {
    NoURLPrefix("postgresql://", key, rest);
    NoURLPrefix("postgres://", key, rest);
  }

  lemma PrintedShape(items: seq<Item>) returns (rest: string)
    requires Printable(items) && items != []
    ensures Print(items) == items[0].key + ("=" + rest) && rest != "" && rest[0] == '"'
  {
    var it := items[0];
    rest := "\"" + it.value + "\"" + it.sep + Print(items[1..]);
  }

  lemma PrintedIsRecognised(items: seq<Item>)
    requires Printable(items) && items != []
    ensures LooksLikeKeyValue(Print(items)) && !HasURLPrefix(Print(items))
  {
    var rest := PrintedShape(items);
    QuotedPairIsRecognised(items[0].key, rest);
    NotAURL(items[0].key, rest);
  }

  // Lists of any length, duplicate keys included: printing and reading back gives the DSN of
  // the last-wins map.
  lemma DsnRoundTripHolds(items: seq<Item>, parseURL: UrlParser)
    requires Printable(items) && AllSurvive(items) && items != []
    ensures DsnFromString(Print(items), parseURL) == Ok(DsnOf(LastWins(items)))
  {
    PrintedIsRecognised(items);
    RoundTrip(items);
  }

  // Whatever the input and the form it takes, credentials leave the query.
  lemma CredentialsNeverInQuery(text: string, parseURL: UrlParser)
    requires DsnFromString(text, parseURL).Ok?
    ensures "password" !in DsnFromString(text, parseURL).value.query
    ensures "user" !in DsnFromString(text, parseURL).value.query
  {
    assert IsKnown("password") && IsKnown("user");
  }

  // The overlay can bring them back: exactly when the module's options name them.
  lemma CredentialInQueryOnlyFromOptions(text: string, m: AuthModule, parseURL: UrlParser, k: string)
    requires Target(text, m, parseURL).Ok? && k in {"user", "password"}
    ensures k in Target(text, m, parseURL).value.query <==> k in m.options
  {
    CredentialsNeverInQuery(text, parseURL);
  }
}
