/**
 What DSN.String gives away of a password in a printed list: nothing for passwords without an equals
 sign and with balanced quotation marks, and exactly when it does for the others.
 */
module DsnRedaction {
  import opened Prelude
  import opened Runes
  import opened DsnParser
  import opened DsnRoundTrip
  import opened DsnQuotes
  import opened DsnOddValues
  import opened DsnTarget

  // ----- Two runs side by side -----

  // The same but for the password, which both have or neither.
  ghost predicate SameButPassword(a: map<string, string>, b: map<string, string>) {
    SameOff(a, b, "password") && (Field(a, "password") == "" <==> Field(b, "password") == "")
  }

  ghost predicate Twin(s: State, t: State) {
    s.(out := map[]) == t.(out := map[]) && SameButPassword(s.out, t.out)
  }

  lemma SetTwins(a: map<string, string>, b: map<string, string>, k: string, v: string)
    requires SameButPassword(a, b)
    ensures SameButPassword(a[k := v], b[k := v])
  {
  }

  lemma StepTwins(s: State, t: State, c: char)
    requires Twin(s, t)
    ensures Step(s, c).Ok? <==> Step(t, c).Ok?
    ensures Step(s, c).Ok? ==> Twin(Step(s, c).value, Step(t, c).value)
  {
    if !IsQuote(c) && IsSpace(c) {
      SetTwins(s.out, t.out, s.key, s.part);
    }
  }

  // Any common text keeps two runs side by side.
  lemma {:induction false} RunTwins(s: State, t: State, text: string)
    requires Twin(s, t)
    ensures Run(s, text).Ok? <==> Run(t, text).Ok?
    ensures Run(s, text).Ok? ==> Twin(Run(s, text).value, Run(t, text).value)
    decreases |text|
  {
    if text != "" {
      StepTwins(s, t, text[0]);
    }
    if text != "" && Step(s, text[0]).Ok? {
      RunTwins(Step(s, text[0]).value, Step(t, text[0]).value, text[1..]);
    }
  }

  // The same item, or the password with two values that are both kept.
  ghost predicate AlikeItem(x: Item, y: Item) {
    && x.key == y.key && x.sep == y.sep
    && (x.value == y.value || (x.key == "password" && Hideable(x.value) && Hideable(y.value)))
  }

  // What a caller can check of a password.
  predicate Hideable(v: string) { Calm(v) && Kept(v) != "" }

  // The lists differ in passwords only, and what stands in front of a difference is calm. Values
  // behind the last difference may hold anything.
  ghost predicate DifferInPassword(xs: seq<Item>, ys: seq<Item>) {
    && |xs| == |ys|
    && (forall i :: 0 <= i < |xs| ==> AlikeItem(xs[i], ys[i]))
    && forall i, j :: 0 <= i < j < |xs| && xs[j] != ys[j] ==> Calm(xs[i].value)
  }

  // b is a with this value at this key.
  ghost predicate ChangedAt(a: map<string, string>, b: map<string, string>, key: string, v: string) {
    key in b && b[key] == v && SameOff(a, b, key)
  }

  lemma ChangedTwins(a: map<string, string>, b: map<string, string>, a': map<string, string>, b': map<string, string>,
                     key: string, v: string, w: string)
    requires SameButPassword(a, b) && ChangedAt(a, a', key, v) && ChangedAt(b, b', key, w)
    requires v == w || (key == "password" && v != "" && w != "")
    ensures SameButPassword(a', b')
  {
    forall k | k != "password"
      ensures (k in a' <==> k in b') && (k in a' ==> a'[k] == b'[k])
    {
      assert k != key ==> (k in a' <==> k in a) && (k in b' <==> k in b);
    }
  }

  // The last item, without a separator.
  lemma FinishCalm(s: State, x: Item) returns (out: map<string, string>)
    requires Resting(s) && Printed(x) && Hideable(x.value) && x.sep == ""
    ensures Run(s, PrintItem(x)).Ok? && Finish(Run(s, PrintItem(x)).value) == out
    ensures ChangedAt(s.out, out, x.key, Kept(x.value))
  {
    assert PrintItem(x) + "" == PrintItem(x) && x.sep + "" == "";
    RunQuotedItem(s, x, "");
    FlushedOff(s.out, x.key, "", true, x.value);
    out := Within(s.out, x.key, x.value)[x.key := Kept(x.value)];
  }

  // An item before the last.
  lemma StoreCalm(s: State, x: Item, rest: string) returns (t: State)
    requires Resting(s) && Printed(x) && Calm(x.value) && x.sep != ""
    ensures Run(s, PrintItem(x) + rest) == Run(t, rest) && Resting(t) && t.key == x.key
    ensures ChangedAt(s.out, t.out, x.key, if |x.sep| >= 2 then "" else Kept(x.value))
  {
    RunQuotedItem(s, x, rest);
    FlushedOff(s.out, x.key, "", true, x.value);
    var u := AfterItem(s.out, x.key, x.value);
    RunSeparator(u, x.sep, rest);
    t := u.(out := u.out[u.key := if |x.sep| >= 2 then "" else u.part], inPart := false, part := "");
  }

  // The first items of two lists that differ.
  lemma FirstOfDiffering(xs: seq<Item>, ys: seq<Item>)
    requires Printable(xs) && DifferInPassword(xs, ys) && xs != ys
    ensures xs != [] && ys != [] && Printed(xs[0]) && AlikeItem(xs[0], ys[0]) && Calm(xs[0].value) && Calm(ys[0].value)
    ensures Printable(xs[1..]) && DifferInPassword(xs[1..], ys[1..])
    ensures xs[0].sep == "" ==> xs == [xs[0]] && ys == [ys[0]] && Hideable(xs[0].value) && Hideable(ys[0].value)
  {
    var j :| 0 <= j < |xs| && xs[j] != ys[j];
    assert AlikeItem(xs[0], ys[0]);
    assert forall i :: 0 <= i < |xs[1..]| ==> xs[1..][i] == xs[i + 1] && ys[1..][i] == ys[i + 1];
  }

  // The items of two lists that end with them.
  lemma LastAlike(s: State, t: State, x: Item, y: Item)
    requires Twin(s, t) && Resting(s) && AlikeItem(x, y) && Printed(x) && x.sep == ""
    requires Hideable(x.value) && Hideable(y.value)
    ensures Run(s, PrintItem(x)).Ok? && Run(t, PrintItem(y)).Ok?
    ensures SameButPassword(Finish(Run(s, PrintItem(x)).value), Finish(Run(t, PrintItem(y)).value))
  {
    var a := FinishCalm(s, x);
    var b := FinishCalm(t, y);
    ChangedTwins(s.out, t.out, a, b, x.key, Kept(x.value), Kept(y.value));
  }

  // The items of two lists that go on.
  lemma NextAlike(s: State, t: State, x: Item, y: Item, p: string, q: string) returns (s': State, t': State)
    requires Twin(s, t) && Resting(s) && AlikeItem(x, y) && Printed(x) && x.sep != "" && Calm(x.value) && Calm(y.value)
    ensures Run(s, PrintItem(x) + p) == Run(s', p) && Run(t, PrintItem(y) + q) == Run(t', q)
    ensures Resting(s') && Twin(s', t')
  {
    s' := StoreCalm(s, x, p);
    t' := StoreCalm(t, y, q);
    if |x.sep| >= 2 {
      ChangedTwins(s.out, t.out, s'.out, t'.out, x.key, "", "");
    } else {
      ChangedTwins(s.out, t.out, s'.out, t'.out, x.key, Kept(x.value), Kept(y.value));
    }
  }

  lemma {:induction false} RunAlike(s: State, t: State, xs: seq<Item>, ys: seq<Item>)
    requires Printable(xs) && DifferInPassword(xs, ys) && Twin(s, t) && (xs != ys ==> Resting(s))
    ensures Run(s, Print(xs)).Ok? <==> Run(t, Print(ys)).Ok?
    ensures Run(s, Print(xs)).Ok? ==>
      SameButPassword(Finish(Run(s, Print(xs)).value), Finish(Run(t, Print(ys)).value))
    decreases |xs|
  {
    if xs == ys {
      RunTwins(s, t, Print(xs));
    } else {
      FirstOfDiffering(xs, ys);
      if xs[0].sep == "" {
        PrintOne(xs[0]);
        PrintOne(ys[0]);
        LastAlike(s, t, xs[0], ys[0]);
      } else {
        var s', t' := NextAlike(s, t, xs[0], ys[0], Print(xs[1..]), Print(ys[1..]));
        RunAlike(s', t', xs[1..], ys[1..]);
      }
    }
  }

  lemma {:induction false} CalmListsParse(s: State, xs: seq<Item>)
    requires Printable(xs) && Resting(s) && forall i :: 0 <= i < |xs| ==> Calm(xs[i].value)
    ensures Run(s, Print(xs)).Ok?
    decreases |xs|
  {
    if xs != [] {
      var x := xs[0];
      if x.sep == "" {
        assert xs == [x];
        PrintOne(x);
        assert PrintItem(x) + "" == PrintItem(x);
        RunQuotedItem(s, x, "");
        assert x.sep + "" == "";
      } else {
        var t := StoreCalm(s, x, Print(xs[1..]));
        CalmListsParse(t, xs[1..]);
      }
    }
  }

  // ----- Redaction -----

  lemma DsnsDifferInPassword(a: map<string, string>, b: map<string, string>)
    requires SameButPassword(a, b)
    ensures DsnOf(b) == DsnOf(a).(password := DsnOf(b).password)
    ensures DsnOf(a).password == "" <==> DsnOf(b).password == ""
  {
  }

  lemma OverlayHidesPassword(d: DSN, e: DSN, m: AuthModule, encode: Values -> string)
    requires e == d.(password := e.password) && (d.password == "" <==> e.password == "")
    ensures ToString(Overlay(d, m), encode) == ToString(Overlay(e, m), encode)
  {
  }

  // Two lists through parsing, overlay and printing show the same text. The key-value reading
  // fails for both or for neither, and never when all values are calm.
  lemma Redaction(xs: seq<Item>, ys: seq<Item>, m: AuthModule, parseURL: UrlParser, encode: Values -> string)
    requires Printable(xs) && DifferInPassword(xs, ys) && xs != []
    ensures Parse(Print(xs)).Ok? <==> Parse(Print(ys)).Ok?
    ensures (forall i :: 0 <= i < |xs| ==> Calm(xs[i].value)) ==> Parse(Print(xs)).Ok?
    ensures var a, b := Target(Print(xs), m, parseURL), Target(Print(ys), m, parseURL);
            Parse(Print(xs)).Ok? ==> a.Ok? && b.Ok? && ToString(a.value, encode) == ToString(b.value, encode)
  {
    RunAlike(START, START, xs, ys);
    if forall i :: 0 <= i < |xs| ==> Calm(xs[i].value) {
      CalmListsParse(START, xs);
    }
    if Parse(Print(xs)).Ok? {
      assert Printable(ys) by {
        assert forall i :: 0 <= i < |ys| ==> AlikeItem(xs[i], ys[i]);
      }
      PrintedIsRecognised(xs);
      PrintedIsRecognised(ys);
      var a, b := Parse(Print(xs)).value, Parse(Print(ys)).value;
      DsnsDifferInPassword(a, b);
      OverlayHidesPassword(DsnOf(a), DsnOf(b), m, encode);
    }
  }

  // ----- What the text shows of other keys -----

  // url.Values.Encode tells apart all queries without empty value lists.
  ghost predicate Faithful(encode: Values -> string) {
    forall p: Values, q: Values :: NoEmptyList(p) && NoEmptyList(q) && encode(p) == encode(q) ==> p == q
  }

  ghost predicate NoEmptyList(q: Values) { forall k :: k in q ==> q[k] != [] }

  lemma SameMiddle(pre: string, x: string, y: string, post: string)
    requires pre + (x + post) == pre + (y + post)
    ensures x == y
  {
    var text := pre + (x + post);
    assert |x| == |y|;
    assert x == text[|pre|..|pre| + |x|] && y == text[|pre|..|pre| + |y|];
  }

  ghost function Head(d: DSN): string {
    if d.password != "" then d.scheme + "://" + d.username + ":******@"
    else if d.username != "" then d.scheme + "://" + d.username + "@"
    else d.scheme + "://"
  }

  ghost function AfterHost(d: DSN, encode: Values -> string): string { d.path + "?" + encode(d.query) }

  lemma TextSplits(d: DSN, encode: Values -> string)
    ensures ToString(d, encode) == Head(d) + (d.host + AfterHost(d, encode))
  {
  }

  lemma HostShows(d: DSN, x: string, y: string, encode: Values -> string)
    requires ToString(d.(host := x), encode) == ToString(d.(host := y), encode)
    ensures x == y
  {
    TextSplits(d.(host := x), encode);
    TextSplits(d.(host := y), encode);
    SameMiddle(Head(d), x, y, AfterHost(d, encode));
  }

  lemma QueryShows(d: DSN, p: Values, q: Values, encode: Values -> string)
    requires Faithful(encode) && NoEmptyList(p) && NoEmptyList(q)
    requires ToString(d.(query := p), encode) == ToString(d.(query := q), encode)
    ensures p == q
  {
    var d', e' := d.(query := p), d.(query := q);
    TextSplits(d', encode);
    TextSplits(e', encode);
    var pre := Head(d) + (d.host + (d.path + "?"));
    assert pre + (encode(p) + "") == Head(d') + (d.host + AfterHost(d', encode));
    assert pre + (encode(q) + "") == Head(e') + (d.host + AfterHost(e', encode));
    SameMiddle(pre, encode(p), encode(q), "");
  }

  lemma UserShows(d: DSN, x: string, y: string, encode: Values -> string)
    requires x != "" && y != "" && ToString(d.(username := x), encode) == ToString(d.(username := y), encode)
    ensures x == y
  {
    var pre, post := d.scheme + "://", (if d.password != "" then ":******@" else "@") + (d.host + AfterHost(d, encode));
    UserText(d.(username := x), encode);
    UserText(d.(username := y), encode);
    SameMiddle(pre, x, y, post);
  }

  lemma UserText(d: DSN, encode: Values -> string)
    requires d.username != ""
    ensures ToString(d, encode)
            == d.scheme + "://"
               + (d.username + ((if d.password != "" then ":******@" else "@") + (d.host + AfterHost(d, encode))))
  {
  }

  lemma UserAt(pairs: map<string, string>, v: string)
    ensures DsnOf(pairs["user" := v]) == DsnOf(pairs).(username := v)
  {
    VisitUnknown(pairs, "user", v);
  }

  lemma OtherAt(pairs: map<string, string>, k: string, v: string)
    requires !IsKnown(k)
    ensures DsnOf(pairs[k := v]) == DsnOf(pairs).(query := Unknown(pairs)[k := [v]])
  {
    VisitUnknown(pairs, k, v);
  }

  // The host part, for a host or a port that is not empty.
  lemma NetAt(pairs: map<string, string>, k: string, v: string) returns (pre: string, post: string)
    requires k == "host" || k == "port"
    ensures forall w :: w != "" ==> DsnOf(pairs[k := w]).host == pre + (w + post)
    ensures DsnOf(pairs[k := v]) == DsnOf(pairs).(host := DsnOf(pairs[k := v]).host)
  {
    VisitUnknown(pairs, k, v);
    if k == "host" {
      var port := Field(pairs, "port");
      pre, post := "", if port == "" then "" else ":" + port;
    } else {
      var host := Field(pairs, "host");
      pre, post := (if host == "" then "localhost" else host) + ":", "";
    }
  }

  // The text of a map of pairs, once a module has been laid over its DSN.
  ghost function Text(pairs: map<string, string>, m: AuthModule, encode: Values -> string): string {
    ToString(Overlay(DsnOf(pairs), m), encode)
  }

  // The module replaces what is read of a key.
  predicate Covers(m: AuthModule, k: string) {
    if k == "user" then m.kind == "userpass" && m.username != "" else !IsKnown(k) && k in m.options
  }

  lemma CoveredStaysHidden(pairs: map<string, string>, m: AuthModule, k: string, x: string, y: string)
    requires Covers(m, k)
    ensures Overlay(DsnOf(pairs[k := x]), m) == Overlay(DsnOf(pairs[k := y]), m)
  {
    if k == "user" {
      UserAt(pairs, x);
      UserAt(pairs, y);
    } else {
      OtherAt(pairs, k, x);
      OtherAt(pairs, k, y);
      var p, q := Unknown(pairs)[k := [x]], Unknown(pairs)[k := [y]];
      assert p + Single(m.options) == q + Single(m.options);
    }
  }

  lemma OtherShows(pairs: map<string, string>, m: AuthModule, k: string, x: string, y: string, encode: Values -> string)
    requires Faithful(encode) && !IsKnown(k) && k !in m.options
    requires Text(pairs[k := x], m, encode) == Text(pairs[k := y], m, encode)
    ensures x == y
  {
    OtherAt(pairs, k, x);
    OtherAt(pairs, k, y);
    var p, q := Unknown(pairs)[k := [x]] + Single(m.options), Unknown(pairs)[k := [y]] + Single(m.options);
    QueryShows(Overlay(DsnOf(pairs), m), p, q, encode);
    assert p[k] == [x] && q[k] == [y];
  }

  lemma NetShows(pairs: map<string, string>, m: AuthModule, k: string, x: string, y: string, encode: Values -> string)
    requires (k == "host" || k == "port") && x != "" && y != ""
    requires Text(pairs[k := x], m, encode) == Text(pairs[k := y], m, encode)
    ensures x == y
  {
    var pre, post := NetAt(pairs, k, x);
    var _, _ := NetAt(pairs, k, y);
    HostShows(Overlay(DsnOf(pairs), m), DsnOf(pairs[k := x]).host, DsnOf(pairs[k := y]).host, encode);
    SameMiddle(pre, x, y, post);
  }

  // Of any key but password that no module covers, the text shows the value.
  lemma ValueShows(pairs: map<string, string>, m: AuthModule, k: string, x: string, y: string, encode: Values -> string)
    requires Faithful(encode) && k != "password" && !Covers(m, k) && x != "" && y != ""
    requires Text(pairs[k := x], m, encode) == Text(pairs[k := y], m, encode)
    ensures x == y
  {
    if k == "user" {
      UserAt(pairs, x);
      UserAt(pairs, y);
      UserShows(Overlay(DsnOf(pairs), m), x, y, encode);
    } else if k == "host" || k == "port" {
      NetShows(pairs, m, k, x, y, encode);
    } else {
      OtherShows(pairs, m, k, x, y, encode);
    }
  }

  // ----- Passwords with an equals sign -----

  // The text of the DSN of a target.
  ghost function Shown(text: string, m: AuthModule, parseURL: UrlParser, encode: Values -> string): Option<string> {
    match Target(text, m, parseURL)
    case Ok(d) => Some(ToString(d, encode))
    case Err(_) => None
  }

  lemma ShownIsText(items: seq<Item>, m: AuthModule, parseURL: UrlParser, encode: Values -> string)
    requires Printable(items) && items != [] && Parse(Print(items)).Ok?
    ensures Shown(Print(items), m, parseURL, encode) == Some(Text(Parse(Print(items)).value, m, encode))
  {
    PrintedIsRecognised(items);
  }

  lemma SameTexts(a: map<string, string>, b: map<string, string>, m: AuthModule, encode: Values -> string)
    requires SameButPassword(a, b)
    ensures Text(a, m, encode) == Text(b, m, encode)
  {
    DsnsDifferInPassword(a, b);
    OverlayHidesPassword(DsnOf(a), DsnOf(b), m, encode);
  }

  ghost predicate Ordinary(v: string) { All(v, IsClean) && TrimLeft(v) != "" }

  // A list that holds the password a=b, with any items around it.
  function Holding(before: seq<Item>, a: string, b: string, sep: string, after: seq<Item>): seq<Item> {
    before + [AsItem(Equated("password", a, b, sep))] + after
  }

  ghost predicate HoldsPassword(before: seq<Item>, a: string, sep: string, after: seq<Item>) {
    Ordinary(a) && CleanValues(before) && CleanValues(after) && Printable(Holding(before, a, "", sep, after))
  }

  // Nothing of b is shown.
  ghost predicate Hidden(before: seq<Item>, a: string, sep: string, after: seq<Item>, m: AuthModule,
                         parseURL: UrlParser, encode: Values -> string) {
    forall b: string, c: string :: Ordinary(b) && Ordinary(c) ==>
      Shown(Print(Holding(before, a, b, sep, after)), m, parseURL, encode)
      == Shown(Print(Holding(before, a, c, sep, after)), m, parseURL, encode)
  }

  lemma SameShape(xs: seq<Item>, ys: seq<Item>)
    requires Printable(xs) && |xs| == |ys|
    requires forall i :: 0 <= i < |xs| ==> xs[i].key == ys[i].key && xs[i].sep == ys[i].sep
    ensures Printable(ys)
  {
  }

  lemma HoldingPrintable(before: seq<Item>, a: string, b: string, sep: string, after: seq<Item>)
    requires HoldsPassword(before, a, sep, after)
    ensures Printable(Holding(before, a, b, sep, after)) && Holding(before, a, b, sep, after) != []
  {
    SameShape(Holding(before, a, "", sep, after), Holding(before, a, b, sep, after));
  }

  // What all such lists have in common in front of the rest.
  function Front(before: seq<Item>, a: string): map<string, string> { Indent(Meaning(before), "password", a) }

  lemma HoldingMeans(before: seq<Item>, a: string, b: string, sep: string, after: seq<Item>)
    requires HoldsPassword(before, a, sep, after) && Ordinary(b)
    ensures Parse(Print(Holding(before, a, b, sep, after)))
            == Ok(Meaning(after, Front(before, a)[TrimLeft(a) := if |sep| >= 2 then "" else TrimLeft(b)]))
  {
    var e := Equated("password", a, b, sep);
    HoldingPrintable(before, a, b, sep, after);
    EqualsRenames(before, e, after);
    MeaningAppend(before + Renamed(e), after, map[]);
    MeaningAppend(before, Renamed(e), map[]);
    RenamedMeans(e, Meaning(before));
  }

  lemma HoldingShown(before: seq<Item>, a: string, b: string, sep: string, after: seq<Item>, m: AuthModule,
                     parseURL: UrlParser, encode: Values -> string)
    requires HoldsPassword(before, a, sep, after) && Ordinary(b)
    ensures Shown(Print(Holding(before, a, b, sep, after)), m, parseURL, encode)
            == Some(Text(Meaning(after, Front(before, a)[TrimLeft(a) := if |sep| >= 2 then "" else TrimLeft(b)]),
                         m, encode))
  {
    HoldingPrintable(before, a, b, sep, after);
    HoldingMeans(before, a, b, sep, after);
    ShownIsText(Holding(before, a, b, sep, after), m, parseURL, encode);
  }

  // What a caller can check: the rest of the password is dropped or replaced, or is the password.
  ghost predicate RestIsHidden(a: string, sep: string, after: seq<Item>, m: AuthModule) {
    |sep| >= 2 || TrimLeft(a) == "password" || StoresKey(after, TrimLeft(a)) || Covers(m, TrimLeft(a))
  }

  lemma HiddenRest(base: map<string, string>, a: string, sep: string, after: seq<Item>, m: AuthModule,
                   x: string, y: string, encode: Values -> string)
    requires |sep| < 2 && RestIsHidden(a, sep, after, m) && x != "" && y != ""
    ensures Text(Meaning(after, base[TrimLeft(a) := x]), m, encode)
            == Text(Meaning(after, base[TrimLeft(a) := y]), m, encode)
  {
    var k, pairs := TrimLeft(a), Meaning(after, base);
    EntryBefore(after, base, k, x);
    EntryBefore(after, base, k, y);
    if !StoresKey(after, k) {
      if k == "password" {
        SameTexts(pairs[k := x], pairs[k := y], m, encode);
      } else {
        CoveredStaysHidden(pairs, m, k, x, y);
      }
    }
  }

  lemma SomeOrdinary()
    ensures Ordinary("x") && Ordinary("y") && TrimLeft("x") == "x" && TrimLeft("y") == "y"
  {
  }

  lemma ShownRest(before: seq<Item>, a: string, sep: string, after: seq<Item>, m: AuthModule, parseURL: UrlParser,
                  encode: Values -> string)
    requires HoldsPassword(before, a, sep, after) && Faithful(encode) && !RestIsHidden(a, sep, after, m)
    ensures !Hidden(before, a, sep, after, m, parseURL, encode)
  {
    var k, base := TrimLeft(a), Front(before, a);
    SomeOrdinary();
    HoldingShown(before, a, "x", sep, after, m, parseURL, encode);
    HoldingShown(before, a, "y", sep, after, m, parseURL, encode);
    EntryBefore(after, base, k, "x");
    EntryBefore(after, base, k, "y");
    if Text(Meaning(after, base)[k := "x"], m, encode) == Text(Meaning(after, base)[k := "y"], m, encode) {
      ValueShows(Meaning(after, base), m, k, "x", "y", encode);
    }
  }

  // In every list: what follows the equals sign stays hidden exactly when a second separator rune
  // drops it, or a later item or the module replaces it, or what stands before the equals sign is
  // "password" itself, up to leading whitespace.
  lemma HiddenExactly(before: seq<Item>, a: string, sep: string, after: seq<Item>, m: AuthModule, parseURL: UrlParser,
                      encode: Values -> string)
    requires HoldsPassword(before, a, sep, after) && Faithful(encode)
    ensures Hidden(before, a, sep, after, m, parseURL, encode) <==> RestIsHidden(a, sep, after, m)
  {
    if RestIsHidden(a, sep, after, m) {
      forall b: string, c: string | Ordinary(b) && Ordinary(c)
        ensures Shown(Print(Holding(before, a, b, sep, after)), m, parseURL, encode)
                == Shown(Print(Holding(before, a, c, sep, after)), m, parseURL, encode)
      {
        HoldingShown(before, a, b, sep, after, m, parseURL, encode);
        HoldingShown(before, a, c, sep, after, m, parseURL, encode);
        if |sep| < 2 {
          HiddenRest(Front(before, a), a, sep, after, m, TrimLeft(b), TrimLeft(c), encode);
        }
      }
    } else {
      ShownRest(before, a, sep, after, m, parseURL, encode);
    }
  }
}
