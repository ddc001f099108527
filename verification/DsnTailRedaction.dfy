/** What DSN.String gives away of the end of a password, whatever stands in front of it. */
module DsnTailRedaction {
  import opened Prelude
  import opened Runes
  import opened DsnParser
  import opened DsnRoundTrip
  import opened DsnQuotes
  import opened DsnOddValues
  import opened DsnTarget
  import opened DsnRedaction
  import opened DsnJoinedKeys
  import opened DsnOddRedaction

  predicate Plain(b: string) { b != "" && forall i :: 0 <= i < |b| ==> IsPlain(b[i]) }

  // The parser behind the front of the password, which may hold equals signs and quotation marks.
  function ReadFront(before: seq<Item>, front: string): Result<State> {
    Run(State(Meaning(before), false, true, "", "password"), front)
  }

  lemma {:induction false} RunKeepsShape(s: State, text: string)
    requires Run(s, text).Ok? && s.key != "" && (s.inPart <==> s.part != "")
    ensures var t := Run(s, text).value;
            t.key != "" && (t.inPart <==> t.part != "")
    decreases |text|
  {
    if text != "" {
      RunKeepsShape(Step(s, text[0]).value, text[1..]);
    }
  }

  lemma {:induction false} RunSplits(s: State, text: string, rest: string)
    requires Run(s, text).Ok?
    ensures Run(s, text + rest) == Run(Run(s, text).value, rest)
    decreases |text|
  {
    if text == "" {
      assert text + rest == rest;
    } else {
      assert (text + rest)[1..] == text[1..] + rest;
      RunSplits(Step(s, text[0]).value, text[1..], rest);
    }
  }

  lemma {:induction false} RunStops(s: State, text: string, rest: string)
    requires Run(s, text).Err?
    ensures Run(s, text + rest).Err?
    decreases |text|
  {
    assert (text + rest)[1..] == text[1..] + rest;
    if Step(s, text[0]).Ok? {
      RunStops(Step(s, text[0]).value, text[1..], rest);
    }
  }

  // Behind the end of the password and its closing quotation mark.
  function Behind(s: State, b: string): State { State(s.out, true, !s.inQuote, s.part + b, s.key) }

  lemma RunToFront(s: State, x: Item, front: string, b: string, rest: string)
    requires Resting(s) && Printed(x) && x.value == front + b
    ensures Run(s, PrintItem(x) + rest) == Run(Opened(s, x.key), front + (b + ("\"" + (x.sep + rest))))
  {
    var last := "\"" + (x.sep + rest);
    assert PrintItem(x) + rest == x.key + "=" + "\"" + (front + (b + last));
    RunOpening(s, x.key, front + (b + last));
  }

  lemma RunTail(s: State, x: Item, front: string, b: string, f: State, rest: string)
    requires Resting(s) && Printed(x) && x.value == front + b && Plain(b)
    requires Run(State(s.out, false, true, "", x.key), front) == Ok(f)
    ensures Run(s, PrintItem(x) + rest) == Run(Behind(f, b), x.sep + rest)
  {
    var last := "\"" + (x.sep + rest);
    RunToFront(s, x, front, b, rest);
    RunSplits(Opened(s, x.key), front, b + last);
    RunWord(f, b, last);
    RunQuote(f.(inPart := true, part := f.part + b), x.sep + rest);
  }

  // ----- What the list parses to -----

  function TailMap(f: State, b: string, sep: string, after: seq<Item>): map<string, string> {
    if f.inQuote then Meaning(after, f.out[f.key := if |sep| >= 2 then "" else f.part + b])
    else if after == [] then f.out[f.key := f.part + b + sep]
    else Final(f.out, f.part + b + (sep + after[0].key), after)
  }

  lemma RunQuotedTail(f: State, b: string, sep: string, after: seq<Item>)
    requires f.inQuote && f.key != "" && Plain(b) && All(sep, IsSpace) && (sep == "" ==> after == [])
    requires Printable(after) && CleanValues(after)
    ensures var r := Run(Behind(f, b), sep + Print(after));
            r.Ok? && Finish(r.value) == TailMap(f, b, sep, after)
  {
    var t := Behind(f, b);
    if sep == "" {
      assert sep + Print(after) == "";
    } else {
      RunSeparator(t, sep, Print(after));
      RunItems(State(f.out[f.key := if |sep| >= 2 then "" else f.part + b], false, false, "", f.key), after);
    }
  }

  lemma RunOpenTail(f: State, b: string, sep: string, after: seq<Item>)
    requires !f.inQuote && f.key != "" && Plain(b) && All(sep, IsSpace) && (after != [] ==> CleanRest(after))
    ensures var r := Run(Behind(f, b), sep + Print(after));
            r.Ok? && Finish(r.value) == TailMap(f, b, sep, after)
  {
    var t := Behind(f, b);
    if after == [] {
      assert sep + Print(after) == sep && sep + "" == sep;
      SpacedKeyIsClean(sep, "");
      RunAppend(t, sep, "");
    } else {
      RestParts(after);
      RunJoin(t, sep, after[0], Print(after[1..]));
      LeftRuns(f.out, f.part + b + (sep + after[0].key), after);
    }
  }

  // The parser can read the front of the password.
  ghost predicate Fronts(before: seq<Item>, front: string, f: State, sep: string, after: seq<Item>) {
    Surrounds(before, sep, after) && ReadFront(before, front) == Ok(f)
  }

  lemma TailParses(before: seq<Item>, front: string, f: State, b: string, sep: string, after: seq<Item>)
    requires Fronts(before, front, f, sep, after) && Plain(b)
    ensures f.key != "" && (f.inPart <==> f.part != "")
    ensures Parse(Print(With(before, front + b, sep, after))) == Ok(TailMap(f, b, sep, after))
  {
    WithPrintable(before, front + b, sep, after);
    RunKeepsShape(State(Meaning(before), false, true, "", "password"), front);
    var x := Item("password", front + b, sep);
    PartsArePrintable(before, x, after);
    var s := RunBefore(before, x, after);
    RunTail(s, x, front, b, f, Print(after));
    if f.inQuote {
      RunQuotedTail(f, b, sep, after);
    } else {
      RunOpenTail(f, b, sep, after);
    }
  }

  // A front that the parser cannot read leaves no key-value reading of the list at all.
  lemma UnreadableFront(before: seq<Item>, front: string, b: string, sep: string, after: seq<Item>)
    requires Surrounds(before, sep, after) && ReadFront(before, front).Err?
    ensures Parse(Print(With(before, front + b, sep, after))).Err?
  {
    WithPrintable(before, front + b, sep, after);
    var x := Item("password", front + b, sep);
    PartsArePrintable(before, x, after);
    var s := RunBefore(before, x, after);
    RunToFront(s, x, front, b, Print(after));
    RunStops(Opened(s, "password"), front, b + ("\"" + (sep + Print(after))));
  }

  lemma TailShown(before: seq<Item>, front: string, f: State, b: string, sep: string, after: seq<Item>, m: AuthModule,
                  parseURL: UrlParser, encode: Values -> string)
    requires Fronts(before, front, f, sep, after) && Plain(b)
    ensures Shown(Print(With(before, front + b, sep, after)), m, parseURL, encode)
            == Some(Text(TailMap(f, b, sep, after), m, encode))
  {
    WithPrintable(before, front + b, sep, after);
    TailParses(before, front, f, b, sep, after);
    ShownIsText(With(before, front + b, sep, after), m, parseURL, encode);
  }

  // ----- Exactly when it is hidden -----

  // An entry of the map is hidden: it is the password, or the module replaces it.
  predicate Masked(m: AuthModule, k: string) { k == "password" || Covers(m, k) }

  // What a caller can check, once the front has been read.
  ghost predicate TailIsHidden(f: State, sep: string, after: seq<Item>, m: AuthModule) {
    if f.inQuote then |sep| >= 2 || StoresKey(after, f.key) || Masked(m, f.key)
    else if after == [] then Masked(m, f.key)
    else !JoinedIsStored(after)
  }

  lemma MaskedEntry(pairs: map<string, string>, m: AuthModule, k: string, x: string, y: string,
                    encode: Values -> string)
    requires Masked(m, k) && x != "" && y != ""
    ensures Text(pairs[k := x], m, encode) == Text(pairs[k := y], m, encode)
  {
    if k == "password" {
      SameTexts(pairs[k := x], pairs[k := y], m, encode);
    } else {
      CoveredStaysHidden(pairs, m, k, x, y);
    }
  }

  lemma HiddenTail(f: State, b: string, c: string, sep: string, after: seq<Item>, m: AuthModule,
                   encode: Values -> string)
    requires TailIsHidden(f, sep, after, m) && f.key != "" && Plain(b) && Plain(c) && (after != [] ==> CleanRest(after))
    ensures Text(TailMap(f, b, sep, after), m, encode) == Text(TailMap(f, c, sep, after), m, encode)
  {
    if f.inQuote {
      if |sep| < 2 {
        EntryBefore(after, f.out, f.key, f.part + b);
        EntryBefore(after, f.out, f.key, f.part + c);
        if !StoresKey(after, f.key) {
          MaskedEntry(Meaning(after, f.out), m, f.key, f.part + b, f.part + c, encode);
        }
      }
    } else if after == [] {
      MaskedEntry(f.out, m, f.key, f.part + b + sep, f.part + c + sep, encode);
    } else {
      var j, k := f.part + b + (sep + after[0].key), f.part + c + (sep + after[0].key);
      UnstoredTwins(f.out, f.out, j, k, after);
      SameTexts(Final(f.out, j, after), Final(f.out, k, after), m, encode);
    }
  }

  lemma XsArePlain(n: nat)
    requires n > 0
    ensures Plain(Xs(n)) && |Xs(n)| == n
  {
  }

  // Where it is not hidden, some two of them are told apart.
  lemma ShownEntry(pairs: map<string, string>, m: AuthModule, f: State, n: nat, q: string, encode: Values -> string)
    requires Faithful(encode) && !Masked(m, f.key) && n > 0
    ensures Text(pairs[f.key := f.part + Xs(n) + q], m, encode)
            != Text(pairs[f.key := f.part + Xs(n + 1) + q], m, encode)
  {
    var x, y := f.part + Xs(n) + q, f.part + Xs(n + 1) + q;
    assert |x| < |y|;
    if Text(pairs[f.key := x], m, encode) == Text(pairs[f.key := y], m, encode) {
      ValueShows(pairs, m, f.key, x, y, encode);
    }
  }

  lemma JoinedIsUnknown(held: string, sep: string, k: string)
    requires sep != "" && All(sep, IsSpace)
    ensures !IsKnown(held + (sep + k))
  {
    var j := held + (sep + k);
    assert j[|held|] == sep[0] && IsSpace(sep[0]);
    assert forall i :: 0 <= i < |"password"| ==> !IsSpace("password"[i]);
  }

  lemma ShownJoined(f: State, n: nat, sep: string, after: seq<Item>, m: AuthModule, encode: Values -> string)
    requires CleanRest(after) && JoinedIsStored(after) && Faithful(encode) && sep != "" && All(sep, IsSpace)
    requires n > |Left(after)| && forall k :: k in m.options.Keys + f.out.Keys ==> |k| < n
    ensures Text(Final(f.out, f.part + Xs(n) + (sep + after[0].key), after), m, encode)
            != Text(Final(f.out, f.part + Xs(n + 1) + (sep + after[0].key), after), m, encode)
  {
    JoinedIsUnknown(f.part + Xs(n), sep, after[0].key);
    JoinedIsUnknown(f.part + Xs(n + 1), sep, after[0].key);
    var j, k := f.part + Xs(n) + (sep + after[0].key), f.part + Xs(n + 1) + (sep + after[0].key);
    assert |j| < |k| && |j| > n;
    StoredDiffers(f.out, j, k, after, m, encode);
  }

  lemma ShownTail(f: State, n: nat, sep: string, after: seq<Item>, m: AuthModule, encode: Values -> string)
    requires !TailIsHidden(f, sep, after, m) && Faithful(encode) && n > 0
    requires All(sep, IsSpace) && (sep == "" ==> after == []) && (after != [] ==> CleanRest(after) && n > |Left(after)|)
    requires forall k :: k in m.options.Keys + f.out.Keys ==> |k| < n
    ensures Text(TailMap(f, Xs(n), sep, after), m, encode) != Text(TailMap(f, Xs(n + 1), sep, after), m, encode)
  {
    if f.inQuote {
      var x, y := f.part + Xs(n), f.part + Xs(n + 1);
      assert x + "" == x && y + "" == y;
      EntryBefore(after, f.out, f.key, x);
      EntryBefore(after, f.out, f.key, y);
      ShownEntry(Meaning(after, f.out), m, f, n, "", encode);
    } else if after == [] {
      ShownEntry(f.out, m, f, n, sep, encode);
    } else {
      ShownJoined(f, n, sep, after, m, encode);
    }
  }

  ghost predicate HiddenEnd(before: seq<Item>, front: string, sep: string, after: seq<Item>, m: AuthModule,
                            parseURL: UrlParser, encode: Values -> string) {
    forall b: string, c: string :: Plain(b) && Plain(c) ==>
      Shown(Print(With(before, front + b, sep, after)), m, parseURL, encode)
      == Shown(Print(With(before, front + c, sep, after)), m, parseURL, encode)
  }

  // A length beyond all there is to read and all keys there are.
  ghost predicate Beyond(f: State, n: nat, after: seq<Item>, m: AuthModule) {
    n > 0 && (after != [] ==> n > |Left(after)|) && forall k :: k in m.options.Keys + f.out.Keys ==> |k| < n
  }

  lemma SomeBeyond(f: State, after: seq<Item>, m: AuthModule) returns (n: nat)
    ensures Beyond(f, n, after, m)
  {
    var longest := LongerThanAll(m.options.Keys + f.out.Keys);
    n := longest + 1 + if after == [] then 0 else |Left(after)|;
  }

  lemma EndsDiffer(before: seq<Item>, front: string, f: State, n: nat, sep: string, after: seq<Item>, m: AuthModule,
                   parseURL: UrlParser, encode: Values -> string)
    requires Fronts(before, front, f, sep, after) && Faithful(encode) && !TailIsHidden(f, sep, after, m)
    requires Beyond(f, n, after, m) && Plain(Xs(n)) && Plain(Xs(n + 1))
    ensures Shown(Print(With(before, front + Xs(n), sep, after)), m, parseURL, encode)
            != Shown(Print(With(before, front + Xs(n + 1), sep, after)), m, parseURL, encode)
  {
    TailShown(before, front, f, Xs(n), sep, after, m, parseURL, encode);
    TailShown(before, front, f, Xs(n + 1), sep, after, m, parseURL, encode);
    WithPrintable(before, "", sep, after);
    ShownTail(f, n, sep, after, m, encode);
  }

  lemma UnhiddenEnd(before: seq<Item>, front: string, f: State, sep: string, after: seq<Item>, m: AuthModule,
                    parseURL: UrlParser, encode: Values -> string)
    requires Fronts(before, front, f, sep, after) && Faithful(encode) && !TailIsHidden(f, sep, after, m)
    ensures !HiddenEnd(before, front, sep, after, m, parseURL, encode)
  {
    var n := SomeBeyond(f, after, m);
    XsArePlain(n);
    XsArePlain(n + 1);
    EndsDiffer(before, front, f, n, sep, after, m, parseURL, encode);
  }

  // For every password that the parser can read: a plain ending stays hidden exactly when the entry
  // or key that it becomes part of, as read off the front, is dropped, replaced, or the password.
  lemma HiddenEndExactly(before: seq<Item>, front: string, f: State, sep: string, after: seq<Item>, m: AuthModule,
                         parseURL: UrlParser, encode: Values -> string)
    requires Fronts(before, front, f, sep, after) && Faithful(encode)
    ensures HiddenEnd(before, front, sep, after, m, parseURL, encode) <==> TailIsHidden(f, sep, after, m)
  {
    if TailIsHidden(f, sep, after, m) {
      forall b: string, c: string | Plain(b) && Plain(c)
        ensures Shown(Print(With(before, front + b, sep, after)), m, parseURL, encode)
                == Shown(Print(With(before, front + c, sep, after)), m, parseURL, encode)
      {
        TailShown(before, front, f, b, sep, after, m, parseURL, encode);
        TailShown(before, front, f, c, sep, after, m, parseURL, encode);
        TailParses(before, front, f, b, sep, after);
        WithPrintable(before, "", sep, after);
        HiddenTail(f, b, c, sep, after, m, encode);
      }
    } else {
      UnhiddenEnd(before, front, f, sep, after, m, parseURL, encode);
    }
  }
}
