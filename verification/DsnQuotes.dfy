/** What a quoted value without equals sign does to the parser, however it is quoted inside. */
module DsnQuotes {
  import opened Prelude
  import opened Runes
  import opened DsnParser
  import opened DsnRoundTrip

  predicate OddQuotes(v: string) {
    v != "" && IsQuote(v[0]) != OddQuotes(v[1..])
  }

  // What a caller can check of a value: no equals sign, and every quotation mark has a partner.
  predicate Calm(v: string) { '=' !in v && !OddQuotes(v) }

  // Whitespace that ends a value: outside quotation marks, or with nothing in front of it.
  predicate Ends(part: string, quoted: bool, c: char) { IsSpace(c) && (part == "" || !quoted) }

  // The runes the parser holds after v.
  function Tail(part: string, quoted: bool, v: string): string
    decreases |v|
  {
    if v == "" then part
    else if IsQuote(v[0]) then Tail(part, !quoted, v[1..])
    else if Ends(part, quoted, v[0]) then Tail("", quoted, v[1..])
    else Tail(part + [v[0]], quoted, v[1..])
  }

  // What it has stored by then.
  function Flushed(out: map<string, string>, key: string, part: string, quoted: bool, v: string): map<string, string>
    decreases |v|
  {
    if v == "" then out
    else if IsQuote(v[0]) then Flushed(out, key, part, !quoted, v[1..])
    else if Ends(part, quoted, v[0]) then Flushed(out[key := part], key, "", quoted, v[1..])
    else Flushed(out, key, part + [v[0]], quoted, v[1..])
  }

  // The same, from an opening quotation mark on.
  function Kept(v: string): string { Tail("", true, v) }

  function Within(out: map<string, string>, key: string, v: string): map<string, string> {
    Flushed(out, key, "", true, v)
  }

  lemma {:induction false} CleanIsKept(part: string, v: string)
    requires All(v, IsClean)
    ensures !OddQuotes(v) && Tail(part, true, v) == part + if part == "" then TrimLeft(v) else v
    decreases |v|
  {
    if v != "" {
      CleanIsKept(if part == "" && IsSpace(v[0]) then "" else part + [v[0]], v[1..]);
      assert [v[0]] + v[1..] == v;
    } else {
      assert part + v == part;
    }
  }

  // Ordinary values are calm, and all but their leading whitespace is kept.
  lemma CleanIsCalm(v: string)
    requires All(v, IsClean)
    ensures Calm(v) && Kept(v) == TrimLeft(v)
  {
    CleanIsKept("", v);
    assert "" + TrimLeft(v) == TrimLeft(v);
  }

  ghost predicate SameOff(a: map<string, string>, b: map<string, string>, key: string) {
    forall k :: k != key ==> (k in a <==> k in b) && (k in a ==> a[k] == b[k])
  }

  // Such a value touches its own key only.
  lemma {:induction false} FlushedOff(out: map<string, string>, key: string, part: string, quoted: bool, v: string)
    ensures SameOff(out, Flushed(out, key, part, quoted, v), key)
    decreases |v|
  {
    if v == "" {
    } else if IsQuote(v[0]) {
      FlushedOff(out, key, part, !quoted, v[1..]);
    } else if Ends(part, quoted, v[0]) {
      FlushedOff(out[key := part], key, "", quoted, v[1..]);
    } else {
      FlushedOff(out, key, part + [v[0]], quoted, v[1..]);
    }
  }

  // State after a value.
  function AfterValue(s: State, v: string): State {
    var part := Tail(s.part, s.inQuote, v);
    State(Flushed(s.out, s.key, s.part, s.inQuote, v), part != "", s.inQuote != OddQuotes(v), part, s.key)
  }

  lemma {:induction false} RunQuoted(s: State, v: string, rest: string)
    requires s.key != "" && (s.inPart <==> s.part != "") && '=' !in v
    ensures Run(s, v + rest) == Run(AfterValue(s, v), rest)
    decreases |v|
  {
    if v == "" {
      assert v + rest == rest;
    } else {
      assert (v + rest)[1..] == v[1..] + rest;
      RunQuoted(Step(s, v[0]).value, v[1..], rest);
    }
  }

  // State after the closing quotation mark of an item.
  function AfterItem(out: map<string, string>, key: string, v: string): State {
    State(Within(out, key, v), Kept(v) != "", OddQuotes(v), Kept(v), key)
  }

  ghost predicate Printed(x: Item) { x.key != "" && All(x.key, IsAlnum) && All(x.sep, IsSpace) }

  lemma RunQuotedItem(s: State, it: Item, rest: string)
    requires Resting(s) && Printed(it) && '=' !in it.value
    ensures Run(s, PrintItem(it) + rest) == Run(AfterItem(s.out, it.key, it.value), it.sep + rest)
  {
    var tail := "\"" + (it.sep + rest);
    assert PrintItem(it) + rest == it.key + "=" + "\"" + (it.value + tail);
    RunOpening(s, it.key, it.value + tail);
    RunQuoted(Opened(s, it.key), it.value, tail);
    assert tail[1..] == it.sep + rest;
  }

  // ----- Which runes are which -----

  // Every rune there is: a quotation mark vanishes, whitespace ends the value, a second equals sign
  // is an error, and anything else is the value.
  lemma OneRune(c: char)
    ensures c in QUOTATION_MARKS ==> Parse("k=" + [c]) == Ok(map[])
    ensures c in WHITE_SPACE ==> Parse("k=" + [c]) == Ok(map["k" := ""])
    ensures c == '=' ==> Parse("k=" + [c]).Err?
    ensures c !in QUOTATION_MARKS && c !in WHITE_SPACE && c != '=' ==> Parse("k=" + [c]) == Ok(map["k" := [c]])
  {
    RunesAreListed(c);
    OneRuneStep(c, START.(key := "k"));
    RunKey(c);
  }

  lemma RunKey(c: char)
    ensures Run(START, "k=" + [c]) == Run(START.(key := "k"), [c])
  {
    var text := "k=" + [c];
    var s := START.(inPart := true, part := "k");
    assert text[1..] == "=" + [c] && text[1..][1..] == [c];
    assert "" + ['k'] == "k";
    assert Step(START, 'k') == Ok(s) && Step(s, '=') == Ok(START.(key := "k"));
  }

  lemma OneRuneStep(c: char, s: State)
    requires !s.inPart && s.part == ""
    ensures Run(s, [c]) == Step(s, c)
    ensures !IsQuote(c) && !IsSpace(c) && c != '=' ==> Step(s, c) == Ok(s.(inPart := true, part := [c]))
  {
    assert [c][1..] == "" && "" + [c] == [c];
  }

  // The same text, but for which quotation marks it uses.
  ghost predicate SameButQuotes(a: string, b: string) {
    |a| == |b| && forall i :: 0 <= i < |a| ==> a[i] == b[i] || (a[i] in QUOTATION_MARKS && b[i] in QUOTATION_MARKS)
  }

  lemma {:induction false} QuotesInterchange(s: State, a: string, b: string)
    requires SameButQuotes(a, b)
    ensures Run(s, a) == Run(s, b)
    decreases |a|
  {
    if a != "" {
      RunesAreListed(a[0]);
      RunesAreListed(b[0]);
      if Step(s, a[0]).Ok? {
        QuotesInterchange(Step(s, a[0]).value, a[1..], b[1..]);
      }
    }
  }

  // So lists come back under any quotation marks, and opening and closing ones need not match.
  lemma AnyQuotesRoundTrip(items: seq<Item>, text: string)
    requires Printable(items) && AllSurvive(items) && SameButQuotes(text, Print(items))
    ensures Parse(text) == Ok(LastWins(items))
  {
    QuotesInterchange(START, text, Print(items));
    RoundTrip(items);
  }
}
