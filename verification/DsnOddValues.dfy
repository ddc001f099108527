/**
 Values that the parser takes apart: those with an equals sign, and those with an odd number of
 quotation marks.
 */
module DsnOddValues {
  import opened Prelude
  import opened Runes
  import opened DsnParser
  import opened DsnRoundTrip
  import opened DsnQuotes

  lemma MeaningOne(it: Item, base: map<string, string>)
    ensures Meaning([it], base) == Store(it, base)
  {
    assert [it][1..] == [];
  }

  lemma {:induction false} MeaningKeys(items: seq<Item>, base: map<string, string>)
    requires Printable(items) && forall k :: k in base ==> All(k, IsAlnum)
    ensures forall k :: k in Meaning(items, base) ==> All(k, IsAlnum)
    decreases |items|
  {
    if items != [] {
      MeaningKeys(items[1..], Store(items[0], base));
    }
  }

  lemma {:induction false} PrintAppend(xs: seq<Item>, ys: seq<Item>)
    ensures Print(xs + ys) == Print(xs) + Print(ys)
    decreases |xs|
  {
    if xs == [] {
      assert xs + ys == ys;
      assert Print(xs) + Print(ys) == Print(ys);
    } else {
      assert (xs + ys)[1..] == xs[1..] + ys;
      PrintAppend(xs[1..], ys);
      Regroup(PrintItem(xs[0]), Print(xs[1..]), Print(ys));
    }
  }

  lemma PrintOne(x: Item)
    ensures Print([x]) == PrintItem(x)
  {
    assert [x][1..] == [];
    assert PrintItem(x) + "" == PrintItem(x);
  }

  // Some item with the key stores a value.
  ghost predicate StoresKey(items: seq<Item>, k: string) {
    exists i :: 0 <= i < |items| && items[i].key == k && !NeverStored(items[i])
  }

  lemma StoresKeyFirst(items: seq<Item>, k: string)
    requires items != []
    ensures StoresKey(items, k) <==> (items[0].key == k && !NeverStored(items[0])) || StoresKey(items[1..], k)
  {
    assert forall i :: 0 <= i < |items[1..]| ==> items[1..][i] == items[i + 1];
  }

  // An entry that is there before the list is read survives it unless the list stores its key.
  lemma {:induction false} EntryBefore(items: seq<Item>, base: map<string, string>, k: string, v: string)
    ensures Meaning(items, base[k := v])
            == if StoresKey(items, k) then Meaning(items, base) else Meaning(items, base)[k := v]
    decreases |items|
  {
    if items != [] {
      var it, more := items[0], items[1..];
      StoresKeyFirst(items, k);
      if it.key == k && !NeverStored(it) {
        SetTwice(base, k, v, Stored(it));
      } else {
        if !NeverStored(it) {
          assert base[k := v][it.key := Stored(it)] == base[it.key := Stored(it)][k := v];
        }
        EntryBefore(more, Store(it, base), k, v);
      }
    }
  }

  // ----- One item in a list -----

  lemma PartsArePrintable(before: seq<Item>, x: Item, after: seq<Item>)
    requires Printable(before + [x] + after)
    ensures Printable(before) && Printed(x) && Printable(after) && (x.sep == "" ==> after == [])
    ensures forall i :: 0 <= i < |before| ==> before[i].sep != ""
  {
    var all := before + [x] + after;
    assert forall i :: 0 <= i < |before| ==> all[i] == before[i];
    assert all[|before|] == x;
    assert forall i :: 0 <= i < |after| ==> all[|before| + 1 + i] == after[i];
  }

  lemma PrintParts(before: seq<Item>, x: Item, after: seq<Item>)
    ensures Print(before + [x] + after) == Print(before) + (PrintItem(x) + Print(after))
  {
    PrintAppend(before + [x], after);
    PrintAppend(before, [x]);
    PrintOne(x);
    Regroup(Print(before), PrintItem(x), Print(after));
  }

  lemma Regroup(a: string, b: string, c: string)
    ensures a + b + c == a + (b + c)
  {
  }

  // The parser in front of an item.
  lemma RunBefore(before: seq<Item>, x: Item, after: seq<Item>) returns (s: State)
    requires Printable(before + [x] + after) && CleanValues(before)
    ensures Resting(s) && s.out == Meaning(before)
    ensures Run(START, Print(before + [x] + after)) == Run(s, PrintItem(x) + Print(after))
  {
    PartsArePrintable(before, x, after);
    PrintParts(before, x, after);
    RunSeparated(START, before, PrintItem(x) + Print(after));
    s := State(Meaning(before), false, false, "", if before == [] then "" else before[|before| - 1].key);
  }

  // ----- Clean text after an opening quotation mark -----

  predicate Indented(a: string) { a != "" && IsSpace(a[0]) }

  // Whitespace in front of the text has stored an empty value.
  function Indent(out: map<string, string>, key: string, a: string): map<string, string> {
    if Indented(a) then out[key := ""] else out
  }

  function AfterText(s: State, key: string, a: string): State {
    State(Indent(s.out, key, a), TrimLeft(a) != "", true, TrimLeft(a), key)
  }

  lemma TrimFacts(a: string)
    requires All(a, IsClean)
    ensures var lead, w := TakeWhile(a, IsSpace), TrimLeft(a);
            && All(w, IsClean) && (w != "" ==> !IsSpace(w[0]))
            && (lead == "" <==> !Indented(a)) && a == lead + w && All(lead, IsSpace)
  {
    DropWhileKeeps(a, IsSpace, IsClean);
    TakenNone(a, IsSpace);
  }

  lemma RunText(s: State, key: string, a: string, tail: string)
    requires Resting(s) && key != "" && All(key, IsAlnum) && All(a, IsClean)
    ensures Run(s, key + "=" + "\"" + (a + tail)) == Run(AfterText(s, key, a), tail)
  {
    var lead, w := TakeWhile(a, IsSpace), TrimLeft(a);
    TrimFacts(a);
    assert a + tail == lead + (w + tail);
    RunOpening(s, key, a + tail);
    RunIdle(Opened(s, key), lead, w + tail);
    RunTrimmedText(State(Indent(s.out, key, a), false, true, "", key), w, tail);
  }

  lemma RunTrimmedText(t: State, w: string, tail: string)
    requires All(w, IsClean) && (w != "" ==> !IsSpace(w[0])) && !t.inPart && t.inQuote && t.part == ""
    ensures Run(t, w + tail) == Run(t.(inPart := w != "", part := w), tail)
  {
    RunWord(t, w, tail);
    assert t.part + w == w;
  }

  // ----- A value with an equals sign -----

  // The item key="a=b".
  datatype Equated = Equated(key: string, a: string, b: string, sep: string)

  function AsItem(e: Equated): Item { Item(e.key, e.a + "=" + e.b, e.sep) }

  // What it amounts to: the item (a, b), after the key itself where a starts with whitespace.
  function Renamed(e: Equated): seq<Item> {
    (if Indented(e.a) then [Item(e.key, "", " ")] else []) + [Item(TrimLeft(e.a), e.b, e.sep)]
  }

  ghost predicate CleanSides(e: Equated) {
    Printed(AsItem(e)) && All(e.a, IsClean) && All(e.b, IsClean)
  }

  lemma RenamedMeans(e: Equated, out: map<string, string>)
    ensures Meaning(Renamed(e), out) == Store(Item(TrimLeft(e.a), e.b, e.sep), Indent(out, e.key, e.a))
  {
    var it, first := Item(TrimLeft(e.a), e.b, e.sep), Item(e.key, "", " ");
    MeaningOne(it, Indent(out, e.key, e.a));
    if Indented(e.a) {
      MeaningOne(first, out);
      MeaningAppend([first], [it], out);
    } else {
      assert [] + [it] == [it];
    }
  }

  // State after its equals sign.
  function AfterEquals(s: State, e: Equated): State {
    State(Indent(s.out, e.key, e.a), false, true, "", TrimLeft(e.a))
  }

  lemma ItemText(e: Equated, rest: string)
    ensures PrintItem(AsItem(e)) + rest == e.key + "=" + "\"" + (e.a + ("=" + (e.b + "\"" + (e.sep + rest))))
  {
  }

  lemma RunRenamed(s: State, e: Equated, rest: string)
    requires Resting(s) && CleanSides(e) && TrimLeft(e.a) != ""
    ensures Run(s, PrintItem(AsItem(e)) + rest) == Run(Closed(AfterEquals(s, e), e.b), e.sep + rest)
  {
    var tail := e.b + "\"" + (e.sep + rest);
    ItemText(e, rest);
    RunText(s, e.key, e.a, "=" + tail);
    assert ("=" + tail)[1..] == tail;
    RunValue(AfterEquals(s, e), e.b, e.sep + rest);
  }

  // With a separator it leaves the parser at rest, on the new key.
  lemma RunRenamedStored(s: State, e: Equated, rest: string)
    requires Resting(s) && CleanSides(e) && TrimLeft(e.a) != "" && e.sep != ""
    ensures Run(s, PrintItem(AsItem(e)) + rest)
            == Run(State(Meaning(Renamed(e), s.out), false, false, "", TrimLeft(e.a)), rest)
  {
    RunRenamed(s, e, rest);
    RenamedMeans(e, s.out);
    RunSeparator(Closed(AfterEquals(s, e), e.b), e.sep, rest);
    StoreClosed(AfterEquals(s, e), Item(TrimLeft(e.a), e.b, e.sep));
  }

  lemma FinishRenamed(s: State, e: Equated)
    requires Resting(s) && CleanSides(e) && TrimLeft(e.a) != "" && e.sep == ""
    ensures var r := Run(s, PrintItem(AsItem(e)));
            r.Ok? && Finish(r.value) == Meaning(Renamed(e), s.out)
  {
    assert PrintItem(AsItem(e)) + "" == PrintItem(AsItem(e)) && e.sep + "" == "";
    RunRenamed(s, e, "");
    RenamedMeans(e, s.out);
    FinishClosed(AfterEquals(s, e), Item(TrimLeft(e.a), e.b, e.sep));
  }

  // The value a=b does not go to its own key: the list reads as if it held the item (a, b).
  lemma EqualsRenames(before: seq<Item>, e: Equated, after: seq<Item>)
    requires Printable(before + [AsItem(e)] + after) && CleanValues(before) && CleanValues(after)
    requires All(e.a, IsClean) && All(e.b, IsClean) && TrimLeft(e.a) != ""
    ensures Parse(Print(before + [AsItem(e)] + after)) == Ok(Meaning(before + Renamed(e) + after))
  {
    PartsArePrintable(before, AsItem(e), after);
    var s := RunBefore(before, AsItem(e), after);
    MeaningAppend(before + Renamed(e), after, map[]);
    MeaningAppend(before, Renamed(e), map[]);
    RunRenamedAndMore(s, e, after);
  }

  lemma RunRenamedAndMore(s: State, e: Equated, after: seq<Item>)
    requires Resting(s) && CleanSides(e) && TrimLeft(e.a) != "" && (e.sep == "" ==> after == [])
    requires Printable(after) && CleanValues(after)
    ensures var r := Run(s, PrintItem(AsItem(e)) + Print(after));
            r.Ok? && Finish(r.value) == Meaning(after, Meaning(Renamed(e), s.out))
  {
    if e.sep == "" {
      assert PrintItem(AsItem(e)) + Print(after) == PrintItem(AsItem(e));
      FinishRenamed(s, e);
    } else {
      RunRenamedStored(s, e, Print(after));
      RunItems(State(Meaning(Renamed(e), s.out), false, false, "", TrimLeft(e.a)), after);
    }
  }

  // With nothing but whitespace in front of the equals sign there is no key-value reading.
  lemma BlankBeforeEquals(before: seq<Item>, e: Equated, after: seq<Item>)
    requires Printable(before + [AsItem(e)] + after) && CleanValues(before)
    requires All(e.a, IsClean) && TrimLeft(e.a) == ""
    ensures Parse(Print(before + [AsItem(e)] + after)).Err?
  {
    PartsArePrintable(before, AsItem(e), after);
    var s := RunBefore(before, AsItem(e), after);
    ItemText(e, Print(after));
    RunText(s, e.key, e.a, "=" + (e.b + "\"" + (e.sep + Print(after))));
  }

  // ----- A value with an odd number of quotation marks -----

  // No equals sign, an odd number of quotation marks, and something that is kept.
  predicate Odd(v: string) { '=' !in v && OddQuotes(v) && Kept(v) != "" }

  // Inside quotation marks the separator and the next key are appended to what is kept.
  function Joined(v: string, sep: string, k: string): string { Kept(v) + (sep + k) }

  lemma RunAppend(t: State, w: string, tail: string)
    requires All(w, IsClean) && t.inPart && t.inQuote
    ensures Run(t, w + tail) == Run(t.(part := t.part + w), tail)
  {
    RunWord(t, w, tail);
  }

  lemma RunQuote(t: State, tail: string)
    ensures Run(t, "\"" + tail) == Run(t.(inQuote := !t.inQuote), tail)
  {
    assert ("\"" + tail)[1..] == tail;
  }

  lemma SpacedKeyIsClean(sep: string, k: string)
    requires All(sep, IsSpace) && All(k, IsAlnum)
    ensures All(sep + k, IsClean)
  {
    assert forall i :: 0 <= i < |sep + k| ==> (sep + k)[i] == if i < |sep| then sep[i] else k[i - |sep|];
  }

  // From inside quotation marks, over a separator, a key and its opening quotation mark: the key
  // is joined to what is held, and the value that follows stands outside quotation marks.
  lemma RunJoin(t: State, sep: string, it: Item, rest: string)
    requires t.inPart && t.inQuote && All(sep, IsSpace) && Printed(it)
    ensures Run(t, sep + (PrintItem(it) + rest))
            == Run(State(t.out, false, false, "", t.part + (sep + it.key)), it.value + ("\"" + (it.sep + rest)))
  {
    var tail := it.value + ("\"" + (it.sep + rest));
    JoinText(sep, it, rest);
    SpacedKeyIsClean(sep, it.key);
    RunAppend(t, sep + it.key, "=" + ("\"" + tail));
    RunNewKey(t.(part := t.part + (sep + it.key)), "\"" + tail);
    RunQuote(State(t.out, false, true, "", t.part + (sep + it.key)), tail);
  }

  lemma JoinText(sep: string, it: Item, rest: string)
    ensures sep + (PrintItem(it) + rest) == sep + it.key + ("=" + ("\"" + (it.value + ("\"" + (it.sep + rest)))))
  {
    var quoted := "\"" + (it.value + ("\"" + (it.sep + rest)));
    assert PrintItem(it) + rest == it.key + ("=" + quoted);
    Regroup(sep, it.key, "=" + quoted);
  }

  lemma RunNewKey(u: State, tail: string)
    requires u.inPart
    ensures Run(u, "=" + tail) == Run(State(u.out, false, u.inQuote, "", u.part), tail)
  {
    assert ("=" + tail)[1..] == tail;
  }

  // The parser behind the key of the item that follows an odd value.
  lemma RunOdd(s: State, x: Item, it: Item, rest: string)
    requires Resting(s) && Printed(x) && Odd(x.value) && Printed(it)
    ensures Run(s, PrintItem(x) + (PrintItem(it) + rest))
            == Run(State(Within(s.out, x.key, x.value), false, false, "", Joined(x.value, x.sep, it.key)),
                   it.value + ("\"" + (it.sep + rest)))
  {
    RunQuotedItem(s, x, PrintItem(it) + rest);
    RunJoin(AfterItem(s.out, x.key, x.value), x.sep, it, rest);
  }

  // An odd value that ends the list goes to its own key, with the separator.
  lemma FinishOdd(s: State, x: Item)
    requires Resting(s) && Printed(x) && Odd(x.value)
    ensures var r := Run(s, PrintItem(x));
            r.Ok? && Finish(r.value) == Within(s.out, x.key, x.value)[x.key := Kept(x.value) + x.sep]
  {
    assert PrintItem(x) + "" == PrintItem(x) && x.sep + "" == x.sep;
    RunQuotedItem(s, x, "");
    var t := AfterItem(s.out, x.key, x.value);
    assert "" + x.sep == x.sep && x.sep + "" == x.sep;
    SpacedKeyIsClean(x.sep, "");
    RunAppend(t, x.sep, "");
  }

  // ----- Whether the joined key is stored -----

  // A plain value is held, up to its closing quotation mark.
  lemma RunHeld(u: State, c: string, rest: string)
    requires !u.inPart && !u.inQuote && u.part == "" && c != "" && All(c, IsPlain)
    ensures Run(u, c + ("\"" + rest)) == Run(State(u.out, true, true, c, u.key), rest)
  {
    RunWord(u, c, "\"" + rest);
    assert u.part + c == c;
    RunQuote(u.(inPart := true, part := c), rest);
  }

  // When the list ends there, it is stored.
  lemma FinishHeld(u: State, c: string, sep: string)
    requires !u.inPart && !u.inQuote && u.part == "" && u.key != "" && c != "" && All(c, IsPlain) && All(sep, IsSpace)
    ensures var r := Run(u, c + ("\"" + sep));
            r.Ok? && Finish(r.value) == u.out[u.key := c + sep]
  {
    RunHeld(u, c, sep);
    assert sep + "" == sep;
    SpacedKeyIsClean(sep, "");
    RunAppend(State(u.out, true, true, c, u.key), sep, "");
  }

  // When another item follows, the joined key is forgotten: it never gets its value.
  lemma RunForgets(u: State, c: string, sep: string, it: Item, rest: string)
    requires !u.inPart && !u.inQuote && u.part == "" && c != "" && All(c, IsPlain) && All(sep, IsSpace) && Printed(it)
    ensures Run(u, c + ("\"" + (sep + (PrintItem(it) + rest))))
            == Run(State(u.out, false, false, "", c + (sep + it.key)), it.value + ("\"" + (it.sep + rest)))
  {
    RunHeld(u, c, sep + (PrintItem(it) + rest));
    RunJoin(State(u.out, true, true, c, u.key), sep, it, rest);
  }

  predicate HasSpace(c: string) { exists i :: 0 <= i < |c| && IsSpace(c[i]) }

  // The text up to its first whitespace, and behind it.
  lemma SpaceSplits(c: string) returns (w: string, space: char, more: string)
    requires All(c, IsClean) && HasSpace(c)
    ensures c == w + ([space] + more) && All(w, IsPlain) && IsSpace(space) && All(more, IsClean)
  {
    var n := 0;
    while !IsSpace(c[n])
      invariant 0 <= n < |c| && exists i :: n <= i < |c| && IsSpace(c[i])
      invariant All(c[..n], IsPlain)
      decreases |c| - n
    {
      assert c[..n + 1] == c[..n] + [c[n]];
      n := n + 1;
    }
    w, space, more := c[..n], c[n], c[n + 1..];
  }

  // Whitespace in the value stores the joined key.
  lemma RunSpaced(u: State, c: string, rest: string) returns (w: string, more: string)
    requires !u.inPart && !u.inQuote && u.part == "" && u.key != "" && All(c, IsClean) && HasSpace(c)
    ensures Run(u, c + rest) == Run(State(u.out[u.key := w], false, false, "", u.key), more + rest)
    ensures All(more, IsClean)
  {
    var space: char;
    w, space, more := SpaceSplits(c);
    assert c + rest == w + ([space] + (more + rest));
    RunWord(u, w, [space] + (more + rest));
    assert u.part + w == w;
    RunFlush(u.(inPart := w != "", part := w), space, more + rest);
  }

  lemma RunFlush(u: State, space: char, rest: string)
    requires IsSpace(space) && !u.inQuote && u.key != ""
    ensures Run(u, [space] + rest) == Run(State(u.out[u.key := u.part], false, false, "", u.key), rest)
  {
    assert ([space] + rest)[1..] == rest;
  }

  // Nothing between the quotation marks, and whitespace behind them, stores it too.
  lemma RunEmpty(u: State, sep: string, rest: string)
    requires !u.inPart && !u.inQuote && u.part == "" && u.key != "" && sep != "" && All(sep, IsSpace)
    ensures Run(u, "" + ("\"" + (sep + rest))) == Run(State(u.out[u.key := ""], false, true, "", u.key), rest)
  {
    assert "" + ("\"" + (sep + rest)) == "\"" + (sep + rest);
    RunQuote(u, sep + rest);
    RunIdle(u.(inQuote := true), sep, rest);
  }

  // What a caller can check of the items that follow: the joined key is stored exactly when the
  // first of them has whitespace in its value, or an empty value and a separator, or is the last
  // and has a value.
  predicate JoinedIsStored(after: seq<Item>) {
    && after != []
    && var c := after[0].value;
       HasSpace(c) || if c == "" then after[0].sep != "" else |after| == 1
  }

  // A list that ends in an odd value and one plain one: the value, the separator and the next key
  // make one long key.
  lemma OddQuotesJoin(before: seq<Item>, x: Item, it: Item)
    requires Printable(before + [x] + [it]) && CleanValues(before) && Odd(x.value)
    requires it.value != "" && All(it.value, IsPlain)
    ensures Parse(Print(before + [x] + [it]))
            == Ok(Within(Meaning(before), x.key, x.value)[Joined(x.value, x.sep, it.key) := it.value + it.sep])
  {
    PartsArePrintable(before, x, [it]);
    assert Printed([it][0]) && [it][1..] == [];
    var s := RunBefore(before, x, [it]);
    assert Print([it]) == PrintItem(it) + "";
    RunOdd(s, x, it, "");
    assert it.sep + "" == it.sep;
    var u := State(Within(s.out, x.key, x.value), false, false, "", Joined(x.value, x.sep, it.key));
    FinishHeld(u, it.value, it.sep);
  }
}
