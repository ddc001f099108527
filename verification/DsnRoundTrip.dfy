/** What the parser makes of printed key="value" items, and exactly when it gives them back. */
module DsnRoundTrip {
  import opened Prelude
  import opened Runes
  import opened DsnParser

  // One printed item: key="value" followed by a separator.
  datatype Item = Item(key: string, value: string, sep: string)

  function Print(items: seq<Item>): string {
    if items == [] then "" else PrintItem(items[0]) + Print(items[1..])
  }

  function PrintItem(it: Item): string {
    it.key + "=" + "\"" + it.value + "\"" + it.sep
  }

  // Alphanumeric keys; whitespace separators, of which only the last may be empty.
  ghost predicate Printable(items: seq<Item>) {
    forall i :: 0 <= i < |items| ==>
      && items[i].key != "" && All(items[i].key, IsAlnum)
      && All(items[i].sep, IsSpace) && (items[i].sep == "" ==> i == |items| - 1)
  }

  ghost predicate CleanValues(items: seq<Item>) {
    forall i :: 0 <= i < |items| ==> All(items[i].value, IsClean)
  }

  ghost predicate DistinctKeys(items: seq<Item>) {
    forall i, j :: 0 <= i < j < |items| ==> items[i].key != items[j].key
  }

  // The map a reader of the printed text expects: later items win.
  function LastWins(items: seq<Item>, base: map<string, string> := map[]): map<string, string> {
    if items == [] then base else LastWins(items[1..], base[items[0].key := items[0].value])
  }

  // What the parser stores instead. A second separator rune stores the stale key again with an
  // empty value, leading whitespace is lost, and an empty value at the end is never stored.
  function Stored(it: Item): string {
    if |it.sep| >= 2 then "" else TrimLeft(it.value)
  }

  predicate NeverStored(it: Item) { it.sep == "" && it.value == "" }

  function Store(it: Item, base: map<string, string>): map<string, string> {
    if NeverStored(it) then base else base[it.key := Stored(it)]
  }

  function Meaning(items: seq<Item>, base: map<string, string> := map[]): map<string, string> {
    if items == [] then base else Meaning(items[1..], Store(items[0], base))
  }

  // ----- Stretches of input -----

  predicate IsPlain(c: char) { !IsQuote(c) && !IsSpace(c) && c != '=' }

  predicate IsWordChar(c: char, quoted: bool) { IsPlain(c) || (quoted && IsClean(c)) }

  // Runes that are appended: plain ones, or any clean ones once a quoted part has begun.
  lemma {:induction false} RunWord(s: State, w: string, rest: string)
    requires forall i :: 0 <= i < |w| ==> IsWordChar(w[i], s.inQuote && (s.inPart || i > 0))
    ensures Run(s, w + rest) == Run(s.(inPart := s.inPart || w != "", part := s.part + w), rest)
    decreases |w|
  {
    if w == "" {
      assert w + rest == rest && s.part + w == s.part;
    } else {
      assert (w + rest)[1..] == w[1..] + rest;
      var t := s.(inPart := true, part := s.part + [w[0]]);
      assert IsWordChar(w[0], s.inQuote && s.inPart);
      assert Step(s, w[0]) == Ok(t);
      forall i | 0 <= i < |w[1..]|
        ensures IsWordChar(w[1..][i], t.inQuote && (t.inPart || i > 0))
      {
        assert w[1..][i] == w[i + 1];
      }
      RunWord(t, w[1..], rest);
      assert s.part + [w[0]] + w[1..] == s.part + w;
    }
  }

  // Whitespace outside a part stores the current key, over and over.
  lemma {:induction false} RunIdle(s: State, w: string, rest: string)
    requires All(w, IsSpace) && !s.inPart && s.part == "" && s.key != ""
    ensures Run(s, w + rest) == Run(if w == "" then s else s.(out := s.out[s.key := ""]), rest)
    decreases |w|
  {
    if w == "" {
      assert w + rest == rest;
    } else {
      assert (w + rest)[1..] == w[1..] + rest;
      var t := s.(out := s.out[s.key := ""]);
      RunIdle(t, w[1..], rest);
      assert t.out[t.key := ""] == t.out;
    }
  }

  lemma SetTwice(m: map<string, string>, k: string, v: string, w: string)
    ensures m[k := v][k := w] == m[k := w]
  {
  }

  // The separator after a closed value.
  lemma RunSeparator(s: State, sep: string, rest: string)
    requires sep != "" && All(sep, IsSpace) && !s.inQuote && s.key != ""
    ensures Run(s, sep + rest)
            == Run(s.(out := s.out[s.key := if |sep| >= 2 then "" else s.part], inPart := false, part := ""), rest)
  {
    assert (sep + rest)[1..] == sep[1..] + rest;
    var t := Flush(s).value;
    assert Run(s, sep + rest) == Run(t, sep[1..] + rest);
    RunIdle(t, sep[1..], rest);
    SetTwice(s.out, s.key, s.part, "");
  }

  // State after key=" of an item.
  function Opened(s: State, key: string): State {
    State(s.out, false, true, "", key)
  }

  lemma RunOpening(s: State, key: string, rest: string)
    requires !s.inPart && !s.inQuote && s.part == "" && key != "" && All(key, IsAlnum)
    ensures Run(s, key + "=" + "\"" + rest) == Run(Opened(s, key), rest)
  {
    var tail := "=" + ("\"" + rest);
    assert key + "=" + "\"" + rest == key + tail;
    RunWord(s, key, tail);
    assert s.part + key == key;
    var t := s.(inPart := true, part := key);
    assert tail[1..] == "\"" + rest && ("\"" + rest)[1..] == rest;
    assert Run(t, tail) == Run(t.(inPart := false, part := "", key := key), "\"" + rest);
  }

  // State after the closing quote: whitespace in front of the value has stored an empty value.
  function Closed(s: State, value: string): State {
    var v := TrimLeft(value);
    State(if v == value then s.out else s.out[s.key := ""], v != "", false, v, s.key)
  }

  // A value without leading whitespace, up to and including its closing quote.
  lemma RunTrimmed(s: State, v: string, rest: string)
    requires All(v, IsClean) && (v != "" ==> !IsSpace(v[0])) && !s.inPart && s.inQuote && s.part == ""
    ensures Run(s, v + ("\"" + rest)) == Run(State(s.out, v != "", false, v, s.key), rest)
  {
    var tail := "\"" + rest;
    RunWord(s, v, tail);
    assert s.part + v == v;
    assert tail[1..] == rest;
  }

  lemma RunValue(s: State, value: string, rest: string)
    requires All(value, IsClean) && !s.inPart && s.inQuote && s.part == "" && s.key != ""
    ensures Run(s, value + "\"" + rest) == Run(Closed(s, value), rest)
  {
    var lead, v := TakeWhile(value, IsSpace), TrimLeft(value);
    assert value == lead + v;
    DropWhileKeeps(value, IsSpace, IsClean);
    assert value + "\"" + rest == lead + (v + ("\"" + rest));
    RunIdle(s, lead, v + ("\"" + rest));
    RunTrimmed(if lead == "" then s else s.(out := s.out[s.key := ""]), v, rest);
  }

  // State between items.
  ghost predicate Resting(s: State) { !s.inPart && !s.inQuote && s.part == "" }

  lemma RunItem(s: State, it: Item, rest: string)
    requires Resting(s) && it.key != "" && All(it.key, IsAlnum) && All(it.value, IsClean)
    ensures Run(s, PrintItem(it) + rest) == Run(Closed(Opened(s, it.key), it.value), it.sep + rest)
  {
    assert PrintItem(it) + rest == it.key + "=" + "\"" + (it.value + "\"" + (it.sep + rest));
    RunOpening(s, it.key, it.value + "\"" + (it.sep + rest));
    RunValue(Opened(s, it.key), it.value, it.sep + rest);
  }

  // What the separator, or the end of the text, stores of a closed value.
  lemma StoreClosed(s: State, it: Item)
    requires it.sep != "" && s.key == it.key
    ensures var t := Closed(s, it.value);
            t.out[it.key := if |it.sep| >= 2 then "" else t.part] == Store(it, s.out)
  {
    var v := if |it.sep| >= 2 then "" else TrimLeft(it.value);
    SetTwice(s.out, it.key, "", v);
  }

  lemma FinishClosed(s: State, it: Item)
    requires it.sep == "" && s.key == it.key != ""
    ensures Finish(Closed(s, it.value)) == Store(it, s.out)
  {
    var v := TrimLeft(it.value);
    SetTwice(s.out, it.key, "", v);
  }

  // An item with a separator leaves its stored value behind and the parser at rest.
  lemma RunStored(s: State, it: Item, rest: string)
    requires Resting(s) && it.key != "" && All(it.key, IsAlnum) && All(it.value, IsClean)
    requires it.sep != "" && All(it.sep, IsSpace)
    ensures Run(s, PrintItem(it) + rest) == Run(State(Store(it, s.out), false, false, "", it.key), rest)
  {
    RunItem(s, it, rest);
    RunSeparator(Closed(Opened(s, it.key), it.value), it.sep, rest);
    StoreClosed(Opened(s, it.key), it);
  }

  // The last item may lack a separator.
  lemma RunUnfinished(s: State, it: Item)
    requires Resting(s) && it.key != "" && All(it.key, IsAlnum) && All(it.value, IsClean)
    requires it.sep == ""
    ensures Run(s, PrintItem(it)).Ok? && Finish(Run(s, PrintItem(it)).value) == Store(it, s.out)
  {
    RunItem(s, it, "");
    assert PrintItem(it) + "" == PrintItem(it) && it.sep + "" == "";
    FinishClosed(Opened(s, it.key), it);
  }

  lemma {:induction false} RunItems(s: State, items: seq<Item>)
    requires Printable(items) && CleanValues(items) && Resting(s)
    ensures Run(s, Print(items)).Ok?
    ensures Finish(Run(s, Print(items)).value) == Meaning(items, s.out)
    decreases |items|
  {
    if items != [] {
      var it, more := items[0], items[1..];
      if it.sep == "" {
        assert more == [];
        assert PrintItem(it) + Print(more) == PrintItem(it);
        RunUnfinished(s, it);
      } else {
        RunStored(s, it, Print(more));
        RunItems(State(Store(it, s.out), false, false, "", it.key), more);
      }
    }
  }

  // The exact result of parsing any printed list of items with clean values.
  lemma ParsePrinted(items: seq<Item>)
    requires Printable(items) && CleanValues(items)
    ensures Parse(Print(items)) == Ok(Meaning(items))
  {
    RunItems(START, items);
  }

  // Items that all have a separator leave the parser at rest, on the last key.
  lemma {:induction false} RunSeparated(s: State, items: seq<Item>, rest: string)
    requires Printable(items) && CleanValues(items) && Resting(s)
    requires forall i :: 0 <= i < |items| ==> items[i].sep != ""
    ensures Run(s, Print(items) + rest)
            == Run(State(Meaning(items, s.out), false, false, "",
                         if items == [] then s.key else items[|items| - 1].key), rest)
    decreases |items|
  {
    if items == [] {
      assert Print(items) + rest == rest;
    } else {
      var it, more := items[0], items[1..];
      assert Print(items) + rest == PrintItem(it) + (Print(more) + rest);
      RunStored(s, it, Print(more) + rest);
      RunSeparated(State(Store(it, s.out), false, false, "", it.key), more, rest);
    }
  }

  // A bare word after the last item replaces the value of that item's key.
  lemma BareWordOverwrites(items: seq<Item>, word: string)
    requires Printable(items) && CleanValues(items) && items != []
    requires forall i :: 0 <= i < |items| ==> items[i].sep != ""
    requires word != "" && All(word, IsPlain)
    ensures Parse(Print(items) + word) == Ok(Meaning(items)[items[|items| - 1].key := word])
  {
    RunSeparated(START, items, word);
    var s := State(Meaning(items), false, false, "", items[|items| - 1].key);
    RunWord(s, word, "");
    assert word + "" == word && s.part + word == word;
  }

  // ----- When the printed list comes back -----

  // What a caller can check of one item before printing it.
  ghost predicate Survives(it: Item) {
    && All(it.value, IsClean)
    && if it.value == "" then it.sep != "" else |it.sep| <= 1 && !IsSpace(it.value[0])
  }

  ghost predicate AllSurvive(items: seq<Item>) {
    forall i :: 0 <= i < |items| ==> Survives(items[i])
  }

  lemma {:induction false} SurvivorsMeanThemselves(items: seq<Item>, base: map<string, string>)
    requires AllSurvive(items)
    ensures Meaning(items, base) == LastWins(items, base)
    decreases |items|
  {
    if items != [] {
      assert Survives(items[0]);
      assert Store(items[0], base) == base[items[0].key := items[0].value];
      SurvivorsMeanThemselves(items[1..], Store(items[0], base));
    }
  }

  // Single spaces, duplicate keys allowed: the last pair of a key wins.
  lemma RoundTrip(items: seq<Item>)
    requires Printable(items) && AllSurvive(items)
    ensures Parse(Print(items)) == Ok(LastWins(items))
  {
    assert CleanValues(items) by {
      forall i | 0 <= i < |items|
        ensures All(items[i].value, IsClean)
      {
        assert Survives(items[i]);
      }
    }
    ParsePrinted(items);
    SurvivorsMeanThemselves(items, map[]);
  }

  lemma {:induction false} OtherKeysUntouched(items: seq<Item>, base: map<string, string>, k: string)
    requires forall i :: 0 <= i < |items| ==> items[i].key != k
    ensures k in LastWins(items, base) <==> k in base
    ensures k in Meaning(items, base) <==> k in base
    ensures k in base ==> LastWins(items, base)[k] == base[k] && Meaning(items, base)[k] == base[k]
    decreases |items|
  {
    if items != [] {
      OtherKeysUntouched(items[1..], Store(items[0], base), k);
      OtherKeysUntouched(items[1..], base[items[0].key := items[0].value], k);
    }
  }

  // No later item has the same key.
  ghost predicate Decides(items: seq<Item>, i: int) {
    0 <= i < |items| && forall j :: i < j < |items| ==> items[j].key != items[i].key
  }

  lemma {:induction false} DecidingItem(items: seq<Item>, base: map<string, string>, i: nat)
    requires Decides(items, i)
    ensures var k := items[i].key;
            && k in LastWins(items, base) && LastWins(items, base)[k] == items[i].value
            && (!NeverStored(items[i]) ==> k in Meaning(items, base) && Meaning(items, base)[k] == Stored(items[i]))
    decreases |items|
  {
    var more, k := items[1..], items[i].key;
    var b0, b1 := Store(items[0], base), base[items[0].key := items[0].value];
    if i == 0 {
      OtherKeysUntouched(more, b0, k);
      OtherKeysUntouched(more, b1, k);
    } else {
      assert forall j :: 0 <= j < |more| ==> more[j] == items[j + 1];
      DecidingItem(more, b0, i - 1);
      DecidingItem(more, b1, i - 1);
    }
  }

  // The latest of the first n items with a key.
  lemma LatestItem(items: seq<Item>, n: nat, k: string) returns (i: int)
    requires n <= |items|
    ensures -1 <= i < n && (i >= 0 ==> items[i].key == k)
    ensures forall j :: i < j < n ==> items[j].key != k
  {
    i := n - 1;
    while i >= 0 && items[i].key != k
      invariant -1 <= i < n
      invariant forall j :: i < j < n ==> items[j].key != k
    {
      i := i - 1;
    }
  }

  lemma {:induction false} MeaningAppend(xs: seq<Item>, ys: seq<Item>, base: map<string, string>)
    ensures Meaning(xs + ys, base) == Meaning(ys, Meaning(xs, base))
    decreases |xs|
  {
    if xs == [] {
      assert xs + ys == ys;
    } else {
      assert (xs + ys)[1..] == xs[1..] + ys;
      MeaningAppend(xs[1..], ys, Store(xs[0], base));
    }
  }

  // Item j is the one of this key before item i.
  ghost predicate Precedes(items: seq<Item>, j: int, i: int) {
    && 0 <= j < i < |items| && items[j].key == items[i].key
    && forall l :: j < l < i ==> items[l].key != items[i].key
  }

  // What a caller can check of the item that decides a key: its value is stored unchanged; or it
  // is an empty value at the very end, which is not stored, and the one before was stored empty.
  ghost predicate ComesBack(items: seq<Item>, i: int)
    requires 0 <= i < |items|
  {
    if NeverStored(items[i]) then exists j :: Precedes(items, j, i) && Stored(items[j]) == ""
    else Stored(items[i]) == items[i].value
  }

  lemma UnstoredItem(items: seq<Item>, i: nat)
    requires Printable(items) && i < |items| && NeverStored(items[i])
    ensures var k := items[i].key;
            k in Meaning(items) && Meaning(items)[k] == "" <==> ComesBack(items, i)
  {
    var k, front := items[i].key, items[..i];
    assert i == |items| - 1 && items == front + [items[i]];
    MeaningAppend(front, [items[i]], map[]);
    assert [items[i]][1..] == [];
    assert Meaning(items) == Meaning(front);
    var j := LatestItem(items, i, k);
    if j >= 0 {
      DecidingItem(front, map[], j);
      assert Precedes(items, j, i);
      assert forall l :: Precedes(items, l, i) ==> l == j;
    } else {
      OtherKeysUntouched(front, map[], k);
      assert forall l :: !Precedes(items, l, i);
    }
  }

  lemma KeyComesBack(items: seq<Item>, i: nat)
    requires Printable(items) && Decides(items, i)
    ensures var k := items[i].key;
            && k in LastWins(items)
            && (k in Meaning(items) && Meaning(items)[k] == LastWins(items)[k] <==> ComesBack(items, i))
  {
    DecidingItem(items, map[], i);
    if NeverStored(items[i]) {
      UnstoredItem(items, i);
    }
  }

  lemma AllComeBack(items: seq<Item>)
    requires Printable(items) && forall i :: Decides(items, i) ==> ComesBack(items, i)
    ensures Meaning(items) == LastWins(items)
  {
    forall k: string
      ensures k in Meaning(items) <==> k in LastWins(items)
      ensures k in Meaning(items) ==> Meaning(items)[k] == LastWins(items)[k]
    {
      var i := LatestItem(items, |items|, k);
      if i >= 0 {
        assert Decides(items, i);
        KeyComesBack(items, i);
      } else {
        OtherKeysUntouched(items, map[], k);
      }
    }
  }

  // With clean values and any keys, the list comes back exactly when every item that decides a
  // key does.
  lemma LastWinsExactly(items: seq<Item>)
    requires Printable(items) && CleanValues(items)
    ensures Parse(Print(items)) == Ok(LastWins(items)) <==> forall i :: Decides(items, i) ==> ComesBack(items, i)
  {
    ParsePrinted(items);
    if Meaning(items) == LastWins(items) {
      forall i | Decides(items, i)
        ensures ComesBack(items, i)
      {
        KeyComesBack(items, i);
      }
    }
    if forall i :: Decides(items, i) ==> ComesBack(items, i) {
      AllComeBack(items);
    }
  }

  lemma BackMeansSurvives(items: seq<Item>, j: nat)
    requires Printable(items) && DistinctKeys(items) && j < |items|
    requires Parse(Print(items)) == Ok(LastWins(items))
    ensures Survives(items[j])
  {
    ParseBound(Print(items));
    forall i | 0 <= i < |items|
      ensures All(items[i].value, IsClean)
    {
      DecidingItem(items, map[], i);
    }
    LastWinsExactly(items);
    assert Decides(items, j);
  }

  // With distinct keys, the list comes back exactly when every item survives, whatever the values
  // contain.
  lemma RoundTripExactly(items: seq<Item>)
    requires Printable(items) && DistinctKeys(items)
    ensures Parse(Print(items)) == Ok(LastWins(items)) <==> AllSurvive(items)
  {
    if AllSurvive(items) {
      RoundTrip(items);
    } else if Parse(Print(items)) == Ok(LastWins(items)) {
      var j :| 0 <= j < |items| && !Survives(items[j]);
      BackMeansSurvives(items, j);
    }
  }
}
