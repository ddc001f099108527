/**
 Keys that a password is joined to: when they are stored, and what the text of the DSN shows of
 them then.
 */
module DsnJoinedKeys {
  import opened Prelude
  import opened Runes
  import opened DsnParser
  import opened DsnRoundTrip
  import opened DsnQuotes
  import opened DsnOddValues
  import opened DsnTarget
  import opened DsnRedaction

  // ----- Facts about any run -----

  lemma {:induction false} RunKeepsKeys(s: State, text: string)
    requires Run(s, text).Ok?
    ensures s.out.Keys <= Run(s, text).value.out.Keys
    decreases |text|
  {
    if text != "" {
      RunKeepsKeys(Step(s, text[0]).value, text[1..]);
    }
  }

  // A key that a run adds is no longer than what it has read.
  lemma {:induction false} NewKeysAreShort(s: State, text: string, x: string)
    requires Run(s, text).Ok? && |x| > |s.part| + |text| && x != s.key && x !in s.out
    ensures x !in Finish(Run(s, text).value)
    decreases |text|
  {
    if text != "" {
      NewKeysAreShort(Step(s, text[0]).value, text[1..], x);
    }
  }

  // An item read in any state that has a key.
  lemma ItemRuns(s: State, it: Item, rest: string) returns (t: State)
    requires s.key != "" && (s.inPart <==> s.part != "") && Printed(it) && All(it.value, IsClean)
    ensures Run(s, PrintItem(it) + rest) == Run(t, rest)
    ensures t.key != "" && (t.inPart <==> t.part != "")
  {
    var quoted := "\"" + (it.value + ("\"" + it.sep));
    assert PrintItem(it) + rest == it.key + ("=" + (quoted + rest));
    assert forall i :: 0 <= i < |it.key| ==> IsPlain(it.key[i]);
    RunWord(s, it.key, "=" + (quoted + rest));
    RunNewKey(s.(inPart := true, part := s.part + it.key), quoted + rest);
    QuotedHasNoEquals(it);
    var u := State(s.out, false, s.inQuote, "", s.part + it.key);
    RunQuoted(u, quoted, rest);
    t := AfterValue(u, quoted);
  }

  lemma {:induction false} PrintedRuns(s: State, items: seq<Item>)
    requires s.key != "" && (s.inPart <==> s.part != "") && Printable(items) && CleanValues(items)
    ensures Run(s, Print(items)).Ok?
    decreases |items|
  {
    if items != [] {
      assert Printed(items[0]);
      var t := ItemRuns(s, items[0], Print(items[1..]));
      PrintedRuns(t, items[1..]);
    }
  }

  lemma QuotedHasNoEquals(it: Item)
    requires All(it.value, IsClean) && All(it.sep, IsSpace)
    ensures '=' !in "\"" + (it.value + ("\"" + it.sep))
  {
  }

  // The value, the closing quotation mark and the rest of a list never fail.
  lemma RestRuns(u: State, it: Item, more: seq<Item>)
    requires u.key != "" && u.part == "" && !u.inPart && All(it.value, IsClean) && All(it.sep, IsSpace)
    requires Printable(more) && CleanValues(more)
    ensures Run(u, it.value + ("\"" + (it.sep + Print(more)))).Ok?
  {
    var v := it.value + ("\"" + it.sep);
    QuotedHasNoEquals(it);
    assert forall i :: 0 <= i < |v| ==> v[i] == ("\"" + v)[i + 1];
    assert '=' !in v;
    assert it.value + ("\"" + (it.sep + Print(more))) == v + Print(more);
    RunQuoted(u, v, Print(more));
    PrintedRuns(AfterValue(u, v), more);
  }

  // ----- The parser behind a joined key -----

  function At(out: map<string, string>, j: string): State { State(out, false, false, "", j) }

  // What it still has to read of the list, whatever the key.
  function Left(after: seq<Item>): string
    requires after != []
  {
    after[0].value + ("\"" + (after[0].sep + Print(after[1..])))
  }

  ghost predicate CleanRest(after: seq<Item>) { Printable(after) && CleanValues(after) && after != [] }

  lemma RestParts(after: seq<Item>)
    requires CleanRest(after)
    ensures Printed(after[0]) && All(after[0].value, IsClean) && Printable(after[1..]) && CleanValues(after[1..])
    ensures after[0].sep == "" ==> |after| == 1
  {
    assert forall i :: 0 <= i < |after[1..]| ==> after[1..][i] == after[i + 1];
  }

  lemma LeftRuns(out: map<string, string>, j: string, after: seq<Item>)
    requires CleanRest(after) && j != ""
    ensures Run(At(out, j), Left(after)).Ok?
  {
    RestParts(after);
    RestRuns(At(out, j), after[0], after[1..]);
  }

  // The final map.
  function Final(out: map<string, string>, j: string, after: seq<Item>): map<string, string>
    requires after != []
  {
    match Run(At(out, j), Left(after))
    case Ok(s) => Finish(s)
    case Err(_) => map[]
  }

  // ----- When the joined key is not stored -----

  lemma PlainUnlessSpaced(c: string)
    requires All(c, IsClean) && !HasSpace(c)
    ensures All(c, IsPlain)
  {
  }

  // It is forgotten: the text goes on as if it had never been.
  lemma Forgotten(out: map<string, string>, j: string, after: seq<Item>)
    requires CleanRest(after) && |after| >= 2 && !JoinedIsStored(after)
    ensures Run(At(out, j), Left(after))
            == Run(At(out, after[0].value + (after[0].sep + after[1].key)),
                   after[1].value + ("\"" + (after[1].sep + Print(after[2..]))))
  {
    RestParts(after);
    PlainUnlessSpaced(after[0].value);
    var more := after[1..];
    assert more[0] == after[1] && more[1..] == after[2..] && Printed(more[0]);
    RunForgets(At(out, j), after[0].value, after[0].sep, after[1], Print(after[2..]));
  }

  lemma NothingLeft(out: map<string, string>, j: string, after: seq<Item>)
    requires after != [] && Left(after) == "\""
    ensures Final(out, j, after) == out
  {
    assert "\"" + "" == "\"";
    RunQuote(At(out, j), "");
  }

  lemma FinishedTwins(a: map<string, string>, b: map<string, string>, key: string, text: string)
    requires SameButPassword(a, b)
    requires Run(State(a, false, false, "", key), text).Ok? && Run(State(b, false, false, "", key), text).Ok?
    ensures SameButPassword(Finish(Run(State(a, false, false, "", key), text).value),
                            Finish(Run(State(b, false, false, "", key), text).value))
  {
    RunTwins(State(a, false, false, "", key), State(b, false, false, "", key), text);
    var s, t := Run(State(a, false, false, "", key), text).value, Run(State(b, false, false, "", key), text).value;
    SetTwins(s.out, t.out, s.key, s.part);
  }

  // Then two joined keys make no difference.
  lemma UnstoredTwins(a: map<string, string>, b: map<string, string>, j: string, k: string, after: seq<Item>)
    requires SameButPassword(a, b) && CleanRest(after) && !JoinedIsStored(after) && j != "" && k != ""
    ensures SameButPassword(Final(a, j, after), Final(b, k, after))
  {
    LeftRuns(a, j, after);
    LeftRuns(b, k, after);
    if |after| == 1 {
      assert after[0].value == "" && after[0].sep == "" && after[1..] == [];
      NothingLeft(a, j, after);
      NothingLeft(b, k, after);
    } else {
      Forgotten(a, j, after);
      Forgotten(b, k, after);
      var text := after[1].value + ("\"" + (after[1].sep + Print(after[2..])));
      FinishedTwins(a, b, after[0].value + (after[0].sep + after[1].key), text);
    }
  }

  // ----- When it is stored -----

  lemma StoredIsThere(out: map<string, string>, j: string, after: seq<Item>)
    requires CleanRest(after) && JoinedIsStored(after) && j != ""
    ensures j in Final(out, j, after)
  {
    LeftRuns(out, j, after);
    RestParts(after);
    var u, it, rest := At(out, j), after[0], Print(after[1..]);
    if HasSpace(it.value) {
      var w, more := RunSpaced(u, it.value, "\"" + (it.sep + rest));
      RunKeepsKeys(At(out[j := w], j), more + ("\"" + (it.sep + rest)));
    } else if it.value == "" {
      RunEmpty(u, it.sep, rest);
      RunKeepsKeys(State(out[j := ""], false, true, "", j), rest);
    } else {
      PlainUnlessSpaced(it.value);
      assert it.sep + rest == it.sep;
      FinishHeld(u, it.value, it.sep);
    }
  }

  // Two runs that differ in two keys at most.
  ghost predicate SameOffTwo(a: map<string, string>, b: map<string, string>, j: string, k: string) {
    forall x :: x != j && x != k ==> (x in a <==> x in b) && (x in a ==> a[x] == b[x])
  }

  ghost predicate Beside(s: State, t: State, j: string, k: string) {
    && s.inPart == t.inPart && s.inQuote == t.inQuote && s.part == t.part && SameOffTwo(s.out, t.out, j, k)
    && (s.key == t.key || (s.key == j && t.key == k)) && (s.key == "" <==> t.key == "")
  }

  lemma SetBeside(a: map<string, string>, b: map<string, string>, x: string, y: string, v: string, j: string, k: string)
    requires SameOffTwo(a, b, j, k) && (x == y || (x == j && y == k))
    ensures SameOffTwo(a[x := v], b[y := v], j, k)
  {
  }

  lemma StepBeside(s: State, t: State, c: char, j: string, k: string)
    requires Beside(s, t, j, k) && Step(s, c).Ok?
    ensures Step(t, c).Ok? && Beside(Step(s, c).value, Step(t, c).value, j, k)
  {
    if !IsQuote(c) && IsSpace(c) {
      SetBeside(s.out, t.out, s.key, t.key, s.part, j, k);
    }
  }

  lemma {:induction false} RunBeside(s: State, t: State, text: string, j: string, k: string)
    requires Beside(s, t, j, k) && Run(s, text).Ok? && Run(t, text).Ok?
    ensures SameOffTwo(Finish(Run(s, text).value), Finish(Run(t, text).value), j, k)
    decreases |text|
  {
    if text != "" {
      StepBeside(s, t, text[0], j, k);
      RunBeside(Step(s, text[0]).value, Step(t, text[0]).value, text[1..], j, k);
    } else {
      SetBeside(s.out, t.out, s.key, t.key, s.part, j, k);
    }
  }

  lemma OffTwoDsn(a: map<string, string>, b: map<string, string>, j: string, k: string)
    requires SameOffTwo(a, b, j, k) && !IsKnown(j) && !IsKnown(k)
    ensures DsnOf(b) == DsnOf(a).(query := Unknown(b))
  {
  }

  lemma QueriesShow(a: map<string, string>, b: map<string, string>, j: string, k: string, m: AuthModule,
                    encode: Values -> string)
    requires SameOffTwo(a, b, j, k) && !IsKnown(j) && !IsKnown(k) && j in a && j !in b && j !in m.options
    requires Faithful(encode)
    ensures Text(a, m, encode) != Text(b, m, encode)
  {
    OffTwoDsn(a, b, j, k);
    var p, q := Unknown(a) + Single(m.options), Unknown(b) + Single(m.options);
    assert j in p && j !in q;
    if Text(a, m, encode) == Text(b, m, encode) {
      QueryShows(Overlay(DsnOf(a), m), p, q, encode);
    }
  }

  // A length that no key of a set has.
  lemma {:induction false} LongerThanAll(keys: set<string>) returns (n: nat)
    ensures forall k :: k in keys ==> |k| < n
    decreases |keys|
  {
    if keys == {} {
      n := 0;
    } else {
      var k :| k in keys;
      n := LongerThanAll(keys - {k});
      n := if |k| < n then n else |k| + 1;
    }
  }

  // Of two joined keys, one that is longer than all there is to read is in its own map only, and
  // the texts differ.
  lemma StoredDiffers(out: map<string, string>, j: string, k: string, after: seq<Item>, m: AuthModule,
                      encode: Values -> string)
    requires CleanRest(after) && JoinedIsStored(after) && Faithful(encode)
    requires |j| < |k| && !IsKnown(j) && !IsKnown(k)
    requires |j| > |Left(after)| && j !in out && j !in m.options
    ensures Text(Final(out, j, after), m, encode) != Text(Final(out, k, after), m, encode)
  {
    LeftRuns(out, j, after);
    LeftRuns(out, k, after);
    StoredIsThere(out, j, after);
    RunBeside(At(out, j), At(out, k), Left(after), j, k);
    NewKeysAreShort(At(out, k), Left(after), j);
    QueriesShow(Final(out, j, after), Final(out, k, after), j, k, m, encode);
  }
}
