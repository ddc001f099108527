/** What DSN.String gives away of a password with an odd number of quotation marks. */
module DsnOddRedaction {
  import opened Prelude
  import opened Runes
  import opened DsnParser
  import opened DsnRoundTrip
  import opened DsnQuotes
  import opened DsnOddValues
  import opened DsnTarget
  import opened DsnRedaction
  import opened DsnJoinedKeys

  // A list that holds the password v, with any items around it.
  function With(before: seq<Item>, v: string, sep: string, after: seq<Item>): seq<Item> {
    before + [Item("password", v, sep)] + after
  }

  ghost predicate Surrounds(before: seq<Item>, sep: string, after: seq<Item>) {
    CleanValues(before) && CleanValues(after) && Printable(With(before, "", sep, after))
  }

  lemma WithPrintable(before: seq<Item>, v: string, sep: string, after: seq<Item>)
    requires Surrounds(before, sep, after)
    ensures Printable(With(before, v, sep, after)) && With(before, v, sep, after) != []
    ensures Printable(before) && Printed(Item("password", v, sep)) && (sep == "" ==> after == [])
    ensures after != [] ==> CleanRest(after)
  {
    SameShape(With(before, "", sep, after), With(before, v, sep, after));
    PartsArePrintable(before, Item("password", v, sep), after);
  }

  // What is stored when the parser is through with the value.
  function Base(before: seq<Item>, v: string): map<string, string> { Within(Meaning(before), "password", v) }

  // What a list with an odd password parses to.
  function OddMap(before: seq<Item>, v: string, sep: string, after: seq<Item>): map<string, string> {
    if after == [] then Base(before, v)["password" := Kept(v) + sep]
    else Final(Base(before, v), Joined(v, sep, after[0].key), after)
  }

  // At the end of the list it goes to its own key, with the separator; in front of an item it is
  // joined to the next key.
  lemma OddParses(before: seq<Item>, v: string, sep: string, after: seq<Item>)
    requires Surrounds(before, sep, after) && Odd(v)
    ensures Parse(Print(With(before, v, sep, after))) == Ok(OddMap(before, v, sep, after))
  {
    WithPrintable(before, v, sep, after);
    var x := Item("password", v, sep);
    var s := RunBefore(before, x, after);
    if after == [] {
      assert PrintItem(x) + Print(after) == PrintItem(x);
      FinishOdd(s, x);
    } else {
      RestParts(after);
      RunOdd(s, x, after[0], Print(after[1..]));
      LeftRuns(Base(before, v), Joined(v, sep, after[0].key), after);
    }
  }

  lemma OddShown(before: seq<Item>, v: string, sep: string, after: seq<Item>, m: AuthModule, parseURL: UrlParser,
                 encode: Values -> string)
    requires Surrounds(before, sep, after) && Odd(v)
    ensures Shown(Print(With(before, v, sep, after)), m, parseURL, encode)
            == Some(Text(OddMap(before, v, sep, after), m, encode))
  {
    WithPrintable(before, v, sep, after);
    OddParses(before, v, sep, after);
    ShownIsText(With(before, v, sep, after), m, parseURL, encode);
  }

  // Reading the two values leaves the password set, or not, in both.
  ghost predicate SameMask(before: seq<Item>, v: string, w: string) {
    Field(Base(before, v), "password") == "" <==> Field(Base(before, w), "password") == ""
  }

  lemma UnstoredIsHidden(before: seq<Item>, v: string, w: string, sep: string, after: seq<Item>, m: AuthModule,
                         encode: Values -> string)
    requires Surrounds(before, sep, after) && Odd(v) && Odd(w) && SameMask(before, v, w) && !JoinedIsStored(after)
    ensures Text(OddMap(before, v, sep, after), m, encode) == Text(OddMap(before, w, sep, after), m, encode)
  {
    FlushedOff(Meaning(before), "password", "", true, v);
    FlushedOff(Meaning(before), "password", "", true, w);
    WithPrintable(before, v, sep, after);
    if after != [] {
      var j, k := Joined(v, sep, after[0].key), Joined(w, sep, after[0].key);
      UnstoredTwins(Base(before, v), Base(before, w), j, k, after);
    }
    SameTexts(OddMap(before, v, sep, after), OddMap(before, w, sep, after), m, encode);
  }

  // ----- Two passwords that tell the difference -----

  function Xs(n: nat): string { seq(n, _ => 'x') }

  // n letters and a quotation mark.
  function Long(n: nat): string { Xs(n) + "\"" }

  lemma {:induction false} ReadPlain(out: map<string, string>, key: string, part: string, w: string)
    requires All(w, IsPlain)
    ensures Tail(part, true, w + "\"") == part + w && OddQuotes(w + "\"")
    ensures Flushed(out, key, part, true, w + "\"") == out
    decreases |w|
  {
    if w == "" {
      assert w + "\"" == "\"" && "\""[1..] == "" && part + w == part;
    } else {
      assert (w + "\"")[1..] == w[1..] + "\"";
      ReadPlain(out, key, part + [w[0]], w[1..]);
      assert part + [w[0]] + w[1..] == part + w;
    }
  }

  lemma LongIsOdd(before: seq<Item>, n: nat)
    requires n > 0
    ensures Odd(Long(n)) && |Kept(Long(n))| == n && Base(before, Long(n)) == Meaning(before)
  {
    ReadPlain(Meaning(before), "password", "", Xs(n));
    assert "" + Xs(n) == Xs(n);
  }

  lemma JoinedIsNew(before: seq<Item>, v: string, sep: string, after: seq<Item>)
    requires Surrounds(before, sep, after) && after != []
    ensures !IsKnown(Joined(v, sep, after[0].key)) && Joined(v, sep, after[0].key) !in Meaning(before)
  {
    WithPrintable(before, v, sep, after);
    var j := Joined(v, sep, after[0].key);
    assert j[|Kept(v)|] == sep[0] && IsSpace(sep[0]);
    assert !All(j, IsAlnum);
    MeaningKeys(before, map[]);
  }

  // What a long password is joined to.
  function LongKey(n: nat, sep: string, after: seq<Item>): string
    requires after != []
  {
    Joined(Long(n), sep, after[0].key)
  }

  lemma LongJoined(before: seq<Item>, n: nat, sep: string, after: seq<Item>)
    requires Surrounds(before, sep, after) && after != [] && n > 0
    ensures OddMap(before, Long(n), sep, after) == Final(Meaning(before), LongKey(n, sep, after), after)
    ensures var j := LongKey(n, sep, after);
            |j| == n + |sep| + |after[0].key| && !IsKnown(j) && j !in Meaning(before)
  {
    LongIsOdd(before, n);
    JoinedIsNew(before, Long(n), sep, after);
  }

  // ----- Exactly when such a password is hidden -----

  ghost predicate HiddenOdd(before: seq<Item>, sep: string, after: seq<Item>, m: AuthModule, parseURL: UrlParser,
                            encode: Values -> string) {
    forall v: string, w: string :: Odd(v) && Odd(w) && SameMask(before, v, w) ==>
      Shown(Print(With(before, v, sep, after)), m, parseURL, encode)
      == Shown(Print(With(before, w, sep, after)), m, parseURL, encode)
  }

  lemma LongShown(before: seq<Item>, n: nat, sep: string, after: seq<Item>, m: AuthModule, parseURL: UrlParser,
                  encode: Values -> string)
    requires Surrounds(before, sep, after) && after != [] && n > 0
    ensures Shown(Print(With(before, Long(n), sep, after)), m, parseURL, encode)
            == Some(Text(Final(Meaning(before), LongKey(n, sep, after), after), m, encode))
  {
    LongIsOdd(before, n);
    LongJoined(before, n, sep, after);
    OddShown(before, Long(n), sep, after, m, parseURL, encode);
  }

  // Two long passwords that tell the difference.
  lemma LongsDiffer(before: seq<Item>, sep: string, after: seq<Item>, m: AuthModule, encode: Values -> string)
    returns (n: nat, k: nat)
    requires Surrounds(before, sep, after) && CleanRest(after) && JoinedIsStored(after) && Faithful(encode)
    ensures 0 < n < k
    ensures Text(Final(Meaning(before), LongKey(n, sep, after), after), m, encode)
            != Text(Final(Meaning(before), LongKey(k, sep, after), after), m, encode)
  {
    n := LongerThanAll(m.options.Keys);
    n := n + |Left(after)| + 1;
    k := n + 1;
    LongJoined(before, n, sep, after);
    LongJoined(before, k, sep, after);
    StoredDiffers(Meaning(before), LongKey(n, sep, after), LongKey(k, sep, after), after, m, encode);
  }

  lemma StoredIsShown(before: seq<Item>, sep: string, after: seq<Item>, m: AuthModule, parseURL: UrlParser,
                      encode: Values -> string)
    requires Surrounds(before, sep, after) && JoinedIsStored(after) && Faithful(encode)
    ensures !HiddenOdd(before, sep, after, m, parseURL, encode)
  {
    WithPrintable(before, "", sep, after);
    var n, k := LongsDiffer(before, sep, after, m, encode);
    LongIsOdd(before, n);
    LongIsOdd(before, k);
    assert SameMask(before, Long(n), Long(k));
    LongShown(before, n, sep, after, m, parseURL, encode);
    LongShown(before, k, sep, after, m, parseURL, encode);
  }

  // In every list: passwords with an odd number of quotation marks and no equals sign show no more
  // than whether a password is set, exactly when the key they are joined to is not stored.
  lemma HiddenOddExactly(before: seq<Item>, sep: string, after: seq<Item>, m: AuthModule, parseURL: UrlParser,
                         encode: Values -> string)
    requires Surrounds(before, sep, after) && Faithful(encode)
    ensures HiddenOdd(before, sep, after, m, parseURL, encode) <==> !JoinedIsStored(after)
  {
    if JoinedIsStored(after) {
      StoredIsShown(before, sep, after, m, parseURL, encode);
    } else {
      forall v: string, w: string | Odd(v) && Odd(w) && SameMask(before, v, w)
        ensures Shown(Print(With(before, v, sep, after)), m, parseURL, encode)
                == Shown(Print(With(before, w, sep, after)), m, parseURL, encode)
      {
        OddShown(before, v, sep, after, m, parseURL, encode);
        OddShown(before, w, sep, after, m, parseURL, encode);
        UnstoredIsHidden(before, v, w, sep, after, m, encode);
      }
    }
  }
}
