/** The key=value connection-string parser of config/dsn.go. */
module DsnParser {
  import opened Prelude
  import opened Runes

  // The five variables that parseKeyValue updates rune by rune.
  datatype State = State(out: map<string, string>, inPart: bool, inQuote: bool, part: string, key: string)

  const START := State(map[], false, false, "", "")

  function Flush(s: State): Result<State> {
    if s.key == "" then Err("invalid input")
    else Ok(s.(out := s.out[s.key := s.part], inPart := false, part := ""))
  }

  function Step(s: State, c: char): Result<State> {
    if IsQuote(c) then Ok(s.(inQuote := !s.inQuote))
    else if IsSpace(c) then
      if s.inPart && s.inQuote then Ok(s.(part := s.part + [c])) else Flush(s)
    else if c == '=' then
      if s.inPart then Ok(s.(inPart := false, key := s.part, part := "")) else Err("invalid input")
    else Ok(s.(inPart := true, part := s.part + [c]))
  }

  function Run(s: State, text: string): Result<State>
    decreases |text|
  {
    if text == "" then Ok(s)
    else match Step(s, text[0])
      case Err(e) => Err(e)
      case Ok(t) => Run(t, text[1..])
  }

  function Finish(s: State): map<string, string> {
    if s.key != "" && |s.part| > 0 then s.out[s.key := s.part] else s.out
  }

  function Parse(text: string): Result<map<string, string>> {
    match Run(START, text)
    case Err(e) => Err(e)
    case Ok(s) => Ok(Finish(s))
  }

  method ParseKeyValue(text: string) returns (r: Result<map<string, string>>)
    ensures r == Parse(text)
  {
    var out: map<string, string> := map[];
    var inPart, inQuote := false, false;
    var part, key := "", "";
    for i := 0 to |text|
      invariant Run(START, text) == Run(State(out, inPart, inQuote, part, key), text[i..])
    {
      var c := text[i];
      assert text[i..][1..] == text[i + 1..];
      if IsQuote(c) {
        if inQuote {
          inQuote := false;
        } else {
          inQuote := true;
        }
      } else if IsSpace(c) {
        if inPart {
          if inQuote {
            part := part + [c];
          } else {
            if key == "" {
              return Err("invalid input");
            }
            out := out[key := part];
            inPart := false;
            part := "";
          }
        } else {
          if key == "" {
            return Err("invalid input");
          }
          out := out[key := part];
          inPart := false;
          part := "";
        }
      } else if c == '=' {
        if inPart {
          inPart := false;
          key := part;
          part := "";
        } else {
          return Err("invalid input");
        }
      } else {
        inPart := true;
        part := part + [c];
      }
    }
    if key != "" && |part| > 0 {
      out := out[key := part];
    }
    return Ok(out);
  }

  // ----- Size and alphabet of every successful parse -----

  predicate IsClean(c: char) { c != '=' && !IsQuote(c) }

  // One separator is charged to every entry.
  ghost function Size(m: map<string, string>): nat {
    if m == map[] then 0 else
    var k :| k in m;
    |k| + |m[k]| + 1 + Size(m - {k})
  }

  lemma {:induction false} SizeSplit(m: map<string, string>, k: string)
    requires k in m
    ensures Size(m) == |k| + |m[k]| + 1 + Size(m - {k})
    decreases |m|
  {
    var j :| j in m && Size(m) == |j| + |m[j]| + 1 + Size(m - {j});
    if j != k {
      SizeSplit(m - {j}, k);
      SizeSplit(m - {k}, j);
      assert m - {j} - {k} == m - {k} - {j};
    }
  }

  lemma SizeUpdate(m: map<string, string>, k: string, v: string)
    ensures Size(m[k := v]) == |k| + |v| + 1 + Size(m - {k})
  {
    SizeSplit(m[k := v], k);
    assert m[k := v] - {k} == m - {k};
  }

  ghost predicate CleanMap(m: map<string, string>) {
    forall k :: k in m ==> k != "" && All(k, IsClean) && All(m[k], IsClean)
  }

  // n is the number of runes read. A key already stored is paid for by its entry.
  ghost predicate Inv(s: State, n: nat) {
    && (s.inPart <==> s.part != "")
    && All(s.part, IsClean) && All(s.key, IsClean) && CleanMap(s.out)
    && Size(s.out) + |s.part| + (if s.key == "" || s.key in s.out then 0 else |s.key| + 1) <= n
  }

  lemma FlushKeeps(s: State, n: nat)
    requires Inv(s, n) && s.key != ""
    ensures Inv(Flush(s).value, n) && CleanMap(s.out[s.key := s.part])
    ensures Size(s.out[s.key := s.part]) <= n
  {
    SizeUpdate(s.out, s.key, s.part);
    if s.key in s.out {
      SizeSplit(s.out, s.key);
    } else {
      assert s.out - {s.key} == s.out;
    }
  }

  lemma StepKeeps(s: State, c: char, n: nat)
    requires Inv(s, n) && Step(s, c).Ok?
    ensures Inv(Step(s, c).value, n + 1)
  {
    if !IsQuote(c) && IsSpace(c) && !(s.inPart && s.inQuote) {
      FlushKeeps(s, n);
    }
  }

  lemma {:induction false} RunKeeps(s: State, text: string, n: nat)
    requires Inv(s, n) && Run(s, text).Ok?
    ensures Inv(Run(s, text).value, n + |text|)
    decreases |text|
  {
    if text != "" {
      StepKeeps(s, text[0], n);
      RunKeeps(Step(s, text[0]).value, text[1..], n + 1);
    }
  }

  // Every input: stale keys and overwritten entries never make the result outgrow the input.
  lemma ParseBound(text: string)
    requires Parse(text).Ok?
    ensures CleanMap(Parse(text).value)
    ensures Size(Parse(text).value) <= |text|
  {
    assert Size(map[]) == 0;
    RunKeeps(START, text, 0);
    var s := Run(START, text).value;
    if s.key != "" {
      FlushKeeps(s, |text|);
    }
  }
}
