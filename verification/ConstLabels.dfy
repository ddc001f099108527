/** Parsing the constant labels given on the command line. */
module ConstLabels {
  import opened Prelude
  import opened Runes

  type Labels = map<string, string>

  datatype Pair = Pair(key: string, value: string)

  // What one comma-separated part means; malformed and half-empty parts mean nothing.
  function PartMeaning(text: string): Option<Pair> {
    var kv := Split(Trim(text), '=');
    if |kv| != 2 then None
    else if Trim(kv[0]) == "" || Trim(kv[1]) == "" then None
    else Some(Pair(Trim(kv[0]), Trim(kv[1])))
  }

  function Add(labels: Labels, part: string): Labels {
    match PartMeaning(part)
    case None => labels
    case Some(p) => labels[p.key := p.value]
  }

  function AddAll(labels: Labels, parts: seq<string>): Labels
    decreases |parts|
  {
    if parts == [] then labels else AddAll(Add(labels, parts[0]), parts[1..])
  }

  function Parsed(text: string): Labels {
    if Trim(text) == "" then map[] else AddAll(map[], Split(Trim(text), ','))
  }

  method ParseConstLabels(text: string) returns (labels: Labels)
    ensures labels == Parsed(text)
  {
    labels := map[];
    var s := Trim(text);
    if |s| == 0 {
      return;
    }
    var parts := Split(s, ',');
    for i := 0 to |parts|
      invariant AddAll(map[], parts) == AddAll(labels, parts[i..])
    {
      assert parts[i..][1..] == parts[i + 1..];
      var keyValue := Split(Trim(parts[i]), '=');
      if |keyValue| != 2 {
        continue;
      }
      var key := Trim(keyValue[0]);
      var value := Trim(keyValue[1]);
      if key == "" || value == "" {
        continue;
      }
      labels := labels[key := value];
    }
  }

  // ----- Trimming the whole text first changes nothing -----

  lemma SameMeaning(labels: Labels, p: string, q: string, rest: seq<string>)
    requires Trim(p) == Trim(q)
    ensures AddAll(labels, [p] + rest) == AddAll(labels, [q] + rest)
  {
  }

  lemma {:induction false} LeftTrimIsFree(labels: Labels, s: string)
    ensures AddAll(labels, Split(TrimLeft(s), ',')) == AddAll(labels, Split(s, ','))
    decreases |s|
  {
    if s != "" && IsSpace(s[0]) {
      var rest := Split(s[1..], ',');
      LeftTrimIsFree(labels, s[1..]);
      TrimOneLeft(s[0], rest[0]);
      SameMeaning(labels, [s[0]] + rest[0], rest[0], rest[1..]);
      assert [rest[0]] + rest[1..] == rest;
    }
  }

  lemma {:induction false} LastSpaceIsFree(labels: Labels, s: string, c: char)
    requires IsSpace(c)
    ensures AddAll(labels, Split(s + [c], ',')) == AddAll(labels, Split(s, ','))
    decreases |s|
  {
    var longer, shorter := LastPartGrows(s, c);
    AddAllLast(labels, longer, shorter + [c], shorter, c);
  }

  // Appending a rune that is no comma appends it to the last part.
  lemma {:induction false} LastPartGrows(s: string, c: char) returns (front: seq<string>, last: string)
    requires c != ','
    ensures Split(s, ',') == front + [last] && Split(s + [c], ',') == front + [last + [c]]
    decreases |s|
  {
    if s == "" {
      front, last := [], "";
      assert s + [c] == [c] && [c][1..] == "";
      SplitJoined([c], ',', "");
    } else {
      assert (s + [c])[1..] == s[1..] + [c];
      var front', last' := LastPartGrows(s[1..], c);
      if s[0] == ',' {
        front, last := [""] + front', last';
      } else if front' == [] {
        front, last := [], [s[0]] + last';
        assert [s[0]] + (last' + [c]) == last + [c];
      } else {
        front, last := [[s[0]] + front'[0]] + front'[1..], last';
      }
    }
  }

  lemma {:induction false} AddAllLast(labels: Labels, front: seq<string>, p: string, q: string, c: char)
    requires IsSpace(c) && p == q + [c]
    ensures AddAll(labels, front + [p]) == AddAll(labels, front + [q])
    decreases |front|
  {
    if front == [] {
      TrimOneRight(q, c);
      assert front + [p] == [p] + [] && front + [q] == [q] + [];
      SameMeaning(labels, p, q, []);
    } else {
      assert (front + [p])[1..] == front[1..] + [p] && (front + [q])[1..] == front[1..] + [q];
      AddAllLast(Add(labels, front[0]), front[1..], p, q, c);
    }
  }

  lemma {:induction false} RightTrimIsFree(labels: Labels, s: string)
    ensures AddAll(labels, Split(TrimRight(s), ',')) == AddAll(labels, Split(s, ','))
    decreases |s|
  {
    if s != "" && IsSpace(s[|s| - 1]) {
      var n := |s| - 1;
      RightTrimIsFree(labels, s[..n]);
      assert s == s[..n] + [s[n]];
      LastSpaceIsFree(labels, s[..n], s[n]);
    }
  }

  lemma ParsedIsAddAll(s: string)
    ensures Parsed(s) == AddAll(map[], Split(s, ','))
  {
    LeftTrimIsFree(map[], s);
    RightTrimIsFree(map[], TrimLeft(s));
    assert Split("", ',') == [""] && Trim("") == "" && Split("", '=') == [""];
    assert [""][1..] == [];
  }

  // ----- Round trip -----

  function Join(parts: seq<string>): string
    requires parts != []
  {
    if |parts| == 1 then parts[0] else parts[0] + "," + Join(parts[1..])
  }

  ghost predicate CommaFree(parts: seq<string>) {
    forall i :: 0 <= i < |parts| ==> ',' !in parts[i]
  }

  lemma {:induction false} SplitJoin(parts: seq<string>)
    requires parts != [] && CommaFree(parts)
    ensures Split(Join(parts), ',') == parts
    decreases |parts|
  {
    SplitJoined(parts[0], ',', if |parts| == 1 then "" else Join(parts[1..]));
    if |parts| > 1 {
      SplitJoin(parts[1..]);
    }
  }

  // Every part of any comma-joined text counts by itself, in order, whatever the others are.
  lemma PartsAreIndependent(parts: seq<string>)
    requires parts != [] && CommaFree(parts)
    ensures Parsed(Join(parts)) == AddAll(map[], parts)
  {
    SplitJoin(parts);
    ParsedIsAddAll(Join(parts));
  }

  // A label rendered with any whitespace around its tokens, or some malformed text.
  datatype Part =
    | Label(pad0: string, key: string, pad1: string, pad2: string, value: string, pad3: string)
    | Junk(text: string)

  function Render(p: Part): string {
    match p
    case Label(pad0, key, pad1, pad2, value, pad3) => pad0 + key + pad1 + "=" + pad2 + value + pad3
    case Junk(text) => text
  }

  predicate IsToken(s: string) { Trimmed(s) && ',' !in s && '=' !in s }

  ghost predicate IsPadding(s: string) { All(s, IsSpace) }

  // Junk is a part without comma that has no or several equals signs, or an empty side.
  ghost predicate WellFormed(p: Part) {
    match p
    case Label(pad0, key, pad1, pad2, value, pad3) =>
      IsToken(key) && IsToken(value) && IsPadding(pad0) && IsPadding(pad1) && IsPadding(pad2) && IsPadding(pad3)
    case Junk(text) =>
      var kv := Split(Trim(text), '=');
      ',' !in text && (|kv| != 2 || Trim(kv[0]) == "" || Trim(kv[1]) == "")
  }

  lemma TrimBehind(x: string, pad: string)
    requires Trimmed(x) && IsPadding(pad)
    ensures Trim(x + pad) == x
  {
    TrimPadding("", x, pad);
    assert "" + x + pad == x + pad;
  }

  lemma TrimInFront(pad: string, x: string)
    requires Trimmed(x) && IsPadding(pad)
    ensures Trim(pad + x) == x
  {
    TrimPadding(pad, x, "");
    assert pad + x + "" == pad + x;
  }

  lemma PaddingIsSilent(pad: string)
    requires IsPadding(pad)
    ensures ',' !in pad && '=' !in pad
  {
  }

  lemma TwoSides(left: string, right: string)
    requires '=' !in left && '=' !in right
    ensures Split(left + "=" + right, '=') == [left, right]
  {
    SplitJoined(left, '=', right);
    SplitJoined(right, '=', "");
    assert left + "=" + right == left + ['='] + right;
  }

  // The text of a label without its outer padding.
  function Inner(p: Part): string
    requires p.Label?
  {
    p.key + p.pad1 + "=" + (p.pad2 + p.value)
  }

  lemma LabelTrims(p: Part)
    requires p.Label? && WellFormed(p)
    ensures Trim(Render(p)) == Inner(p)
  {
    var x := Inner(p);
    assert Render(p) == p.pad0 + x + p.pad3;
    assert x[0] == p.key[0] && x[|x| - 1] == p.value[|p.value| - 1];
    TrimPadding(p.pad0, x, p.pad3);
  }

  lemma LabelHasNoComma(p: Part)
    requires p.Label? && WellFormed(p)
    ensures ',' !in Render(p)
  {
    PaddingIsSilent(p.pad0);
    PaddingIsSilent(p.pad1);
    PaddingIsSilent(p.pad2);
    PaddingIsSilent(p.pad3);
  }

  lemma LabelMeaning(p: Part)
    requires p.Label? && WellFormed(p)
    ensures PartMeaning(Render(p)) == Some(Pair(p.key, p.value))
    ensures ',' !in Render(p)
  {
    LabelHasNoComma(p);
    LabelTrims(p);
    PaddingIsSilent(p.pad1);
    PaddingIsSilent(p.pad2);
    TwoSides(p.key + p.pad1, p.pad2 + p.value);
    TrimBehind(p.key, p.pad1);
    TrimInFront(p.pad2, p.value);
  }

  function RenderAll(parts: seq<Part>): seq<string> {
    seq(|parts|, i requires 0 <= i < |parts| => Render(parts[i]))
  }

  // The labels that were rendered; a later one replaces an earlier one of the same key.
  function LabelsOf(labels: Labels, parts: seq<Part>): Labels
    decreases |parts|
  {
    if parts == [] then labels
    else LabelsOf(if parts[0].Label? then labels[parts[0].key := parts[0].value] else labels, parts[1..])
  }

  lemma {:induction false} AddRendered(labels: Labels, parts: seq<Part>)
    requires forall i :: 0 <= i < |parts| ==> WellFormed(parts[i])
    ensures AddAll(labels, RenderAll(parts)) == LabelsOf(labels, parts)
    decreases |parts|
  {
    if parts != [] {
      var p := parts[0];
      assert RenderAll(parts)[1..] == RenderAll(parts[1..]);
      if p.Label? {
        LabelMeaning(p);
      }
      AddRendered(Add(labels, Render(p)), parts[1..]);
    }
  }

  // Rendering and parsing gives the labels back, with any padding and any junk in between.
  lemma RoundTrip(parts: seq<Part>)
    requires parts != [] && forall i :: 0 <= i < |parts| ==> WellFormed(parts[i])
    ensures Parsed(Join(RenderAll(parts))) == LabelsOf(map[], parts)
  {
    forall i | 0 <= i < |parts|
      ensures ',' !in RenderAll(parts)[i]
    {
      assert WellFormed(parts[i]);
      if parts[i].Label? {
        LabelMeaning(parts[i]);
      }
    }
    PartsAreIndependent(RenderAll(parts));
    AddRendered(map[], parts);
  }

  // The labels among the parts are those of a map, in any order.
  ghost predicate Renders(parts: seq<Part>, m: Labels) {
    && (forall i :: 0 <= i < |parts| && parts[i].Label? ==> parts[i].key in m && m[parts[i].key] == parts[i].value)
    && forall k :: k in m ==> exists i :: 0 <= i < |parts| && parts[i].Label? && parts[i].key == k
  }

  lemma {:induction false} LabelsOfMap(labels: Labels, parts: seq<Part>, m: Labels, k: string)
    requires forall j :: j in labels ==> j in m && labels[j] == m[j]
    requires forall i :: 0 <= i < |parts| && parts[i].Label? ==> parts[i].key in m && m[parts[i].key] == parts[i].value
    ensures k in LabelsOf(labels, parts) ==> k in m && LabelsOf(labels, parts)[k] == m[k]
    ensures (k in labels || exists i :: 0 <= i < |parts| && parts[i].Label? && parts[i].key == k) ==>
      k in LabelsOf(labels, parts)
    decreases |parts|
  {
    if parts != [] {
      var next := if parts[0].Label? then labels[parts[0].key := parts[0].value] else labels;
      LabelsOfMap(next, parts[1..], m, k);
      if i :| 0 <= i < |parts| && parts[i].Label? && parts[i].key == k {
        assert i > 0 ==> parts[1..][i - 1] == parts[i];
      }
    }
  }

  lemma MapRoundTrip(parts: seq<Part>, m: Labels)
    requires parts != [] && forall i :: 0 <= i < |parts| ==> WellFormed(parts[i])
    requires Renders(parts, m)
    ensures Parsed(Join(RenderAll(parts))) == m
  {
    RoundTrip(parts);
    forall k: string
      ensures k in LabelsOf(map[], parts) <==> k in m
      ensures k in m ==> LabelsOf(map[], parts)[k] == m[k]
    {
      LabelsOfMap(map[], parts, m, k);
    }
  }
}
