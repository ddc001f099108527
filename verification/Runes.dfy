/** Character classes and string helpers of the Go standard library, on strings of code points. */
module Runes {

  // The Unicode property Quotation_Mark.
  predicate IsQuote(c: char) {
    var n := c as int;
    || n == 0x22 || n == 0x27 || n == 0xAB || n == 0xBB
    || 0x2018 <= n <= 0x201F || 0x2039 <= n <= 0x203A || n == 0x2E42
    || 0x300C <= n <= 0x300F || 0x301D <= n <= 0x301F
    || 0xFE41 <= n <= 0xFE44 || n == 0xFF02 || n == 0xFF07 || 0xFF62 <= n <= 0xFF63
  }

  // The Unicode property White_Space, which strings.TrimSpace also uses.
  predicate IsSpace(c: char) {
    var n := c as int;
    || 0x09 <= n <= 0x0D || n == 0x20 || n == 0x85 || n == 0xA0 || n == 0x1680
    || 0x2000 <= n <= 0x200A || n == 0x2028 || n == 0x2029 || n == 0x202F
    || n == 0x205F || n == 0x3000
  }

  predicate IsBlank(c: char) { c == ' ' }

  predicate IsAlnum(c: char) {
    'a' <= c <= 'z' || 'A' <= c <= 'Z' || '0' <= c <= '9'
  }

  // The same classes, rune by rune.
  const QUOTATION_MARKS :=
    "\U{0022}\U{0027}\U{00AB}\U{00BB}\U{2018}\U{2019}\U{201A}\U{201B}\U{201C}\U{201D}\U{201E}\U{201F}"
    + "\U{2039}\U{203A}\U{2E42}\U{300C}\U{300D}\U{300E}\U{300F}\U{301D}\U{301E}\U{301F}\U{FE41}\U{FE42}"
    + "\U{FE43}\U{FE44}\U{FF02}\U{FF07}\U{FF62}\U{FF63}"

  const WHITE_SPACE :=
    "\U{0009}\U{000A}\U{000B}\U{000C}\U{000D}\U{0020}\U{0085}\U{00A0}\U{1680}\U{2000}\U{2001}\U{2002}"
    + "\U{2003}\U{2004}\U{2005}\U{2006}\U{2007}\U{2008}\U{2009}\U{200A}\U{2028}\U{2029}\U{202F}\U{205F}"
    + "\U{3000}"

  lemma RunesAreListed(c: char)
    ensures IsQuote(c) <==> c in QUOTATION_MARKS
    ensures IsSpace(c) <==> c in WHITE_SPACE
  {
  }

  ghost predicate All(s: string, p: char -> bool) {
    forall i :: 0 <= i < |s| ==> p(s[i])
  }

  function TakeWhile(s: string, p: char -> bool): (r: string)
    ensures All(r, p) && r <= s
  {
    if s != "" && p(s[0]) then [s[0]] + TakeWhile(s[1..], p) else ""
  }

  function DropWhile(s: string, p: char -> bool): (r: string)
    ensures r != "" ==> !p(r[0])
    ensures s == TakeWhile(s, p) + r
  {
    if s != "" && p(s[0]) then
      var r := DropWhile(s[1..], p);
      assert s == [s[0]] + (TakeWhile(s[1..], p) + r);
      r
    else s
  }

  lemma {:induction false} DropWhilePrefix(a: string, b: string, p: char -> bool)
    requires All(a, p)
    requires b != "" ==> !p(b[0])
    ensures DropWhile(a + b, p) == b
    ensures TakeWhile(a + b, p) == a
  {
    if a == "" {
      assert a + b == b;
    } else {
      assert (a + b)[1..] == a[1..] + b;
      DropWhilePrefix(a[1..], b, p);
    }
  }

  // What holds of all runes holds of those that are left.
  lemma {:induction false} DropWhileKeeps(s: string, p: char -> bool, q: char -> bool)
    requires All(s, q)
    ensures All(DropWhile(s, p), q)
  {
    if s != "" && p(s[0]) {
      DropWhileKeeps(s[1..], p, q);
    }
  }

  lemma TakenNone(s: string, p: char -> bool)
    ensures TakeWhile(s, p) == "" <==> s == "" || !p(s[0])
  {
  }

  function TrimLeft(s: string): string { DropWhile(s, IsSpace) }

  function TrimRight(s: string): string {
    if s != "" && IsSpace(s[|s| - 1]) then TrimRight(s[..|s| - 1]) else s
  }

  // strings.TrimSpace
  function Trim(s: string): string { TrimRight(TrimLeft(s)) }

  // strings.Split for a separator of one rune
  function Split(s: string, sep: char): (parts: seq<string>)
    ensures parts != []
  {
    if s == "" then [""]
    else
      var rest := Split(s[1..], sep);
      if s[0] == sep then [""] + rest else [[s[0]] + rest[0]] + rest[1..]
  }

  lemma {:induction false} SplitJoined(a: string, sep: char, rest: string)
    requires sep !in a
    ensures Split(a, sep) == [a]
    ensures Split(a + [sep] + rest, sep) == [a] + Split(rest, sep)
    decreases |a|
  {
    var s := a + [sep] + rest;
    if a == "" {
      assert s == [sep] + rest && s[1..] == rest;
    } else {
      assert s[1..] == a[1..] + [sep] + rest;
      SplitJoined(a[1..], sep, rest);
      assert [a[0]] + a[1..] == a;
    }
  }

  predicate Trimmed(s: string) { s != "" && !IsSpace(s[0]) && !IsSpace(s[|s| - 1]) }

  lemma {:induction false} TrimRightPadding(x: string, pad: string)
    requires All(pad, IsSpace) && (x != "" ==> !IsSpace(x[|x| - 1]))
    ensures TrimRight(x + pad) == x
    decreases |pad|
  {
    if pad == "" {
      assert x + pad == x;
    } else {
      var n := |pad| - 1;
      assert (x + pad)[..|x + pad| - 1] == x + pad[..n];
      assert (x + pad)[|x + pad| - 1] == pad[n];
      TrimRightPadding(x, pad[..n]);
    }
  }

  lemma TrimPadding(left: string, x: string, right: string)
    requires All(left, IsSpace) && All(right, IsSpace) && Trimmed(x)
    ensures Trim(left + x + right) == x
  {
    assert left + x + right == left + (x + right);
    DropWhilePrefix(left, x + right, IsSpace);
    TrimRightPadding(x, right);
  }

  lemma TrimOneLeft(c: char, s: string)
    requires IsSpace(c)
    ensures Trim([c] + s) == Trim(s)
  {
  }

  lemma {:induction false} TrimOneRight(s: string, c: char)
    requires IsSpace(c)
    ensures Trim(s + [c]) == Trim(s)
    decreases |s|
  {
    if s == "" {
      assert s + [c] == [c] && [c][1..] == "";
    } else if IsSpace(s[0]) {
      assert (s + [c])[1..] == s[1..] + [c];
      TrimOneRight(s[1..], c);
    } else {
      assert (s + [c])[..|s|] == s;
    }
  }
}
