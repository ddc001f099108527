/**
 Normalising the values and units of pg_settings. Strings here are strings of bytes, one char for
 each, since that is how the source slices them.
 */
module Settings {
  import opened Prelude
  import opened Runes

  const UNITS := ["ms", "s", "min", "h", "d", "B", "kB", "MB", "GB", "TB"]

  // ----- Stripping a unit -----

  predicate HasSuffix(s: string, u: string) {
    |u| <= |s| && s[|s| - |u|..] == u
  }

  // The first unit of the list that the text ends in.
  function FirstUnit(s: string, units: seq<string>): Option<string> {
    if units == [] then None
    else if HasSuffix(s, units[0]) then Some(units[0])
    else FirstUnit(s, units[1..])
  }

  // The unit and the one byte before it go. A text that is a unit itself is an out-of-range slice.
  function Sanitized(s: string): Option<string> {
    match FirstUnit(s, UNITS)
    case None => Some(s)
    case Some(u) => if |s| - |u| - 1 < 0 then None else Some(s[..|s| - |u| - 1])
  }

  // ----- Decimal numbers -----

  // What strconv.ParseFloat delivers, without rounding; the parser itself is a parameter.
  datatype Number = Finite(x: real) | Infinite(negative: bool) | NaN

  type FloatParser = string -> Option<Number>

  function Digit(n: nat): char
    requires n < 10
  {
    ('0' as int + n) as char
  }

  predicate IsDigit(c: char) { '0' <= c <= '9' }

  function Dec(n: nat): (s: string)
    ensures s != "" && forall i :: 0 <= i < |s| ==> IsDigit(s[i])
  {
    if n < 10 then [Digit(n)] else Dec(n / 10) + [Digit(n % 10)]
  }

  function ParseDigits(s: string): Option<nat> {
    if s == "" || !IsDigit(s[|s| - 1]) then None
    else
      var last := s[|s| - 1] as int - '0' as int;
      if |s| == 1 then Some(last)
      else match ParseDigits(s[..|s| - 1])
        case None => None
        case Some(n) => Some(n * 10 + last)
  }

  predicate IsSign(c: char) { c == '+' || c == '-' }

  // An optional sign and the text behind it.
  function Negative(s: string): bool { s != "" && s[0] == '-' }

  function Unsigned(s: string): string { if s != "" && IsSign(s[0]) then s[1..] else s }

  predicate NotPoint(c: char) { c != '.' }

  predicate NotExponent(c: char) { c != 'e' && c != 'E' }

  // The number digits * 10^shift, or its negative.
  datatype Decimal = Decimal(negative: bool, digits: nat, shift: int)

  function Shifted(n: nat, k: nat): nat {
    if k == 0 then n else 10 * Shifted(n, k - 1)
  }

  function DigitsOrZero(s: string): Option<nat> { if s == "" then Some(0) else ParseDigits(s) }

  // The digits before and behind the point.
  function Whole(s: string): string { TakeWhile(s, NotPoint) }

  function Fraction(s: string): string {
    if Whole(s) == s then "" else s[|Whole(s)| + 1..]
  }

  function Joined(whole: string, fraction: string): Option<Decimal> {
    if whole == "" && fraction == "" then None
    else match (DigitsOrZero(whole), DigitsOrZero(fraction))
      case (Some(m), Some(f)) => Some(Decimal(false, Shifted(m, |fraction|) + f, -|fraction|))
      case _ => None
  }

  // Digits with at most one point among them.
  function ParseMantissa(s: string): Option<Decimal> { Joined(Whole(s), Fraction(s)) }

  // An optional sign and digits.
  function ParseExponent(e: string): Option<int> {
    match ParseDigits(Unsigned(e))
    case None => None
    case Some(k) =>
      var shift: int := k;
      Some(if Negative(e) then -shift else shift)
  }

  function MantissaOf(t: string): string { TakeWhile(t, NotExponent) }

  // The shift of what follows the mantissa: nothing, or an exponent.
  function ShiftOf(t: string): Option<int> {
    var m := MantissaOf(t);
    if m == t then Some(0) else ParseExponent(t[|m| + 1..])
  }

  // Decimal numbers: a sign, a mantissa, an exponent, of which only the mantissa must be there.
  function ParseNumber(s: string): Option<Decimal> {
    var t := Unsigned(s);
    match (ParseMantissa(MantissaOf(t)), ShiftOf(t))
    case (Some(d), Some(shift)) => Some(Decimal(Negative(s), d.digits, d.shift + shift))
    case _ => None
  }

  // x times 10^k, and x over 10^k.
  function TimesTen(x: real, k: nat): real {
    if k == 0 then x else 10.0 * TimesTen(x, k - 1)
  }

  function OverTen(x: real, k: nat): real {
    if k == 0 then x else OverTen(x, k - 1) / 10.0
  }

  function ValueOf(d: Decimal): real {
    var x := if d.shift >= 0 then TimesTen(d.digits as real, d.shift) else OverTen(d.digits as real, -d.shift);
    if d.negative then -x else x
  }

  // A parser that reads decimal numbers as what they spell. Of other texts it may do anything.
  ghost predicate ReadsDecimals(parse: FloatParser) {
    forall t: string :: ParseNumber(t).Some? ==> parse(t) == Some(Finite(ValueOf(ParseNumber(t).value)))
  }

  lemma {:induction false} ParseDec(n: nat)
    ensures ParseDigits(Dec(n)) == Some(n)
  {
    if n >= 10 {
      ParseDec(n / 10);
      assert Dec(n)[..|Dec(n)| - 1] == Dec(n / 10);
    }
  }

  lemma {:induction false} TakeAll(s: string, p: char -> bool)
    requires All(s, p)
    ensures TakeWhile(s, p) == s
  {
    DropWhilePrefix(s, "", p);
    assert s + "" == s;
  }

  lemma {:induction false} ParsedAreDigits(s: string)
    requires ParseDigits(s).Some?
    ensures s != "" && All(s, IsDigit)
    decreases |s|
  {
    if |s| > 1 {
      ParsedAreDigits(s[..|s| - 1]);
      assert s == s[..|s| - 1] + [s[|s| - 1]];
    }
  }

  lemma PlainMantissa(s: string)
    requires All(s, IsDigit) && ParseDigits(s).Some?
    ensures ParseMantissa(s) == Some(Decimal(false, ParseDigits(s).value, 0))
  {
    TakeAll(s, NotPoint);
    assert s + "" == s;
  }

  lemma PointParts(a: string, b: string)
    requires All(a, NotPoint)
    ensures Whole(a + "." + b) == a && Fraction(a + "." + b) == b
  {
    var s, tail := a + "." + b, "." + b;
    assert s == a + tail;
    DropWhilePrefix(a, tail, NotPoint);
    assert s[|a| + 1..] == b;
  }

  ghost predicate Unmarked(s: string) { s != "" && All(s, NotExponent) && !IsSign(s[0]) }

  lemma NoExponent(s: string)
    requires Unmarked(s) && ParseMantissa(s).Some? && !ParseMantissa(s).value.negative
    ensures ParseNumber(s) == ParseMantissa(s)
  {
    TakeAll(s, NotExponent);
    assert MantissaOf(s) == s;
  }

  lemma DigitsAreUnmarked(a: string)
    requires a != "" && All(a, IsDigit)
    ensures Unmarked(a)
  {
  }

  lemma PointIsUnmarked(a: string, b: string)
    requires a != "" && All(a, IsDigit) && All(b, IsDigit)
    ensures Unmarked(a + "." + b)
  {
    var s := a + "." + b;
    assert s[0] == a[0];
    assert forall i :: 0 <= i < |s| ==> NotExponent(s[i]);
  }

  lemma {:induction false} OverTenAdds(x: real, y: real, k: nat)
    ensures OverTen(x + y, k) == OverTen(x, k) + OverTen(y, k)
  {
    if k > 0 {
      OverTenAdds(x, y, k - 1);
    }
  }

  lemma {:induction false} OverTenTimes(x: real, k: nat)
    ensures OverTen(10.0 * x, k) == 10.0 * OverTen(x, k)
  {
    if k > 0 {
      OverTenTimes(x, k - 1);
    }
  }

  lemma {:induction false} ShiftedBack(n: nat, k: nat)
    ensures OverTen(Shifted(n, k) as real, k) == n as real
  {
    if k > 0 {
      OverTenTimes(Shifted(n, k - 1) as real, k - 1);
      ShiftedBack(n, k - 1);
    }
  }

  // The value of digits with a point among them: the whole part plus the digits behind the point,
  // over as many tens.
  lemma PointValue(m: nat, f: nat, k: int)
    requires k >= 0
    ensures ValueOf(Decimal(false, Shifted(m, k) + f, -k)) == m as real + OverTen(f as real, k)
  {
    OverTenAdds(Shifted(m, k) as real, f as real, k);
    ShiftedBack(m, k);
  }

  lemma NumberOfParts(a: string, b: string)
    requires a != "" && All(a, IsDigit) && All(b, IsDigit) && Joined(a, b).Some?
    ensures ParseNumber(a + "." + b) == Joined(a, b)
  {
    var s := a + "." + b;
    PointIsUnmarked(a, b);
    PointParts(a, b);
    assert ParseMantissa(s) == Joined(a, b);
    NoExponent(s);
  }

  lemma PartsAreDigits(a: string, b: string, m: nat, f: nat)
    requires ParseDigits(a) == Some(m) && ParseDigits(b) == Some(f)
    ensures a != "" && All(a, IsDigit) && All(b, IsDigit)
    ensures Joined(a, b) == Some(Decimal(false, Shifted(m, |b|) + f, -|b|))
  {
    ParsedAreDigits(a);
    ParsedAreDigits(b);
  }

  lemma FractionIsItsNumber(a: string, b: string, m: nat, f: nat)
    requires ParseDigits(a) == Some(m) && ParseDigits(b) == Some(f)
    ensures ParseNumber(a + "." + b) == Some(Decimal(false, Shifted(m, |b|) + f, -|b|))
  {
    PartsAreDigits(a, b, m, f);
    NumberOfParts(a, b);
  }

  // ----- Units -----

  function Base(u: string): Option<string> {
    if u == "" then Some("")
    else if u in ["ms", "s", "min", "h", "d"] then Some("seconds")
    else if u in ["B", "kB", "MB", "GB", "TB", "4kB", "8kB", "16kB", "32kB", "64kB", "16MB", "32MB", "64MB"]
    then Some("bytes")
    else None
  }

  const KB: real := 1024.0
  const MB: real := 1024.0 * 1024.0

  function ConvertedReal(x: real, u: string): real {
    match u
    case "ms" => x / 1000.0
    case "min" => x * 60.0
    case "h" => x * 3600.0
    case "d" => x * 86400.0
    case "kB" => x * KB
    case "MB" => x * MB
    case "GB" => x * (1024.0 * MB)
    case "TB" => x * (MB * MB)
    case "4kB" => x * (4.0 * KB)
    case "8kB" => x * (8.0 * KB)
    case "16kB" => x * (16.0 * KB)
    case "32kB" => x * (32.0 * KB)
    case "64kB" => x * (64.0 * KB)
    case "16MB" => x * (16.0 * MB)
    case "32MB" => x * (32.0 * MB)
    case "64MB" => x * (64.0 * MB)
    case _ => x
  }

  function Converted(v: Number, u: string): Number {
    if v.Finite? then Finite(ConvertedReal(v.x, u)) else v
  }

  datatype Normal = Value(val: Number, unit: string) | BadNumber | UnknownUnit | OutOfRange

  // -1 means unlimited or disabled and is left alone, whatever the unit.
  function Scaled(parsed: Option<Number>, unit: string): Normal {
    match parsed
    case None => BadNumber
    case Some(v) =>
      match Base(unit)
      case None => UnknownUnit
      case Some(b) => Value(if v == Finite(-1.0) then v else Converted(v, unit), b)
  }

  function Normalised(parse: FloatParser, setting: string, unit: string): Normal {
    match Sanitized(setting)
    case None => OutOfRange
    case Some(s) => Scaled(parse(s), unit)
  }

  class PgSetting {
    var setting: string
    const unit: string

    constructor (setting: string, unit: string)
      ensures this.setting == setting && this.unit == unit
    {
      this.setting, this.unit := setting, unit;
    }

    method SanitizeValue() returns (inRange: bool)
      modifies this
      ensures inRange <==> Sanitized(old(setting)).Some?
      ensures setting == if inRange then Sanitized(old(setting)).value else old(setting)
    {
      for i := 0 to |UNITS|
        invariant setting == old(setting)
        invariant FirstUnit(setting, UNITS) == FirstUnit(setting, UNITS[i..])
      {
        var u := UNITS[i];
        assert UNITS[i..][0] == u && UNITS[i..][1..] == UNITS[i + 1..];
        if HasSuffix(setting, u) {
          var endPos := |setting| - |u| - 1;
          if endPos < 0 {
            return false;
          }
          setting := setting[..endPos];
          return true;
        }
      }
      return true;
    }

    method NormaliseUnit(parse: FloatParser) returns (r: Normal)
      modifies this
      ensures r == Normalised(parse, old(setting), unit)
      ensures setting == if Sanitized(old(setting)).Some? then Sanitized(old(setting)).value else old(setting)
    {
      var inRange := SanitizeValue();
      if !inRange {
        return OutOfRange;
      }
      r := Convert(parse(setting), unit);
    }
  }

  // The parse comes before the test of the unit.
  method Convert(parsed: Option<Number>, unit: string) returns (r: Normal)
    ensures r == Scaled(parsed, unit)
    ensures r.BadNumber? <==> parsed.None?
    ensures r.UnknownUnit? <==> parsed.Some? && !IsTime(unit) && !IsMemory(unit) && unit != ""
    ensures r.Value? && !parsed.value.Finite? ==> r.val == parsed.value
  {
    BaseUnits(unit);
    if parsed.None? {
      return BadNumber;
    }
    var val, base := parsed.value, Base(unit);
    if base.None? {
      return UnknownUnit;
    }
    if val == Finite(-1.0) {
      return Value(val, base.value);
    }
    val := Converted(val, unit);
    return Value(val, base.value);
  }

  // ----- Which spellings of a number survive -----

  // A number, some spaces, a unit.
  function Spelled(number: string, gap: nat, u: string): string { number + seq(gap, _ => ' ') + u }

  // "B" comes before the units that end in it.
  function Caught(u: string): string { if u in ["kB", "MB", "GB", "TB"] then "B" else u }

  // The list is searched in order, so the first unit that matches decides.
  lemma {:induction false} FirstUnitIs(s: string, units: seq<string>, i: nat)
    requires i < |units| && HasSuffix(s, units[i])
    requires forall j :: 0 <= j < i ==> !HasSuffix(s, units[j])
    ensures FirstUnit(s, units) == Some(units[i])
  {
    if i > 0 {
      FirstUnitIs(s, units[1..], i - 1);
    }
  }

  lemma {:induction false} NoUnit(s: string, units: seq<string>)
    requires forall j :: 0 <= j < |units| ==> !HasSuffix(s, units[j])
    ensures FirstUnit(s, units) == None
  {
    if units != [] {
      NoUnit(s, units[1..]);
    }
  }

  predicate IsBody(p: string) { p != "" && (IsDigit(p[|p| - 1]) || p[|p| - 1] == ' ') }

  // A suffix agrees with the text k runes from the end.
  lemma NotSuffix(s: string, w: string, k: nat)
    requires 1 <= k <= |w| && k <= |s| && s[|s| - k] != w[|w| - k]
    ensures !HasSuffix(s, w)
  {
  }

  predicate EndsUnit(c: char) { c == 's' || c == 'n' || c == 'h' || c == 'd' || c == 'B' }

  lemma UnitsEnd(j: nat)
    requires j < |UNITS|
    ensures UNITS[j] != "" && EndsUnit(UNITS[j][|UNITS[j]| - 1])
  {
  }

  lemma BodyEndsInNoUnit(p: string)
    requires IsBody(p)
    ensures FirstUnit(p, UNITS) == None
  {
    forall j | 0 <= j < |UNITS|
      ensures !HasSuffix(p, UNITS[j])
    {
      UnitsEnd(j);
      NotSuffix(p, UNITS[j], 1);
    }
    NoUnit(p, UNITS);
  }

  // The place in the list of the unit that the last runes of a text select.
  function Place(u: string): nat {
    if u == "ms" then 0 else if u == "s" then 1 else if u == "min" then 2 else if u == "h" then 3
    else if u == "d" then 4 else 5
  }

  // The last two runes exclude the first i units.
  ghost predicate Passes(s: string, i: nat) {
    && |s| >= 2 && i <= 5
    && (i >= 1 ==> s[|s| - 1] != 's' || s[|s| - 2] != 'm')
    && (i >= 2 ==> s[|s| - 1] != 's')
    && (i >= 3 ==> s[|s| - 1] != 'n')
    && (i >= 4 ==> s[|s| - 1] != 'h')
    && (i >= 5 ==> s[|s| - 1] != 'd')
  }

  lemma Earlier(s: string, i: nat)
    requires Passes(s, i)
    ensures forall j :: 0 <= j < i ==> !HasSuffix(s, UNITS[j])
  {
  }

  // The last runes of the units, in the order of their places.
  lemma LastRunes(u: string)
    requires u in UNITS
    ensures u != "" && Place(u) <= 5
    ensures Place(u) == 0 <==> u[|u| - 1] == 's' && |u| == 2
    ensures Place(u) == 1 <==> u[|u| - 1] == 's' && |u| == 1
    ensures Place(u) == 2 <==> u[|u| - 1] == 'n'
    ensures Place(u) == 3 <==> u[|u| - 1] == 'h'
    ensures Place(u) == 4 <==> u[|u| - 1] == 'd'
  {
  }

  lemma UnitPasses(p: string, u: string)
    requires IsBody(p) && u in UNITS
    ensures Passes(p + u, Place(u))
  {
    LastRunes(u);
    var s := p + u;
    assert s[|s| - 1] == u[|u| - 1];
    assert |u| == 1 ==> s[|s| - 2] == p[|p| - 1];
  }

  lemma EndsInCaught(p: string, u: string)
    requires u in UNITS
    ensures HasSuffix(p + u, Caught(u)) && Caught(u) == UNITS[Place(u)]
  {
  }

  lemma UnitIsCaught(p: string, u: string)
    requires IsBody(p) && u in UNITS
    ensures FirstUnit(p + u, UNITS) == Some(Caught(u))
  {
    EndsInCaught(p, u);
    UnitPasses(p, u);
    Earlier(p + u, Place(u));
    FirstUnitIs(p + u, UNITS, Place(u));
  }

  predicate EndsInDigit(number: string) { number != "" && IsDigit(number[|number| - 1]) }

  // The spaces that a spelling with this unit needs: one before a unit that is found itself, none
  // before a unit that is cut off by way of its final "B".
  function Gap(u: string): nat { if Caught(u) == u then 1 else 0 }

  lemma GapFits(u: string)
    requires u in UNITS
    ensures Gap(u) == |Caught(u)| + 1 - |u|
  {
  }

  // The units that may end a setting.
  ghost predicate IsSuffixUnit(u: string) { IsShortUnit(u) || IsLongBytes(u) }

  ghost predicate IsShortUnit(u: string) {
    u == "ms" || u == "s" || u == "min" || u == "h" || u == "d" || u == "B"
  }

  ghost predicate IsLongBytes(u: string) { u == "kB" || u == "MB" || u == "GB" || u == "TB" }

  lemma UnitsAre(u: string)
    ensures u in UNITS <==> IsSuffixUnit(u)
    ensures u in UNITS ==> Caught(u) == if IsLongBytes(u) then "B" else u
  {
    assert UNITS[0] == "ms" && UNITS[1] == "s" && UNITS[2] == "min" && UNITS[3] == "h" && UNITS[4] == "d";
    assert UNITS[5] == "B" && UNITS[6] == "kB" && UNITS[7] == "MB" && UNITS[8] == "GB" && UNITS[9] == "TB";
  }

  // Exactly one gap works: none before the long units of bytes, and one space before the others.
  lemma SurvivesExactly(number: string, gap: nat, u: string)
    requires EndsInDigit(number) && IsSuffixUnit(u)
    ensures Sanitized(Spelled(number, gap, u)) == Some(number) <==> gap == if IsLongBytes(u) then 0 else 1
  {
    UnitsAre(u);
    var body := number + seq(gap, _ => ' ');
    UnitIsCaught(body, u);
    GapFits(u);
    var s := Spelled(number, gap, u);
    assert |s| == |number| + gap + |u|;
    var end := |s| - |Caught(u)| - 1;
    if end == |number| {
      assert s[..end] == number;
    }
  }

  // A setting is left alone exactly when it ends in no unit.
  lemma UntouchedExactly(s: string)
    ensures Sanitized(s) == Some(s) <==> forall p, u :: IsSuffixUnit(u) ==> s != p + u
  {
    match FirstUnit(s, UNITS)
    case None =>
      forall p, u | IsSuffixUnit(u)
        ensures s != p + u
      {
        UnitsAre(u);
        FirstUnitNone(s, UNITS, u);
        assert (p + u)[|p + u| - |u|..] == u;
      }
    case Some(u) =>
      FirstUnitFound(s, UNITS);
      UnitsAre(u);
      assert s == s[..|s| - |u|] + u;
  }

  // It is out of range exactly when it is a unit that is found itself.
  lemma OutOfRangeExactly(s: string)
    ensures Sanitized(s) == None <==> IsShortUnit(s)
  {
    if Sanitized(s) == None {
      FirstUnitFound(s, UNITS);
      var u := FirstUnit(s, UNITS).value;
      assert s[|s| - |u|..] == u && |s| == |u| && s[0..] == s;
      UnitItself(s);
      UnitsAre(s);
    }
    if IsShortUnit(s) {
      UnitsAre(s);
      UnitItself(s);
    }
  }

  // The earlier units of the list are longer, or end differently.
  lemma EarlierDiffer(u: string, j: nat)
    requires u in UNITS && j < Place(u)
    ensures j < 5 && !HasSuffix(u, UNITS[j])
  {
    LastRunes(u);
    var w := UNITS[j];
    if |w| <= |u| {
      assert u[|u| - 1] != w[|w| - 1];
      NotSuffix(u, w, 1);
    }
  }

  lemma UnitItself(u: string)
    requires u in UNITS
    ensures FirstUnit(u, UNITS) == Some(Caught(u))
  {
    EndsInCaught("", u);
    assert "" + u == u;
    LastRunes(u);
    forall j | 0 <= j < Place(u)
      ensures !HasSuffix(u, UNITS[j])
    {
      EarlierDiffer(u, j);
    }
    FirstUnitIs(u, UNITS, Place(u));
  }

  lemma {:induction false} FirstUnitNone(s: string, units: seq<string>, u: string)
    requires FirstUnit(s, units) == None && u in units
    ensures !HasSuffix(s, u)
  {
    if u != units[0] {
      FirstUnitNone(s, units[1..], u);
    }
  }

  lemma {:induction false} FirstUnitFound(s: string, units: seq<string>)
    requires FirstUnit(s, units).Some?
    ensures FirstUnit(s, units).value in units && HasSuffix(s, FirstUnit(s, units).value)
  {
    if !HasSuffix(s, units[0]) {
      FirstUnitFound(s, units[1..]);
    }
  }

  lemma PlainNumbersSurvive(number: string)
    requires EndsInDigit(number)
    ensures Sanitized(number) == Some(number)
  {
    BodyEndsInNoUnit(number);
  }

  // ----- From spellings to values -----

  // How many seconds or bytes one of a unit is.
  function Factor(u: string): real {
    match u
    case "ms" => 0.001
    case "min" => 60.0
    case "h" => 3600.0
    case "d" => 86400.0
    case "kB" => 1024.0
    case "4kB" => 4096.0
    case "8kB" => 8192.0
    case "16kB" => 16384.0
    case "32kB" => 32768.0
    case "64kB" => 65536.0
    case "MB" => 1048576.0
    case "16MB" => 16777216.0
    case "32MB" => 33554432.0
    case "64MB" => 67108864.0
    case "GB" => 1073741824.0
    case "TB" => 1099511627776.0
    case _ => 1.0
  }

  lemma ConvertedIsProduct(x: real, u: string)
    ensures ConvertedReal(x, u) == x * Factor(u)
  {
  }

  // A number in base units: -1, which stands for unlimited or disabled, is left alone.
  function InBaseUnits(x: real, unit: string): Number {
    Finite(if x == -1.0 then x else x * Factor(unit))
  }

  // How a number may be spelled in a setting: bare, or with a unit behind the right gap.
  ghost predicate IsSpelling(setting: string, number: string) {
    setting == number || exists u :: IsSuffixUnit(u) && setting == Spelled(number, if IsLongBytes(u) then 0 else 1, u)
  }

  lemma SpellingSanitizes(setting: string, number: string)
    requires IsSpelling(setting, number) && EndsInDigit(number)
    ensures Sanitized(setting) == Some(number)
  {
    if setting == number {
      PlainNumbersSurvive(number);
    } else {
      var u :| IsSuffixUnit(u) && setting == Spelled(number, if IsLongBytes(u) then 0 else 1, u);
      SurvivesExactly(number, if IsLongBytes(u) then 0 else 1, u);
    }
  }

  lemma ScaledIs(x: real, unit: string)
    requires Base(unit).Some?
    ensures Scaled(Some(Finite(x)), unit) == Value(InBaseUnits(x, unit), Base(unit).value)
  {
    ConvertedIsProduct(x, unit);
  }

  // Text number spells x.
  ghost predicate Spells(number: string, x: real) {
    EndsInDigit(number) && ParseNumber(number).Some? && ValueOf(ParseNumber(number).value) == x
  }

  lemma SpelledIsRead(parse: FloatParser, number: string, x: real)
    requires ReadsDecimals(parse) && Spells(number, x)
    ensures parse(number) == Some(Finite(x)) && EndsInDigit(number)
  {
  }

  ghost predicate IsTime(unit: string) {
    unit == "ms" || unit == "s" || unit == "min" || unit == "h" || unit == "d"
  }

  ghost predicate IsMemory(unit: string) {
    || unit == "B" || unit == "kB" || unit == "MB" || unit == "GB" || unit == "TB"
    || unit == "4kB" || unit == "8kB" || unit == "16kB" || unit == "32kB" || unit == "64kB"
    || unit == "16MB" || unit == "32MB" || unit == "64MB"
  }

  // Seconds for units of time, bytes for units of memory, nothing for no unit.
  lemma BaseUnits(unit: string)
    ensures Base(unit) == Some("seconds") <==> IsTime(unit)
    ensures Base(unit) == Some("bytes") <==> IsMemory(unit)
    ensures Base(unit) == Some("") <==> unit == ""
    ensures Base(unit) == None <==> !IsTime(unit) && !IsMemory(unit) && unit != ""
  {
    assert |"seconds"| == 7 && |"bytes"| == 5;
  }

  // Every spelling of a decimal number has its value in base units, exactly.
  lemma SpellingHasItsValue(parse: FloatParser, setting: string, number: string, x: real, unit: string)
    requires ReadsDecimals(parse) && IsSpelling(setting, number) && Spells(number, x)
    requires IsTime(unit) || IsMemory(unit) || unit == ""
    ensures Normalised(parse, setting, unit)
            == Value(InBaseUnits(x, unit), if IsTime(unit) then "seconds" else if IsMemory(unit) then "bytes" else "")
  {
    BaseUnits(unit);
    SpelledIsRead(parse, number, x);
    SpellingSanitizes(setting, number);
    ScaledIs(x, unit);
  }

  function SignedDec(n: int): string { if n < 0 then "-" + Dec(-n) else Dec(n) }

  lemma UnsignedIs(n: int, m: nat)
    requires m == if n < 0 then -n else n
    requires Unmarked(Dec(m))
    ensures Unsigned(SignedDec(n)) == Dec(m) && (Negative(SignedDec(n)) <==> n < 0)
    ensures EndsInDigit(SignedDec(n))
  {
    if n < 0 {
      assert ("-" + Dec(m))[1..] == Dec(m);
      assert ("-" + Dec(m))[|Dec(m)|] == Dec(m)[|Dec(m)| - 1];
    }
  }

  lemma SignedDecSpells(n: int)
    ensures Spells(SignedDec(n), n as real)
  {
    var m: nat := if n < 0 then -n else n;
    ParseDec(m);
    DigitsAreUnmarked(Dec(m));
    PlainMantissa(Dec(m));
    UnsignedIs(n, m);
    TakeAll(Dec(m), NotExponent);
  }

  // Whole numbers, of either sign.
  lemma WholeNumberValue(parse: FloatParser, setting: string, n: int, unit: string)
    requires ReadsDecimals(parse) && IsSpelling(setting, SignedDec(n))
    requires IsTime(unit) || IsMemory(unit) || unit == ""
    ensures Normalised(parse, setting, unit)
            == Value(InBaseUnits(n as real, unit),
                     if IsTime(unit) then "seconds" else if IsMemory(unit) then "bytes" else "")
  {
    SignedDecSpells(n);
    SpellingHasItsValue(parse, setting, SignedDec(n), n as real, unit);
  }

  lemma FractionEndsInDigit(a: string, b: string, f: nat)
    requires ParseDigits(b) == Some(f)
    ensures EndsInDigit(a + "." + b)
  {
    ParsedAreDigits(b);
    assert (a + "." + b)[|a + "." + b| - 1] == b[|b| - 1];
  }

  lemma PointSpells(a: string, b: string, m: nat, f: nat)
    requires EndsInDigit(a + "." + b)
    requires ParseNumber(a + "." + b) == Some(Decimal(false, Shifted(m, |b|) + f, -|b|))
    ensures Spells(a + "." + b, m as real + OverTen(f as real, |b|))
  {
    PointValue(m, f, |b|);
  }

  // Decimal fractions spell m whole, and the digits behind the point over as many tens.
  lemma FractionSpells(a: string, b: string, m: nat, f: nat)
    requires ParseDigits(a) == Some(m) && ParseDigits(b) == Some(f)
    ensures Spells(a + "." + b, m as real + OverTen(f as real, |b|))
  {
    FractionEndsInDigit(a, b, f);
    FractionIsItsNumber(a, b, m, f);
    PointSpells(a, b, m, f);
  }

  lemma {:induction false} OverTenUndoesTimesTen(x: real, k: nat)
    ensures OverTen(TimesTen(x, k), k) == x
  {
    if k > 0 {
      OverTenTimes(TimesTen(x, k - 1), k - 1);
      OverTenUndoesTimesTen(x, k - 1);
    }
  }

  lemma MantissaBeforeExponent(a: string, e: string)
    requires a != "" && All(a, IsDigit)
    ensures MantissaOf(a + "e" + e) == a && ShiftOf(a + "e" + e) == ParseExponent(e)
  {
    var s, tail := a + "e" + e, "e" + e;
    assert s == a + tail;
    DropWhilePrefix(a, tail, NotExponent);
    assert s[|a| + 1..] == e;
  }

  lemma ExponentIs(k: int)
    ensures ParseExponent(SignedDec(k)) == Some(k)
  {
    var m: nat := if k < 0 then -k else k;
    ParseDec(m);
    DigitsAreUnmarked(Dec(m));
    UnsignedIs(k, m);
  }

  lemma ExponentParses(m: nat, k: int)
    ensures ParseNumber(Dec(m) + "e" + SignedDec(k)) == Some(Decimal(false, m, k))
  {
    var s := Dec(m) + "e" + SignedDec(k);
    ParseDec(m);
    PlainMantissa(Dec(m));
    MantissaBeforeExponent(Dec(m), SignedDec(k));
    ExponentIs(k);
    StartsInDigit(s, Dec(m));
  }

  lemma StartsInDigit(s: string, a: string)
    requires a != "" && All(a, IsDigit) && a <= s
    ensures Unsigned(s) == s && !Negative(s)
  {
    assert IsDigit(a[0]) && s[0] == a[0];
  }

  lemma ExponentEndsInDigit(m: nat, k: int)
    ensures EndsInDigit(Dec(m) + "e" + SignedDec(k))
  {
    var n: nat := if k < 0 then -k else k;
    DigitsAreUnmarked(Dec(n));
    UnsignedIs(k, n);
    var s := Dec(m) + "e" + SignedDec(k);
    assert s[|s| - 1] == SignedDec(k)[|SignedDec(k)| - 1];
  }

  // Digits, an "e" and a whole number k spell the digits times 10^k: the x that makes m again after
  // as many multiplications by ten as k is below zero, or divisions as it is above.
  lemma ExponentSpells(m: nat, k: int, x: real)
    requires if k >= 0 then OverTen(x, k) == m as real else TimesTen(x, -k) == m as real
    ensures Spells(Dec(m) + "e" + SignedDec(k), x)
  {
    ExponentParses(m, k);
    ExponentEndsInDigit(m, k);
    ScaledBack(x, m, k);
  }

  lemma ScaledBack(x: real, m: nat, k: int)
    requires if k >= 0 then OverTen(x, k) == m as real else TimesTen(x, -k) == m as real
    ensures ValueOf(Decimal(false, m, k)) == x
  {
    if k >= 0 {
      TimesTenUndoesOverTen(x, k);
    } else {
      OverTenUndoesTimesTen(x, -k);
    }
  }

  lemma {:induction false} TimesTenUndoesOverTen(x: real, k: nat)
    ensures TimesTen(OverTen(x, k), k) == x
  {
    if k > 0 {
      TimesTenOver(x, k);
      TimesTenUndoesOverTen(x, k - 1);
    }
  }

  lemma {:induction false} TimesTenOver(x: real, k: nat)
    requires k > 0
    ensures TimesTen(OverTen(x, k), k) == TimesTen(OverTen(x, k - 1), k - 1)
  {
    TimesTenOut(OverTen(x, k), k - 1);
  }

  lemma {:induction false} TimesTenOut(x: real, k: nat)
    ensures 10.0 * TimesTen(x, k) == TimesTen(10.0 * x, k)
  {
    if k > 0 {
      TimesTenOut(x, k - 1);
    }
  }
}
