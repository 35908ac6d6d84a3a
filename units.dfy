/**
  The unit and colour helpers of the converter: `convertToUnit` turns a CSS length into
  points (or refuses it), `parseColor` normalises `rgb(...)` colours to `#rrggbb` and
  `transparent` to `white`, and `toCamelCase` turns `a-b` into `aB`.
 */
module Units {
  import opened Optional
  import opened Strings
  import opened Numbers

  // ---------------------------------------------------------------- convertToUnit

  /** The units the length pattern `^(\d+(\.\d+)?)(pt|px|rem|cm)$` accepts. */
  datatype Unit = Pt | Px | Rem | Cm

  function UnitOf(s: string): Option<Unit> {
    if s == "pt" then Some(Pt)
    else if s == "px" then Some(Px)
    else if s == "rem" then Some(Rem)
    else if s == "cm" then Some(Cm)
    else None
  }

  /** `d` and `d.f` as an exact real. */
  function DecimalValue(d: string, f: string): real
    requires AllDigits(d) && AllDigits(f)
  {
    DigitsValue(d) as real + DigitsValue(f) as real / Pow10(|f|) as real
  }

  /** Matches `^(\d+(\.\d+)?)(unit)$` and gives the number and the unit. */
  function LengthMatch(t: string): Option<(real, Unit)> {
    var i := DigitRun(t);
    if i == 0 then None
    else if i < |t| && t[i] == '.' then
      var j := DigitRun(t[i + 1..]);
      if j == 0 then None
      else
        match UnitOf(t[i + 1 + j..])
        case None => None
        case Some(u) => Some((DecimalValue(t[..i], t[i + 1..][..j]), u))
    else
      match UnitOf(t[i..])
      case None => None
      case Some(u) => Some((DecimalValue(t[..i], ""), u))
  }

  /** Points for `n` in unit `u`: 1px = 0.75292857248934pt rounded, 1rem = 12pt,
      1cm = 28.34646pt rounded. */
  function InPoints(n: real, u: Unit): real {
    match u
    case Pt => n
    case Px => Round(n * 0.75292857248934) as real
    case Rem => n * 12.0
    case Cm => Round(n * 28.34646) as real
  }

  /** `convertToUnit(val)`: None stands for the `false` the source returns. */
  function ConvertToUnit(val: string): Option<real> {
    var n := ToNumber(val);
    if ParseFloatIsNumber(val) && n.Finite? then Some(n.r)
    else
      match LengthMatch(Trim(val))
      case None => None
      case Some((x, u)) => Some(InPoints(x, u))
  }

  // --- lemmas about convertToUnit

  lemma {:induction false} DigitRunOfDigits(d: string, rest: string)
    requires AllDigits(d)
    requires rest == [] || !IsDigit(rest[0])
    ensures DigitRun(d + rest) == |d|
    decreases |d|
  {
    if d != [] {
      DigitRunOfDigits(d[1..], rest);
      assert (d + rest)[1..] == d[1..] + rest;
    }
  }

  lemma TrimNoSpace(s: string)
    requires s != [] && !IsSpace(s[0]) && !IsSpace(s[|s| - 1])
    ensures Trim(s) == s && TrimStart(s) == s
  {
  }

  /** A character that can follow the digits of a length without making it a number:
      not a digit, point, exponent or radix letter. */
  predicate IsUnitHead(c: char) {
    IsAsciiLower(c) && c != 'e' && c != 'x' && c != 'o' && c != 'b'
  }

  /** The numeral `d` or `d.f` that a length starts with. */
  function Numeral(d: string, f: string): string {
    if f == [] then d else d + "." + f
  }

  /** The leading digit run of a numeral followed by a suffix. */
  lemma {:induction false} NumeralRuns(d: string, f: string, rest: string)
    requires d != [] && AllDigits(d) && AllDigits(f)
    requires rest == [] || !IsDigit(rest[0])
    ensures var s := Numeral(d, f) + rest;
      DigitRun(s) == |d| && s[..|d|] == d
      && (f == [] ==> s[|d|..] == rest)
      && (f != [] ==> s[|d|] == '.' && DigitRun(s[|d| + 1..]) == |f|
                      && s[|d| + 1..][..|f|] == f && s[|d| + 1 + |f|..] == rest)
  {
    var s := Numeral(d, f) + rest;
    if f == [] {
      DigitRunOfDigits(d, rest);
      assert s[..|d|] == d && s[|d|..] == rest;
    } else {
      assert s == d + ("." + f + rest);
      DigitRunOfDigits(d, "." + f + rest);
      assert s[..|d|] == d;
      assert s[|d| + 1..] == f + rest;
      DigitRunOfDigits(f, rest);
      assert (f + rest)[..|f|] == f && (f + rest)[|f|..] == rest;
    }
  }

  /** The decimal-literal reading of a numeral followed by nothing or by a letter suffix. */
  lemma UnsignedNumeral(d: string, f: string, rest: string)
    requires d != [] && AllDigits(d) && AllDigits(f)
    requires rest == [] || IsUnitHead(rest[0])
    ensures UnsignedDecimal(Numeral(d, f) + rest)
         == (if rest == [] then Some(DecimalValue(d, f)) else None)
  {
    NumeralRuns(d, f, rest);
    if rest != [] && f == [] {
      DecimalWithoutPoint(Numeral(d, f) + rest, |d|);
    } else if rest != [] {
      DecimalAfterPoint(Numeral(d, f) + rest, |d|, |f|);
    }
  }

  /** The letters of the `0x`, `0o` and `0b` prefixes. */
  predicate IsRadixLetter(c: char) {
    c == 'x' || c == 'X' || c == 'o' || c == 'O' || c == 'b' || c == 'B'
  }

  lemma NoRadixPrefix(s: string)
    requires |s| < 2 || s[0] != '0' || !IsRadixLetter(s[1])
    ensures NonDecimalInteger(s).None?
  {
  }

  /** A string that starts with a digit, has no surrounding white space and no radix
      prefix is read as an unsigned decimal literal. */
  lemma DigitLedToNumber(s: string)
    requires s != [] && IsDigit(s[0]) && !IsSpace(s[|s| - 1]) && (|s| < 2 || !IsRadixLetter(s[1]))
    ensures ToNumber(s) == (match UnsignedDecimal(s) case Some(v) => Finite(v) case None => NaN)
  {
    assert Trim(s) == s by { TrimNoSpace(s); }
    assert NonDecimalInteger(s).None? by { NoRadixPrefix(s); }
    assert ToNumber(s) == SignedDecimal(s);
    assert s != "Infinity" by { assert s[0] != "Infinity"[0]; }
  }

  lemma NumeralEnds(d: string, f: string, rest: string)
    requires d != [] && AllDigits(d) && AllDigits(f)
    requires rest == [] || (IsUnitHead(rest[0]) && !IsSpace(rest[|rest| - 1]))
    ensures var s := Numeral(d, f) + rest;
      s != [] && IsDigit(s[0]) && !IsSpace(s[|s| - 1]) && (|s| < 2 || !IsRadixLetter(s[1]))
  {
    var s := Numeral(d, f) + rest;
    assert s[0] == d[0];
    if rest == [] {
      if f == [] { assert s[|s| - 1] == d[|d| - 1]; } else { assert s[|s| - 1] == f[|f| - 1]; }
    } else {
      assert s[|s| - 1] == rest[|rest| - 1];
    }
    if |s| >= 2 {
      if |d| >= 2 { assert s[1] == d[1]; }
      else if f != [] { assert s[1] == '.'; }
      else { assert s[1] == rest[0]; }
    }
  }

  /** A numeral, alone or followed by a letter suffix (a unit, say), has no white space to trim. */
  lemma NumeralTrim(d: string, f: string, rest: string)
    requires d != [] && AllDigits(d) && AllDigits(f)
    requires rest == [] || (IsUnitHead(rest[0]) && !IsSpace(rest[|rest| - 1]))
    ensures TrimStart(Numeral(d, f) + rest) == Numeral(d, f) + rest
    ensures Trim(Numeral(d, f) + rest) == Numeral(d, f) + rest
  {
    NumeralEnds(d, f, rest);
    TrimNoSpace(Numeral(d, f) + rest);
  }

  /** A numeral, alone or followed by a suffix led by a lower-case letter other than
      `e`, `x`, `o` or `b`: a JavaScript number exactly when there is no suffix. */
  lemma NumeralToNumber(d: string, f: string, rest: string)
    requires d != [] && AllDigits(d) && AllDigits(f)
    requires rest == [] || (IsUnitHead(rest[0]) && !IsSpace(rest[|rest| - 1]))
    ensures ToNumber(Numeral(d, f) + rest) == (if rest == [] then Finite(DecimalValue(d, f)) else NaN)
  {
    NumeralEnds(d, f, rest);
    DigitLedToNumber(Numeral(d, f) + rest);
    UnsignedNumeral(d, f, rest);
  }

  /** `parseFloat` finds a number at the start of a numeral, whatever follows it. */
  lemma NumeralParseFloat(d: string, f: string, rest: string)
    requires d != [] && AllDigits(d) && AllDigits(f)
    requires rest == [] || (IsUnitHead(rest[0]) && !IsSpace(rest[|rest| - 1]))
    ensures ParseFloatIsNumber(Numeral(d, f) + rest)
  {
    NumeralEnds(d, f, rest);
    NumeralTrim(d, f, rest);
  }

  /** A plain numeral converts to its own value. */
  lemma NumberLiteral(d: string, f: string)
    requires d != [] && AllDigits(d) && AllDigits(f)
    ensures ConvertToUnit(Numeral(d, f)) == Some(DecimalValue(d, f))
  {
    var s := Numeral(d, f);
    assert s + "" == s;
    assert ToNumber(s) == Finite(DecimalValue(d, f)) by { NumeralToNumber(d, f, ""); }
    assert ParseFloatIsNumber(s) by { NumeralParseFloat(d, f, ""); }
  }

  /** The length pattern reads a numeral followed by a suffix as the numeral's value and
      the suffix's unit. */
  lemma NumeralLength(d: string, f: string, suffix: string)
    requires d != [] && AllDigits(d) && AllDigits(f)
    requires suffix != [] && IsUnitHead(suffix[0])
    ensures LengthMatch(Numeral(d, f) + suffix)
         == (match UnitOf(suffix) case Some(u) => Some((DecimalValue(d, f), u)) case None => None)
  {
    NumeralRuns(d, f, suffix);
  }

  /** A numeral with one of the units converts to points. */
  lemma LengthLiteral(d: string, f: string, unit: string)
    requires d != [] && AllDigits(d) && AllDigits(f)
    requires UnitOf(unit).Some?
    ensures ConvertToUnit(Numeral(d, f) + unit) == Some(InPoints(DecimalValue(d, f), UnitOf(unit).value))
  {
    var s := Numeral(d, f) + unit;
    assert !IsSpace(unit[|unit| - 1]);
    assert ToNumber(s) == NaN by { NumeralToNumber(d, f, unit); }
    assert Trim(s) == s by { NumeralTrim(d, f, unit); }
    assert LengthMatch(s) == Some((DecimalValue(d, f), UnitOf(unit).value)) by { NumeralLength(d, f, unit); }
  }

  /** A suffix with no digit in it: what follows the numeral in `12em`, `50%` or `12PX`. */
  predicate NoDigits(s: string) {
    forall i | 0 <= i < |s| :: !IsDigit(s[i])
  }

  /** Without a digit there is no exponent: `e`, `e+` or `em` is not `[eE][+-]?\d+`. */
  lemma NoExponent(r: string)
    requires r != [] && NoDigits(r)
    ensures ExponentPart(r).None?
  {
    if r[0] == 'e' || r[0] == 'E' {
      var t := r[1..];
      var d := if t != [] && (t[0] == '+' || t[0] == '-') then t[1..] else t;
      if d != [] {
        assert d[0] == r[|r| - |d|];
      }
    }
  }

  /** A numeral followed by a suffix without digits is not a JavaScript number, unless
      the suffix is a lone point after an integer (`12.`) or starts a hexadecimal
      literal after a lone `0` (`0xab`). */
  lemma NumeralSuffixNaN(d: string, f: string, suffix: string)
    requires d != [] && AllDigits(d) && AllDigits(f)
    requires suffix != [] && NoDigits(suffix) && !IsSpace(suffix[|suffix| - 1])
    requires !(f == [] && suffix == ".")
    requires !(d == "0" && f == [] && (suffix[0] == 'x' || suffix[0] == 'X'))
    ensures ToNumber(Numeral(d, f) + suffix) == NaN
  {
    var s := Numeral(d, f) + suffix;
    assert Trim(s) == s by {
      assert s[0] == d[0] && s[|s| - 1] == suffix[|suffix| - 1];
      TrimNoSpace(s);
    }
    NumeralNotRadix(d, f, suffix);
    NumeralSuffixNotDecimal(d, f, suffix);
    assert s != "Infinity" by { assert s[0] != "Infinity"[0]; }
    assert s[0] != '+' && s[0] != '-' by { assert s[0] == d[0]; }
  }

  /** Only `0x` can start a radix literal without further digits. */
  lemma NumeralNotRadix(d: string, f: string, suffix: string)
    requires d != [] && AllDigits(d) && AllDigits(f)
    requires suffix != [] && NoDigits(suffix)
    requires !(d == "0" && f == [] && (suffix[0] == 'x' || suffix[0] == 'X'))
    ensures NonDecimalInteger(Numeral(d, f) + suffix).None?
  {
    var s := Numeral(d, f) + suffix;
    if d == "0" && f == [] && |suffix| > 1 {
      assert s[1] == suffix[0] && s[2] == suffix[1];
      assert RadixDigit(s[2], 8).None? && RadixDigit(s[2], 2).None?;
    }
  }

  /** The decimal-literal reading fails on the suffix: it holds neither an exponent nor,
      after a point, a fraction. */
  lemma NumeralSuffixNotDecimal(d: string, f: string, suffix: string)
    requires d != [] && AllDigits(d) && AllDigits(f)
    requires suffix != [] && NoDigits(suffix)
    requires !(f == [] && suffix == ".")
    ensures UnsignedDecimal(Numeral(d, f) + suffix).None?
  {
    if f != [] {
      FractionThenSuffix(d, f, suffix);
    } else if suffix[0] == '.' {
      PointThenSuffix(d, suffix);
    } else {
      DigitsThenSuffix(d, suffix);
    }
  }

  lemma {:induction false} FractionThenSuffix(d: string, f: string, suffix: string)
    requires d != [] && AllDigits(d) && f != [] && AllDigits(f)
    requires suffix != [] && NoDigits(suffix)
    ensures UnsignedDecimal(Numeral(d, f) + suffix).None?
  {
    NumeralRuns(d, f, suffix);
    NoExponent(suffix);
    DecimalAfterPoint(Numeral(d, f) + suffix, |d|, |f|);
  }

  lemma {:induction false} PointThenSuffix(d: string, suffix: string)
    requires d != [] && AllDigits(d)
    requires |suffix| > 1 && suffix[0] == '.' && NoDigits(suffix)
    ensures UnsignedDecimal(d + suffix).None?
  {
    var s := d + suffix;
    NumeralRuns(d, [], suffix);
    var after := suffix[1..];
    assert s[|d| + 1..] == after && after != [] && NoDigits(after);
    assert DigitRun(after) == 0;
    NoExponent(after);
    DecimalAfterPoint(s, |d|, 0);
  }

  lemma {:induction false} DigitsThenSuffix(d: string, suffix: string)
    requires d != [] && AllDigits(d)
    requires suffix != [] && suffix[0] != '.' && NoDigits(suffix)
    ensures UnsignedDecimal(d + suffix).None?
  {
    NumeralRuns(d, [], suffix);
    NoExponent(suffix);
    DecimalWithoutPoint(d + suffix, |d|);
  }

  /** A decimal literal without a point is read up to its digits, then the exponent. */
  lemma {:induction false} DecimalWithoutPoint(u: string, i: nat)
    requires 0 < i <= |u| && DigitRun(u) == i && (i == |u| || u[i] != '.')
    requires ExponentPart(u[i..]).None?
    ensures UnsignedDecimal(u).None?
  {
  }

  /** A decimal literal with a point is read up to its fraction digits, then the exponent. */
  lemma {:induction false} DecimalAfterPoint(u: string, i: nat, j: nat)
    requires i < |u| && DigitRun(u) == i && u[i] == '.' && DigitRun(u[i + 1..]) == j && (i > 0 || j > 0)
    requires ExponentPart(u[i + 1 + j..]).None?
    ensures UnsignedDecimal(u).None?
  {
    var hasDot := i < |u| && u[i] == '.';
    assert hasDot;
    var rest := u[i + 1 + j..];
    assert ExponentPart(rest).None?;
  }

  /** The length pattern refuses a numeral followed by a suffix without digits that is not
      one of the four units. */
  lemma NumeralSuffixNoLength(d: string, f: string, suffix: string)
    requires d != [] && AllDigits(d) && AllDigits(f)
    requires suffix != [] && NoDigits(suffix) && UnitOf(suffix).None?
    ensures LengthMatch(Numeral(d, f) + suffix).None?
  {
    var s := Numeral(d, f) + suffix;
    NumeralRuns(d, f, suffix);
    if f == [] && suffix[0] == '.' {
      assert s[|d| + 1..] == suffix[1..];
      assert suffix[1..] == [] || !IsDigit(suffix[1..][0]);
    }
  }

  /** A numeral with any other suffix without digits is refused: `12em`, `12ex`, `50%`,
      `12PX`, `1.5e` all give `false`. The two exceptions are numbers, not lengths. */
  lemma OtherSuffix(d: string, f: string, suffix: string)
    requires d != [] && AllDigits(d) && AllDigits(f)
    requires suffix != [] && NoDigits(suffix) && !IsSpace(suffix[|suffix| - 1]) && UnitOf(suffix).None?
    requires !(f == [] && suffix == ".")
    requires !(d == "0" && f == [] && (suffix[0] == 'x' || suffix[0] == 'X'))
    ensures ConvertToUnit(Numeral(d, f) + suffix).None?
  {
    var s := Numeral(d, f) + suffix;
    NumeralSuffixNaN(d, f, suffix);
    assert Trim(s) == s by {
      assert s[0] == d[0] && s[|s| - 1] == suffix[|suffix| - 1];
      TrimNoSpace(s);
    }
    NumeralSuffixNoLength(d, f, suffix);
  }

  // ---------------------------------------------------------------- toCamelCase

  /** Replaces every `sep` followed by an ASCII lower-case letter by that letter in
      upper case, left to right (the global replace of `/-([a-z])/g` for `sep = '-'`). */
  function CapitalizeAfter(s: string, sep: char): (r: string)
    ensures |r| <= |s|
    decreases |s|
  {
    if s == [] then []
    else if |s| >= 2 && s[0] == sep && IsAsciiLower(s[1]) then [UpperChar(s[1])] + CapitalizeAfter(s[2..], sep)
    else [s[0]] + CapitalizeAfter(s[1..], sep)
  }

  function ToCamelCase(s: string): string {
    CapitalizeAfter(s, '-')
  }

  /** No separator in `s` is followed by an ASCII lower-case letter. */
  predicate NoSepLower(s: string, sep: char) {
    forall i | 0 <= i < |s| - 1 :: !(s[i] == sep && IsAsciiLower(s[i + 1]))
  }

  /** The first character of the result is the input's first one, unless that was
      a separator followed by a letter, which comes out in upper case. */
  lemma CapitalizeFirst(s: string, sep: char)
    requires s != []
    ensures var r := CapitalizeAfter(s, sep);
      r != [] && (r[0] == s[0] || (s[0] == sep && |s| >= 2 && IsAsciiLower(s[1]) && r[0] == UpperChar(s[1])))
  {
  }

  /** No separator followed by a lower-case letter survives. */
  lemma {:induction false} CapitalizeAfterComplete(s: string, sep: char)
    requires !IsAsciiLower(sep) && !IsAsciiUpper(sep)
    ensures NoSepLower(CapitalizeAfter(s, sep), sep)
    decreases |s|
  {
    var r := CapitalizeAfter(s, sep);
    if s == [] {
    } else if |s| >= 2 && s[0] == sep && IsAsciiLower(s[1]) {
      CapitalizeAfterComplete(s[2..], sep);
      var t := CapitalizeAfter(s[2..], sep);
      assert r == [UpperChar(s[1])] + t;
      assert IsAsciiUpper(r[0]);
      forall i | 0 <= i < |r| - 1 ensures !(r[i] == sep && IsAsciiLower(r[i + 1])) {
        if i > 0 { assert r[i] == t[i - 1] && r[i + 1] == t[i]; }
      }
    } else {
      CapitalizeAfterComplete(s[1..], sep);
      var t := CapitalizeAfter(s[1..], sep);
      assert r == [s[0]] + t;
      forall i | 0 <= i < |r| - 1 ensures !(r[i] == sep && IsAsciiLower(r[i + 1])) {
        if i > 0 {
          assert r[i] == t[i - 1] && r[i + 1] == t[i];
        } else if s[0] == sep {
          CapitalizeFirst(s[1..], sep);
          assert r[1] == t[0];
        }
      }
    }
  }

  /** Without a separator-letter pair the string is returned unchanged. */
  lemma {:induction false} CapitalizeAfterIdentity(s: string, sep: char)
    requires NoSepLower(s, sep)
    ensures CapitalizeAfter(s, sep) == s
    decreases |s|
  {
    if s != [] {
      if |s| >= 2 {
        assert !(s[0] == sep && IsAsciiLower(s[1]));
      }
      assert NoSepLower(s[1..], sep) by {
        forall i | 0 <= i < |s[1..]| - 1 ensures !(s[1..][i] == sep && IsAsciiLower(s[1..][i + 1])) {
          assert s[1..][i] == s[i + 1] && s[1..][i + 1] == s[i + 2];
        }
      }
      CapitalizeAfterIdentity(s[1..], sep);
    }
  }

  /** `toCamelCase` is idempotent. */
  lemma ToCamelCaseIdempotent(s: string)
    ensures ToCamelCase(ToCamelCase(s)) == ToCamelCase(s)
  {
    CapitalizeAfterComplete(s, '-');
    CapitalizeAfterIdentity(ToCamelCase(s), '-');
  }

  // ---------------------------------------------------------------- parseColor

  predicate IsHexDigitLower(c: char) {
    IsDigit(c) || ('a' <= c <= 'f')
  }

  /** `^#([0-9a-f]{3}|[0-9a-f]{6})$` */
  predicate IsHexColor(c: string) {
    (|c| == 4 || |c| == 7) && c[0] == '#' && forall i | 1 <= i < |c| :: IsHexDigitLower(c[i])
  }

  /** `^[a-z]+$` */
  predicate IsColorName(c: string) {
    c != [] && forall i | 0 <= i < |c| :: IsAsciiLower(c[i])
  }

  /** `^rgb\((\d+),\s*(\d+),\s*(\d+)\)$`, giving the three decimal channels. */
  function RgbMatch(c: string): Option<(nat, nat, nat)> {
    if !StartsWith(c, "rgb(") then None
    else
      var t := c[4..];
      var n := DigitRun(t);
      if n == 0 || n == |t| || t[n] != ',' then None
      else
        match RgbTail(TrimStart(t[n + 1..]))
        case None => None
        case Some((g, b)) => Some((DigitsValue(t[..n]), g, b))
  }

  /** The `(\d+),\s*(\d+)\)$` after the first channel's comma and spaces. */
  function RgbTail(t: string): Option<(nat, nat)> {
    var n := DigitRun(t);
    if n == 0 || n == |t| || t[n] != ',' then None
    else
      match RgbLast(TrimStart(t[n + 1..]))
      case None => None
      case Some(b) => Some((DigitsValue(t[..n]), b))
  }

  /** The `(\d+)\)$` of the last channel. */
  function RgbLast(t: string): Option<nat> {
    var n := DigitRun(t);
    if n == 0 || t[n..] != ")" then None else Some(DigitsValue(t[..n]))
  }

  function HexDigit(n: nat): char
    requires n < 16
  {
    if n < 10 then ('0' as int + n) as char else ('a' as int + n - 10) as char
  }

  function HexDigitValue(c: char): nat
    requires IsHexDigitLower(c)
  {
    if IsDigit(c) then c as int - '0' as int else c as int - 'a' as int + 10
  }

  function Clamp255(v: nat): nat {
    if v > 255 then 255 else v
  }

  /** `('0' + min(v, 255).toString(16)).slice(-2)` */
  function Channel(v: nat): (h: string)
    ensures |h| == 2 && IsHexDigitLower(h[0]) && IsHexDigitLower(h[1])
  {
    var c := Clamp255(v);
    if c < 16 then ['0', HexDigit(c)] else [HexDigit(c / 16), HexDigit(c % 16)]
  }

  /** `#` and the three channels. */
  function RgbHex(r: nat, g: nat, b: nat): string {
    "#" + Channel(r) + Channel(g) + Channel(b)
  }

  /** `parseColor(color)` */
  function ParseColor(color: string): string {
    if IsHexColor(color) then color
    else
      match RgbMatch(color)
      case Some((r, g, b)) => RgbHex(r, g, b)
      case None =>
        if IsColorName(color) && color == "transparent" then "white" else color
  }

  // --- lemmas about parseColor

  /** Each two-digit channel reads back as the clamped decimal value. */
  lemma ChannelRoundTrip(v: nat)
    ensures var h := Channel(v); HexDigitValue(h[0]) * 16 + HexDigitValue(h[1]) == Clamp255(v)
  {
  }

  lemma RgbIsNotHex(color: string)
    requires RgbMatch(color).Some?
    ensures !IsHexColor(color)
  {
    RgbStartsWith(color);
    assert color[0] == "rgb("[0];
  }

  lemma RgbStartsWith(color: string)
    requires RgbMatch(color).Some?
    ensures StartsWith(color, "rgb(")
  {
  }

  /** The hex form of three channels: seven characters, each pair the clamped channel. */
  lemma RgbHexDigits(r: nat, g: nat, b: nat)
    ensures var h := RgbHex(r, g, b);
      |h| == 7 && h[0] == '#' && (forall i | 1 <= i < 7 :: IsHexDigitLower(h[i]))
      && HexDigitValue(h[1]) * 16 + HexDigitValue(h[2]) == Clamp255(r)
      && HexDigitValue(h[3]) * 16 + HexDigitValue(h[4]) == Clamp255(g)
      && HexDigitValue(h[5]) * 16 + HexDigitValue(h[6]) == Clamp255(b)
  {
    var h := RgbHex(r, g, b);
    ChannelRoundTrip(r);
    ChannelRoundTrip(g);
    ChannelRoundTrip(b);
    assert h[1..3] == Channel(r) && h[3..5] == Channel(g) && h[5..7] == Channel(b);
  }

  /** An `rgb(...)` colour becomes `#` and three lower-case two-digit hex channels, each
      the decimal channel clamped to 255. */
  lemma RgbColor(color: string)
    requires RgbMatch(color).Some?
    ensures var (r, g, b) := RgbMatch(color).value;
      var h := ParseColor(color);
      |h| == 7 && h[0] == '#' && (forall i | 1 <= i < 7 :: IsHexDigitLower(h[i]))
      && HexDigitValue(h[1]) * 16 + HexDigitValue(h[2]) == Clamp255(r)
      && HexDigitValue(h[3]) * 16 + HexDigitValue(h[4]) == Clamp255(g)
      && HexDigitValue(h[5]) * 16 + HexDigitValue(h[6]) == Clamp255(b)
  {
    var (r, g, b) := RgbMatch(color).value;
    assert ParseColor(color) == RgbHex(r, g, b) by { RgbIsNotHex(color); }
    RgbHexDigits(r, g, b);
  }

  lemma {:induction false} TrimStartOfSpaces(sp: string, rest: string)
    requires forall i | 0 <= i < |sp| :: IsSpace(sp[i])
    requires rest == [] || !IsSpace(rest[0])
    ensures TrimStart(sp + rest) == rest
    decreases |sp|
  {
    if sp != [] {
      assert (sp + rest)[1..] == sp[1..] + rest;
      TrimStartOfSpaces(sp[1..], rest);
    }
  }

  /** A digit string followed by a non-digit: the digit run ends at the non-digit. */
  lemma DigitsThen(d: string, c: char, rest: string)
    requires AllDigits(d) && !IsDigit(c)
    ensures var t := d + [c] + rest;
      DigitRun(t) == |d| && t[..|d|] == d && t[|d|] == c && t[|d| + 1..] == rest
  {
    var t := d + [c] + rest;
    assert t == d + ([c] + rest);
    DigitRunOfDigits(d, [c] + rest);
    assert t[..|d|] == d && t[|d| + 1..] == rest;
  }

  lemma LastAccepts(d: string)
    requires d != [] && AllDigits(d)
    ensures RgbLast(d + ")") == Some(DigitsValue(d))
  {
    DigitsThen(d, ')', "");
    assert d + ")" == d + [')'] + "";
  }

  lemma TailAccepts(d2: string, s2: string, d3: string)
    requires d2 != [] && d3 != [] && AllDigits(d2) && AllDigits(d3)
    requires forall i | 0 <= i < |s2| :: IsSpace(s2[i])
    ensures RgbTail(d2 + "," + s2 + d3 + ")") == Some((DigitsValue(d2), DigitsValue(d3)))
  {
    var rest := s2 + d3 + ")";
    assert d2 + "," + s2 + d3 + ")" == d2 + [','] + rest;
    DigitsThen(d2, ',', rest);
    assert TrimStart(rest) == d3 + ")" by {
      assert rest == s2 + (d3 + ")");
      TrimStartOfSpaces(s2, d3 + ")");
    }
    LastAccepts(d3);
  }

  lemma RgbPrefix(args: string)
    ensures StartsWith("rgb(" + args, "rgb(") && ("rgb(" + args)[4..] == args
  {
  }

  /** Reading the first channel and its comma. */
  lemma RgbFirstChannel(d: string, rest: string)
    requires d != [] && AllDigits(d)
    ensures RgbMatch("rgb(" + (d + ([','] + rest)))
         == (match RgbTail(TrimStart(rest)) case None => None case Some((g, b)) => Some((DigitsValue(d), g, b)))
  {
    var args := d + ([','] + rest);
    RgbPrefix(args);
    assert args == d + [','] + rest;
    DigitsThen(d, ',', rest);
  }

  /** The text `rgb(d1,s1d2,s2d3)`. */
  function RgbNotation(d1: string, s1: string, d2: string, s2: string, d3: string): string {
    "rgb(" + (d1 + ([','] + (s1 + (d2 + ([','] + (s2 + (d3 + ")")))))))
  }

  /** Reading one middle channel and its comma. */
  lemma RgbTailChannel(d: string, rest: string)
    requires d != [] && AllDigits(d)
    ensures RgbTail(d + ([','] + rest))
         == (match RgbLast(TrimStart(rest)) case None => None case Some(b) => Some((DigitsValue(d), b)))
  {
    assert d + ([','] + rest) == d + [','] + rest;
    DigitsThen(d, ',', rest);
  }

  /** The last two channels, `d2,s2d3)`. */
  lemma RgbTwoChannels(d2: string, s2: string, d3: string)
    requires d2 != [] && d3 != [] && AllDigits(d2) && AllDigits(d3)
    requires forall i | 0 <= i < |s2| :: IsSpace(s2[i])
    ensures RgbTail(d2 + ([','] + (s2 + (d3 + ")")))) == Some((DigitsValue(d2), DigitsValue(d3)))
  {
    var last := d3 + ")";
    LastAccepts(d3);
    assert TrimStart(s2 + last) == last by {
      assert last[0] == d3[0];
      TrimStartOfSpaces(s2, last);
    }
    RgbTailChannel(d2, s2 + last);
  }

  /** The matcher accepts `rgb(d1,s1d2,s2d3)` for digit strings and runs of white space. */
  lemma RgbMatchAccepts(d1: string, s1: string, d2: string, s2: string, d3: string)
    requires d1 != [] && d2 != [] && d3 != [] && AllDigits(d1) && AllDigits(d2) && AllDigits(d3)
    requires forall i | 0 <= i < |s1| :: IsSpace(s1[i])
    requires forall i | 0 <= i < |s2| :: IsSpace(s2[i])
    ensures RgbMatch(RgbNotation(d1, s1, d2, s2, d3))
         == Some((DigitsValue(d1), DigitsValue(d2), DigitsValue(d3)))
  {
    var tail := d2 + ([','] + (s2 + (d3 + ")")));
    RgbTwoChannels(d2, s2, d3);
    assert TrimStart(s1 + tail) == tail by {
      assert tail[0] == d2[0];
      TrimStartOfSpaces(s1, tail);
    }
    RgbFirstChannel(d1, s1 + tail);
    assert RgbNotation(d1, s1, d2, s2, d3) == "rgb(" + (d1 + ([','] + (s1 + tail)));
  }

  lemma Transparent()
    ensures ParseColor("transparent") == "white"
  {
    assert !StartsWith("transparent", "rgb(") by { assert "transparent"[0] != "rgb("[0]; }
    assert IsColorName("transparent");
  }

  /** Everything that is not an `rgb(...)` colour and not `transparent` comes back unchanged. */
  lemma ColorUnchanged(color: string)
    requires RgbMatch(color).None? && color != "transparent"
    ensures ParseColor(color) == color
  {
  }
}
