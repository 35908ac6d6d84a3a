/**
  JavaScript numbers and the conversions from strings that the converter relies on:
  `Number(string)` (also reached through `isFinite`, `isNaN`, `*1` and comparisons),
  the NaN test on `parseFloat`, `parseInt`, `Math.round` and `Number.prototype.toString`.
  A finite double is modelled by the exact real it stands for.
 */
module Numbers {
  import opened Optional
  import opened Strings

  datatype JsNum = Finite(r: real) | Infinite(negative: bool) | NaN

  function DigitValue(c: char): nat
    requires IsDigit(c)
  {
    c as int - '0' as int
  }

  predicate AllDigits(s: string) {
    forall i | 0 <= i < |s| :: IsDigit(s[i])
  }

  /** The value of a decimal digit string; the empty string is 0. */
  function DigitsValue(s: string): nat
    requires AllDigits(s)
    decreases |s|
  {
    if s == [] then 0 else DigitsValue(s[..|s| - 1]) * 10 + DigitValue(s[|s| - 1])
  }

  /** Length of the run of ASCII digits `s` starts with (what a greedy `\d+` or `\d*` takes). */
  function DigitRun(s: string): (n: nat)
    ensures n <= |s| && AllDigits(s[..n]) && (n < |s| ==> !IsDigit(s[n]))
  {
    if s != [] && IsDigit(s[0]) then
      var n := 1 + DigitRun(s[1..]);
      assert s[..n] == [s[0]] + s[1..][..n - 1];
      n
    else 0
  }

  /** Length of the run of non-digits `s` starts with (what a greedy `[^\d]+` takes). */
  function NonDigitRun(s: string): (n: nat)
    ensures n <= |s| && (n < |s| ==> IsDigit(s[n]))
    ensures forall i | 0 <= i < n :: !IsDigit(s[i])
  {
    if s != [] && !IsDigit(s[0]) then 1 + NonDigitRun(s[1..]) else 0
  }

  lemma {:induction false} NatStringValue(n: nat)
    ensures AllDigits(NatString(n)) && DigitsValue(NatString(n)) == n
  {
    if n >= 10 {
      NatStringValue(n / 10);
      var s := NatString(n);
      assert s[..|s| - 1] == NatString(n / 10);
    }
  }

  function Pow10(n: nat): (p: nat)
    ensures p >= 1
  {
    if n == 0 then 1 else 10 * Pow10(n - 1)
  }

  /** Value of a digit `c` in radix 2, 8, 10 or 16 (either letter case), if it is one. */
  function RadixDigit(c: char, radix: nat): Option<nat> {
    var v: int :=
      if IsDigit(c) then DigitValue(c)
      else if 'a' <= c <= 'f' then c as int - 'a' as int + 10
      else if 'A' <= c <= 'F' then c as int - 'A' as int + 10
      else radix;
    if 0 <= v < radix then Some(v) else None
  }

  predicate AllRadixDigits(s: string, radix: nat) {
    forall i | 0 <= i < |s| :: RadixDigit(s[i], radix).Some?
  }

  function RadixValue(s: string, radix: nat): nat
    requires AllRadixDigits(s, radix)
    decreases |s|
  {
    if s == [] then 0
    else RadixValue(s[..|s| - 1], radix) * radix + RadixDigit(s[|s| - 1], radix).value
  }

  /** Length of the run of radix digits `s` starts with. */
  function RadixRun(s: string, radix: nat): (n: nat)
    ensures n <= |s| && AllRadixDigits(s[..n], radix)
  {
    if s != [] && RadixDigit(s[0], radix).Some? then
      var n := 1 + RadixRun(s[1..], radix);
      assert s[..n] == [s[0]] + s[1..][..n - 1];
      n
    else 0
  }

  /** The exponent part `[eE][+-]?\d+` of a decimal literal, or 0 when it is empty. */
  function ExponentPart(s: string): Option<int> {
    if s == [] then Some(0)
    else if s[0] != 'e' && s[0] != 'E' then None
    else
      var t := s[1..];
      var neg := t != [] && t[0] == '-';
      var d := if t != [] && (t[0] == '+' || t[0] == '-') then t[1..] else t;
      if d != [] && AllDigits(d) then Some(if neg then 0 - DigitsValue(d) as int else DigitsValue(d) as int)
      else None
  }

  function Scale(x: real, e: int): real
    decreases if e < 0 then -e else e
  {
    if e == 0 then x
    else if e > 0 then Scale(x * 10.0, e - 1)
    else Scale(x / 10.0, e + 1)
  }

  /** StrUnsignedDecimalLiteral without `Infinity`: digits, an optional fraction and an
      optional exponent, with at least one digit before the exponent. */
  function UnsignedDecimal(u: string): Option<real> {
    var i := DigitRun(u);
    var intPart := u[..i];
    var hasDot := i < |u| && u[i] == '.';
    var j := if hasDot then DigitRun(u[i + 1..]) else 0;
    var frac := if hasDot then u[i + 1..][..j] else "";
    var rest := if hasDot then u[i + 1 + j..] else u[i..];
    if i == 0 && j == 0 then None
    else
      match ExponentPart(rest)
      case None => None
      case Some(e) =>
        Some(Scale(DigitsValue(intPart) as real
                   + DigitsValue(frac) as real / Pow10(|frac|) as real, e))
  }

  /** `0x`, `0o` or `0b` followed by at least one digit of that radix. */
  function NonDecimalInteger(t: string): Option<nat> {
    if |t| > 2 && t[0] == '0' then
      var radix: nat :=
        if t[1] == 'x' || t[1] == 'X' then 16
        else if t[1] == 'o' || t[1] == 'O' then 8
        else if t[1] == 'b' || t[1] == 'B' then 2
        else 0;
      if radix != 0 && AllRadixDigits(t[2..], radix) then Some(RadixValue(t[2..], radix))
      else None
    else None
  }

  /** `Number(s)` for a string `s` (ECMA-262 StringToNumber). */
  function ToNumber(s: string): JsNum {
    TrimmedToNumber(Trim(s))
  }

  function TrimmedToNumber(t: string): JsNum {
    if t == "" then Finite(0.0)
    else
      match NonDecimalInteger(t)
      case Some(n) => Finite(n as real)
      case None => SignedDecimal(t)
  }

  /** An optional sign, then `Infinity` or a decimal literal. */
  function SignedDecimal(t: string): JsNum
    requires t != ""
  {
    var neg := t[0] == '-';
    var u := if t[0] == '+' || t[0] == '-' then t[1..] else t;
    if u == "Infinity" then Infinite(neg)
    else
      match UnsignedDecimal(u)
      case Some(v) => Finite(if neg then -v else v)
      case None => NaN
  }

  /** `!isNaN(parseFloat(s))`: after leading white space and an optional sign, `s` starts
      with `Infinity`, with a digit, or with a point followed by a digit. */
  predicate ParseFloatIsNumber(s: string) {
    var t := TrimStart(s);
    var u := if t != [] && (t[0] == '+' || t[0] == '-') then t[1..] else t;
    StartsWith(u, "Infinity")
    || (u != [] && IsDigit(u[0]))
    || (|u| >= 2 && u[0] == '.' && IsDigit(u[1]))
  }

  /** `parseInt(s)` with no radix: leading white space, an optional sign, an optional
      `0x`/`0X` prefix selecting radix 16, then the longest run of digits. */
  function ParseInt(s: string): JsNum {
    var t := TrimStart(s);
    var neg := t != [] && t[0] == '-';
    var u := if t != [] && (t[0] == '+' || t[0] == '-') then t[1..] else t;
    var hex := |u| >= 2 && u[0] == '0' && (u[1] == 'x' || u[1] == 'X');
    var radix: nat := if hex then 16 else 10;
    var d := if hex then u[2..] else u;
    var n := RadixRun(d, radix);
    if n == 0 then NaN
    else
      var v := RadixValue(d[..n], radix) as real;
      Finite(if neg then -v else v)
  }

  /** `Math.round`: the nearest integer, halves rounded up. */
  function Round(x: real): int {
    (x + 0.5).Floor
  }

  function Max(a: JsNum, b: JsNum): JsNum {
    if a.NaN? || b.NaN? then NaN
    else if a.Infinite? then (if a.negative then b else a)
    else if b.Infinite? then (if b.negative then a else b)
    else if a.r >= b.r then a else b
  }

  function Min(a: JsNum, b: JsNum): JsNum {
    if a.NaN? || b.NaN? then NaN
    else if a.Infinite? then (if a.negative then a else b)
    else if b.Infinite? then (if b.negative then b else a)
    else if a.r <= b.r then a else b
  }

  /** `a > b` on numbers; false whenever either side is NaN. */
  predicate Greater(a: JsNum, b: JsNum) {
    match (a, b)
    case (Finite(x), Finite(y)) => x > y
    case (Infinite(na), Finite(_)) => !na
    case (Finite(_), Infinite(nb)) => nb
    case (Infinite(na), Infinite(nb)) => !na && nb
    case _ => false
  }

  function Negate(a: JsNum): JsNum {
    match a
    case Finite(x) => Finite(-x)
    case Infinite(n) => Infinite(!n)
    case NaN => NaN
  }

  predicate IsNegative(a: JsNum) {
    (a.Finite? && a.r < 0.0) || (a.Infinite? && a.negative)
  }

  /** `a / b` on numbers, with the IEEE infinities and NaN (a zero divisor is taken as +0). */
  function Divide(a: JsNum, b: JsNum): JsNum {
    match (a, b)
    case (Finite(x), Finite(y)) =>
      if y != 0.0 then Finite(x / y)
      else if x == 0.0 then NaN
      else Infinite(x < 0.0)
    case (Finite(_), Infinite(_)) => Finite(0.0)
    case (Infinite(na), Finite(y)) => Infinite(if y < 0.0 then !na else na)
    case _ => NaN
  }

  /** Decimal digits of the fraction `f` (0 <= f < 1), at most `k` of them. */
  function FractionDigits(f: real, k: nat): string
    requires 0.0 <= f < 1.0
    decreases k
  {
    if k == 0 || f == 0.0 then ""
    else
      var d := (f * 10.0).Floor;
      assert 0 <= d < 10;
      [DigitChar(d)] + FractionDigits(f * 10.0 - d as real, k - 1)
  }

  /** `String(n)` for a number, written in plain decimal notation. */
  function NumberString(n: JsNum): string {
    match n
    case NaN => "NaN"
    case Infinite(neg) => if neg then "-Infinity" else "Infinity"
    case Finite(x) =>
      var m := if x < 0.0 then -x else x;
      var whole := m.Floor;
      var sign := if x < 0.0 then "-" else "";
      if whole as real == m then sign + NatString(whole)
      else sign + NatString(whole) + "." + FractionDigits(m - whole as real, 20)
  }
}
