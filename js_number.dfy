/** JavaScript numbers as the application meets them: `parseFloat` on answers
    and on the threshold input, `parseInt` on page and sheet fields, and the
    `${n}` rendering of a threshold inside a prompt. Finite values are exact
    decimals; binary floating-point rounding is not modelled. */
module JsNumber {
  import opened Wrappers
  import opened Text

  function Pow10(n: nat): (r: nat)
    ensures r >= 1
  {
    if n == 0 then 1 else 10 * Pow10(n - 1)
  }

  /** The finite number `units / 10^scale`. */
  datatype Decimal = Decimal(units: int, scale: nat) {
    function Value(): real {
      units as real / Pow10(scale) as real
    }
  }

  /** A JavaScript number other than NaN (NaN is `None` wherever it can arise). */
  datatype Num = Finite(d: Decimal) | PosInfinity | NegInfinity

  /** `a <= b` on numbers that are not NaN. */
  predicate NumLe(a: Num, b: Num) {
    match (a, b)
    case (NegInfinity, _) => true
    case (_, PosInfinity) => true
    case (Finite(x), Finite(y)) => x.Value() <= y.Value()
    case _ => false
  }

  /** `NumLe` is a total order on values, as `<=` is on non-NaN numbers. */
  lemma NumLeTotal(a: Num, b: Num)
    ensures NumLe(a, b) || NumLe(b, a)
  {
  }

  /** `0` is falsy, so `parseFloat(v) || undefined` drops it. */
  predicate IsZero(n: Num) {
    n.Finite? && n.d.units == 0
  }

  // ---------------------------------------------------------------------------
  // parseFloat

  /** Length of the run of decimal digits at the start of `s`. */
  function DigitPrefix(s: string): (n: nat)
    ensures n <= |s|
    ensures AllDigits(s[..n])
    ensures n < |s| ==> !IsDigit(s[n])
  {
    if s == [] || !IsDigit(s[0]) then 0
    else
      var n := 1 + DigitPrefix(s[1..]);
      assert forall i :: 1 <= i < n ==> s[..n][i] == s[1..][..n - 1][i - 1];
      n
  }

  /** The exponent of an `ExponentPart` (`e`, optional sign, digits) at the
      start of `s`, or 0 when there is none: then the `e` is not consumed. */
  function ExponentOf(s: string): int {
    if |s| == 0 || (s[0] != 'e' && s[0] != 'E') then 0
    else
      var t := s[1..];
      var k := if |t| > 0 && (t[0] == '+' || t[0] == '-') then 1 else 0;
      var n := DigitPrefix(t[k..]);
      if n == 0 then 0
      else if k == 1 && t[0] == '-' then -(DigitsValue(t[k..][..n]) as int)
      else DigitsValue(t[k..][..n])
  }

  /** `units / 10^scale * 10^e` as a decimal. */
  function Scaled(units: int, scale: nat, e: int): Decimal {
    if e >= scale then Decimal(units * Pow10(e - scale), 0) else Decimal(units, scale - e)
  }

  /** An unsigned decimal literal (digits, optional `.` and fraction digits,
      at least one digit in all, optional exponent) at the start of `u`. */
  function UnsignedDecimal(u: string): Option<Decimal> {
    var n1 := DigitPrefix(u);
    var rest := u[n1..];
    if |rest| > 0 && rest[0] == '.' then
      var n2 := DigitPrefix(rest[1..]);
      if n1 + n2 == 0 then None
      else Some(Scaled(DigitsValue(u[..n1] + rest[1..][..n2]), n2, ExponentOf(rest[1..][n2..])))
    else if n1 == 0 then None
    else Some(Scaled(DigitsValue(u[..n1]), 0, ExponentOf(rest)))
  }

  /** Where a sign was read, the unsigned part that follows it. */
  function Unsigned(t: string): string {
    if |t| > 0 && (t[0] == '-' || t[0] == '+') then t[1..] else t
  }

  /** `parseFloat(s)`: skip leading whitespace, then read the longest prefix
      that is a signed `Infinity` or a decimal literal; `None` (NaN) when there
      is no such prefix. */
  function ParseFloat(s: string): (r: Option<Num>) {
    var t := s[LeadingWs(s)..];
    var neg := |t| > 0 && t[0] == '-';
    var u := Unsigned(t);
    if StartsWith(u, "Infinity") then Some(if neg then NegInfinity else PosInfinity)
    else
      match UnsignedDecimal(u)
      case None => None
      case Some(d) => Some(Finite(if neg then Decimal(-d.units, d.scale) else d))
  }

  /** Every character of a digit string belongs to the leading digit run. */
  lemma {:induction false} DigitPrefixAll(s: string)
    requires AllDigits(s)
    ensures DigitPrefix(s) == |s|
  {
    if s != [] {
      DigitPrefixAll(s[1..]);
    }
  }

  /** A string starting with a digit is not a signed or spelled-out infinity. */
  lemma DigitsNotInfinity(u: string)
    requires |u| > 0 && IsDigit(u[0])
    ensures !StartsWith(u, "Infinity")
    ensures Unsigned(u) == u
    ensures LeadingWs(u) == 0
  {
    assert |u| < 8 || u[..8][0] != 'I';
  }

  /** A non-empty digit string parses to the integer it spells. */
  lemma UnsignedDecimalDigits(ds: string)
    requires |ds| > 0 && AllDigits(ds)
    ensures UnsignedDecimal(ds) == Some(Decimal(DigitsValue(ds), 0))
  {
    DigitPrefixAll(ds);
    assert ds[|ds|..] == "";
    assert ds[..|ds|] == ds;
  }

  /** A non-empty digit string, as the number extraction produces, parses to
      the integer it spells. */
  lemma ParseFloatDigits(ds: string)
    requires |ds| > 0 && AllDigits(ds)
    ensures ParseFloat(ds) == Some(Finite(Decimal(DigitsValue(ds), 0)))
  {
    DigitsNotInfinity(ds);
    assert ds[0..] == ds;
    UnsignedDecimalDigits(ds);
  }

  // ---------------------------------------------------------------------------
  // parseInt

  predicate IsHexDigit(c: char) {
    IsDigit(c) || 'a' <= c <= 'f' || 'A' <= c <= 'F'
  }

  function HexDigitValue(c: char): (d: nat)
    requires IsHexDigit(c)
    ensures d < 16
  {
    if IsDigit(c) then DigitValue(c)
    else if 'a' <= c <= 'f' then c as int - 'a' as int + 10
    else c as int - 'A' as int + 10
  }

  function HexPrefix(s: string): (n: nat)
    ensures n <= |s|
    ensures forall i :: 0 <= i < n ==> IsHexDigit(s[i])
  {
    if s == [] || !IsHexDigit(s[0]) then 0 else 1 + HexPrefix(s[1..])
  }

  function HexValue(s: string): nat
    requires forall i :: 0 <= i < |s| ==> IsHexDigit(s[i])
  {
    if s == [] then 0 else 16 * HexValue(s[..|s| - 1]) + HexDigitValue(s[|s| - 1])
  }

  /** `parseInt(s)` with no radix: skip leading whitespace, read a sign, then
      hexadecimal digits after a `0x`/`0X` prefix or else decimal digits;
      `None` (NaN) when no digit follows. */
  function ParseInt(s: string): (r: Option<int>) {
    var t := s[LeadingWs(s)..];
    var neg := |t| > 0 && t[0] == '-';
    var u := Unsigned(t);
    if StartsWith(u, "0x") || StartsWith(u, "0X") then
      var h := u[2..];
      var n := HexPrefix(h);
      if n == 0 then None
      else
        var mag: int := HexValue(h[..n]);
        Some(if neg then -mag else mag)
    else
      var n := DigitPrefix(u);
      if n == 0 then None
      else
        var mag: int := DigitsValue(u[..n]);
        Some(if neg then -mag else mag)
  }

  /** The decimal text of an integer: its sign and its digits. */
  lemma IntToStringShape(i: int)
    ensures var s := IntToString(i);
      && LeadingWs(s) == 0
      && (|s| > 0 && s[0] == '-' <==> i < 0)
      && Unsigned(s) == NatToString(if i < 0 then -i else i)
  {
    var s := IntToString(i);
    assert !IsWhitespace(s[0]);
  }

  /** `parseInt` reads back what `toString` writes for any integer. */
  lemma ParseIntIntToString(i: int)
    ensures ParseInt(IntToString(i)) == Some(i)
  {
    var s := IntToString(i);
    IntToStringShape(i);
    assert s[0..] == s;
    var ds := Unsigned(s);
    assert |ds| < 2 || ds[..2][1] != 'x';
    assert |ds| < 2 || ds[..2][1] != 'X';
    DigitPrefixAll(ds);
    assert ds[..|ds|] == ds;
  }

  // ---------------------------------------------------------------------------
  // Number to string

  /** The same value with trailing fractional zeros removed. */
  function Normalize(d: Decimal): (r: Decimal)
    ensures r.scale == 0 || r.units % 10 != 0
    decreases d.scale
  {
    if d.scale > 0 && d.units % 10 == 0 then Normalize(Decimal(d.units / 10, d.scale - 1)) else d
  }

  /** `'0'` characters in front of `s` up to length `width`. */
  function PadLeft(s: string, width: nat): (r: string)
    ensures |r| == if |s| < width then width else |s|
    ensures AllDigits(s) ==> AllDigits(r)
    decreases width - |s|
  {
    if |s| >= width then s else PadLeft(['0'] + s, width)
  }

  /** `mag / 10^scale` written with exactly `scale` fraction digits. */
  function PointText(mag: nat, scale: nat): (r: string)
    ensures |r| > scale
  {
    var t := PadLeft(NatToString(mag), scale + 1);
    t[..|t| - scale] + "." + t[|t| - scale..]
  }

  /** `${x}` for a finite decimal, in plain (non-exponential) notation. */
  function DecimalToString(d: Decimal): (r: string)
    ensures |r| > 0
  {
    var n := Normalize(d);
    if n.scale == 0 then IntToString(n.units)
    else if n.units < 0 then "-" + PointText(-n.units, n.scale)
    else PointText(n.units, n.scale)
  }

  /** `${x}` for a number that is not NaN. */
  function NumToString(x: Num): (r: string)
    ensures |r| > 0
  {
    match x
    case PosInfinity => "Infinity"
    case NegInfinity => "-Infinity"
    case Finite(d) => DecimalToString(d)
  }

  /** A whole number prints as its integer digits and `parseFloat` reads it
      back unchanged. */
  lemma WholeNumberRoundTrip(i: int)
    ensures NumToString(Finite(Decimal(i, 0))) == IntToString(i)
    ensures ParseFloat(IntToString(i)) == Some(Finite(Decimal(i, 0)))
  {
    var s := IntToString(i);
    IntToStringShape(i);
    assert s[0..] == s;
    var ds := Unsigned(s);
    DigitsNotInfinity(ds);
    UnsignedDecimalDigits(ds);
  }
}
