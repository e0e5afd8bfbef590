/**
 * The JavaScript numeric conversions the pipeline uses, over `real`:
 * `Number(text)` for decimal text (NaN is `None`), `Math.round`,
 * `Number(x.toFixed(3))` and the birth-decade formula `Math.floor(y / 10) * 10`.
 */
module JsNumber {
  import opened Wrappers
  import opened Text

  predicate IsDigit(c: char) {
    '0' <= c <= '9'
  }

  predicate AllDigits(s: string) {
    forall i :: 0 <= i < |s| ==> IsDigit(s[i])
  }

  /** The value of a string of decimal digits. */
  function DigitsValue(s: string): nat
    requires AllDigits(s)
  {
    if s == [] then 0 else DigitsValue(s[..|s| - 1]) * 10 + (s[|s| - 1] as int - '0' as int)
  }

  function Pow10(n: nat): (r: nat)
    ensures r > 0
  {
    if n == 0 then 1 else 10 * Pow10(n - 1)
  }

  /** Position of the first '.', or `|s|` when there is none. */
  function DotIndex(s: string): (k: nat)
    ensures k <= |s|
    ensures k < |s| ==> s[k] == '.'
    ensures forall i :: 0 <= i < k ==> s[i] != '.'
  {
    if s == [] || s[0] == '.' then 0 else 1 + DotIndex(s[1..])
  }

  /** An unsigned decimal literal: digits, optionally followed by '.' and
      more digits, with at least one digit in all. */
  function UnsignedDecimal(s: string): Option<real> {
    var k := DotIndex(s);
    if k < |s| then Decimal(s[..k], s[k + 1..]) else Decimal(s, "")
  }

  function Decimal(whole: string, fraction: string): Option<real> {
    if AllDigits(whole) && AllDigits(fraction) && |whole| + |fraction| > 0 then
      Some(DigitsValue(whole) as real + FractionValue(fraction))
    else
      None
  }

  /** The value of the digits after a decimal point. */
  function FractionValue(f: string): real
    requires AllDigits(f)
  {
    if f == [] then 0.0 else DigitsValue(f) as real / Pow10(|f|) as real
  }

  /** `Number(text)`: surrounding white space is ignored, blank text is 0,
      an optional sign precedes an unsigned decimal, anything else is NaN. */
  function ToNumber(text: string): Option<real> {
    TrimmedToNumber(Trim(text))
  }

  function TrimmedToNumber(t: string): Option<real> {
    if t == "" then Some(0.0)
    else if t[0] == '-' then
      match UnsignedDecimal(t[1..])
      case Some(v) => Some(-v)
      case None => None
    else if t[0] == '+' then UnsignedDecimal(t[1..])
    else UnsignedDecimal(t)
  }

  /** An empty or blank cell converts to 0, not to NaN. */
  lemma BlankIsZero(text: string)
    requires AllSpace(text)
    ensures ToNumber(text) == Some(0.0)
  {
  }

  /** White space around the text never changes the number. */
  lemma PaddingIgnored(w1: string, text: string, w2: string)
    requires AllSpace(w1) && AllSpace(w2)
    ensures ToNumber(w1 + text + w2) == ToNumber(text)
  {
    TrimPadded(w1, text, w2);
  }

  /** A plain run of digits converts to its decimal value. */
  lemma DigitsConvert(d: string)
    requires d != [] && AllDigits(d)
    ensures ToNumber(d) == Some(DigitsValue(d) as real)
  {
    assert IsDigit(d[0]) && IsDigit(d[|d| - 1]);
    assert !IsSpace(d[0]) && !IsSpace(d[|d| - 1]);
    assert Trim(d) == d;
    assert DotIndex(d) == |d| by {
      assert forall i :: 0 <= i < |d| ==> d[i] != '.';
    }
    assert FractionValue("") == 0.0;
    assert Decimal(d, "") == Some(DigitsValue(d) as real);
    assert UnsignedDecimal(d) == Some(DigitsValue(d) as real);
    assert d[0] != '-' && d[0] != '+';
  }

  /** Text starting with neither a digit nor a point is no unsigned decimal. */
  lemma NotUnsignedDecimal(w: string)
    requires w != [] && !IsDigit(w[0]) && w[0] != '.'
    ensures UnsignedDecimal(w) == None
  {
    var k := DotIndex(w);
    assert w[..k][0] == w[0];
  }

  lemma WordIsNaN(w: string)
    requires w != [] && 'A' <= w[0] <= 'z' && 'A' <= w[|w| - 1] <= 'z'
    ensures ToNumber(w) == None
  {
    TrimUnpadded(w);
    NotUnsignedDecimal(w);
  }

  /** The words "NaN" and "null" are not numbers. */
  lemma WordsAreNaN()
    ensures ToNumber("NaN") == None
    ensures ToNumber("null") == None
  {
    WordIsNaN("NaN");
    WordIsNaN("null");
  }

  /** `Math.round(x)`: the nearest integer, halves rounded up. */
  function JsRound(x: real): (r: int)
    ensures x - 0.5 < r as real <= x + 0.5
  {
    (x + 0.5).Floor
  }

  /** `Number(x.toFixed(3))` in thousandths: the nearest integer to
      `1000 * |x|`, halves rounded away from zero, with the sign of `x`. */
  function Thousandths(x: real): (n: int)
    ensures -0.5 <= n as real - 1000.0 * x <= 0.5
    ensures x >= 0.0 ==> -0.5 < n as real - 1000.0 * x
    ensures x < 0.0 ==> n as real - 1000.0 * x < 0.5
  {
    if x < 0.0 then -JsRound(-1000.0 * x) else JsRound(1000.0 * x)
  }

  /** `Number(x.toFixed(3))`: a whole number of thousandths within half a
      thousandth of `x`, a tie going away from zero. */
  function Round3(x: real): (r: real)
    ensures -0.0005 <= r - x <= 0.0005
    ensures (r * 1000.0).Floor as real == r * 1000.0
    ensures x >= 0.0 ==> -0.0005 < r - x
    ensures x < 0.0 ==> r - x < 0.0005
  {
    Thousandths(x) as real / 1000.0
  }

  /** A value already at thousandths is not moved by rounding again. */
  lemma Round3Idempotent(x: real)
    ensures Round3(Round3(x)) == Round3(x)
  {
    var n := Thousandths(x);
    var r := Round3(x);
    assert r == n as real / 1000.0;
    assert 1000.0 * r == n as real;
    var m := Thousandths(r);
    assert -0.5 <= (m - n) as real <= 0.5;
    assert m == n;
  }

  /** `Math.floor(year / 10) * 10`: the start of the year's decade. */
  function Decade(year: real): (d: int)
    ensures d % 10 == 0
    ensures d as real <= year < d as real + 10.0
  {
    (year / 10.0).Floor * 10
  }

  function Abs(x: real): real {
    if x < 0.0 then -x else x
  }
}
