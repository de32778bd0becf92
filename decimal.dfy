/**
 * Numbers as the monitor reads and writes them: a restricted `float(token)`
 * (an optional sign, decimal digits and at most one point) and the `{:.1f}`
 * rendering used by the CPU and memory labels.
 */
module Decimal {
  import opened Wrappers
  import Text

  predicate IsDigit(c: char) {
    '0' <= c <= '9'
  }

  predicate AllDigits(s: string) {
    forall i :: 0 <= i < |s| ==> IsDigit(s[i])
  }

  function DigitValue(c: char): (d: nat)
    requires IsDigit(c)
    ensures d < 10
  {
    c as int - '0' as int
  }

  function DigitChar(d: nat): (c: char)
    requires d < 10
    ensures IsDigit(c) && DigitValue(c) == d
  {
    ('0' as int + d) as char
  }

  /** The number written by a string of decimal digits, most significant first. */
  function DigitsValue(s: string): nat
    requires AllDigits(s)
  {
    if |s| == 0 then 0 else DigitsValue(s[..|s| - 1]) * 10 + DigitValue(s[|s| - 1])
  }

  /** The value of the digits after a point: `frac` read as `0.frac`. */
  function FracValue(frac: string): (v: real)
    requires AllDigits(frac)
    ensures 0.0 <= v < 1.0
  {
    if |frac| == 0 then 0.0 else (DigitValue(frac[0]) as real + FracValue(frac[1..])) / 10.0
  }

  /** An unsigned decimal: digits with at most one point and at least one digit. */
  function ParseUnsigned(body: string): (r: Option<real>)
    ensures r.Some? ==> r.value >= 0.0
    ensures r.Some? ==> forall i :: 0 <= i < |body| ==> IsDigit(body[i]) || body[i] == '.'
  {
    match Text.IndexOf(body, ".")
    case None =>
      if body != [] && AllDigits(body) then Some(DigitsValue(body) as real) else None
    case Some(i) =>
      var whole, frac := body[..i], body[i + 1..];
      if (whole != [] || frac != []) && AllDigits(whole) && AllDigits(frac) then
        assert forall k :: 0 <= k < |body| ==> IsDigit(body[k]) || body[k] == '.' by {
          forall k | 0 <= k < |body| ensures IsDigit(body[k]) || body[k] == '.' {
            if k < i {
              assert body[k] == whole[k];
            } else if k > i {
              assert body[k] == frac[k - i - 1];
            } else {
              assert body[i..i + 1] == ".";
            }
          }
        }
        Some(DigitsValue(whole) as real + FracValue(frac))
      else None
  }

  /** The characters a token accepted by `ParseDecimal` may contain. */
  predicate NumeralChar(c: char) {
    IsDigit(c) || c == '.' || c == '+' || c == '-'
  }

  /** Python's `float(token)` restricted to plain decimal notation. */
  function ParseDecimal(t: string): (r: Option<real>)
    ensures r.Some? ==> forall i :: 0 <= i < |t| ==> NumeralChar(t[i])
  {
    if t != [] && (t[0] == '+' || t[0] == '-') then
      match ParseUnsigned(t[1..])
      case None => None
      case Some(v) =>
        assert forall i :: 1 <= i < |t| ==> t[i] == t[1..][i - 1];
        Some(if t[0] == '-' then -v else v)
    else ParseUnsigned(t)
  }

  /** A token that contains a character such as `%` is never a number. */
  lemma RejectsNonNumeral(t: string, c: char)
    requires c in t && !NumeralChar(c)
    ensures ParseDecimal(t).None?
  {
  }

  /** The decimal digits of `n`, most significant first, without leading zeros. */
  function NatDigits(n: nat): (s: string)
    ensures s != [] && AllDigits(s)
  {
    if n < 10 then [DigitChar(n)] else NatDigits(n / 10) + [DigitChar(n % 10)]
  }

  lemma {:induction false} NatDigitsValue(n: nat)
    ensures DigitsValue(NatDigits(n)) == n
  {
    var s := NatDigits(n);
    if n >= 10 {
      NatDigitsValue(n / 10);
      assert s[..|s| - 1] == NatDigits(n / 10);
    }
  }

  /** The text `{:.1f}` gives for the number `tenths / 10`. */
  function FormatTenths(tenths: int): (s: string)
    ensures forall i :: 0 <= i < |s| ==> NumeralChar(s[i])
  {
    var m: nat := if tenths < 0 then -tenths else tenths;
    (if tenths < 0 then "-" else "") + TenthsBody(m)
  }

  /** The unsigned part of a rendered number: the whole digits, a point and one digit. */
  function TenthsBody(m: nat): string {
    NatDigits(m / 10) + "." + [DigitChar(m % 10)]
  }

  lemma TenthsBodyValue(m: nat)
    ensures ParseUnsigned(TenthsBody(m)) == Some(m as real / 10.0)
  {
    var whole, last := NatDigits(m / 10), [DigitChar(m % 10)];
    var body := TenthsBody(m);
    assert '.' !in whole;
    Text.FirstAfter(whole, ".", last);
    assert body[..|whole|] == whole;
    assert body[|whole| + 1..] == last;
    NatDigitsValue(m / 10);
    assert FracValue(last) == (m % 10) as real / 10.0 by {
      assert last[1..] == [];
    }
    assert (m / 10) as real + (m % 10) as real / 10.0 == m as real / 10.0;
  }

  lemma SignedValue(body: string)
    requires body != [] && IsDigit(body[0]) && ParseUnsigned(body).Some?
    ensures ParseDecimal("-" + body) == Some(-ParseUnsigned(body).value)
  {
    assert ("-" + body)[1..] == body;
  }

  /** Reading back a rendered number gives exactly the rendered value. */
  lemma FormatTenthsRoundTrip(tenths: int)
    ensures ParseDecimal(FormatTenths(tenths)) == Some(tenths as real / 10.0)
  {
    var m: nat := if tenths < 0 then -tenths else tenths;
    var body := TenthsBody(m);
    TenthsBodyValue(m);
    assert IsDigit(body[0]);
    if tenths < 0 {
      SignedValue(body);
      assert FormatTenths(tenths) == "-" + body;
    } else {
      assert FormatTenths(tenths) == body;
    }
  }

  /** `x` rounded to the nearest tenth, halves rounded up, in units of a tenth. */
  function RoundTenths(x: real): (t: int)
    ensures t as real - 0.5 <= x * 10.0 < t as real + 0.5
  {
    (x * 10.0 + 0.5).Floor
  }

  /** `format(x, '.1f')` on an exact real. */
  function Fixed1(x: real): string {
    FormatTenths(RoundTenths(x))
  }

  /** The rendering reads back as `x` rounded to the nearest tenth. */
  lemma Fixed1ReadsBack(x: real)
    ensures ParseDecimal(Fixed1(x)) == Some(RoundTenths(x) as real / 10.0)
  {
    FormatTenthsRoundTrip(RoundTenths(x));
  }

  /** The rendered number reads back within half a tenth of the exact value. */
  lemma Fixed1Close(x: real)
    ensures ParseDecimal(Fixed1(x)).Some?
    ensures x - 0.05 < ParseDecimal(Fixed1(x)).value <= x + 0.05
  {
    var t := RoundTenths(x);
    Fixed1ReadsBack(x);
    assert t as real - 0.5 <= x * 10.0 < t as real + 0.5;
  }

  /** A number with one decimal is its own rounding to the nearest tenth. */
  lemma RoundTenthsExact(tenths: int)
    ensures RoundTenths(tenths as real / 10.0) == tenths
    ensures RoundTenths(tenths as real / 10.0) as real / 10.0 == tenths as real / 10.0
  {
    assert tenths as real / 10.0 * 10.0 == tenths as real;
  }

  /** Rendering a number that already has one decimal gives that decimal back. */
  lemma Fixed1OfTenths(tenths: int)
    ensures Fixed1(tenths as real / 10.0) == FormatTenths(tenths)
  {
    RoundTenthsExact(tenths);
  }

  /** Rendering, reading back and rendering again changes nothing. */
  lemma Fixed1Stable(x: real)
    ensures ParseDecimal(Fixed1(x)).Some?
    ensures Fixed1(ParseDecimal(Fixed1(x)).value) == Fixed1(x)
  {
    FormatTenthsRoundTrip(RoundTenths(x));
    Fixed1OfTenths(RoundTenths(x));
  }

  /** The number a rendering reads back as renders exactly as the original did. */
  lemma RoundedRendersSame(x: real)
    ensures Fixed1(RoundTenths(x) as real / 10.0) == Fixed1(x)
  {
    Fixed1OfTenths(RoundTenths(x));
  }

  /** Python's `round(x)` on an exact real: the nearest integer, ties to even. */
  function RoundHalfEven(x: real): (n: int)
    ensures x - 0.5 <= n as real <= x + 0.5
    ensures n as real == x - 0.5 || n as real == x + 0.5 ==> n % 2 == 0
  {
    var f := x.Floor;
    var d := x - f as real;
    if d < 0.5 then f
    else if d > 0.5 then f + 1
    else if f % 2 == 0 then f else f + 1
  }

  /** `str(n)` for an integer. */
  function IntText(n: int): (s: string)
    ensures s != []
  {
    if n < 0 then "-" + NatDigits(-n) else NatDigits(n)
  }
}
