/**
 * Decimal numbers as the report-card code reads and writes them: Python's
 * `float(text)` on plain decimal text, and the two-decimal rendering
 * `f"{x:.2f}"` that every average goes through.  Grades are exact reals.
 */
module Decimal {
  import opened Wrappers
  import opened Text

  /** The value of the digits `s[i..]` read after a decimal point: "25" denotes 0.25. */
  function FracFrom(s: string, i: nat): (v: real)
    requires i <= |s| && AllDigits(s)
    ensures 0.0 <= v < 1.0
    decreases |s| - i
  {
    if i == |s| then 0.0
    else
      AllDigitsEach(s);
      (DigitValue(s[i]) as real + FracFrom(s, i + 1)) / 10.0
  }

  function FracValue(s: string): (v: real)
    requires AllDigits(s)
    ensures 0.0 <= v < 1.0
  {
    FracFrom(s, 0)
  }

  /** Unsigned decimal text: digits with at most one '.', at least one digit. */
  function ParseUnsigned(t: string): Option<real> {
    var k := Find(t, '.');
    if k < |t| then
      var whole, frac := t[..k], t[k + 1..];
      if |whole| + |frac| > 0 && AllDigits(whole) && AllDigits(frac)
      then Some(DigitsValue(whole) as real + FracValue(frac))
      else None
    else if |t| > 0 && AllDigits(t) then Some(DigitsValue(t) as real)
    else None
  }

  /** Stripped text with an optional sign before an unsigned decimal number. */
  function ParseSigned(t: string): Option<real> {
    if |t| > 0 && t[0] == '-' then Negate(ParseUnsigned(t[1..]))
    else if |t| > 0 && t[0] == '+' then ParseUnsigned(t[1..])
    else ParseUnsigned(t)
  }

  function Negate(o: Option<real>): (r: Option<real>)
    ensures r.Some? <==> o.Some?
    ensures o.Some? ==> r.value == -o.value
  {
    match o
    case Some(v) => Some(-v)
    case None => None
  }

  /** Python's `float(s)` on text made of an optional sign and a plain decimal number. */
  function ParseFloat(s: string): Option<real> {
    ParseSigned(Strip(s))
  }

  /**
   * The number of hundredths `x` rounds to: to the nearest hundredth,
   * an exact tie going to the even neighbour, as Python's formatting does.
   */
  function Round2(x: real): (n: int)
    ensures -0.5 <= n as real - 100.0 * x <= 0.5
    ensures n as real - 100.0 * x == 0.5 || n as real - 100.0 * x == -0.5 ==> n % 2 == 0
  {
    var y := 100.0 * x;
    var f := y.Floor;
    var d := y - f as real;
    if d > 0.5 then f + 1
    else if d < 0.5 then f
    else if f % 2 == 0 then f
    else f + 1
  }

  /** Rounding never reverses the order of two numbers. */
  lemma {:induction false} Round2Monotone(x: real, y: real)
    requires x <= y
    ensures Round2(x) <= Round2(y)
  {
    var fx, fy := (100.0 * x).Floor, (100.0 * y).Floor;
    assert fx <= fy;
  }

  /** A whole number of hundredths is its own rounding. */
  lemma {:induction false} Round2Exact(k: int)
    ensures Round2(k as real / 100.0) == k
  {
    assert 100.0 * (k as real / 100.0) == k as real;
  }

  /** A number between two whole numbers of hundredths rounds to a value between them. */
  lemma {:induction false} Round2Between(lo: int, x: real, hi: int)
    requires lo as real / 100.0 <= x <= hi as real / 100.0
    ensures lo <= Round2(x) <= hi
  {
    Round2Monotone(lo as real / 100.0, x);
    Round2Monotone(x, hi as real / 100.0);
    Round2Exact(lo);
    Round2Exact(hi);
  }

  /** Python's `round(x, 2)`: the nearest hundredth, ties to even. */
  function RoundTo2(x: real): real {
    Round2(x) as real / 100.0
  }

  /** Rounding keeps a number between two whole numbers of hundredths. */
  lemma {:induction false} RoundTo2Between(lo: int, x: real, hi: int)
    requires lo as real / 100.0 <= x <= hi as real / 100.0
    ensures lo as real / 100.0 <= RoundTo2(x) <= hi as real / 100.0
  {
    Round2Between(lo, x, hi);
  }

  /** The text of `n` hundredths: optional '-', the whole part, '.', exactly two decimals. */
  function FormatHundredths(n: int): (s: string)
    ensures |s| >= 4
    decreases if n < 0 then 1 else 0
  {
    if n < 0 then "-" + FormatHundredths(-n)
    else
      var cents := n % 100;
      AllDigitsEach(NatToString(n / 100));
      NatToString(n / 100) + "." + [DigitChar(cents / 10), DigitChar(cents % 10)]
  }

  /**
   * Python's `f"{x:.2f}"`, except for `x` in (-0.005, 0), where Python writes
   * "-0.00" and this writes "0.00". A grade cell is split on '-', so no grade
   * read from a cell is negative, and no average of such grades is either.
   */
  function Format2(x: real): (s: string)
    ensures |s| >= 4
  {
    FormatHundredths(Round2(x))
  }

  /** Unsigned text whose first '.' is at `k` denotes whole part plus fraction. */
  lemma {:induction false} ParseUnsignedAt(t: string, k: nat)
    requires k < |t| && t[k] == '.' && forall j :: 0 <= j < k ==> t[j] != '.'
    requires |t| >= 2 && AllDigits(t[..k]) && AllDigits(t[k + 1..])
    ensures ParseUnsigned(t) == Some(DigitsValue(t[..k]) as real + FracValue(t[k + 1..]))
  {
    assert Find(t, '.') == k;
  }

  /** The value of unsigned text `w.fg`, for digit strings `w` and digits `f`, `g`. */
  lemma {:induction false} ParseUnsignedTwoDecimals(w: string, f: char, g: char)
    requires |w| >= 1 && AllDigits(w) && IsDigit(f) && IsDigit(g)
    ensures ParseUnsigned(w + "." + [f, g])
         == Some(DigitsValue(w) as real + (10 * DigitValue(f) + DigitValue(g)) as real / 100.0)
  {
    var t := w + "." + [f, g];
    DigitsExclude(w, '.');
    assert t[..|w|] == w;
    assert t[|w| + 1..] == [f, g];
    ParseUnsignedAt(t, |w|);
    FracValueTwo(f, g);
  }

  lemma {:induction false} FracValueTwo(f: char, g: char)
    requires IsDigit(f) && IsDigit(g)
    ensures FracValue([f, g]) == (10 * DigitValue(f) + DigitValue(g)) as real / 100.0
  {
    var s := [f, g];
    var a, b := DigitValue(f) as real, DigitValue(g) as real;
    assert FracFrom(s, 2) == 0.0;
    assert FracFrom(s, 1) == b / 10.0;
    assert FracFrom(s, 0) == (a + b / 10.0) / 10.0;
  }

  /** Digit strings hold no other character. */
  lemma {:induction false} DigitsExclude(w: string, c: char)
    requires AllDigits(w) && !IsDigit(c)
    ensures c !in w
  {
    AllDigitsEach(w);
    forall i | 0 <= i < |w| ensures w[i] != c { assert IsDigit(w[i]); }
  }

  /** Unsigned text that starts and ends with a digit reads as its unsigned value. */
  lemma {:induction false} ParseFloatUnsigned(u: string, x: real)
    requires |u| > 0 && IsDigit(u[0]) && IsDigit(u[|u| - 1])
    requires ParseUnsigned(u) == Some(x)
    ensures ParseFloat(u) == Some(x)
  {
    StripIdentity(u);
  }

  /** The same text after a '-' reads as the negated value. */
  lemma {:induction false} ParseFloatMinus(u: string, x: real)
    requires |u| > 0 && IsDigit(u[0]) && IsDigit(u[|u| - 1])
    requires ParseUnsigned(u) == Some(x)
    ensures ParseFloat("-" + u) == Some(-x)
  {
    var s := "-" + u;
    assert s[0] == '-' && s[1..] == u;
    StripIdentity(s);
    assert ParseSigned(s) == Negate(ParseUnsigned(u));
  }

  /** Reading back two-decimal text `w.fg` denoting `x`. */
  lemma {:induction false} ParseFloatTwoDecimals(w: string, f: char, g: char, x: real)
    requires |w| >= 1 && AllDigits(w) && IsDigit(f) && IsDigit(g)
    requires DigitsValue(w) as real + (10 * DigitValue(f) + DigitValue(g)) as real / 100.0 == x
    ensures ParseFloat(w + "." + [f, g]) == Some(x)
  {
    var u := w + "." + [f, g];
    AllDigitsEach(w);
    ParseUnsignedTwoDecimals(w, f, g);
    assert u[0] == w[0] && u[|u| - 1] == g;
    ParseFloatUnsigned(u, x);
  }

  /** A count of hundredths is its whole part plus its two decimal digits. */
  lemma {:induction false} SplitHundredths(m: nat)
    ensures (m / 100) as real + (10 * (m % 100 / 10) + m % 100 % 10) as real / 100.0 == m as real / 100.0
  {
    var cents := m % 100;
    assert 10 * (cents / 10) + cents % 10 == cents;
    assert m == 100 * (m / 100) + cents;
  }

  /** The digits of `m` hundredths, read back, denote `m / 100`. */
  lemma {:induction false} HundredthsDigits(m: nat)
    ensures var cents := m % 100;
            DigitsValue(NatToString(m / 100)) as real
            + (10 * DigitValue(DigitChar(cents / 10)) + DigitValue(DigitChar(cents % 10))) as real / 100.0
            == m as real / 100.0
  {
    NatToStringRoundTrip(m / 100);
    SplitHundredths(m);
  }

  lemma {:induction false} FormatHundredthsRoundTripNonNeg(n: int, x: real)
    requires n >= 0 && x == n as real / 100.0
    ensures ParseFloat(FormatHundredths(n)) == Some(x)
  {
    var cents := n % 100;
    var w, f, g := NatToString(n / 100), DigitChar(cents / 10), DigitChar(cents % 10);
    assert FormatHundredths(n) == w + "." + [f, g];
    HundredthsDigits(n);
    ParseFloatTwoDecimals(w, f, g, x);
  }

  /** A negative amount is written as '-' before the text of its magnitude. */
  lemma {:induction false} FormatHundredthsNegative(n: int)
    requires n < 0
    ensures FormatHundredths(n) == "-" + FormatHundredths(-n)
  {
  }

  /** Non-negative amounts are written starting and ending with a digit. */
  lemma {:induction false} FormatHundredthsEnds(n: int)
    requires n >= 0
    ensures var s := FormatHundredths(n); IsDigit(s[0]) && IsDigit(s[|s| - 1])
  {
    var w := NatToString(n / 100);
    AllDigitsEach(w);
    assert FormatHundredths(n)[0] == w[0];
  }

  /** A '-' in front of text that starts and ends with a digit negates its value. */
  lemma {:induction false} NegatedText(u: string, s: string, x: real, y: real)
    requires |u| > 0 && IsDigit(u[0]) && IsDigit(u[|u| - 1])
    requires ParseFloat(u) == Some(x) && s == "-" + u && y == -x
    ensures ParseFloat(s) == Some(y)
  {
    assert ParseUnsigned(u) == Some(x) by { StripIdentity(u); }
    ParseFloatMinus(u, x);
  }

  /** Reading back the text of `n` hundredths gives `n / 100`. */
  lemma {:induction false} FormatHundredthsRoundTrip(n: int)
    ensures ParseFloat(FormatHundredths(n)) == Some(n as real / 100.0)
  {
    if n < 0 {
      FormatHundredthsRoundTripNeg(n);
    } else {
      FormatHundredthsRoundTripNonNeg(n, n as real / 100.0);
    }
  }

  lemma {:induction false} FormatHundredthsRoundTripNeg(n: int)
    requires n < 0
    ensures ParseFloat(FormatHundredths(n)) == Some(n as real / 100.0)
  {
    var m := -n;
    var u, x := FormatHundredths(m), m as real / 100.0;
    assert ParseFloat(u) == Some(x) by { FormatHundredthsRoundTripNonNeg(m, x); }
    assert |u| > 0 && IsDigit(u[0]) && IsDigit(u[|u| - 1]) by { FormatHundredthsEnds(m); }
    assert FormatHundredths(n) == "-" + u by { FormatHundredthsNegative(n); }
    NegatedText(u, FormatHundredths(n), x, n as real / 100.0);
  }

  /** Reading back the two-decimal text gives the rounded number: `float(f"{x:.2f}")`. */
  lemma {:induction false} Format2RoundTrip(x: real)
    ensures ParseFloat(Format2(x)) == Some(Round2(x) as real / 100.0)
  {
    FormatHundredthsRoundTrip(Round2(x));
  }

  /** `text.replace(",", ".")` leaves two-decimal text unchanged. */
  lemma {:induction false} Format2NoComma(x: real)
    ensures ReplaceChar(Format2(x), ',', '.') == Format2(x)
  {
    FormatHundredthsNoComma(Round2(x));
  }

  /** The text of an amount holds no ','. */
  lemma {:induction false} FormatHundredthsNoComma(n: int)
    ensures ',' !in FormatHundredths(n)
    decreases if n < 0 then 1 else 0
  {
    if n < 0 {
      FormatHundredthsNoComma(-n);
      assert FormatHundredths(n) == "-" + FormatHundredths(-n);
    } else {
      var cents := n % 100;
      var w := NatToString(n / 100);
      DigitsExclude(w, ',');
      assert FormatHundredths(n) == w + "." + [DigitChar(cents / 10), DigitChar(cents % 10)];
    }
  }
}
