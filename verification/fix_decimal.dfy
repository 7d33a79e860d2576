/** The numeric conversions a quote request's size goes through: the FIX
    library turns the OrderQty field's wire text into a float, and Python's
    `int()` turns that float into an integer by truncating toward zero. */
module FixDecimal {
  import opened Wrappers

  predicate IsDigit(c: char) {
    '0' <= c <= '9'
  }

  predicate AllDigits(s: string) {
    forall i :: 0 <= i < |s| ==> IsDigit(s[i])
  }

  /** The number a string of decimal digits denotes. */
  function DigitsValue(s: string): nat
    requires AllDigits(s)
    decreases |s|
  {
    if s == [] then 0 else 10 * DigitsValue(s[..|s| - 1]) + (s[|s| - 1] as int - '0' as int)
  }

  function Pow10(k: nat): (r: nat)
    ensures r >= 1
  {
    if k == 0 then 1 else 10 * Pow10(k - 1)
  }

  /** The text after a leading minus sign, or all of it when there is none. */
  function Unsigned(s: string): string {
    if |s| > 0 && s[0] == '-' then s[1..] else s
  }

  /** Position of the first '.', or |s| when there is none. */
  function DotIndex(s: string): (k: nat)
    ensures k <= |s|
    ensures k < |s| ==> s[k] == '.'
    ensures forall i :: 0 <= i < k ==> s[i] != '.'
    decreases |s|
  {
    if s == [] || s[0] == '.' then 0 else 1 + DotIndex(s[1..])
  }

  /** The float data type of FIX: an optional minus sign, then digits with at
      most one decimal point, and at least one digit somewhere. */
  ghost predicate IsFixFloat(s: string) {
    var u := Unsigned(s);
    && (forall i :: 0 <= i < |u| ==> IsDigit(u[i]) || u[i] == '.')
    && (forall i, j :: 0 <= i < j < |u| && u[i] == '.' ==> u[j] != '.')
    && (exists i :: 0 <= i < |u| && IsDigit(u[i]))
  }

  /** Converts the wire text of a float field; None is the conversion error the
      FIX library raises for a text that is not a FIX float. */
  function ParseFloat(s: string): (r: Option<real>)
    ensures r.Some? <==> IsFixFloat(s)
  {
    var u := Unsigned(s);
    var k := DotIndex(u);
    var whole := u[..k];
    var frac := if k < |u| then u[k + 1..] else "";
    if AllDigits(whole) && AllDigits(frac) && |whole| + |frac| > 0 then
      var magnitude := DigitsValue(whole) as real + DigitsValue(frac) as real / Pow10(|frac|) as real;
      Some(if u == s then magnitude else -magnitude)
    else
      None
  }

  /** The digits before the point of a float text, after any minus sign. */
  function WholeDigits(s: string): string {
    var u := Unsigned(s);
    u[..DotIndex(u)]
  }

  lemma {:induction false} DigitsValueBelowPow10(s: string)
    requires AllDigits(s)
    ensures DigitsValue(s) < Pow10(|s|)
    decreases |s|
  {
    if s != [] {
      assert AllDigits(s[..|s| - 1]);
      DigitsValueBelowPow10(s[..|s| - 1]);
    }
  }

  /** The text after the first point of a float text, empty when there is none. */
  function FracDigits(s: string): string {
    var u := Unsigned(s);
    var k := DotIndex(u);
    if k < |u| then u[k + 1..] else ""
  }

  /** A FIX float is digits, then optionally a point and more digits. */
  lemma FixFloatParts(s: string)
    requires IsFixFloat(s)
    ensures AllDigits(WholeDigits(s)) && AllDigits(FracDigits(s))
  {
  }

  /** The value of a FIX float: its whole digits plus its fraction digits
      scaled down by their count, negated after a minus sign. */
  lemma ParseFloatValue(s: string)
    requires IsFixFloat(s)
    ensures AllDigits(WholeDigits(s)) && AllDigits(FracDigits(s))
    ensures var magnitude := DigitsValue(WholeDigits(s)) as real
                             + DigitsValue(FracDigits(s)) as real / Pow10(|FracDigits(s)|) as real;
            ParseFloat(s).value == if Unsigned(s) == s then magnitude else -magnitude
  {
    FixFloatParts(s);
  }

  /** A fraction of digits scaled down by their count is less than one. */
  lemma FractionBelowOne(frac: string)
    requires AllDigits(frac)
    ensures 0.0 <= DigitsValue(frac) as real / Pow10(|frac|) as real < 1.0
  {
    DigitsValueBelowPow10(frac);
    QuotientBelowOne(DigitsValue(frac) as real, Pow10(|frac|) as real);
  }

  lemma QuotientBelowOne(a: real, p: real)
    requires 0.0 <= a < p
    ensures 0.0 <= a / p < 1.0
  {
  }

  /** What a FIX float converts to, as far as its integer part goes: the value
      lies within one of the number its whole digits denote, on the side of its
      sign, so truncating it toward zero gives exactly that signed number. */
  lemma ParseFloatWholePart(s: string)
    requires IsFixFloat(s)
    ensures AllDigits(WholeDigits(s))
    ensures var v := ParseFloat(s).value;
      var w := DigitsValue(WholeDigits(s)) as real;
      && (Unsigned(s) == s ==> w <= v < w + 1.0)
      && (Unsigned(s) != s ==> -w - 1.0 < v <= -w)
    ensures Truncate(ParseFloat(s).value) ==
            if Unsigned(s) == s then DigitsValue(WholeDigits(s)) as int else -(DigitsValue(WholeDigits(s)) as int)
  {
    ParseFloatValue(s);
    FractionBelowOne(FracDigits(s));
  }

  /** The canonical decimal text of a natural number, most significant digit
      first and without leading zeros. */
  function NatText(n: nat): (s: string)
    ensures |s| > 0 && AllDigits(s)
    ensures DigitsValue(s) == n
  {
    var last := ['0' + (n % 10) as char];
    if n < 10 then last
    else
      var s := NatText(n / 10) + last;
      assert s[..|s| - 1] == NatText(n / 10);
      s
  }

  /** The canonical decimal text of an integer, as Python's `str(int)` writes it. */
  function IntText(i: int): string {
    if i < 0 then "-" + NatText(-i) else NatText(i)
  }

  /** Integer text is a FIX float, and converting it gives back the integer. */
  lemma {:induction false} ParseFloatIntText(i: int)
    ensures ParseFloat(IntText(i)) == Some(i as real)
  {
    var digits := NatText(if i < 0 then -i else i);
    var s := IntText(i);
    assert Unsigned(s) == digits;
    var k := DotIndex(digits);
    assert digits[..k] == digits;
  }

  /** The k-digit decimal text of a fraction numerator below 10^k,
      zero-padded on the left. */
  function PaddedDigits(f: nat, k: nat): (s: string)
    requires f < Pow10(k)
    ensures |s| == k && AllDigits(s)
    ensures DigitsValue(s) == f
  {
    if k == 0 then ""
    else
      var s := PaddedDigits(f / 10, k - 1) + ['0' + (f % 10) as char];
      assert s[..|s| - 1] == PaddedDigits(f / 10, k - 1);
      s
  }

  /** The text of a decimal with whole part w and k fraction digits spelling
      the numerator f, a minus sign first when it is negative. */
  function DecimalText(negative: bool, w: nat, f: nat, k: nat): string
    requires f < Pow10(k)
  {
    var digits := NatText(w) + "." + PaddedDigits(f, k);
    if negative then "-" + digits else digits
  }

  lemma ScaledSum(w: nat, f: nat, p: nat)
    requires p >= 1
    ensures w as real + f as real / p as real == (w * p + f) as real / p as real
  {
  }

  /** Decimal text with any number of fraction digits is a FIX float, and
      converting it gives back the exact fraction (w * 10^k + f) / 10^k it
      was written from, negated after a minus sign. */
  lemma ParseFloatDecimalText(negative: bool, w: nat, f: nat, k: nat)
    requires f < Pow10(k)
    ensures var x := (w * Pow10(k) + f) as real / Pow10(k) as real;
            ParseFloat(DecimalText(negative, w, f, k)) == Some(if negative then -x else x)
  {
    var s := DecimalText(negative, w, f, k);
    DecimalTextParts(negative, w, f, k);
    ParseFloatOfParts(s, negative, w, f, k);
  }

  /** The value of a FIX float, given what its sign and digits denote, as
      one fraction over a power of ten. */
  lemma ParseFloatOfParts(s: string, negative: bool, w: nat, f: nat, k: nat)
    requires IsFixFloat(s) && (Unsigned(s) == s <==> !negative)
    requires AllDigits(WholeDigits(s)) && DigitsValue(WholeDigits(s)) == w
    requires AllDigits(FracDigits(s)) && DigitsValue(FracDigits(s)) == f && |FracDigits(s)| == k
    ensures var x := (w * Pow10(k) + f) as real / Pow10(k) as real;
            ParseFloat(s) == Some(if negative then -x else x)
  {
    ParseFloatValue(s);
    ScaledSum(w, f, Pow10(k));
  }

  /** Decimal text is a FIX float whose whole and fraction digits are the
      ones it was written from. */
  lemma DecimalTextParts(negative: bool, w: nat, f: nat, k: nat)
    requires f < Pow10(k)
    ensures var s := DecimalText(negative, w, f, k);
            && IsFixFloat(s)
            && WholeDigits(s) == NatText(w) && FracDigits(s) == PaddedDigits(f, k)
            && (Unsigned(s) == s <==> !negative)
  {
    var whole, frac := NatText(w), PaddedDigits(f, k);
    var s := DecimalText(negative, w, f, k);
    assert Unsigned(s) == whole + "." + frac && (Unsigned(s) == s <==> !negative) by {
      assert IsDigit((whole + "." + frac)[0]);
    }
    PointAfterDigits(whole, frac);
    PointedIsFixFloat(s, |whole|);
  }

  /** Nonempty digits, one point and digits make a FIX float. */
  lemma PointedIsFixFloat(s: string, k: nat)
    requires k < |Unsigned(s)| && DotIndex(Unsigned(s)) == k && k > 0
    requires AllDigits(Unsigned(s)[..k]) && AllDigits(Unsigned(s)[k + 1..])
    ensures IsFixFloat(s)
  {
  }

  /** In digits, a point and more text, the first point is the one after the
      digits, and the text splits there. */
  lemma PointAfterDigits(whole: string, frac: string)
    requires AllDigits(whole)
    ensures var u := whole + "." + frac;
            && DotIndex(u) == |whole| < |u|
            && u[..|whole|] == whole && u[|whole| + 1..] == frac
  {
    DotIndexAfterDigits(whole, frac);
    var u := whole + "." + frac;
    assert u[..|whole|] == whole;
    assert u[|whole| + 1..] == frac;
  }

  /** In digits, a point and anything, the first point is the one after the digits. */
  lemma {:induction false} DotIndexAfterDigits(a: string, b: string)
    requires AllDigits(a)
    ensures DotIndex(a + "." + b) == |a|
    decreases |a|
  {
    if a != [] {
      assert (a + "." + b)[1..] == a[1..] + "." + b;
      DotIndexAfterDigits(a[1..], b);
    }
  }

  /** Python's `int()` applied to a float: truncation toward zero. */
  function Truncate(x: real): (n: int)
    ensures x >= 0.0 ==> n as real <= x < n as real + 1.0
    ensures x < 0.0 ==> n as real - 1.0 < x <= n as real
  {
    if x >= 0.0 then x.Floor else -((-x).Floor)
  }
}
