/**
 * Decimal text to numbers, as Go's strconv.Atoi and strconv.ParseFloat read it.
 * Values are exact: ParseFloat yields the real number the text denotes, not
 * its nearest float64.
 */
module Strconv {
  import opened Outcomes

  predicate IsDigit(c: char) {
    '0' <= c <= '9'
  }

  predicate AllDigits(s: string) {
    forall i :: 0 <= i < |s| ==> IsDigit(s[i])
  }

  function DigitValue(c: char): (d: nat)
    requires IsDigit(c)
    ensures d <= 9
  {
    (c as int) - ('0' as int)
  }

  function Pow10(n: nat): (p: nat)
    ensures p >= 1
  {
    if n == 0 then 1 else 10 * Pow10(n - 1)
  }

  /** The number a string of decimal digits denotes (most significant first). */
  function Digits(s: string): (n: nat)
    requires AllDigits(s)
    ensures n < Pow10(|s|)
  {
    if s == [] then 0 else 10 * Digits(s[..|s| - 1]) + DigitValue(s[|s| - 1])
  }

  /** Digits of a concatenation: the left part is shifted by the length of the right part. */
  lemma {:induction false} DigitsAppend(a: string, b: string)
    requires AllDigits(a) && AllDigits(b)
    ensures AllDigits(a + b)
    ensures Digits(a + b) == Digits(a) * Pow10(|b|) + Digits(b)
  {
    if b != [] {
      var ab := a + b;
      var b' := b[..|b| - 1];
      assert ab[..|ab| - 1] == a + b';
      DigitsAppend(a, b');
      var x, p, y, d := Digits(a), Pow10(|b'|), Digits(b'), DigitValue(b[|b| - 1]);
      assert Digits(ab) == 10 * (x * p + y) + d;
      assert Digits(b) == 10 * y + d;
      assert Pow10(|b|) == 10 * p;
      ShiftByOneDigit(x, p, y, d);
    } else {
      assert a + b == a;
    }
  }

  lemma ShiftByOneDigit(x: int, p: int, y: int, d: int)
    ensures 10 * (x * p + y) + d == x * (10 * p) + (10 * y + d)
  {
  }

  /**
   * strconv.Atoi: an optional sign followed by at least one decimal digit;
   * anything else is a syntax error (None).
   */
  function Atoi(s: string): (r: Option<int>)
    ensures s == [] ==> r.None?
    ensures AllDigits(s) && s != [] ==> r == Some(Digits(s))
  {
    if |s| > 0 && (s[0] == '+' || s[0] == '-') then
      var body := s[1..];
      if body != [] && AllDigits(body) then
        Some(if s[0] == '-' then -(Digits(body) as int) else Digits(body))
      else None
    else if s != [] && AllDigits(s) then Some(Digits(s))
    else None
  }

  /** Index of the first occurrence of `c1` or `c2` in `s`, or |s| when neither occurs. */
  function FirstIndex(s: string, c1: char, c2: char): (k: nat)
    ensures k <= |s|
    ensures forall i :: 0 <= i < k ==> s[i] != c1 && s[i] != c2
    ensures k < |s| ==> s[k] == c1 || s[k] == c2
  {
    if s == [] || s[0] == c1 || s[0] == c2 then 0 else 1 + FirstIndex(s[1..], c1, c2)
  }

  /**
   * An unsigned mantissa `whole[.frac]`: both parts decimal digits, at least
   * one digit in all, at most one point.
   */
  function Mantissa(s: string): (r: Option<real>)
    ensures r.Some? ==> r.value >= 0.0
  {
    var p := FirstIndex(s, '.', '.');
    var whole := s[..p];
    var frac := if p < |s| then s[p + 1..] else "";
    if AllDigits(whole) && AllDigits(frac) && |whole| + |frac| > 0 then
      Some(Digits(whole) as real + Fraction(frac))
    else None
  }

  /** The value of the digits after a decimal point. */
  function Fraction(frac: string): (f: real)
    requires AllDigits(frac)
    ensures 0.0 <= f < 1.0
  {
    FractionBelowOne(Digits(frac) as real, Pow10(|frac|) as real);
    Digits(frac) as real / Pow10(|frac|) as real
  }

  lemma MantissaOfParts(s: string, whole: string, frac: string)
    requires AllDigits(whole) && AllDigits(frac) && |whole| + |frac| > 0
    requires s == whole + "." + frac
    requires FirstIndex(s, '.', '.') == |whole|
    ensures Mantissa(s) == Some(Digits(whole) as real + Fraction(frac))
  {
    assert s[..|whole|] == whole;
    assert s[|whole| + 1..] == frac;
  }

  /** `v` times ten to the power `e`. */
  function Scale(v: real, e: int): (r: real)
    ensures v >= 0.0 ==> r >= 0.0
  {
    if e >= 0 then v * Pow10(e) as real else v / Pow10(-e) as real
  }

  lemma ScaleByZero(v: real)
    ensures Scale(v, 0) == v
  {
    assert Pow10(0) == 1;
  }

  /**
   * strconv.ParseFloat on decimal text: `[+-] mantissa [(e|E) [+-] digits]`.
   * None stands for the syntax error Go reports.
   */
  function ParseFloat(s: string): (r: Option<real>)
    ensures s == [] ==> r.None?
  {
    if |s| > 0 && (s[0] == '+' || s[0] == '-') then
      match Unsigned(s[1..])
      case Some(v) => Some(if s[0] == '-' then -v else v)
      case None => None
    else Unsigned(s)
  }

  /**
   * An unsigned mantissa with an optional exponent: never negative, and empty
   * text is an error.
   */
  function Unsigned(s: string): (r: Option<real>)
    ensures r.Some? ==> r.value >= 0.0
    ensures s == [] ==> r.None?
  {
    var k := FirstIndex(s, 'e', 'E');
    var mant := Mantissa(s[..k]);
    var exp := if k < |s| then Atoi(s[k + 1..]) else Some(0);
    if mant.Some? && exp.Some? then Some(Scale(mant.value, exp.value)) else None
  }

  /** Text without an exponent marker is read as a bare mantissa. */
  lemma UnsignedWithoutExponent(s: string)
    requires forall i :: 0 <= i < |s| ==> s[i] != 'e' && s[i] != 'E'
    ensures Unsigned(s) == Mantissa(s)
  {
    assert FirstIndex(s, 'e', 'E') == |s|;
    assert s[..|s|] == s;
    if Mantissa(s).Some? {
      ScaleByZero(Mantissa(s).value);
    }
  }

  /** A plain `whole.frac` decimal (no sign, no exponent) parses to whole + frac/10^|frac|. */
  lemma PointDecimal(whole: string, frac: string)
    requires AllDigits(whole) && AllDigits(frac) && |whole| + |frac| > 0
    ensures ParseFloat(whole + "." + frac) == Some(Digits(whole) as real + Fraction(frac))
  {
    var s := whole + "." + frac;
    PointDecimalShape(whole, frac);
    UnsignedWithoutExponent(s);
    MantissaOfParts(s, whole, frac);
  }

  /** `whole.frac` starts without a sign, has no exponent marker and has its first point after `whole`. */
  lemma PointDecimalShape(whole: string, frac: string)
    requires AllDigits(whole) && AllDigits(frac)
    ensures var s := whole + "." + frac;
            && s[0] != '+' && s[0] != '-'
            && (forall i :: 0 <= i < |s| ==> s[i] != 'e' && s[i] != 'E')
            && FirstIndex(s, '.', '.') == |whole|
  {
    var s := whole + "." + frac;
    assert s[0] != '+' && s[0] != '-' by {
      if whole != [] { assert s[0] == whole[0]; } else { assert s[0] == '.'; }
    }
    forall i | 0 <= i < |s| ensures s[i] != 'e' && s[i] != 'E' {
      if i < |whole| { assert s[i] == whole[i]; }
      else if i > |whole| { assert s[i] == frac[i - |whole| - 1]; }
    }
    assert s[|whole|] == '.';
    forall i | 0 <= i < |whole| ensures s[i] != '.' { assert s[i] == whole[i]; }
  }

  /** A digit string without a point parses to the integer it spells. */
  lemma WholeDecimal(whole: string)
    requires AllDigits(whole) && whole != []
    ensures ParseFloat(whole) == Some(Digits(whole) as real)
  {
    assert whole[0] != '+' && whole[0] != '-';
    assert Unsigned(whole) == Mantissa(whole) by {
      UnsignedWithoutExponent(whole);
    }
    assert Mantissa(whole) == Some(Digits(whole) as real) by {
      DigitsHaveNoPoint(whole);
      assert whole[..|whole|] == whole;
      NoFraction();
    }
  }

  lemma DigitsHaveNoPoint(s: string)
    requires AllDigits(s)
    ensures FirstIndex(s, '.', '.') == |s|
  {
  }

  lemma NoFraction()
    ensures Fraction("") == 0.0
  {
    assert Digits("") == 0 && Pow10(0) == 1;
  }

  /**
   * `"0."` followed by digits (the eccentricity rule of a TLE) parses to a
   * value in [0, 1).
   */
  lemma ImpliedPointFraction(frac: string)
    requires AllDigits(frac)
    ensures ParseFloat("0." + frac).Some?
    ensures 0.0 <= ParseFloat("0." + frac).value < 1.0
  {
    assert "0." + frac == "0" + "." + frac;
    PointDecimal("0", frac);
    assert Digits("0") == 0 by { assert "0"[..0] == ""; }
  }

  /** Without a sign the text denotes a non-negative number. */
  lemma UnsignedNonNegative(s: string)
    ensures Unsigned(s).Some? ==> Unsigned(s).value >= 0.0
  {
  }

  /** Text that does not start with a sign parses, if at all, to a non-negative number. */
  lemma UnsignedStart(s: string)
    requires s != [] && s[0] != '+' && s[0] != '-'
    ensures ParseFloat(s).Some? ==> ParseFloat(s).value >= 0.0
  {
    UnsignedNonNegative(s);
  }

  /**
   * A leading sign applies to the unsigned number after it: "+" keeps it,
   * "-" negates it, and the text is an error exactly when the rest is.
   */
  lemma SignedForms(t: string)
    ensures ParseFloat("+" + t) == Unsigned(t)
    ensures ParseFloat("-" + t) == if Unsigned(t).Some? then Some(-Unsigned(t).value) else None
  {
    assert ("+" + t)[1..] == t;
    assert ("-" + t)[1..] == t;
  }

  /**
   * An exponent marker splits the text: `mantissa e exponent` is the mantissa
   * scaled by ten to the (signed, integer) exponent, and an error when
   * either part is malformed.
   */
  lemma ExponentForm(m: string, marker: char, e: string)
    requires marker == 'e' || marker == 'E'
    requires forall i :: 0 <= i < |m| ==> m[i] != 'e' && m[i] != 'E'
    ensures Unsigned(m + [marker] + e) ==
      if Mantissa(m).Some? && Atoi(e).Some? then Some(Scale(Mantissa(m).value, Atoi(e).value)) else None
  {
    var s := m + [marker] + e;
    assert FirstIndex(s, 'e', 'E') == |m| by {
      ExponentAt(s, |m|);
    }
    assert s[..|m|] == m;
    assert s[|m| + 1..] == e;
  }

  lemma {:induction false} ExponentAt(s: string, k: nat)
    requires k < |s| && (s[k] == 'e' || s[k] == 'E')
    requires forall i :: 0 <= i < k ==> s[i] != 'e' && s[i] != 'E'
    ensures FirstIndex(s, 'e', 'E') == k
  {
    if k > 0 {
      ExponentAt(s[1..], k - 1);
    }
  }

  /** A non-negative quotient of a smaller by a larger positive number lies in [0, 1). */
  lemma FractionBelowOne(n: real, d: real)
    requires 0.0 <= n < d
    ensures 0.0 <= n / d < 1.0
  {
  }
}
