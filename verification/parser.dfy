/**
 * pkg/tle/parser.go: reading a two-line element set into the orbital
 * elements the propagator uses. Line 1 is split at every single space and read
 * by token number; line 2 is read by fixed column windows. A number that does
 * not parse is read as 0, as the discarded strconv error leaves it.
 */
module TleParser {
  import opened Outcomes
  import opened Strings
  import opened Strconv
  import opened Model

  /**
   * The built-in STARLINK-1008 element set of ParseTle. Line 1,
   * "1 44714U 19074B   25117.42924319 -.00001157  00000+0 -58773-4 0  9990",
   * is written as its single-space-separated tokens (runs of blanks give empty
   * tokens); line 2,
   * "2 44714  53.0517 166.3609 0001116  99.1558 260.9557 15.06400606301084",
   * as its column windows and the text between them.
   */
  const DefaultTokens: seq<string> :=
    ["1", "44714U", "19074B", "", "", "25117.42924319", "-.00001157", "", "00000+0", "-58773-4", "0", "", "9990"]
  const DefaultLine1: string := Join(DefaultTokens, ' ')
  const DefaultLine2: string :=
    "2 44714 " + " 53.0517" + " " + "166.3609" + " " + "0001116" + " " + " 99.1558" + " "
    + "260.9557" + " " + "15.06400606" + "30108" + "4"

  /**
   * The inputs ParseTleFromStrings slices without a run-time panic: line 1 has
   * at least 13 space-separated tokens, token 5 at least 2 characters, token 12
   * at least 3, and line 2 at least 69 characters. Such a line 1 holds a blank.
   */
  predicate Decodable(line1: string, line2: string)
    ensures Decodable(line1, line2) ==> ' ' in line1 && |line2| >= 69
  {
    var a := Split(line1, ' ');
    |a| >= 13 && |a[5]| >= 2 && |a[12]| >= 3 && |line2| >= 69
  }

  /**
   * A number read from text, 0 when strconv.ParseFloat rejects it: empty text
   * reads as 0, and text that does not start with a minus sign never reads as
   * a negative number.
   */
  function NumberOr0(text: string): (x: real)
    ensures text == [] ==> x == 0.0
    ensures text != [] && text[0] != '-' ==> x >= 0.0
  {
    ParseFloat(text).GetOr(0.0)
  }

  /**
   * A line-2 field: the window [lo, hi) without surrounding blanks, read as a
   * number. A window of white space reads as 0, and a window without a minus
   * sign never reads as a negative number.
   */
  function Field(line2: string, lo: nat, hi: nat): (x: real)
    requires lo <= hi <= |line2|
    ensures (forall k :: lo <= k < hi ==> IsSpace(line2[k])) ==> x == 0.0
    ensures (forall k :: lo <= k < hi ==> line2[k] != '-') ==> x >= 0.0
  {
    var w := line2[lo..hi];
    var t := TrimSpace(w);
    assert t != [] ==> t[0] == w[LeadingSpaces(w)] == line2[lo + LeadingSpaces(w)];
    assert (forall k :: lo <= k < hi ==> IsSpace(line2[k])) ==> forall k :: 0 <= k < |w| ==> IsSpace(w[k]);
    NumberOr0(t)
  }

  /** A window of blanks reads as 0. */
  lemma BlankFieldReadsZero(line2: string, lo: nat, hi: nat)
    requires lo <= hi <= |line2|
    requires forall k :: lo <= k < hi ==> line2[k] == ' '
    ensures Field(line2, lo, hi) == 0.0
  {
    var w := line2[lo..hi];
    assert forall k :: 0 <= k < |w| ==> IsSpace(w[k]) by {
      forall k | 0 <= k < |w| ensures IsSpace(w[k]) {
        assert w[k] == line2[lo + k];
      }
    }
  }

  /**
   * The epoch year: "20" followed by the first two characters of token 5,
   * through strconv.Atoi; 0 when those are not two digits.
   */
  function EpochYear(token5: string): (year: int)
    requires |token5| >= 2
    ensures AllDigits(token5[..2]) ==> year == 2000 + Digits(token5[..2])
    ensures !AllDigits(token5[..2]) ==> year == 0
    ensures year == 0 || 2000 <= year <= 2099
  {
    var yy := token5[..2];
    var text := "20" + yy;
    assert text[0] == '2';
    if AllDigits(yy) then
      DigitsAppend("20", yy);
      assert Digits("20") == 20 by {
        assert "20"[..1] == "2";
        assert "2"[..0] == "";
      }
      assert Pow10(2) == 100;
      Atoi(text).GetOr(0)
    else
      assert !AllDigits(text) by {
        var i :| 0 <= i < |yy| && !IsDigit(yy[i]);
        assert text[2 + i] == yy[i];
      }
      Atoi(text).GetOr(0)
  }

  /**
   * The epoch day: token 5 after its first two characters. A token of only
   * the two year digits gives day 0, and a day without a minus sign is never
   * negative.
   */
  function EpochDay(token5: string): (day: real)
    requires |token5| >= 2
    ensures |token5| == 2 ==> day == 0.0
    ensures |token5| > 2 && token5[2] != '-' ==> day >= 0.0
  {
    assert |token5| > 2 ==> token5[2..][0] == token5[2];
    NumberOr0(token5[2..])
  }

  /**
   * The first derivative of the mean motion: token 7 with a "0" put in front,
   * so that ".00001157" reads as 0.00001157.
   */
  function MeanMotionDot(token7: string): (dot: real)
    ensures dot >= 0.0
  {
    UnsignedStart("0" + token7);
    NumberOr0("0" + token7)
  }

  /** A token 7 that carries a minus sign reads as 0: "0-..." is not a number. */
  lemma NegativeMeanMotionDotReadsZero(token7: string)
    requires token7 != [] && token7[0] == '-'
    ensures MeanMotionDot(token7) == 0.0
  {
    var s := "0" + token7;
    assert s[1] == '-';
    var k := FirstIndex(s, 'e', 'E');
    assert k >= 2;
    var m := s[..k];
    var p := FirstIndex(m, '.', '.');
    assert p >= 2 by {
      assert m[0] == '0' && m[1] == '-';
    }
    assert !AllDigits(m[..p]) by {
      assert m[..p][1] == '-';
    }
  }

  /** The eccentricity: "0." followed by the blank-trimmed window [26, 33), the TLE's implied decimal point. */
  function Eccentricity(line2: string): (ecc: real)
    requires |line2| >= 33
    ensures ecc >= 0.0
    ensures AllDigits(TrimSpace(line2[26..33])) ==> ecc < 1.0
  {
    var digits := TrimSpace(line2[26..33]);
    assert ("0." + digits)[0] == '0';
    UnsignedStart("0." + digits);
    if AllDigits(digits) then
      ImpliedPointFraction(digits);
      NumberOr0("0." + digits)
    else
      NumberOr0("0." + digits)
  }

  /**
   * ParseTleFromStrings: the orbital elements of a two-line element set. The
   * epoch comes from token 5 of line 1, the mean-motion derivative from token
   * 7; inclination, RAAN, eccentricity, argument of perigee, mean anomaly and
   * mean motion from the windows [8,16), [17,25), [26,33), [34,42), [43,51)
   * and [52,63) of line 2.
   */
  function ParseTleFromStrings(line1: string, line2: string): (element: TleOrbitalElement)
    requires Decodable(line1, line2)
    ensures element.etYear == 0 || 2000 <= element.etYear <= 2099
    ensures element.meanMotionDot >= 0.0
    ensures element.eccentricity >= 0.0
    ensures AllDigits(TrimSpace(line2[26..33])) ==> element.eccentricity < 1.0
  {
    var a := Split(line1, ' ');
    TleOrbitalElement(
      meanAnomaly := Field(line2, 43, 51),
      meanMotion := Field(line2, 52, 63),
      meanMotionDot := MeanMotionDot(a[7]),
      eccentricity := Eccentricity(line2),
      etYear := EpochYear(a[5]),
      etDay := EpochDay(a[5]),
      orbitalInclination := Field(line2, 8, 16),
      raan := Field(line2, 17, 25),
      argumentOfPerigee := Field(line2, 34, 42))
  }

  /** Line 2 agrees with line2' on every column ParseTleFromStrings reads. */
  ghost predicate SameReadColumns(line2: string, line2': string)
    requires |line2| >= 69 && |line2'| >= 69
  {
    forall k :: (8 <= k < 16 || 17 <= k < 25 || 26 <= k < 33 || 34 <= k < 42 || 43 <= k < 51 || 52 <= k < 63)
                ==> line2[k] == line2'[k]
  }

  /** The element depends on line 2 only through its six read windows: other columns are ignored. */
  lemma ReadsOnlyWindows(line1: string, line2: string, line2': string)
    requires Decodable(line1, line2) && Decodable(line1, line2')
    requires SameReadColumns(line2, line2')
    ensures ParseTleFromStrings(line1, line2) == ParseTleFromStrings(line1, line2')
  {
    SameWindow(line2, line2', 8, 16);
    SameWindow(line2, line2', 17, 25);
    SameWindow(line2, line2', 26, 33);
    SameWindow(line2, line2', 34, 42);
    SameWindow(line2, line2', 43, 51);
    SameWindow(line2, line2', 52, 63);
  }

  /**
   * Each line-2 field reads only its own window: two line-2 texts that agree
   * on one window give the same value for that field, whatever the other
   * columns hold. The fields of line 1 do not depend on line 2 at all.
   */
  lemma FieldsReadOwnWindow(line1: string, line2: string, line2': string)
    requires Decodable(line1, line2) && Decodable(line1, line2')
    ensures var e, e' := ParseTleFromStrings(line1, line2), ParseTleFromStrings(line1, line2');
      && (line2[8..16] == line2'[8..16] ==> e.orbitalInclination == e'.orbitalInclination)
      && (line2[17..25] == line2'[17..25] ==> e.raan == e'.raan)
      && (line2[26..33] == line2'[26..33] ==> e.eccentricity == e'.eccentricity)
      && (line2[34..42] == line2'[34..42] ==> e.argumentOfPerigee == e'.argumentOfPerigee)
      && (line2[43..51] == line2'[43..51] ==> e.meanAnomaly == e'.meanAnomaly)
      && (line2[52..63] == line2'[52..63] ==> e.meanMotion == e'.meanMotion)
      && e.etYear == e'.etYear && e.etDay == e'.etDay && e.meanMotionDot == e'.meanMotionDot
  {
  }

  lemma SameWindow(s: string, t: string, lo: nat, hi: nat)
    requires lo <= hi <= |s| && hi <= |t|
    requires forall k :: lo <= k < hi ==> s[k] == t[k]
    ensures s[lo..hi] == t[lo..hi]
  {
  }

  /** ParseTle: the built-in element set. */
  function ParseTle(): (element: TleOrbitalElement)
    ensures element == TleOrbitalElement(
      meanAnomaly := 260.9557,
      meanMotion := 15.06400606,
      meanMotionDot := 0.0,
      eccentricity := 0.0001116,
      etYear := 2025,
      etDay := 117.42924319,
      orbitalInclination := 53.0517,
      raan := 166.3609,
      argumentOfPerigee := 99.1558)
  {
    DefaultPairDecodable();
    DefaultPairValues();
    ParseTleFromStrings(DefaultLine1, DefaultLine2)
  }

  lemma DefaultTokensSplit()
    ensures Split(DefaultLine1, ' ') == DefaultTokens
  {
    forall i | 0 <= i < |DefaultTokens| ensures ' ' !in DefaultTokens[i] {
    }
    SplitJoin(DefaultTokens, ' ');
  }

  lemma DefaultPairDecodable()
    ensures Decodable(DefaultLine1, DefaultLine2)
  {
    assert |DefaultLine2| >= 69 by {
      DefaultLine2Length(DefaultLine2);
    }
    assert |Split(DefaultLine1, ' ')| >= 13 by {
      DefaultTokensSplit();
    }
    DefaultTokensSplit();
  }

  lemma DefaultLine2Length(l: string)
    requires l == DefaultLine2
    ensures |l| == 69
  {
  }

  lemma DefaultPairValues()
    requires Decodable(DefaultLine1, DefaultLine2)
    ensures ParseTleFromStrings(DefaultLine1, DefaultLine2) == TleOrbitalElement(
      meanAnomaly := 260.9557,
      meanMotion := 15.06400606,
      meanMotionDot := 0.0,
      eccentricity := 0.0001116,
      etYear := 2025,
      etDay := 117.42924319,
      orbitalInclination := 53.0517,
      raan := 166.3609,
      argumentOfPerigee := 99.1558)
  {
    DefaultTokensSplit();
    DefaultEpoch();
    DefaultDerivative();
    DefaultWindows();
  }

  lemma DefaultEpoch()
    ensures EpochYear("25117.42924319") == 2025
    ensures EpochDay("25117.42924319") == 117.42924319
  {
    var t := "25117.42924319";
    assert t[..2] == "25";
    Digits2("25");
    assert t[2..] == "117" + "." + "42924319";
    DefaultEpochDay(t[2..]);
  }

  lemma DefaultEpochDay(day: string)
    requires day == "117" + "." + "42924319"
    ensures NumberOr0(day) == 117.42924319
  {
    assert AllDigits("117") && Digits("117") == 117 by { Digits3("117"); }
    EpochDayFraction("42924319");
    PointDecimal("117", "42924319");
  }

  lemma EpochDayFraction(d: string)
    requires d == "42924319"
    ensures AllDigits(d) && Fraction(d) == 0.42924319
  {
    EightDigits(d);
    assert d[..4] == "4292" && d[4..] == "4319";
    Digits4(d[..4]);
    Digits4(d[4..]);
    Pow10Values();
  }

  lemma DefaultDerivative()
    ensures MeanMotionDot("") == 0.0
  {
    assert "0" + "" == "0";
    WholeDecimal("0");
    Digits1("0");
  }

  lemma DefaultWindows()
    ensures Field(DefaultLine2, 8, 16) == 53.0517
    ensures Field(DefaultLine2, 17, 25) == 166.3609
    ensures Eccentricity(DefaultLine2) == 0.0001116
    ensures Field(DefaultLine2, 34, 42) == 99.1558
    ensures Field(DefaultLine2, 43, 51) == 260.9557
    ensures Field(DefaultLine2, 52, 63) == 15.06400606
  {
    var l := DefaultLine2;
    DefaultLine2Windows(l);
    InclinationWindow(l[8..16]);
    RaanWindow(l[17..25]);
    EccentricityWindow(l[26..33]);
    ArgumentOfPerigeeWindow(l[34..42]);
    MeanAnomalyWindow(l[43..51]);
    MeanMotionWindow(l[52..63]);
  }

  /** The six number windows of the built-in line 2. */
  lemma DefaultLine2Windows(l: string)
    requires l == DefaultLine2
    ensures |l| == 69
    ensures l[8..16] == " 53.0517"
    ensures l[17..25] == "166.3609"
    ensures l[26..33] == "0001116"
    ensures l[34..42] == " 99.1558"
    ensures l[43..51] == "260.9557"
    ensures l[52..63] == "15.06400606"
  {
  }

  lemma InclinationWindow(w: string)
    requires w == " 53.0517"
    ensures NumberOr0(TrimSpace(w)) == 53.0517
  {
    assert AllDigits("53") && Digits("53") == 53 by { Digits2("53"); }
    assert AllDigits("0517") && Fraction("0517") == 0.0517 by { Digits4("0517"); Pow10Values(); }
    BlankDecimalWindow(w, "53", "0517");
  }

  lemma RaanWindow(w: string)
    requires w == "166.3609"
    ensures NumberOr0(TrimSpace(w)) == 166.3609
  {
    assert AllDigits("166") && Digits("166") == 166 by { Digits3("166"); }
    assert AllDigits("3609") && Fraction("3609") == 0.3609 by { Digits4("3609"); Pow10Values(); }
    DecimalWindow(w, "166", "3609");
  }

  lemma EccentricityWindow(w: string)
    requires w == "0001116"
    ensures NumberOr0("0." + TrimSpace(w)) == 0.0001116
  {
    EccentricityDigits(w);
    Digits1("0");
    TrimSpaceKeepsTrimmed(w);
    assert "0." + w == "0" + "." + w;
    PointDecimal("0", w);
  }

  lemma EccentricityDigits(w: string)
    requires w == "0001116"
    ensures w != [] && w[0] != ' ' && w[|w| - 1] != ' '
    ensures AllDigits(w) && Fraction(w) == 0.0001116
  {
    assert w == w[..4] + w[4..];
    Digits4(w[..4]);
    Digits3(w[4..]);
    DigitsAppend(w[..4], w[4..]);
    Pow10Values();
  }

  lemma ArgumentOfPerigeeWindow(w: string)
    requires w == " 99.1558"
    ensures NumberOr0(TrimSpace(w)) == 99.1558
  {
    assert AllDigits("99") && Digits("99") == 99 by { Digits2("99"); }
    assert AllDigits("1558") && Fraction("1558") == 0.1558 by { Digits4("1558"); Pow10Values(); }
    BlankDecimalWindow(w, "99", "1558");
  }

  lemma MeanAnomalyWindow(w: string)
    requires w == "260.9557"
    ensures NumberOr0(TrimSpace(w)) == 260.9557
  {
    assert AllDigits("260") && Digits("260") == 260 by { Digits3("260"); }
    assert AllDigits("9557") && Fraction("9557") == 0.9557 by { Digits4("9557"); Pow10Values(); }
    DecimalWindow(w, "260", "9557");
  }

  lemma MeanMotionWindow(w: string)
    requires w == "15.06400606"
    ensures NumberOr0(TrimSpace(w)) == 15.06400606
  {
    assert AllDigits("15") && Digits("15") == 15 by { Digits2("15"); }
    MeanMotionFraction("06400606");
    DecimalWindow(w, "15", "06400606");
  }

  lemma MeanMotionFraction(d: string)
    requires d == "06400606"
    ensures AllDigits(d) && Fraction(d) == 0.06400606
  {
    EightDigits(d);
    assert d[..4] == "0640" && d[4..] == "0606";
    Digits4(d[..4]);
    Digits4(d[4..]);
    Pow10Values();
  }

  /** A window holding a decimal number and nothing else reads as that number. */
  lemma DecimalWindow(window: string, whole: string, frac: string)
    requires AllDigits(whole) && AllDigits(frac) && whole != [] && frac != []
    requires window == whole + "." + frac
    ensures TrimSpace(window) == window
    ensures NumberOr0(TrimSpace(window)) == Digits(whole) as real + Fraction(frac)
  {
    assert window[0] == whole[0];
    assert window[|window| - 1] == frac[|frac| - 1];
    TrimSpaceKeepsTrimmed(window);
    PointDecimal(whole, frac);
  }

  /** A window holding one blank and then a decimal number reads as that number. */
  lemma BlankDecimalWindow(window: string, whole: string, frac: string)
    requires AllDigits(whole) && AllDigits(frac) && whole != [] && frac != []
    requires window == " " + (whole + "." + frac)
    ensures NumberOr0(TrimSpace(window)) == Digits(whole) as real + Fraction(frac)
  {
    DecimalWindow(window[1..], whole, frac);
    TrimSpaceDropsLeadingBlank(window);
  }

  lemma Pow10Values()
    ensures Pow10(4) == 10000
    ensures Pow10(7) == 10000000
    ensures Pow10(8) == 100000000
  {
    assert Pow10(2) == 100;
    assert Pow10(4) == 10000;
    assert Pow10(6) == 1000000;
  }

  lemma Digits1(s: string)
    requires |s| == 1 && AllDigits(s)
    ensures Digits(s) == DigitValue(s[0])
  {
    assert s[..0] == "";
  }

  lemma Digits2(s: string)
    requires |s| == 2 && AllDigits(s)
    ensures Digits(s) == 10 * DigitValue(s[0]) + DigitValue(s[1])
  {
    Digits1(s[..1]);
  }

  lemma Digits3(s: string)
    requires |s| == 3 && AllDigits(s)
    ensures Digits(s) == 100 * DigitValue(s[0]) + 10 * DigitValue(s[1]) + DigitValue(s[2])
  {
    Digits2(s[..2]);
  }

  lemma Digits4(s: string)
    requires |s| == 4 && AllDigits(s)
    ensures Digits(s) == 1000 * DigitValue(s[0]) + 100 * DigitValue(s[1]) + 10 * DigitValue(s[2]) + DigitValue(s[3])
  {
    Digits3(s[..3]);
  }

  /** Eight digits as two groups of four. */
  lemma EightDigits(s: string)
    requires |s| == 8 && AllDigits(s)
    ensures Digits(s) == Digits(s[..4]) * 10000 + Digits(s[4..])
  {
    assert s == s[..4] + s[4..];
    DigitsAppend(s[..4], s[4..]);
    Pow10Values();
  }
}
