/**
 * main.go: the stand-alone program that predates the packages. Its helpers
 * calculateTimeDifference, calculatePerturbationCorrection,
 * transformToEarthFixed, deg2rad and rad2deg have the same text as their
 * pkg counterparts and are modelled once, in Orbital and Util. What differs is
 * modelled here: its own Earth-radius constant, its Newton-Raphson loop (which
 * also counts its steps) and parseTle, which reads the built-in element set
 * and also slices out the fields it only prints.
 */
module Legacy {
  import opened GoMath
  import opened Strings
  import Util
  import Kepler
  import TleParser
  import Model

  /** main.go's own copy of the Earth radius [km]. */
  const EarthRadius: real := 6356.752

  /** The program and the packages use the same Earth radius. */
  lemma SameEarthRadius()
    ensures EarthRadius == Util.EarthRadius
    ensures EarthRadius > 0.0
  {
  }

  /**
   * main.go's NewtonRaphson: ten steps of the Kepler closure from `before`,
   * counting them; the tolerance `a` is not read. It returns what the package
   * solver returns: the tenth iterate and the size of the last step.
   */
  method NewtonRaphson(m: Library, e: real, before: real, a: real) returns (after: real, err: real)
    requires Lawful(m) && 0.0 <= e < 1.0
    ensures after == Kepler.Solve(m, e, before)
    ensures err == Kepler.LastStep(m, e, before)
  {
    var M := before;
    var current := before;
    after := 0.0;
    err := 100.0;
    var count := 0;
    for i := 0 to 10
      invariant count == i
      invariant current == Kepler.Iterate(m, e, M, M, i)
      invariant i > 0 ==> after == current && err == Abs(current - Kepler.Iterate(m, e, M, M, i - 1))
    {
      after := Kepler.Step(m, e, M, current);
      err := Abs(after - current);
      current := after;
      count := count + 1;
    }
  }

  /** The fields parseTle slices out of the built-in element set only to print them. */
  datatype PrintedFields = PrintedFields(
    satelliteNumber: string,                      // a[1]
    internationalDesignator: string,              // a[2]
    secondTimeDerivativeOfTheMeanMotion: string,  // a[9]
    bstarDragTerm: string,                        // a[11]
    elementNumber: string,                        // a[12][0:3]
    checksum1: string,                            // a[12][3:]
    numberOfLaps: string,                         // trimmed line2[63:68]
    checksum2: string                             // line2[68:69]
  )

  /**
   * main.go's parseTle: the same two literal lines as the package's ParseTle,
   * decoded the same way; it also slices out the fields it prints. Token
   * numbers count single-space-separated tokens, so a[9] is the BSTAR term
   * and a[11] is empty.
   */
  function ParseTle(): (r: (Model.TleOrbitalElement, PrintedFields))
    ensures r.0 == TleParser.ParseTle()
    ensures r.1 == PrintedFields("44714U", "19074B", "-58773-4", "", "999", "0", "30108", "4")
  {
    TleParser.DefaultPairDecodable();
    var line1 := TleParser.DefaultLine1;
    var line2 := TleParser.DefaultLine2;
    var a := Split(line1, ' ');
    PrintedDefaults(a, line2);
    var printed := PrintedFields(a[1], a[2], a[9], a[11], a[12][0..3], a[12][3..],
                                 TrimSpace(line2[63..68]), line2[68..69]);
    (TleParser.ParseTleFromStrings(line1, line2), printed)
  }

  /** The printed-only fields of the built-in element set. */
  lemma PrintedDefaults(a: seq<string>, line2: string)
    requires a == Split(TleParser.DefaultLine1, ' ') && line2 == TleParser.DefaultLine2
    ensures |a| >= 13 && |a[12]| >= 3 && |line2| >= 69
    ensures a[1] == "44714U" && a[2] == "19074B" && a[9] == "-58773-4" && a[11] == ""
    ensures a[12][0..3] == "999" && a[12][3..] == "0"
    ensures TrimSpace(line2[63..68]) == "30108" && line2[68..69] == "4"
  {
    TleParser.DefaultTokensSplit();
    PrintedTokens(a);
    PrintedColumns(line2);
  }

  lemma PrintedTokens(a: seq<string>)
    requires a == TleParser.DefaultTokens
    ensures |a| >= 13 && |a[12]| >= 3
    ensures a[1] == "44714U" && a[2] == "19074B" && a[9] == "-58773-4" && a[11] == ""
    ensures a[12][0..3] == "999" && a[12][3..] == "0"
  {
    assert a[12] == "9990";
  }

  lemma PrintedColumns(line2: string)
    requires line2 == TleParser.DefaultLine2
    ensures |line2| >= 69
    ensures TrimSpace(line2[63..68]) == "30108" && line2[68..69] == "4"
  {
    assert line2[63..68] == "30108";
    TrimSpaceKeepsTrimmed(line2[63..68]);
  }
}
