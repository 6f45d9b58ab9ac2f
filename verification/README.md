# tle-orbit-solver in Dafny

A model of the core of `tle-orbit-solver`, a Go program that predicts where
Starlink satellites are. It reads two-line element sets (TLE), propagates each
satellite's orbit to a target instant and writes the positions as a KML
document.

The modules follow the Go packages:

- `TleFetcher` (pkg/tle/fetcher.go) splits a catalogue of three-line blocks
  (name line, line 1, line 2) at newlines. It provides:
  - the search by name (`FindSatelliteByName`);
  - the listing of every satellite (`GetAllSatellites`);
  - the name-to-lines map (`GetSatelliteAndLines`).

  The three are imperative loops here as in Go. The two scans are proved
  against one scan function, `EntriesFrom`.
- `TleParser` (pkg/tle/parser.go) reads line 1 by single-space token number and
  line 2 by fixed column windows. Numbers go through strconv (`Strconv`), and a
  number that fails to parse reads as 0. `ParseTle` decodes the built-in
  STARLINK-1008 element set. Its first derivative of the mean motion reads as
  0, not -0.00001157. Split at single spaces, that field is token 6. The code
  reads token 7, the empty string between the two blanks that follow it, and
  "0" + "" parses to 0.
- `Kml` (pkg/kml/generator.go) builds the document as a loop that appends one
  placemark per requested satellite that has a location. fmt's `%.Nf` and
  `time.RFC3339` formatting are parameters (`Formatting`); the fixed text is
  the generator's own, tabs included.
- `Kepler` (pkg/kepler/kepler.go) has the Newton step of Kepler's equation
  E - e sin E = M and the ten-step solver.
- `Orbital` (pkg/orbital/calculations.go) is the propagation pipeline, in this
  order:
  - elapsed time;
  - mean anomaly;
  - semi-major axis;
  - orbital-plane position;
  - secular perturbation of the argument of perigee and of the node;
  - rotation to the equatorial frame;
  - rotation by the sidereal angle to the Earth-fixed frame;
  - latitude, longitude and altitude.
- `Util` (pkg/util/conversion.go) has the Earth radius and the degree/radian
  conversions.
- `Legacy` (main.go) is the stand-alone program. Its other helpers have the
  same text as the package functions, so the `Orbital` and `Util` members
  model those too:
  - calculateTimeDifference (main.go:268-289);
  - calculateOrbitalSemiAxes (291-297);
  - calculateMeanAnomaly (299-312);
  - calculatePositionInOrbitalPlane (314-320);
  - calculatePerturbationCorrection (322-330);
  - deg2rad and rad2deg (332-338);
  - transformToEquatorial (340-374);
  - transformToEarthFixed (376-408);
  - calculateLatLong (410-420);
  - calculateAltitude (422-425).

  What differs is modelled in `Legacy`. Its own `EarthRadius` and its
  Newton-Raphson loop (which also counts steps) are proved equal to the
  package versions. Its `parseTle` holds the package's two literals
  (main.go:94-95 are parser.go:14-15) and the same decoding text
  (main.go:106-132 are parser.go:33-59), so `Legacy.ParseTle` reuses those
  definitions. It models only what parseTle adds: the fields it slices out
  to print (a[1], a[2], a[9], a[11], the two parts of a[12], the lap count
  and the line-2 checksum).

Supporting modules:

- `Model` holds the records of pkg/model/types.go.
- `Outcomes` holds Option/Result.
- `Strings`, `Strconv` and `GoTime` model the parts of Go's `strings`,
  `strconv` and `time` that the code relies on.
- `GoMath` has `math.Pi`, `math.Abs`, truncation by `int64(x)`, and a
  `Library` value. `Library` carries sin, cos, sqrt, cbrt, pow, asin and atan2.

Every caller passes that `Library` in, and the proofs use only the laws in
`GoMath.Lawful`:

- sin 0 = 0, cos 0 = 1 and sqrt 0 = 0;
- sin² + cos² = 1;
- cos lies in [-1, 1];
- sqrt is non-negative;
- cbrt and pow of a positive base are positive.

Numbers are exact reals. Instants are integer Unix seconds in UTC.

## Model

| member | source | states |
|---|---|---|
| TleFetcher.Lines | pkg/tle/fetcher.go:56 | strings.Split at "\n" gives at least one line, and no line holds a newline |
| TleFetcher.FirstMatchFrom | pkg/tle/fetcher.go:59-64 | the result is the smallest index at or after `from` with two more lines after it whose trimmed text contains the name; None means no such index exists |
| TleFetcher.FindSatelliteByName | pkg/tle/fetcher.go:55-67 | returns the raw lines i+1 and i+2 for the first matching name line i; with no match it returns the error "satellite not found" |
| TleFetcher.FirstMatchIsFirst | pkg/tle/fetcher.go:59-64 | a matching line with no match before it is the one found |
| TleFetcher.EmptyNameMatchesFirst | pkg/tle/fetcher.go:61 | an empty name is contained in every line, so any text of three or more lines yields index 0 |
| TleFetcher.ShortTextHasNoMatch | pkg/tle/fetcher.go:59 | fewer than three lines never match, whatever the name |
| TleFetcher.EntriesFrom | pkg/tle/fetcher.go:75-88 | the scan from line `from` yields at most one entry per three remaining lines; EntriesRecognised, EntriesInTextOrder and CatalogueScanned say which entries |
| TleFetcher.EntriesRecognised | pkg/tle/fetcher.go:77-82 | every scanned entry sits at a line followed by lines starting "1 " and "2 ", carries that line trimmed and non-blank, and carries the two lines after it |
| TleFetcher.EntriesInTextOrder | pkg/tle/fetcher.go:86 | scanned entries are in text order, their name lines at least three apart |
| TleFetcher.NamesOf | pkg/tle/fetcher.go:83 | the names of the entries, one per entry, in the same order |
| TleFetcher.GetAllSatellites | pkg/tle/fetcher.go:70-91 | returns exactly the names of the scanned entries, in text order, duplicates kept and blank names left out |
| TleFetcher.MapOf | pkg/tle/fetcher.go:105-108 | plain definition (each entry in turn sets its name to its two lines); MapKeys proves its keys are the entry names and LastOccurrenceWins that each value is the lines of the last entry with that name |
| TleFetcher.MapKeys | pkg/tle/fetcher.go:107 | a name is a key of the map exactly when some entry has that name |
| TleFetcher.GetSatelliteAndLines | pkg/tle/fetcher.go:94-115 | returns the map built by setting, entry after entry in text order, each name to [line 1, line 2] |
| TleFetcher.LastOccurrenceWins | pkg/tle/fetcher.go:105-108 | every value in the map is the two lines of the last entry with that name |
| TleFetcher.KeysAreNames | pkg/tle/fetcher.go:94-115 | the keys of GetSatelliteAndLines are exactly the names GetAllSatellites lists |
| TleFetcher.BlankNameSkipsTriple | pkg/tle/fetcher.go:81-86 | a triple whose name line is all white space yields no entry but still consumes three lines |
| TleFetcher.CatalogueScanned | pkg/tle/fetcher.go:75-88 | the scan of k consecutive triples with non-blank names, followed by at most two lines, finds exactly those k entries in order, each with its index, trimmed name and two lines |
| TleFetcher.CatalogueListed | pkg/tle/fetcher.go:70-91 | for such a catalogue GetAllSatellites returns the k trimmed name lines, in text order |
| TleFetcher.CatalogueKeys | pkg/tle/fetcher.go:94-115 | for such a catalogue the keys of GetSatelliteAndLines are exactly the k trimmed name lines |
| Strings.LeadingSpaces | pkg/tle/fetcher.go:60 | the count is the length of the maximal run of white space at the front |
| Strings.TrailingSpaces | pkg/tle/fetcher.go:60 | the count is the length of the maximal run of white space at the back |
| Strings.TrimSpace | pkg/tle/fetcher.go:60 | the result is the input with its leading and trailing white space removed: the slice right after the leading white space, followed in the input only by white space, and neither starting nor ending with white space; it is empty exactly when the input is all white space |
| Strings.TrimSpaceKeepsTrimmed | pkg/tle/parser.go:51-58 | a string with no white space at either end is unchanged |
| Strings.TrimSpaceDropsLeadingBlank | pkg/tle/parser.go:51 | a leading blank does not change the trimmed result |
| Strings.TrimSpaceIdempotent | pkg/tle/fetcher.go:60 | trimming twice equals trimming once |
| Strings.ContainsEmpty | pkg/tle/fetcher.go:61 | strings.Contains(s, "") holds for every s |
| Strings.IsSpace | pkg/tle/fetcher.go:60 | plain definition of unicode.IsSpace; SpaceCharacters states the characters that matter for TLE text |
| Strings.SpaceCharacters | pkg/tle/fetcher.go:60 | blank, tab, newline and carriage return are white space; no digit, point, sign or exponent marker is |
| Strings.HasPrefix | pkg/tle/fetcher.go:78-79 | s begins with prefix exactly when prefix is no longer than s and agrees with s character by character |
| Strings.Contains | pkg/tle/fetcher.go:61 | a contained text is no longer than the text, and a prefix is always contained |
| Strings.Join | pkg/tle/parser.go:22 | the joined text starts with the first piece, and, when no piece holds the separator, holds the separator exactly when there are two or more pieces |
| Strings.Split | pkg/tle/parser.go:22 | at least one piece, no piece holds the separator, and joining the pieces gives back the input |
| Strings.SplitNoSeparator | pkg/tle/parser.go:22 | a string without the separator splits into itself alone |
| Strings.SplitAtSeparator | pkg/tle/parser.go:22 | p + sep + rest splits into p followed by the pieces of rest |
| Strings.SplitJoin | pkg/tle/parser.go:22 | Split inverts Join when no piece holds the separator |
| Strconv.Digits | pkg/tle/parser.go:35 | the value of n digits is below 10^n |
| Strconv.DigitsAppend | pkg/tle/parser.go:35 | the value of a + b is value(a) * 10^\|b\| + value(b) |
| Strconv.Atoi | pkg/tle/parser.go:35 | an empty text is a syntax error; a non-empty all-digit text reads as its digits' value |
| Strconv.FirstIndex | pkg/tle/parser.go:36 | the result is the first position of either character, or the length when neither occurs |
| Strconv.Mantissa | pkg/tle/parser.go:36 | an accepted mantissa is non-negative |
| Strconv.Fraction | pkg/tle/parser.go:36 | the digits after a point are worth a value in [0, 1) |
| Strconv.MantissaOfParts | pkg/tle/parser.go:36 | whole.frac as a mantissa is whole + frac / 10^\|frac\| |
| Strconv.Scale | pkg/tle/parser.go:36 | scaling by a power of ten keeps a non-negative value non-negative |
| Strconv.Unsigned | pkg/tle/parser.go:36 | an unsigned mantissa with optional exponent never reads as negative, and empty text is an error |
| Strconv.ParseFloat | pkg/tle/parser.go:36 | empty text is a syntax error |
| Strconv.UnsignedWithoutExponent | pkg/tle/parser.go:36 | text without an exponent marker is read as a bare mantissa |
| Strconv.SignedForms | pkg/tle/parser.go:36 | a leading "+" keeps the unsigned value, a leading "-" negates it, and the text is an error exactly when the rest is |
| Strconv.ExponentForm | pkg/tle/parser.go:36 | mantissa, then e or E, then an optional sign and digits, reads as the mantissa times ten to that integer; it is an error when either part is malformed |
| Strconv.PointDecimal | pkg/tle/parser.go:51-59 | "whole.frac" parses to whole + frac / 10^\|frac\| |
| Strconv.PointDecimalShape | pkg/tle/parser.go:51-59 | "whole.frac" has no sign, no exponent marker, and its first point right after whole |
| Strconv.WholeDecimal | pkg/tle/parser.go:37 | a digit string without a point parses to the integer it spells |
| Strconv.ImpliedPointFraction | pkg/tle/parser.go:53 | "0." followed by digits parses to a value in [0, 1) |
| Strconv.UnsignedNonNegative | pkg/tle/parser.go:36 | text without a sign never parses to a negative value |
| Strconv.UnsignedStart | pkg/tle/parser.go:37 | text that does not start with a sign parses, if at all, to a non-negative value |
| TleParser.BlankFieldReadsZero | pkg/tle/parser.go:51-59 | a line-2 window of blanks reads as 0 |
| TleParser.Decodable | pkg/tle/parser.go:22-59 | the slices taken are in range: 13 tokens, token 5 of 2 and token 12 of 3 characters, line 2 of 69; such a line 1 holds a blank |
| TleParser.NumberOr0 | pkg/tle/parser.go:36 | a rejected number reads as 0: empty text gives 0, and text not starting with a minus sign never gives a negative value |
| TleParser.Field | pkg/tle/parser.go:51-59 | a line-2 window of white space reads as 0, and one without a minus sign never reads as negative |
| TleParser.EpochDay | pkg/tle/parser.go:36 | a token 5 of only the two year digits gives day 0, and a day not starting with a minus sign is never negative |
| TleParser.EpochYear | pkg/tle/parser.go:35 | "20" + the first two characters of token 5 gives 2000 + their value when they are digits, and 0 otherwise |
| TleParser.MeanMotionDot | pkg/tle/parser.go:37 | "0" + token 7 never reads as negative |
| TleParser.NegativeMeanMotionDotReadsZero | pkg/tle/parser.go:37 | a token 7 with a minus sign reads as 0, because "0-…" is not a number |
| TleParser.Eccentricity | pkg/tle/parser.go:53 | the eccentricity is non-negative, and below 1 when window [26,33) trims to digits |
| TleParser.ParseTleFromStrings | pkg/tle/parser.go:21-83 | the epoch year is 0 or in 2000..2099; the mean-motion derivative and the eccentricity are non-negative; the eccentricity is below 1 for an all-digit window |
| TleParser.ReadsOnlyWindows | pkg/tle/parser.go:50-59 | two line-2 texts that agree on the six read windows decode to the same element |
| TleParser.FieldsReadOwnWindow | pkg/tle/parser.go:50-59 | each line-2 field reads only its own window: equal [8,16) gives equal inclination, [17,25) RAAN, [26,33) eccentricity, [34,42) argument of perigee, [43,51) mean anomaly, [52,63) mean motion; the line-1 fields do not depend on line 2 |
| TleParser.ParseTle | pkg/tle/parser.go:12-18 | the built-in element set decodes to M0 260.9557, n 15.06400606, n' 0, e 0.0001116, epoch 2025 day 117.42924319, i 53.0517, RAAN 166.3609, ω 99.1558 |
| TleParser.DefaultTokensSplit | pkg/tle/parser.go:14 | the built-in line 1 splits into its 13 single-space tokens |
| TleParser.DefaultPairDecodable | pkg/tle/parser.go:14-17 | the built-in pair can be sliced without a panic |
| TleParser.DefaultPairValues | pkg/tle/parser.go:14-17 | the built-in pair decodes to the values above |
| TleParser.DefaultEpoch | pkg/tle/parser.go:35-36 | token 5 "25117.42924319" gives year 2025 and day 117.42924319 |
| TleParser.DefaultEpochDay | pkg/tle/parser.go:36 | "117.42924319" parses to 117.42924319 |
| TleParser.DefaultDerivative | pkg/tle/parser.go:37 | an empty token 7 reads as 0 |
| TleParser.DefaultWindows | pkg/tle/parser.go:51-59 | the six windows of the built-in line 2 read as 53.0517, 166.3609, 0.0001116, 99.1558, 260.9557 and 15.06400606 |
| TleParser.DefaultLine2Windows | pkg/tle/parser.go:15 | the built-in line 2 has 69 columns and these six window texts |
| TleParser.InclinationWindow | pkg/tle/parser.go:51 | " 53.0517" reads as 53.0517 |
| TleParser.RaanWindow | pkg/tle/parser.go:52 | "166.3609" reads as 166.3609 |
| TleParser.EccentricityWindow | pkg/tle/parser.go:53 | "0." + "0001116" reads as 0.0001116 |
| TleParser.ArgumentOfPerigeeWindow | pkg/tle/parser.go:54 | " 99.1558" reads as 99.1558 |
| TleParser.MeanAnomalyWindow | pkg/tle/parser.go:55 | "260.9557" reads as 260.9557 |
| TleParser.MeanMotionWindow | pkg/tle/parser.go:58-59 | "15.06400606" reads as 15.06400606 |
| TleParser.DecimalWindow | pkg/tle/parser.go:51-59 | a window holding only whole.frac is unchanged by trimming and reads as that number |
| TleParser.BlankDecimalWindow | pkg/tle/parser.go:51-59 | a window of one blank then whole.frac reads as that number |
| Kml.Shown | pkg/kml/generator.go:34-38 | the shown names are at most as many as requested, all have a location, and a name is shown exactly when it was requested and has a location |
| Kml.FixedFloat | pkg/kml/generator.go:54-60 | a NaN value prints as "NaN" whatever the precision; a finite one goes through %.nf |
| Kml.Header | pkg/kml/generator.go:13-31 | plain definition; HeaderLayout states its layout |
| Kml.HeaderLayout | pkg/kml/generator.go:13-31 | the header is the fixed opening text, then the timestamp, and ends with the satellite style block |
| Kml.Coordinates | pkg/kml/generator.go:49 | plain definition; CoordinatesLayout and PlacemarkCoordinates state its content |
| Kml.CoordinatesLayout | pkg/kml/generator.go:49-60 | the element opens with "<coordinates>", the longitude and a comma; a NaN latitude shows as ",NaN," |
| Kml.Placemark | pkg/kml/generator.go:41-60 | plain definition; NameNotEscaped and PlacemarkCoordinates state what it holds |
| Kml.Body | pkg/kml/generator.go:34-63 | plain definition of the loop's output; BodyEmpty, BodyAppend and BodyIsPlacemarksOfShown state it |
| Kml.BodyEmpty | pkg/kml/generator.go:34-63 | the loop appends nothing exactly when no requested name has a location |
| Kml.Placemarks | pkg/kml/generator.go:34-63 | the placemarks of a list of located names are empty exactly when the list is |
| Kml.GenerateKML | pkg/kml/generator.go:11-70 | the document is the header with the RFC 3339 timestamp, then one placemark per requested satellite with a location, in request order, then the footer |
| Kml.BodyAppend | pkg/kml/generator.go:34-63 | the placemarks of a concatenated request list are the two lists' placemarks in order |
| Kml.BodyIsPlacemarksOfShown | pkg/kml/generator.go:34-63 | the loop's output is one placemark per shown name, in order |
| Kml.AllLocatedAllShown | pkg/kml/generator.go:34-63 | when every request has a location, all are shown, in order and with repeats |
| Kml.NoneLocatedNoneShown | pkg/kml/generator.go:35-38 | when no request has a location, nothing is shown |
| Kml.NothingLocatedGivesEmptyDocument | pkg/kml/generator.go:11-70 | with nothing located the document is the header directly followed by the footer |
| Kml.RepeatsKept | pkg/kml/generator.go:34-63 | a satellite requested twice gets two identical placemarks |
| Kml.DocumentFrame | pkg/kml/generator.go:13-67 | the document starts with the fixed header text, carries the timestamp right after it and ends with the footer "</Document>\n</kml>" |
| Kml.PlacemarkCoordinates | pkg/kml/generator.go:49-60 | each placemark holds the coordinates longitude, latitude (6 decimals), altitude × 1000 (no decimals) |
| Kml.NameNotEscaped | pkg/kml/generator.go:42-55 | the satellite name goes into `<name>` verbatim, with no XML escaping |
| GoMath.Abs | pkg/kepler/kepler.go:30 | math.Abs is non-negative and equals x or -x |
| GoMath.Trunc | pkg/orbital/calculations.go:154 | int64(x) truncates toward zero: the integer between 0 and x within distance 1 of x |
| GoMath.Frac | pkg/orbital/calculations.go:154 | x - int64(x) lies in [0, 1) for x >= 0 and in (-1, 0] for x < 0, and differs from x by an integer |
| Kepler.DivisorPositive | pkg/kepler/kepler.go:13 | the divisor 1 - e cos E is positive for 0 <= e < 1 |
| Kepler.Step | pkg/kepler/kepler.go:6-16 | a root of Kepler's equation is a fixed point of the step; for e = 0 the step lands on M |
| Kepler.Iterate | pkg/kepler/kepler.go:28-32 | iteration started at a root of E - e sin E = M stays there; for e = 0 every iterate from the first on is M |
| Kepler.Solve | pkg/kepler/kepler.go:19-35 | the returned anomaly is M when M already solves the equation, and for e = 0 |
| Kepler.LastStep | pkg/kepler/kepler.go:28-34 | the returned error is non-negative, and 0 once the ninth iterate solves the equation or when e = 0 |
| Kepler.ConvergedStays | pkg/kepler/kepler.go:28-32 | once an iterate solves the equation, every later iterate equals it |
| Kepler.NewtonRaphson | pkg/kepler/kepler.go:19-35 | returns the 10th iterate started from M itself and the error \|E10 - E9\|, which is non-negative |
| Util.Deg2Rad | pkg/util/conversion.go:9-11 | keeps the sign and zero, and maps 180 to π |
| Util.Rad2Deg | pkg/util/conversion.go:14-16 | keeps the sign and zero, and maps π to 180 |
| Util.ConversionsInverse | pkg/util/conversion.go:9-16 | the two conversions are inverse to each other |
| Util.ConversionsIncreasing | pkg/util/conversion.go:9-16 | both conversions are strictly increasing |
| GoTime.IsLeap | pkg/orbital/calculations.go:119 | plain definition of the Gregorian leap-year rule (divisible by 4, and not by 100 unless by 400); YearLength states its effect on year lengths |
| GoTime.LeapsThrough | pkg/orbital/calculations.go:119 | plain definition: the leap years among 1..n; YearLength states that consecutive counts differ by one exactly in a leap year |
| GoTime.DaysBefore | pkg/orbital/calculations.go:119 | plain definition: days from 1970-01-01 to January 1 of a year; YearLength and DaysBeforeMonotone state it |
| GoTime.YearStart | pkg/orbital/calculations.go:118-125 | plain definition of time.Date(y, January, 1, 0, 0, 0, 0, UTC).Unix() in the proleptic Gregorian calendar, also used at calculations.go:223; YearLength, YearStartMonotone, YearOf and KnownYearStarts state it |
| GoTime.YearLength | pkg/orbital/calculations.go:119 | a year lasts 366 days if it is a Gregorian leap year and 365 days otherwise |
| GoTime.DaysBeforeMonotone | pkg/orbital/calculations.go:119 | a later year starts at least 365 days per year later |
| GoTime.YearStartMonotone | pkg/orbital/calculations.go:119 | later years start later |
| GoTime.YearAtOrBelow | pkg/orbital/calculations.go:119 | the year found starts no later than the given day |
| GoTime.YearUp | pkg/orbital/calculations.go:119 | the year found contains the given day |
| GoTime.YearOf | pkg/orbital/calculations.go:119 | Time.Year: the instant lies between the start of its year and the start of the next |
| GoTime.YearOfUnique | pkg/orbital/calculations.go:119 | that year is the only one whose span contains the instant |
| GoTime.KnownYearStarts | pkg/orbital/calculations.go:223 | 1970-01-01, 2006-01-01 and 2025-01-01 are Unix 0, 1136073600 and 1735689600 |
| Orbital.DaysIntoYear | pkg/orbital/calculations.go:119-120 | the 1-based day of year lies in [1, 367) |
| Orbital.EpochSeconds | pkg/orbital/calculations.go:124-127 | for a non-negative epoch day, truncating to nanoseconds and then to seconds equals flooring 86400 × etDay; a negative day gives no positive count |
| Orbital.TimeDifference | pkg/orbital/calculations.go:115-136 | panics "TargetTime < ET" exactly when the target's day of year precedes the epoch's; otherwise the result is non-negative and adds to the epoch offset to give the target's day of year |
| Orbital.EpochYearIgnored | pkg/orbital/calculations.go:124-127 | the epoch year does not influence the elapsed time |
| Orbital.CalculateMeanAnomaly | pkg/orbital/calculations.go:148-161 | the result lies in [0, 2π) for a non-negative revolution count and in (-2π, 0] for a negative one |
| Orbital.MeanAnomalyRevs | pkg/orbital/calculations.go:150 | at t = 0 the revolution count is m0/360; with non-negative rates and t it is at least that |
| Orbital.MeanAnomalyRevsMonotone | pkg/orbital/calculations.go:150 | with non-negative rates, a later time never gives fewer revolutions |
| Orbital.MeanAnomalyAtEpoch | pkg/orbital/calculations.go:150-156 | at t = 0 a mean anomaly in [0°, 360°) comes back unchanged, in radians |
| Orbital.SemiMajorAxis | pkg/orbital/calculations.go:139-145 | the semi-major axis is positive for any non-zero mean motion |
| Orbital.PositionInOrbitalPlane | pkg/orbital/calculations.go:164-170 | (u, v) lies on the ellipse of semi-axes a and a√(1 - e²) centred a·e behind the focus; at E = 0 it is the perigee (a(1 - e), 0) |
| Orbital.DriftScale | pkg/orbital/calculations.go:176-178 | the shared denominator π (a/R)^3.5 is positive |
| Orbital.PerigeeRate | pkg/orbital/calculations.go:175-176 | the perigee advances exactly when sin² i < 0.8 and recedes exactly when sin² i > 0.8 |
| Orbital.NodeRate | pkg/orbital/calculations.go:177-178 | the node rate has the sign of cos i and is at most 180 × 0.174 / (π (a/R)^3.5) in size |
| Orbital.PerturbationCorrection | pkg/orbital/calculations.go:173-181 | at t = 0 both angles are unchanged |
| Orbital.PerturbationAffine | pkg/orbital/calculations.go:175-178 | both corrected angles are affine in t: the line through their values at t = 0 and t = 1 |
| Orbital.Apply | pkg/orbital/calculations.go:211 | plain definition of the product of a 3×3 matrix with the column vector; MulApply states how it composes |
| Orbital.Mul | pkg/orbital/calculations.go:209-210 | plain definition of gonum's Dense.Mul on 3×3 matrices; MulApply states that applying the product applies the right factor first |
| Orbital.MulApply | pkg/orbital/calculations.go:209-211 | applying a product matrix applies its factors in turn, the right one first |
| Orbital.TransformToEquatorial | pkg/orbital/calculations.go:184-218 | the gonum product applied to (u, v, 0) is rotation by the argument of perigee, then the inclination, then the RAAN |
| Orbital.EquatorialAtZeroAngles | pkg/orbital/calculations.go:184-218 | with all three angles zero the position is (u, v, 0) |
| Orbital.RotZ | pkg/orbital/calculations.go:186-197 | plain definition; RotZRotation and RotZLength state it is a rotation |
| Orbital.RotX | pkg/orbital/calculations.go:190-193 | plain definition; RotXRotation and RotXLength state it is a rotation |
| Orbital.RotZRotation | pkg/orbital/calculations.go:186-197 | the matrix about z is orthonormal, and the identity for angle 0 |
| Orbital.RotXRotation | pkg/orbital/calculations.go:190-193 | the matrix about x is orthonormal, and the identity for angle 0 |
| Orbital.RotZLength | pkg/orbital/calculations.go:186-197 | rotation about z preserves length |
| Orbital.RotXLength | pkg/orbital/calculations.go:190-193 | rotation about x preserves length |
| Orbital.EquatorialPreservesRadius | pkg/orbital/calculations.go:184-218 | the equatorial position is as far from the centre as (u, v) |
| Orbital.SiderealCycles | pkg/orbital/calculations.go:223-226 | 0.27644444444 cycles at 2006-01-01T00:00:00Z, and no fewer afterwards |
| Orbital.SiderealDay | pkg/orbital/calculations.go:226 | one day later adds 1.002737909 cycles |
| Orbital.SiderealAngle | pkg/orbital/calculations.go:223-230 | the sidereal angle lies in [0, 2π) for non-negative cycles and in (-2π, 0] for negative ones |
| Orbital.SiderealAngleSince2006 | pkg/orbital/calculations.go:223-230 | from 2006-01-01 on, the angle lies in [0, 2π) |
| Orbital.TransformToEarthFixed | pkg/orbital/calculations.go:221-253 | the Earth-fixed rotation keeps z |
| Orbital.EarthFixedKeepsAxisDistance | pkg/orbital/calculations.go:235-252 | the Earth-fixed rotation keeps x² + y² |
| Orbital.EarthFixedKeepsRadius | pkg/orbital/calculations.go:221-253 | the Earth-fixed position is as far from the centre as the equatorial one |
| Orbital.CalculateLatLong | pkg/orbital/calculations.go:256-266 | latitude is NaN exactly when the radius is 0; longitude is atan2(y, x) in degrees |
| Orbital.OriginHasNoLatitude | pkg/orbital/calculations.go:258 | the Earth's centre has a NaN latitude |
| Orbital.CalculateAltitude | pkg/orbital/calculations.go:269-272 | altitude plus the Earth radius is the distance from the centre, so it is at least -EarthRadius |
| Orbital.CalculateVelocity | pkg/orbital/calculations.go:99-112 | the speed is non-negative, and zero for two equal positions |
| Orbital.CalculateSatelliteLocation | pkg/orbital/calculations.go:16-96 | panics exactly when calculateTimeDifference does; otherwise the altitude and latitude/longitude are those of the Earth-fixed position, and the velocity is left 0 |
| Orbital.EccentricAnomalyAt | pkg/orbital/calculations.go:43-47 | for a circular orbit the eccentric anomaly is the mean anomaly |
| Orbital.OrbitalPlaneAt | pkg/orbital/calculations.go:37-52 | the position lies on the orbit ellipse fixed by the mean motion's semi-major axis and the eccentricity |
| Orbital.EquatorialAt | pkg/orbital/calculations.go:56-68 | at any elapsed time the equatorial position is as far from the centre as the orbital-plane position |
| Orbital.LocationRadius | pkg/orbital/calculations.go:16-96 | the propagated Earth-fixed position is as far from the centre as the orbital-plane position |
| Orbital.LocationIsEarthFixed | pkg/orbital/calculations.go:16-96 | the pipeline's stage order: when the target is not before the epoch, the returned x, y, z are the Earth-fixed rotation of the perturbed equatorial position at the elapsed time |
| Orbital.CircularOrbitAtEpoch | pkg/orbital/calculations.go:43-47 | for e = 0 at the epoch, the eccentric anomaly is the element's mean anomaly in radians |
| Legacy.SameEarthRadius | main.go:13 | the program's Earth radius equals pkg/util's, and it is positive |
| Legacy.NewtonRaphson | main.go:50-69 | the counting loop returns the same anomaly and error as the package solver |
| Legacy.ParseTle | main.go:91-156 | the element is the package decoding of the same two literals; the printed fields are "44714U", "19074B", "-58773-4", "", "999", "0", "30108", "4" |
| Legacy.PrintedDefaults | main.go:106-114 | the printed-only fields of the built-in set, including the empty BSTAR token a[11] |
| Legacy.PrintedTokens | main.go:106-114 | tokens 1, 2, 9, 11 and the two parts of token 12 of the built-in line 1 |
| Legacy.PrintedColumns | main.go:135-136 | the lap count "30108" and checksum "4" of the built-in line 2 |

## Left out

- The fetch functions (FetchStarlinkTLEData, FetchStarlinkTLEDataFromLocalFile, FetchStarlinkTLEDataFromCelesTrak) read a file or make an HTTP request. They are I/O; the model starts from the text they return.
- The debug printing in the parser, the propagator and main.go is left out, and so are PrintTleParameters, printTleParameters and pkg/util/logging.go. They only write to standard output.
- main.go's main() reads the clock (time.Now). Its calculateVelocity only prints the speed, which `Orbital.CalculateVelocity` already computes.
- main.go's calculateSatelliteLocation is the package pipeline with the same helpers. Its solver is `Legacy.NewtonRaphson`, proved equal to the package one.
- The semi-minor axis b of calculateOrbitalSemiAxes is computed but never used, so it is not modelled.
- Floating point is modelled as exact real arithmetic, with no rounding, overflow or infinities. The one NaN that matters, latitude at the Earth's centre, is kept.
- The transcendental functions are not computed. They are parameters with the laws listed above.
- Strconv.ParseFloat: covers sign, digits, point and exponent only. It leaves out inf, nan, hexadecimal and underscore forms, and range errors.
- GoMath.Trunc: does not model int64 overflow of float64(int64(x)) for |x| >= 2^63, because the revolution counts involved stay far below it.
- Orbital.EpochSeconds: does not model the int64 overflow of time.Duration for epoch days beyond about 106 751.
- Times are integer Unix seconds in UTC, and sub-second parts are dropped. CalculateSatelliteLocation converts the target to UTC first, so no zone is lost there.
- Kml.GenerateKML: the timestamp is an instant, not a zoned time. Go formats it in the caller's own time zone, so a non-UTC time prints its offset (such as "+09:00") instead of "Z"; the model's `rfc3339` parameter sees only the instant and drops that offset.
- Kml.GenerateKML: the locations map holds values, so a nil *SatLocation (which would panic in Go) is not modelled. fmt's %.Nf and time.RFC3339 text are parameters, not computed.
- Orbital.CalculateSatelliteLocation, Kepler.Step, Kepler.NewtonRaphson and Legacy.NewtonRaphson: require 0 <= e < 1, and the propagator also a non-zero mean motion. TleParser.ParseTleFromStrings can produce e >= 1 from a window with an exponent, such as "1234e56" read as "0.1234e56". With e >= 1 the Newton divisor can vanish, and with a zero mean motion the semi-major axis divides by zero. Go returns Inf/NaN there, which the real-number model cannot represent.
- Orbital.TransformToEquatorial: the gonum matrices, updated in place by Dense.Mul, are modelled as immutable 3×3 values.
- TleParser.ParseTleFromStrings: requires the slices it takes to be in range (`Decodable`). Go panics otherwise, and that panic is not modelled.
- Strings and TleParser.ParseTleFromStrings: strings are sequences of characters, while Go strings are byte strings. The token prefixes (`a[5][0:2]`, `a[12][0:3]`), the line-2 windows and the `len(line2) >= 69` bound count UTF-8 bytes in Go, so the model matches Go only for ASCII text; a non-ASCII character before column 69 would shift every later window in Go.
