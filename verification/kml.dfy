/**
 * pkg/kml/generator.go: a KML document with one placemark per satellite that
 * has a computed location. Number and time formatting (fmt's %.Nf verbs and
 * time.RFC3339) are parameters; the document around them is fixed text.
 */
module Kml {
  import opened Model
  import opened Strings

  /**
   * The formatting the generator relies on: `fixed(x, n)` is fmt's "%.nf" of a
   * finite number, `rfc3339(t)` is time.Format(time.RFC3339) of the instant t
   * (Unix seconds).
   */
  datatype Formatting = Formatting(fixed: (real, nat) -> string, rfc3339: int -> string)

  /** "%.nf" of a float64 that may be NaN: fmt prints NaN as "NaN" whatever the precision. */
  function FixedFloat(f: Formatting, x: Float64, n: nat): (text: string)
    ensures x.NaN? ==> text == "NaN"
    ensures x.Finite? ==> text == f.fixed(x.value, n)
  {
    match x
    case Finite(v) => f.fixed(v, n)
    case NaN => "NaN"
  }

  /** The header up to the timestamp. */
  const HeaderHead: string :=
    "<?xml version=\"1.0\" encoding=\"UTF-8\"?>\n"
    + "<kml xmlns=\"http://www.opengis.net/kml/2.2\">\n"
    + "<Document>\n"
    + "\t<name>Starlink Satellite Locations</name>\n"
    + "\t<description>Satellite positions at "

  /** The header after the timestamp: the end of the description and the satellite icon style. */
  const HeaderTail: string :=
    "</description>\n"
    + "\t<Style id=\"satellite\">\n"
    + "\t\t<IconStyle>\n"
    + "\t\t\t<Icon>\n"
    + "\t\t\t\t<href>http://maps.google.com/mapfiles/kml/shapes/satellite.png</href>\n"
    + "\t\t\t</Icon>\n"
    + "\t\t\t<scale>1.0</scale>\n"
    + "\t\t</IconStyle>\n"
    + "\t\t<LabelStyle>\n"
    + "\t\t\t<scale>0.8</scale>\n"
    + "\t\t</LabelStyle>\n"
    + "\t</Style>\n"

  const Footer: string := "</Document>\n</kml>"

  /** The header with the timestamp in RFC 3339 form. */
  function Header(f: Formatting, timestamp: int): string {
    HeaderHead + f.rfc3339(timestamp) + HeaderTail
  }

  /** The header is the fixed opening text, the timestamp right after it, and the style block at the end. */
  lemma HeaderLayout(f: Formatting, timestamp: int)
    ensures var h := Header(f, timestamp);
      && HasPrefix(h, HeaderHead)
      && |HeaderHead| + |f.rfc3339(timestamp)| <= |h|
      && h[|HeaderHead|..|HeaderHead| + |f.rfc3339(timestamp)|] == f.rfc3339(timestamp)
      && |h| >= |HeaderTail| && h[|h| - |HeaderTail|..] == HeaderTail
  {
    var h := Header(f, timestamp);
    Framed(HeaderHead, f.rfc3339(timestamp), HeaderTail, "", "");
    assert h + "" + "" == h;
  }

  /** The coordinates element: longitude, latitude (6 decimals), then altitude in metres (no decimals). */
  function Coordinates(f: Formatting, loc: SatLocation): string {
    "<coordinates>" + f.fixed(loc.lng, 6) + "," + FixedFloat(f, loc.lat, 6) + "," + f.fixed(loc.alt * 1000.0, 0)
    + "</coordinates>"
  }

  /** The coordinates open with the longitude, and a NaN latitude shows as "NaN" between the commas. */
  lemma CoordinatesLayout(f: Formatting, loc: SatLocation)
    ensures HasPrefix(Coordinates(f, loc), "<coordinates>" + f.fixed(loc.lng, 6) + ",")
    ensures loc.lat.NaN? ==> Contains(Coordinates(f, loc), ",NaN,")
  {
    var opening := "<coordinates>" + f.fixed(loc.lng, 6);
    var latitude := "," + FixedFloat(f, loc.lat, 6) + ",";
    var rest := f.fixed(loc.alt * 1000.0, 0) + "</coordinates>";
    assert Coordinates(f, loc) == (opening + ",") + (FixedFloat(f, loc.lat, 6) + "," + rest);
    assert Coordinates(f, loc) == opening + latitude + rest;
    ContainsMiddle(opening, latitude, rest);
    if loc.lat.NaN? {
      assert latitude == ",NaN,";
    }
  }

  /** The placemark of one satellite; the name is inserted as it is, without XML escaping. */
  function Placemark(f: Formatting, name: string, loc: SatLocation): string {
    "\t<Placemark>\n"
    + "\t\t<name>" + name + "</name>\n"
    + "\t\t<description>\n"
    + "\t\t\tAltitude: " + f.fixed(loc.alt, 3) + " km\n"
    + "\t\t\tVelocity: " + f.fixed(loc.velocity, 3) + " km/s\n"
    + "\t\t</description>\n"
    + "\t\t<styleUrl>#satellite</styleUrl>\n"
    + "\t\t<Point>\n"
    + "\t\t\t" + Coordinates(f, loc) + "\n"
    + "\t\t</Point>\n"
    + "\t</Placemark>\n"
  }

  /** The placemarks for a run of requested names, skipping names without a location. */
  function Body(f: Formatting, satellites: seq<string>, locations: map<string, SatLocation>): string {
    if satellites == [] then ""
    else
      var name := satellites[0];
      var rest := Body(f, satellites[1..], locations);
      if name in locations then Placemark(f, name, locations[name]) + rest else rest
  }

  /** The body is empty exactly when no requested name has a location. */
  lemma {:induction false} BodyEmpty(f: Formatting, satellites: seq<string>, locations: map<string, SatLocation>)
    ensures Body(f, satellites, locations) == "" <==> forall k :: 0 <= k < |satellites| ==> satellites[k] !in locations
  {
    if satellites != [] {
      BodyEmpty(f, satellites[1..], locations);
      assert forall k :: 1 <= k < |satellites| ==> satellites[k] == satellites[1..][k - 1];
    }
  }

  /** The requested names that have a location, in the requested order, repeats kept. */
  function Shown(satellites: seq<string>, locations: map<string, SatLocation>): (names: seq<string>)
    ensures |names| <= |satellites|
    ensures forall k :: 0 <= k < |names| ==> names[k] in locations
    ensures forall name :: name in names <==> name in satellites && name in locations
  {
    if satellites == [] then []
    else
      var rest := Shown(satellites[1..], locations);
      assert forall name :: name in satellites <==> name == satellites[0] || name in satellites[1..];
      if satellites[0] in locations then [satellites[0]] + rest else rest
  }

  /** The placemarks of names that all have a location, one after another: empty exactly for no names. */
  function Placemarks(f: Formatting, names: seq<string>, locations: map<string, SatLocation>): (text: string)
    requires forall k :: 0 <= k < |names| ==> names[k] in locations
    ensures text == "" <==> names == []
  {
    if names == [] then "" else Placemark(f, names[0], locations[names[0]]) + Placemarks(f, names[1..], locations)
  }

  /**
   * GenerateKML: the header with the timestamp, then a placemark for each
   * requested satellite that has a location, in the requested order, then the
   * footer.
   */
  method GenerateKML(f: Formatting, satellites: seq<string>, locations: map<string, SatLocation>, timestamp: int)
    returns (kml: string)
    ensures kml == Header(f, timestamp) + Placemarks(f, Shown(satellites, locations), locations) + Footer
  {
    kml := Header(f, timestamp);
    for i := 0 to |satellites|
      invariant kml == Header(f, timestamp) + Body(f, satellites[..i], locations)
    {
      var satName := satellites[i];
      ghost var before := Body(f, satellites[..i], locations);
      assert satellites[..i + 1] == satellites[..i] + [satName];
      BodyAppend(f, satellites[..i], [satName], locations);
      BodySingle(f, satName, locations);
      if satName !in locations {
        assert before + "" == before;
        continue;
      }
      var location := locations[satName];
      var placemark := Placemark(f, satName, location);
      AppendAssoc(Header(f, timestamp), before, placemark);
      kml := kml + placemark;
    }
    assert satellites[..|satellites|] == satellites;
    BodyIsPlacemarksOfShown(f, satellites, locations);
    kml := kml + Footer;
  }

  /** The body of a concatenation is the concatenation of the bodies. */
  lemma {:induction false} BodyAppend(f: Formatting, a: seq<string>, b: seq<string>, locations: map<string, SatLocation>)
    ensures Body(f, a + b, locations) == Body(f, a, locations) + Body(f, b, locations)
  {
    if a == [] {
      assert a + b == b;
    } else {
      assert (a + b)[0] == a[0];
      assert (a + b)[1..] == a[1..] + b;
      BodyAppend(f, a[1..], b, locations);
    }
  }

  /** The body of one name: its placemark when it has a location, nothing otherwise. */
  lemma BodySingle(f: Formatting, name: string, locations: map<string, SatLocation>)
    ensures Body(f, [name], locations) == if name in locations then Placemark(f, name, locations[name]) else ""
  {
    assert [name][1..] == [];
    assert Body(f, [], locations) == "";
  }

  /** The body is exactly one placemark per shown name, in order. */
  lemma {:induction false} BodyIsPlacemarksOfShown(f: Formatting, satellites: seq<string>, locations: map<string, SatLocation>)
    ensures Body(f, satellites, locations) == Placemarks(f, Shown(satellites, locations), locations)
  {
    if satellites != [] {
      BodyIsPlacemarksOfShown(f, satellites[1..], locations);
      var rest := Shown(satellites[1..], locations);
      if satellites[0] in locations {
        assert ([satellites[0]] + rest)[1..] == rest;
      }
    }
  }

  /** When every requested satellite has a location, all of them are shown, in order and with repeats. */
  lemma {:induction false} AllLocatedAllShown(satellites: seq<string>, locations: map<string, SatLocation>)
    requires forall k :: 0 <= k < |satellites| ==> satellites[k] in locations
    ensures Shown(satellites, locations) == satellites
  {
    if satellites != [] {
      AllLocatedAllShown(satellites[1..], locations);
    }
  }

  /** With no located satellite, the document is the header followed directly by the footer. */
  lemma NothingLocatedGivesEmptyDocument(f: Formatting, satellites: seq<string>, locations: map<string, SatLocation>, timestamp: int)
    requires forall k :: 0 <= k < |satellites| ==> satellites[k] !in locations
    ensures Header(f, timestamp) + Placemarks(f, Shown(satellites, locations), locations) + Footer
         == Header(f, timestamp) + Footer
  {
    NoneLocatedNoneShown(satellites, locations);
  }

  lemma {:induction false} NoneLocatedNoneShown(satellites: seq<string>, locations: map<string, SatLocation>)
    requires forall k :: 0 <= k < |satellites| ==> satellites[k] !in locations
    ensures Shown(satellites, locations) == []
  {
    if satellites != [] {
      NoneLocatedNoneShown(satellites[1..], locations);
    }
  }

  /** A satellite requested twice with a location gets two identical placemarks. */
  lemma RepeatsKept(f: Formatting, name: string, locations: map<string, SatLocation>)
    requires name in locations
    ensures Placemarks(f, Shown([name, name], locations), locations)
         == Placemark(f, name, locations[name]) + Placemark(f, name, locations[name])
  {
    AllLocatedAllShown([name, name], locations);
    assert [name, name][1..] == [name];
    assert [name][1..] == [];
    var p := Placemark(f, name, locations[name]);
    assert Placemarks(f, [name], locations) == p + "";
    assert p + "" == p;
  }

  /** Five pieces laid end to end: the first, second and last can be read back at their offsets. */
  lemma Framed(head: string, middle: string, tail: string, body: string, foot: string)
    ensures var doc := head + middle + tail + body + foot;
      && doc[..|head|] == head
      && doc[|head|..|head| + |middle|] == middle
      && doc[|doc| - |foot|..] == foot
  {
  }

  /** The document starts with the header text, carries the timestamp right after it, and ends with the footer. */
  lemma DocumentFrame(f: Formatting, timestamp: int, body: string)
    ensures var doc := Header(f, timestamp) + body + Footer;
      && doc[..|HeaderHead|] == HeaderHead
      && doc[|HeaderHead|..|HeaderHead| + |f.rfc3339(timestamp)|] == f.rfc3339(timestamp)
      && doc[|doc| - |Footer|..] == Footer
  {
    Framed(HeaderHead, f.rfc3339(timestamp), HeaderTail, body, Footer);
  }

  /** `s` is read at offset |before| of before + s + after. */
  lemma ContainsMiddle(before: string, s: string, after: string)
    ensures Contains(before + s + after, s)
  {
    assert OccursAt(before + s + after, s, |before|);
  }

  /** The coordinates are longitude, latitude and altitude in metres, in that order, inside each placemark. */
  lemma PlacemarkCoordinates(f: Formatting, name: string, loc: SatLocation)
    ensures Contains(Placemark(f, name, loc),
      "<coordinates>" + f.fixed(loc.lng, 6) + "," + FixedFloat(f, loc.lat, 6) + ","
      + f.fixed(loc.alt * 1000.0, 0) + "</coordinates>")
  {
    var before := "\t<Placemark>\n"
      + "\t\t<name>" + name + "</name>\n"
      + "\t\t<description>\n"
      + "\t\t\tAltitude: " + f.fixed(loc.alt, 3) + " km\n"
      + "\t\t\tVelocity: " + f.fixed(loc.velocity, 3) + " km/s\n"
      + "\t\t</description>\n"
      + "\t\t<styleUrl>#satellite</styleUrl>\n"
      + "\t\t<Point>\n"
      + "\t\t\t";
    var after := "\n" + "\t\t</Point>\n" + "\t</Placemark>\n";
    assert Placemark(f, name, loc) == before + Coordinates(f, loc) + after;
    ContainsMiddle(before, Coordinates(f, loc), after);
  }

  /** The name goes into the placemark verbatim, XML-special characters included. */
  lemma NameNotEscaped(f: Formatting, name: string, loc: SatLocation)
    ensures Contains(Placemark(f, name, loc), "<name>" + name + "</name>")
  {
    var before := "\t<Placemark>\n" + "\t\t";
    var after := "\n"
      + "\t\t<description>\n"
      + "\t\t\tAltitude: " + f.fixed(loc.alt, 3) + " km\n"
      + "\t\t\tVelocity: " + f.fixed(loc.velocity, 3) + " km/s\n"
      + "\t\t</description>\n"
      + "\t\t<styleUrl>#satellite</styleUrl>\n"
      + "\t\t<Point>\n"
      + "\t\t\t" + Coordinates(f, loc) + "\n"
      + "\t\t</Point>\n"
      + "\t</Placemark>\n";
    assert Placemark(f, name, loc) == before + ("<name>" + name + "</name>") + after;
    ContainsMiddle(before, "<name>" + name + "</name>", after);
  }
}
