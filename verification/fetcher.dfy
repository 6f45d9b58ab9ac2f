/**
 * pkg/tle/fetcher.go: finding satellites in a block of three-line element
 * sets (a name line, then line 1, then line 2). The text is split at every
 * newline; the HTTP and file reads that produce the text are not modelled.
 */
module TleFetcher {
  import opened Outcomes
  import opened Strings

  /** The error FindSatelliteByName returns when no name line matches. */
  const NotFound: string := "satellite not found"

  /** The lines of a block of element sets: strings.Split(tleData, "\n"). */
  function Lines(tleData: string): (lines: seq<string>)
    ensures |lines| >= 1
    ensures forall k :: 0 <= k < |lines| ==> '\n' !in lines[k]
  {
    Split(tleData, '\n')
  }

  /** Line i, stripped of surrounding white space, contains the requested name. */
  predicate NameMatches(lines: seq<string>, i: nat, name: string)
    requires i < |lines|
  {
    Contains(TrimSpace(lines[i]), name)
  }

  /**
   * The first index at or after `from` that has two more lines after it and whose
   * trimmed line contains `name`; None when there is none.
   */
  function FirstMatchFrom(lines: seq<string>, name: string, from: nat): (r: Option<nat>)
    ensures r.Some? ==> from <= r.value && r.value + 2 < |lines| && NameMatches(lines, r.value, name)
    ensures r.Some? ==> forall j :: from <= j < r.value ==> !NameMatches(lines, j, name)
    ensures r.None? ==> forall j :: from <= j && j + 2 < |lines| ==> !NameMatches(lines, j, name)
    decreases |lines| - from
  {
    if from + 2 >= |lines| then None
    else if NameMatches(lines, from, name) then Some(from)
    else FirstMatchFrom(lines, name, from + 1)
  }

  /** The two element lines found for a satellite. */
  datatype LinePair = LinePair(line1: string, line2: string)

  /**
   * FindSatelliteByName: the two lines after the first name line (one with two
   * more lines after it) whose trimmed text contains `satelliteName`; the lines
   * are returned as they appear, untrimmed.
   */
  method FindSatelliteByName(tleData: string, satelliteName: string) returns (r: Result<LinePair, string>)
    ensures var lines := Lines(tleData);
      match FirstMatchFrom(lines, satelliteName, 0)
      case Some(i) => r == Ok(LinePair(lines[i + 1], lines[i + 2]))
      case None => r == Err(NotFound)
  {
    var lines := Lines(tleData);
    var i := 0;
    while i + 2 < |lines|
      invariant FirstMatchFrom(lines, satelliteName, 0) == FirstMatchFrom(lines, satelliteName, i)
      decreases |lines| - i
    {
      var name := TrimSpace(lines[i]);
      if Contains(name, satelliteName) {
        return Ok(LinePair(lines[i + 1], lines[i + 2]));
      }
      i := i + 1;
    }
    return Err(NotFound);
  }

  /** The search succeeds exactly when some name line with two lines after it matches, and then it names the first. */
  lemma FirstMatchIsFirst(lines: seq<string>, name: string, i: nat)
    requires i + 2 < |lines| && NameMatches(lines, i, name)
    requires forall j: nat :: j < i ==> !NameMatches(lines, j, name)
    ensures FirstMatchFrom(lines, name, 0) == Some(i)
  {
  }

  /** An empty name is contained in every line: any text of three or more lines yields its lines 2 and 3. */
  lemma EmptyNameMatchesFirst(lines: seq<string>)
    requires |lines| >= 3
    ensures FirstMatchFrom(lines, "", 0) == Some(0)
  {
    ContainsEmpty(TrimSpace(lines[0]));
  }

  /** Fewer than three lines hold no satellite, whatever the name. */
  lemma ShortTextHasNoMatch(lines: seq<string>, name: string)
    requires |lines| < 3
    ensures FirstMatchFrom(lines, name, 0) == None
  {
  }

  /** A satellite recognised by the scan: the index of its name line, its trimmed name and its two lines. */
  datatype Entry = Entry(index: nat, name: string, line1: string, line2: string)

  /** Lines i+1 and i+2 start with "1 " and "2 ": line i is taken to be a name line. */
  predicate IsTripleAt(lines: seq<string>, i: nat)
    requires i + 2 < |lines|
  {
    HasPrefix(lines[i + 1], "1 ") && HasPrefix(lines[i + 2], "2 ")
  }

  /** A recognised entry: its name line starts a triple, and it carries that line trimmed and non-blank, and the two lines after it. */
  predicate Recognised(lines: seq<string>, e: Entry) {
    e.index + 2 < |lines| && IsTripleAt(lines, e.index)
    && e.name == TrimSpace(lines[e.index]) && e.name != []
    && e.line1 == lines[e.index + 1] && e.line2 == lines[e.index + 2]
  }

  /** Entries in text order: each name line at least three lines after the previous one. */
  predicate InTextOrder(es: seq<Entry>) {
    forall k, k' :: 0 <= k < k' < |es| ==> es[k].index + 3 <= es[k'].index
  }

  /**
   * The scan of GetAllSatellites and GetSatelliteAndLines from index `from`:
   * at a triple, the name line (when not blank after trimming) gives an entry
   * and the scan resumes three lines further on, blank or not; anywhere else
   * it moves one line on. Each entry takes up three lines, so there are at
   * most a third as many entries as lines left.
   */
  function EntriesFrom(lines: seq<string>, from: nat): (es: seq<Entry>)
    ensures from <= |lines| ==> 3 * |es| <= |lines| - from
    decreases |lines| - from
  {
    if from + 2 >= |lines| then []
    else if IsTripleAt(lines, from) then
      var name := TrimSpace(lines[from]);
      var rest := EntriesFrom(lines, from + 3);
      if name != [] then
        [Entry(from, name, lines[from + 1], lines[from + 2])] + rest
      else rest
    else
      EntriesFrom(lines, from + 1)
  }

  /** One step of the scan at an index with two lines after it. */
  lemma ScanStep(lines: seq<string>, i: nat)
    ensures i + 2 >= |lines| ==> EntriesFrom(lines, i) == []
    ensures i + 2 < |lines| && !IsTripleAt(lines, i) ==> EntriesFrom(lines, i) == EntriesFrom(lines, i + 1)
    ensures i + 2 < |lines| && IsTripleAt(lines, i) && TrimSpace(lines[i]) == [] ==> EntriesFrom(lines, i) == EntriesFrom(lines, i + 3)
    ensures i + 2 < |lines| && IsTripleAt(lines, i) && TrimSpace(lines[i]) != [] ==>
      EntriesFrom(lines, i) == [Entry(i, TrimSpace(lines[i]), lines[i + 1], lines[i + 2])] + EntriesFrom(lines, i + 3)
  {
  }

  /** Every entry of the scan is a recognised satellite at or after where the scan started. */
  lemma {:induction false} EntriesRecognised(lines: seq<string>, from: nat)
    ensures forall e | e in EntriesFrom(lines, from) :: from <= e.index && Recognised(lines, e)
    decreases |lines| - from
  {
    if from + 2 >= |lines| {
    } else if IsTripleAt(lines, from) {
      EntriesRecognised(lines, from + 3);
    } else {
      EntriesRecognised(lines, from + 1);
    }
  }

  /** The scan lists its entries in text order, name lines at least three apart. */
  lemma {:induction false} EntriesInTextOrder(lines: seq<string>, from: nat)
    ensures InTextOrder(EntriesFrom(lines, from))
    decreases |lines| - from
  {
    if from + 2 >= |lines| {
    } else if IsTripleAt(lines, from) {
      EntriesInTextOrder(lines, from + 3);
      EntriesRecognised(lines, from + 3);
      var rest := EntriesFrom(lines, from + 3);
      var name := TrimSpace(lines[from]);
      if name != [] {
        ConsInTextOrder(Entry(from, name, lines[from + 1], lines[from + 2]), rest);
      }
    } else {
      EntriesInTextOrder(lines, from + 1);
    }
  }

  /** An entry at least three lines before every entry of an ordered run can go in front of it. */
  lemma ConsInTextOrder(e: Entry, rest: seq<Entry>)
    requires InTextOrder(rest)
    requires forall r | r in rest :: e.index + 3 <= r.index
    ensures InTextOrder([e] + rest)
  {
    var es := [e] + rest;
    forall k, k' | 0 <= k < k' < |es| ensures es[k].index + 3 <= es[k'].index {
      assert es[k'] == rest[k' - 1];
      if k > 0 {
        assert es[k] == rest[k - 1];
      }
    }
  }

  /** The entries of a whole text, in text order. */
  function Entries(tleData: string): seq<Entry> {
    EntriesFrom(Lines(tleData), 0)
  }

  /** The names of a run of entries, in order. */
  function NamesOf(es: seq<Entry>): (names: seq<string>)
    ensures |names| == |es|
    ensures forall k :: 0 <= k < |es| ==> names[k] == es[k].name
  {
    if es == [] then [] else [es[0].name] + NamesOf(es[1..])
  }

  lemma {:induction false} NamesOfAppend(a: seq<Entry>, b: seq<Entry>)
    ensures NamesOf(a + b) == NamesOf(a) + NamesOf(b)
  {
    var joined, parts := NamesOf(a + b), NamesOf(a) + NamesOf(b);
    assert |joined| == |parts|;
    forall k | 0 <= k < |joined| ensures joined[k] == parts[k] {
      if k < |a| {
        assert (a + b)[k] == a[k];
      } else {
        assert (a + b)[k] == b[k - |a|];
      }
    }
  }

  /**
   * GetAllSatellites: the trimmed names of the recognised satellites, blank
   * names left out, duplicates kept, in text order.
   */
  method GetAllSatellites(tleData: string) returns (satellites: seq<string>)
    ensures satellites == NamesOf(Entries(tleData))
  {
    var lines := Lines(tleData);
    satellites := [];
    ghost var done: seq<Entry> := [];
    var i := 0;
    while i + 2 < |lines|
      invariant done + EntriesFrom(lines, i) == EntriesFrom(lines, 0)
      invariant satellites == NamesOf(done)
      decreases |lines| - i
    {
      if IsTripleAt(lines, i) {
        var satName := TrimSpace(lines[i]);
        if satName != [] {
          var e := Entry(i, satName, lines[i + 1], lines[i + 2]);
          assert EntriesFrom(lines, i) == [e] + EntriesFrom(lines, i + 3) by {
            ScanStep(lines, i);
          }
          NamesOfAppend(done, [e]);
          assert NamesOf([e]) == [satName];
          satellites := satellites + [satName];
          SnocEntry(done, e, EntriesFrom(lines, i + 3));
          done := done + [e];
        } else {
          assert EntriesFrom(lines, i) == EntriesFrom(lines, i + 3) by {
            ScanStep(lines, i);
          }
        }
        i := i + 3;
      } else {
        assert EntriesFrom(lines, i) == EntriesFrom(lines, i + 1) by {
          ScanStep(lines, i);
        }
        i := i + 1;
      }
    }
    assert EntriesFrom(lines, i) == [] by {
      ScanStep(lines, i);
    }
    assert done + [] == done;
  }

  lemma SnocEntry(done: seq<Entry>, e: Entry, rest: seq<Entry>)
    ensures (done + [e]) + rest == done + ([e] + rest)
  {
  }

  /**
   * The map of GetSatelliteAndLines after a run of entries: each entry in turn
   * sets its name to its two lines, so the last entry's name maps to that
   * entry's lines whatever came before.
   */
  function MapOf(es: seq<Entry>): (result: map<string, seq<string>>)
  {
    if es == [] then map[]
    else
      var last := es[|es| - 1];
      MapOf(es[..|es| - 1])[last.name := [last.line1, last.line2]]
  }

  /** The keys of the map are exactly the names of the entries. */
  lemma {:induction false} MapKeys(es: seq<Entry>)
    ensures forall name :: name in MapOf(es) <==> exists k :: 0 <= k < |es| && es[k].name == name
  {
    if es != [] {
      var init := es[..|es| - 1];
      MapKeys(init);
      assert forall k :: 0 <= k < |init| ==> init[k] == es[k];
    }
  }

  lemma MapOfSnoc(es: seq<Entry>, e: Entry)
    ensures MapOf(es + [e]) == MapOf(es)[e.name := [e.line1, e.line2]]
  {
    assert (es + [e])[..|es|] == es;
  }

  /**
   * GetSatelliteAndLines: a map from each recognised (non-blank, trimmed) name to
   * its two lines; a name seen twice keeps the lines of its last occurrence.
   */
  method GetSatelliteAndLines(tleData: string) returns (result: map<string, seq<string>>)
    ensures result == MapOf(Entries(tleData))
  {
    var lines := Lines(tleData);
    result := map[];
    ghost var done: seq<Entry> := [];
    var i := 0;
    while i + 2 < |lines|
      invariant done + EntriesFrom(lines, i) == EntriesFrom(lines, 0)
      invariant result == MapOf(done)
      decreases |lines| - i
    {
      if IsTripleAt(lines, i) {
        var satName := TrimSpace(lines[i]);
        if satName != [] {
          var e := Entry(i, satName, lines[i + 1], lines[i + 2]);
          assert EntriesFrom(lines, i) == [e] + EntriesFrom(lines, i + 3) by {
            ScanStep(lines, i);
          }
          MapOfSnoc(done, e);
          SnocEntry(done, e, EntriesFrom(lines, i + 3));
          done := done + [e];
          result := result[satName := [lines[i + 1], lines[i + 2]]];
        } else {
          assert EntriesFrom(lines, i) == EntriesFrom(lines, i + 3) by {
            ScanStep(lines, i);
          }
        }
        i := i + 3;
      } else {
        assert EntriesFrom(lines, i) == EntriesFrom(lines, i + 1) by {
          ScanStep(lines, i);
        }
        i := i + 1;
      }
    }
    assert EntriesFrom(lines, i) == [] by {
      ScanStep(lines, i);
    }
    assert done + [] == done;
  }

  /** Every value of the map is the two lines of the last entry with that name. */
  lemma {:induction false} LastOccurrenceWins(es: seq<Entry>, name: string)
    requires name in MapOf(es)
    ensures exists k ::
      && 0 <= k < |es| && es[k].name == name
      && MapOf(es)[name] == [es[k].line1, es[k].line2]
      && (forall k' :: k < k' < |es| ==> es[k'].name != name)
  {
    var last := es[|es| - 1];
    var init := es[..|es| - 1];
    if last.name == name {
      assert MapOf(es)[name] == [last.line1, last.line2];
    } else {
      assert name in MapOf(init);
      LastOccurrenceWins(init, name);
      var k :| 0 <= k < |init| && init[k].name == name
        && MapOf(init)[name] == [init[k].line1, init[k].line2]
        && forall k' :: k < k' < |init| ==> init[k'].name != name;
      assert es[k] == init[k];
      assert forall k' :: k < k' < |es| ==> es[k'].name != name by {
        forall k' | k < k' < |es| ensures es[k'].name != name {
          if k' < |init| {
            assert es[k'] == init[k'];
          }
        }
      }
    }
  }

  /** The keys of GetSatelliteAndLines are exactly the names GetAllSatellites lists. */
  lemma KeysAreNames(tleData: string)
    ensures MapOf(Entries(tleData)).Keys == set name | name in NamesOf(Entries(tleData))
  {
    MapKeysAreNames(Entries(tleData));
  }

  lemma MapKeysAreNames(es: seq<Entry>)
    ensures MapOf(es).Keys == set name | name in NamesOf(es)
  {
    var names := NamesOf(es);
    MapKeys(es);
    forall name | name in names ensures name in MapOf(es) {
      var k :| 0 <= k < |names| && names[k] == name;
      assert es[k].name == name;
    }
  }

  /** Block `j` of a catalogue starting at `from` is a triple with a non-blank name line. */
  predicate NamedBlock(lines: seq<string>, from: nat, j: nat) {
    var i := from + 3 * j;
    i + 2 < |lines| && IsTripleAt(lines, i) && TrimSpace(lines[i]) != []
  }

  /**
   * A well-formed catalogue of `k` satellites from `from` on: `k` consecutive
   * blocks of a non-blank name line, a line starting "1 " and a line starting
   * "2 ", followed by at most two further lines (such as the empty line that
   * a final newline leaves).
   */
  predicate Catalogue(lines: seq<string>, from: nat, k: nat) {
    && from + 3 * k <= |lines| <= from + 3 * k + 2
    && forall j :: 0 <= j < k ==> NamedBlock(lines, from, j)
  }

  /** The scan of a well-formed catalogue finds each of its `k` blocks, in order, and nothing else. */
  lemma {:induction false} CatalogueScanned(lines: seq<string>, from: nat, k: nat)
    requires Catalogue(lines, from, k)
    ensures |EntriesFrom(lines, from)| == k
    ensures forall j :: 0 <= j < k ==>
      EntriesFrom(lines, from)[j] == Entry(from + 3 * j, TrimSpace(lines[from + 3 * j]), lines[from + 3 * j + 1], lines[from + 3 * j + 2])
    decreases k
  {
    if k > 0 {
      assert NamedBlock(lines, from, 0);
      var next := from + 3;
      forall j | 0 <= j < k - 1 ensures NamedBlock(lines, next, j) {
        assert NamedBlock(lines, from, j + 1);
        assert from + 3 + 3 * j == from + 3 * (j + 1);
      }
      CatalogueScanned(lines, from + 3, k - 1);
      var rest := EntriesFrom(lines, from + 3);
      assert EntriesFrom(lines, from) == [Entry(from, TrimSpace(lines[from]), lines[from + 1], lines[from + 2])] + rest;
      forall j | 0 < j < k
        ensures EntriesFrom(lines, from)[j] == Entry(from + 3 * j, TrimSpace(lines[from + 3 * j]), lines[from + 3 * j + 1], lines[from + 3 * j + 2])
      {
        assert EntriesFrom(lines, from)[j] == rest[j - 1];
        assert from + 3 + 3 * (j - 1) == from + 3 * j;
      }
    }
  }

  /**
   * Every satellite of a well-formed catalogue is listed: GetAllSatellites
   * returns the `k` trimmed name lines, in text order.
   */
  lemma CatalogueListed(tleData: string, k: nat)
    requires Catalogue(Lines(tleData), 0, k)
    ensures |NamesOf(Entries(tleData))| == k
    ensures forall j :: 0 <= j < k ==> NamesOf(Entries(tleData))[j] == TrimSpace(Lines(tleData)[3 * j])
  {
    CatalogueNames(Lines(tleData), k);
  }

  lemma CatalogueNames(lines: seq<string>, k: nat)
    requires Catalogue(lines, 0, k)
    ensures |NamesOf(EntriesFrom(lines, 0))| == k
    ensures forall j :: 0 <= j < k ==> NamesOf(EntriesFrom(lines, 0))[j] == TrimSpace(lines[3 * j])
  {
    var es := EntriesFrom(lines, 0);
    CatalogueScanned(lines, 0, k);
    var names := NamesOf(es);
    forall j | 0 <= j < k ensures names[j] == TrimSpace(lines[3 * j]) {
      assert names[j] == es[j].name;
    }
  }

  /** The keys of GetSatelliteAndLines for a well-formed catalogue are exactly its `k` trimmed name lines. */
  lemma CatalogueKeys(tleData: string, k: nat)
    requires Catalogue(Lines(tleData), 0, k)
    ensures MapOf(Entries(tleData)).Keys == set j | 0 <= j < k :: TrimSpace(Lines(tleData)[3 * j])
  {
    var lines := Lines(tleData);
    var es := EntriesFrom(lines, 0);
    CatalogueNames(lines, k);
    MapKeysAreNames(es);
    NameLinesAsSet(NamesOf(es), lines, k);
  }

  /** The elements of a run of names read from every third line are those trimmed lines. */
  lemma NameLinesAsSet(names: seq<string>, lines: seq<string>, k: nat)
    requires |names| == k && 3 * k <= |lines|
    requires forall j :: 0 <= j < k ==> names[j] == TrimSpace(lines[3 * j])
    ensures (set name | name in names) == set j | 0 <= j < k :: TrimSpace(lines[3 * j])
  {
    var listed := set j | 0 <= j < k :: TrimSpace(lines[3 * j]);
    forall name | name in names ensures name in listed {
      var j :| 0 <= j < |names| && names[j] == name;
      assert TrimSpace(lines[3 * j]) == name;
    }
    forall name | name in listed ensures name in names {
      var j :| 0 <= j < k && TrimSpace(lines[3 * j]) == name;
      assert names[j] == name;
    }
  }

  /** A triple whose name line is blank yields nothing but still consumes its three lines. */
  lemma BlankNameSkipsTriple(lines: seq<string>, i: nat)
    requires i + 2 < |lines| && IsTripleAt(lines, i)
    requires forall k :: 0 <= k < |lines[i]| ==> IsSpace(lines[i][k])
    ensures EntriesFrom(lines, i) == EntriesFrom(lines, i + 3)
  {
  }
}
