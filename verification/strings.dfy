/**
 * The parts of Go's `strings` package that the TLE code uses: Split on a
 * one-character separator, Join (its inverse), TrimSpace, Contains and HasPrefix.
 * Strings are sequences of characters; for the ASCII text of a TLE catalogue
 * these coincide with Go's byte strings.
 */
module Strings {

  /**
   * Go's unicode.IsSpace: the characters strings.TrimSpace removes
   * (SpaceCharacters below states the ones that matter for TLE text).
   */
  predicate IsSpace(c: char)
  {
    || c == '\t' || c == '\n' || c == '\U{000B}' || c == '\U{000C}' || c == '\r' || c == ' '
    || c == '\U{0085}' || c == '\U{00A0}' || c == '\U{1680}'
    || ('\U{2000}' <= c <= '\U{200A}')
    || c == '\U{2028}' || c == '\U{2029}' || c == '\U{202F}' || c == '\U{205F}' || c == '\U{3000}'
  }

  /**
   * Blank, tab, newline and carriage return are white space; no character of
   * a number (digit, point, sign, exponent marker) is.
   */
  lemma SpaceCharacters(c: char)
    ensures c == ' ' || c == '\t' || c == '\n' || c == '\r' ==> IsSpace(c)
    ensures IsSpace(c) ==> !('0' <= c <= '9') && c != '.' && c != '+' && c != '-' && c != 'e' && c != 'E'
  {
  }

  /** Number of white-space characters at the front of `s`. */
  function LeadingSpaces(s: string): (n: nat)
    ensures n <= |s|
    ensures forall k :: 0 <= k < n ==> IsSpace(s[k])
    ensures n < |s| ==> !IsSpace(s[n])
  {
    if s == [] || !IsSpace(s[0]) then 0 else 1 + LeadingSpaces(s[1..])
  }

  /** Number of white-space characters at the back of `s`. */
  function TrailingSpaces(s: string): (n: nat)
    ensures n <= |s|
    ensures forall k :: |s| - n <= k < |s| ==> IsSpace(s[k])
    ensures n < |s| ==> !IsSpace(s[|s| - 1 - n])
  {
    if s == [] || !IsSpace(s[|s| - 1]) then 0 else 1 + TrailingSpaces(s[..|s| - 1])
  }

  /**
   * strings.TrimSpace: `s` with its leading and trailing white space removed.
   * The result is the slice of `s` after its leading white space, and what
   * follows that slice in `s` is white space too.
   */
  function TrimSpace(s: string): (r: string)
    ensures |r| <= |s|
    ensures LeadingSpaces(s) + |r| <= |s|
    ensures r == s[LeadingSpaces(s)..LeadingSpaces(s) + |r|]
    ensures forall k :: LeadingSpaces(s) + |r| <= k < |s| ==> IsSpace(s[k])
    ensures r != [] ==> !IsSpace(r[0]) && !IsSpace(r[|r| - 1])
    ensures (forall k :: 0 <= k < |s| ==> IsSpace(s[k])) <==> r == []
  {
    var i := LeadingSpaces(s);
    var rest := s[i..];
    var n := TrailingSpaces(rest);
    assert forall k :: 0 <= k < |s| && !IsSpace(s[k]) ==> i <= k && k - i < |rest| - n;
    rest[..|rest| - n]
  }

  /** TrimSpace keeps any string that neither starts nor ends with white space. */
  lemma TrimSpaceKeepsTrimmed(s: string)
    requires s != [] ==> !IsSpace(s[0]) && !IsSpace(s[|s| - 1])
    ensures TrimSpace(s) == s
  {
  }

  /** A leading blank makes no difference to TrimSpace. */
  lemma TrimSpaceDropsLeadingBlank(s: string)
    requires s != [] && IsSpace(s[0])
    ensures TrimSpace(s) == TrimSpace(s[1..])
  {
    assert LeadingSpaces(s) == 1 + LeadingSpaces(s[1..]);
    assert s[LeadingSpaces(s)..] == s[1..][LeadingSpaces(s[1..])..];
  }

  /** TrimSpace is idempotent. */
  lemma TrimSpaceIdempotent(s: string)
    ensures TrimSpace(TrimSpace(s)) == TrimSpace(s)
  {
    TrimSpaceKeepsTrimmed(TrimSpace(s));
  }

  /** Concatenation regroups freely. */
  lemma AppendAssoc(a: string, b: string, c: string)
    ensures a + b + c == a + (b + c)
  {
  }

  /** strings.HasPrefix: `s` begins with `prefix`, character for character. */
  predicate HasPrefix(s: string, prefix: string)
    ensures HasPrefix(s, prefix) <==> |prefix| <= |s| && forall i :: 0 <= i < |prefix| ==> s[i] == prefix[i]
  {
    |prefix| <= |s| && s[..|prefix|] == prefix
  }

  /** `sub` occurs in `s` starting at index `k`. */
  predicate OccursAt(s: string, sub: string, k: int) {
    0 <= k <= |s| - |sub| && s[k..k + |sub|] == sub
  }

  /** strings.Contains: `sub` occurs somewhere in `s`; a prefix in particular does. */
  predicate Contains(s: string, sub: string)
    ensures Contains(s, sub) ==> |sub| <= |s|
    ensures HasPrefix(s, sub) ==> Contains(s, sub)
  {
    assert HasPrefix(s, sub) ==> OccursAt(s, sub, 0);
    exists k | 0 <= k <= |s| :: OccursAt(s, sub, k)
  }

  /** Every string contains the empty string. */
  lemma ContainsEmpty(s: string)
    ensures Contains(s, "")
  {
    assert OccursAt(s, "", 0);
  }

  /**
   * strings.Join with a one-character separator: the result starts with the
   * first piece, and, when no piece holds the separator, it holds the separator
   * exactly when there are at least two pieces.
   */
  function Join(parts: seq<string>, sep: char): (s: string)
    ensures parts != [] ==> |parts[0]| <= |s| && s[..|parts[0]|] == parts[0]
    ensures (forall i :: 0 <= i < |parts| ==> sep !in parts[i]) ==> (sep in s <==> |parts| >= 2)
  {
    if |parts| == 0 then ""
    else if |parts| == 1 then parts[0]
    else
      var s := parts[0] + [sep] + Join(parts[1..], sep);
      assert s[|parts[0]|] == sep;
      s
  }

  /**
   * strings.Split with a one-character separator: the pieces between the
   * separators, empty pieces included, always at least one piece.
   */
  function Split(s: string, sep: char): (parts: seq<string>)
    ensures |parts| >= 1
    ensures forall i :: 0 <= i < |parts| ==> sep !in parts[i]
    ensures Join(parts, sep) == s
  {
    if s == [] then [""]
    else
      var rest := Split(s[1..], sep);
      if s[0] == sep then
        assert ([""] + rest)[1..] == rest;
        [""] + rest
      else
        var parts := [[s[0]] + rest[0]] + rest[1..];
        assert parts[1..] == rest[1..];
        assert Join(parts, sep) == [s[0]] + Join(rest, sep);
        assert s == [s[0]] + s[1..];
        parts
  }

  /** A string without the separator splits into itself alone. */
  lemma {:induction false} SplitNoSeparator(s: string, sep: char)
    requires sep !in s
    ensures Split(s, sep) == [s]
  {
    if s != [] {
      SplitNoSeparator(s[1..], sep);
      assert [s[0]] + s[1..] == s;
    }
  }

  /** Splitting `p + sep + rest` yields `p` followed by the pieces of `rest`. */
  lemma {:induction false} SplitAtSeparator(p: string, sep: char, rest: string)
    requires sep !in p
    ensures Split(p + [sep] + rest, sep) == [p] + Split(rest, sep)
  {
    var s := p + [sep] + rest;
    if p == [] {
      assert s[0] == sep && s[1..] == rest;
    } else {
      assert s[1..] == p[1..] + [sep] + rest;
      SplitAtSeparator(p[1..], sep, rest);
      assert [p[0]] + p[1..] == p;
    }
  }

  /** Split undoes Join when no piece holds the separator. */
  lemma {:induction false} SplitJoin(parts: seq<string>, sep: char)
    requires |parts| >= 1
    requires forall i :: 0 <= i < |parts| ==> sep !in parts[i]
    ensures Split(Join(parts, sep), sep) == parts
  {
    if |parts| == 1 {
      SplitNoSeparator(parts[0], sep);
    } else {
      SplitJoin(parts[1..], sep);
      SplitAtSeparator(parts[0], sep, Join(parts[1..], sep));
      assert [parts[0]] + parts[1..] == parts;
    }
  }
}
