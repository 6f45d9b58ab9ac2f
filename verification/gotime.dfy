/**
 * The calendar arithmetic of Go's `time` package that the propagator needs.
 * An instant is an integer count of Unix seconds (UTC); years follow the
 * proleptic Gregorian calendar, as time.Date and Time.Year do.
 */
module GoTime {

  const SecondsPerDay: int := 86400

  predicate IsLeap(y: int) {
    y % 4 == 0 && (y % 100 != 0 || y % 400 == 0)
  }

  /** Number of leap years among 1..n, extended to every n by floor division. */
  function LeapsThrough(n: int): int {
    n / 4 - n / 100 + n / 400
  }

  /** Days from 1970-01-01 to January 1 of year y. */
  function DaysBefore(y: int): int {
    365 * (y - 1970) + LeapsThrough(y - 1) - LeapsThrough(1969)
  }

  /** Each year has 366 days when it is a leap year and 365 otherwise. */
  lemma YearLength(y: int)
    ensures DaysBefore(y + 1) - DaysBefore(y) == if IsLeap(y) then 366 else 365
  {
    assert LeapsThrough(y) - LeapsThrough(y - 1)
        == (y / 4 - (y - 1) / 4) - (y / 100 - (y - 1) / 100) + (y / 400 - (y - 1) / 400);
    assert y / 4 - (y - 1) / 4 == if y % 4 == 0 then 1 else 0;
    assert y / 100 - (y - 1) / 100 == if y % 100 == 0 then 1 else 0;
    assert y / 400 - (y - 1) / 400 == if y % 400 == 0 then 1 else 0;
  }

  /** Later years start later. */
  lemma {:induction false} DaysBeforeMonotone(a: int, b: int)
    requires a <= b
    ensures DaysBefore(a) + 365 * (b - a) <= DaysBefore(b)
    decreases b - a
  {
    if a < b {
      YearLength(a);
      DaysBeforeMonotone(a + 1, b);
    }
  }

  /** Later years start later, in seconds too. */
  lemma YearStartMonotone(a: int, b: int)
    requires a <= b
    ensures YearStart(a) <= YearStart(b)
  {
    DaysBeforeMonotone(a, b);
  }

  /** Unix seconds of January 1, 00:00:00 UTC of year y (time.Date(y, time.January, 1, 0, 0, 0, 0, time.UTC)). */
  function YearStart(y: int): int {
    SecondsPerDay * DaysBefore(y)
  }

  /** Walks down from year y to a year that starts no later than day d. */
  function YearAtOrBelow(d: int, y: int): (r: int)
    ensures DaysBefore(r) <= d
    decreases if DaysBefore(y) <= d then 0 else DaysBefore(y) - d
  {
    if DaysBefore(y) <= d then y
    else
      YearLength(y - 1);
      YearAtOrBelow(d, y - 1)
  }

  /** Walks up from year y to the year that contains day d. */
  function YearUp(d: int, y: int): (r: int)
    requires DaysBefore(y) <= d
    ensures DaysBefore(r) <= d < DaysBefore(r + 1)
    decreases d - DaysBefore(y)
  {
    YearLength(y);
    if d < DaysBefore(y + 1) then y else YearUp(d, y + 1)
  }

  /** Time.Year of the instant t. */
  function YearOf(t: int): (y: int)
    ensures YearStart(y) <= t < YearStart(y + 1)
  {
    var d := t / SecondsPerDay;
    YearUp(d, YearAtOrBelow(d, 1970))
  }

  /** The year of an instant is the only year whose span contains it. */
  lemma YearOfUnique(t: int, y: int)
    requires YearStart(y) <= t < YearStart(y + 1)
    ensures YearOf(t) == y
  {
    var y' := YearOf(t);
    if y' < y {
      YearStartMonotone(y' + 1, y);
    } else if y < y' {
      YearStartMonotone(y + 1, y');
    }
  }

  /** Two instants the propagator relies on. */
  lemma KnownYearStarts()
    ensures YearStart(1970) == 0
    ensures YearStart(2006) == 1136073600
    ensures YearStart(2025) == 1735689600
  {
  }
}
