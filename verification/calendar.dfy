/** Instants and the Saturday-based weeks of the weekly run report.

    An instant is a whole number of seconds since 1970-01-01T00:00:00 UTC.
    Dafny's `/` and `%` on `int` are Euclidean, which for a positive divisor
    is floor division, so `Day` and `Truncate` are correct for instants
    before 1970 as well.
 */
module Calendar {

  const SecondsPerDay := 86400
  const DaysPerWeek := 7
  const SecondsPerWeek := DaysPerWeek * SecondsPerDay

  /** Go's time.Weekday numbering: Sunday is 0, ..., Saturday is 6. */
  const Saturday := 6

  /** Whole days since the epoch. */
  function Day(t: int): int {
    t / SecondsPerDay
  }

  /** Day of the week of `t`; 1970-01-01 was a Thursday (4). */
  function Weekday(t: int): int {
    (Day(t) + 4) % DaysPerWeek
  }

  /** `t` rounded down to a multiple of `d`. Go's Time.Truncate rounds
      relative to 0001-01-01, a whole number of days before 1970, so for
      `d` = one day this is the same as rounding relative to the epoch. */
  function Truncate(t: int, d: int): int
    requires d > 0
  {
    t - t % d
  }

  /** The Saturday before `t`, unless `t` is on a Saturday, at midnight:
      a Saturday midnight, not later than `t`, and less than a week before it. */
  function PreviousSaturday(t: int): (r: int)
    ensures IsSaturdayMidnight(r)
    ensures r <= t < r + SecondsPerWeek
  {
    var daysToGoBack := if Weekday(t) == Saturday then 0 else Weekday(t) + 1;
    DaysBack(t, daysToGoBack);
    MidnightOfDay(Day(t) - daysToGoBack);
    Truncate(t - daysToGoBack * SecondsPerDay, SecondsPerDay)
  }

  /** Going back whole days and truncating lands on midnight of the day
      that many days back. */
  lemma DaysBack(t: int, back: int)
    ensures Truncate(t - back * SecondsPerDay, SecondsPerDay) == (Day(t) - back) * SecondsPerDay
  {
    var x := t - back * SecondsPerDay;
    assert t == Day(t) * SecondsPerDay + t % SecondsPerDay;
    assert x == (Day(t) - back) * SecondsPerDay + t % SecondsPerDay;
    assert x % SecondsPerDay == t % SecondsPerDay;
  }

  /** Midnight of day `k` is on day `k`. */
  lemma MidnightOfDay(k: int)
    ensures (k * SecondsPerDay) % SecondsPerDay == 0
    ensures Day(k * SecondsPerDay) == k
  {
    assert (k * SecondsPerDay) / SecondsPerDay == k;
  }

  predicate IsSaturdayMidnight(t: int) {
    t % SecondsPerDay == 0 && Weekday(t) == Saturday
  }

  /** Closed form: the result is midnight of the day that is
      (Day(t) + 5) % 7 days back. */
  lemma PreviousSaturdayClosedForm(t: int)
    ensures PreviousSaturday(t) == (Day(t) - (Day(t) + 5) % DaysPerWeek) * SecondsPerDay
  {
    var d := Day(t);
    var back := if Weekday(t) == Saturday then 0 else Weekday(t) + 1;
    assert back == (d + 5) % DaysPerWeek;
    var x := t - back * SecondsPerDay;
    assert t == d * SecondsPerDay + t % SecondsPerDay;
    assert x == (d - back) * SecondsPerDay + t % SecondsPerDay;
    assert x % SecondsPerDay == t % SecondsPerDay;
  }

  /** The Saturday midnight `m` with m <= t < m + one week is unique, and it
      is PreviousSaturday(t). */
  lemma PreviousSaturdayUnique(t: int, m: int)
    requires IsSaturdayMidnight(m)
    requires m <= t < m + SecondsPerWeek
    ensures PreviousSaturday(t) == m
  {
    PreviousSaturdayClosedForm(t);
    var k := Day(m);
    assert m == k * SecondsPerDay;
    var j := Day(t) - k;
    assert 0 <= j < DaysPerWeek;
    assert (k + 4) % DaysPerWeek == Saturday;
    assert (Day(t) + 5) % DaysPerWeek == j;
  }

  /** A Saturday midnight is its own week start, so the function is idempotent. */
  lemma PreviousSaturdayIdempotent(t: int)
    ensures PreviousSaturday(PreviousSaturday(t)) == PreviousSaturday(t)
  {
    PreviousSaturdayUnique(PreviousSaturday(t), PreviousSaturday(t));
  }

  /** The result depends only on the calendar day, not on the time of day. */
  lemma PreviousSaturdaySameDay(t: int, u: int)
    requires Day(t) == Day(u)
    ensures PreviousSaturday(t) == PreviousSaturday(u)
  {
    PreviousSaturdayClosedForm(t);
    PreviousSaturdayClosedForm(u);
  }

  /** Two instants share a week start exactly when they lie in the same
      Saturday-to-Friday week. */
  lemma PreviousSaturdaySameWeek(t: int, u: int)
    ensures PreviousSaturday(t) == PreviousSaturday(u) <==>
            PreviousSaturday(t) <= u < PreviousSaturday(t) + SecondsPerWeek
  {
    if PreviousSaturday(t) <= u < PreviousSaturday(t) + SecondsPerWeek {
      PreviousSaturdayUnique(u, PreviousSaturday(t));
    }
  }

  /** Later instants never have an earlier week start. */
  lemma PreviousSaturdayMonotonic(t: int, u: int)
    requires t <= u
    ensures PreviousSaturday(t) <= PreviousSaturday(u)
  {
    PreviousSaturdayClosedForm(t);
    PreviousSaturdayClosedForm(u);
    var d, e := Day(t), Day(u);
    assert d <= e;
    // d - (d + 5) % 7 is the largest number of the form 7k - 5 not above d
    assert d - (d + 5) % DaysPerWeek == DaysPerWeek * ((d + 5) / DaysPerWeek) - 5;
    assert e - (e + 5) % DaysPerWeek == DaysPerWeek * ((e + 5) / DaysPerWeek) - 5;
    assert (d + 5) / DaysPerWeek <= (e + 5) / DaysPerWeek;
  }
}
