/** The cases of the repository's tests, restated as facts about the model,
    and the smallest input that reaches the empty bucket. */
module Scenarios {
  import opened Calendar
  import opened Seqs
  import opened Activities
  import opened Summaries

  // 2018-03-03 (a Saturday) and the days around it, at midnight UTC
  const Saturday0303 := 1520035200
  const Monday0305 := 1520208000
  const Tuesday0306 := 1520294400
  const Saturday0310 := 1520640000
  const Friday0302 := 1519948800
  const Saturday0224 := 1519430400

  const Morning := 8 * 3600
  const Afternoon := 18 * 3600

  const Short := 10
  const Long := 20

  function Minutes(m: int): int {
    m * 60
  }

  function RunAt(t: int, minutes: int, distance: int): Activity {
    Activity(Run, t, Minutes(minutes), distance)
  }

  function RideAt(t: int, minutes: int, distance: int): Activity {
    Activity(Ride, t, Minutes(minutes), distance)
  }

  /** A summary as the tests write it, with the time in minutes. */
  function Week(date: int, count: int, minutes: int, distance: int): WeekSummary {
    WeekSummary(date, count, Minutes(minutes) * NanosPerSecond, distance)
  }

  // Filters and sums of short literal sequences.

  lemma Filter2<T(!new)>(p: T -> bool, a: T, b: T)
    ensures Filter(p, [a, b]) == (if p(a) then [a] else []) + (if p(b) then [b] else [])
  {
    assert [a, b][..1] == [a];
    assert [a][..0] == [];
  }

  lemma Filter3<T(!new)>(p: T -> bool, a: T, b: T, c: T)
    ensures Filter(p, [a, b, c]) == (if p(a) then [a] else []) + (if p(b) then [b] else []) + (if p(c) then [c] else [])
  {
    assert [a, b, c][..2] == [a, b];
    Filter2(p, a, b);
  }

  lemma Sum2<T>(f: T -> int, a: T, b: T)
    ensures Sum(f, [a]) == f(a)
    ensures Sum(f, [a, b]) == f(a) + f(b)
  {
    assert [a, b][..1] == [a];
    assert [a][..0] == [];
  }

  lemma Sum3<T>(f: T -> int, a: T, b: T, c: T)
    ensures Sum(f, [a, b, c]) == f(a) + f(b) + f(c)
  {
    assert [a, b, c][..2] == [a, b];
    Sum2(f, a, b);
  }

  // The totals of a week over two or three activities, by which of them
  // are runs of that week.

  lemma TotalsOfThree(a: Activity, b: Activity, c: Activity, w: int)
    requires InWeek(w)(a) && InWeek(w)(b) && InWeek(w)(c)
    ensures WeekTotals([a, b, c], w) ==
            WeekSummary(w, 3, (a.elapsedTime + b.elapsedTime + c.elapsedTime) * NanosPerSecond,
                        a.distance + b.distance + c.distance)
  {
    Filter3(InWeek(w), a, b, c);
    assert RunsInWeek([a, b, c], w) == [a, b, c];
    Sum3(ElapsedOf, a, b, c);
    Sum3(DistanceOf, a, b, c);
  }

  lemma TotalsOfFirstTwo(a: Activity, b: Activity, c: Activity, w: int)
    requires InWeek(w)(a) && InWeek(w)(b) && !InWeek(w)(c)
    ensures WeekTotals([a, b, c], w) ==
            WeekSummary(w, 2, (a.elapsedTime + b.elapsedTime) * NanosPerSecond, a.distance + b.distance)
  {
    Filter3(InWeek(w), a, b, c);
    assert RunsInWeek([a, b, c], w) == [a, b];
    Sum2(ElapsedOf, a, b);
    Sum2(DistanceOf, a, b);
  }

  lemma TotalsOfLast(a: Activity, b: Activity, c: Activity, w: int)
    requires !InWeek(w)(a) && !InWeek(w)(b) && InWeek(w)(c)
    ensures WeekTotals([a, b, c], w) == WeekSummary(w, 1, c.elapsedTime * NanosPerSecond, c.distance)
  {
    Filter3(InWeek(w), a, b, c);
    assert RunsInWeek([a, b, c], w) == [c];
    Sum2(ElapsedOf, c, c);
    Sum2(DistanceOf, c, c);
  }

  lemma TotalsOfFirstOfTwo(a: Activity, b: Activity, w: int)
    requires InWeek(w)(a) && !InWeek(w)(b)
    ensures WeekTotals([a, b], w) == WeekSummary(w, 1, a.elapsedTime * NanosPerSecond, a.distance)
  {
    Filter2(InWeek(w), a, b);
    Sum2(ElapsedOf, a, b);
    Sum2(DistanceOf, a, b);
  }

  lemma TotalsOfSecondOfTwo(a: Activity, b: Activity, w: int)
    requires !InWeek(w)(a) && InWeek(w)(b)
    ensures WeekTotals([a, b], w) == WeekSummary(w, 1, b.elapsedTime * NanosPerSecond, b.distance)
  {
    Filter2(InWeek(w), a, b);
    Sum2(ElapsedOf, b, a);
    Sum2(DistanceOf, b, a);
  }

  /** A report of one summary: every run lies in week `w`, and there is one. */
  lemma OneWeekReport(s: seq<Activity>, r: Activity, w: int)
    requires r in s && IsRun(r) && WeekOf(r) == w
    requires forall x :: x in s && IsRun(x) ==> WeekOf(x) == w
    ensures IsWeeklySummaryOf(s, [WeekTotals(s, w)])
  {
    var out := [WeekTotals(s, w)];
    DateInDates(out, 0);
    assert RunWeeks(s) == {w};
    assert Dates(out) == {w};
  }

  /** A report of two summaries: every run lies in week `w1` or the later
      week `w2`, and each of them holds a run. */
  lemma TwoWeekReport(s: seq<Activity>, r1: Activity, r2: Activity, w1: int, w2: int)
    requires r1 in s && IsRun(r1) && WeekOf(r1) == w1
    requires r2 in s && IsRun(r2) && WeekOf(r2) == w2
    requires w1 < w2
    requires forall x :: x in s && IsRun(x) ==> WeekOf(x) == w1 || WeekOf(x) == w2
    ensures IsWeeklySummaryOf(s, [WeekTotals(s, w1), WeekTotals(s, w2)])
  {
    var out := [WeekTotals(s, w1), WeekTotals(s, w2)];
    DateInDates(out, 0);
    DateInDates(out, 1);
    assert RunWeeks(s) == {w1, w2};
    assert Dates(out) == {w1, w2};
  }

  /** A run with the least week rules out a leading non-run week. */
  lemma FirstWeekHasRun(s: seq<Activity>, r: Activity)
    requires r in s && IsRun(r) && forall x :: x in s ==> WeekOf(r) <= WeekOf(x)
    ensures !LeadingNonRunWeek(s)
  {
  }

  /** An activity in a week before every run's week, with some run present. */
  lemma EarlierThanEveryRun(s: seq<Activity>, a: Activity, r: Activity)
    requires a in s && r in s && IsRun(r)
    requires forall x :: x in s && IsRun(x) ==> WeekOf(a) < WeekOf(x)
    ensures LeadingNonRunWeek(s)
  {
  }

  /** The dates of the PreviousSaturday test: Monday and Saturday map to
      that Saturday, the Friday before it to the Saturday a week earlier,
      and the time of day does not matter. */
  lemma PreviousSaturdayExamples()
    ensures PreviousSaturday(Monday0305) == Saturday0303
    ensures PreviousSaturday(Saturday0303) == Saturday0303
    ensures PreviousSaturday(Friday0302) == Saturday0224
    ensures PreviousSaturday(Saturday0303 + Morning) == PreviousSaturday(Saturday0303)
  {
  }

  lemma AllInOneWeek()
    ensures var s := [RunAt(Saturday0303 + Afternoon, 22, Long),
                      RunAt(Monday0305 + Morning, 20, Short),
                      RunAt(Tuesday0306 + Morning, 10, Short)];
            IsWeeklySummaryOf(s, [Week(Saturday0303, 3, 20 + 10 + 22, Short + Short + Long)]) &&
            !LeadingNonRunWeek(s)
  {
    var a, b, c := RunAt(Saturday0303 + Afternoon, 22, Long), RunAt(Monday0305 + Morning, 20, Short),
                   RunAt(Tuesday0306 + Morning, 10, Short);
    var s, w := [a, b, c], Saturday0303;
    assert WeekOf(a) == w && WeekOf(b) == w && WeekOf(c) == w;
    TotalsOfThree(a, b, c, w);
    OneWeekReport(s, a, w);
    FirstWeekHasRun(s, a);
  }

  lemma AcrossTwoWeeks()
    ensures var s := [RunAt(Monday0305 + Morning, 20, Short),
                      RunAt(Saturday0310 + Morning, 21, Long)];
            IsWeeklySummaryOf(s, [Week(Saturday0303, 1, 20, Short), Week(Saturday0310, 1, 21, Long)]) &&
            !LeadingNonRunWeek(s)
  {
    var a, b := RunAt(Monday0305 + Morning, 20, Short), RunAt(Saturday0310 + Morning, 21, Long);
    var s, w1, w2 := [a, b], Saturday0303, Saturday0310;
    assert WeekOf(a) == w1 && WeekOf(b) == w2;
    TotalsOfFirstOfTwo(a, b, w1);
    TotalsOfSecondOfTwo(a, b, w2);
    TwoWeekReport(s, a, b, w1, w2);
    FirstWeekHasRun(s, a);
  }

  lemma TwoInFirstOneInSecondWeek()
    ensures var s := [RunAt(Saturday0303 + Morning, 20, Short),
                      RunAt(Monday0305 + Afternoon, 10, Long),
                      RunAt(Saturday0310 + Morning, 21, Long)];
            IsWeeklySummaryOf(s, [Week(Saturday0303, 2, 30, Short + Long), Week(Saturday0310, 1, 21, Long)]) &&
            !LeadingNonRunWeek(s)
  {
    var a, b, c := RunAt(Saturday0303 + Morning, 20, Short), RunAt(Monday0305 + Afternoon, 10, Long),
                   RunAt(Saturday0310 + Morning, 21, Long);
    var s, w1, w2 := [a, b, c], Saturday0303, Saturday0310;
    assert WeekOf(a) == w1 && WeekOf(b) == w1 && WeekOf(c) == w2;
    TotalsOfFirstTwo(a, b, c, w1);
    TotalsOfLast(a, b, c, w2);
    TwoWeekReport(s, a, c, w1, w2);
    FirstWeekHasRun(s, a);
  }

  lemma RidesAreSkipped()
    ensures var s := [RideAt(Saturday0303 + Morning, 20, Short)];
            IsWeeklySummaryOf(s, []) && !LeadingNonRunWeek(s)
  {
    var a := RideAt(Saturday0303 + Morning, 20, Short);
    assert forall x :: x in [a] <==> x == a;
    assert RunWeeks([a]) == {};
  }

  /** A ride earlier in the same week as the first run does not open an
      empty bucket. */
  lemma RidesAreSkippedInRunWeek()
    ensures var s := [RideAt(Saturday0303 + Morning, 20, Short),
                      RunAt(Monday0305 + Morning, 20, Short)];
            IsWeeklySummaryOf(s, [Week(Saturday0303, 1, 20, Short)]) && !LeadingNonRunWeek(s)
  {
    var a, b := RideAt(Saturday0303 + Morning, 20, Short), RunAt(Monday0305 + Morning, 20, Short);
    var s, w := [a, b], Saturday0303;
    assert WeekOf(a) == w && WeekOf(b) == w;
    TotalsOfSecondOfTwo(a, b, w);
    OneWeekReport(s, b, w);
    FirstWeekHasRun(s, b);
  }

  /** A ride in the week before the first run: the walk is seeded with the
      ride's week, so the first run cuts an empty bucket, and summarising it
      indexes w[0] of an empty slice. The report it should have produced
      holds the one run. */
  lemma RideInEarlierWeek()
    ensures var s := [RideAt(Friday0302 + Morning, 20, Short),
                      RunAt(Monday0305 + Morning, 20, Short)];
            LeadingNonRunWeek(s) && IsWeeklySummaryOf(s, [Week(Saturday0303, 1, 20, Short)])
  {
    var a, b := RideAt(Friday0302 + Morning, 20, Short), RunAt(Monday0305 + Morning, 20, Short);
    var s, w := [a, b], Saturday0303;
    assert WeekOf(a) == Saturday0224 && WeekOf(b) == w;
    TotalsOfSecondOfTwo(a, b, w);
    OneWeekReport(s, b, w);
    EarlierThanEveryRun(s, a, b);
  }

  // The cases of TestMarathon, run through ComputeWeeklySummaries itself.

  /** Copies `s` into a fresh array, as the test's slice literal. */
  method ArrayOf(s: seq<Activity>) returns (acts: array<Activity>)
    ensures acts[..] == s
  {
    acts := new Activity[|s|];
    forall i | 0 <= i < |s| {
      acts[i] := s[i];
    }
  }

  /** ComputeWeeklySummaries on `s`, when `s` has the report `out` and no
      leading non-run week, returns exactly `out`. */
  method ExpectReport(s: seq<Activity>, out: seq<WeekSummary>) returns (r: Result<seq<WeekSummary>>)
    requires IsWeeklySummaryOf(s, out) && !LeadingNonRunWeek(s)
    ensures r == Ok(out)
  {
    var acts := ArrayOf(s);
    r := ComputeWeeklySummaries(acts);
    ReportIsUnique(s, r.value, out);
  }

  method ComputeAllInOneWeek() returns (r: Result<seq<WeekSummary>>)
    ensures r == Ok([Week(Saturday0303, 3, 20 + 10 + 22, Short + Short + Long)])
  {
    AllInOneWeek();
    r := ExpectReport([RunAt(Saturday0303 + Afternoon, 22, Long),
                       RunAt(Monday0305 + Morning, 20, Short),
                       RunAt(Tuesday0306 + Morning, 10, Short)],
                      [Week(Saturday0303, 3, 20 + 10 + 22, Short + Short + Long)]);
  }

  method ComputeNoActivities() returns (r: Result<seq<WeekSummary>>)
    ensures r == Ok([])
  {
    var acts := ArrayOf([]);
    r := ComputeWeeklySummaries(acts);
  }

  method ComputeAcrossTwoWeeks() returns (r: Result<seq<WeekSummary>>)
    ensures r == Ok([Week(Saturday0303, 1, 20, Short), Week(Saturday0310, 1, 21, Long)])
  {
    AcrossTwoWeeks();
    r := ExpectReport([RunAt(Monday0305 + Morning, 20, Short),
                       RunAt(Saturday0310 + Morning, 21, Long)],
                      [Week(Saturday0303, 1, 20, Short), Week(Saturday0310, 1, 21, Long)]);
  }

  method ComputeTwoInFirstOneInSecondWeek() returns (r: Result<seq<WeekSummary>>)
    ensures r == Ok([Week(Saturday0303, 2, 30, Short + Long), Week(Saturday0310, 1, 21, Long)])
  {
    TwoInFirstOneInSecondWeek();
    r := ExpectReport([RunAt(Saturday0303 + Morning, 20, Short),
                       RunAt(Monday0305 + Afternoon, 10, Long),
                       RunAt(Saturday0310 + Morning, 21, Long)],
                      [Week(Saturday0303, 2, 30, Short + Long), Week(Saturday0310, 1, 21, Long)]);
  }

  method ComputeRidesAreSkipped() returns (r: Result<seq<WeekSummary>>)
    ensures r == Ok([])
  {
    RidesAreSkipped();
    r := ExpectReport([RideAt(Saturday0303 + Morning, 20, Short)], []);
  }

  method ComputeRidesAreSkippedInRunWeek() returns (r: Result<seq<WeekSummary>>)
    ensures r == Ok([Week(Saturday0303, 1, 20, Short)])
  {
    RidesAreSkippedInRunWeek();
    r := ExpectReport([RideAt(Saturday0303 + Morning, 20, Short),
                       RunAt(Monday0305 + Morning, 20, Short)],
                      [Week(Saturday0303, 1, 20, Short)]);
  }

  /** Both versions on `s`: with a leading non-run week and the report
      `out`, the code as written panics and the corrected one returns `out`. */
  method ExpectPanic(s: seq<Activity>, out: seq<WeekSummary>) returns (r: Result<seq<WeekSummary>>, fixed: seq<WeekSummary>)
    requires IsWeeklySummaryOf(s, out) && LeadingNonRunWeek(s)
    ensures r == Panic(IndexOutOfRange)
    ensures fixed == out
  {
    var acts := ArrayOf(s);
    r := ComputeWeeklySummaries(acts);
    fixed := ComputeWeeklySummariesNoEmptyBucket(acts);
    ReportIsUnique(s, fixed, out);
  }

  method ComputeRideInEarlierWeek() returns (r: Result<seq<WeekSummary>>, fixed: seq<WeekSummary>)
    ensures r == Panic(IndexOutOfRange)
    ensures fixed == [Week(Saturday0303, 1, 20, Short)]
  {
    RideInEarlierWeek();
    r, fixed := ExpectPanic([RideAt(Friday0302 + Morning, 20, Short),
                             RunAt(Monday0305 + Morning, 20, Short)],
                            [Week(Saturday0303, 1, 20, Short)]);
  }
}
