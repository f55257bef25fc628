/** Activities, weekly summaries, and what it means for a sequence of
    summaries to be the weekly run report of a list of activities. */
module Activities {
  import opened Calendar
  import opened Seqs
  import opened Grouping

  /** An activity type is the string the fitness service reports, as in
      the Strava client library, whose `ActivityTypes.Run` is "Run". Only
      the string comparison of line 121 matters to the summariser. */
  type ActivityType = string

  const Run: ActivityType := "Run"
  const Ride: ActivityType := "Ride"

  /** One recorded workout. `startDate` is an instant in seconds,
      `elapsedTime` a number of seconds, and `distance` an additive
      quantity (metres) standing for the service's floating-point distance. */
  datatype Activity = Activity(kind: ActivityType, startDate: int, elapsedTime: int, distance: int)

  /** The runs of one week: `date` is the week's Saturday midnight,
      `count` the number of runs, `time` their total elapsed time in
      nanoseconds (a Go time.Duration) and `distance` their total distance. */
  datatype WeekSummary = WeekSummary(date: int, count: int, time: int, distance: int)

  const NanosPerSecond := 1_000_000_000

  predicate IsRun(a: Activity) {
    a.kind == Run
  }

  /** The runs of `s` are exactly its activities of type "Run", in order,
      and the others are skipped. */
  lemma RunsAreTheRunActivities(s: seq<Activity>)
    ensures forall a :: a in Runs(s) <==> a in s && a.kind == "Run"
    ensures |Runs(s)| <= |s|
  {
  }

  /** The week an activity belongs to, named by its starting Saturday. */
  function WeekOf(a: Activity): int {
    PreviousSaturday(a.startDate)
  }

  function Runs(s: seq<Activity>): seq<Activity> {
    Filter(IsRun, s)
  }

  /** Whether an activity is a run in the week starting at `w`. */
  function InWeek(w: int): Activity -> bool {
    (a: Activity) => IsRun(a) && WeekOf(a) == w
  }

  /** The runs of `s` in the week starting at `w`, in their order in `s`. */
  function RunsInWeek(s: seq<Activity>, w: int): seq<Activity> {
    Filter(InWeek(w), s)
  }

  function DistanceOf(a: Activity): int {
    a.distance
  }

  function ElapsedOf(a: Activity): int {
    a.elapsedTime
  }

  function CountOf(w: WeekSummary): int {
    w.count
  }

  function TotalDistance(s: seq<Activity>): int {
    Sum(DistanceOf, s)
  }

  function TotalElapsed(s: seq<Activity>): int {
    Sum(ElapsedOf, s)
  }

  function TotalCount(out: seq<WeekSummary>): int {
    Sum(CountOf, out)
  }

  /** The summary the summariser builds from one non-empty bucket of runs:
      the week of its first run, its size and its totals. */
  function Summarize(bucket: seq<Activity>): (r: WeekSummary)
    requires |bucket| > 0
    ensures r.count >= 1
    ensures IsSaturdayMidnight(r.date) && r.date <= bucket[0].startDate < r.date + SecondsPerWeek
  {
    WeekSummary(WeekOf(bucket[0]), |bucket|, TotalElapsed(bucket) * NanosPerSecond, TotalDistance(bucket))
  }

  /** Reference definition: the totals of the runs of `s` in week `w`,
      independent of any bucketing. */
  function WeekTotals(s: seq<Activity>, w: int): WeekSummary {
    var runs := RunsInWeek(s, w);
    WeekSummary(w, |runs|, TotalElapsed(runs) * NanosPerSecond, TotalDistance(runs))
  }

  /** The weeks that contain at least one run of `s`. */
  ghost function RunWeeks(s: seq<Activity>): set<int> {
    set a | a in s && IsRun(a) :: WeekOf(a)
  }

  function Dates(out: seq<WeekSummary>): set<int> {
    set k | 0 <= k < |out| :: out[k].date
  }

  lemma DateInDates(out: seq<WeekSummary>, k: int)
    requires 0 <= k < |out|
    ensures out[k].date in Dates(out)
  {
  }

  predicate DatesAscending(out: seq<WeekSummary>) {
    forall k, l :: 0 <= k < l < |out| ==> out[k].date < out[l].date
  }

  /** `out` is the weekly run report of `s`: one summary per week that holds
      a run, in strictly ascending week order, each carrying the count and
      totals of exactly the runs of that week. */
  ghost predicate IsWeeklySummaryOf(s: seq<Activity>, out: seq<WeekSummary>) {
    && DatesAscending(out)
    && Dates(out) == RunWeeks(s)
    && forall k :: 0 <= k < |out| ==> out[k] == WeekTotals(s, out[k].date)
  }

  /** The input that makes the summariser index an empty bucket: there is a
      run, and some activity (necessarily not a run) lies in a week before
      the week of every run. */
  ghost predicate LeadingNonRunWeek(s: seq<Activity>) {
    LeadingSkipped(IsRun, WeekOf, s)
  }

  /** Reordering the activities changes neither the report they have nor
      whether they trigger the empty bucket. */
  lemma ReportIgnoresOrder(s: seq<Activity>, t: seq<Activity>, out: seq<WeekSummary>)
    requires multiset(s) == multiset(t)
    ensures IsWeeklySummaryOf(s, out) <==> IsWeeklySummaryOf(t, out)
    ensures LeadingNonRunWeek(s) <==> LeadingNonRunWeek(t)
    ensures |Runs(s)| == |Runs(t)|
  {
    assert forall a :: a in s <==> a in t by {
      forall a ensures a in s <==> a in t {
        assert a in s <==> a in multiset(s);
        assert a in t <==> a in multiset(t);
      }
    }
    assert RunWeeks(s) == RunWeeks(t);
    forall w ensures WeekTotals(s, w) == WeekTotals(t, w) {
      WeekTotalsIgnoreOrder(s, t, w);
    }
    FilterPermutation(IsRun, s, t);
    assert |Runs(s)| == |multiset(Runs(s))| == |multiset(Runs(t))| == |Runs(t)|;
  }

  lemma WeekTotalsIgnoreOrder(s: seq<Activity>, t: seq<Activity>, w: int)
    requires multiset(s) == multiset(t)
    ensures WeekTotals(s, w) == WeekTotals(t, w)
  {
    var p := InWeek(w);
    FilterPermutation(p, s, t);
    SumPermutation(DistanceOf, Filter(p, s), Filter(p, t));
    SumPermutation(ElapsedOf, Filter(p, s), Filter(p, t));
    assert |Filter(p, s)| == |multiset(Filter(p, s))| == |multiset(Filter(p, t))| == |Filter(p, t)|;
  }

  /** Two sequences of summaries with strictly ascending dates and the same
      set of dates have the same dates in the same places. */
  lemma {:induction false} AscendingDatesDetermined(o1: seq<WeekSummary>, o2: seq<WeekSummary>)
    requires DatesAscending(o1) && DatesAscending(o2) && Dates(o1) == Dates(o2)
    ensures |o1| == |o2|
    ensures forall k :: 0 <= k < |o1| ==> o1[k].date == o2[k].date
    decreases |o1|
  {
    if o1 == [] {
      if o2 != [] {
        DateInDates(o2, 0);
      }
    } else {
      assert o1[0].date in Dates(o1);
      assert o2 != [];
      assert o2[0].date in Dates(o1);
      assert o1[0].date in Dates(o2);
      assert o1[0].date == o2[0].date;
      var t1, t2 := o1[1..], o2[1..];
      assert Dates(t1) == Dates(o1) - {o1[0].date} by {
        forall d ensures d in Dates(t1) <==> d in Dates(o1) - {o1[0].date} {
          if d in Dates(o1) - {o1[0].date} {
            var k :| 0 <= k < |o1| && o1[k].date == d;
            assert t1[k - 1] == o1[k];
          }
          if d in Dates(t1) {
            var k :| 0 <= k < |t1| && t1[k].date == d;
            assert o1[k + 1] == t1[k];
          }
        }
      }
      assert Dates(t2) == Dates(o2) - {o2[0].date} by {
        forall d ensures d in Dates(t2) <==> d in Dates(o2) - {o2[0].date} {
          if d in Dates(o2) - {o2[0].date} {
            var k :| 0 <= k < |o2| && o2[k].date == d;
            assert t2[k - 1] == o2[k];
          }
          if d in Dates(t2) {
            var k :| 0 <= k < |t2| && t2[k].date == d;
            assert o2[k + 1] == t2[k];
          }
        }
      }
      AscendingDatesDetermined(t1, t2);
      forall k | 0 < k < |o1| ensures o1[k].date == o2[k].date {
        assert o1[k] == t1[k - 1] && o2[k] == t2[k - 1];
      }
    }
  }

  /** The report of a list of activities is unique. */
  lemma ReportIsUnique(s: seq<Activity>, o1: seq<WeekSummary>, o2: seq<WeekSummary>)
    requires IsWeeklySummaryOf(s, o1) && IsWeeklySummaryOf(s, o2)
    ensures o1 == o2
  {
    AscendingDatesDetermined(o1, o2);
  }

  /** Reordering the input does not change its report. */
  lemma PermutedInputSameReport(s: seq<Activity>, t: seq<Activity>, o1: seq<WeekSummary>, o2: seq<WeekSummary>)
    requires multiset(s) == multiset(t)
    requires IsWeeklySummaryOf(s, o1) && IsWeeklySummaryOf(t, o2)
    ensures o1 == o2
  {
    ReportIgnoresOrder(s, t, o2);
    ReportIsUnique(s, o1, o2);
  }

  /** Every summary in a report covers at least one run, is dated on a
      Saturday midnight, and that date is the week start of each of its runs. */
  lemma ReportWeeksHaveRuns(s: seq<Activity>, out: seq<WeekSummary>, k: int)
    requires IsWeeklySummaryOf(s, out)
    requires 0 <= k < |out|
    ensures out[k].count >= 1
    ensures IsSaturdayMidnight(out[k].date)
    ensures forall a :: a in RunsInWeek(s, out[k].date) ==>
              out[k].date <= a.startDate < out[k].date + SecondsPerWeek
  {
    var w := out[k].date;
    assert w in Dates(out);
    var a :| a in s && IsRun(a) && WeekOf(a) == w;
    assert a in RunsInWeek(s, w);
  }

  /** Activities that are not runs never produce a summary. */
  lemma NoRunsNoReport(s: seq<Activity>, out: seq<WeekSummary>)
    requires forall a :: a in s ==> !IsRun(a)
    requires IsWeeklySummaryOf(s, out)
    ensures out == []
  {
    assert RunWeeks(s) == {};
    if out != [] {
      DateInDates(out, 0);
    }
  }

  /** The empty report is the report of an empty list. */
  lemma EmptyReport()
    ensures IsWeeklySummaryOf([], [])
    ensures !LeadingNonRunWeek([])
  {
  }
}
