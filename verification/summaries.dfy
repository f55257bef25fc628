/** ComputeWeeklySummaries of handlers.go, phase by phase: copy and sort
    the activities, walk them into week buckets, and total each bucket. */
module Summaries {
  import opened Calendar
  import opened Seqs
  import opened Activities
  import opened Grouping

  /** A Go call either returns a value or panics. */
  datatype Result<T> = Ok(value: T) | Panic(message: string)

  /** The message of the Go runtime panic raised by `w[0]` on an empty slice. */
  const IndexOutOfRange := "runtime error: index out of range [0] with length 0"

  ghost predicate SortedByStart(s: seq<Activity>) {
    forall i, j :: 0 <= i < j < |s| ==> s[i].startDate <= s[j].startDate
  }

  /** Buckets of runs, one week each, whose weeks strictly ascend: what the
      walk builds. */
  ghost predicate AscendingBuckets(bs: seq<seq<Activity>>) {
    Ascending(IsRun, WeekOf, bs)
  }

  /** Sorts by start date in place. sort.Slice is not stable; this
      insertion sort is one of the orders it may produce, and nothing below
      depends on which sorted permutation is chosen. */
  method SortByStart(a: array<Activity>)
    modifies a
    ensures SortedByStart(a[..])
    ensures multiset(a[..]) == multiset(old(a[..]))
  {
    for i := 0 to a.Length
      invariant forall p, q :: 0 <= p < q < i ==> a[p].startDate <= a[q].startDate
      invariant multiset(a[..]) == multiset(old(a[..]))
    {
      InsertLast(a, i);
    }
  }

  /** s[..i + 1] is sorted by start date except, possibly, at position j. */
  ghost predicate SortedExcept(s: seq<Activity>, i: int, j: int)
    requires i < |s|
  {
    forall p, q :: 0 <= p < q <= i && q != j ==> s[p].startDate <= s[q].startDate
  }

  /** Swapping an out-of-order s[j - 1], s[j] moves the exception one place left. */
  lemma SwapMovesException(b: seq<Activity>, c: seq<Activity>, i: int, j: int)
    requires 0 < j <= i < |b| && b[j].startDate < b[j - 1].startDate
    requires SortedExcept(b, i, j)
    requires c == b[j - 1 := b[j]][j := b[j - 1]]
    ensures SortedExcept(c, i, j - 1)
    ensures c[i + 1..] == b[i + 1..]
  {
  }

  /** Once s[j - 1] <= s[j], or j is 0, there is no exception left. */
  lemma NoException(s: seq<Activity>, i: int, j: int)
    requires 0 <= j <= i < |s| && SortedExcept(s, i, j)
    requires j == 0 || s[j - 1].startDate <= s[j].startDate
    ensures forall p, q :: 0 <= p < q <= i ==> s[p].startDate <= s[q].startDate
  {
  }

  /** Moves a[i] back into the sorted prefix a[..i], leaving a[i + 1..]
      as it was. */
  method InsertLast(a: array<Activity>, i: int)
    requires 0 <= i < a.Length
    requires forall p, q :: 0 <= p < q < i ==> a[p].startDate <= a[q].startDate
    modifies a
    ensures forall p, q :: 0 <= p < q <= i ==> a[p].startDate <= a[q].startDate
    ensures multiset(a[..i + 1]) == multiset(old(a[..i + 1]))
    ensures a[i + 1..] == old(a[i + 1..])
    ensures multiset(a[..]) == multiset(old(a[..]))
  {
    var j := i;
    while j > 0 && a[j].startDate < a[j - 1].startDate
      invariant 0 <= j <= i
      invariant SortedExcept(a[..], i, j)
      invariant a[..][i + 1..] == old(a[..])[i + 1..]
      invariant multiset(a[..]) == multiset(old(a[..]))
    {
      ghost var b := a[..];
      Swap(a, j - 1, j);
      SwapMovesException(b, a[..], i, j);
      j := j - 1;
    }
    NoException(a[..], i, j);
    PrefixPermutation(a[..], old(a[..]), i + 1);
  }

  method Swap(a: array<Activity>, i: int, j: int)
    requires 0 <= i < a.Length && 0 <= j < a.Length
    modifies a
    ensures a[..] == old(a[..])[i := old(a[j])][j := old(a[i])]
    ensures multiset(a[..]) == multiset(old(a[..]))
  {
    a[i], a[j] := a[j], a[i];
  }

  /** In sorted order, week starts never decrease. */
  lemma SortedWeeks(s: seq<Activity>)
    requires SortedByStart(s)
    ensures KeysAscend(WeekOf, s)
  {
    forall i, j | 0 <= i <= j < |s| ensures WeekOf(s[i]) <= WeekOf(s[j]) {
      PreviousSaturdayMonotonic(s[i].startDate, s[j].startDate);
    }
  }

  /** Lines 114-135: walk the sorted activities, skipping everything but
      runs, and cut a new bucket whenever the week start changes. The walk
      is seeded with the week of the first activity of any kind, so when
      that is a non-run in an earlier week than every run, the first cut
      flushes the still-empty bucket. */
  method GroupByWeek(acts: array<Activity>) returns (weeks: seq<seq<Activity>>)
    requires acts.Length > 0 && SortedByStart(acts[..])
    ensures LeadingNonRunWeek(acts[..]) ==>
              |weeks| > 0 && weeks[0] == [] &&
              AscendingBuckets(weeks[1..]) && Flatten(weeks[1..]) == Runs(acts[..])
    ensures !LeadingNonRunWeek(acts[..]) ==>
              AscendingBuckets(weeks) && Flatten(weeks) == Runs(acts[..])
  {
    ghost var s := acts[..];
    SortedWeeks(s);
    var curWeekStart := PreviousSaturday(acts[0].startDate);
    ghost var seed := curWeekStart;
    weeks := [];
    var weekActs: seq<Activity> := [];
    // the buckets cut so far without the empty one, and whether it was cut
    ghost var body: seq<seq<Activity>> := [];
    ghost var defect := false;
    WalkStart(IsRun, WeekOf, s);
    for i := 0 to acts.Length
      invariant Walked(IsRun, WeekOf, s, i, seed, curWeekStart, weeks, body, weekActs, defect)
    {
      var a := acts[i];
      if a.kind != Run {
        WalkSkip(IsRun, WeekOf, s, i, seed, curWeekStart, weeks, body, weekActs, defect);
        continue;
      }
      var weekStart := PreviousSaturday(a.startDate);
      if curWeekStart == weekStart {
        WalkSameKey(IsRun, WeekOf, s, i, seed, curWeekStart, weeks, body, weekActs, defect);
        weekActs := weekActs + [a];
      } else {
        if weekActs == [] {
          WalkEmptyCut(IsRun, WeekOf, s, i, seed, curWeekStart, weeks, body, weekActs, defect);
          defect := true;
        } else {
          WalkNewKey(IsRun, WeekOf, s, i, seed, curWeekStart, weeks, body, weekActs, defect);
          body := body + [weekActs];
        }
        weeks := weeks + [weekActs];
        weekActs := [a];
        curWeekStart := weekStart;
      }
    }
    WalkEmptyCutExactly(IsRun, WeekOf, s, curWeekStart, weeks, body, weekActs, defect);
    WalkCollected(IsRun, WeekOf, s, seed, curWeekStart, weeks, body, weekActs, defect);
    Flush(IsRun, WeekOf, weeks, body, weekActs, defect, Runs(s));
    // Go tests weekActs != nil; weekActs is nil exactly while it is empty
    if |weekActs| > 0 {
      weeks := weeks + [weekActs];
    }
  }

  /** Lines 136-153: total each bucket. The date comes from w[0], which
      panics on an empty bucket. */
  method SummarizeWeeks(weeks: seq<seq<Activity>>) returns (r: Result<seq<WeekSummary>>)
    ensures r.Ok? <==> forall k :: 0 <= k < |weeks| ==> |weeks[k]| > 0
    ensures r.Ok? ==> |r.value| == |weeks| && forall k :: 0 <= k < |weeks| ==> r.value[k] == Summarize(weeks[k])
    ensures r.Panic? ==> r.message == IndexOutOfRange
  {
    var sums: seq<WeekSummary> := [];
    for k := 0 to |weeks|
      invariant |sums| == k
      invariant forall m :: 0 <= m < k ==> |weeks[m]| > 0 && sums[m] == Summarize(weeks[m])
    {
      var w := weeks[k];
      var dist := 0;
      for m := 0 to |w|
        invariant dist == TotalDistance(w[..m])
      {
        assert w[..m + 1][..m] == w[..m];
        dist := dist + w[m].distance;
      }
      var elapsed := 0;
      for m := 0 to |w|
        invariant elapsed == TotalElapsed(w[..m])
      {
        assert w[..m + 1][..m] == w[..m];
        elapsed := elapsed + w[m].elapsedTime;
      }
      assert w[..|w|] == w;
      if |w| == 0 {
        return Panic(IndexOutOfRange);
      }
      var sum := WeekSummary(PreviousSaturday(w[0].startDate), |w|, elapsed * NanosPerSecond, dist);
      sums := sums + [sum];
    }
    return Ok(sums);
  }

  /** Ascending buckets of the runs of a sorted copy of `s`, totalled one by
      one, are the weekly report of `s`. */
  lemma BucketsMeetReport(s: seq<Activity>, sorted: seq<Activity>, bs: seq<seq<Activity>>, out: seq<WeekSummary>)
    requires multiset(s) == multiset(sorted)
    requires AscendingBuckets(bs) && Flatten(bs) == Runs(sorted)
    requires |out| == |bs| && forall k :: 0 <= k < |bs| ==> out[k] == Summarize(bs[k])
    ensures IsWeeklySummaryOf(s, out)
    ensures TotalCount(out) == |Runs(s)|
  {
    ReportIgnoresOrder(s, sorted, out);
    forall k | 0 <= k < |out| ensures out[k] == WeekTotals(sorted, out[k].date) {
      BucketIsWeekTotals(sorted, bs, k);
    }
    BucketWeeksAreRunWeeks(sorted, bs, out);
    CountsAreBucketSizes(bs, out);
  }

  /** Each bucket holds exactly the runs of its week, so its summary is
      that week's totals. */
  lemma BucketIsWeekTotals(sorted: seq<Activity>, bs: seq<seq<Activity>>, k: int)
    requires AscendingBuckets(bs) && Flatten(bs) == Runs(sorted)
    requires 0 <= k < |bs|
    ensures |bs[k]| > 0 && Summarize(bs[k]) == WeekTotals(sorted, WeekOf(bs[k][0]))
  {
    var w := WeekOf(bs[k][0]);
    SelectBucket(IsRun, WeekOf, bs, k, InWeek(w));
    FilterOfFilter(IsRun, InWeek(w), sorted);
  }

  /** The weeks of the buckets are the weeks that hold a run. */
  lemma BucketWeeksAreRunWeeks(sorted: seq<Activity>, bs: seq<seq<Activity>>, out: seq<WeekSummary>)
    requires AscendingBuckets(bs) && Flatten(bs) == Runs(sorted)
    requires |out| == |bs| && forall k :: 0 <= k < |bs| ==> out[k].date == WeekOf(bs[k][0])
    ensures Dates(out) == RunWeeks(sorted)
  {
    forall d ensures d in Dates(out) <==> d in RunWeeks(sorted) {
      if d in Dates(out) {
        var k :| 0 <= k < |out| && out[k].date == d;
        FlattenMember(bs, bs[k][0]);
        assert bs[k][0] in Runs(sorted);
      }
      if d in RunWeeks(sorted) {
        var a :| a in sorted && IsRun(a) && WeekOf(a) == d;
        assert a in Runs(sorted);
        FlattenMember(bs, a);
        var k :| 0 <= k < |bs| && a in bs[k];
        DateInDates(out, k);
      }
    }
  }

  lemma {:induction false} CountsAreBucketSizes(bs: seq<seq<Activity>>, out: seq<WeekSummary>)
    requires |out| == |bs| && forall k :: 0 <= k < |bs| ==> out[k].count == |bs[k]|
    ensures TotalCount(out) == |Flatten(bs)|
  {
    if bs != [] {
      CountsAreBucketSizes(bs[..|bs| - 1], out[..|out| - 1]);
    }
  }

  /** ComputeWeeklySummaries (lines 105-155) as written. The caller's array
      is only read; the sort works on a fresh copy. */
  method ComputeWeeklySummaries(activities: array<Activity>) returns (r: Result<seq<WeekSummary>>)
    ensures activities.Length == 0 ==> r == Ok([])
    ensures r.Panic? <==> LeadingNonRunWeek(activities[..])
    ensures r.Panic? ==> r.message == IndexOutOfRange
    ensures r.Ok? ==> IsWeeklySummaryOf(activities[..], r.value)
    ensures r.Ok? ==> TotalCount(r.value) == |Runs(activities[..])|
  {
    if activities.Length == 0 {
      return Ok([]);
    }
    var acts := new Activity[activities.Length];
    forall i | 0 <= i < activities.Length {
      acts[i] := activities[i];
    }
    assert acts[..] == activities[..];
    SortByStart(acts);
    var weeks := GroupByWeek(acts);
    r := SummarizeWeeks(weeks);
    ReportIgnoresOrder(activities[..], acts[..], []);
    if !LeadingNonRunWeek(acts[..]) {
      BucketsMeetReport(activities[..], acts[..], weeks, r.value);
    }
  }

  /** The evidently intended behaviour: as above, but the empty bucket that
      line 128 flushes before the first run is dropped, which is what
      guarding line 128 with `weekActs != nil` does. It never panics. */
  method ComputeWeeklySummariesNoEmptyBucket(activities: array<Activity>) returns (out: seq<WeekSummary>)
    ensures IsWeeklySummaryOf(activities[..], out)
    ensures TotalCount(out) == |Runs(activities[..])|
  {
    if activities.Length == 0 {
      return [];
    }
    var acts := new Activity[activities.Length];
    forall i | 0 <= i < activities.Length {
      acts[i] := activities[i];
    }
    assert acts[..] == activities[..];
    SortByStart(acts);
    var weeks := GroupByWeek(acts);
    if |weeks| > 0 && weeks[0] == [] {
      weeks := weeks[1..];
    }
    assert AscendingBuckets(weeks) && Flatten(weeks) == Runs(acts[..]);
    var r := SummarizeWeeks(weeks);
    out := r.value;
    BucketsMeetReport(activities[..], acts[..], weeks, out);
  }
}
