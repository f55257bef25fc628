# Weekly run summaries of jaju-running, in Dafny

jaju-running shows runners their marathon training. Its core reduces a
runner's activities, as fetched from Strava, to one summary per training
week. A week starts at Saturday midnight. Each summary holds:

- the date the week starts;
- the number of runs in it;
- the total elapsed time of those runs, as a Go `time.Duration`;
- their total distance.

Only runs count: rides and every other activity type are skipped.

This project models that core and proves its properties:

- `PreviousSaturday`, the week-start function;
- `ComputeWeeklySummaries`, the reduction;
- the `WeekSummary` record (handlers.go:74-86), the datatype `Activities.WeekSummary`, built by `Activities.Summarize`;
- the run test at line 121, which compares the activity type with the string "Run".

The files:

- `calendar.dfy` holds instants and weeks. An instant is a whole number of seconds since 1970-01-01 UTC. `PreviousSaturday` is written out as the Go code computes it: weekday, days to go back, subtraction, then truncation to a day.
- `activities.dfy` holds activities, summaries and the reference meaning of a report. `IsWeeklySummaryOf(s, out)` says that `out` has one summary per week holding a run, in strictly ascending date order. Each summary's count and totals are those of exactly that week's runs. `LeadingNonRunWeek(s)` describes the inputs on which the Go code panics.
- `summaries.dfy` holds `ComputeWeeklySummaries` as an imperative method over arrays and sequences, split along the Go function's phases:
  - copy and sort the input (`SortByStart`);
  - walk the sorted activities into week buckets (`GroupByWeek`);
  - total each bucket (`SummarizeWeeks`).
  A Go panic becomes a `Panic` result.
- `grouping.dfy` holds the bucketing walk's invariant and its one-step lemmas, stated for any key. `GroupByWeek` instantiates the key with the week of an activity.
- `seqs.dfy` holds filtering, sums and flattening of sequences.
- `scenarios.dfy` holds the repository's test cases. Each is restated as a lemma about the report, and again as a method that passes the test's activities to `ComputeWeeklySummaries` and proves it returns exactly the expected result.

The main results:

- `ComputeWeeklySummaries` panics exactly on `LeadingNonRunWeek`.
- Otherwise it returns the unique report of its input, whatever the input order.
- The summary counts add up to the number of runs.

## Model

| member | source | states |
|---|---|---|
| Calendar.PreviousSaturdayClosedForm | handlers.go:95-101 | the week start is midnight of the day `(day + 5) mod 7` days back, where `day` counts days since the epoch |
| Calendar.PreviousSaturday | handlers.go:94-101 | the week start computed as the Go code does is a Saturday at midnight, not later than the input and less than seven days before it |
| Calendar.PreviousSaturdayUnique | handlers.go:95-101 | any Saturday midnight less than a week before or at `t` is the result for `t` |
| Calendar.PreviousSaturdayIdempotent | handlers.go:95-101 | applying the function to its own result changes nothing |
| Calendar.PreviousSaturdaySameDay | analysis_test.go:177-181 | two instants on the same calendar day have the same week start |
| Calendar.PreviousSaturdaySameWeek | handlers.go:124-125 | two instants share a week start exactly when the second lies in the seven days from the first's week start |
| Calendar.PreviousSaturdayMonotonic | handlers.go:111-115 | a later instant never has an earlier week start, so week starts do not decrease along the sorted activities |
| Activities.ReportIgnoresOrder | handlers.go:109-113 | permuting the activities changes neither their report, nor whether they trigger the empty bucket, nor their number of runs |
| Activities.WeekTotalsIgnoreOrder | handlers.go:137-145 | a week's count, elapsed time and distance do not depend on the order of the activities |
| Activities.AscendingDatesDetermined | handlers.go:104 | two summary sequences with strictly ascending dates and the same set of dates have equal dates position by position |
| Activities.ReportIsUnique | handlers.go:104-155 | a list of activities has at most one report |
| Activities.PermutedInputSameReport | handlers.go:109-113 | inputs that are permutations of each other have the same report |
| Activities.RunsAreTheRunActivities | handlers.go:121-123 | the activities kept are exactly those whose type is the string "Run"; every other type is skipped |
| Activities.Summarize | handlers.go:146-151 | the summary of a non-empty bucket has count at least 1 and is dated on the Saturday midnight that starts the week of the bucket's first run |
| Activities.ReportWeeksHaveRuns | handlers.go:137-153 | every summary in a report has count at least 1 and is dated on a Saturday midnight, and each of its runs starts within the seven days from that date |
| Activities.NoRunsNoReport | handlers.go:121-123 | when no activity is a run, the report is empty |
| Activities.EmptyReport | handlers.go:106-108 | the empty report is the report of no activities, and no activities cannot trigger the empty bucket |
| Grouping.ExtendLast | handlers.go:125-126 | appending an element with the key of the last bucket keeps the buckets single-keyed and ascending |
| Grouping.Append | handlers.go:127-130 | a new bucket whose key is above the last bucket's keeps the buckets ascending |
| Grouping.SelectBucket | handlers.go:137-145 | selecting one bucket's key from the flattened ascending buckets yields exactly that bucket |
| Grouping.LeadingSkippedFirst | handlers.go:114-115 | when the first element has the least key, some element's key is below every kept element's key exactly when a kept element exists and none has the first key |
| Grouping.WalkStart | handlers.go:114-118 | the walk starts with no buckets, an empty open bucket and the key of the first element |
| Grouping.WalkSkip | handlers.go:121-123 | an activity that is not a run leaves the walk's state unchanged and keeps its invariant |
| Grouping.WalkSameKey | handlers.go:124-126 | a run in the current week joins the open bucket and keeps the invariant |
| Grouping.WalkNewKey | handlers.go:127-130 | a run in another week, with the open bucket non-empty, cuts that bucket and opens a new one, keeping the buckets ascending |
| Grouping.WalkEmptyCut | handlers.go:127-130 | a run outside the seed week, seen before any run has been bucketed, cuts the still-empty bucket |
| Grouping.WalkEmptyCutExactly | handlers.go:114-115 | after the walk, the empty bucket has been cut exactly when some activity lies in a week before every run's week |
| Grouping.WalkCollected | handlers.go:120-132 | after the walk, the non-empty cut buckets followed by the open one are ascending and hold exactly the runs, in order |
| Grouping.Flush | handlers.go:133-135 | flushing the open bucket gives ascending buckets of exactly the runs, behind an empty first bucket exactly when one was cut |
| Summaries.SortByStart | handlers.go:111-113 | the array ends sorted by start date and is a permutation of what it held |
| Summaries.InsertLast | handlers.go:111-113 | moving the element at `i` back extends the sorted prefix by one; the new prefix is a permutation of the old one and the elements after `i` are unchanged |
| Summaries.SortedWeeks | handlers.go:111-115 | along activities sorted by start date, week starts do not decrease |
| Summaries.GroupByWeek | handlers.go:114-135 | on a leading non-run week, the buckets are an empty bucket followed by ascending week buckets of exactly the runs; otherwise they are ascending week buckets of exactly the runs |
| Summaries.SummarizeWeeks | handlers.go:136-153 | the totalling succeeds exactly when no bucket is empty; each summary then holds its bucket's week, size, elapsed time in nanoseconds and distance; an empty bucket panics with Go's runtime index-out-of-range message |
| Summaries.BucketsMeetReport | handlers.go:136-155 | totalling ascending week buckets of the runs of any sorted permutation of `s` gives the report of `s`, whose counts add up to the number of runs |
| Summaries.BucketIsWeekTotals | handlers.go:137-151 | a bucket of ascending week buckets of the runs holds exactly its week's runs, so its summary is that week's totals |
| Summaries.BucketWeeksAreRunWeeks | handlers.go:120-135 | the buckets' weeks are exactly the weeks that hold a run |
| Summaries.CountsAreBucketSizes | handlers.go:148 | the counts of the summaries add up to the number of bucketed runs |
| Summaries.ComputeWeeklySummaries | handlers.go:105-155 | no activities give an empty result; the call panics exactly on a leading non-run week; otherwise it returns the report of its input, whose counts add up to the number of runs; the caller's array is only read |
| Summaries.ComputeWeeklySummariesNoEmptyBucket | handlers.go:128 | with the empty leading bucket dropped, the result is always the report of the input, and its counts add up to the number of runs |
| Scenarios.PreviousSaturdayExamples | analysis_test.go:158-182 | 2018-03-05 and 2018-03-03 map to 2018-03-03, 2018-03-02 maps to 2018-02-24, and 08:00 on 2018-03-03 maps where its midnight does |
| Scenarios.OneWeekReport | handlers.go:120-153 | when all runs lie in one week and there is one, the report is that week's totals alone |
| Scenarios.TwoWeekReport | handlers.go:120-153 | when all runs lie in two weeks and each has one, the report is the two weeks' totals in date order |
| Scenarios.AllInOneWeek | analysis_test.go:56-64 | three runs of one week give one summary with count 3, 52 minutes and distance 40 |
| Scenarios.AcrossTwoWeeks | analysis_test.go:70-80 | runs in consecutive weeks give one summary each, in date order |
| Scenarios.TwoInFirstOneInSecondWeek | analysis_test.go:81-92 | two runs in the first week and one in the next give summaries with counts 2 and 1 |
| Scenarios.RidesAreSkipped | analysis_test.go:93-99 | a lone ride gives the empty report, not a week with count 0 |
| Scenarios.RidesAreSkippedInRunWeek | analysis_test.go:100-109 | a ride earlier in the first run's week gives no empty bucket and one summary |
| Scenarios.RideInEarlierWeek | handlers.go:114-115 | a Friday ride before a Monday run is a leading non-run week, so the call panics; the report it should give holds the one run |
| Scenarios.ArrayOf | analysis_test.go:113 | the array handed to ComputeWeeklySummaries holds the test's activities |
| Scenarios.ExpectReport | analysis_test.go:112-118 | ComputeWeeklySummaries returns exactly the report of an input with no leading non-run week |
| Scenarios.ExpectPanic | handlers.go:114-147 | on an input with a leading non-run week, the code as written panics and the corrected version returns its report |
| Scenarios.ComputeAllInOneWeek | analysis_test.go:56-64 | ComputeWeeklySummaries returns the one summary the test expects |
| Scenarios.ComputeNoActivities | analysis_test.go:65-69 | ComputeWeeklySummaries returns no summaries for no activities |
| Scenarios.ComputeAcrossTwoWeeks | analysis_test.go:70-80 | ComputeWeeklySummaries returns the two summaries the test expects |
| Scenarios.ComputeTwoInFirstOneInSecondWeek | analysis_test.go:81-92 | ComputeWeeklySummaries returns the two summaries the test expects |
| Scenarios.ComputeRidesAreSkipped | analysis_test.go:93-99 | ComputeWeeklySummaries returns no summaries for a lone ride |
| Scenarios.ComputeRidesAreSkippedInRunWeek | analysis_test.go:100-109 | ComputeWeeklySummaries returns the one summary the test expects |
| Scenarios.ComputeRideInEarlierWeek | handlers.go:114-147 | ComputeWeeklySummaries panics with the index-out-of-range message on a Friday ride before a Monday run, and the corrected version returns the one summary |

## Left out

- FetchUserHistory and its goroutines, channels and wait groups: concurrency, outside this model.
- The datastore, the Strava client, the HTML templates, makeTable, init and Must: I/O and rendering.
- Distances are integers standing for Go's float64 distances. Floating-point rounding in the sums is not modelled.
- Time zones and the monotonic clock reading of `time.Time`. Instants are UTC seconds, so the `==` at line 125 compares plain numbers.
- Summaries.ComputeWeeklySummaries: does not model overflow of the int64 nanosecond `time.Duration`, nor of `int`, because totals are unbounded integers.
- Summaries.SortByStart: an insertion sort stands for `sort.Slice`, whose order among equal start dates is unspecified. Every later result is proved for any sorted permutation.
- Summaries.ComputeWeeklySummaries: Go's nil and empty slices are both the empty sequence.
- ComputeWeeklySummaries sorts all activities, runs and others, with an unstable sort, and seeds the first week from the earliest activity of any kind, so it can panic (see "## Findings").
- Summaries.ComputeWeeklySummaries: activities are values, not the `*strava.ActivitySummary` pointers of the Go slice, so the nil-pointer panics a nil entry raises (in the sort's comparison at line 112, at `acts[0].StartDate` at line 114, or at `a.Type` at line 121) and aliasing between the caller's slice and its copy are not modelled.

## Findings

| source | as written | input that shows it | evidently intended | confidence | as-written member | corrected member |
|---|---|---|---|---|---|---|
| handlers.go:114-115, 128, 147 | The first week is seeded from the earliest activity of any kind. When the first run falls in a later week, line 128 cuts the still-nil `weekActs` as a bucket, and `w[0]` at line 147 panics. | a ride on Friday 2018-03-02 at 08:00 and a run on Monday 2018-03-05 at 08:00 | skip the empty bucket, giving one summary for the week of 2018-03-03 with count 1 | not executed | Summaries.ComputeWeeklySummaries, with the witness Scenarios.RideInEarlierWeek | Summaries.ComputeWeeklySummariesNoEmptyBucket |
