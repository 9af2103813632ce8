/** Longest runs, computed four ways (src/analytics/metrics.py, src/analytics/monte_carlo.py,
    scripts/check_order_flow_toxicity_data_sufficiency.py,
    scripts/analyze_hyperliquid_bybit_carry_sensitivity.py). */
module Runs {
  import opened Common
  import Sorting

  /** All flags in the contiguous segment [i, j) are set. */
  ghost predicate Segment(flags: seq<bool>, i: int, j: int) {
    0 <= i <= j <= |flags| && forall k :: i <= k < j ==> flags[k]
  }

  /** n is the length of the longest segment of set flags. */
  ghost predicate IsLongest(flags: seq<bool>, n: int) {
    && (exists i, j :: Segment(flags, i, j) && j - i == n)
    && (forall i, j :: Segment(flags, i, j) ==> j - i <= n)
  }

  lemma LongestIsUnique(flags: seq<bool>, m: int, n: int)
    requires IsLongest(flags, m) && IsLongest(flags, n)
    ensures m == n
  {
  }

  function Losses(pnl: seq<real>): (flags: seq<bool>)
    ensures |flags| == |pnl| && forall i :: 0 <= i < |pnl| ==> flags[i] == (pnl[i] < 0.0)
  {
    seq(|pnl|, i requires 0 <= i < |pnl| => pnl[i] < 0.0)
  }

  /** n is the length of the segment of set flags that ends at k and cannot be extended to the left. */
  ghost predicate Trailing(flags: seq<bool>, k: int, n: int) {
    Segment(flags, k - n, k) && (k - n == 0 || !flags[k - n - 1])
  }

  lemma TrailingIsLongestAt(flags: seq<bool>, k: int, n: int, i: int)
    requires Trailing(flags, k, n) && Segment(flags, i, k)
    ensures k - i <= n
  {
  }

  /** Best length among segments that end at or before k. */
  ghost predicate LongestUpTo(flags: seq<bool>, k: int, n: int) {
    && (exists i, j :: Segment(flags, i, j) && j - i == n && j <= k)
    && (forall i, j :: Segment(flags, i, j) && j <= k ==> j - i <= n)
  }

  lemma ExtendLongest(flags: seq<bool>, k: int, longest: int, current: int)
    requires 0 <= k < |flags|
    requires LongestUpTo(flags, k, longest) && Trailing(flags, k + 1, current)
    ensures LongestUpTo(flags, k + 1, if current > longest then current else longest)
  {
    forall i, j | Segment(flags, i, j) && j <= k + 1 ensures j - i <= if current > longest then current else longest {
      if j == k + 1 {
        TrailingIsLongestAt(flags, k + 1, current, i);
      }
    }
    assert Segment(flags, k + 1 - current, k + 1);
  }

  /** `longest_losing_streak`. */
  method LongestLosingStreak(pnl: seq<real>) returns (longest: int)
    ensures IsLongest(Losses(pnl), longest)
  {
    longest := 0;
    var current := 0;
    ghost var flags := Losses(pnl);
    assert Segment(flags, 0, 0);
    for k := 0 to |pnl|
      invariant LongestUpTo(flags, k, longest)
      invariant Trailing(flags, k, current)
    {
      if pnl[k] < 0.0 {
        current := current + 1;
        ExtendLongest(flags, k, longest, current);
        longest := if current > longest then current else longest;
      } else {
        current := 0;
        ExtendLongest(flags, k, longest, current);
      }
    }
  }

  /** The Monte Carlo recurrence on one simulated path: an array of streak lengths filled
      from left to right, then its maximum. */
  method StreakMaximum(samples: seq<real>) returns (r: Option<int>)
    ensures r.None? <==> samples == []
    ensures r.Some? ==> IsLongest(Losses(samples), r.value)
  {
    if samples == [] {
      return None; // no trades, no streaks
    }
    var n := |samples|;
    ghost var flags := Losses(samples);
    var streak := new int[n];
    streak[0] := if samples[0] < 0.0 then 1 else 0;
    for j := 1 to n
      invariant forall k :: 0 <= k < j ==> Trailing(flags, k + 1, streak[k])
    {
      var mask := if samples[j] < 0.0 then 1 else 0;
      assert Trailing(flags, j - 1 + 1, streak[j - 1]);
      streak[j] := (streak[j - 1] + 1) * mask;
    }
    var longest := streak[0];
    assert Segment(flags, 0, 0);
    assert Trailing(flags, 0 + 1, streak[0]);
    ExtendLongest(flags, 0, 0, streak[0]);
    for k := 1 to n
      invariant LongestUpTo(flags, k, longest)
      invariant forall m :: 0 <= m < n ==> Trailing(flags, m + 1, streak[m])
    {
      assert Trailing(flags, k + 1, streak[k]);
      ExtendLongest(flags, k, longest, streak[k]);
      longest := if streak[k] > longest then streak[k] else longest;
    }
    return Some(longest);
  }

  // ------------------------------------------------- positive run lengths

  function CountSet(flags: seq<bool>): nat {
    if flags == [] then 0 else CountSet(flags[..|flags| - 1]) + if flags[|flags| - 1] then 1 else 0
  }

  function Sum(xs: seq<int>): int {
    if xs == [] then 0 else Sum(xs[..|xs| - 1]) + xs[|xs| - 1]
  }

  /** [i, j) is a non-empty run that cannot be extended on either side. */
  ghost predicate MaximalRun(flags: seq<bool>, i: int, j: int) {
    i < j && Segment(flags, i, j) && (i == 0 || !flags[i - 1]) && (j == |flags| || !flags[j])
  }

  /** The half-open segment from start to end. */
  datatype Span = Span(start: int, end: int)

  /** `spans` lists only maximal runs that end before position k, in order. */
  ghost predicate OnlyRuns(flags: seq<bool>, k: int, spans: seq<Span>) {
    && (forall m :: 0 <= m < |spans| ==> MaximalRun(flags, spans[m].start, spans[m].end) && spans[m].end < k)
    && (forall m, n :: 0 <= m < n < |spans| ==> spans[m].end < spans[n].start)
  }

  /** `spans` lists every maximal run that ends before position k. */
  ghost predicate AllRuns(flags: seq<bool>, k: int, spans: seq<Span>) {
    forall i, j :: MaximalRun(flags, i, j) && j < k ==> Span(i, j) in spans
  }

  /** `runs` are the lengths of `spans`. */
  ghost predicate Measured(spans: seq<Span>, runs: seq<int>) {
    |runs| == |spans| && forall m :: 0 <= m < |spans| ==> runs[m] == spans[m].end - spans[m].start
  }

  lemma RunEnds(flags: seq<bool>, k: int, spans: seq<Span>, current: int)
    requires 0 <= k <= |flags| && (k == |flags| || !flags[k]) && current > 0
    requires OnlyRuns(flags, k, spans) && Trailing(flags, k, current)
    ensures OnlyRuns(flags, k + 1, spans + [Span(k - current, k)])
  {
    assert MaximalRun(flags, k - current, k);
    forall m | 0 <= m < |spans| ensures spans[m].end < k - current {
      assert MaximalRun(flags, spans[m].start, spans[m].end);
    }
  }

  lemma RunIsListed(flags: seq<bool>, k: int, spans: seq<Span>, current: int)
    requires 0 <= k <= |flags| && AllRuns(flags, k, spans) && Trailing(flags, k, current)
    ensures AllRuns(flags, k + 1, spans + [Span(k - current, k)])
    ensures (k < |flags| && flags[k]) || current == 0 ==> AllRuns(flags, k + 1, spans)
  {
    var spans' := spans + [Span(k - current, k)];
    forall i, j | MaximalRun(flags, i, j) && j < k + 1
      ensures Span(i, j) in spans'
      ensures (k < |flags| && flags[k]) || current == 0 ==> Span(i, j) in spans
    {
      if j == k {
        TrailingIsLongestAt(flags, k, current, i);
        assert spans'[|spans|] == Span(i, j);
      }
    }
  }

  lemma SumSnoc(xs: seq<int>, x: int)
    ensures Sum(xs + [x]) == Sum(xs) + x
  {
    assert (xs + [x])[..|xs|] == xs;
  }

  /** The length of the run still open at the end. */
  function Open(flags: seq<bool>): nat {
    if flags == [] || !flags[|flags| - 1] then 0 else Open(flags[..|flags| - 1]) + 1
  }

  /** The runs that have ended. */
  function Closed(flags: seq<bool>): seq<Span> {
    if flags == [] then []
    else
      var n := |flags| - 1;
      var open := Open(flags[..n]);
      if !flags[n] && open > 0 then Closed(flags[..n]) + [Span(n - open, n)] else Closed(flags[..n])
  }

  /** The lengths of the runs that have ended. */
  function ClosedLengths(flags: seq<bool>): seq<int> {
    if flags == [] then []
    else
      var n := |flags| - 1;
      var open := Open(flags[..n]);
      if !flags[n] && open > 0 then ClosedLengths(flags[..n]) + [open] else ClosedLengths(flags[..n])
  }

  function RunLengths(flags: seq<bool>): seq<int> {
    if Open(flags) > 0 then ClosedLengths(flags) + [Open(flags)] else ClosedLengths(flags)
  }

  /** `_positive_run_lengths`. */
  method PositiveRunLengths(flags: seq<bool>) returns (runs: seq<int>)
    ensures runs == RunLengths(flags)
  {
    runs := [];
    var current := 0;
    for k := 0 to |flags|
      invariant runs == ClosedLengths(flags[..k]) && current == Open(flags[..k])
    {
      assert flags[..k + 1][..k] == flags[..k];
      if flags[k] {
        current := current + 1;
      } else if current != 0 {
        runs := runs + [current];
        current := 0;
      }
    }
    assert flags[..|flags|] == flags;
    if current != 0 {
      runs := runs + [current];
    }
  }

  lemma {:induction false} ClosedLengthsSum(flags: seq<bool>)
    ensures Sum(ClosedLengths(flags)) + Open(flags) == CountSet(flags)
  {
    if flags != [] {
      var n := |flags| - 1;
      ClosedLengthsSum(flags[..n]);
      SumSnoc(ClosedLengths(flags[..n]), Open(flags[..n]));
    }
  }

  lemma {:induction false} ClosedMeasured(flags: seq<bool>)
    ensures Measured(Closed(flags), ClosedLengths(flags))
  {
    if flags != [] {
      ClosedMeasured(flags[..|flags| - 1]);
    }
  }

  lemma {:induction false} OpenIsTrailing(flags: seq<bool>, k: nat)
    requires k <= |flags|
    ensures Trailing(flags, k, Open(flags[..k]))
  {
    if k > 0 {
      assert flags[..k][..k - 1] == flags[..k - 1];
      OpenIsTrailing(flags, k - 1);
    }
  }

  lemma {:induction false} ClosedAreRuns(flags: seq<bool>, k: nat)
    requires k <= |flags|
    ensures OnlyRuns(flags, k, Closed(flags[..k]))
  {
    if k > 0 {
      assert flags[..k][..k - 1] == flags[..k - 1];
      ClosedAreRuns(flags, k - 1);
      OpenIsTrailing(flags, k - 1);
      var spans, open := Closed(flags[..k - 1]), Open(flags[..k - 1]);
      if !flags[k - 1] && open > 0 {
        RunEnds(flags, k - 1, spans, open);
      }
    }
  }

  lemma {:induction false} RunsAreClosed(flags: seq<bool>, k: nat)
    requires k <= |flags|
    ensures AllRuns(flags, k, Closed(flags[..k]))
  {
    if k > 0 {
      assert flags[..k][..k - 1] == flags[..k - 1];
      RunsAreClosed(flags, k - 1);
      OpenIsTrailing(flags, k - 1);
      RunIsListed(flags, k - 1, Closed(flags[..k - 1]), Open(flags[..k - 1]));
    }
  }

  function RunSpans(flags: seq<bool>): seq<Span> {
    if Open(flags) > 0 then Closed(flags) + [Span(|flags| - Open(flags), |flags|)] else Closed(flags)
  }

  lemma SpansAreMeasured(flags: seq<bool>)
    ensures Measured(RunSpans(flags), RunLengths(flags))
  {
    ClosedMeasured(flags);
  }

  /** The listed lengths add up to the number of set flags. */
  lemma RunLengthsSum(flags: seq<bool>)
    ensures Sum(RunLengths(flags)) == CountSet(flags)
  {
    ClosedLengthsSum(flags);
    SumSnoc(ClosedLengths(flags), Open(flags));
  }

  lemma OnlyRunsWiden(flags: seq<bool>, k: int, spans: seq<Span>)
    requires OnlyRuns(flags, k, spans)
    ensures OnlyRuns(flags, k + 1, spans)
  {
  }

  lemma WholeList(flags: seq<bool>)
    ensures OnlyRuns(flags, |flags|, Closed(flags)) && Trailing(flags, |flags|, Open(flags))
  {
    assert flags[..|flags|] == flags;
    ClosedAreRuns(flags, |flags|);
    OpenIsTrailing(flags, |flags|);
  }

  lemma LastRunEnds(flags: seq<bool>, spans: seq<Span>, open: nat, all: seq<Span>)
    requires OnlyRuns(flags, |flags|, spans) && Trailing(flags, |flags|, open)
    requires all == if open > 0 then spans + [Span(|flags| - open, |flags|)] else spans
    ensures OnlyRuns(flags, |flags| + 1, all)
  {
    if open > 0 {
      RunEnds(flags, |flags|, spans, open);
    } else {
      OnlyRunsWiden(flags, |flags|, spans);
    }
  }

  /** The listed spans are maximal runs, in order, */
  lemma SpansAreRuns(flags: seq<bool>)
    ensures OnlyRuns(flags, |flags| + 1, RunSpans(flags))
  {
    WholeList(flags);
    LastRunEnds(flags, Closed(flags), Open(flags), RunSpans(flags));
  }

  /** and no maximal run is missing. */
  lemma EveryRunIsListed(flags: seq<bool>, i: int, j: int)
    requires MaximalRun(flags, i, j)
    ensures Span(i, j) in RunSpans(flags)
  {
    var n := |flags|;
    assert flags[..n] == flags;
    RunsAreClosed(flags, n);
    OpenIsTrailing(flags, n);
    RunIsListed(flags, n, Closed(flags), Open(flags));
  }

  lemma EveryRunIsMeasured(flags: seq<bool>, i: int, j: int)
    requires MaximalRun(flags, i, j)
    ensures j - i in RunLengths(flags)
  {
    EveryRunIsListed(flags, i, j);
    SpansAreMeasured(flags);
    var m :| 0 <= m < |RunSpans(flags)| && RunSpans(flags)[m] == Span(i, j);
    assert RunLengths(flags)[m] == j - i;
  }

  lemma MeasuredAtMost(flags: seq<bool>, n: int, m: int)
    requires IsLongest(flags, n) && 0 <= m < |RunLengths(flags)|
    ensures RunLengths(flags)[m] <= n
  {
    SpansAreMeasured(flags);
    SpansAreRuns(flags);
    assert MaximalRun(flags, RunSpans(flags)[m].start, RunSpans(flags)[m].end);
  }

  lemma GrowRight(flags: seq<bool>, i: int, j: int) returns (e: int)
    requires Segment(flags, i, j)
    ensures j <= e && Segment(flags, i, e) && (e == |flags| || !flags[e])
    decreases |flags| - j
  {
    if j == |flags| || !flags[j] { e := j; } else { e := GrowRight(flags, i, j + 1); }
  }

  lemma GrowLeft(flags: seq<bool>, i: int, j: int) returns (s: int)
    requires Segment(flags, i, j)
    ensures s <= i && Segment(flags, s, j) && (s == 0 || !flags[s - 1])
    decreases i
  {
    if i == 0 || !flags[i - 1] { s := i; } else { s := GrowLeft(flags, i - 1, j); }
  }

  /** The longest of the listed runs is the longest segment. */
  lemma LongestIsAmongRuns(flags: seq<bool>, n: int)
    requires IsLongest(flags, n) && n > 0
    ensures n in RunLengths(flags)
    ensures forall m :: 0 <= m < |RunLengths(flags)| ==> RunLengths(flags)[m] <= n
  {
    var i, j :| Segment(flags, i, j) && j - i == n;
    var e := GrowRight(flags, i, j);
    var s := GrowLeft(flags, i, e);
    assert MaximalRun(flags, s, e) && e - s == n;
    EveryRunIsMeasured(flags, s, e);
    forall m | 0 <= m < |RunLengths(flags)| ensures RunLengths(flags)[m] <= n {
      MeasuredAtMost(flags, n, m);
    }
  }

  // ------------------------------------------- longest contiguous days

  /** Every day is the successor of the one before. */
  ghost predicate Consecutive(days: seq<int>) {
    forall i :: 0 <= i < |days| - 1 ==> days[i + 1] == days[i] + 1
  }

  ghost predicate ConsecutiveFrom(days: seq<int>, a: int, b: int) {
    0 <= a <= b <= |days| && Consecutive(days[a..b])
  }

  /** Starts at a, has length n, is at least as long as every run of consecutive days, and
      strictly longer than every run that starts earlier. */
  ghost predicate FirstLongest(days: seq<int>, k: int, a: int, n: int) {
    && ConsecutiveFrom(days, a, a + n) && a + n <= k
    && (forall i, j :: ConsecutiveFrom(days, i, j) && j <= k ==> j - i <= n)
    && (forall i, j :: ConsecutiveFrom(days, i, j) && j <= k && i < a ==> j - i < n)
  }

  /** `{...}`: every date once. */
  function Distinct(dates: seq<int>): seq<int> {
    if dates == [] then []
    else
      var rest := Distinct(dates[1..]);
      if dates[0] in rest then rest else [dates[0]] + rest
  }

  /** `sorted({...})`: the distinct days in order. */
  function SortedDays(dates: seq<int>): seq<int> {
    Sorting.Sorted(Distinct(dates), Sorting.IntAtMost)
  }

  ghost predicate AscendingDays(days: seq<int>) {
    forall i, j :: 0 <= i < j < |days| ==> days[i] < days[j]
  }

  lemma {:induction false} DistinctKeepsAll(dates: seq<int>)
    ensures Sorting.NoDuplicates(Distinct(dates))
    ensures forall x :: x in Distinct(dates) <==> x in dates
  {
    if dates != [] {
      Sorting.HeadAndTail(dates);
      DistinctKeepsAll(dates[1..]);
    }
  }

  lemma SortedDaysAscend(dates: seq<int>)
    ensures AscendingDays(SortedDays(dates))
    ensures forall x :: x in SortedDays(dates) <==> x in dates
  {
    DistinctKeepsAll(dates);
    Sorting.SortedOrders(Distinct(dates), Sorting.IntAtMost);
    Sorting.SortedKeepsDistinct(Distinct(dates), Sorting.IntAtMost);
    Sorting.InSorted(Distinct(dates), Sorting.IntAtMost);
    var days := SortedDays(dates);
    forall i, j | 0 <= i < j < |days| ensures days[i] < days[j] {
      assert Sorting.IntAtMost(days[i], days[j]);
    }
  }

  /** A Python list: a reference, so that two variables can name the same one. */
  class DayList {
    var days: seq<int>

    constructor (first: int)
      ensures days == [first]
    {
      days := [first];
    }

    method Append(day: int)
      modifies this
      ensures days == old(days) + [day]
    {
      days := days + [day];
    }
  }

  lemma ExtendRun(days: seq<int>, a: int, b: int)
    requires ConsecutiveFrom(days, a, b) && a < b < |days|
    ensures ConsecutiveFrom(days, a, b + 1) <==> days[b] == days[b - 1] + 1
    ensures days[a..b + 1] == days[a..b] + [days[b]]
  {
    var r, r' := days[a..b], days[a..b + 1];
    assert r' == r + [days[b]];
    if Consecutive(r') {
      assert r'[|r| - 1 + 1] == r'[|r| - 1] + 1;
    }
  }

  lemma Neighbours(days: seq<int>, a: int, b: int, i: int)
    requires ConsecutiveFrom(days, a, b) && a <= i < b - 1
    ensures days[i + 1] == days[i] + 1
  {
    var r := days[a..b];
    assert r[i - a + 1] == r[i - a] + 1;
  }

  /** A run that ends at k starts no earlier than the current one, which cannot be extended to the left. */
  lemma CurrentIsLeftmost(days: seq<int>, c: int, k: int, i: int)
    requires ConsecutiveFrom(days, c, k) && c < k && (c == 0 || days[c] != days[c - 1] + 1)
    requires ConsecutiveFrom(days, i, k) && i < k
    ensures c <= i
  {
    if i < c {
      Neighbours(days, i, k, c - 1);
    }
  }

  lemma NewBest(days: seq<int>, k: int, a: int, n: int, c: int)
    requires 0 <= k < |days| && FirstLongest(days, k, a, n)
    requires ConsecutiveFrom(days, c, k + 1) && c <= k && (c == 0 || days[c] != days[c - 1] + 1)
    ensures k + 1 - c > n ==> FirstLongest(days, k + 1, c, k + 1 - c)
    ensures k + 1 - c <= n ==> FirstLongest(days, k + 1, a, n)
  {
    forall i, j | ConsecutiveFrom(days, i, j) && j <= k + 1 && i < j ensures j <= k || c <= i {
      if j == k + 1 {
        CurrentIsLeftmost(days, c, k + 1, i);
      }
    }
  }

  /** What the loop knows before it looks at day k: the current run starts at c and cannot be
      extended to the left, the best one starts at a. */
  ghost predicate Looking(parsed: seq<int>, k: int, a: int, c: int, best: seq<int>, current: seq<int>, shared: bool) {
    && 0 <= a && 0 <= c < k <= |parsed|
    && ConsecutiveFrom(parsed, c, k) && current == parsed[c..k]
    && (c == 0 || parsed[c] != parsed[c - 1] + 1)
    && FirstLongest(parsed, k, a, |best|) && best == parsed[a..a + |best|]
    && (shared ==> a == c && best == current)
    && |current| <= |best|
  }

  lemma LookFurther(parsed: seq<int>, k: int, a: int, c: int, best: seq<int>, current: seq<int>, shared: bool)
    requires Looking(parsed, k, a, c, best, current, shared) && k < |parsed|
    requires parsed[k] == parsed[k - 1] + 1
    ensures
      var longer := current + [parsed[k]];
      var best' := if shared then longer else best;
      if |longer| > |best'| then Looking(parsed, k + 1, c, c, longer, longer, true)
      else Looking(parsed, k + 1, a, c, best', longer, shared)
  {
    ExtendRun(parsed, c, k);
    NewBest(parsed, k, a, |best|, c);
  }

  lemma LookAfresh(parsed: seq<int>, k: int, a: int, c: int, best: seq<int>, current: seq<int>, shared: bool)
    requires Looking(parsed, k, a, c, best, current, shared) && k < |parsed|
    requires parsed[k] != parsed[k - 1] + 1
    ensures Looking(parsed, k + 1, a, k, best, [parsed[k]], false)
  {
    assert ConsecutiveFrom(parsed, k, k + 1) && parsed[k..k + 1] == [parsed[k]];
    NewBest(parsed, k, a, |best|, k);
  }

  ghost predicate IsFirstLongestRun(days: seq<int>, run: seq<int>) {
    exists a :: FirstLongest(days, |days|, a, |run|) && run == days[a..a + |run|]
  }

  lemma LookedAtAll(parsed: seq<int>, a: int, c: int, best: seq<int>, current: seq<int>, shared: bool)
    requires Looking(parsed, |parsed|, a, c, best, current, shared)
    ensures IsFirstLongestRun(parsed, best)
  {
    assert FirstLongest(parsed, |parsed|, a, |best|);
  }

  /** The loop over the distinct days in order. `best` and `current` may name one list, which
      then keeps growing under both names. */
  method ScanRuns(parsed: seq<int>) returns (run: seq<int>)
    requires parsed != []
    ensures IsFirstLongestRun(parsed, run)
  {
    var best := new DayList(parsed[0]);
    var current := new DayList(parsed[0]);
    ghost var a, c := 0, 0;
    FirstDay(parsed);
    for k := 1 to |parsed|
      invariant fresh(best) && fresh(current)
      invariant Looking(parsed, k, a, c, best.days, current.days, best == current)
    {
      if parsed[k] == parsed[k - 1] + 1 {
        LookFurther(parsed, k, a, c, best.days, current.days, best == current);
        ghost var longer := current.days + [parsed[k]];
        ghost var others := if best == current then longer else best.days;
        current.Append(parsed[k]);
        assert current.days == longer && best.days == others;
      } else {
        LookAfresh(parsed, k, a, c, best.days, current.days, best == current);
        current := new DayList(parsed[k]);
        c := k;
      }
      if |current.days| > |best.days| {
        best := current;
        a := c;
      }
    }
    LookedAtAll(parsed, a, c, best.days, current.days, best == current);
    return best.days;
  }

  /** `_longest_contiguous_run`: sort, scan, and keep the first of the longest runs. */
  method LongestContiguousRun(dates: seq<int>) returns (run: seq<int>)
    ensures dates == [] ==> run == []
    ensures dates != [] ==> IsFirstLongestRun(SortedDays(dates), run)
  {
    if dates == [] {
      return [];
    }
    SortedDaysAscend(dates);
    assert dates[0] in dates && dates[0] in SortedDays(dates);
    assert SortedDays(dates) != [];
    run := ScanRuns(SortedDays(dates));
  }

  lemma FirstDay(parsed: seq<int>)
    requires parsed != []
    ensures ConsecutiveFrom(parsed, 0, 1) && FirstLongest(parsed, 1, 0, 1)
  {
  }
}
