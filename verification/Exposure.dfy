/** The fraction of a period during which at least one trade was open
    (src/analytics/metrics.py). Times are integer nanoseconds. */
module Exposure {
  import Sorting

  datatype Trade = Trade(entry: int, exit: int)

  datatype Interval = Interval(start: int, end: int)

  /** The nanoseconds [t, t + 1) of an interval. */
  function Range(a: int, b: int): (r: set<int>)
    ensures forall t :: t in r <==> a <= t < b
    decreases b - a
  {
    if b <= a then {} else Range(a, b - 1) + {b - 1}
  }

  lemma {:induction false} RangeSize(a: int, b: int)
    requires a <= b
    ensures |Range(a, b)| == b - a
    decreases b - a
  {
    if a < b {
      RangeSize(a, b - 1);
    }
  }

  /** The union of a list of intervals. */
  function Points(xs: seq<Interval>): set<int> {
    if xs == [] then {} else Points(xs[..|xs| - 1]) + Range(xs[|xs| - 1].start, xs[|xs| - 1].end)
  }

  lemma {:induction false} InPoints(xs: seq<Interval>, t: int)
    ensures t in Points(xs) <==> exists i :: 0 <= i < |xs| && xs[i].start <= t < xs[i].end
  {
    if xs != [] {
      var front := xs[..|xs| - 1];
      InPoints(front, t);
      if i :| 0 <= i < |xs| && xs[i].start <= t < xs[i].end {
        assert i < |front| ==> front[i] == xs[i];
      }
      if i :| 0 <= i < |front| && front[i].start <= t < front[i].end {
        assert xs[i] == front[i];
      }
    }
  }

  predicate OpenAt(trades: seq<Trade>, t: int) {
    exists i :: 0 <= i < |trades| && trades[i].entry <= t < trades[i].exit
  }

  /** The measure the metric is about: the nanoseconds of the period covered by some trade. */
  function Covered(trades: seq<Trade>, periodStart: int, periodEnd: int): set<int> {
    set t | t in Range(periodStart, periodEnd) && OpenAt(trades, t)
  }

  // ----------------------------------------------------- clip and sort

  function Max(a: int, b: int): int { if a < b then b else a }

  function Min(a: int, b: int): int { if a < b then a else b }

  function Clip(q: Trade, periodStart: int, periodEnd: int): Interval {
    Interval(Max(q.entry, periodStart), Min(q.exit, periodEnd))
  }

  function Clipped(trades: seq<Trade>, periodStart: int, periodEnd: int): seq<Interval> {
    if trades == [] then []
    else
      var front, t := Clipped(trades[..|trades| - 1], periodStart, periodEnd), trades[|trades| - 1];
      if t.exit > periodStart && t.entry < periodEnd
      then front + [Clip(t, periodStart, periodEnd)]
      else front
  }

  predicate AtMost(a: Interval, b: Interval) {
    a.start < b.start || (a.start == b.start && a.end <= b.end)
  }

  /** The builtin `sorted` on pairs. */
  function Sorted(xs: seq<Interval>): seq<Interval> {
    Sorting.Sorted(xs, AtMost)
  }

  ghost predicate StartsAscend(xs: seq<Interval>) {
    forall i, j :: 0 <= i < j < |xs| ==> xs[i].start <= xs[j].start
  }

  predicate IsProper(x: Interval) {
    x.start <= x.end
  }

  ghost predicate Proper(xs: seq<Interval>) {
    forall i :: 0 <= i < |xs| ==> IsProper(xs[i])
  }

  lemma SortedSorts(xs: seq<Interval>)
    ensures StartsAscend(Sorted(xs)) && Sorting.Ordered(Sorted(xs), AtMost)
    ensures forall x :: x in Sorted(xs) <==> x in xs
  {
    Sorting.SortedOrders(xs, AtMost);
    Sorting.InSorted(xs, AtMost);
    forall i, j | 0 <= i < j < |Sorted(xs)| ensures Sorted(xs)[i].start <= Sorted(xs)[j].start {
      assert AtMost(Sorted(xs)[i], Sorted(xs)[j]);
    }
  }

  lemma OpenSnoc(trades: seq<Trade>, last: Trade, t: int)
    ensures OpenAt(trades + [last], t) <==> OpenAt(trades, t) || last.entry <= t < last.exit
  {
    var all := trades + [last];
    if OpenAt(trades, t) {
      var i :| 0 <= i < |trades| && trades[i].entry <= t < trades[i].exit;
      assert all[i] == trades[i];
    }
    if last.entry <= t < last.exit {
      assert all[|trades|] == last;
    }
  }

  lemma ClipCovers(q: Trade, periodStart: int, periodEnd: int, t: int)
    ensures Clip(q, periodStart, periodEnd).start <= t < Clip(q, periodStart, periodEnd).end <==>
      periodStart <= t < periodEnd && q.entry <= t < q.exit
  {
  }

  lemma PointsAppend(xs: seq<Interval>, x: Interval)
    ensures Points(xs + [x]) == Points(xs) + Range(x.start, x.end)
  {
    assert (xs + [x])[..|xs|] == xs;
  }

  /** Clipping keeps exactly the instants of the period at which a trade is open. */
  lemma {:induction false} ClippedCovers(trades: seq<Trade>, periodStart: int, periodEnd: int, t: int)
    ensures t in Points(Clipped(trades, periodStart, periodEnd)) <==> periodStart <= t < periodEnd && OpenAt(trades, t)
  {
    if trades != [] {
      var front, last := trades[..|trades| - 1], trades[|trades| - 1];
      assert trades == front + [last];
      ClippedCovers(front, periodStart, periodEnd, t);
      OpenSnoc(front, last, t);
      ClipCovers(last, periodStart, periodEnd, t);
      PointsAppend(Clipped(front, periodStart, periodEnd), Clip(last, periodStart, periodEnd));
    }
  }

  lemma {:induction false} InClipped(trades: seq<Trade>, periodStart: int, periodEnd: int, x: Interval)
    ensures x in Clipped(trades, periodStart, periodEnd) <==>
      exists i :: 0 <= i < |trades| && trades[i].exit > periodStart && trades[i].entry < periodEnd &&
        x == Clip(trades[i], periodStart, periodEnd)
  {
    if trades != [] {
      var front, last := trades[..|trades| - 1], trades[|trades| - 1];
      InClipped(front, periodStart, periodEnd, x);
      assert forall i :: 0 <= i < |front| ==> front[i] == trades[i];
    }
  }

  lemma SortedKeepsPoints(xs: seq<Interval>)
    ensures Points(Sorted(xs)) == Points(xs)
  {
    SortedSorts(xs);
    var ys := Sorted(xs);
    forall t ensures t in Points(ys) <==> t in Points(xs) {
      InPoints(xs, t);
      InPoints(ys, t);
      if i :| 0 <= i < |xs| && xs[i].start <= t < xs[i].end {
        assert xs[i] in ys;
      }
      if i :| 0 <= i < |ys| && ys[i].start <= t < ys[i].end {
        assert ys[i] in xs;
      }
    }
  }

  // ------------------------------------------------------------- merging

  /** Ascending and pairwise disjoint, with a gap between neighbours. */
  ghost predicate Separated(xs: seq<Interval>) {
    Proper(xs) && forall i, j :: 0 <= i < j < |xs| ==> xs[i].end < xs[j].start
  }

  function TotalLength(xs: seq<Interval>): int {
    if xs == [] then 0 else TotalLength(xs[..|xs| - 1]) + (xs[|xs| - 1].end - xs[|xs| - 1].start)
  }

  /** The union of proper intervals as one stretch or one more stretch. */
  lemma Stretching(merged: seq<Interval>, x: Interval)
    requires merged != [] && Separated(merged) && IsProper(x)
    requires merged[|merged| - 1].start <= x.start <= merged[|merged| - 1].end
    ensures Separated(Stretched(merged, x)) && Points(Stretched(merged, x)) == Points(merged) + Range(x.start, x.end)
  {
    var last, front := merged[|merged| - 1], merged[..|merged| - 1];
    assert Stretched(merged, x)[..|merged| - 1] == front;
    assert Range(last.start, Max(last.end, x.end)) == Range(last.start, last.end) + Range(x.start, x.end);
  }

  lemma Appending(merged: seq<Interval>, x: Interval)
    requires merged != [] && Separated(merged) && IsProper(x)
    requires merged[|merged| - 1].end < x.start
    ensures Separated(merged + [x]) && Points(merged + [x]) == Points(merged) + Range(x.start, x.end)
  {
    assert (merged + [x])[..|merged|] == merged;
    forall i | 0 <= i < |merged| ensures merged[i].end < x.start {
      assert i < |merged| - 1 ==> merged[i].end < merged[|merged| - 1].start <= merged[|merged| - 1].end;
    }
  }

  /** The loop's update in place of the last interval. */
  function Stretched(merged: seq<Interval>, x: Interval): seq<Interval>
    requires merged != []
  {
    var last := merged[|merged| - 1];
    merged[|merged| - 1 := Interval(last.start, Max(last.end, x.end))]
  }

  lemma PointsSnoc(xs: seq<Interval>, k: nat)
    requires k < |xs|
    ensures Points(xs[..k + 1]) == Points(xs[..k]) + Range(xs[k].start, xs[k].end)
  {
    assert xs[..k + 1][..k] == xs[..k];
  }

  // ---------------------------------------- intervals that end too early

  /** A proper interval among the first k reaches the instant s. */
  predicate Reached(xs: seq<Interval>, k: nat, s: int)
    requires k <= |xs|
  {
    exists i :: 0 <= i < k && IsProper(xs[i]) && s <= xs[i].end
  }

  /** What the loop takes off the total: an interval that ends before it starts counts with
      its negative length, unless a proper interval before it reaches its start. */
  function Deficit(xs: seq<Interval>): nat {
    if xs == [] then 0
    else
      var x := xs[|xs| - 1];
      Deficit(xs[..|xs| - 1]) + if IsProper(x) || Reached(xs, |xs| - 1, x.start) then 0 else x.start - x.end
  }

  lemma DeficitSnoc(xs: seq<Interval>, k: nat)
    requires k < |xs|
    ensures Deficit(xs[..k + 1]) ==
      Deficit(xs[..k]) + if IsProper(xs[k]) || Reached(xs, k, xs[k].start) then 0 else xs[k].start - xs[k].end
  {
    var ys := xs[..k + 1];
    assert ys[..k] == xs[..k];
    assert Reached(ys, k, xs[k].start) <==> Reached(xs, k, xs[k].start) by {
      assert forall i :: 0 <= i < k ==> ys[i] == xs[i];
    }
  }

  /** The last merged interval tells which later instants are reached. */
  ghost predicate TellsReach(xs: seq<Interval>, k: nat, end: int)
    requires 0 < k <= |xs|
  {
    forall s :: s >= xs[k - 1].start ==> (s <= end <==> Reached(xs, k, s))
  }

  lemma ReachedSnoc(xs: seq<Interval>, k: nat, s: int)
    requires k < |xs|
    ensures Reached(xs, k + 1, s) <==> Reached(xs, k, s) || (IsProper(xs[k]) && s <= xs[k].end)
  {
  }

  lemma ReachStretches(xs: seq<Interval>, k: nat, end: int)
    requires 0 < k < |xs| && StartsAscend(xs) && TellsReach(xs, k, end) && xs[k].start <= end
    ensures TellsReach(xs, k + 1, Max(end, xs[k].end))
  {
    var next := k + 1;
    forall s | s >= xs[k].start ensures s <= Max(end, xs[k].end) <==> Reached(xs, next, s) {
      ReachedSnoc(xs, k, s);
      assert xs[k - 1].start <= xs[k].start;
    }
  }

  lemma ReachRestarts(xs: seq<Interval>, k: nat, end: int)
    requires 0 < k < |xs| && StartsAscend(xs) && TellsReach(xs, k, end) && xs[k].start > end
    ensures TellsReach(xs, k + 1, xs[k].end)
  {
    var next := k + 1;
    forall s | s >= xs[k].start ensures s <= xs[k].end <==> Reached(xs, next, s) {
      ReachedSnoc(xs, k, s);
      assert xs[k - 1].start <= xs[k].start;
      assert !Reached(xs, k, s);
    }
  }

  lemma PointReached(xs: seq<Interval>, k: nat, t: int)
    requires k <= |xs| && forall i :: 0 <= i < k ==> xs[i].start <= t
    ensures t in Points(xs[..k]) <==> Reached(xs, k, t + 1)
  {
    InPoints(xs[..k], t);
    if Reached(xs, k, t + 1) {
      var i :| 0 <= i < k && IsProper(xs[i]) && t + 1 <= xs[i].end;
      assert xs[..k][i] == xs[i];
    }
  }

  /** How many instants interval k adds to those before it. */
  lemma NewPoints(xs: seq<Interval>, k: nat, end: int)
    requires 0 < k < |xs| && StartsAscend(xs) && TellsReach(xs, k, end)
    ensures |Points(xs[..k + 1])| == |Points(xs[..k])| +
      if xs[k].start <= end then Max(end, xs[k].end) - end else Max(xs[k].end - xs[k].start, 0)
  {
    var x, from := xs[k], if xs[k].start <= end then end else xs[k].start;
    var known, added := Points(xs[..k]), Range(from, Max(from, x.end));
    PointsSnoc(xs, k);
    assert xs[k - 1].start <= x.start;
    forall t ensures t in known + Range(x.start, x.end) <==> t in known + added {
      if t >= x.start {
        PointReached(xs, k, t);
        assert t + 1 <= end <==> Reached(xs, k, t + 1);
      }
    }
    forall t | t in added ensures t !in known {
      PointReached(xs, k, t);
      assert t + 1 <= end <==> Reached(xs, k, t + 1);
    }
    assert known + Range(x.start, x.end) == known + added && known !! added;
    RangeSize(from, Max(from, x.end));
  }

  lemma LengthStretches(merged: seq<Interval>, x: Interval)
    requires merged != []
    ensures TotalLength(Stretched(merged, x)) ==
      TotalLength(merged) + Max(merged[|merged| - 1].end, x.end) - merged[|merged| - 1].end
  {
    assert Stretched(merged, x)[..|merged| - 1] == merged[..|merged| - 1];
  }

  lemma LengthAppends(merged: seq<Interval>, x: Interval)
    ensures TotalLength(merged + [x]) == TotalLength(merged) + (x.end - x.start)
  {
    assert (merged + [x])[..|merged|] == merged;
  }

  lemma FirstInterval(xs: seq<Interval>)
    requires xs != []
    ensures TellsReach(xs, 1, xs[0].end)
    ensures TotalLength([xs[0]]) == |Points(xs[..1])| - Deficit(xs[..1])
  {
    assert xs[..1] == [xs[0]] && [xs[0]][..0] == [];
    assert Points([xs[0]]) == Range(xs[0].start, xs[0].end);
    if IsProper(xs[0]) {
      RangeSize(xs[0].start, xs[0].end);
    }
  }

  /** What the loop has made of the first k intervals. */
  ghost predicate MergedUpTo(xs: seq<Interval>, k: nat, merged: seq<Interval>)
    requires 0 < k <= |xs|
  {
    && merged != [] && merged[|merged| - 1].start <= xs[k - 1].start
    && TellsReach(xs, k, merged[|merged| - 1].end)
    && TotalLength(merged) == |Points(xs[..k])| - Deficit(xs[..k])
    && (Proper(xs) ==> Separated(merged) && Points(merged) == Points(xs[..k]))
  }

  lemma StretchStep(xs: seq<Interval>, k: nat, merged: seq<Interval>)
    requires 0 < k < |xs| && StartsAscend(xs) && MergedUpTo(xs, k, merged)
    requires xs[k].start <= merged[|merged| - 1].end
    ensures MergedUpTo(xs, k + 1, Stretched(merged, xs[k]))
  {
    var end := merged[|merged| - 1].end;
    assert xs[k - 1].start <= xs[k].start;
    PointsSnoc(xs, k);
    DeficitSnoc(xs, k);
    NewPoints(xs, k, end);
    LengthStretches(merged, xs[k]);
    ReachStretches(xs, k, end);
    if Proper(xs) {
      Stretching(merged, xs[k]);
    }
  }

  lemma AppendStep(xs: seq<Interval>, k: nat, merged: seq<Interval>)
    requires 0 < k < |xs| && StartsAscend(xs) && MergedUpTo(xs, k, merged)
    requires xs[k].start > merged[|merged| - 1].end
    ensures MergedUpTo(xs, k + 1, merged + [xs[k]])
  {
    var end := merged[|merged| - 1].end;
    assert xs[k - 1].start <= xs[k].start;
    PointsSnoc(xs, k);
    DeficitSnoc(xs, k);
    NewPoints(xs, k, end);
    LengthAppends(merged, xs[k]);
    ReachRestarts(xs, k, end);
    if Proper(xs) {
      Appending(merged, xs[k]);
    }
  }

  /** The merge loop: the last interval is stretched in place or a new one appended. Proper
      intervals come out disjoint and cover the same instants; in general the lengths add up
      to the covered instants less the deficit. */
  method MergeIntervals(xs: seq<Interval>) returns (merged: seq<Interval>)
    requires xs != [] && StartsAscend(xs)
    ensures Proper(xs) ==> Separated(merged) && Points(merged) == Points(xs)
    ensures TotalLength(merged) == |Points(xs)| - Deficit(xs)
  {
    merged := [xs[0]];
    assert xs[..1] == merged;
    FirstInterval(xs);
    for k := 1 to |xs|
      invariant MergedUpTo(xs, k, merged)
    {
      if xs[k].start <= merged[|merged| - 1].end {
        StretchStep(xs, k, merged);
        merged := Stretched(merged, xs[k]);
      } else {
        AppendStep(xs, k, merged);
        merged := merged + [xs[k]];
      }
    }
    assert xs[..|xs|] == xs;
  }

  method SumLengths(xs: seq<Interval>) returns (total: int)
    ensures total == TotalLength(xs)
  {
    total := 0;
    for i := 0 to |xs|
      invariant total == TotalLength(xs[..i])
    {
      assert xs[..i + 1][..i] == xs[..i];
      total := total + (xs[i].end - xs[i].start);
    }
    assert xs[..|xs|] == xs;
  }

  ghost function Fraction(trades: seq<Trade>, periodStart: int, periodEnd: int): real {
    if periodEnd <= periodStart then 0.0
    else |Covered(trades, periodStart, periodEnd)| as real / (periodEnd - periodStart) as real
  }

  /** What `exposure_fraction` returns, whatever the trades. */
  function Exposed(trades: seq<Trade>, periodStart: int, periodEnd: int): real {
    if periodEnd <= periodStart then 0.0
    else
      var deficit := Deficit(Sorted(Clipped(trades, periodStart, periodEnd)));
      (|Covered(trades, periodStart, periodEnd)| - deficit) as real / (periodEnd - periodStart) as real
  }

  lemma ClippedUnion(trades: seq<Trade>, periodStart: int, periodEnd: int)
    ensures Points(Sorted(Clipped(trades, periodStart, periodEnd))) == Covered(trades, periodStart, periodEnd)
  {
    SortedKeepsPoints(Clipped(trades, periodStart, periodEnd));
    forall t
      ensures t in Points(Clipped(trades, periodStart, periodEnd)) <==> t in Covered(trades, periodStart, periodEnd)
    {
      ClippedCovers(trades, periodStart, periodEnd, t);
    }
  }

  lemma ExposedIs(trades: seq<Trade>, periodStart: int, periodEnd: int, covered: int)
    requires periodStart < periodEnd
    requires
      var intervals := Sorted(Clipped(trades, periodStart, periodEnd));
      covered == |Points(intervals)| - Deficit(intervals)
    ensures Exposed(trades, periodStart, periodEnd) == covered as real / (periodEnd - periodStart) as real
  {
    ClippedUnion(trades, periodStart, periodEnd);
  }

  lemma NothingExposed(trades: seq<Trade>, periodStart: int, periodEnd: int)
    requires periodStart < periodEnd && Sorted(Clipped(trades, periodStart, periodEnd)) == []
    ensures Exposed(trades, periodStart, periodEnd) == 0.0
  {
    ExposedIs(trades, periodStart, periodEnd, 0);
  }

  method ExposureFraction(trades: seq<Trade>, periodStart: int, periodEnd: int) returns (f: real)
    ensures f == Exposed(trades, periodStart, periodEnd)
  {
    if trades == [] || periodEnd <= periodStart {
      if periodStart < periodEnd {
        NothingExposed(trades, periodStart, periodEnd);
      }
      return 0.0;
    }
    var intervals := Sorted(Clipped(trades, periodStart, periodEnd));
    if intervals == [] {
      NothingExposed(trades, periodStart, periodEnd);
      return 0.0;
    }
    SortedSorts(Clipped(trades, periodStart, periodEnd));
    var merged := MergeIntervals(intervals);
    var covered := SumLengths(merged);
    ExposedIs(trades, periodStart, periodEnd, covered);
    return covered as real / (periodEnd - periodStart) as real;
  }

  // ------------------------------------------- when it is the union

  /** The trade ends before it starts, and both within the period. */
  predicate Inverted(q: Trade, periodStart: int, periodEnd: int) {
    periodStart < q.exit < q.entry < periodEnd
  }

  /** Every inverted trade starts while a proper trade is open, or just as it closes. */
  ghost predicate InvertedAreHidden(trades: seq<Trade>, periodStart: int, periodEnd: int) {
    forall q :: q in trades && Inverted(q, periodStart, periodEnd) ==>
      exists p :: p in trades && p.entry < q.entry <= p.exit
  }

  ghost predicate AllReached(xs: seq<Interval>) {
    forall k :: 0 <= k < |xs| && !IsProper(xs[k]) ==> Reached(xs, k, xs[k].start)
  }

  lemma {:induction false} NoDeficitIff(xs: seq<Interval>)
    ensures Deficit(xs) == 0 <==> AllReached(xs)
  {
    if xs != [] {
      var front, x := xs[..|xs| - 1], xs[|xs| - 1];
      NoDeficitIff(front);
      forall k | 0 <= k < |front| ensures Reached(front, k, front[k].start) <==> Reached(xs, k, xs[k].start) {
        assert forall i :: 0 <= i < k ==> front[i] == xs[i];
      }
      if AllReached(front) && (IsProper(x) || Reached(xs, |xs| - 1, x.start)) {
        forall k | 0 <= k < |xs| && !IsProper(xs[k]) ensures Reached(xs, k, xs[k].start) {
          assert k < |front| ==> front[k] == xs[k];
        }
      }
      if AllReached(xs) {
        forall k | 0 <= k < |front| && !IsProper(front[k]) ensures Reached(front, k, front[k].start) {
          assert front[k] == xs[k];
        }
      }
    }
  }

  /** In sorted order the intervals that can reach an inverted one are those that start before it. */
  lemma ReachedInSortedIff(xs: seq<Interval>, k: nat)
    requires Sorting.Ordered(xs, AtMost) && k < |xs| && !IsProper(xs[k])
    ensures Reached(xs, k, xs[k].start) <==> exists y :: y in xs && IsProper(y) && y.start < xs[k].start <= y.end
  {
    if Reached(xs, k, xs[k].start) {
      var i :| 0 <= i < k && IsProper(xs[i]) && xs[k].start <= xs[i].end;
      assert AtMost(xs[i], xs[k]);
      assert xs[i] in xs;
    }
    if y :| y in xs && IsProper(y) && y.start < xs[k].start <= y.end {
      var j :| 0 <= j < |xs| && xs[j] == y;
      assert k < j ==> AtMost(xs[k], xs[j]);
    }
  }

  lemma InvertedClip(q: Trade, periodStart: int, periodEnd: int)
    requires periodStart < periodEnd && q.exit > periodStart && q.entry < periodEnd
    ensures !IsProper(Clip(q, periodStart, periodEnd)) <==> Inverted(q, periodStart, periodEnd)
    ensures Inverted(q, periodStart, periodEnd) ==> Clip(q, periodStart, periodEnd) == Interval(q.entry, q.exit)
  {
  }

  /** A trade hides the start of an inverted one exactly if its clipping does. */
  lemma HiddenByClip(p: Trade, at: int, periodStart: int, periodEnd: int)
    requires periodStart < at < periodEnd
    ensures p.entry < at <= p.exit <==>
      p.exit > periodStart && p.entry < periodEnd &&
      IsProper(Clip(p, periodStart, periodEnd)) &&
      Clip(p, periodStart, periodEnd).start < at <= Clip(p, periodStart, periodEnd).end
  {
  }

  lemma ClippedHidesIff(trades: seq<Trade>, at: int, periodStart: int, periodEnd: int)
    requires periodStart < at < periodEnd
    ensures (exists p :: p in trades && p.entry < at <= p.exit) <==>
      exists y :: y in Clipped(trades, periodStart, periodEnd) && IsProper(y) && y.start < at <= y.end
  {
    if p :| p in trades && p.entry < at <= p.exit {
      HiddenByClip(p, at, periodStart, periodEnd);
      InClipped(trades, periodStart, periodEnd, Clip(p, periodStart, periodEnd));
    }
    if y :| y in Clipped(trades, periodStart, periodEnd) && IsProper(y) && y.start < at <= y.end {
      InClipped(trades, periodStart, periodEnd, y);
      var i :|
        && 0 <= i < |trades| && trades[i].exit > periodStart && trades[i].entry < periodEnd
        && y == Clip(trades[i], periodStart, periodEnd);
      HiddenByClip(trades[i], at, periodStart, periodEnd);
    }
  }

  lemma HiddenIffReached(trades: seq<Trade>, periodStart: int, periodEnd: int)
    requires periodStart < periodEnd
    ensures InvertedAreHidden(trades, periodStart, periodEnd) <==>
      AllReached(Sorted(Clipped(trades, periodStart, periodEnd)))
  {
    var c := Clipped(trades, periodStart, periodEnd);
    var xs := Sorted(c);
    SortedSorts(c);
    if InvertedAreHidden(trades, periodStart, periodEnd) {
      forall k | 0 <= k < |xs| && !IsProper(xs[k]) ensures Reached(xs, k, xs[k].start) {
        InClipped(trades, periodStart, periodEnd, xs[k]);
        assert xs[k] in c;
        var i :|
          && 0 <= i < |trades| && trades[i].exit > periodStart && trades[i].entry < periodEnd
          && xs[k] == Clip(trades[i], periodStart, periodEnd);
        InvertedClip(trades[i], periodStart, periodEnd);
        ClippedHidesIff(trades, trades[i].entry, periodStart, periodEnd);
        ReachedInSortedIff(xs, k);
      }
    }
    if AllReached(xs) {
      forall q | q in trades && Inverted(q, periodStart, periodEnd)
        ensures exists p :: p in trades && p.entry < q.entry <= p.exit
      {
        InvertedClip(q, periodStart, periodEnd);
        InClipped(trades, periodStart, periodEnd, Clip(q, periodStart, periodEnd));
        var k :| 0 <= k < |xs| && xs[k] == Clip(q, periodStart, periodEnd);
        ReachedInSortedIff(xs, k);
        ClippedHidesIff(trades, q.entry, periodStart, periodEnd);
      }
    }
  }

  lemma SameRatioIff(a: int, b: int, n: int)
    requires n > 0
    ensures a as real / n as real == b as real / n as real <==> a == b
  {
    if a as real / n as real == b as real / n as real {
      assert a as real == (a as real / n as real) * n as real;
      assert b as real == (b as real / n as real) * n as real;
    }
  }

  /** The result is the measure of the union of the trades, clipped to the period, over the
      length of the period, if and only if no trade that ends before it starts lies in the
      open: its start must be hidden by a proper trade. In particular when there are none. */
  lemma ExposedIsFractionIff(trades: seq<Trade>, periodStart: int, periodEnd: int)
    ensures Exposed(trades, periodStart, periodEnd) == Fraction(trades, periodStart, periodEnd) <==>
      InvertedAreHidden(trades, periodStart, periodEnd)
  {
    if periodStart < periodEnd {
      HiddenIffReached(trades, periodStart, periodEnd);
      var deficit := Deficit(Sorted(Clipped(trades, periodStart, periodEnd)));
      NoDeficitIff(Sorted(Clipped(trades, periodStart, periodEnd)));
      var n := |Covered(trades, periodStart, periodEnd)|;
      SameRatioIff(n - deficit, n, periodEnd - periodStart);
    }
  }

  lemma SubsetSize(a: set<int>, b: set<int>)
    requires a <= b
    ensures |a| <= |b|
  {
    assert b == a + (b - a);
  }

  lemma DivideMonotone(a: int, b: int, n: int)
    requires a <= b && n > 0
    ensures a as real / n as real <= b as real / n as real
  {
  }

  lemma RatioBounds(c: int, n: int)
    requires 0 <= c <= n && n > 0
    ensures 0.0 <= c as real / n as real <= 1.0
  {
  }

  lemma FractionBounds(trades: seq<Trade>, periodStart: int, periodEnd: int)
    ensures 0.0 <= Fraction(trades, periodStart, periodEnd) <= 1.0
  {
    if periodStart < periodEnd {
      var n, c := periodEnd - periodStart, |Covered(trades, periodStart, periodEnd)|;
      SubsetSize(Covered(trades, periodStart, periodEnd), Range(periodStart, periodEnd));
      RangeSize(periodStart, periodEnd);
      RatioBounds(c, n);
    }
  }

  /** The metric can only grow when trades are added. */
  lemma FractionGrows(trades: seq<Trade>, more: seq<Trade>, periodStart: int, periodEnd: int)
    requires forall t :: t in trades ==> t in more
    ensures Fraction(trades, periodStart, periodEnd) <= Fraction(more, periodStart, periodEnd)
  {
    CoverageGrows(trades, more, periodStart, periodEnd);
    SubsetSize(Covered(trades, periodStart, periodEnd), Covered(more, periodStart, periodEnd));
    if periodStart < periodEnd {
      DivideMonotone(
        |Covered(trades, periodStart, periodEnd)|, |Covered(more, periodStart, periodEnd)|, periodEnd - periodStart);
    }
  }

  /** The metric depends only on which trades there are, not on their order or repetition. */
  lemma FractionIgnoresOrder(trades: seq<Trade>, shuffled: seq<Trade>, periodStart: int, periodEnd: int)
    requires forall t :: t in trades <==> t in shuffled
    ensures Fraction(trades, periodStart, periodEnd) == Fraction(shuffled, periodStart, periodEnd)
  {
    FractionGrows(trades, shuffled, periodStart, periodEnd);
    FractionGrows(shuffled, trades, periodStart, periodEnd);
  }

  lemma CoverageGrows(trades: seq<Trade>, more: seq<Trade>, periodStart: int, periodEnd: int)
    requires forall t :: t in trades ==> t in more
    ensures Covered(trades, periodStart, periodEnd) <= Covered(more, periodStart, periodEnd)
  {
    forall t | t in Covered(trades, periodStart, periodEnd) ensures t in Covered(more, periodStart, periodEnd) {
      var i :| 0 <= i < |trades| && trades[i].entry <= t < trades[i].exit;
      assert trades[i] in more;
      var j :| 0 <= j < |more| && more[j] == trades[i];
    }
  }
}
