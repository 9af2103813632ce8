/** Funding settlements and walk-forward windows (src/backtesting/funding.py,
    src/backtesting/walk_forward.py). Times are integer nanoseconds since the epoch, UTC. */
module Funding {
  import opened Common
  import Sorting

  const HOUR := 3_600_000_000_000
  const DAY := 86_400_000_000_000

  // ------------------------------------------------- funding_timestamps

  function DayStamps(day: int, hours: seq<int>): (r: seq<int>)
    ensures |r| == |hours| && forall i :: 0 <= i < |hours| ==> r[i] == day * DAY + hours[i] * HOUR
  {
    seq(|hours|, i requires 0 <= i < |hours| => day * DAY + hours[i] * HOUR)
  }

  /** All funding hours of the days first..last. */
  function Candidates(first: int, last: int, hours: seq<int>): seq<int>
    decreases last - first
  {
    if last < first then [] else Candidates(first, last - 1, hours) + DayStamps(last, hours)
  }

  function CeilDiv(a: int, b: int): int
    requires b > 0
  {
    -((-a) / b)
  }

  function InWindow(xs: seq<int>, start: int, end: int): seq<int> {
    Filter(xs, t => start <= t < end)
  }

  /** `funding_timestamps`: floor the start to its day, ceil the end, list every funding hour,
      sort, and keep [start, end). */
  function FundingTimestamps(start: int, end: int, hours: seq<int>): seq<int> {
    InWindow(Sorting.Sorted(Candidates(start / DAY, CeilDiv(end, DAY), hours), Sorting.IntAtMost), start, end)
  }

  // ------------------------------------------------- what they should be

  /** The instant t is the given hour of some day. */
  predicate AtHour(t: int, hour: int) {
    (t - hour * HOUR) % DAY == 0
  }

  /** The day that has the instant t at the given hour. */
  function DayOf(t: int, hour: int): int {
    (t - hour * HOUR) / DAY
  }

  /** How many of the funding hours fall on the instant t: once each, whatever the day. */
  function Hits(t: int, hours: seq<int>): nat {
    if hours == [] then 0
    else Hits(t, hours[..|hours| - 1]) + if AtHour(t, hours[|hours| - 1]) then 1 else 0
  }

  /** The same, counting only hours of the days first..last. */
  function HitsWithin(t: int, first: int, last: int, hours: seq<int>): nat {
    if hours == [] then 0
    else
      var h := hours[|hours| - 1];
      HitsWithin(t, first, last, hours[..|hours| - 1]) + if AtHour(t, h) && first <= DayOf(t, h) <= last then 1 else 0
  }

  /** Hours of the day, or of the day before: those the listed days are sure to reach. */
  predicate WithinReach(hour: int) {
    -24 <= hour < 24
  }

  ghost predicate AllWithinReach(hours: seq<int>) {
    forall i :: 0 <= i < |hours| ==> WithinReach(hours[i])
  }

  // ----------------------------------------------- what the list contains

  lemma StampOfDay(t: int, day: int, hour: int)
    ensures t == day * DAY + hour * HOUR <==> AtHour(t, hour) && DayOf(t, hour) == day
  {
  }

  lemma {:induction false} StampsCount(t: int, day: int, hours: seq<int>)
    ensures multiset(DayStamps(day, hours))[t] == HitsWithin(t, day, day, hours)
  {
    if hours != [] {
      var front, h := hours[..|hours| - 1], hours[|hours| - 1];
      StampsCount(t, day, front);
      StampOfDay(t, day, h);
      assert DayStamps(day, hours) == DayStamps(day, front) + [day * DAY + h * HOUR];
    }
  }

  lemma {:induction false} OneMoreDay(t: int, first: int, last: int, hours: seq<int>)
    requires first <= last
    ensures HitsWithin(t, first, last, hours) ==
      HitsWithin(t, first, last - 1, hours) + HitsWithin(t, last, last, hours)
  {
    if hours != [] {
      OneMoreDay(t, first, last, hours[..|hours| - 1]);
    }
  }

  lemma {:induction false} NoDays(t: int, first: int, last: int, hours: seq<int>)
    requires last < first
    ensures HitsWithin(t, first, last, hours) == 0
  {
    if hours != [] {
      NoDays(t, first, last, hours[..|hours| - 1]);
    }
  }

  lemma {:induction false} CandidatesCount(t: int, first: int, last: int, hours: seq<int>)
    ensures multiset(Candidates(first, last, hours))[t] == HitsWithin(t, first, last, hours)
    decreases last - first
  {
    if last < first {
      NoDays(t, first, last, hours);
    } else {
      CandidatesCount(t, first, last - 1, hours);
      StampsCount(t, last, hours);
      OneMoreDay(t, first, last, hours);
    }
  }

  lemma {:induction false} WindowKeepsOrder(xs: seq<int>, start: int, end: int)
    requires Sorting.Ordered(xs, Sorting.IntAtMost)
    ensures Sorting.Ordered(InWindow(xs, start, end), Sorting.IntAtMost)
  {
    if xs != [] {
      var front, x := xs[..|xs| - 1], xs[|xs| - 1];
      assert xs == front + [x];
      WindowKeepsOrder(front, start, end);
      FilterSnoc(front, x, t => start <= t < end);
      forall y | y in InWindow(front, start, end) ensures Sorting.IntAtMost(y, x) {
        assert y in front;
      }
    }
  }

  /** For all hours whatever: the list ascends and has each instant of [start, end) as often
      as the listed days have it. */
  lemma TimestampsCount(start: int, end: int, hours: seq<int>, t: int)
    ensures Sorting.Ordered(FundingTimestamps(start, end, hours), Sorting.IntAtMost)
    ensures multiset(FundingTimestamps(start, end, hours))[t] ==
      if start <= t < end then HitsWithin(t, start / DAY, CeilDiv(end, DAY), hours) else 0
  {
    var listed := Candidates(start / DAY, CeilDiv(end, DAY), hours);
    Sorting.SortedOrders(listed, Sorting.IntAtMost);
    Sorting.SortedKeepsAll(listed, Sorting.IntAtMost);
    WindowKeepsOrder(Sorting.Sorted(listed, Sorting.IntAtMost), start, end);
    FilterBag(Sorting.Sorted(listed, Sorting.IntAtMost), u => start <= u < end, t);
    CandidatesCount(t, start / DAY, CeilDiv(end, DAY), hours);
  }

  lemma Reached(t: int, start: int, end: int, hour: int)
    requires start <= t < end && WithinReach(hour) && AtHour(t, hour)
    ensures start / DAY <= DayOf(t, hour) <= CeilDiv(end, DAY)
  {
    var d, first, last := DayOf(t, hour), start / DAY, CeilDiv(end, DAY);
    assert d * DAY == t - hour * HOUR;
    assert first * DAY <= start && end <= last * DAY;
  }

  lemma {:induction false} AllReached(t: int, start: int, end: int, hours: seq<int>)
    requires start <= t < end && AllWithinReach(hours)
    ensures HitsWithin(t, start / DAY, CeilDiv(end, DAY), hours) == Hits(t, hours)
  {
    if hours != [] {
      var h := hours[|hours| - 1];
      AllReached(t, start, end, hours[..|hours| - 1]);
      if AtHour(t, h) {
        Reached(t, start, end, h);
      }
    }
  }

  /** With hours within reach: exactly the settlements of the half-open interval, ascending,
      each as often as the hours name it. */
  lemma TimestampsAreSettlements(start: int, end: int, hours: seq<int>, t: int)
    requires AllWithinReach(hours)
    ensures Sorting.Ordered(FundingTimestamps(start, end, hours), Sorting.IntAtMost)
    ensures multiset(FundingTimestamps(start, end, hours))[t] == if start <= t < end then Hits(t, hours) else 0
  {
    TimestampsCount(start, end, hours, t);
    if start <= t < end {
      AllReached(t, start, end, hours);
    }
  }

  // --------------------------------------------------- one settlement each

  /** No two funding hours are the same hour of the day. */
  ghost predicate DistinctHours(hours: seq<int>) {
    forall i, j :: 0 <= i < j < |hours| ==> hours[i] % 24 != hours[j] % 24
  }

  lemma WholeDays(m: int)
    ensures (m * HOUR) % DAY == 0 <==> m % 24 == 0
  {
    var q, k := m / 24, m % 24;
    assert m * HOUR == q * DAY + k * HOUR && 0 <= k * HOUR < DAY;
  }

  lemma DaysLater(x: int, n: int)
    ensures (n * DAY + x) % DAY == 0 <==> x % DAY == 0
  {
  }

  lemma HourShift(t: int, n: int, h: int, k: int)
    requires t == n * DAY + h * HOUR
    ensures t - k * HOUR == n * DAY + (h - k) * HOUR
  {
  }

  lemma SameRemainder(h: int, k: int)
    ensures (h - k) % 24 == 0 <==> h % 24 == k % 24
  {
  }

  lemma SameHour(t: int, h: int, k: int)
    requires AtHour(t, h)
    ensures AtHour(t, k) <==> h % 24 == k % 24
  {
    StampOfDay(t, DayOf(t, h), h);
    HourShift(t, DayOf(t, h), h, k);
    DaysLater((h - k) * HOUR, DayOf(t, h));
    WholeDays(h - k);
    SameRemainder(h, k);
  }

  lemma {:induction false} NoOtherHit(t: int, h: int, hours: seq<int>)
    requires AtHour(t, h) && forall i :: 0 <= i < |hours| ==> hours[i] % 24 != h % 24
    ensures Hits(t, hours) == 0
  {
    if hours != [] {
      NoOtherHit(t, h, hours[..|hours| - 1]);
      SameHour(t, h, hours[|hours| - 1]);
    }
  }

  lemma {:induction false} HitOnce(t: int, hours: seq<int>)
    requires DistinctHours(hours)
    ensures Hits(t, hours) <= 1
  {
    if hours != [] {
      var front, h := hours[..|hours| - 1], hours[|hours| - 1];
      HitOnce(t, front);
      if AtHour(t, h) {
        NoOtherHit(t, h, front);
      }
    }
  }

  lemma {:induction false} NoMoreThanHits(t: int, first: int, last: int, hours: seq<int>)
    ensures HitsWithin(t, first, last, hours) <= Hits(t, hours)
  {
    if hours != [] {
      NoMoreThanHits(t, first, last, hours[..|hours| - 1]);
    }
  }

  /** The hour lists the instant t on one of the days first..last. */
  predicate Lists(t: int, first: int, last: int, hour: int) {
    AtHour(t, hour) && first <= DayOf(t, hour) <= last
  }

  lemma {:induction false} HitWithin(t: int, first: int, last: int, hours: seq<int>, i: nat)
    requires i < |hours| && Lists(t, first, last, hours[i])
    ensures HitsWithin(t, first, last, hours) >= 1
  {
    if i < |hours| - 1 {
      HitWithin(t, first, last, hours[..|hours| - 1], i);
    }
  }

  lemma {:induction false} HitTwiceWithin(t: int, first: int, last: int, hours: seq<int>, i: nat, j: nat)
    requires i < j < |hours| && Lists(t, first, last, hours[i]) && Lists(t, first, last, hours[j])
    ensures HitsWithin(t, first, last, hours) >= 2
  {
    if j < |hours| - 1 {
      HitTwiceWithin(t, first, last, hours[..|hours| - 1], i, j);
    } else {
      HitWithin(t, first, last, hours[..|hours| - 1], i);
    }
  }

  /** Days enough around the epoch for the instant and both of its days. */
  lemma WideWindow(t: int, d: int, e: int) returns (k: int)
    ensures -k * DAY <= t < k * DAY && -k <= d <= k && -k <= e <= k
    ensures (-k * DAY) / DAY == -k && CeilDiv(k * DAY, DAY) == k
  {
    k := 1 + (if t < 0 then -t else t) + (if d < 0 then -d else d) + (if e < 0 then -e else e);
  }

  ghost predicate ListedOnce(hours: seq<int>) {
    forall a, c, t :: multiset(FundingTimestamps(a, c, hours))[t] <= 1
  }

  lemma DistinctListedOnce(hours: seq<int>, a: int, c: int, t: int)
    requires DistinctHours(hours)
    ensures multiset(FundingTimestamps(a, c, hours))[t] <= 1
  {
    TimestampsCount(a, c, hours, t);
    NoMoreThanHits(t, a / DAY, CeilDiv(c, DAY), hours);
    HitOnce(t, hours);
  }

  lemma ListedTwice(hours: seq<int>, a: int, c: int, t: int, i: nat, j: nat)
    requires i < j < |hours| && a <= t < c
    requires Lists(t, a / DAY, CeilDiv(c, DAY), hours[i]) && Lists(t, a / DAY, CeilDiv(c, DAY), hours[j])
    ensures multiset(FundingTimestamps(a, c, hours))[t] >= 2
  {
    TimestampsCount(a, c, hours, t);
    HitTwiceWithin(t, a / DAY, CeilDiv(c, DAY), hours, i, j);
  }

  /** For all hours whatever: no list names an instant twice if and only if no two of the
      hours are the same hour of the day. */
  lemma ChargedOnceIff(hours: seq<int>)
    ensures ListedOnce(hours) <==> DistinctHours(hours)
  {
    if DistinctHours(hours) {
      forall a, c, t ensures multiset(FundingTimestamps(a, c, hours))[t] <= 1 {
        DistinctListedOnce(hours, a, c, t);
      }
    } else {
      var i, j :| 0 <= i < j < |hours| && hours[i] % 24 == hours[j] % 24;
      var t := hours[i] * HOUR;
      SameHour(t, hours[i], hours[j]);
      var k := WideWindow(t, DayOf(t, hours[i]), DayOf(t, hours[j]));
      ListedTwice(hours, -k * DAY, k * DAY, t, i, j);
    }
  }

  // ---------------------------------------------------------- conservation

  ghost predicate Splits(a: int, b: int, c: int, hours: seq<int>) {
    FundingTimestamps(a, c, hours) == FundingTimestamps(a, b, hours) + FundingTimestamps(b, c, hours)
  }

  /** Conservation: cutting an interval anywhere neither loses nor doubles a settlement. */
  lemma SettlementsSplit(a: int, b: int, c: int, hours: seq<int>)
    requires AllWithinReach(hours) && a <= b <= c
    ensures Splits(a, b, c, hours)
  {
    var x, y, z := FundingTimestamps(a, b, hours), FundingTimestamps(b, c, hours), FundingTimestamps(a, c, hours);
    forall t ensures multiset(z)[t] == multiset(x + y)[t] {
      TimestampsAreSettlements(a, b, hours, t);
      TimestampsAreSettlements(b, c, hours, t);
      TimestampsAreSettlements(a, c, hours, t);
    }
    TimestampsCount(a, c, hours, a);
    OrderedHalves(a, b, c, hours);
    assert multiset(z) == multiset(x + y);
    Sorting.OrderedUnique(z, x + y, Sorting.IntAtMost);
  }

  lemma OrderedHalves(a: int, b: int, c: int, hours: seq<int>)
    ensures Sorting.Ordered(FundingTimestamps(a, b, hours) + FundingTimestamps(b, c, hours), Sorting.IntAtMost)
  {
    var x, y := FundingTimestamps(a, b, hours), FundingTimestamps(b, c, hours);
    TimestampsCount(a, b, hours, a);
    TimestampsCount(b, c, hours, b);
    forall i, j | 0 <= i < |x| && 0 <= j < |y| ensures Sorting.IntAtMost(x[i], y[j]) {
      assert x[i] in x && y[j] in y;
    }
  }

  lemma {:induction false} FewerDaysFewerHits(t: int, first: int, first': int, last: int, last': int, hours: seq<int>,
                                              i: nat)
    requires first' <= first && last <= last' && i < |hours|
    requires AtHour(t, hours[i])
    requires first' <= DayOf(t, hours[i]) <= last' && !(first <= DayOf(t, hours[i]) <= last)
    ensures HitsWithin(t, first, last, hours) < HitsWithin(t, first', last', hours)
  {
    var front := hours[..|hours| - 1];
    if i < |front| {
      FewerDaysFewerHits(t, first, first', last, last', front, i);
    } else {
      FewerDays(t, first, first', last, last', front);
    }
  }

  lemma {:induction false} FewerDays(t: int, first: int, first': int, last: int, last': int, hours: seq<int>)
    requires first' <= first && last <= last'
    ensures HitsWithin(t, first, last, hours) <= HitsWithin(t, first', last', hours)
  {
    if hours != [] {
      FewerDays(t, first, first', last, last', hours[..|hours| - 1]);
    }
  }

  lemma NotSplit(a: int, b: int, c: int, hours: seq<int>, t: int)
    requires
      multiset(FundingTimestamps(a, c, hours))[t] >
      multiset(FundingTimestamps(a, b, hours))[t] + multiset(FundingTimestamps(b, c, hours))[t]
    ensures !Splits(a, b, c, hours)
  {
    var x, y := FundingTimestamps(a, b, hours), FundingTimestamps(b, c, hours);
    assert multiset(x + y) == multiset(x) + multiset(y);
  }

  lemma DaysMonotone(a: int, b: int)
    requires a <= b
    ensures a / DAY <= b / DAY && CeilDiv(a, DAY) <= CeilDiv(b, DAY)
  {
  }

  /** The part [start, end) lists fewer days than the whole, and misses the day that has t. */
  lemma PartMisses(start: int, end: int, wholeStart: int, wholeEnd: int, t: int, hours: seq<int>, i: nat)
    requires wholeStart <= start <= t < end <= wholeEnd && i < |hours| && AtHour(t, hours[i])
    requires wholeStart / DAY <= DayOf(t, hours[i]) <= CeilDiv(wholeEnd, DAY)
    requires !(start / DAY <= DayOf(t, hours[i]) <= CeilDiv(end, DAY))
    ensures
      multiset(FundingTimestamps(start, end, hours))[t] < multiset(FundingTimestamps(wholeStart, wholeEnd, hours))[t]
  {
    DaysMonotone(wholeStart, start);
    DaysMonotone(end, wholeEnd);
    TimestampsCount(start, end, hours, t);
    TimestampsCount(wholeStart, wholeEnd, hours, t);
    FewerDaysFewerHits(t, start / DAY, wholeStart / DAY, CeilDiv(end, DAY), CeilDiv(wholeEnd, DAY), hours, i);
  }

  lemma NothingBefore(start: int, end: int, hours: seq<int>, t: int)
    requires !(start <= t < end)
    ensures multiset(FundingTimestamps(start, end, hours))[t] == 0
  {
    TimestampsCount(start, end, hours, t);
  }

  lemma LostFromSecond(a: int, t: int, c: int, hours: seq<int>)
    requires multiset(FundingTimestamps(t, c, hours))[t] < multiset(FundingTimestamps(a, c, hours))[t]
    ensures !Splits(a, t, c, hours)
  {
    NothingBefore(a, t, hours, t);
    NotSplit(a, t, c, hours, t);
  }

  lemma LostFromFirst(t: int, b: int, c: int, hours: seq<int>)
    requires t < b && multiset(FundingTimestamps(t, b, hours))[t] < multiset(FundingTimestamps(t, c, hours))[t]
    ensures !Splits(t, b, c, hours)
  {
    NothingBefore(b, c, hours, t);
    NotSplit(t, b, c, hours, t);
  }

  /** An hour from 24 on is missed by the part that starts on it. */
  lemma LateHourIsLost(hours: seq<int>, i: nat, a: int, t: int, c: int)
    requires i < |hours| && AtHour(t, hours[i]) && DayOf(t, hours[i]) == 0
    requires a <= t < c && a / DAY == 0 && t / DAY > 0 && CeilDiv(c, DAY) >= 0
    ensures !Splits(a, t, c, hours)
  {
    PartMisses(t, c, a, c, t, hours, i);
    LostFromSecond(a, t, c, hours);
  }

  /** An hour before -24 is missed by the part that ends right after it. */
  lemma EarlyHourIsLost(hours: seq<int>, i: nat, t: int, b: int, c: int)
    requires i < |hours| && AtHour(t, hours[i]) && DayOf(t, hours[i]) == 0
    requires t < b <= c && CeilDiv(c, DAY) == 0 && t / DAY <= 0 && CeilDiv(b, DAY) < 0
    ensures !Splits(t, b, c, hours)
  {
    PartMisses(t, b, t, c, t, hours, i);
    LostFromFirst(t, b, c, hours);
  }

  lemma OutOfReach(hour: int)
    requires !WithinReach(hour)
    ensures AtHour(hour * HOUR, hour) && DayOf(hour * HOUR, hour) == 0
    ensures hour > 0 ==> hour * HOUR > 0 && (hour * HOUR) / DAY > 0 && CeilDiv(hour * HOUR + 1, DAY) >= 0
    ensures hour < 0 ==> hour * HOUR < 0 && (hour * HOUR) / DAY <= 0 && CeilDiv(hour * HOUR + 1, DAY) < 0
    ensures 0 / DAY == 0 && CeilDiv(0, DAY) == 0
  {
  }

  /** Settlements are conserved at every cut if and only if every hour is within reach. */
  lemma SettlementsSplitIff(hours: seq<int>)
    ensures (forall a, b, c :: a <= b <= c ==> Splits(a, b, c, hours)) <==> AllWithinReach(hours)
  {
    if AllWithinReach(hours) {
      forall a, b, c | a <= b <= c ensures Splits(a, b, c, hours) {
        SettlementsSplit(a, b, c, hours);
      }
    } else {
      var i :| 0 <= i < |hours| && !WithinReach(hours[i]);
      var t := hours[i] * HOUR;
      OutOfReach(hours[i]);
      if hours[i] > 0 {
        LateHourIsLost(hours, i, 0, t, t + 1);
      } else {
        EarlyHourIsLost(hours, i, t, t + 1, 0);
      }
    }
  }

  // ------------------------------------------------------- closed count

  /** Settlements before t at one hour of the day, counted from the epoch (negative before it). */
  function CountBefore(t: int, hour: int): int {
    CeilDiv(t - hour * HOUR, DAY)
  }

  function ClosedCount(a: int, c: int, hours: seq<int>): int {
    if hours == [] then 0
    else
      var front, h := hours[..|hours| - 1], hours[|hours| - 1];
      ClosedCount(a, c, front) + CountBefore(c, h) - CountBefore(a, h)
  }

  /** Moving the end past an instant counts it exactly if it is at this hour. */
  lemma CountBeforeStep(t: int, hour: int)
    ensures CountBefore(t + 1, hour) == CountBefore(t, hour) + if AtHour(t, hour) then 1 else 0
  {
    var x := t - hour * HOUR;
    assert CeilDiv(x + 1, DAY) == CeilDiv(x, DAY) + if x % DAY == 0 then 1 else 0;
  }

  lemma {:induction false} ClosedCountStep(a: int, c: int, hours: seq<int>)
    ensures ClosedCount(a, c + 1, hours) == ClosedCount(a, c, hours) + Hits(c, hours)
  {
    if hours != [] {
      ClosedCountStep(a, c, hours[..|hours| - 1]);
      CountBeforeStep(c, hours[|hours| - 1]);
    }
  }

  lemma {:induction false} ClosedCountEmpty(a: int, hours: seq<int>)
    ensures ClosedCount(a, a, hours) == 0
  {
    if hours != [] {
      ClosedCountEmpty(a, hours[..|hours| - 1]);
    }
  }

  lemma {:induction false} AllOne(xs: seq<int>, v: int)
    requires forall i :: 0 <= i < |xs| ==> xs[i] == v
    ensures multiset(xs)[v] == |xs|
  {
    if xs != [] {
      AllOne(xs[..|xs| - 1], v);
      assert xs == xs[..|xs| - 1] + [v];
    }
  }

  lemma {:induction false} EmptyWindow(xs: seq<int>, a: int)
    ensures InWindow(xs, a, a) == []
  {
    if xs != [] {
      assert xs == xs[..|xs| - 1] + [xs[|xs| - 1]];
      EmptyWindow(xs[..|xs| - 1], a);
      FilterSnoc(xs[..|xs| - 1], xs[|xs| - 1], t => a <= t < a);
    }
  }

  lemma InstantCount(t: int, hours: seq<int>)
    requires AllWithinReach(hours)
    ensures |FundingTimestamps(t, t + 1, hours)| == Hits(t, hours)
  {
    TimestampsAreSettlements(t, t + 1, hours, t);
    AllOne(FundingTimestamps(t, t + 1, hours), t);
  }

  /** The number of settlements is a difference of ceilings, one per funding hour. */
  lemma {:induction false} CountIsClosed(a: int, c: int, hours: seq<int>)
    requires AllWithinReach(hours) && a <= c
    ensures |FundingTimestamps(a, c, hours)| == ClosedCount(a, c, hours)
    decreases c - a
  {
    if a == c {
      EmptyWindow(Sorting.Sorted(Candidates(a / DAY, CeilDiv(a, DAY), hours), Sorting.IntAtMost), a);
      ClosedCountEmpty(a, hours);
    } else {
      CountIsClosed(a, c - 1, hours);
      SettlementsSplit(a, c - 1, c, hours);
      InstantCount(c - 1, hours);
      ClosedCountStep(a, c - 1, hours);
    }
  }

  // ------------------------------------------------------------- the cost

  datatype Position = Position(tsOpened: int, tsClosed: int, price: real, quantity: real)

  /** `row.quantity * row.avg_px_open * rate`: what one settlement costs. */
  function PerSettlement(p: Position, rate: real): real {
    p.quantity * p.price * rate
  }

  function Times(events: nat, amount: real): real {
    events as real * amount
  }

  lemma TimesAdds(m: nat, n: nat, amount: real)
    ensures Times(m + n, amount) == Times(m, amount) + Times(n, amount)
  {
  }

  function TotalCost(ps: seq<Position>, rate: real, hours: seq<int>): real {
    if ps == [] then 0.0
    else
      var p := ps[|ps| - 1];
      TotalCost(ps[..|ps| - 1], rate, hours)
      + Times(|FundingTimestamps(p.tsOpened, p.tsClosed, hours)|, PerSettlement(p, rate))
  }

  lemma TotalCostSnoc(ps: seq<Position>, i: nat, rate: real, hours: seq<int>)
    requires i < |ps|
    ensures TotalCost(ps[..i + 1], rate, hours) ==
      TotalCost(ps[..i], rate, hours)
      + Times(|FundingTimestamps(ps[i].tsOpened, ps[i].tsClosed, hours)|, PerSettlement(ps[i], rate))
  {
    assert ps[..i + 1][..i] == ps[..i];
  }

  method EstimateFundingCost(ps: seq<Position>, rate: real, hours: seq<int>) returns (total: real)
    ensures total == TotalCost(ps, rate, hours)
  {
    total := 0.0;
    for i := 0 to |ps|
      invariant total == TotalCost(ps[..i], rate, hours)
    {
      TotalCostSnoc(ps, i, rate, hours);
      var events := FundingTimestamps(ps[i].tsOpened, ps[i].tsClosed, hours);
      total := total + Times(|events|, PerSettlement(ps[i], rate));
    }
    assert ps[..|ps|] == ps;
  }

  /** A position of one unit at price one pays the rate at each settlement. */
  lemma UnitCostIsTheRate(a: int, c: int, rate: real, hours: seq<int>)
    ensures TotalCost([Position(a, c, 1.0, 1.0)], rate, hours) == |FundingTimestamps(a, c, hours)| as real * rate
  {
    assert [Position(a, c, 1.0, 1.0)][..0] == [];
  }

  /** The position with its quantity or its price multiplied by k. */
  predicate IsScaled(p: Position, q: Position, k: real) {
    q == p.(quantity := k * p.quantity) || q == p.(price := k * p.price)
  }

  lemma ScaledOnce(p: Position, q: Position, k: real, rate: real, count: nat)
    requires IsScaled(p, q, k)
    ensures Times(count, PerSettlement(q, rate)) == k * Times(count, PerSettlement(p, rate))
  {
    if q == p.(quantity := k * p.quantity) {
      assert k * p.quantity * p.price * rate == k * (p.quantity * p.price * rate);
    } else {
      assert p.quantity * (k * p.price) * rate == k * (p.quantity * p.price * rate);
    }
    TimesScale(count, PerSettlement(p, rate), k);
  }

  lemma TimesScale(count: nat, amount: real, k: real)
    ensures Times(count, k * amount) == k * Times(count, amount)
  {
  }

  lemma RateScales(p: Position, k: real, rate: real, count: nat)
    ensures Times(count, PerSettlement(p, k * rate)) == k * Times(count, PerSettlement(p, rate))
  {
    assert p.quantity * p.price * (k * rate) == k * (p.quantity * p.price * rate);
    TimesScale(count, PerSettlement(p, rate), k);
  }

  lemma CostFollowsTheRate(p: Position, k: real, rate: real, hours: seq<int>)
    ensures TotalCost([p], k * rate, hours) == k * TotalCost([p], rate, hours)
  {
    var count := |FundingTimestamps(p.tsOpened, p.tsClosed, hours)|;
    OnePosition(p, rate, hours, count, PerSettlement(p, rate));
    OnePosition(p, k * rate, hours, count, PerSettlement(p, k * rate));
    RateScales(p, k, rate, count);
  }

  lemma CostFollowsThePosition(p: Position, q: Position, k: real, rate: real, hours: seq<int>)
    requires IsScaled(p, q, k)
    ensures TotalCost([q], rate, hours) == k * TotalCost([p], rate, hours)
  {
    var count := |FundingTimestamps(p.tsOpened, p.tsClosed, hours)|;
    OnePosition(p, rate, hours, count, PerSettlement(p, rate));
    OnePosition(q, rate, hours, count, PerSettlement(q, rate));
    ScaledOnce(p, q, k, rate, count);
  }

  /** The cost of a position is proportional to its quantity, to its price and to the rate;
      a negative quantity earns what the positive one pays. */
  lemma CostIsProportional(p: Position, q: Position, k: real, rate: real, hours: seq<int>)
    requires IsScaled(p, q, k)
    ensures TotalCost([q], rate, hours) == k * TotalCost([p], rate, hours)
    ensures TotalCost([p], k * rate, hours) == k * TotalCost([p], rate, hours)
  {
    CostFollowsThePosition(p, q, k, rate, hours);
    CostFollowsTheRate(p, k, rate, hours);
  }

  function Sum(xs: seq<real>): real {
    if xs == [] then 0.0 else Sum(xs[..|xs| - 1]) + xs[|xs| - 1]
  }

  /** What each position costs by itself. */
  function Costs(ps: seq<Position>, rate: real, hours: seq<int>): (r: seq<real>)
    ensures |r| == |ps|
  {
    seq(|ps|, i requires 0 <= i < |ps| => TotalCost([ps[i]], rate, hours))
  }

  lemma {:induction false} TotalIsSumOfCosts(ps: seq<Position>, rate: real, hours: seq<int>)
    ensures TotalCost(ps, rate, hours) == Sum(Costs(ps, rate, hours))
  {
    if ps != [] {
      var n := |ps| - 1;
      TotalIsSumOfCosts(ps[..n], rate, hours);
      OnePosition(ps[n], rate, hours, |FundingTimestamps(ps[n].tsOpened, ps[n].tsClosed, hours)|,
                  PerSettlement(ps[n], rate));
      assert Costs(ps, rate, hours)[..n] == Costs(ps[..n], rate, hours);
    }
  }

  lemma CountsSplit(a: int, b: int, c: int, hours: seq<int>)
    requires AllWithinReach(hours) && a <= b <= c
    ensures |FundingTimestamps(a, c, hours)| == |FundingTimestamps(a, b, hours)| + |FundingTimestamps(b, c, hours)|
  {
    SettlementsSplit(a, b, c, hours);
  }

  lemma OnePosition(p: Position, rate: real, hours: seq<int>, count: nat, amount: real)
    requires |FundingTimestamps(p.tsOpened, p.tsClosed, hours)| == count && PerSettlement(p, rate) == amount
    ensures TotalCost([p], rate, hours) == Times(count, amount)
  {
    assert [p][..0] == [];
  }

  /** Positions with the same price and quantity cost the same per settlement. */
  lemma SameAmount(p: Position, q: Position, rate: real)
    requires p.price == q.price && p.quantity == q.quantity
    ensures PerSettlement(p, rate) == PerSettlement(q, rate)
  {
  }

  /** Closing a position and reopening it at the same instant, even exactly at a settlement,
      costs the same funding as holding it: with the half-open interval no settlement is
      charged twice or not at all. */
  lemma ReopeningIsNeutral(held: Position, first: Position, second: Position, rate: real, hours: seq<int>)
    requires AllWithinReach(hours) && held.tsOpened <= first.tsClosed <= held.tsClosed
    requires first == held.(tsClosed := first.tsClosed) && second == held.(tsOpened := first.tsClosed)
    ensures TotalCost([first], rate, hours) + TotalCost([second], rate, hours) == TotalCost([held], rate, hours)
  {
    var m := |FundingTimestamps(first.tsOpened, first.tsClosed, hours)|;
    var n := |FundingTimestamps(second.tsOpened, second.tsClosed, hours)|;
    var amount := PerSettlement(held, rate);
    CountsSplit(held.tsOpened, first.tsClosed, held.tsClosed, hours);
    SameAmount(first, held, rate);
    SameAmount(second, held, rate);
    OnePosition(first, rate, hours, m, amount);
    OnePosition(second, rate, hours, n, amount);
    OnePosition(held, rate, hours, m + n, amount);
    TimesAdds(m, n, amount);
  }

  // --------------------------------------------------------- walk-forward

  datatype Window = Window(
    trainStart: int, trainEnd: int, validationStart: int, validationEnd: int, testStart: int, testEnd: int)

  function WindowAt(trainStart: int, train: int, validation: int, test: int): Window {
    Window(trainStart, trainStart + train, trainStart + train, trainStart + train + validation,
           trainStart + train + validation, trainStart + train + validation + test)
  }

  /** TRAIN, VALIDATION and TEST follow one another, each with its own length. */
  predicate HasShape(w: Window, train: int, validation: int, test: int) {
    && w.trainEnd - w.trainStart == train
    && w.validationStart == w.trainEnd && w.validationEnd - w.validationStart == validation
    && w.testStart == w.validationEnd && w.testEnd - w.testStart == test
  }

  /** Each TEST window starts where the previous one ends. */
  ghost predicate Tiles(ws: seq<Window>) {
    forall i :: 0 <= i < |ws| - 1 ==> ws[i].testEnd == ws[i + 1].testStart
  }

  /** `generate_windows`: the windows slide by the test period as long as the next one fits. */
  method GenerateWindows(start: int, end: int, train: int, validation: int, test: int) returns (r: Option<seq<Window>>)
    ensures r.Some? <==> train > 0 && validation > 0 && test > 0
    ensures r.Some? ==> IsWalkForward(r.value, start, end, train, validation, test)
  {
    if train <= 0 || validation <= 0 || test <= 0 {
      return None;
    }
    var windows: seq<Window> := [];
    var trainStart := start;
    while trainStart + train + validation + test <= end
      invariant forall i :: 0 <= i < |windows| ==>
        HasShape(windows[i], train, validation, test)
      invariant forall i :: 0 <= i < |windows| ==> windows[i].testEnd <= end
      invariant Tiles(windows)
      invariant windows == [] ==> trainStart == start
      invariant windows != [] ==>
        windows[0].trainStart == start && trainStart == windows[|windows| - 1].trainStart + test
      decreases end - trainStart
    {
      windows := windows + [WindowAt(trainStart, train, validation, test)];
      trainStart := trainStart + test;
    }
    return Some(windows);
  }

  /** The windows have the given shape, tile their TEST span from the first one that fits, all
      end by `end`, and no further one would. */
  ghost predicate IsWalkForward(ws: seq<Window>, start: int, end: int, train: int, validation: int, test: int) {
    && (forall i :: 0 <= i < |ws| ==> HasShape(ws[i], train, validation, test))
    && (forall i :: 0 <= i < |ws| ==> ws[i].testEnd <= end)
    && Tiles(ws)
    && (ws != [] ==> ws[0].trainStart == start)
    && (if ws == [] then start + train + validation + test else ws[|ws| - 1].testEnd + test) > end
  }

  lemma {:induction false} TileEnds(ws: seq<Window>, start: int, end: int, train: int, validation: int, test: int,
                                    i: nat)
    requires IsWalkForward(ws, start, end, train, validation, test) && i < |ws|
    ensures ws[i].testEnd == start + train + validation + (i + 1) * test
  {
    if i > 0 {
      TileEnds(ws, start, end, train, validation, test, i - 1);
      assert ws[i - 1].testEnd == ws[i - 1 + 1].testStart;
      assert (i + 1) * test == i * test + test;
    }
  }

  lemma MulMonotone(a: int, b: int, c: int)
    requires c > 0
    ensures a <= b ==> a * c <= b * c
  {
  }

  lemma CountOfMultiples(n: int, length: int, step: int)
    requires step > 0 && n * step <= length < n * step + step
    ensures n == length / step
  {
    var q := length / step;
    assert q * step <= length < q * step + step;
    MulMonotone(n + 1, q, step);
    MulMonotone(q + 1, n, step);
    assert (n + 1) * step == n * step + step && (q + 1) * step == q * step + step;
  }

  /** The number of windows is the number of whole test periods after the first train and
      validation period, and the tests end at their multiples. */
  lemma WindowCount(ws: seq<Window>, start: int, end: int, train: int, validation: int, test: int)
    requires train > 0 && validation > 0 && test > 0
    requires IsWalkForward(ws, start, end, train, validation, test)
    ensures
      var room := end - start - train - validation;
      |ws| == if room < 0 then 0 else room / test
    ensures forall i :: 0 <= i < |ws| ==> ws[i].testEnd == start + train + validation + (i + 1) * test
  {
    var room := end - start - train - validation;
    forall i | 0 <= i < |ws| ensures ws[i].testEnd == start + train + validation + (i + 1) * test {
      TileEnds(ws, start, end, train, validation, test, i);
    }
    assert |ws| * test <= room || ws == [];
    if room >= 0 {
      CountOfMultiples(|ws|, room, test);
    } else {
      MulMonotone(0, |ws|, test);
    }
  }

  function TestSettlements(ws: seq<Window>, hours: seq<int>): seq<int> {
    if ws == [] then []
    else
      var front, w := ws[..|ws| - 1], ws[|ws| - 1];
      TestSettlements(front, hours) + FundingTimestamps(w.testStart, w.testEnd, hours)
  }

  lemma {:induction false} TestSpanGrows(ws: seq<Window>)
    requires ws != [] && Tiles(ws) && forall i :: 0 <= i < |ws| ==> ws[i].testStart <= ws[i].testEnd
    ensures ws[0].testStart <= ws[|ws| - 1].testStart
  {
    if |ws| > 1 {
      TestSpanGrows(ws[..|ws| - 1]);
      assert ws[|ws| - 2].testEnd == ws[|ws| - 2 + 1].testStart;
    }
  }

  /** Per-window settlements, put together, are the settlements of the whole TEST span: the
      windows cover it without gap or overlap, so the counts add up too. */
  lemma {:induction false} WindowsConserveSettlements(ws: seq<Window>, hours: seq<int>)
    requires AllWithinReach(hours) && ws != [] && Tiles(ws)
    requires forall i :: 0 <= i < |ws| ==> ws[i].testStart <= ws[i].testEnd
    ensures TestSettlements(ws, hours) == FundingTimestamps(ws[0].testStart, ws[|ws| - 1].testEnd, hours)
  {
    var front, last := ws[..|ws| - 1], ws[|ws| - 1];
    if front == [] {
      var settled := FundingTimestamps(last.testStart, last.testEnd, hours);
      assert [] + settled == settled;
    } else {
      WindowsConserveSettlements(front, hours);
      assert ws[|ws| - 2].testEnd == ws[|ws| - 2 + 1].testStart;
      TestSpanGrows(ws);
      SettlementsSplit(ws[0].testStart, last.testStart, last.testEnd, hours);
    }
  }
}
