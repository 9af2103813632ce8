/** Stitching per-window equity curves into one compounded curve
    (src/backtesting/walk_forward.py). Values are reals; a change from zero is infinite, or
    not a number when the next value is zero too, and what is compounded with an infinite
    rate is infinite or not a number from then on. */
module Equity {
  type Curve = seq<real>

  datatype Rate = Finite(rate: real) | Infinite

  /** A stitched value: a number, or infinite or undefined. */
  datatype Balance = Number(value: real) | NotANumber

  function RateOf(before: real, after: real): Rate {
    if before == 0.0 then Infinite else Finite(after / before - 1.0)
  }

  /** `pct_change().dropna()`: a change from zero to zero is dropped. */
  function Returns(s: Curve): seq<Rate> {
    if |s| <= 1 then []
    else
      var front, before, after := Returns(s[..|s| - 1]), s[|s| - 2], s[|s| - 1];
      if before == 0.0 && after == 0.0 then front else front + [RateOf(before, after)]
  }

  /** The returns of all segments, one segment after another. */
  function AllReturns(segments: seq<Curve>): seq<Rate> {
    if segments == [] then [] else AllReturns(segments[..|segments| - 1]) + Returns(segments[|segments| - 1])
  }

  /** Multiplication, passed around so that the proofs below use its laws only. */
  function Times(a: real, b: real): real {
    a * b
  }

  function Compound(times: (real, real) -> real, b: Balance, r: Rate): Balance {
    if b.Number? && r.Finite? then Number(times(b.value, 1.0 + r.rate)) else NotANumber
  }

  /** `starting * (1 + returns).cumprod()`, with the starting balance in front. */
  function Compounded(times: (real, real) -> real, start: real, rates: seq<Rate>): (r: seq<Balance>)
    ensures |r| == |rates| + 1
  {
    if rates == [] then [Number(start)]
    else
      var front := Compounded(times, start, rates[..|rates| - 1]);
      front + [Compound(times, front[|front| - 1], rates[|rates| - 1])]
  }

  /** `_stitch_equity_curves`. */
  function Stitch(segments: seq<Curve>, start: real): seq<Balance> {
    if forall k :: 0 <= k < |segments| ==> segments[k] == [] then [] else Compounded(Times, start, AllReturns(segments))
  }

  function Last<T>(s: seq<T>): T
    requires s != []
  {
    s[|s| - 1]
  }

  // --------------------------------------------- when the curve is complete

  /** Every value but the last can be divided by. */
  ghost predicate Divisible(s: Curve) {
    forall i :: 0 <= i < |s| - 1 ==> s[i] != 0.0
  }

  ghost predicate AllDivisible(segments: seq<Curve>) {
    forall k :: 0 <= k < |segments| ==> Divisible(segments[k])
  }

  ghost predicate AllFinite(rates: seq<Rate>) {
    forall i :: 0 <= i < |rates| ==> rates[i].Finite?
  }

  ghost predicate AllNumbers(curve: seq<Balance>) {
    forall i :: 0 <= i < |curve| ==> curve[i].Number?
  }

  function StepsOf(s: Curve): nat {
    if s == [] then 0 else |s| - 1
  }

  function Steps(segments: seq<Curve>): nat {
    if segments == [] then 0 else Steps(segments[..|segments| - 1]) + StepsOf(segments[|segments| - 1])
  }

  /** The steps of a segment from zero to zero. */
  function Flats(s: Curve): nat {
    if |s| <= 1 then 0
    else Flats(s[..|s| - 1]) + if s[|s| - 2] == 0.0 && s[|s| - 1] == 0.0 then 1 else 0
  }

  function AllFlats(segments: seq<Curve>): nat {
    if segments == [] then 0 else AllFlats(segments[..|segments| - 1]) + Flats(segments[|segments| - 1])
  }

  lemma {:induction false} FlatsAreDropped(s: Curve)
    ensures |Returns(s)| + Flats(s) == StepsOf(s)
  {
    if |s| > 1 {
      FlatsAreDropped(s[..|s| - 1]);
    }
  }

  lemma {:induction false} AllFlatsAreDropped(segments: seq<Curve>)
    ensures |AllReturns(segments)| + AllFlats(segments) == Steps(segments)
  {
    if segments != [] {
      AllFlatsAreDropped(segments[..|segments| - 1]);
      FlatsAreDropped(segments[|segments| - 1]);
    }
  }

  lemma AllFiniteConcat(a: seq<Rate>, b: seq<Rate>)
    ensures AllFinite(a + b) <==> AllFinite(a) && AllFinite(b)
  {
    var all := a + b;
    if AllFinite(all) {
      forall i | 0 <= i < |a| ensures a[i].Finite? {
        assert all[i] == a[i];
      }
      forall i | 0 <= i < |b| ensures b[i].Finite? {
        assert all[|a| + i] == b[i];
      }
    }
  }

  lemma DivisibleSnoc(front: Curve, x: real)
    requires front != []
    ensures Divisible(front + [x]) <==> Divisible(front) && Last(front) != 0.0
  {
    var s := front + [x];
    if Divisible(s) {
      assert s[|front| - 1] == Last(front);
      forall i | 0 <= i < |front| - 1 ensures front[i] != 0.0 {
        assert s[i] == front[i];
      }
    }
  }

  /** A segment gives a finite return for every step exactly if it can be divided through. */
  lemma {:induction false} ReturnsComplete(s: Curve)
    ensures |Returns(s)| <= StepsOf(s)
    ensures |Returns(s)| == StepsOf(s) && AllFinite(Returns(s)) <==> Divisible(s)
  {
    if |s| > 1 {
      var front, x := s[..|s| - 1], s[|s| - 1];
      assert s == front + [x];
      ReturnsComplete(front);
      DivisibleSnoc(front, x);
      AllFiniteConcat(Returns(front), [RateOf(Last(front), x)]);
      assert [RateOf(Last(front), x)][0] == RateOf(Last(front), x);
    }
  }

  lemma AllDivisibleSnoc(front: seq<Curve>, s: Curve)
    ensures AllDivisible(front + [s]) <==> AllDivisible(front) && Divisible(s)
  {
    var all := front + [s];
    if AllDivisible(all) {
      assert all[|front|] == s;
      forall k | 0 <= k < |front| ensures Divisible(front[k]) {
        assert all[k] == front[k];
      }
    }
  }

  lemma {:induction false} AllReturnsComplete(segments: seq<Curve>)
    ensures |AllReturns(segments)| <= Steps(segments)
    ensures |AllReturns(segments)| == Steps(segments) && AllFinite(AllReturns(segments)) <==> AllDivisible(segments)
  {
    if segments != [] {
      var front, s := segments[..|segments| - 1], segments[|segments| - 1];
      assert segments == front + [s];
      AllReturnsComplete(front);
      ReturnsComplete(s);
      AllDivisibleSnoc(front, s);
      AllFiniteConcat(AllReturns(front), Returns(s));
    }
  }

  /** The compounded curve has numbers only exactly if the rates are finite. */
  lemma {:induction false} NumbersIffFinite(times: (real, real) -> real, start: real, rates: seq<Rate>)
    ensures AllNumbers(Compounded(times, start, rates)) <==> AllFinite(rates)
  {
    if rates != [] {
      var front, r := rates[..|rates| - 1], rates[|rates| - 1];
      var curve, before := Compounded(times, start, rates), Compounded(times, start, front);
      assert rates == front + [r];
      NumbersIffFinite(times, start, front);
      AllFiniteConcat(front, [r]);
      assert [r][0] == r;
      assert curve[|before|] == Compound(times, Last(before), r);
      if AllNumbers(curve) {
        forall i | 0 <= i < |before| ensures before[i].Number? {
          assert curve[i] == before[i];
        }
      }
    }
  }

  // ------------------------------------------------------------- growth

  ghost predicate Lawful(times: (real, real) -> real) {
    && (forall a, b, c :: times(times(a, b), c) == times(a, times(b, c)))
    && (forall a :: times(1.0, a) == a && times(a, 1.0) == a)
  }

  /** The factor of one rate; an infinite rate has none, and is not asked for one below. */
  function FactorOf(r: Rate): real {
    if r.Finite? then 1.0 + r.rate else 0.0
  }

  /** The product of (1 + r). */
  function Growth(times: (real, real) -> real, rates: seq<Rate>): real {
    if rates == [] then 1.0 else times(Growth(times, rates[..|rates| - 1]), FactorOf(rates[|rates| - 1]))
  }

  function Product(times: (real, real) -> real, xs: seq<real>): real {
    if xs == [] then 1.0 else times(Product(times, xs[..|xs| - 1]), xs[|xs| - 1])
  }

  lemma {:induction false} CompoundedLast(times: (real, real) -> real, start: real, rates: seq<Rate>)
    requires Lawful(times) && AllFinite(rates)
    ensures Last(Compounded(times, start, rates)) == Number(times(start, Growth(times, rates)))
  {
    if rates == [] {
      assert Growth(times, rates) == 1.0 && Compounded(times, start, rates) == [Number(start)];
      assert times(start, 1.0) == start;
    } else {
      var front, r := rates[..|rates| - 1], rates[|rates| - 1];
      CompoundedLast(times, start, front);
      var before := Compounded(times, start, front);
      assert Compounded(times, start, rates) == before + [Compound(times, Last(before), r)];
      var g, f := Growth(times, front), FactorOf(r);
      assert times(times(start, g), f) == times(start, times(g, f));
    }
  }

  lemma {:induction false} GrowthConcat(times: (real, real) -> real, a: seq<Rate>, b: seq<Rate>)
    requires Lawful(times)
    ensures Growth(times, a + b) == times(Growth(times, a), Growth(times, b))
  {
    if b == [] {
      assert a + b == a;
    } else {
      var front, r := b[..|b| - 1], b[|b| - 1];
      assert a + b == (a + front) + [r];
      assert (a + b)[..|a + b| - 1] == a + front;
      GrowthConcat(times, a, front);
    }
  }

  /** Each rate leads from one value of the curve to the next. */
  ghost predicate Leads(times: (real, real) -> real, s: Curve, rates: seq<Rate>) {
    |s| == |rates| + 1 && forall i :: 0 <= i < |rates| ==> times(s[i], FactorOf(rates[i])) == s[i + 1]
  }

  lemma Chain(times: (real, real) -> real, a: real, g: real, b: real, f: real, c: real)
    requires Lawful(times) && times(a, g) == b && times(b, f) == c
    ensures times(a, times(g, f)) == c
  {
    assert times(times(a, g), f) == times(a, times(g, f));
  }

  lemma TelescopeSnoc(times: (real, real) -> real, s: Curve, rates: seq<Rate>, rate: Rate, x: real)
    requires Lawful(times) && s != [] && times(s[0], Growth(times, rates)) == Last(s)
    requires times(Last(s), FactorOf(rate)) == x
    ensures times(s[0], Growth(times, rates + [rate])) == x
  {
    assert (rates + [rate])[..|rates|] == rates;
    Chain(times, s[0], Growth(times, rates), Last(s), FactorOf(rate), x);
  }

  lemma NoRates(times: (real, real) -> real, x: real)
    requires Lawful(times)
    ensures times(x, Growth(times, [])) == x
  {
    assert times(x, 1.0) == x;
  }

  lemma LeadsBack(times: (real, real) -> real, s: Curve, rates: seq<Rate>)
    requires Leads(times, s, rates) && rates != []
    ensures Leads(times, s[..|s| - 1], rates[..|rates| - 1])
    ensures times(s[|s| - 2], FactorOf(rates[|rates| - 1])) == Last(s)
  {
  }

  /** Then, multiplied up, they lead from first to last. */
  lemma {:induction false} Telescope(times: (real, real) -> real, s: Curve, rates: seq<Rate>)
    requires Lawful(times) && Leads(times, s, rates)
    ensures times(s[0], Growth(times, rates)) == Last(s)
  {
    if rates == [] {
      NoRates(times, s[0]);
    } else {
      var front, rate := rates[..|rates| - 1], rates[|rates| - 1];
      LeadsBack(times, s, rates);
      Telescope(times, s[..|s| - 1], front);
      TelescopeSnoc(times, s[..|s| - 1], front, rate, Last(s));
      assert rates == front + [rate];
    }
  }

  /** Whatever the parts grow by, together they grow by the product. */
  lemma {:induction false} GrowthOfAll(times: (real, real) -> real, segments: seq<Curve>, fs: seq<real>)
    requires Lawful(times) && |fs| == |segments|
    requires forall k :: 0 <= k < |segments| ==> Growth(times, Returns(segments[k])) == fs[k]
    ensures Growth(times, AllReturns(segments)) == Product(times, fs)
  {
    if segments != [] {
      var n := |segments| - 1;
      GrowthOfAll(times, segments[..n], fs[..n]);
      GrowthConcat(times, AllReturns(segments[..n]), Returns(segments[n]));
    }
  }

  // -------------------------------------------------- actual multiplication

  lemma TimesIsLawful()
    ensures Lawful(Times)
  {
    forall a, b, c ensures Times(Times(a, b), c) == Times(a, Times(b, c)) {
      assert (a * b) * c == a * (b * c);
    }
  }

  lemma RateBack(before: real, after: real)
    requires before != 0.0
    ensures Times(before, FactorOf(RateOf(before, after))) == after
  {
  }

  lemma Quotient(first: real, growth: real, last: real)
    requires first != 0.0 && Times(first, growth) == last
    ensures growth == last / first
  {
  }

  lemma LeadsOn(times: (real, real) -> real, s: Curve, rates: seq<Rate>, rate: Rate, x: real)
    requires Leads(times, s, rates) && times(Last(s), FactorOf(rate)) == x
    ensures Leads(times, s + [x], rates + [rate])
  {
  }

  lemma ReturnsSnoc(front: Curve, x: real)
    requires front != [] && Last(front) != 0.0
    ensures Returns(front + [x]) == Returns(front) + [RateOf(Last(front), x)]
  {
    assert (front + [x])[..|front|] == front;
  }

  lemma {:induction false} ReturnsLead(s: Curve)
    requires s != [] && Divisible(s)
    ensures Leads(Times, s, Returns(s))
  {
    if |s| > 1 {
      var front, x := s[..|s| - 1], s[|s| - 1];
      assert s == front + [x];
      DivisibleSnoc(front, x);
      ReturnsLead(front);
      ReturnsSnoc(front, x);
      RateBack(Last(front), x);
      LeadsOn(Times, front, Returns(front), RateOf(Last(front), x), x);
    }
  }

  lemma TelescopedQuotient(s: Curve, rates: seq<Rate>)
    requires Leads(Times, s, rates) && s[0] != 0.0
    ensures Growth(Times, rates) == Last(s) / s[0]
  {
    TimesIsLawful();
    Telescope(Times, s, rates);
    Quotient(s[0], Growth(Times, rates), Last(s));
  }

  /** What one window's curve multiplies the account by: last over first, and nothing if it
      has a single value. */
  function SegmentFactor(s: Curve): real
    requires Divisible(s)
  {
    if |s| <= 1 then 1.0 else Last(s) / s[0]
  }

  /** Within one segment the returns telescope to last over first. */
  lemma FactorIsGrowth(s: Curve)
    requires Divisible(s)
    ensures Growth(Times, Returns(s)) == SegmentFactor(s)
  {
    if |s| > 1 {
      ReturnsLead(s);
      TelescopedQuotient(s, Returns(s));
    }
  }

  ghost function Factors(segments: seq<Curve>): (fs: seq<real>)
    requires AllDivisible(segments)
    ensures |fs| == |segments| && forall k :: 0 <= k < |segments| ==> fs[k] == SegmentFactor(segments[k])
  {
    seq(|segments|, k requires 0 <= k < |segments| => SegmentFactor(segments[k]))
  }

  /** The product of last over first of the segments. */
  ghost function TotalGrowth(segments: seq<Curve>): real
    requires AllDivisible(segments)
  {
    Product(Times, Factors(segments))
  }

  lemma AllReturnsGrowth(segments: seq<Curve>)
    requires AllDivisible(segments)
    ensures Growth(Times, AllReturns(segments)) == TotalGrowth(segments)
  {
    TimesIsLawful();
    forall k | 0 <= k < |segments| ensures Growth(Times, Returns(segments[k])) == Factors(segments)[k] {
      FactorIsGrowth(segments[k]);
    }
    GrowthOfAll(Times, segments, Factors(segments));
  }

  /** The stitched curve has one point for the start and one for every step of a segment other
      than from zero to zero; it has one for every step, and numbers only, if and only if no
      segment has a zero before its last value. Then it ends at the balance times the product of
      last over first of the segments. */
  lemma StitchingTelescopesIff(segments: seq<Curve>, start: real)
    requires exists k :: 0 <= k < |segments| && segments[k] != []
    ensures |Stitch(segments, start)| == 1 + Steps(segments) - AllFlats(segments)
    ensures
      var curve := Stitch(segments, start);
      |curve| == 1 + Steps(segments) && AllNumbers(curve) <==> AllDivisible(segments)
    ensures AllDivisible(segments) ==> Last(Stitch(segments, start)) == Number(start * TotalGrowth(segments))
  {
    var rates := AllReturns(segments);
    assert Stitch(segments, start) == Compounded(Times, start, rates);
    AllReturnsComplete(segments);
    AllFlatsAreDropped(segments);
    NumbersIffFinite(Times, start, rates);
    if AllDivisible(segments) {
      AllReturnsGrowth(segments);
      TimesIsLawful();
      CompoundedLast(Times, start, rates);
    }
  }

  // ------------------------------------------------------------- scaling

  function Scaled(s: Curve, c: real): (r: Curve)
    ensures |r| == |s| && forall i :: 0 <= i < |s| ==> r[i] == c * s[i]
  {
    seq(|s|, i requires 0 <= i < |s| => c * s[i])
  }

  lemma ProductIsZero(a: real, b: real)
    requires a != 0.0
    ensures a * b == 0.0 <==> b == 0.0
  {
  }

  lemma RatioOfScaled(a: real, b: real, c: real)
    requires b != 0.0 && c != 0.0 && c * b != 0.0
    ensures (c * a) / (c * b) == a / b
  {
    var q := a / b;
    assert q * b == a;
    assert q * (c * b) == c * a;
  }

  lemma RateOfScaled(before: real, after: real, c: real)
    requires c != 0.0
    ensures RateOf(c * before, c * after) == RateOf(before, after)
  {
    ProductIsZero(c, before);
    if before != 0.0 {
      RatioOfScaled(after, before, c);
    }
  }

  lemma SameReturnsSnoc(s: Curve, t: Curve)
    requires |s| == |t| > 1 && Returns(s[..|s| - 1]) == Returns(t[..|t| - 1])
    requires s[|s| - 2] == 0.0 <==> t[|t| - 2] == 0.0
    requires s[|s| - 1] == 0.0 <==> t[|t| - 1] == 0.0
    requires RateOf(s[|s| - 2], s[|s| - 1]) == RateOf(t[|t| - 2], t[|t| - 1])
    ensures Returns(s) == Returns(t)
  {
  }

  /** The two curves change alike from each value to the next. */
  ghost predicate ChangeAlike(s: Curve, t: Curve) {
    && |s| == |t|
    && (forall i :: 0 <= i < |s| ==> (s[i] == 0.0 <==> t[i] == 0.0))
    && (forall i :: 0 < i < |s| ==> RateOf(s[i - 1], s[i]) == RateOf(t[i - 1], t[i]))
  }

  lemma {:induction false} AlikeReturns(s: Curve, t: Curve)
    requires ChangeAlike(s, t)
    ensures Returns(s) == Returns(t)
  {
    if |s| > 1 {
      AlikeReturns(s[..|s| - 1], t[..|t| - 1]);
      SameReturnsSnoc(s, t);
    }
  }

  lemma ScaledAt(s: Curve, c: real, i: nat)
    requires c != 0.0 && i < |s|
    ensures s[i] == 0.0 <==> Scaled(s, c)[i] == 0.0
    ensures 0 < i ==> RateOf(s[i - 1], s[i]) == RateOf(Scaled(s, c)[i - 1], Scaled(s, c)[i])
  {
    ProductIsZero(c, s[i]);
    if 0 < i {
      RateOfScaled(s[i - 1], s[i], c);
    }
  }

  lemma ScalingKeepsReturns(s: Curve, c: real)
    requires c != 0.0
    ensures Returns(s) == Returns(Scaled(s, c))
  {
    forall i | 0 <= i < |s| ensures s[i] == 0.0 <==> Scaled(s, c)[i] == 0.0 {
      ScaledAt(s, c, i);
    }
    forall i | 0 < i < |s| ensures RateOf(s[i - 1], s[i]) == RateOf(Scaled(s, c)[i - 1], Scaled(s, c)[i]) {
      ScaledAt(s, c, i);
    }
    AlikeReturns(s, Scaled(s, c));
  }

  lemma {:induction false} ScalingKeepsAllReturns(segments: seq<Curve>, scaled: seq<Curve>, factors: seq<real>)
    requires |scaled| == |factors| == |segments|
    requires forall k :: 0 <= k < |segments| ==> factors[k] != 0.0 && scaled[k] == Scaled(segments[k], factors[k])
    ensures AllReturns(scaled) == AllReturns(segments)
  {
    if segments != [] {
      var n := |segments| - 1;
      ScalingKeepsAllReturns(segments[..n], scaled[..n], factors[..n]);
      ScalingKeepsReturns(segments[n], factors[n]);
    }
  }

  /** Each window starts from a balance of its own; what that balance is does not matter. */
  lemma StitchingIgnoresScale(segments: seq<Curve>, scaled: seq<Curve>, factors: seq<real>, start: real)
    requires |scaled| == |factors| == |segments|
    requires forall k :: 0 <= k < |segments| ==> factors[k] != 0.0 && scaled[k] == Scaled(segments[k], factors[k])
    ensures Stitch(scaled, start) == Stitch(segments, start)
  {
    ScalingKeepsAllReturns(segments, scaled, factors);
    assert forall k :: 0 <= k < |segments| ==> (scaled[k] == [] <==> segments[k] == []);
  }
}
