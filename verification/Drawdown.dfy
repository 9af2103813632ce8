/** The drawdown of one simulated equity path and what counts as ruin
    (src/analytics/monte_carlo.py), over exact reals. */
module Drawdown {
  import opened Common

  /** The starting balance followed by the balance after each trade. */
  function Path(start: real, samples: seq<real>): (path: seq<real>)
    ensures |path| == |samples| + 1 && path[0] == start
    ensures forall k :: 0 <= k < |samples| ==> path[k + 1] == path[k] + samples[k]
  {
    if samples == [] then [start]
    else
      var front := Path(start, samples[..|samples| - 1]);
      front + [front[|front| - 1] + samples[|samples| - 1]]
  }

  /** The highest balance seen up to and including position j. */
  function Peak(path: seq<real>, j: nat): (m: real)
    requires j < |path|
    ensures m >= path[0]
  {
    if j == 0 then path[0]
    else
      var before := Peak(path, j - 1);
      if path[j] > before then path[j] else before
  }

  lemma {:induction false} PeakIsHighest(path: seq<real>, j: nat)
    requires j < |path|
    ensures exists i :: 0 <= i <= j && path[i] == Peak(path, j)
    ensures forall i :: 0 <= i <= j ==> path[i] <= Peak(path, j)
  {
    if j > 0 {
      PeakIsHighest(path, j - 1);
      if path[j] <= Peak(path, j - 1) {
        var i :| 0 <= i <= j - 1 && path[i] == Peak(path, j - 1);
        assert path[i] == Peak(path, j);
      } else {
        assert path[j] == Peak(path, j);
      }
    } else {
      assert path[0] == Peak(path, 0);
    }
  }

  /** The relative change from the balance m to the balance x. */
  function Change(m: real, x: real): real
    requires m != 0.0
  {
    x / m - 1.0
  }

  /** No running maximum up to position k is zero, so that every division is defined. */
  ghost predicate Defined(path: seq<real>, k: nat)
    requires k < |path|
  {
    forall j :: 0 <= j <= k ==> Peak(path, j) != 0.0
  }

  /** The relative loss at position j from the highest balance before it; negative when
      something was lost. */
  function Drop(path: seq<real>, j: nat): real
    requires j < |path| && Peak(path, j) != 0.0
  {
    Change(Peak(path, j), path[j])
  }

  /** w is the worst of the relative losses at positions 0..k. */
  ghost predicate WorstUpTo(path: seq<real>, k: nat, w: real)
    requires k < |path| && Defined(path, k)
  {
    && (exists j :: 0 <= j <= k && Drop(path, j) == w)
    && (forall j :: 0 <= j <= k ==> w <= Drop(path, j))
  }

  ghost predicate IsWorst(path: seq<real>, w: real) {
    path != [] && Defined(path, |path| - 1) && WorstUpTo(path, |path| - 1, w)
  }

  lemma WorstExtends(path: seq<real>, k: nat, w: real)
    requires k + 1 < |path| && Defined(path, k + 1) && WorstUpTo(path, k, w)
    ensures WorstUpTo(path, k + 1, if Drop(path, k + 1) < w then Drop(path, k + 1) else w)
  {
    var j :| 0 <= j <= k && Drop(path, j) == w;
    assert 0 <= j <= k + 1;
  }

  lemma DefinedExtends(path: seq<real>, k: nat)
    requires k + 1 < |path|
    ensures Defined(path, k + 1) <==> Defined(path, k) && Peak(path, k + 1) != 0.0
  {
  }

  lemma FirstDrop(path: seq<real>)
    requires path != []
    ensures Defined(path, 0) <==> path[0] != 0.0
    ensures path[0] != 0.0 ==> WorstUpTo(path, 0, Change(path[0], path[0]))
  {
    assert Peak(path, 0) == path[0];
    assert path[0] != 0.0 ==> Drop(path, 0) == Change(path[0], path[0]);
  }

  /** The three array operations of `run_monte_carlo` on one path: running maximum, relative
      drawdown, minimum. Where the running maximum is zero the path is at zero too when it
      gets there, zero over zero is not a number, and then neither is the minimum: None. */
  method WorstDrawdown(start: real, samples: seq<real>) returns (worst: Option<real>)
    ensures worst.Some? <==> Defined(Path(start, samples), |samples|)
    ensures worst.Some? ==> IsWorst(Path(start, samples), worst.value)
  {
    ghost var path := Path(start, samples);
    var balance, peak := start, start;
    FirstDrop(path);
    worst := if peak == 0.0 then None else Some(Change(peak, balance));
    for j := 0 to |samples|
      invariant balance == path[j] && peak == Peak(path, j)
      invariant worst.Some? <==> Defined(path, j)
      invariant worst.Some? ==> WorstUpTo(path, j, worst.value)
    {
      balance := balance + samples[j];
      peak := if balance > peak then balance else peak;
      DefinedExtends(path, j);
      if worst.Some? && peak != 0.0 {
        WorstExtends(path, j, worst.value);
        var drop := Change(peak, balance);
        worst := if drop < worst.value then Some(drop) else worst;
      } else {
        worst := None;
      }
    }
  }

  lemma {:induction false} PeakGrows(path: seq<real>, i: nat, j: nat)
    requires i <= j < |path|
    ensures Peak(path, i) <= Peak(path, j)
  {
    if i < j {
      PeakGrows(path, i, j - 1);
    }
  }

  /** When some running maximum is zero, some balance is zero over zero. */
  lemma ZeroOverZero(path: seq<real>, j: nat)
    requires j < |path| && Peak(path, j) == 0.0
    ensures exists i :: 0 <= i <= j && path[i] == 0.0 && Peak(path, i) == 0.0
  {
    PeakIsHighest(path, j);
    var i :| 0 <= i <= j && path[i] == 0.0;
    PeakIsHighest(path, i);
    PeakGrows(path, i, j);
  }

  lemma PositiveIsDefined(path: seq<real>, k: nat)
    requires k < |path| && path[0] > 0.0
    ensures Defined(path, k)
  {
  }

  // ------------------------------------------------------------------ ruin

  predicate FellBy(before: real, after: real, t: real) {
    after <= (1.0 - t) * before
  }

  /** The balance fell by at least the fraction t from some earlier balance. */
  ghost predicate FellFromPrior(path: seq<real>, t: real) {
    exists i, j :: 0 <= i <= j < |path| && FellBy(path[i], path[j], t)
  }

  function Abs(x: real): real { if x < 0.0 then -x else x }

  /** The path counts as ruined; a drawdown that is not a number does not. */
  ghost predicate Ruined(path: seq<real>, t: real) {
    exists worst :: IsWorst(path, worst) && worst <= -t
  }

  lemma Scale(a: real, b: real, m: real)
    requires a <= b && m >= 0.0
    ensures a * m <= b * m
  {
  }

  lemma ScaleStrictly(a: real, b: real, m: real)
    requires a < b && m > 0.0
    ensures a * m < b * m
  {
  }

  lemma QuotientAtMost(q: real, m: real, x: real, c: real)
    requires m > 0.0 && q * m == x
    ensures q <= c <==> x <= c * m
  {
    if q <= c {
      Scale(q, c, m);
    } else {
      ScaleStrictly(c, q, m);
    }
  }

  lemma ChangeAtMost(x: real, m: real, t: real)
    requires m > 0.0
    ensures Change(m, x) <= -t <==> FellBy(m, x, t)
  {
    QuotientAtMost(x / m, m, x, 1.0 - t);
  }

  lemma DropAtMost(path: seq<real>, j: nat, t: real)
    requires j < |path| && path[0] > 0.0
    ensures Drop(path, j) <= -t <==> FellBy(Peak(path, j), path[j], t)
  {
    ChangeAtMost(path[j], Peak(path, j), t);
  }

  lemma WorstIsUnique(path: seq<real>, v: real, w: real)
    requires IsWorst(path, v) && IsWorst(path, w)
    ensures v == w
  {
  }

  lemma {:induction false} WorstExists(path: seq<real>, k: nat) returns (worst: real)
    requires k < |path| && Defined(path, k)
    ensures WorstUpTo(path, k, worst)
  {
    if k == 0 {
      worst := Drop(path, 0);
    } else {
      var before := WorstExists(path, k - 1);
      WorstExtends(path, k - 1, before);
      worst := if Drop(path, k) < before then Drop(path, k) else before;
    }
  }

  lemma FellFromPeak(path: seq<real>, j: nat, t: real)
    requires j < |path| && FellBy(Peak(path, j), path[j], t)
    ensures FellFromPrior(path, t)
  {
    PeakIsHighest(path, j);
    var i :| 0 <= i <= j && path[i] == Peak(path, j);
    assert FellBy(path[i], path[j], t);
  }

  lemma RuinedAt(path: seq<real>, t: real)
    requires path != [] && path[0] > 0.0 && Ruined(path, t)
    ensures FellFromPrior(path, t)
  {
    var worst :| IsWorst(path, worst) && worst <= -t;
    var j :| 0 <= j < |path| && Drop(path, j) == worst;
    DropAtMost(path, j, t);
    FellFromPeak(path, j, t);
  }

  lemma FellByMore(before: real, higher: real, after: real, t: real)
    requires FellBy(before, after, t) && before <= higher && t <= 1.0
    ensures FellBy(higher, after, t)
  {
    Scale(before, higher, 1.0 - t);
  }

  lemma FallFromPeak(path: seq<real>, i: nat, j: nat, t: real)
    requires i <= j < |path| && path[0] > 0.0 && 0.0 <= t <= 1.0
    requires FellBy(path[i], path[j], t)
    ensures Drop(path, j) <= -t
  {
    PeakIsHighest(path, j);
    FellByMore(path[i], Peak(path, j), path[j], t);
    DropAtMost(path, j, t);
  }

  /** Comparing the worst drawdown with the threshold detects a fall from ANY earlier balance,
      even for paths below zero, when the threshold is at most the whole balance. */
  lemma RuinIsAFallFromAnyPrior(path: seq<real>, t: real)
    requires path != [] && path[0] > 0.0 && 0.0 <= t <= 1.0
    ensures Ruined(path, t) <==> FellFromPrior(path, t)
  {
    if Ruined(path, t) {
      RuinedAt(path, t);
    }
    if FellFromPrior(path, t) {
      var i, j :| 0 <= i <= j < |path| && FellBy(path[i], path[j], t);
      FallFromPeak(path, i, j, t);
      PositiveIsDefined(path, |path| - 1);
      var worst := WorstExists(path, |path| - 1);
      assert IsWorst(path, worst) && worst <= Drop(path, j);
    }
  }

  lemma DoubledThenLost(s: real, t: real)
    requires s > 0.0 && t > 1.0
    ensures Change(s, s) == 0.0 && Change(2.0 * s, 2.0 * s) == 0.0
    ensures Change(2.0 * s, (1.0 - t) * s) > -t
  {
    var x := (1.0 - t) * s;
    ChangeAtMost(x, 2.0 * s, t);
    assert (1.0 - t) * (2.0 * s) == x + x;
    ScaleStrictly(1.0 - t, 0.0, s);
  }

  /** From s to 2s and down to (1 - t)s: the fall from s reaches t > 1, the drawdown does not. */
  lemma RuinBeyondTheBalance(path: seq<real>, s: real, t: real)
    requires s > 0.0 && t > 1.0 && path == [s, 2.0 * s, (1.0 - t) * s]
    ensures FellFromPrior(path, t) && !Ruined(path, t)
  {
    DoubledThenLost(s, t);
    ScaleStrictly(1.0 - t, 0.0, s);
    assert FellBy(path[0], path[2], t);
    assert Peak(path, 0) == s && Peak(path, 1) == 2.0 * s && Peak(path, 2) == 2.0 * s;
    assert Drop(path, 0) == 0.0 && Drop(path, 1) == 0.0 && Drop(path, 2) > -t;
  }

  /** Without a positive balance to start from: falling onto zero is not a number. */
  lemma RuinWithoutBalance(path: seq<real>, s: real, t: real)
    requires s <= 0.0 && t >= 0.0 && path == [s, 0.0]
    ensures FellFromPrior(path, t) && !Ruined(path, t)
  {
    Scale(0.0, t, -s);
    assert (1.0 - t) * s == s + t * (-s);
    assert FellBy(path[0], path[0], t);
    assert Peak(path, 1) == 0.0;
  }

  ghost predicate Detects(start: real, samples: seq<real>, t: real) {
    Ruined(Path(start, samples), t) <==> FellFromPrior(Path(start, samples), t)
  }

  lemma FailingSamples(start: real, t: real) returns (samples: seq<real>)
    requires t >= 0.0 && (start <= 0.0 || t > 1.0)
    ensures samples != [] && !Detects(start, samples, t)
  {
    if start <= 0.0 {
      samples := [-start];
      assert Path(start, samples) == [start, 0.0];
      RuinWithoutBalance(Path(start, samples), start, t);
    } else {
      samples := [start, (1.0 - t) * start - 2.0 * start];
      assert Path(start, samples) == [start, 2.0 * start, (1.0 - t) * start];
      RuinBeyondTheBalance(Path(start, samples), start, t);
    }
  }

  /** The documented meaning of ruin holds on every path exactly when the account starts with
      a positive balance and the threshold is at most the whole of it. */
  lemma RuinMeansAnyPriorIff(start: real, t: real)
    requires t >= 0.0
    ensures (forall samples :: samples != [] ==> Detects(start, samples, t)) <==> start > 0.0 && t <= 1.0
  {
    if start > 0.0 && t <= 1.0 {
      forall samples ensures Detects(start, samples, t) {
        RuinIsAFallFromAnyPrior(Path(start, samples), t);
      }
    } else {
      var samples := FailingSamples(start, t);
    }
  }

  // ------------------------------------------------------ counting the paths

  /** The simulations that are ruined, by their number. */
  ghost function RuinedOnes(start: real, simulations: seq<seq<real>>, t: real): set<nat> {
    set k: nat | k < |simulations| && Ruined(Path(start, simulations[k]), t)
  }

  method IsRuined(start: real, samples: seq<real>, t: real) returns (ruined: bool)
    ensures ruined <==> Ruined(Path(start, samples), if t < 0.0 then -t else t)
  {
    var worst := WorstDrawdown(start, samples);
    ruined := worst.Some? && worst.value <= -Abs(t);
    if Ruined(Path(start, samples), Abs(t)) {
      var w :| IsWorst(Path(start, samples), w) && w <= -Abs(t);
      assert worst.Some?;
      WorstIsUnique(Path(start, samples), worst.value, w);
    }
  }

  lemma OneMorePath(start: real, simulations: seq<seq<real>>, k: nat, t: real)
    requires k < |simulations|
    ensures RuinedOnes(start, simulations[..k + 1], t) ==
      RuinedOnes(start, simulations[..k], t) + if Ruined(Path(start, simulations[k]), t) then {k} else {}
    ensures k !in RuinedOnes(start, simulations[..k], t)
  {
    forall j: nat ensures j in RuinedOnes(start, simulations[..k + 1], t) <==>
        j in RuinedOnes(start, simulations[..k], t) || (j == k && Ruined(Path(start, simulations[k]), t))
    {
      if j < k {
        assert simulations[..k + 1][j] == simulations[..k][j];
      }
    }
  }

  /** `ruin_events`: how many of the simulated paths were ruined; the sign of the threshold does
      not matter. */
  method CountRuinEvents(start: real, simulations: seq<seq<real>>, t: real) returns (events: nat)
    ensures events == |RuinedOnes(start, simulations, if t < 0.0 then -t else t)|
  {
    events := 0;
    for k := 0 to |simulations|
      invariant events == |RuinedOnes(start, simulations[..k], Abs(t))|
    {
      OneMorePath(start, simulations, k, Abs(t));
      var ruined := IsRuined(start, simulations[k], t);
      if ruined {
        events := events + 1;
      }
    }
    assert simulations[..|simulations|] == simulations;
  }
}
