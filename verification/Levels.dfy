/** Price levels of an order book: how a list of levels is parsed, folded into a
    side, and validated. The Binance, Bybit and Coinbase replay modules each carry
    a copy of this code; it is modelled once. Decimals are exact reals. */
module Levels {
  import opened Common

  datatype Level = Level(price: real, size: real)

  /** A level as it arrives: something the parser rejects, or a pair of finite decimals. */
  datatype WireLevel = Garbled | Pair(price: real, size: real)

  datatype WireLevels = NotAList | LevelList(items: seq<WireLevel>)

  /** One side of a book: the resting size at each price that has any. */
  type Side = map<real, real>

  ghost predicate AllPositive(side: Side) {
    forall p :: p in side ==> side[p] > 0.0
  }

  /** The size a side shows at a price; an absent price shows zero. */
  function SizeOf(side: Side, p: real): real {
    if p in side then side[p] else 0.0
  }

  // ------------------------------------------------------------- parsing

  predicate ValidWireLevel(w: WireLevel) {
    w.Pair? && w.price > 0.0 && w.size >= 0.0
  }

  predicate WellFormed(w: WireLevels) {
    w.LevelList? && forall i :: 0 <= i < |w.items| ==> ValidWireLevel(w.items[i])
  }

  function Parsed(w: WireLevels): (ls: seq<Level>)
    requires WellFormed(w)
    ensures |ls| == |w.items|
    ensures forall i :: 0 <= i < |ls| ==> ls[i] == Level(w.items[i].price, w.items[i].size)
    ensures ValidLevels(ls)
  {
    seq(|w.items|, i requires 0 <= i < |w.items| => Level(w.items[i].price, w.items[i].size))
  }

  predicate ValidLevels(ls: seq<Level>) {
    forall i :: 0 <= i < |ls| ==> ls[i].price > 0.0 && ls[i].size >= 0.0
  }

  /** `_levels`: reject the first bad entry, otherwise keep all of them in order. */
  method ParseLevels(w: WireLevels) returns (r: Result<seq<Level>, ReplayError>)
    ensures r.Ok? <==> WellFormed(w)
    ensures r.Ok? ==> r.value == Parsed(w)
    ensures r.Err? ==> r.error == Malformed
  {
    if w.NotAList? {
      return Err(Malformed);
    }
    var result: seq<Level> := [];
    for i := 0 to |w.items|
      invariant |result| == i
      invariant forall j :: 0 <= j < i ==>
        ValidWireLevel(w.items[j]) && result[j] == Level(w.items[j].price, w.items[j].size)
    {
      if !ValidWireLevel(w.items[i]) {
        return Err(Malformed);
      }
      result := result + [Level(w.items[i].price, w.items[i].size)];
    }
    assert WellFormed(w) && result == Parsed(w);
    return Ok(result);
  }

  // ------------------------------------------------------------- folding

  function ApplyLevel(side: Side, l: Level): Side {
    if l.size == 0.0 then side - {l.price} else side[l.price := l.size]
  }

  /** What a side holds after the levels have overwritten it one after another. */
  function ApplyLevels(side: Side, ls: seq<Level>): Side {
    if ls == [] then side else ApplyLevel(ApplyLevels(side, ls[..|ls| - 1]), ls[|ls| - 1])
  }

  lemma ApplyLevelsSnoc(side: Side, ls: seq<Level>, l: Level)
    ensures ApplyLevels(side, ls + [l]) == ApplyLevel(ApplyLevels(side, ls), l)
  {
    assert (ls + [l])[..|ls|] == ls;
  }

  /** `_apply_levels`: the in-place loop over a copied dictionary. */
  method ApplyLevelsInOrder(side: Side, ls: seq<Level>) returns (next: Side)
    ensures next == ApplyLevels(side, ls)
  {
    next := side;
    for i := 0 to |ls|
      invariant next == ApplyLevels(side, ls[..i])
    {
      assert ls[..i + 1][..i] == ls[..i];
      if ls[i].size == 0.0 {
        next := next - {ls[i].price};
      } else {
        next := next[ls[i].price := ls[i].size];
      }
    }
    assert ls[..|ls|] == ls;
  }

  predicate Listed(ls: seq<Level>, p: real) {
    exists i :: 0 <= i < |ls| && ls[i].price == p
  }

  /** The size the list gives a price last. */
  function LastSize(ls: seq<Level>, p: real): (s: real)
    requires Listed(ls, p)
    ensures exists i :: 0 <= i < |ls| && ls[i] == Level(p, s) && forall j :: i < j < |ls| ==> ls[j].price != p
  {
    var l := ls[|ls| - 1];
    if l.price == p then assert ls[|ls| - 1] == Level(p, l.size); l.size
    else LastSize(ls[..|ls| - 1], p)
  }

  lemma ListedSnoc(ls: seq<Level>, p: real)
    requires ls != []
    ensures Listed(ls, p) <==> Listed(ls[..|ls| - 1], p) || ls[|ls| - 1].price == p
  {
    var front := ls[..|ls| - 1];
    if i :| 0 <= i < |front| && front[i].price == p {
      assert ls[i].price == p;
    }
    if i :| 0 <= i < |ls| && ls[i].price == p {
      assert i < |front| ==> front[i].price == p;
    }
  }

  /** A fold is the last word on every price it mentions and silent on the rest. */
  lemma {:induction false} ApplyLevelsAt(side: Side, ls: seq<Level>, p: real)
    ensures SizeOf(ApplyLevels(side, ls), p) == if Listed(ls, p) then LastSize(ls, p) else SizeOf(side, p)
  {
    if ls != [] {
      ListedSnoc(ls, p);
      ApplyLevelsAt(side, ls[..|ls| - 1], p);
    }
  }

  lemma {:induction false} ApplyLevelsPositive(side: Side, ls: seq<Level>)
    requires AllPositive(side) && ValidLevels(ls)
    ensures AllPositive(ApplyLevels(side, ls))
  {
    if ls != [] {
      ApplyLevelsPositive(side, ls[..|ls| - 1]);
    }
  }

  lemma {:induction false} ApplyLevelsConcat(side: Side, a: seq<Level>, b: seq<Level>)
    ensures ApplyLevels(side, a + b) == ApplyLevels(ApplyLevels(side, a), b)
  {
    if b == [] {
      assert a + b == a;
    } else {
      assert a + b == (a + b[..|b| - 1]) + [b[|b| - 1]];
      assert (a + b)[..|a + b| - 1] == a + b[..|b| - 1];
      ApplyLevelsConcat(side, a, b[..|b| - 1]);
    }
  }

  /** Sides with positive sizes are determined by the size they show at each price. */
  lemma SidesEqual(x: Side, y: Side)
    requires AllPositive(x) && AllPositive(y)
    requires forall p :: SizeOf(x, p) == SizeOf(y, p)
    ensures x == y
  {
    forall p ensures p in x <==> p in y {
      assert SizeOf(x, p) == SizeOf(y, p);
    }
    forall p | p in x ensures x[p] == y[p] {
      assert SizeOf(x, p) == SizeOf(y, p);
    }
  }

  /** A list that gives every price of the set the size it has in `y`. */
  lemma {:induction false} OverwriteBetween(x: Side, y: Side, prices: set<real>) returns (ls: seq<Level>)
    requires AllPositive(y) && forall p :: p in prices ==> p > 0.0
    ensures ValidLevels(ls)
    ensures forall p :: SizeOf(ApplyLevels(x, ls), p) == if p in prices then SizeOf(y, p) else SizeOf(x, p)
    decreases |prices|
  {
    if prices == {} {
      return [];
    }
    var p := SomeElement(prices);
    var front := OverwriteBetween(x, y, prices - {p});
    ls := front + [Level(p, SizeOf(y, p))];
    ApplyLevelsSnoc(x, front, Level(p, SizeOf(y, p)));
  }

  /** Whatever two sides show, some list the parser accepts leads from the one to the other. */
  lemma DeltaBetween(x: Side, y: Side) returns (w: WireLevels)
    requires AllPositive(x) && AllPositive(y) && forall p :: p in x.Keys + y.Keys ==> p > 0.0
    ensures WellFormed(w) && ApplyLevels(x, Parsed(w)) == y
  {
    var ls := OverwriteBetween(x, y, x.Keys + y.Keys);
    w := LevelList(seq(|ls|, i requires 0 <= i < |ls| => Pair(ls[i].price, ls[i].size)));
    assert Parsed(w) == ls;
    ApplyLevelsPositive(x, ls);
    SidesEqual(ApplyLevels(x, ls), y);
  }

  // ----------------------------------------------------------- snapshots

  /** The dictionary comprehension of `load_snapshot`: zero sizes are dropped before
      the map is built, so a later zero does not remove an earlier level. */
  function SnapshotSide(ls: seq<Level>): Side {
    if ls == [] then map[]
    else
      var front := SnapshotSide(ls[..|ls| - 1]);
      var l := ls[|ls| - 1];
      if l.size > 0.0 then front[l.price := l.size] else front
  }

  method BuildSnapshotSide(ls: seq<Level>) returns (side: Side)
    ensures side == SnapshotSide(ls)
  {
    side := map[];
    for i := 0 to |ls|
      invariant side == SnapshotSide(ls[..i])
    {
      assert ls[..i + 1][..i] == ls[..i];
      if ls[i].size > 0.0 {
        side := side[ls[i].price := ls[i].size];
      }
    }
    assert ls[..|ls|] == ls;
  }

  lemma {:induction false} SnapshotSidePositive(ls: seq<Level>)
    ensures AllPositive(SnapshotSide(ls))
  {
    if ls != [] {
      SnapshotSidePositive(ls[..|ls| - 1]);
    }
  }

  /** Some level lists this price with a size. */
  ghost predicate Sized(ls: seq<Level>, p: real) {
    exists i :: 0 <= i < |ls| && ls[i].price == p && ls[i].size > 0.0
  }

  lemma SizedSnoc(front: seq<Level>, l: Level, p: real)
    ensures Sized(front + [l], p) <==> Sized(front, p) || (l.price == p && l.size > 0.0)
  {
    var ls := front + [l];
    if i :| 0 <= i < |front| && front[i].price == p && front[i].size > 0.0 {
      assert ls[i] == front[i];
    }
    assert ls[|front|] == l;
    if i :| 0 <= i < |ls| && ls[i].price == p && ls[i].size > 0.0 {
      assert i < |front| ==> front[i] == ls[i];
    }
  }

  /** A snapshot side has a price exactly if some level lists it with a size, and what it
      shows there is the size of a level. */
  lemma {:induction false} SnapshotSidePrices(ls: seq<Level>, p: real)
    ensures p in SnapshotSide(ls) <==> Sized(ls, p)
    ensures p in SnapshotSide(ls) ==> Level(p, SnapshotSide(ls)[p]) in ls
  {
    if ls != [] {
      var front, l := ls[..|ls| - 1], ls[|ls| - 1];
      assert ls == front + [l];
      SnapshotSidePrices(front, p);
      SizedSnoc(front, l, p);
    }
  }

  /** A price that is given a size and then zeroed later in the same list. */
  ghost predicate ZeroedAfterSize(ls: seq<Level>) {
    exists i, j :: 0 <= i < j < |ls| && ls[i].price == ls[j].price && ls[i].size > 0.0 && ls[j].size == 0.0
                   && forall k :: j < k < |ls| ==> ls[k].price != ls[j].price
  }

  lemma {:induction false} SnapshotSideAt(ls: seq<Level>, p: real)
    requires ValidLevels(ls)
    ensures Listed(ls, p) && LastSize(ls, p) > 0.0 ==> SizeOf(SnapshotSide(ls), p) == LastSize(ls, p)
    ensures !Listed(ls, p) ==> SizeOf(SnapshotSide(ls), p) == 0.0
  {
    if ls != [] {
      ListedSnoc(ls, p);
      SnapshotSideAt(ls[..|ls| - 1], p);
    }
  }

  /** Loading a snapshot is the fold of its levels from the empty side exactly when no
      price is zeroed for good after it was given a size (a fortiori when prices are distinct). */
  lemma SnapshotIsFoldIff(ls: seq<Level>)
    requires ValidLevels(ls)
    ensures SnapshotSide(ls) == ApplyLevels(map[], ls) <==> !ZeroedAfterSize(ls)
  {
    if ZeroedAfterSize(ls) {
      ZeroedLevelSurvives(ls);
    } else {
      SnapshotSidePositive(ls);
      ApplyLevelsPositive(map[], ls);
      forall p ensures SizeOf(SnapshotSide(ls), p) == SizeOf(ApplyLevels(map[], ls), p) {
        ApplyLevelsAt(map[], ls, p);
        SnapshotSideAt(ls, p);
        if Listed(ls, p) && LastSize(ls, p) == 0.0 {
          FinalZeroIsAbsent(ls, p);
        }
      }
      SidesEqual(SnapshotSide(ls), ApplyLevels(map[], ls));
    }
  }

  lemma ZeroedLevelSurvives(ls: seq<Level>)
    requires ValidLevels(ls) && ZeroedAfterSize(ls)
    ensures SnapshotSide(ls) != ApplyLevels(map[], ls)
  {
    var i, j :| 0 <= i < j < |ls| && ls[i].price == ls[j].price && ls[i].size > 0.0 && ls[j].size == 0.0
                && forall k :: j < k < |ls| ==> ls[k].price != ls[j].price;
    var p := ls[i].price;
    SnapshotSidePrices(ls, p);
    ApplyLevelsPositive(map[], ls);
    ApplyLevelsAt(map[], ls, p);
    assert LastSize(ls, p) == 0.0;
  }

  lemma FinalZeroIsAbsent(ls: seq<Level>, p: real)
    requires ValidLevels(ls) && !ZeroedAfterSize(ls)
    requires Listed(ls, p) && LastSize(ls, p) == 0.0
    ensures p !in SnapshotSide(ls)
  {
    SnapshotSidePrices(ls, p);
    var j :| 0 <= j < |ls| && ls[j] == Level(p, 0.0) && forall k :: j < k < |ls| ==> ls[k].price != p;
    forall i | 0 <= i < |ls| && ls[i].price == p ensures ls[i].size <= 0.0 {
      assert i <= j;
    }
  }

  // ---------------------------------------------------------- validation

  /** Both sides quote something and every bid is below every ask. */
  ghost predicate Uncrossed(bids: Side, asks: Side) {
    bids != map[] && asks != map[] && forall b, a :: b in bids && a in asks ==> b < a
  }

  lemma SomeElement<T>(s: set<T>) returns (x: T)
    requires s != {}
    ensures x in s
  {
    x :| x in s;
  }

  method MaxOf(s: set<real>) returns (m: real)
    requires s != {}
    ensures m in s && forall x :: x in s ==> x <= m
  {
    ghost var witnessed := SomeElement(s);
    m :| m in s;
    var rest := s - {m};
    while rest != {}
      invariant rest <= s && m in s
      invariant forall x :: x in s && x !in rest ==> x <= m
      decreases rest
    {
      ghost var next := SomeElement(rest);
      var x :| x in rest;
      if m < x {
        m := x;
      }
      rest := rest - {x};
    }
  }

  method MinOf(s: set<real>) returns (m: real)
    requires s != {}
    ensures m in s && forall x :: x in s ==> m <= x
  {
    ghost var witnessed := SomeElement(s);
    m :| m in s;
    var rest := s - {m};
    while rest != {}
      invariant rest <= s && m in s
      invariant forall x :: x in s && x !in rest ==> m <= x
      decreases rest
    {
      ghost var next := SomeElement(rest);
      var x :| x in rest;
      if x < m {
        m := x;
      }
      rest := rest - {x};
    }
  }

  /** `_validate_book` compares only the best prices; that decides the whole book. */
  method ValidateBook(bids: Side, asks: Side) returns (valid: bool)
    ensures valid <==> Uncrossed(bids, asks)
  {
    if bids == map[] || asks == map[] {
      return false;
    }
    assert |bids.Keys| == |bids| && |asks.Keys| == |asks|;
    var bestBid := MaxOf(bids.Keys);
    var bestAsk := MinOf(asks.Keys);
    valid := bestBid < bestAsk;
  }
}
