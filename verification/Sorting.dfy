/** The stable sort behind `sorted` and `sort_values(kind="mergesort")`: sorting by any order
    in which elements may tie. */
module Sorting {
  import opened Common

  /** Any two elements compare, and the comparison is transitive. */
  ghost predicate TotalPreorder<T(!new)>(le: (T, T) -> bool) {
    && (forall a, b :: le(a, b) || le(b, a))
    && (forall a, b, c :: le(a, b) && le(b, c) ==> le(a, c))
  }

  ghost predicate Ordered<T>(xs: seq<T>, le: (T, T) -> bool) {
    forall i, j :: 0 <= i < j < |xs| ==> le(xs[i], xs[j])
  }

  /** Insert before every element that may stand behind x. */
  function Insert<T>(x: T, xs: seq<T>, le: (T, T) -> bool): seq<T> {
    if xs == [] || le(x, xs[0]) then [x] + xs else [xs[0]] + Insert(x, xs[1..], le)
  }

  function Sorted<T>(xs: seq<T>, le: (T, T) -> bool): seq<T> {
    if xs == [] then [] else Insert(xs[0], Sorted(xs[1..], le), le)
  }

  predicate IntAtMost(a: int, b: int) {
    a <= b
  }

  // ------------------------------------------------- the same elements

  lemma HeadAndTail<T>(xs: seq<T>)
    requires xs != []
    ensures xs == [xs[0]] + xs[1..] && multiset(xs) == multiset{xs[0]} + multiset(xs[1..])
  {
    assert xs == [xs[0]] + xs[1..];
  }

  lemma {:induction false} InsertKeepsAll<T>(x: T, xs: seq<T>, le: (T, T) -> bool)
    ensures multiset(Insert(x, xs, le)) == multiset(xs) + multiset{x}
  {
    if xs != [] && !le(x, xs[0]) {
      HeadAndTail(xs);
      InsertKeepsAll(x, xs[1..], le);
    }
  }

  /** Sorting is a permutation. */
  lemma {:induction false} SortedKeepsAll<T>(xs: seq<T>, le: (T, T) -> bool)
    ensures multiset(Sorted(xs, le)) == multiset(xs)
  {
    if xs != [] {
      HeadAndTail(xs);
      SortedKeepsAll(xs[1..], le);
      InsertKeepsAll(xs[0], Sorted(xs[1..], le), le);
    }
  }

  lemma InSorted<T>(xs: seq<T>, le: (T, T) -> bool)
    ensures forall x :: x in Sorted(xs, le) <==> x in xs
  {
    SortedKeepsAll(xs, le);
    forall x ensures x in Sorted(xs, le) <==> x in xs {
      assert x in multiset(Sorted(xs, le)) <==> x in multiset(xs);
    }
  }

  ghost predicate NoDuplicates<T>(xs: seq<T>) {
    forall i, j :: 0 <= i < j < |xs| ==> xs[i] != xs[j]
  }

  /** Having no duplicates is a property of the bag. */
  lemma {:induction false} NoDuplicatesInBag<T>(xs: seq<T>)
    ensures NoDuplicates(xs) <==> forall x :: multiset(xs)[x] <= 1
  {
    if xs != [] {
      HeadAndTail(xs);
      NoDuplicatesInBag(xs[1..]);
      var x, rest := xs[0], xs[1..];
      assert NoDuplicates(xs) <==> NoDuplicates(rest) && x !in rest by {
        if NoDuplicates(xs) {
          forall i | 0 <= i < |rest| ensures rest[i] != x { assert rest[i] == xs[i + 1]; }
        }
      }
      assert multiset(xs)[x] == 1 + multiset(rest)[x];
      assert x in rest <==> multiset(rest)[x] > 0;
      assert forall y :: y != x ==> multiset(xs)[y] == multiset(rest)[y];
    }
  }

  lemma SortedKeepsDistinct<T>(xs: seq<T>, le: (T, T) -> bool)
    requires NoDuplicates(xs)
    ensures NoDuplicates(Sorted(xs, le))
  {
    SortedKeepsAll(xs, le);
    NoDuplicatesInBag(xs);
    NoDuplicatesInBag(Sorted(xs, le));
  }

  // ------------------------------------------------------------ in order

  lemma OrderedCons<T>(x: T, xs: seq<T>, le: (T, T) -> bool)
    requires Ordered(xs, le) && forall y :: y in xs ==> le(x, y)
    ensures Ordered([x] + xs, le)
  {
  }

  lemma OrderedTail<T>(xs: seq<T>, le: (T, T) -> bool)
    requires xs != [] && Ordered(xs, le)
    ensures Ordered(xs[1..], le) && forall y :: y in xs[1..] ==> le(xs[0], y)
  {
  }

  lemma {:induction false} InsertOrders<T(!new)>(x: T, xs: seq<T>, le: (T, T) -> bool)
    requires TotalPreorder(le) && Ordered(xs, le)
    ensures Ordered(Insert(x, xs, le), le)
  {
    if xs == [] {
    } else {
      HeadAndTail(xs);
      OrderedTail(xs, le);
      if le(x, xs[0]) {
        OrderedCons(x, xs, le);
      } else {
        var rest := Insert(x, xs[1..], le);
        InsertOrders(x, xs[1..], le);
        InsertKeepsAll(x, xs[1..], le);
        forall y | y in rest ensures le(xs[0], y) {
          assert y in multiset(rest);
        }
        OrderedCons(xs[0], rest, le);
      }
    }
  }

  lemma {:induction false} SortedOrders<T(!new)>(xs: seq<T>, le: (T, T) -> bool)
    requires TotalPreorder(le)
    ensures Ordered(Sorted(xs, le), le)
  {
    if xs != [] {
      SortedOrders(xs[1..], le);
      InsertOrders(xs[0], Sorted(xs[1..], le), le);
    }
  }

  /** What is in order already is left alone. */
  lemma {:induction false} SortedOfOrdered<T>(xs: seq<T>, le: (T, T) -> bool)
    requires Ordered(xs, le)
    ensures Sorted(xs, le) == xs
  {
    if xs != [] {
      HeadAndTail(xs);
      OrderedTail(xs, le);
      SortedOfOrdered(xs[1..], le);
    }
  }

  // -------------------------------------------------------------- stable

  lemma {:induction false} FilterCons<T>(x: T, xs: seq<T>, p: T -> bool)
    ensures Filter([x] + xs, p) == (if p(x) then [x] else []) + Filter(xs, p)
  {
    FilterConcat([x], xs, p);
    assert [x][..0] == [];
    assert Filter([x], p) == if p(x) then [x] else [];
  }

  lemma {:induction false} InsertIsStable<T>(x: T, xs: seq<T>, le: (T, T) -> bool, tied: T -> bool)
    requires forall y :: y in xs && tied(x) && tied(y) ==> le(x, y)
    ensures Filter(Insert(x, xs, le), tied) == Filter([x] + xs, tied)
  {
    if xs != [] && !le(x, xs[0]) {
      HeadAndTail(xs);
      var rest := xs[1..];
      InsertIsStable(x, rest, le, tied);
      FilterCons(xs[0], Insert(x, rest, le), tied);
      FilterCons(x, rest, tied);
      FilterCons(x, xs, tied);
      FilterCons(xs[0], rest, tied);
    }
  }

  /** Elements that tie keep their order. */
  lemma {:induction false} SortedIsStable<T(!new)>(xs: seq<T>, le: (T, T) -> bool, tied: T -> bool)
    requires forall a, b :: tied(a) && tied(b) ==> le(a, b)
    ensures Filter(Sorted(xs, le), tied) == Filter(xs, tied)
  {
    if xs != [] {
      HeadAndTail(xs);
      var rest := Sorted(xs[1..], le);
      SortedIsStable(xs[1..], le, tied);
      InsertIsStable(xs[0], rest, le, tied);
      FilterCons(xs[0], rest, tied);
      FilterCons(xs[0], xs[1..], tied);
    }
  }

  // ---------------------------------------------------------- uniqueness

  lemma SameFirst<T>(xs: seq<T>, ys: seq<T>, le: (T, T) -> bool)
    requires Ordered(xs, le) && Ordered(ys, le) && multiset(xs) == multiset(ys) && xs != [] && ys != []
    requires forall a, b :: a in xs && b in xs && le(a, b) && le(b, a) ==> a == b
    ensures xs[0] == ys[0]
  {
    assert xs[0] in multiset(ys) && ys[0] in multiset(xs);
    var i :| 0 <= i < |ys| && ys[i] == xs[0];
    var j :| 0 <= j < |xs| && xs[j] == ys[0];
    assert i > 0 ==> le(ys[0], ys[i]);
    assert j > 0 ==> le(xs[0], xs[j]);
  }

  lemma EmptyBag<T>(xs: seq<T>, ys: seq<T>)
    requires multiset(xs) == multiset(ys)
    ensures xs == [] <==> ys == []
  {
    assert |multiset(xs)| == |xs| && |multiset(ys)| == |ys|;
  }

  /** An ordered arrangement of a bag is unique when ties are equal. */
  lemma {:induction false} OrderedUnique<T>(xs: seq<T>, ys: seq<T>, le: (T, T) -> bool)
    requires Ordered(xs, le) && Ordered(ys, le) && multiset(xs) == multiset(ys)
    requires forall a, b :: a in xs && b in xs && le(a, b) && le(b, a) ==> a == b
    ensures xs == ys
  {
    EmptyBag(xs, ys);
    if xs != [] {
      SameFirst(xs, ys, le);
      HeadAndTail(xs);
      HeadAndTail(ys);
      OrderedTail(xs, le);
      OrderedTail(ys, le);
      assert multiset(xs[1..]) == multiset(xs) - multiset{xs[0]} == multiset(ys[1..]);
      OrderedUnique(xs[1..], ys[1..], le);
    }
  }
}
