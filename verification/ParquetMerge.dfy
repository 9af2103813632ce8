/** The locked merge of a mutable Parquet partition (src/data/atomic_parquet.py). */
module ParquetMerge {
  import opened Common
  import Sorting

  /** A row: its deduplication key, its sort key and the other columns. */
  datatype Row = Row(key: int, sortKey: int, value: string)

  // ---------------------------------------------------- drop_duplicates

  predicate HasKey(rows: seq<Row>, key: int) {
    exists i :: 0 <= i < |rows| && rows[i].key == key
  }

  /** The rows of `rows` whose key is neither known nor earlier in `rows`. */
  function Fresh(known: seq<Row>, rows: seq<Row>): seq<Row> {
    if rows == [] then []
    else
      var front, r := rows[..|rows| - 1], rows[|rows| - 1];
      if HasKey(known, r.key) || HasKey(front, r.key) then Fresh(known, front) else Fresh(known, front) + [r]
  }

  /** `drop_duplicates`, which keeps the first row of each key. */
  function Dedup(rows: seq<Row>): seq<Row> {
    Fresh([], rows)
  }

  lemma HasKeyConcat(a: seq<Row>, b: seq<Row>, key: int)
    ensures HasKey(a + b, key) <==> HasKey(a, key) || HasKey(b, key)
  {
    if i :| 0 <= i < |a + b| && (a + b)[i].key == key {
      assert if i < |a| then a[i].key == key else b[i - |a|].key == key;
    }
    if i :| 0 <= i < |a| && a[i].key == key { assert (a + b)[i].key == key; }
    if i :| 0 <= i < |b| && b[i].key == key { assert (a + b)[|a| + i].key == key; }
  }

  lemma FreshSnoc(known: seq<Row>, rows: seq<Row>, r: Row)
    ensures Fresh(known, rows + [r]) ==
      if HasKey(known, r.key) || HasKey(rows, r.key) then Fresh(known, rows) else Fresh(known, rows) + [r]
  {
    assert (rows + [r])[..|rows|] == rows;
  }

  lemma {:induction false} FreshConcat(known: seq<Row>, a: seq<Row>, b: seq<Row>)
    ensures Fresh(known, a + b) == Fresh(known, a) + Fresh(known + a, b)
  {
    if b == [] {
      assert a + b == a;
    } else {
      var front, r := b[..|b| - 1], b[|b| - 1];
      assert a + b == (a + front) + [r];
      FreshConcat(known, a, front);
      FreshSnoc(known, a + front, r);
      HasKeyConcat(a, front, r.key);
      HasKeyConcat(known, a, r.key);
    }
  }

  /** Only the keys of the known rows matter. */
  lemma {:induction false} FreshDependsOnKeys(known: seq<Row>, known': seq<Row>, rows: seq<Row>)
    requires forall k :: HasKey(known, k) <==> HasKey(known', k)
    ensures Fresh(known, rows) == Fresh(known', rows)
  {
    if rows != [] {
      FreshDependsOnKeys(known, known', rows[..|rows| - 1]);
    }
  }

  /** Every key has exactly one row: the first one that carries it. */
  lemma {:induction false} FreshKeys(known: seq<Row>, rows: seq<Row>, key: int)
    ensures HasKey(Fresh(known, rows), key) <==> HasKey(rows, key) && !HasKey(known, key)
  {
    if rows != [] {
      var front, r := rows[..|rows| - 1], rows[|rows| - 1];
      assert rows == front + [r];
      FreshKeys(known, front, key);
      HasKeyConcat(front, [r], key);
      HasKeyConcat(Fresh(known, front), [r], key);
      assert HasKey([r], key) <==> r.key == key by { assert [r][0] == r; }
    }
  }

  /** r is the first row of its key. */
  ghost predicate FirstOfKey(rows: seq<Row>, r: Row) {
    exists i :: FirstAt(rows, r, i)
  }

  predicate FirstAt(rows: seq<Row>, r: Row, i: nat) {
    i < |rows| && rows[i] == r && !HasKey(rows[..i], r.key)
  }

  lemma FirstOfKeySnoc(front: seq<Row>, last: Row, r: Row)
    ensures FirstOfKey(front + [last], r) <==> FirstOfKey(front, r) || (r == last && !HasKey(front, last.key))
  {
    var rows := front + [last];
    if FirstOfKey(rows, r) {
      var i: nat :| FirstAt(rows, r, i);
      assert if i < |front| then rows[..i] == front[..i] else rows[..i] == front;
      assert i < |front| ==> FirstAt(front, r, i);
    }
    if FirstOfKey(front, r) {
      var i: nat :| FirstAt(front, r, i);
      assert rows[..i] == front[..i];
      assert FirstAt(rows, r, i);
    }
    if r == last && !HasKey(front, last.key) {
      assert rows[..|front|] == front;
      assert FirstAt(rows, r, |front|);
    }
  }

  /** `drop_duplicates` keeps, of every key, the first row that carries it, whole. */
  lemma {:induction false} DedupKeepsFirsts(rows: seq<Row>, r: Row)
    ensures r in Dedup(rows) <==> FirstOfKey(rows, r)
  {
    if rows != [] {
      var front, last := rows[..|rows| - 1], rows[|rows| - 1];
      assert rows == front + [last];
      DedupKeepsFirsts(front, r);
      FirstOfKeySnoc(front, last, r);
      FreshSnoc([], front, last);
    }
  }

  ghost predicate DistinctKeys(rows: seq<Row>) {
    forall i, j :: 0 <= i < j < |rows| ==> rows[i].key != rows[j].key
  }

  lemma {:induction false} FreshDistinct(known: seq<Row>, rows: seq<Row>)
    ensures DistinctKeys(Fresh(known, rows))
  {
    if rows != [] {
      var front, r := rows[..|rows| - 1], rows[|rows| - 1];
      FreshDistinct(known, front);
      FreshKeys(known, front, r.key);
    }
  }

  lemma {:induction false} DedupOfDistinct(rows: seq<Row>)
    requires DistinctKeys(rows)
    ensures Dedup(rows) == rows
  {
    if rows != [] {
      var front, r := rows[..|rows| - 1], rows[|rows| - 1];
      DedupOfDistinct(front);
      assert !HasKey(front, r.key);
      assert rows == front + [r];
    }
  }

  // ------------------------------------------------------- stable sorting

  predicate BySortKey(a: Row, b: Row) {
    a.sortKey <= b.sortKey
  }

  ghost predicate InOrder(rows: seq<Row>) {
    Sorting.Ordered(rows, BySortKey)
  }

  /** `sort_values(kind="mergesort")`. */
  function StableSort(rows: seq<Row>): seq<Row> {
    Sorting.Sorted(rows, BySortKey)
  }

  function HasSortKey(k: int): Row -> bool {
    (r: Row) => r.sortKey == k
  }

  function WithSortKey(rows: seq<Row>, k: int): seq<Row> {
    Filter(rows, HasSortKey(k))
  }

  lemma WithSortKeySnoc(rows: seq<Row>, r: Row, k: int)
    ensures WithSortKey(rows + [r], k) == if r.sortKey == k then WithSortKey(rows, k) + [r] else WithSortKey(rows, k)
  {
    FilterSnoc(rows, r, HasSortKey(k));
  }

  /** The sort orders by sort key and leaves rows with equal sort keys in their order. */
  lemma SortIsStable(rows: seq<Row>, k: int)
    ensures InOrder(StableSort(rows))
    ensures WithSortKey(StableSort(rows), k) == WithSortKey(rows, k)
  {
    Sorting.SortedOrders(rows, BySortKey);
    Sorting.SortedIsStable(rows, BySortKey, HasSortKey(k));
  }

  lemma LastOfGroup(rows: seq<Row>)
    requires rows != []
    ensures var k := rows[|rows| - 1].sortKey;
      WithSortKey(rows, k) != [] && WithSortKey(rows, k)[|WithSortKey(rows, k)| - 1] == rows[|rows| - 1]
  {
    assert rows == rows[..|rows| - 1] + [rows[|rows| - 1]];
    WithSortKeySnoc(rows[..|rows| - 1], rows[|rows| - 1], rows[|rows| - 1].sortKey);
  }

  lemma LastSortKeyIsLargest(a: seq<Row>, b: seq<Row>)
    requires InOrder(b) && a != []
    requires forall k :: WithSortKey(a, k) == WithSortKey(b, k)
    ensures b != [] && a[|a| - 1].sortKey <= b[|b| - 1].sortKey
  {
    LastOfGroup(a);
    var k := a[|a| - 1].sortKey;
    assert a[|a| - 1] in WithSortKey(b, k);
    var i :| 0 <= i < |b| && b[i] == a[|a| - 1];
  }

  lemma SameLastRow(a: seq<Row>, b: seq<Row>)
    requires InOrder(a) && InOrder(b) && a != []
    requires forall k :: WithSortKey(a, k) == WithSortKey(b, k)
    ensures b != [] && a[|a| - 1] == b[|b| - 1]
  {
    LastSortKeyIsLargest(a, b);
    LastSortKeyIsLargest(b, a);
    LastOfGroup(a);
    LastOfGroup(b);
  }

  lemma SameGroupsWithoutLast(a: seq<Row>, b: seq<Row>, x: Row, k: int)
    requires WithSortKey(a + [x], k) == WithSortKey(b + [x], k)
    ensures WithSortKey(a, k) == WithSortKey(b, k)
  {
    WithSortKeySnoc(a, x, k);
    WithSortKeySnoc(b, x, k);
    var ga, gb := WithSortKey(a, k), WithSortKey(b, k);
    if x.sortKey == k {
      assert ga == (ga + [x])[..|ga|] && gb == (gb + [x])[..|gb|];
    }
  }

  /** Ordered rows are determined by their groups of equal sort key. */
  lemma {:induction false} OrderedByGroups(a: seq<Row>, b: seq<Row>)
    requires InOrder(a) && InOrder(b)
    requires forall k :: WithSortKey(a, k) == WithSortKey(b, k)
    ensures a == b
  {
    if a == [] {
      if b != [] { LastOfGroup(b); }
    } else {
      SameLastRow(a, b);
      var a', b', x := a[..|a| - 1], b[..|b| - 1], a[|a| - 1];
      assert a == a' + [x] && b == b' + [x];
      forall k ensures WithSortKey(a', k) == WithSortKey(b', k) {
        assert WithSortKey(a, k) == WithSortKey(b, k);
        SameGroupsWithoutLast(a', b', x, k);
      }
      OrderedByGroups(a', b');
    }
  }

  lemma SameGroupsSameSort(a: seq<Row>, b: seq<Row>)
    requires forall k :: WithSortKey(a, k) == WithSortKey(b, k)
    ensures StableSort(a) == StableSort(b)
  {
    SortIsStable(a, 0);
    SortIsStable(b, 0);
    forall k ensures WithSortKey(StableSort(a), k) == WithSortKey(StableSort(b), k) {
      SortIsStable(a, k);
      SortIsStable(b, k);
    }
    OrderedByGroups(StableSort(a), StableSort(b));
  }

  lemma SortKeepsRows(rows: seq<Row>, r: Row)
    ensures r in StableSort(rows) <==> r in rows
  {
    Sorting.InSorted(rows, BySortKey);
  }

  lemma SortKeepsKeys(rows: seq<Row>, key: int)
    ensures HasKey(StableSort(rows), key) <==> HasKey(rows, key)
  {
    if i :| 0 <= i < |rows| && rows[i].key == key {
      SortKeepsRows(rows, rows[i]);
      var j :| 0 <= j < |StableSort(rows)| && StableSort(rows)[j] == rows[i];
    }
    if i :| 0 <= i < |StableSort(rows)| && StableSort(rows)[i].key == key {
      SortKeepsRows(rows, StableSort(rows)[i]);
      var j :| 0 <= j < |rows| && rows[j] == StableSort(rows)[i];
    }
  }

  lemma DistinctKeysSplit(rows: seq<Row>)
    ensures DistinctKeys(rows) <==>
      Sorting.NoDuplicates(rows) && forall a, b :: a in rows && b in rows && a.key == b.key ==> a == b
  {
    if DistinctKeys(rows) {
      forall a, b | a in rows && b in rows && a.key == b.key ensures a == b {
        var i :| 0 <= i < |rows| && rows[i] == a;
        var j :| 0 <= j < |rows| && rows[j] == b;
      }
    }
  }

  lemma SortKeepsDistinctKeys(rows: seq<Row>)
    requires DistinctKeys(rows)
    ensures DistinctKeys(StableSort(rows))
  {
    DistinctKeysSplit(rows);
    Sorting.SortedKeepsDistinct(rows, BySortKey);
    Sorting.InSorted(rows, BySortKey);
    DistinctKeysSplit(StableSort(rows));
  }

  // ---------------------------------------------------------------- merging

  function Stored(file: Option<seq<Row>>): seq<Row> {
    if file.Some? then file.value else []
  }

  /** The content one merge leaves. */
  function Merge(file: Option<seq<Row>>, incoming: seq<Row>): seq<Row> {
    StableSort(Dedup(Stored(file) + incoming))
  }

  /** Sorting what is already there before adding more does not change the result. */
  lemma SortedTwice(d: seq<Row>, n: seq<Row>)
    ensures StableSort(StableSort(d) + n) == StableSort(d + n)
  {
    forall k ensures WithSortKey(StableSort(d) + n, k) == WithSortKey(d + n, k) {
      FilterConcat(StableSort(d), n, HasSortKey(k));
      FilterConcat(d, n, HasSortKey(k));
      SortIsStable(d, k);
    }
    SameGroupsSameSort(StableSort(d) + n, d + n);
  }

  lemma DedupConcat(a: seq<Row>, b: seq<Row>)
    ensures Dedup(a + b) == Dedup(a) + Fresh(a, b)
  {
    FreshConcat([], a, b);
    assert [] + a == a;
  }

  /** What the stored rows already have decides what is new, sorted or not. */
  lemma DedupOfStored(rows: seq<Row>, more: seq<Row>)
    ensures
      var s := StableSort(Dedup(rows));
      Dedup(s + more) == s + Fresh(rows, more)
  {
    var d, s := Dedup(rows), StableSort(Dedup(rows));
    FreshDistinct([], rows);
    SortKeepsDistinctKeys(d);
    DedupOfDistinct(s);
    DedupConcat(s, more);
    forall k ensures HasKey(s, k) <==> HasKey(rows, k) {
      SortKeepsKeys(d, k);
      FreshKeys([], rows, k);
    }
    FreshDependsOnKeys(s, rows, more);
  }

  lemma MergedAfterSort(rows: seq<Row>, more: seq<Row>)
    ensures StableSort(Dedup(StableSort(Dedup(rows)) + more)) == StableSort(Dedup(rows + more))
  {
    DedupOfStored(rows, more);
    DedupConcat(rows, more);
    SortedTwice(Dedup(rows), Fresh(rows, more));
  }

  lemma Associative(a: seq<Row>, b: seq<Row>, c: seq<Row>)
    ensures (a + b) + c == a + (b + c)
  {
  }

  /** Merging X1 and then X2 is merging X1 followed by X2 at once. */
  lemma MergesCompose(file: Option<seq<Row>>, x1: seq<Row>, x2: seq<Row>)
    ensures Merge(Some(Merge(file, x1)), x2) == Merge(file, x1 + x2)
  {
    MergedAfterSort(Stored(file) + x1, x2);
    Associative(Stored(file), x1, x2);
  }

  lemma {:induction false} NothingFresh(known: seq<Row>, rows: seq<Row>)
    requires forall i :: 0 <= i < |rows| ==> HasKey(known, rows[i].key)
    ensures Fresh(known, rows) == []
  {
    if rows != [] {
      NothingFresh(known, rows[..|rows| - 1]);
    }
  }

  lemma DedupOfKnown(base: seq<Row>, x: seq<Row>)
    requires forall i :: 0 <= i < |x| ==> HasKey(base, x[i].key)
    ensures Dedup(base + x) == Dedup(base)
  {
    DedupConcat(base, x);
    NothingFresh(base, x);
  }

  /** Merging the same rows again changes nothing. */
  lemma MergeIsIdempotent(file: Option<seq<Row>>, x: seq<Row>)
    ensures Merge(Some(Merge(file, x)), x) == Merge(file, x)
  {
    var base := Stored(file) + x;
    forall i | 0 <= i < |x| ensures HasKey(base, x[i].key) {
      assert base[|Stored(file)| + i] == x[i];
    }
    DedupOfKnown(base, x);
    MergedAfterSort(base, x);
  }

  /** The rows of a merge are, of every key, the first row among stored and incoming that
      carries it, with all its columns. */
  lemma MergeKeepsFirsts(file: Option<seq<Row>>, incoming: seq<Row>, r: Row)
    ensures r in Merge(file, incoming) <==> FirstOfKey(Stored(file) + incoming, r)
    ensures InOrder(Merge(file, incoming))
  {
    DedupKeepsFirsts(Stored(file) + incoming, r);
    SortKeepsRows(Dedup(Stored(file) + incoming), r);
    SortIsStable(Dedup(Stored(file) + incoming), r.sortKey);
  }

  /** Every key, stored or incoming, is in the result, once; a stored row wins over any
      incoming row with its key. */
  lemma StoredRowsWin(stored: seq<Row>, incoming: seq<Row>)
    requires DistinctKeys(stored)
    ensures DistinctKeys(Merge(Some(stored), incoming))
    ensures forall r :: r in stored ==> r in Merge(Some(stored), incoming)
    ensures forall k :: HasKey(Merge(Some(stored), incoming), k) <==> HasKey(stored, k) || HasKey(incoming, k)
  {
    var all := stored + incoming;
    DedupOfDistinct(stored);
    DedupConcat(stored, incoming);
    FreshDistinct([], all);
    SortKeepsDistinctKeys(Dedup(all));
    forall r | r in stored ensures r in Merge(Some(stored), incoming) {
      assert r in Dedup(all);
      SortKeepsRows(Dedup(all), r);
    }
    forall k ensures HasKey(Merge(Some(stored), incoming), k) <==> HasKey(stored, k) || HasKey(incoming, k) {
      SortKeepsKeys(Dedup(all), k);
      FreshKeys([], all, k);
      HasKeyConcat(stored, incoming, k);
    }
  }

  /** One partition on disk, merged by one writer that may be killed at any disk change. */
  class Partition {
    var file: Option<seq<Row>>
    var temporaries: set<nat>

    constructor ()
      ensures file == None && temporaries == {}
    {
      file, temporaries := None, {};
    }

    /** `merge_atomic_parquet` inside the lock; `crashAfter` disk changes until it is killed. */
    method MergeAtomic(incoming: seq<Row>, temporary: nat, crashAfter: nat) returns (done: bool)
      requires temporary !in temporaries
      modifies this
      ensures done <==> crashAfter > 1
      ensures file == if done then Some(Merge(old(file), incoming)) else old(file)
      ensures temporaries == if done || crashAfter == 0 then old(temporaries) else old(temporaries) + {temporary}
    {
      var merged := incoming;
      if file.Some? {
        merged := file.value + merged;
      }
      merged := StableSort(Dedup(merged));
      assert incoming == [] + incoming;
      if crashAfter == 0 { return false; }
      temporaries := temporaries + {temporary};
      if crashAfter == 1 { return false; }
      file, temporaries := Some(merged), temporaries - {temporary};
      return true;
    }
  }

  // ------------------------------------------- interleaved locked writers

  /** Where a writer process stands in `merge_atomic_parquet`. */
  datatype Writer =
    | Waiting(incoming: seq<Row>)
    | Locked(incoming: seq<Row>)
    | Merged(incoming: seq<Row>, merged: seq<Row>)       // read and merged in memory, or staged in a temporary file
    | Replaced(incoming: seq<Row>)                       // the file is replaced, the lock still held
    | Completed(incoming: seq<Row>)
    | TimedOut
    | Dead

  datatype System = System(
    file: Option<seq<Row>>, lock: Option<nat>, writers: map<nat, Writer>, completed: seq<seq<Row>>)

  datatype Action = Start(id: nat, incoming: seq<Row>) | Advance(id: nat) | GiveUp(id: nat) | Crash(id: nat)

  predicate HoldsLock(w: Writer) {
    w.Locked? || w.Merged? || w.Replaced?
  }

  /** One step of one process. The operating system drops the lock of a process that dies. */
  function Next(s: System, a: Action): System {
    match a
    case Start(id, incoming) => if id in s.writers then s else s.(writers := s.writers[id := Waiting(incoming)])
    case GiveUp(id) =>
      if id in s.writers && s.writers[id].Waiting? then s.(writers := s.writers[id := TimedOut]) else s
    case Crash(id) =>
      if id !in s.writers || s.writers[id].Completed? then s
      else s.(writers := s.writers[id := Dead], lock := if s.lock == Some(id) then None else s.lock)
    case Advance(id) =>
      if id !in s.writers then s
      else
        match s.writers[id]
        case Waiting(x) => if s.lock.Some? then s else s.(lock := Some(id), writers := s.writers[id := Locked(x)])
        case Locked(x) => s.(writers := s.writers[id := Merged(x, Merge(s.file, x))])
        case Merged(x, m) =>
          s.(file := Some(m), completed := s.completed + [x], writers := s.writers[id := Replaced(x)])
        case Replaced(x) => s.(lock := None, writers := s.writers[id := Completed(x)])
        case _ => s
  }

  function After(initial: Option<seq<Row>>, actions: seq<Action>): System {
    if actions == [] then System(initial, None, map[], [])
    else Next(After(initial, actions[..|actions| - 1]), actions[|actions| - 1])
  }

  /** The content after a list of merges, one after another. */
  function MergeAll(initial: Option<seq<Row>>, xs: seq<seq<Row>>): Option<seq<Row>> {
    if xs == [] then initial else Some(Merge(MergeAll(initial, xs[..|xs| - 1]), xs[|xs| - 1]))
  }

  ghost predicate Serial(initial: Option<seq<Row>>, s: System) {
    && (forall id :: id in s.writers && HoldsLock(s.writers[id]) <==> s.lock == Some(id))
    && (forall id :: id in s.writers && s.writers[id].Merged? ==>
          s.writers[id].merged == Merge(s.file, s.writers[id].incoming))
    && (forall id :: id in s.writers && (s.writers[id].Replaced? || s.writers[id].Completed?) ==>
          s.writers[id].incoming in s.completed)
    && s.file == MergeAll(initial, s.completed)
  }

  lemma {:induction false} EveryInterleavingIsSerial(initial: Option<seq<Row>>, actions: seq<Action>)
    ensures Serial(initial, After(initial, actions))
  {
    if actions != [] {
      EveryInterleavingIsSerial(initial, actions[..|actions| - 1]);
      StepIsSerial(initial, After(initial, actions[..|actions| - 1]), actions[|actions| - 1]);
    }
  }

  lemma StepIsSerial(initial: Option<seq<Row>>, s: System, a: Action)
    requires Serial(initial, s)
    ensures Serial(initial, Next(s, a))
  {
    match a
    case Advance(id) => AdvanceIsSerial(initial, s, id);
    case Start(id, incoming) =>
    case GiveUp(id) =>
    case Crash(id) =>
  }

  lemma AdvanceIsSerial(initial: Option<seq<Row>>, s: System, id: nat)
    requires Serial(initial, s)
    ensures Serial(initial, Next(s, Advance(id)))
  {
    if id in s.writers && s.writers[id].Merged? {
      PublishIsSerial(initial, s, id);
    }
  }

  /** The holder of the lock replaces the file: one more merge after the others. */
  lemma PublishIsSerial(initial: Option<seq<Row>>, s: System, id: nat)
    requires Serial(initial, s) && id in s.writers && s.writers[id].Merged?
    ensures Serial(initial, Next(s, Advance(id)))
  {
    var n := Next(s, Advance(id));
    assert n.completed[..|n.completed| - 1] == s.completed;
    forall other | other in n.writers && other != id ensures !HoldsLock(n.writers[other]) {
      assert n.writers[other] == s.writers[other] && s.lock == Some(id);
    }
  }

  lemma {:induction false} MergeAllIsOneMerge(initial: Option<seq<Row>>, xs: seq<seq<Row>>)
    requires xs != []
    ensures MergeAll(initial, xs) == Some(Merge(initial, Concat(xs)))
  {
    var front, last := xs[..|xs| - 1], xs[|xs| - 1];
    if front == [] {
      assert [] + last == last;
    } else {
      MergeAllIsOneMerge(initial, front);
      MergesCompose(initial, Concat(front), last);
    }
  }

  function Concat(xs: seq<seq<Row>>): seq<Row> {
    if xs == [] then [] else Concat(xs[..|xs| - 1]) + xs[|xs| - 1]
  }

  lemma {:induction false} ConcatHolds(xs: seq<seq<Row>>, x: seq<Row>, i: nat)
    requires x in xs && i < |x|
    ensures HasKey(Concat(xs), x[i].key)
  {
    var front, last := xs[..|xs| - 1], xs[|xs| - 1];
    HasKeyConcat(Concat(front), last, x[i].key);
    if x in front {
      ConcatHolds(front, x, i);
    } else {
      assert x == last;
    }
  }

  lemma Appends(initial: Option<seq<Row>>, actions: seq<Action>, a: Action)
    ensures After(initial, actions + [a]) == Next(After(initial, actions), a)
  {
    assert (actions + [a])[..|actions|] == actions;
  }

  function AndTurns(actions: seq<Action>, id: nat): seq<Action> {
    actions + [Advance(id)] + [Advance(id)] + [Advance(id)] + [Advance(id)]
  }

  lemma FourTurns(s: System, id: nat)
    requires id in s.writers && s.writers[id].Waiting? && s.lock.None?
    ensures
      var x := s.writers[id].incoming;
      Next(Next(Next(Next(s, Advance(id)), Advance(id)), Advance(id)), Advance(id)) ==
        System(Some(Merge(s.file, x)), None, s.writers[id := Completed(x)], s.completed + [x])
  {
  }

  lemma FreeWriterCompletes(initial: Option<seq<Row>>, actions: seq<Action>, id: nat)
    requires var s := After(initial, actions); id in s.writers && s.writers[id].Waiting? && s.lock.None?
    ensures
      var s := After(initial, actions);
      var x := s.writers[id].incoming;
      After(initial, AndTurns(actions, id)) ==
        System(Some(Merge(s.file, x)), None, s.writers[id := Completed(x)], s.completed + [x])
  {
    FourTurns(After(initial, actions), id);
    Appends(initial, actions, Advance(id));
    Appends(initial, actions + [Advance(id)], Advance(id));
    Appends(initial, actions + [Advance(id)] + [Advance(id)], Advance(id));
    Appends(initial, actions + [Advance(id)] + [Advance(id)] + [Advance(id)], Advance(id));
  }

  lemma HolderDies(initial: Option<seq<Row>>, s: System)
    requires Serial(initial, s) && s.lock.Some?
    ensures s.lock.value in s.writers && HoldsLock(s.writers[s.lock.value])
    ensures Next(s, Crash(s.lock.value)) == s.(writers := s.writers[s.lock.value := Dead], lock := None)
  {
  }

  /** No lock outlives its holder: after any interleaving a waiting writer gets through, at the
      latest once the process that holds the lock has died, and its rows are merged into
      whatever the file holds. */
  lemma WaitingWriterCompletes(initial: Option<seq<Row>>, actions: seq<Action>, id: nat)
    requires id in After(initial, actions).writers && After(initial, actions).writers[id].Waiting?
    ensures
      var s := After(initial, actions);
      var x := s.writers[id].incoming;
      var freed := if s.lock.Some? then actions + [Crash(s.lock.value)] else actions;
      var others := if s.lock.Some? then s.writers[s.lock.value := Dead] else s.writers;
      After(initial, AndTurns(freed, id)) ==
        System(Some(Merge(s.file, x)), None, others[id := Completed(x)], s.completed + [x])
  {
    EveryInterleavingIsSerial(initial, actions);
    var s := After(initial, actions);
    if s.lock.Some? {
      HolderDies(initial, s);
      Appends(initial, actions, Crash(s.lock.value));
      FreeWriterCompletes(initial, actions + [Crash(s.lock.value)], id);
    } else {
      FreeWriterCompletes(initial, actions, id);
    }
  }

  /** With any interleaving of locked writers and crashes, the file is the result of one merge
      of the completed updates in the order they were published; each completed update is in
      it, so none is lost. */
  lemma NoCompletedUpdateIsLost(initial: Option<seq<Row>>, actions: seq<Action>, id: nat)
    ensures
      var s := After(initial, actions);
      && (s.completed == [] ==> s.file == initial)
      && (s.completed != [] ==> s.file == Some(Merge(initial, Concat(s.completed))))
      && (s.completed != [] ==>
            forall r :: r in s.file.value <==> FirstOfKey(Stored(initial) + Concat(s.completed), r))
      && (id in s.writers && s.writers[id].Completed? ==>
            && s.file.Some?
            && forall i :: 0 <= i < |s.writers[id].incoming| ==> HasKey(s.file.value, s.writers[id].incoming[i].key))
  {
    EveryInterleavingIsSerial(initial, actions);
    var s := After(initial, actions);
    if s.completed != [] {
      MergeAllIsOneMerge(initial, s.completed);
      forall r ensures r in s.file.value <==> FirstOfKey(Stored(initial) + Concat(s.completed), r) {
        MergeKeepsFirsts(initial, Concat(s.completed), r);
      }
      if id in s.writers && s.writers[id].Completed? {
        var x := s.writers[id].incoming;
        forall i | 0 <= i < |x| ensures HasKey(s.file.value, x[i].key) {
          ConcatHolds(s.completed, x, i);
          var all := Stored(initial) + Concat(s.completed);
          HasKeyConcat(Stored(initial), Concat(s.completed), x[i].key);
          SortKeepsKeys(Dedup(all), x[i].key);
          FreshKeys([], all, x[i].key);
        }
      }
    }
  }
}
