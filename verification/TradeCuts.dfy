/** Which trade files are accepted under some way of cutting them into chunks, and which under
    every way, the unit of each chunk included (src/data/binance_trade_archive.py). */
module TradeCuts {
  import opened Common
  import opened TradeArchive

  // ------------------------------------------------------- under some cut

  /** Row r is among those remembered when a chunk starts at b. */
  ghost predicate Remembered(file: seq<Row>, b: nat, r: Row, window: nat)
    requires b <= |file|
  {
    r in Tail(KeepFirst(file[..b]), window)
  }

  ghost predicate Before(file: seq<Row>, b: nat, r: Row)
    requires b <= |file|
  {
    r in file[..b]
  }

  /** A chunk may start at b: whatever repeats a row from before b repeats a row that is
      remembered at b. */
  ghost predicate CanCut(file: seq<Row>, b: nat, window: nat)
    requires b <= |file|
  {
    forall n :: b <= n < |file| && Before(file, b, file[n]) ==> Remembered(file, b, file[n], window)
  }

  /** A chunk may start between rows i and j, at a place where row i is forgotten. */
  ghost predicate Parted(file: seq<Row>, i: nat, j: nat, window: nat)
    requires i < j < |file|
  {
    exists b :: i < b <= j && CanCut(file, b, window) && !Remembered(file, b, file[i], window)
  }

  /** Rows that reuse an id with other contents can be kept out of each other's sight. */
  ghost predicate ConflictsParted(file: seq<Row>, window: nat) {
    forall i, j :: 0 <= i < j < |file| && file[i].tradeId == file[j].tradeId && file[i] != file[j] ==>
      Parted(file, i, j, window)
  }

  ghost predicate SomeCutAccepted(file: seq<Row>, window: nat) {
    exists chunks :: Flatten(chunks) == file && TakeChunks(chunks, window).Some?
  }

  lemma CanCutStays(before: seq<Row>, chunk: seq<Row>, b: nat, window: nat)
    requires b <= |before| && CanCut(before, b, window)
    requires InSight(before, chunk, window) && Ascending(KeepFirst(before + chunk))
    ensures CanCut(before + chunk, b, window)
  {
    var all := before + chunk;
    assert all[..b] == before[..b];
    assert before == before[..b] + before[b..];
    AscendingPrefix(before, chunk);
    forall n | b <= n < |all| && Before(all, b, all[n]) ensures Remembered(all, b, all[n], window) {
      if n < |before| {
        assert all[n] == before[n] && Before(before, b, before[n]);
      } else {
        assert all[n] in chunk && all[n] in before;
        RememberedEarlier(before[..b], before[b..], all[n], window);
      }
    }
  }

  lemma CanCutAtChunk(before: seq<Row>, chunk: seq<Row>, window: nat)
    requires InSight(before, chunk, window)
    ensures CanCut(before + chunk, |before|, window)
  {
    var all := before + chunk;
    assert all[..|before|] == before;
    forall n | |before| <= n < |all| && Before(all, |before|, all[n])
      ensures Remembered(all, |before|, all[n], window)
    {
      assert all[n] in chunk;
    }
  }

  lemma PartedStays(before: seq<Row>, chunk: seq<Row>, i: nat, j: nat, window: nat)
    requires i < j < |before| && Parted(before, i, j, window)
    requires InSight(before, chunk, window) && Ascending(KeepFirst(before + chunk))
    ensures Parted(before + chunk, i, j, window)
  {
    var b :| i < b <= j && CanCut(before, b, window) && !Remembered(before, b, before[i], window);
    CanCutStays(before, chunk, b, window);
    assert (before + chunk)[..b] == before[..b];
  }

  lemma SeenConflict(recent: seq<Row>, chunk: seq<Row>, x: Row, y: Row)
    requires x in recent + chunk && y in chunk && x.tradeId == y.tradeId && x != y
    ensures Conflict(recent + chunk)
  {
    var all := recent + chunk;
    var i :| 0 <= i < |all| && all[i] == x;
    assert y in all;
  }

  /** A chunk that was accepted although it holds one of two conflicting rows. */
  lemma PartedByChunk(before: seq<Row>, chunk: seq<Row>, i: nat, j: nat, window: nat)
    requires InSight(before, chunk, window) && i < j < |before + chunk| && |before| <= j
    requires (before + chunk)[i].tradeId == (before + chunk)[j].tradeId && (before + chunk)[i] != (before + chunk)[j]
    ensures Parted(before + chunk, i, j, window)
  {
    var file, recent := before + chunk, Tail(KeepFirst(before), window);
    assert file[..|before|] == before;
    assert file[j] == chunk[j - |before|];
    if i >= |before| {
      assert file[i] == chunk[i - |before|];
      SeenConflict(recent, chunk, file[i], file[j]);
    } else {
      if file[i] in recent {
        SeenConflict(recent, chunk, file[i], file[j]);
      }
      CanCutAtChunk(before, chunk, window);
      assert !Remembered(file, |before|, file[i], window);
    }
  }

  /** An accepted cut keeps conflicting rows apart. */
  lemma {:induction false} AcceptedCutParts(chunks: seq<seq<Row>>, i: nat, j: nat, window: nat)
    requires AllInSight(chunks, window) && Ascending(KeepFirst(Flatten(chunks)))
    requires i < j < |Flatten(chunks)|
    requires Flatten(chunks)[i].tradeId == Flatten(chunks)[j].tradeId && Flatten(chunks)[i] != Flatten(chunks)[j]
    ensures Parted(Flatten(chunks), i, j, window)
  {
    var front, chunk := chunks[..|chunks| - 1], chunks[|chunks| - 1];
    var before := Flatten(front);
    AscendingPrefix(before, chunk);
    if j < |before| {
      AcceptedCutParts(front, i, j, window);
      PartedStays(before, chunk, i, j, window);
    } else {
      PartedByChunk(before, chunk, i, j, window);
    }
  }

  /** No chunk may start strictly between b and e. */
  ghost predicate NoCutBetween(file: seq<Row>, b: nat, e: nat, window: nat)
    requires e <= |file|
  {
    forall c :: b < c < e ==> !CanCut(file, c, window)
  }

  lemma CanCutAtStart(file: seq<Row>, b: nat, window: nat)
    requires b == 0
    ensures CanCut(file, b, window)
  {
    forall r ensures !Before(file, b, r) {
    }
  }

  lemma {:induction false} LastTrue(p: nat -> bool, e: nat, k: nat) returns (b: nat)
    requires k < e && p(0) && forall c :: k < c < e ==> !p(c)
    ensures b < e && p(b) && forall c :: b < c < e ==> !p(c)
    decreases k
  {
    b := k;
    if !p(k) {
      b := LastTrue(p, e, k - 1);
    }
  }

  /** The last place before e where a chunk may start. */
  lemma LastCut(file: seq<Row>, e: nat, window: nat) returns (b: nat)
    requires 0 < e <= |file|
    ensures b < e && CanCut(file, b, window) && NoCutBetween(file, b, e, window)
  {
    var p := (c: nat) => c <= |file| && CanCut(file, c, window);
    CanCutAtStart(file, 0, window);
    b := LastTrue(p, e, e - 1);
    forall c | b < c < e ensures !CanCut(file, c, window) {
      assert !p(c);
    }
  }

  lemma IndexOf(rows: seq<Row>, r: Row) returns (i: nat)
    requires r in rows
    ensures i < |rows| && rows[i] == r
  {
    i :| 0 <= i < |rows| && rows[i] == r;
  }

  lemma Slices(file: seq<Row>, c: nat, b: nat)
    requires c <= b <= |file|
    ensures file == file[..b] + file[b..] && file[..b] == file[..c] + file[c..b]
  {
  }

  /** What is remembered at b and came before an earlier place c was remembered there too. */
  lemma RememberedAt(file: seq<Row>, c: nat, b: nat, r: Row, window: nat)
    requires c <= b <= |file| && Ascending(KeepFirst(file))
    requires Before(file, c, r) && Remembered(file, b, r, window)
    ensures Remembered(file, c, r, window)
  {
    var past, since, rest := file[..c], file[c..b], file[b..];
    Slices(file, c, b);
    AscendingPrefix(past + since, rest);
    RememberedEarlier(past, since, r, window);
  }

  /** Two conflicting rows cannot both be in sight of a chunk that has no other place to cut. */
  lemma NotBothInSight(file: seq<Row>, b: nat, e: nat, i: nat, j: nat, window: nat)
    requires b < e <= |file| && i < j < e && Ascending(KeepFirst(file)) && ConflictsParted(file, window)
    requires NoCutBetween(file, b, e, window)
    requires i < b ==> Remembered(file, b, file[i], window)
    requires file[i].tradeId == file[j].tradeId
    ensures file[i] == file[j]
  {
    if file[i] != file[j] {
      assert Parted(file, i, j, window);
      var c :| i < c <= j && CanCut(file, c, window) && !Remembered(file, c, file[i], window);
      assert c <= b;
      assert file[..c][i] == file[i];
      RememberedAt(file, c, b, file[i], window);
    }
  }

  /** A row in sight of the chunk at b..e, and a place in the file where it stands. */
  lemma PlaceInSight(file: seq<Row>, b: nat, e: nat, r: Row, window: nat) returns (i: nat)
    requires b < e <= |file| && (Remembered(file, b, r, window) || r in file[b..e])
    ensures i < e && file[i] == r && (i < b ==> Remembered(file, b, r, window))
  {
    if Remembered(file, b, r, window) {
      RecentIsOld(file[..b], window);
      i := IndexOf(file[..b], r);
    } else {
      var k := IndexOf(file[b..e], r);
      i := b + k;
    }
  }

  lemma NoConflictInSight(file: seq<Row>, b: nat, e: nat, x: Row, y: Row, window: nat)
    requires b < e <= |file| && Ascending(KeepFirst(file)) && ConflictsParted(file, window)
    requires NoCutBetween(file, b, e, window) && x.tradeId == y.tradeId
    requires Remembered(file, b, x, window) || x in file[b..e]
    requires Remembered(file, b, y, window) || y in file[b..e]
    ensures x == y
  {
    var i := PlaceInSight(file, b, e, x, window);
    var j := PlaceInSight(file, b, e, y, window);
    if i < j {
      NotBothInSight(file, b, e, i, j, window);
    } else if j < i {
      NotBothInSight(file, b, e, j, i, window);
    }
  }

  lemma RepeatsRemembered(file: seq<Row>, b: nat, e: nat, r: Row, window: nat)
    requires b < e <= |file| && CanCut(file, b, window) && r in file[b..e] && Before(file, b, r)
    ensures Remembered(file, b, r, window)
  {
    var k := IndexOf(file[b..e], r);
    assert file[b + k] == r;
  }

  lemma FinestChunkInSight(file: seq<Row>, b: nat, e: nat, window: nat)
    requires b < e <= |file| && Ascending(KeepFirst(file)) && ConflictsParted(file, window)
    requires CanCut(file, b, window) && NoCutBetween(file, b, e, window)
    ensures InSight(file[..b], file[b..e], window)
  {
    var recent, chunk := Tail(KeepFirst(file[..b]), window), file[b..e];
    if Conflict(recent + chunk) {
      var seen := recent + chunk;
      var i, j :| 0 <= i < |seen| && 0 <= j < |seen| && seen[i].tradeId == seen[j].tradeId && seen[i] != seen[j];
      assert seen[i] in recent || seen[i] in chunk;
      assert seen[j] in recent || seen[j] in chunk;
      NoConflictInSight(file, b, e, seen[i], seen[j], window);
    }
    forall r | r in chunk && r in file[..b] ensures r in recent {
      RepeatsRemembered(file, b, e, r, window);
    }
  }

  /** Cut wherever a chunk may start. */
  lemma {:induction false} FinestCut(file: seq<Row>, n: nat, window: nat) returns (chunks: seq<seq<Row>>)
    requires n <= |file| && Ascending(KeepFirst(file)) && ConflictsParted(file, window)
    ensures Flatten(chunks) == file[..n] && AllInSight(chunks, window)
  {
    if n == 0 {
      chunks := [];
    } else {
      var b := LastCut(file, n, window);
      var front := FinestCut(file, b, window);
      FinestChunkInSight(file, b, n, window);
      Slices(file, b, n);
      chunks := front + [file[b..n]];
      FlattenSnoc(front, file[b..n]);
      AllInSightSnoc(front, file[b..n], window);
    }
  }

  /** A file is accepted under some cut into chunks if and only if the deduplicated file ascends
      strictly and, for any two different rows with one id, a chunk may start between them at a
      place where the earlier one is forgotten. Every other file is refused however it is cut. */
  lemma SomeCutAcceptedIff(file: seq<Row>, window: nat)
    ensures SomeCutAccepted(file, window) <==> Ascending(KeepFirst(file)) && ConflictsParted(file, window)
  {
    if SomeCutAccepted(file, window) {
      var chunks :| Flatten(chunks) == file && TakeChunks(chunks, window).Some?;
      AcceptedIff(chunks, window);
      forall i, j | 0 <= i < j < |file| && file[i].tradeId == file[j].tradeId && file[i] != file[j]
        ensures Parted(file, i, j, window)
      {
        AcceptedCutParts(chunks, i, j, window);
      }
    } else if Ascending(KeepFirst(file)) && ConflictsParted(file, window) {
      var chunks := FinestCut(file, |file|, window);
      assert file[..|file|] == file;
      AcceptedIff(chunks, window);
    }
  }

  // ------------------------------------------- rows that differ by unit only

  /** The places where an id stands for the first time. */
  function Firsts(rows: seq<Row>): (places: seq<nat>)
    ensures forall k :: 0 <= k < |places| ==> places[k] < |rows|
  {
    if rows == [] then []
    else
      var front, r := rows[..|rows| - 1], rows[|rows| - 1];
      if HasId(front, r.tradeId) then Firsts(front) else Firsts(front) + [|front|]
  }

  ghost predicate SameIds(a: seq<Row>, b: seq<Row>) {
    |a| == |b| && forall i :: 0 <= i < |a| ==> a[i].tradeId == b[i].tradeId
  }

  lemma SameIdsPrefix(a: seq<Row>, b: seq<Row>, n: nat)
    requires SameIds(a, b) && n <= |a|
    ensures SameIds(a[..n], b[..n])
  {
  }

  lemma SameHasId(a: seq<Row>, b: seq<Row>, id: int)
    requires SameIds(a, b) && HasId(a, id)
    ensures HasId(b, id)
  {
    var i :| 0 <= i < |a| && a[i].tradeId == id;
    assert b[i].tradeId == id;
  }

  lemma {:induction false} SameFirsts(a: seq<Row>, b: seq<Row>)
    requires SameIds(a, b)
    ensures Firsts(a) == Firsts(b)
  {
    if a != [] {
      var n, id := |a| - 1, a[|a| - 1].tradeId;
      SameIdsPrefix(a, b, n);
      SameIdsPrefix(b, a, n);
      SameFirsts(a[..n], b[..n]);
      if HasId(a[..n], id) {
        SameHasId(a[..n], b[..n], id);
      } else if HasId(b[..n], id) {
        SameHasId(b[..n], a[..n], id);
      }
    }
  }

  lemma {:induction false} FirstsIncrease(rows: seq<Row>, k: nat)
    requires k + 1 < |Firsts(rows)|
    ensures Firsts(rows)[k] < Firsts(rows)[k + 1]
  {
    var front := rows[..|rows| - 1];
    if k + 1 < |Firsts(front)| {
      FirstsIncrease(front, k);
    }
  }

  /** Without conflicts a row is a repeat exactly if its id is. */
  lemma RepeatIffId(front: seq<Row>, r: Row)
    requires !Conflict(front + [r])
    ensures r in front <==> HasId(front, r.tradeId)
  {
    if HasId(front, r.tradeId) {
      var q := FindId(front, r.tradeId);
      EqualIdsEqualRows(front + [r], q, r);
    }
  }

  /** Without conflicts the kept rows are those at the first places of the ids. */
  lemma {:induction false} KeptAreFirsts(rows: seq<Row>)
    requires !Conflict(rows)
    ensures |KeepFirst(rows)| == |Firsts(rows)|
    ensures forall k :: 0 <= k < |Firsts(rows)| ==> KeepFirst(rows)[k] == rows[Firsts(rows)[k]]
  {
    if rows != [] {
      var front, r := rows[..|rows| - 1], rows[|rows| - 1];
      assert rows == front + [r];
      NoConflictWithin(front, rows);
      KeptAreFirsts(front);
      KeepFirstKeepsAll(front, r);
      RepeatIffId(front, r);
    }
  }

  lemma PlaceInTail<T>(rows: seq<T>, r: T, n: nat) returns (k: nat)
    requires r in Tail(rows, n)
    ensures |rows| - n <= k < |rows| && rows[k] == r
  {
    var tail := Tail(rows, n);
    var t :| 0 <= t < |tail| && tail[t] == r;
    k := |rows| - |tail| + t;
  }

  lemma LateIsInTail<T>(rows: seq<T>, k: nat, n: nat)
    requires |rows| - n <= k < |rows|
    ensures rows[k] in Tail(rows, n)
  {
    var tail := Tail(rows, n);
    assert tail[k - (|rows| - |tail|)] == rows[k];
  }

  /** The window remembers the same places. */
  lemma SameRemembered(a: seq<Row>, b: seq<Row>, i: nat, window: nat)
    requires SameIds(a, b) && !Conflict(a) && !Conflict(b) && i < |a|
    requires a[i] in Tail(KeepFirst(a), window)
    ensures b[i] in Tail(KeepFirst(b), window)
  {
    SameFirsts(a, b);
    KeptAreFirsts(a);
    KeptAreFirsts(b);
    var k := PlaceInTail(KeepFirst(a), a[i], window);
    EqualIdsEqualRows(b, b[i], b[Firsts(a)[k]]);
    LateIsInTail(KeepFirst(b), k, window);
  }

  lemma {:induction false} SameRepeats(a: seq<Row>, b: seq<Row>, window: nat)
    requires SameIds(a, b) && !Conflict(a) && !Conflict(b) && RepeatsAreRecent(a, window)
    ensures RepeatsAreRecent(b, window)
  {
    if a != [] {
      var n := |a| - 1;
      SameIdsPrefix(a, b, n);
      NoConflictWithin(a[..n], a);
      NoConflictWithin(b[..n], b);
      SameRepeats(a[..n], b[..n], window);
      if b[n] in b[..n] {
        var i := IndexOf(b[..n], b[n]);
        EqualIdsEqualRows(a, a[i], a[n]);
        assert a[..n][i] == a[n];
        SameRemembered(a[..n], b[..n], i, window);
      }
    }
  }

  // ----------------------------------------------- reading a cut raw file

  /** The rows that a cut of the raw file parses to. */
  function ReadAs(chunks: seq<seq<RawRow>>): seq<Row> {
    Flatten(ParseChunks(chunks))
  }

  lemma ReadSnoc(chunks: seq<seq<RawRow>>, chunk: seq<RawRow>)
    ensures ReadAs(chunks + [chunk]) == ReadAs(chunks) + ParseChunk(chunk)
    ensures ParseChunks(chunks + [chunk]) == ParseChunks(chunks) + [ParseChunk(chunk)]
  {
    assert ParseChunks(chunks + [chunk]) == ParseChunks(chunks) + [ParseChunk(chunk)];
    FlattenSnoc(ParseChunks(chunks), ParseChunk(chunk));
  }

  /** Row i of the reading is row i of the file, in the unit of the rows a..b it is read with. */
  predicate ReadWith(file: seq<RawRow>, rows: seq<Row>, i: nat, a: nat, b: nat)
    requires i < |file| == |rows| && a <= i < b <= |file|
  {
    rows[i] == ParseRow(file[i], InMicroseconds(file[a..b]))
  }

  /** The chunks in which two rows are read. */
  ghost predicate PairReadWith(file: seq<RawRow>, rows: seq<Row>, i: nat, j: nat, a: nat, b: nat, c: nat, d: nat)
    requires i <= j < |file| == |rows|
  {
    && a <= i < b <= |file| && c <= j < d <= |file| && ((a == c && b == d) || b <= c)
    && ReadWith(file, rows, i, a, b) && ReadWith(file, rows, j, c, d)
  }

  lemma ReadWithMore(file: seq<RawRow>, more: seq<RawRow>, rows: seq<Row>, moreRows: seq<Row>, i: nat, a: nat, b: nat)
    requires i < |file| == |rows| && a <= i < b <= |file| && |more| == |moreRows|
    requires ReadWith(file, rows, i, a, b)
    ensures ReadWith(file + more, rows + moreRows, i, a, b)
  {
    assert (file + more)[a..b] == file[a..b];
  }

  lemma ReadWithLast(file: seq<RawRow>, more: seq<RawRow>, rows: seq<Row>, i: nat)
    requires |file| == |rows| && |file| <= i < |file + more|
    ensures ReadWith(file + more, rows + ParseChunk(more), i, |file|, |file + more|)
  {
    assert (file + more)[|file|..|file + more|] == more;
  }

  lemma {:induction false} ChunksOf(chunks: seq<seq<RawRow>>, i: nat, j: nat)
    returns (a: nat, b: nat, c: nat, d: nat)
    requires |ReadAs(chunks)| == |Flatten(chunks)| && i <= j < |Flatten(chunks)|
    ensures PairReadWith(Flatten(chunks), ReadAs(chunks), i, j, a, b, c, d)
  {
    var front, chunk := chunks[..|chunks| - 1], chunks[|chunks| - 1];
    var file, rows := Flatten(front), ReadAs(front);
    assert chunks == front + [chunk];
    ReadSnoc(front, chunk);
    ReadLength(front);
    if j < |file| {
      a, b, c, d := ChunksOf(front, i, j);
      ReadWithMore(file, chunk, rows, ParseChunk(chunk), i, a, b);
      ReadWithMore(file, chunk, rows, ParseChunk(chunk), j, c, d);
    } else {
      c, d := |file|, |file + chunk|;
      ReadWithLast(file, chunk, rows, j);
      if i < |file| {
        var a', b', c', d' := ChunksOf(front, i, i);
        a, b := a', b';
        ReadWithMore(file, chunk, rows, ParseChunk(chunk), i, a, b);
      } else {
        a, b := c, d;
        ReadWithLast(file, chunk, rows, i);
      }
    }
  }

  lemma {:induction false} ReadLength(chunks: seq<seq<RawRow>>)
    ensures |ReadAs(chunks)| == |Flatten(chunks)|
    ensures forall i :: 0 <= i < |ReadAs(chunks)| ==> ReadAs(chunks)[i].tradeId == Flatten(chunks)[i].tradeId
  {
    if chunks != [] {
      var front, chunk := chunks[..|chunks| - 1], chunks[|chunks| - 1];
      assert chunks == front + [chunk];
      ReadLength(front);
      ReadSnoc(front, chunk);
    }
  }

  lemma SameFileSameIds(a: seq<seq<RawRow>>, b: seq<seq<RawRow>>)
    requires Flatten(a) == Flatten(b)
    ensures SameIds(ReadAs(a), ReadAs(b))
  {
    ReadLength(a);
    ReadLength(b);
  }

  // ----------------------------------------------------- five chunks decide

  /** The file cut at four places. */
  function FiveChunks(file: seq<RawRow>, a: nat, b: nat, c: nat, d: nat): (chunks: seq<seq<RawRow>>)
    requires a <= b <= c <= d <= |file|
    ensures |chunks| == 5
  {
    [file[..a]] + [file[a..b]] + [file[b..c]] + [file[c..d]] + [file[d..]]
  }

  /** Every cut into at most five chunks, empty ones allowed, reads as a file that is safe to
      cut. A file has a polynomial number of these cuts and an exponential number of cuts. */
  ghost predicate FewChunksReadSafely(file: seq<RawRow>, window: nat) {
    forall chunks :: Flatten(chunks) == file && |chunks| <= 5 ==> SafeToCut(ReadAs(chunks), window)
  }

  lemma FlattenFive<T>(v: seq<T>, w: seq<T>, x: seq<T>, y: seq<T>, z: seq<T>)
    ensures Flatten([v] + [w] + [x] + [y] + [z]) == v + w + x + y + z
  {
    FlattenOne(v);
    FlattenSnoc([v], w);
    FlattenSnoc([v] + [w], x);
    FlattenSnoc([v] + [w] + [x], y);
    FlattenSnoc([v] + [w] + [x] + [y], z);
  }

  lemma SecondOfFive<T>(v: seq<T>, w: seq<T>, x: seq<T>, y: seq<T>, z: seq<T>, k: nat)
    requires k < |w|
    ensures (v + w + x + y + z)[|v| + k] == w[k]
  {
  }

  lemma FourthOfFive<T>(v: seq<T>, w: seq<T>, x: seq<T>, y: seq<T>, z: seq<T>, k: nat)
    requires k < |y|
    ensures (v + w + x + y + z)[|v + w + x| + k] == y[k]
  {
  }

  lemma FiveChunksAreACut(file: seq<RawRow>, a: nat, b: nat, c: nat, d: nat)
    requires a <= b <= c <= d <= |file|
    ensures Flatten(FiveChunks(file, a, b, c, d)) == file
  {
    FlattenFive(file[..a], file[a..b], file[b..c], file[c..d], file[d..]);
  }

  /** The rows a..b and c..d are each read in a unit of their own. */
  lemma ReadFive(file: seq<RawRow>, a: nat, b: nat, c: nat, d: nat)
    requires a <= b <= c <= d <= |file|
    ensures |ReadAs(FiveChunks(file, a, b, c, d))| == |file|
    ensures forall i :: a <= i < b ==> ReadWith(file, ReadAs(FiveChunks(file, a, b, c, d)), i, a, b)
    ensures forall i :: c <= i < d ==> ReadWith(file, ReadAs(FiveChunks(file, a, b, c, d)), i, c, d)
  {
    var p, q, r := ParseChunk(file[..a]), ParseChunk(file[a..b]), ParseChunk(file[b..c]);
    var s, t := ParseChunk(file[c..d]), ParseChunk(file[d..]);
    assert ParseChunks(FiveChunks(file, a, b, c, d)) == [p] + [q] + [r] + [s] + [t];
    FlattenFive(p, q, r, s, t);
    forall i | a <= i < b ensures ReadWith(file, p + q + r + s + t, i, a, b) {
      SecondOfFive(p, q, r, s, t, i - a);
    }
    forall i | c <= i < d ensures ReadWith(file, p + q + r + s + t, i, c, d) {
      FourthOfFive(p, q, r, s, t, i - c);
    }
  }

  /** Whatever chunks two rows are read in, five chunks read them so. */
  lemma FiveReadPair(file: seq<RawRow>, rows: seq<Row>, i: nat, j: nat, a: nat, b: nat, c: nat, d: nat)
    returns (five: seq<seq<RawRow>>)
    requires i <= j < |file| == |rows| && PairReadWith(file, rows, i, j, a, b, c, d)
    ensures |five| == 5 && Flatten(five) == file && |ReadAs(five)| == |file|
    ensures ReadAs(five)[i] == rows[i] && ReadAs(five)[j] == rows[j]
  {
    var e, f := if b <= c then c else b, if b <= c then d else b;
    five := FiveChunks(file, a, b, e, f);
    FiveChunksAreACut(file, a, b, e, f);
    ReadFive(file, a, b, e, f);
    assert ReadWith(file, ReadAs(five), i, a, b);
    assert ReadWith(file, ReadAs(five), j, c, d);
  }

  lemma ReadOne(file: seq<RawRow>)
    ensures ReadAs([file]) == ParseChunk(file)
  {
    assert ParseChunks([file]) == [ParseChunk(file)];
    FlattenOne(ParseChunk(file));
  }

  /** The same ids, and each row of the one is a reading of the raw row. */
  lemma SafePair(file: seq<RawRow>, chunks: seq<seq<RawRow>>, i: nat, j: nat, window: nat) returns (rows: seq<Row>)
    requires FewChunksReadSafely(file, window) && Flatten(chunks) == file && i <= j < |file|
    ensures SafeToCut(rows, window) && |rows| == |file| == |ReadAs(chunks)| && SameIds(rows, ReadAs(chunks))
    ensures rows[i] == ReadAs(chunks)[i] && rows[j] == ReadAs(chunks)[j]
  {
    ReadLength(chunks);
    var a, b, c, d := ChunksOf(chunks, i, j);
    var five := FiveReadPair(file, ReadAs(chunks), i, j, a, b, c, d);
    ReadLength(five);
    rows := ReadAs(five);
  }

  lemma ReadsWithoutConflict(file: seq<RawRow>, chunks: seq<seq<RawRow>>, window: nat)
    requires FewChunksReadSafely(file, window) && Flatten(chunks) == file
    ensures !Conflict(ReadAs(chunks))
  {
    var rows := ReadAs(chunks);
    ReadLength(chunks);
    forall i, j | 0 <= i <= j < |rows| && rows[i].tradeId == rows[j].tradeId ensures rows[i] == rows[j] {
      var safe := SafePair(file, chunks, i, j, window);
      EqualIdsEqualRows(safe, safe[i], safe[j]);
    }
  }

  lemma ReadsAscending(file: seq<RawRow>, chunks: seq<seq<RawRow>>, window: nat)
    requires FewChunksReadSafely(file, window) && Flatten(chunks) == file && !Conflict(ReadAs(chunks))
    ensures Ascending(KeepFirst(ReadAs(chunks)))
  {
    var rows := ReadAs(chunks);
    var kept, places := KeepFirst(rows), Firsts(rows);
    ReadLength(chunks);
    KeptAreFirsts(rows);
    forall k | 0 <= k < |kept| - 1 ensures KeyLess(kept[k], kept[k + 1]) {
      FirstsIncrease(rows, k);
      var safe := SafePair(file, chunks, places[k], places[k + 1], window);
      SameFirsts(rows, safe);
      KeptAreFirsts(safe);
      assert KeyLess(KeepFirst(safe)[k], KeepFirst(safe)[k + 1]);
    }
  }

  /** If every cut into at most five chunks reads safely then every cut does. */
  lemma FiveChunksDecide(file: seq<RawRow>, chunks: seq<seq<RawRow>>, window: nat)
    requires FewChunksReadSafely(file, window) && Flatten(chunks) == file
    ensures SafeToCut(ReadAs(chunks), window)
  {
    ReadsWithoutConflict(file, chunks, window);
    ReadsAscending(file, chunks, window);
    FlattenOne(file);
    SameFileSameIds([file], chunks);
    SameRepeats(ReadAs([file]), ReadAs(chunks), window);
  }

  // ------------------------------------------------------ under every cut

  ghost predicate EveryCutNormalizes(file: seq<RawRow>, window: nat) {
    forall chunks :: ChunkingOf(chunks, file) ==> Normalize(chunks, window).Some?
  }

  /** Rows that are the same in the raw file are the same when each is read alone. */
  lemma SingletonsConsistent(file: seq<RawRow>)
    requires !Conflict(ParseChunk(file))
    ensures !Conflict(ReadAs(Singletons(file))) && SameIds(ReadAs(Singletons(file)), ParseChunk(file))
  {
    var whole, rows := ParseChunk(file), ReadAs(Singletons(file));
    SingletonsParse(file);
    forall i, j | 0 <= i < |rows| && 0 <= j < |rows| && rows[i].tradeId == rows[j].tradeId ensures rows[i] == rows[j] {
      EqualIdsEqualRows(whole, whole[i], whole[j]);
    }
  }

  /** The accepted cuts that have been looked at: the whole file and its single rows. */
  ghost predicate ExtremesAccepted(file: seq<RawRow>, window: nat) {
    !Conflict(ParseChunk(file)) && SafeToCut(ReadAs(Singletons(file)), window)
  }

  lemma ExtremesAreAccepted(file: seq<RawRow>, window: nat)
    requires EveryCutNormalizes(file, window) && file != []
    ensures ExtremesAccepted(file, window)
  {
    FlattenOne(file);
    assert ChunkingOf([file], file);
    assert ParseChunks([file]) == [ParseChunk(file)];
    AcceptedIff([ParseChunk(file)], window);
    OneChunkInSightIff(ParseChunk(file), window);
    SingletonsAreACut(file);
    SingletonsConsistent(file);
    var parsed := ParseChunks(Singletons(file));
    AcceptedIff(parsed, window);
    assert parsed == Singletons(ReadAs(Singletons(file))) by {
      SingletonsReadAlone(file);
    }
    SingletonsRecent(ReadAs(Singletons(file)), window);
  }

  lemma SingletonsReadAlone(file: seq<RawRow>)
    ensures ParseChunks(Singletons(file)) == Singletons(ReadAs(Singletons(file)))
  {
    SingletonsParse(file);
    forall i | 0 <= i < |file| ensures ParseChunk(Singletons(file)[i]) == [ReadAs(Singletons(file))[i]] {
      assert InMicroseconds([file[i]]) <==> LooksLikeMicroseconds(file[i]) by {
        assert LooksLikeMicroseconds(file[i]) ==> LooksLikeMicroseconds([file[i]][0]);
      }
    }
  }

  /** A repeated row that a chunk reads in another unit than before is seen as a conflict. */
  lemma OtherUnitIsSeen(before: seq<Row>, chunk: seq<Row>, alone: seq<Row>, i: nat, j: nat, window: nat)
    requires SafeToCut(alone, window) && |before + chunk| <= |alone|
    requires SameIds(before + chunk, alone[..|before + chunk|])
    requires !Conflict(before) && InSight(before, chunk, window)
    requires i < |before| <= j < |before + chunk| && (before + chunk)[i].tradeId == (before + chunk)[j].tradeId
    ensures (before + chunk)[i] == (before + chunk)[j]
  {
    var n, all := |before|, before + chunk;
    var past, rest := alone[..n], alone[n..];
    assert alone == past + rest;
    assert alone[..|all|][i] == alone[i] == past[i] && alone[..|all|][j] == alone[j] == rest[j - n];
    EqualIdsEqualRows(alone, alone[i], alone[j]);
    CutInSight(past, rest, window);
    assert past[i] in Tail(KeepFirst(past), window);
    NoConflictWithin(past, alone);
    assert SameIds(past, before) by {
      forall k | 0 <= k < n ensures past[k].tradeId == before[k].tradeId {
        assert alone[..|all|][k] == past[k] && all[k] == before[k];
      }
    }
    SameRemembered(past, before, i, window);
    if all[i] != all[j] {
      SeenConflict(Tail(KeepFirst(before), window), chunk, all[i], all[j]);
    }
  }

  lemma NextChunkConsistent(before: seq<Row>, chunk: seq<Row>, alone: seq<Row>, window: nat)
    requires SafeToCut(alone, window) && |before + chunk| <= |alone|
    requires SameIds(before + chunk, alone[..|before + chunk|])
    requires !Conflict(before) && InSight(before, chunk, window)
    ensures !Conflict(before + chunk)
  {
    var all, recent := before + chunk, Tail(KeepFirst(before), window);
    forall i, j | 0 <= i <= j < |all| && all[i].tradeId == all[j].tradeId ensures all[i] == all[j] {
      if j < |before| {
        EqualIdsEqualRows(before, before[i], before[j]);
      } else if i < |before| {
        OtherUnitIsSeen(before, chunk, alone, i, j, window);
      } else {
        EqualIdsEqualRows(recent + chunk, chunk[i - |before|], chunk[j - |before|]);
      }
    }
  }

  lemma {:induction false} CutIsConsistent(chunks: seq<seq<RawRow>>, alone: seq<Row>, window: nat)
    requires AllInSight(ParseChunks(chunks), window) && SafeToCut(alone, window)
    requires |ReadAs(chunks)| <= |alone| && SameIds(ReadAs(chunks), alone[..|ReadAs(chunks)|])
    ensures !Conflict(ReadAs(chunks))
  {
    if chunks != [] {
      var front, chunk := chunks[..|chunks| - 1], chunks[|chunks| - 1];
      assert chunks == front + [chunk];
      ReadSnoc(front, chunk);
      AllInSightSnoc(ParseChunks(front), ParseChunk(chunk), window);
      var n := |ReadAs(front)|;
      assert SameIds(ReadAs(front), alone[..n]) by {
        forall k | 0 <= k < n ensures ReadAs(front)[k].tradeId == alone[..n][k].tradeId {
          assert ReadAs(chunks)[k].tradeId == alone[..|ReadAs(chunks)|][k].tradeId;
        }
      }
      CutIsConsistent(front, alone, window);
      NextChunkConsistent(ReadAs(front), ParseChunk(chunk), alone, window);
    }
  }

  lemma WholePrefix<T>(rows: seq<T>)
    ensures rows[..|rows|] == rows
  {
  }

  lemma AcceptedCutReadsSafely(file: seq<RawRow>, chunks: seq<seq<RawRow>>, window: nat)
    requires ExtremesAccepted(file, window) && Flatten(chunks) == file && Normalize(chunks, window).Some?
    ensures SafeToCut(ReadAs(chunks), window)
  {
    var alone := ReadAs(Singletons(file));
    AcceptedIff(ParseChunks(chunks), window);
    FlattenSingletons(file);
    SameFileSameIds(Singletons(file), chunks);
    SameIdsPrefix(ReadAs(chunks), alone, |alone|);
    WholePrefix(ReadAs(chunks));
    CutIsConsistent(chunks, alone, window);
    SameRepeats(alone, ReadAs(chunks), window);
  }

  // ------------------------------------------------------- empty chunks

  function NonEmpty(chunks: seq<seq<RawRow>>): seq<seq<RawRow>> {
    Filter(chunks, (chunk: seq<RawRow>) => chunk != [])
  }

  /** Chunks without rows contribute nothing. */
  lemma {:induction false} EmptyChunksReadNothing(chunks: seq<seq<RawRow>>)
    ensures Flatten(NonEmpty(chunks)) == Flatten(chunks) && ReadAs(NonEmpty(chunks)) == ReadAs(chunks)
  {
    if chunks != [] {
      var front, chunk := chunks[..|chunks| - 1], chunks[|chunks| - 1];
      assert chunks == front + [chunk];
      EmptyChunksReadNothing(front);
      FilterSnoc(front, chunk, (c: seq<RawRow>) => c != []);
      ReadSnoc(front, chunk);
      FlattenSnoc(front, chunk);
      ReadSnoc(NonEmpty(front), chunk);
      FlattenSnoc(NonEmpty(front), chunk);
    }
  }

  lemma FewChunksAreSafe(file: seq<RawRow>, window: nat)
    requires EveryCutNormalizes(file, window) && file != []
    ensures FewChunksReadSafely(file, window)
  {
    ExtremesAreAccepted(file, window);
    forall chunks | Flatten(chunks) == file && |chunks| <= 5 ensures SafeToCut(ReadAs(chunks), window) {
      EmptyChunksReadNothing(chunks);
      assert ChunkingOf(NonEmpty(chunks), file);
      AcceptedCutReadsSafely(file, NonEmpty(chunks), window);
    }
  }

  lemma SafeCutNormalizes(file: seq<RawRow>, chunks: seq<seq<RawRow>>, window: nat)
    requires Flatten(chunks) == file && file != [] && SafeToCut(ReadAs(chunks), window)
    ensures Normalize(chunks, window).Some?
  {
    CutAccepted(ParseChunks(chunks), window);
    AcceptedOutputIsKeepFirst(ParseChunks(chunks), window);
    ReadLength(chunks);
    KeepFirstKeepsAll(ReadAs(chunks), ReadAs(chunks)[0]);
  }

  lemma NoRowsRefused(file: seq<RawRow>, window: nat)
    requires file == []
    ensures !EveryCutNormalizes(file, window)
  {
    var none: seq<seq<RawRow>> := [];
    assert ChunkingOf(none, file) && Normalize(none, window).None?;
  }

  /** The normalizer accepts a file however the reader cuts it, whatever units its times are
      in, if and only if it has rows and every reading of it in at most five chunks has no id
      on two rows, ascends strictly once deduplicated, and repeats no row that the window has
      forgotten. */
  lemma EveryCutNormalizesIff(file: seq<RawRow>, window: nat)
    ensures EveryCutNormalizes(file, window) <==> file != [] && FewChunksReadSafely(file, window)
  {
    if file == [] {
      NoRowsRefused(file, window);
    } else if EveryCutNormalizes(file, window) {
      FewChunksAreSafe(file, window);
    } else if FewChunksReadSafely(file, window) {
      var chunks :| ChunkingOf(chunks, file) && Normalize(chunks, window).None?;
      FiveChunksDecide(file, chunks, window);
      SafeCutNormalizes(file, chunks, window);
    }
  }

  /** A file of one unit has one reading. */
  lemma OneUnitNormalizesIff(file: seq<RawRow>, window: nat)
    requires OneUnit(file)
    ensures EveryCutNormalizes(file, window) <==> file != [] && SafeToCut(ParseChunk(file), window)
  {
    EveryCutNormalizesIff(file, window);
    FlattenOne(file);
    ReadOne(file);
    forall chunks | Flatten(chunks) == file ensures ReadAs(chunks) == ParseChunk(file) {
      OneUnitParses(chunks, file);
    }
  }
}
