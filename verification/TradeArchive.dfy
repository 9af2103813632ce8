/** Streaming normalization of a Binance trade archive: chunks of the file are parsed, rows
    replayed within a recent window are dropped, and the rest must be strictly ordered
    (src/data/binance_trade_archive.py, and the order check of
    src/data/binance_archive_quality.py). */
module TradeArchive {
  import opened Common

  /** A CSV row; `fields` stands for the columns that only have to be equal or different. */
  datatype RawRow = RawRow(time: int, tradeId: int, fields: string)

  /** A normalized row; the timestamp is in microseconds. */
  datatype Row = Row(timestamp: int, tradeId: int, fields: string)

  /** Sort key (timestamp, trade_id). */
  predicate KeyLess(a: Row, b: Row) {
    a.timestamp < b.timestamp || (a.timestamp == b.timestamp && a.tradeId < b.tradeId)
  }

  predicate Ascending(rows: seq<Row>) {
    forall i :: 0 <= i < |rows| - 1 ==> KeyLess(rows[i], rows[i + 1])
  }

  function Flatten<T>(chunks: seq<seq<T>>): seq<T> {
    if chunks == [] then [] else Flatten(chunks[..|chunks| - 1]) + chunks[|chunks| - 1]
  }

  lemma FlattenSnoc<T>(chunks: seq<seq<T>>, c: seq<T>)
    ensures Flatten(chunks + [c]) == Flatten(chunks) + c
  {
    assert (chunks + [c])[..|chunks|] == chunks;
  }

  lemma {:induction false} AscendingPairs(rows: seq<Row>, i: nat, j: nat)
    requires Ascending(rows) && i < j < |rows|
    ensures KeyLess(rows[i], rows[j])
    decreases j
  {
    if i + 1 < j {
      AscendingPairs(rows, i, j - 1);
      assert KeyLess(rows[j - 1], rows[j - 1 + 1]);
    }
  }

  // ---------------------------------------------------- replay filtering

  /** Two different rows share a trade id. */
  predicate Conflict(rows: seq<Row>) {
    exists i, j :: 0 <= i < |rows| && 0 <= j < |rows| && rows[i].tradeId == rows[j].tradeId && rows[i] != rows[j]
  }

  predicate HasId(rows: seq<Row>, id: int) {
    exists i :: 0 <= i < |rows| && rows[i].tradeId == id
  }

  /** The rows of a chunk whose id is neither recent nor earlier in the chunk. */
  function Unseen(recent: seq<Row>, chunk: seq<Row>): seq<Row> {
    if chunk == [] then []
    else
      var front, r := chunk[..|chunk| - 1], chunk[|chunk| - 1];
      if HasId(recent, r.tradeId) || HasId(front, r.tradeId) then Unseen(recent, front) else Unseen(recent, front) + [r]
  }

  function Tail<T>(rows: seq<T>, n: nat): seq<T> {
    if |rows| <= n then rows else rows[|rows| - n..]
  }

  datatype Filtered = Filtered(unique: seq<Row>, recent: seq<Row>, dropped: nat)

  lemma {:induction false} UnseenLength(recent: seq<Row>, chunk: seq<Row>)
    ensures |Unseen(recent, chunk)| <= |chunk|
  {
    if chunk != [] {
      UnseenLength(recent, chunk[..|chunk| - 1]);
    }
  }

  /** `_filter_verified_recent_replay`; None when a replayed id carries a different row. */
  function FilterReplay(chunk: seq<Row>, recent: seq<Row>, window: nat): Option<Filtered> {
    if chunk == [] then Some(Filtered([], recent, 0))
    else if Conflict(recent + chunk) then None
    else
      UnseenLength(recent, chunk);
      var unique := Unseen(recent, chunk);
      Some(Filtered(unique, Tail(recent + unique, window), |chunk| - |unique|))
  }

  // ------------------------------------------------------- the chunk loop

  /** What the loop has written, what it remembers, and how many replays it dropped. */
  datatype Progress = Progress(written: seq<Row>, recent: seq<Row>, dropped: nat)

  function TakeChunk(p: Progress, chunk: seq<Row>, window: nat): Option<Progress> {
    match FilterReplay(chunk, p.recent, window)
    case None => None
    case Some(f) =>
      if f.unique == [] then Some(Progress(p.written, f.recent, p.dropped + f.dropped))
      else if p.written != [] && !KeyLess(p.written[|p.written| - 1], f.unique[0]) then None
      else if !Ascending(f.unique) then None
      else Some(Progress(p.written + f.unique, f.recent, p.dropped + f.dropped))
  }

  /** The loop over already parsed chunks; None if it raises. */
  function TakeChunks(chunks: seq<seq<Row>>, window: nat): Option<Progress> {
    if chunks == [] then Some(Progress([], [], 0))
    else
      match TakeChunks(chunks[..|chunks| - 1], window)
      case None => None
      case Some(p) => TakeChunk(p, chunks[|chunks| - 1], window)
  }

  // ------------------------------------------- what the output must be

  /** Keep the first occurrence of every row: what a deduplication of the whole file does. */
  function KeepFirst(rows: seq<Row>): seq<Row> {
    if rows == [] then []
    else
      var front, r := KeepFirst(rows[..|rows| - 1]), rows[|rows| - 1];
      if r in front then front else front + [r]
  }

  lemma {:induction false} KeepFirstKeepsAll(rows: seq<Row>, r: Row)
    ensures r in KeepFirst(rows) <==> r in rows
    ensures |KeepFirst(rows)| <= |rows|
  {
    if rows != [] {
      var front := rows[..|rows| - 1];
      KeepFirstKeepsAll(front, r);
      assert rows == front + [rows[|rows| - 1]];
    }
  }

  lemma KeepFirstSnoc(rows: seq<Row>, r: Row)
    ensures KeepFirst(rows + [r]) == if r in KeepFirst(rows) then KeepFirst(rows) else KeepFirst(rows) + [r]
  {
    assert (rows + [r])[..|rows|] == rows;
  }

  lemma UnseenSnoc(recent: seq<Row>, chunk: seq<Row>, r: Row)
    ensures Unseen(recent, chunk + [r]) ==
      if HasId(recent, r.tradeId) || HasId(chunk, r.tradeId) then Unseen(recent, chunk) else Unseen(recent, chunk) + [r]
  {
    assert (chunk + [r])[..|chunk|] == chunk;
  }

  lemma {:induction false} UnseenPrefix(recent: seq<Row>, chunk: seq<Row>, n: nat)
    requires n <= |chunk|
    ensures Unseen(recent, chunk[..n]) <= Unseen(recent, chunk)
    decreases |chunk|
  {
    if n == |chunk| {
      assert chunk[..n] == chunk;
    } else {
      UnseenPrefix(recent, chunk[..|chunk| - 1], n);
      assert chunk[..|chunk| - 1][..n] == chunk[..n];
    }
  }

  /** A row is dropped only if the very same row came before. */
  lemma DroppedMeansRepeated(recent: seq<Row>, chunk: seq<Row>, n: nat)
    requires !Conflict(recent + chunk) && n < |chunk|
    requires HasId(recent, chunk[n].tradeId) || HasId(chunk[..n], chunk[n].tradeId)
    ensures chunk[n] in recent || chunk[n] in chunk[..n]
  {
    var all, r := recent + chunk, chunk[n];
    assert all[|recent| + n] == r;
    if HasId(recent, r.tradeId) {
      var i :| 0 <= i < |recent| && recent[i].tradeId == r.tradeId;
      assert all[i] == recent[i];
    } else {
      var i :| 0 <= i < |chunk[..n]| && chunk[..n][i].tradeId == r.tradeId;
      assert all[|recent| + i] == chunk[i] == chunk[..n][i];
    }
  }

  lemma RepeatIsDropped(rows: seq<Row>, r: Row)
    requires r in rows
    ensures KeepFirst(rows + [r]) == KeepFirst(rows)
  {
    KeepFirstSnoc(rows, r);
    KeepFirstKeepsAll(rows, r);
  }

  lemma NewRowIsKept(rows: seq<Row>, r: Row)
    requires r !in rows
    ensures KeepFirst(rows + [r]) == KeepFirst(rows) + [r]
  {
    KeepFirstSnoc(rows, r);
    KeepFirstKeepsAll(rows, r);
  }

  lemma AppendAfter<T>(a: seq<T>, b: seq<T>, x: T)
    ensures a + (b + [x]) == (a + b) + [x]
  {
  }

  lemma RowHasId(rows: seq<Row>, r: Row)
    requires r in rows
    ensures HasId(rows, r.tradeId)
  {
  }

  lemma RowExtendsKeepFirst(before: seq<Row>, recent: seq<Row>, earlier: seq<Row>, r: Row)
    requires KeepFirst(before + earlier) == KeepFirst(before) + Unseen(recent, earlier)
    requires HasId(recent, r.tradeId) || HasId(earlier, r.tradeId) ==> r in before || r in earlier
    requires !HasId(recent, r.tradeId) && !HasId(earlier, r.tradeId) ==> r !in before
    ensures KeepFirst(before + (earlier + [r])) == KeepFirst(before) + Unseen(recent, earlier + [r])
  {
    AppendAfter(before, earlier, r);
    UnseenSnoc(recent, earlier, r);
    if HasId(recent, r.tradeId) || HasId(earlier, r.tradeId) {
      RepeatIsDropped(before + earlier, r);
    } else {
      if r in earlier {
        RowHasId(earlier, r);
      }
      NewRowIsKept(before + earlier, r);
      AppendAfter(KeepFirst(before), Unseen(recent, earlier), r);
    }
  }

  /** One chunk extends the deduplicated output by exactly its unseen rows, provided every
      unseen row is new to the output. */
  lemma {:induction false} ChunkExtendsKeepFirst(before: seq<Row>, recent: seq<Row>, chunk: seq<Row>, n: nat)
    requires n <= |chunk| && !Conflict(recent + chunk)
    requires forall r :: r in recent ==> r in before
    requires forall r :: r in Unseen(recent, chunk) ==> r !in before
    ensures KeepFirst(before + chunk[..n]) == KeepFirst(before) + Unseen(recent, chunk[..n])
  {
    if n == 0 {
      assert before + chunk[..0] == before && KeepFirst(before) + [] == KeepFirst(before);
    } else {
      var r, earlier := chunk[n - 1], chunk[..n - 1];
      ChunkExtendsKeepFirst(before, recent, chunk, n - 1);
      assert chunk[..n] == earlier + [r];
      if HasId(recent, r.tradeId) || HasId(earlier, r.tradeId) {
        DroppedMeansRepeated(recent, chunk, n - 1);
      } else {
        UnseenSnoc(recent, earlier, r);
        UnseenPrefix(recent, chunk, n);
        var u, v := Unseen(recent, chunk[..n]), Unseen(recent, chunk);
        assert u[|u| - 1] == r && v[|u| - 1] == r;
      }
      RowExtendsKeepFirst(before, recent, earlier, r);
    }
  }

  lemma RecentAndUnseen(before: seq<Row>, recent: seq<Row>, unique: seq<Row>)
    requires forall r :: r in recent ==> r in KeepFirst(before)
    requires forall r :: r in unique ==> r !in KeepFirst(before)
    ensures forall r :: r in recent ==> r in before
    ensures forall r :: r in unique ==> r !in before
  {
    forall r ensures r in before <==> r in KeepFirst(before) {
      KeepFirstKeepsAll(before, r);
    }
  }

  lemma AscendingConcat(a: seq<Row>, b: seq<Row>)
    ensures Ascending(a + b) <==> Ascending(a) && Ascending(b) && (a != [] && b != [] ==> KeyLess(a[|a| - 1], b[0]))
  {
    var all := a + b;
    if Ascending(all) {
      forall i | 0 <= i < |a| - 1 ensures KeyLess(a[i], a[i + 1]) { assert KeyLess(all[i], all[i + 1]); }
      forall i | 0 <= i < |b| - 1 ensures KeyLess(b[i], b[i + 1]) { assert KeyLess(all[|a| + i], all[|a| + i + 1]); }
      if a != [] && b != [] { assert KeyLess(all[|a| - 1], all[|a| - 1 + 1]); }
    }
  }

  lemma TailOfTail<T>(a: seq<T>, b: seq<T>, n: nat)
    ensures Tail(Tail(a, n) + b, n) == Tail(a + b, n)
  {
  }

  lemma NewWhenAscending(a: seq<Row>, b: seq<Row>)
    requires Ascending(a + b)
    ensures forall r :: r in b ==> r !in a
  {
    forall r | r in b ensures r !in a {
      var j :| 0 <= j < |b| && b[j] == r;
      if i :| 0 <= i < |a| && a[i] == r {
        AscendingPairs(a + b, i, |a| + j);
      }
    }
  }

  /** The step of the theorem below. */
  lemma ChunkKeepsFirst(before: seq<Row>, p: Progress, chunk: seq<Row>, window: nat)
    requires p.written == KeepFirst(before) && Ascending(p.written) && p.recent == Tail(p.written, window)
    requires chunk != [] && TakeChunk(p, chunk, window).Some?
    ensures TakeChunk(p, chunk, window).value.written == KeepFirst(before + chunk)
    ensures Ascending(KeepFirst(before + chunk))
    ensures TakeChunk(p, chunk, window).value.recent == Tail(KeepFirst(before + chunk), window)
  {
    var unique := Unseen(p.recent, chunk);
    AscendingConcat(p.written, unique);
    assert unique == [] ==> p.written + unique == p.written;
    NewWhenAscending(p.written, unique);
    assert chunk[..|chunk|] == chunk;
    RecentAndUnseen(before, p.recent, unique);
    ChunkExtendsKeepFirst(before, p.recent, chunk, |chunk|);
    TailOfTail(p.written, unique, window);
  }

  /** Whatever the chunking and however small the window: an accepted run has written the
      keep-first deduplication of the whole file, in strictly ascending order, and every row
      is written or counted as a replay. */
  lemma {:induction false} AcceptedOutputIsKeepFirst(chunks: seq<seq<Row>>, window: nat)
    requires TakeChunks(chunks, window).Some?
    ensures TakeChunks(chunks, window).value.written == KeepFirst(Flatten(chunks))
    ensures Ascending(KeepFirst(Flatten(chunks)))
    ensures |KeepFirst(Flatten(chunks))| + TakeChunks(chunks, window).value.dropped == |Flatten(chunks)|
    ensures TakeChunks(chunks, window).value.recent == Tail(KeepFirst(Flatten(chunks)), window)
  {
    if chunks != [] {
      var front, chunk := chunks[..|chunks| - 1], chunks[|chunks| - 1];
      AcceptedOutputIsKeepFirst(front, window);
      if chunk == [] {
        assert Flatten(front) + chunk == Flatten(front);
      } else {
        var p := TakeChunks(front, window).value;
        ChunkKeepsFirst(Flatten(front), p, chunk, window);
        UnseenLength(p.recent, chunk);
      }
    }
  }

  /** Streaming equals batch: two chunkings of the same rows that are both accepted, even
      under different windows, write the same rows and count the same replays. */
  lemma AcceptedChunkingsAgree(a: seq<seq<Row>>, b: seq<seq<Row>>, windowA: nat, windowB: nat)
    requires Flatten(a) == Flatten(b)
    requires TakeChunks(a, windowA).Some? && TakeChunks(b, windowB).Some?
    ensures TakeChunks(a, windowA).value.written == TakeChunks(b, windowB).value.written
    ensures TakeChunks(a, windowA).value.dropped == TakeChunks(b, windowB).value.dropped
  {
    AcceptedOutputIsKeepFirst(a, windowA);
    AcceptedOutputIsKeepFirst(b, windowB);
  }

  // ------------------------------------------------- what is accepted

  /** Later rows only ever extend the deduplicated output. */
  lemma {:induction false} KeepFirstExtends(a: seq<Row>, b: seq<Row>) returns (extra: seq<Row>)
    ensures KeepFirst(a + b) == KeepFirst(a) + extra
  {
    if b == [] {
      assert a + b == a;
      extra := [];
    } else {
      var front, r := b[..|b| - 1], b[|b| - 1];
      assert a + b == (a + front) + [r];
      extra := KeepFirstExtends(a, front);
      KeepFirstSnoc(a + front, r);
      if r !in KeepFirst(a + front) {
        assert (KeepFirst(a) + extra) + [r] == KeepFirst(a) + (extra + [r]);
        extra := extra + [r];
      }
    }
  }

  lemma AscendingPrefix(a: seq<Row>, b: seq<Row>)
    requires Ascending(KeepFirst(a + b))
    ensures Ascending(KeepFirst(a))
  {
    var extra := KeepFirstExtends(a, b);
    AscendingConcat(KeepFirst(a), extra);
  }

  lemma ConflictOnlyDependsOnRows(a: seq<Row>, b: seq<Row>)
    requires forall r :: r in a ==> r in b
    requires Conflict(a)
    ensures Conflict(b)
  {
    var i, j :| 0 <= i < |a| && 0 <= j < |a| && a[i].tradeId == a[j].tradeId && a[i] != a[j];
    assert a[i] in b && a[j] in b;
  }

  lemma {:induction false} UnseenHaveNewIds(recent: seq<Row>, chunk: seq<Row>)
    ensures forall r :: r in Unseen(recent, chunk) ==> r in chunk && !HasId(recent, r.tradeId)
  {
    if chunk != [] {
      UnseenHaveNewIds(recent, chunk[..|chunk| - 1]);
    }
  }

  lemma EqualIdsEqualRows(rows: seq<Row>, r: Row, q: Row)
    requires !Conflict(rows) && r in rows && q in rows && r.tradeId == q.tradeId
    ensures r == q
  {
    var i :| 0 <= i < |rows| && rows[i] == r;
    var j :| 0 <= j < |rows| && rows[j] == q;
  }

  lemma FindId(rows: seq<Row>, id: int) returns (r: Row)
    requires HasId(rows, id)
    ensures r in rows && r.tradeId == id
  {
    var i :| 0 <= i < |rows| && rows[i].tradeId == id;
    r := rows[i];
  }

  lemma NoConflictWithin(a: seq<Row>, b: seq<Row>)
    requires forall r :: r in a ==> r in b
    requires !Conflict(b)
    ensures !Conflict(a)
  {
    if Conflict(a) {
      ConflictOnlyDependsOnRows(a, b);
    }
  }

  /** Every row of the chunk is recent or unseen, or the replay filter would have raised. */
  lemma {:induction false} RecentOrUnseen(recent: seq<Row>, chunk: seq<Row>, r: Row)
    requires !Conflict(recent + chunk) && r in chunk
    ensures r in recent || r in Unseen(recent, chunk)
  {
    var front, last := chunk[..|chunk| - 1], chunk[|chunk| - 1];
    assert chunk == front + [last];
    NoConflictWithin(recent + front, recent + chunk);
    if r in front {
      RecentOrUnseen(recent, front, r);
    } else if HasId(recent, r.tradeId) {
      var q := FindId(recent, r.tradeId);
      EqualIdsEqualRows(recent + chunk, r, q);
    } else if HasId(front, r.tradeId) {
      var q := FindId(front, r.tradeId);
      EqualIdsEqualRows(recent + chunk, r, q);
    }
  }

  /** A chunk that follows the rows `before` can be judged from the remembered window alone:
      no id in sight carries two rows, and what repeats an earlier row repeats a recent one. */
  predicate InSight(before: seq<Row>, chunk: seq<Row>, window: nat) {
    var recent := Tail(KeepFirst(before), window);
    chunk != [] ==> !Conflict(recent + chunk) && forall r :: r in chunk && r in before ==> r in recent
  }

  lemma ChunkInSight(before: seq<Row>, p: Progress, chunk: seq<Row>, window: nat)
    requires p.written == KeepFirst(before) && Ascending(p.written) && p.recent == Tail(p.written, window)
    requires chunk != [] && TakeChunk(p, chunk, window).Some?
    ensures InSight(before, chunk, window)
  {
    var unique := Unseen(p.recent, chunk);
    AscendingConcat(p.written, unique);
    assert unique == [] ==> p.written + unique == p.written;
    NewWhenAscending(p.written, unique);
    forall r | r in chunk && r in before ensures r in p.recent {
      KeepFirstKeepsAll(before, r);
      RecentOrUnseen(p.recent, chunk, r);
    }
  }

  lemma UnseenIsNew(before: seq<Row>, recent: seq<Row>, chunk: seq<Row>)
    requires forall r :: r in chunk && r in before ==> r in recent
    ensures forall r :: r in Unseen(recent, chunk) ==> r !in before
  {
    UnseenHaveNewIds(recent, chunk);
    assert forall r :: r in recent ==> HasId(recent, r.tradeId);
  }

  lemma RecentIsOld(before: seq<Row>, window: nat)
    ensures forall r :: r in Tail(KeepFirst(before), window) ==> r in before
  {
    forall r | r in Tail(KeepFirst(before), window) ensures r in before {
      assert r in KeepFirst(before);
      KeepFirstKeepsAll(before, r);
    }
  }

  lemma SeenInTime(before: seq<Row>, p: Progress, chunk: seq<Row>, window: nat)
    requires p.written == KeepFirst(before) && p.recent == Tail(p.written, window)
    requires chunk != [] && InSight(before, chunk, window) && Ascending(KeepFirst(before + chunk))
    ensures TakeChunk(p, chunk, window).Some?
  {
    var unique := Unseen(p.recent, chunk);
    RecentIsOld(before, window);
    UnseenIsNew(before, p.recent, chunk);
    assert chunk[..|chunk|] == chunk;
    ChunkExtendsKeepFirst(before, p.recent, chunk, |chunk|);
    AscendingConcat(p.written, unique);
  }

  lemma ChunkAcceptedIff(before: seq<Row>, p: Progress, chunk: seq<Row>, window: nat)
    requires p.written == KeepFirst(before) && Ascending(p.written) && p.recent == Tail(p.written, window)
    ensures TakeChunk(p, chunk, window).Some? <==>
      InSight(before, chunk, window) && Ascending(KeepFirst(before + chunk))
  {
    if chunk == [] {
      assert before + chunk == before;
    } else if TakeChunk(p, chunk, window).Some? {
      ChunkInSight(before, p, chunk, window);
      ChunkKeepsFirst(before, p, chunk, window);
    } else if InSight(before, chunk, window) && Ascending(KeepFirst(before + chunk)) {
      SeenInTime(before, p, chunk, window);
    }
  }

  predicate AllInSight(chunks: seq<seq<Row>>, window: nat) {
    chunks != [] ==>
      var front := chunks[..|chunks| - 1];
      AllInSight(front, window) && InSight(Flatten(front), chunks[|chunks| - 1], window)
  }

  /** Exactly what is accepted, for every chunking and window: the deduplicated file ascends
      strictly and every chunk can be judged from its window. */
  lemma {:induction false} AcceptedIff(chunks: seq<seq<Row>>, window: nat)
    ensures TakeChunks(chunks, window).Some? <==> AllInSight(chunks, window) && Ascending(KeepFirst(Flatten(chunks)))
  {
    if chunks != [] {
      var front, chunk := chunks[..|chunks| - 1], chunks[|chunks| - 1];
      AcceptedIff(front, window);
      if TakeChunks(front, window).Some? {
        AcceptedOutputIsKeepFirst(front, window);
        ChunkAcceptedIff(Flatten(front), TakeChunks(front, window).value, chunk, window);
      } else if Ascending(KeepFirst(Flatten(front) + chunk)) {
        AscendingPrefix(Flatten(front), chunk);
      }
    }
  }

  // -------------------------------------- acceptance and the chunking

  /** Whatever repeats an earlier row does so while that row is still remembered. */
  predicate RepeatsAreRecent(file: seq<Row>, window: nat) {
    file != [] ==>
      var front, r := file[..|file| - 1], file[|file| - 1];
      RepeatsAreRecent(front, window) && (r in front ==> r in Tail(KeepFirst(front), window))
  }

  predicate SafeToCut(file: seq<Row>, window: nat) {
    !Conflict(file) && Ascending(KeepFirst(file)) && RepeatsAreRecent(file, window)
  }

  lemma RepeatsSnoc(front: seq<Row>, r: Row, window: nat)
    ensures RepeatsAreRecent(front + [r], window) <==>
      RepeatsAreRecent(front, window) && (r in front ==> r in Tail(KeepFirst(front), window))
  {
    assert (front + [r])[..|front|] == front;
  }

  lemma {:induction false} RepeatsPrefix(a: seq<Row>, b: seq<Row>, window: nat)
    requires RepeatsAreRecent(a + b, window)
    ensures RepeatsAreRecent(a, window)
  {
    if b == [] {
      assert a + b == a;
    } else {
      var front, r := b[..|b| - 1], b[|b| - 1];
      assert a + b == (a + front) + [r];
      RepeatsSnoc(a + front, r, window);
      RepeatsPrefix(a, front, window);
    }
  }

  function Singletons<T>(file: seq<T>): (chunks: seq<seq<T>>)
    ensures |chunks| == |file| && forall i :: 0 <= i < |file| ==> chunks[i] == [file[i]]
  {
    seq(|file|, i requires 0 <= i < |file| => [file[i]])
  }

  lemma SingletonsSnoc<T>(front: seq<T>, r: T)
    ensures Singletons(front + [r]) == Singletons(front) + [[r]]
  {
  }

  lemma {:induction false} FlattenSingletons<T>(file: seq<T>)
    ensures Flatten(Singletons(file)) == file
  {
    if file != [] {
      var front, r := file[..|file| - 1], file[|file| - 1];
      assert file == front + [r];
      FlattenSingletons(front);
      SingletonsSnoc(front, r);
      FlattenSnoc(Singletons(front), [r]);
    }
  }

  lemma FlattenOne<T>(chunk: seq<T>)
    ensures Flatten([chunk]) == chunk
  {
    var none: seq<seq<T>> := [];
    FlattenSnoc(none, chunk);
    assert none + [chunk] == [chunk];
  }

  lemma AllInSightSnoc(chunks: seq<seq<Row>>, chunk: seq<Row>, window: nat)
    ensures AllInSight(chunks + [chunk], window) <==>
      AllInSight(chunks, window) && InSight(Flatten(chunks), chunk, window)
  {
    assert (chunks + [chunk])[..|chunks|] == chunks;
  }

  lemma OneChunkInSightIff(file: seq<Row>, window: nat)
    ensures AllInSight([file], window) <==> !Conflict(file)
  {
    var none: seq<seq<Row>> := [];
    assert none + [file] == [file] && [] + file == file;
    AllInSightSnoc(none, file, window);
  }

  lemma {:induction false} SingletonsRecent(file: seq<Row>, window: nat)
    requires AllInSight(Singletons(file), window)
    ensures RepeatsAreRecent(file, window)
  {
    if file != [] {
      var front, r := file[..|file| - 1], file[|file| - 1];
      assert file == front + [r];
      SingletonsSnoc(front, r);
      FlattenSingletons(front);
      AllInSightSnoc(Singletons(front), [r], window);
      SingletonsRecent(front, window);
      assert r in [r];
    }
  }

  lemma TailKeeps<T>(a: seq<T>, b: seq<T>, r: T, n: nat)
    requires r in Tail(a + b, n)
    ensures r in Tail(a, n) || r in b
  {
    var tail, earlier := Tail(a + b, n), Tail(a, n);
    var i :| 0 <= i < |tail| && tail[i] == r;
    var k := |a + b| - |tail| + i;
    if k < |a| {
      assert earlier[k - (|a| - |earlier|)] == r;
    } else {
      assert b[k - |a|] == r;
    }
  }

  /** A row remembered after more output was remembered before it too, if it was written then. */
  lemma RememberedEarlier(before: seq<Row>, more: seq<Row>, r: Row, window: nat)
    requires Ascending(KeepFirst(before + more))
    requires r in before && r in Tail(KeepFirst(before + more), window)
    ensures r in Tail(KeepFirst(before), window)
  {
    var extra := KeepFirstExtends(before, more);
    KeepFirstKeepsAll(before, r);
    NewWhenAscending(KeepFirst(before), extra);
    TailKeeps(KeepFirst(before), extra, r, window);
  }

  /** The repeated row r in the middle of a file. */
  lemma RepeatInSight(before: seq<Row>, front: seq<Row>, r: Row, rest: seq<Row>, window: nat)
    requires Ascending(KeepFirst(before + (front + [r] + rest)))
    requires RepeatsAreRecent(before + (front + [r] + rest), window)
    requires r in before
    ensures r in Tail(KeepFirst(before), window)
  {
    var upTo := before + front;
    assert before + (front + [r] + rest) == (upTo + [r]) + rest == upTo + ([r] + rest);
    RepeatsPrefix(upTo + [r], rest, window);
    RepeatsSnoc(upTo, r, window);
    AscendingPrefix(upTo, [r] + rest);
    RememberedEarlier(before, front, r, window);
  }

  lemma CutInSight(before: seq<Row>, chunk: seq<Row>, window: nat)
    requires SafeToCut(before + chunk, window)
    ensures InSight(before, chunk, window)
  {
    var recent := Tail(KeepFirst(before), window);
    RecentIsOld(before, window);
    NoConflictWithin(recent + chunk, before + chunk);
    forall r | r in chunk && r in before ensures r in recent {
      var k :| 0 <= k < |chunk| && chunk[k] == r;
      assert chunk == chunk[..k] + [r] + chunk[k + 1..];
      RepeatInSight(before, chunk[..k], r, chunk[k + 1..], window);
    }
  }

  lemma {:induction false} EveryCutInSight(chunks: seq<seq<Row>>, window: nat)
    requires SafeToCut(Flatten(chunks), window)
    ensures AllInSight(chunks, window)
  {
    if chunks != [] {
      var front, chunk := chunks[..|chunks| - 1], chunks[|chunks| - 1];
      NoConflictWithin(Flatten(front), Flatten(front) + chunk);
      AscendingPrefix(Flatten(front), chunk);
      RepeatsPrefix(Flatten(front), chunk, window);
      EveryCutInSight(front, window);
      CutInSight(Flatten(front), chunk, window);
    }
  }

  ghost predicate EveryCutAccepted(file: seq<Row>, window: nat) {
    forall chunks :: Flatten(chunks) == file ==> TakeChunks(chunks, window).Some?
  }

  /** The two extreme cuts, the whole file and single rows, already decide. */
  lemma CutsTellAll(file: seq<Row>, window: nat)
    requires TakeChunks([file], window).Some? && TakeChunks(Singletons(file), window).Some?
    ensures SafeToCut(file, window)
  {
    FlattenOne(file);
    AcceptedIff([file], window);
    OneChunkInSightIff(file, window);
    AcceptedIff(Singletons(file), window);
    SingletonsRecent(file, window);
  }

  lemma CutAccepted(chunks: seq<seq<Row>>, window: nat)
    requires SafeToCut(Flatten(chunks), window)
    ensures TakeChunks(chunks, window).Some?
  {
    EveryCutInSight(chunks, window);
    AcceptedIff(chunks, window);
  }

  /** A file is accepted however it is cut into chunks if and only if no id carries two rows,
      the deduplicated file ascends strictly, and every repeated row is still remembered when
      it is repeated. */
  lemma EveryCutAcceptedIff(file: seq<Row>, window: nat)
    ensures EveryCutAccepted(file, window) <==>
      SafeToCut(file, window)
  {
    if EveryCutAccepted(file, window) {
      FlattenOne(file);
      FlattenSingletons(file);
      CutsTellAll(file, window);
    } else {
      var chunks :| Flatten(chunks) == file && TakeChunks(chunks, window).None?;
      if SafeToCut(file, window) {
        CutAccepted(chunks, window);
      }
    }
  }

  lemma {:induction false} FittingRepeatsAreRecent(file: seq<Row>, window: nat)
    requires |KeepFirst(file)| <= window
    ensures RepeatsAreRecent(file, window)
  {
    if file != [] {
      var front, r := file[..|file| - 1], file[|file| - 1];
      FittingRepeatsAreRecent(front, window);
      KeepFirstKeepsAll(front, r);
    }
  }

  lemma {:induction false} FittingSeesConflicts(chunks: seq<seq<Row>>, window: nat)
    requires |KeepFirst(Flatten(chunks))| <= window && AllInSight(chunks, window)
    ensures !Conflict(Flatten(chunks))
  {
    if chunks != [] {
      var front, chunk := chunks[..|chunks| - 1], chunks[|chunks| - 1];
      var before := Flatten(front);
      var extra := KeepFirstExtends(before, chunk);
      FittingSeesConflicts(front, window);
      if chunk == [] {
        assert before + chunk == before;
      } else {
        forall r | r in before + chunk ensures r in KeepFirst(before) + chunk {
          KeepFirstKeepsAll(before, r);
        }
        NoConflictWithin(before + chunk, KeepFirst(before) + chunk);
      }
    }
  }

  /** When the distinct rows fit the window, any one chunking decides for all of them. */
  lemma FittingWindowIgnoresChunking(chunks: seq<seq<Row>>, window: nat)
    requires |KeepFirst(Flatten(chunks))| <= window
    ensures TakeChunks(chunks, window).Some? <==> EveryCutAccepted(Flatten(chunks), window)
  {
    if TakeChunks(chunks, window).Some? {
      AcceptedIff(chunks, window);
      FittingSeesConflicts(chunks, window);
      FittingRepeatsAreRecent(Flatten(chunks), window);
      EveryCutAcceptedIff(Flatten(chunks), window);
    }
  }

  // ------------------------------------------- beyond the window

  /** Ascending rows none of which reuses a remembered id. */
  predicate NoRecentId(file: seq<Row>, window: nat) {
    file != [] ==>
      var front, r := file[..|file| - 1], file[|file| - 1];
      NoRecentId(front, window) && !HasId(Tail(front, window), r.tradeId)
  }

  lemma {:induction false} AscendingIsKept(rows: seq<Row>)
    requires Ascending(rows)
    ensures KeepFirst(rows) == rows
  {
    if rows != [] {
      var front, r := rows[..|rows| - 1], rows[|rows| - 1];
      assert rows == front + [r];
      AscendingConcat(front, [r]);
      NewWhenAscending(front, [r]);
      AscendingIsKept(front);
    }
  }

  lemma NewIdNoConflict(recent: seq<Row>, r: Row)
    requires !Conflict(recent) && !HasId(recent, r.tradeId)
    ensures !Conflict(recent + [r])
  {
  }

  lemma TailOfSnoc<T>(front: seq<T>, r: T, n: nat)
    ensures forall x :: x in Tail(front + [r], n) ==> x in Tail(front, n) + [r]
  {
    var tail, both := Tail(front + [r], n), Tail(front, n) + [r];
    forall i | 0 <= i < |tail| ensures tail[i] in both {
      assert tail[i] == both[|both| - |tail| + i];
    }
  }

  lemma {:induction false} TailNoConflict(file: seq<Row>, window: nat)
    requires NoRecentId(file, window)
    ensures !Conflict(Tail(file, window))
  {
    if file != [] {
      var front, r := file[..|file| - 1], file[|file| - 1];
      assert file == front + [r];
      TailNoConflict(front, window);
      NewIdNoConflict(Tail(front, window), r);
      TailOfSnoc(front, r, window);
      NoConflictWithin(Tail(file, window), Tail(front, window) + [r]);
    }
  }

  lemma {:induction false} SingleRowsInSight(file: seq<Row>, window: nat)
    requires Ascending(file) && NoRecentId(file, window)
    ensures AllInSight(Singletons(file), window)
  {
    if file != [] {
      var front, r := file[..|file| - 1], file[|file| - 1];
      assert file == front + [r];
      AscendingConcat(front, [r]);
      NewWhenAscending(front, [r]);
      AscendingIsKept(front);
      SingletonsSnoc(front, r);
      FlattenSingletons(front);
      SingleRowsInSight(front, window);
      TailNoConflict(front, window);
      NewIdNoConflict(Tail(front, window), r);
      AllInSightSnoc(Singletons(front), [r], window);
    }
  }

  /** Rows 0, 1, 2, ... with ids of their own, but row n reuses the id of row 0. */
  function Numbered(n: nat, length: nat): (file: seq<Row>)
    ensures |file| == length
    ensures forall i :: 0 <= i < length ==> file[i] == Row(i, if i == n then 0 else i, "")
  {
    seq(length, i => Row(i, if i == n then 0 else i, ""))
  }

  lemma {:induction false} NumberedNoRecentId(window: nat, length: nat)
    requires length <= window + 2
    ensures NoRecentId(Numbered(window + 1, length), window)
    decreases length
  {
    if length > 0 {
      var file := Numbered(window + 1, length);
      NumberedNoRecentId(window, length - 1);
      assert file[..length - 1] == Numbered(window + 1, length - 1);
    }
  }

  /** An id, then as many other ids as the window remembers, then the first id on another row. */
  function ReusedId(window: nat): seq<Row> {
    Numbered(window + 1, window + 2)
  }

  /** Beyond the window, whatever its size, the chunking decides: a reused id is refused when
      it falls in one chunk with its first use and passes when the window has moved on. */
  lemma BeyondTheWindowChunkingMatters(window: nat)
    ensures TakeChunks([ReusedId(window)], window).None?
    ensures TakeChunks(Singletons(ReusedId(window)), window).Some?
  {
    var file := ReusedId(window);
    assert file[0].tradeId == file[window + 1].tradeId && file[0] != file[window + 1];
    OneChunkInSightIff(file, window);
    AcceptedIff([file], window);
    NumberedNoRecentId(window, window + 2);
    SingleRowsInSight(file, window);
    FlattenSingletons(file);
    AscendingIsKept(file);
    AcceptedIff(Singletons(file), window);
  }

  // ------------------------------------------------------------- parsing

  const MICROSECOND_THRESHOLD := 1_000_000_000_000_000

  predicate LooksLikeMicroseconds(r: RawRow) {
    r.time >= MICROSECOND_THRESHOLD || -r.time >= MICROSECOND_THRESHOLD
  }

  /** The unit is decided once per chunk, by its largest timestamp. */
  predicate InMicroseconds(chunk: seq<RawRow>) {
    exists i :: 0 <= i < |chunk| && LooksLikeMicroseconds(chunk[i])
  }

  function ParseRow(r: RawRow, micro: bool): Row {
    Row(if micro then r.time else r.time * 1000, r.tradeId, r.fields)
  }

  /** `normalize_trade_chunk`, as far as timestamps go. */
  function ParseChunk(chunk: seq<RawRow>): (rows: seq<Row>)
    ensures |rows| == |chunk|
    ensures forall i :: 0 <= i < |chunk| ==> rows[i] == ParseRow(chunk[i], InMicroseconds(chunk))
  {
    seq(|chunk|, i requires 0 <= i < |chunk| => ParseRow(chunk[i], InMicroseconds(chunk)))
  }

  function ParseChunks(chunks: seq<seq<RawRow>>): (parsed: seq<seq<Row>>)
    ensures |parsed| == |chunks|
    ensures forall i :: 0 <= i < |chunks| ==> parsed[i] == ParseChunk(chunks[i])
  {
    seq(|chunks|, i requires 0 <= i < |chunks| => ParseChunk(chunks[i]))
  }

  /** All timestamps of the file read the same in either unit decision: none is in
      microseconds, or all are (zero reads the same in both). */
  ghost predicate OneUnit(file: seq<RawRow>) {
    || !InMicroseconds(file)
    || forall i :: 0 <= i < |file| ==> LooksLikeMicroseconds(file[i]) || file[i].time == 0
  }

  ghost predicate ChunkingOf(chunks: seq<seq<RawRow>>, file: seq<RawRow>) {
    Flatten(chunks) == file && forall i :: 0 <= i < |chunks| ==> chunks[i] != []
  }

  lemma SubchunkParses(file: seq<RawRow>, a: nat, b: nat)
    requires OneUnit(file) && a <= b <= |file|
    ensures ParseChunk(file[a..b]) == ParseChunk(file)[a..b]
  {
    var part := file[a..b];
    if i :| 0 <= i < |part| && LooksLikeMicroseconds(part[i]) {
      assert LooksLikeMicroseconds(file[a + i]);
    }
  }

  lemma {:induction false} OneUnitParses(chunks: seq<seq<RawRow>>, file: seq<RawRow>)
    requires OneUnit(file) && Flatten(chunks) <= file
    ensures Flatten(ParseChunks(chunks)) == ParseChunk(file)[..|Flatten(chunks)|]
  {
    if chunks != [] {
      var front, chunk := chunks[..|chunks| - 1], chunks[|chunks| - 1];
      OneUnitParses(front, file);
      assert ParseChunks(chunks)[..|chunks| - 1] == ParseChunks(front);
      var a, b := |Flatten(front)|, |Flatten(chunks)|;
      assert chunk == file[a..b];
      SubchunkParses(file, a, b);
    }
  }

  lemma {:induction false} SingletonsParse(file: seq<RawRow>)
    ensures |Flatten(ParseChunks(Singletons(file)))| == |file|
    ensures forall i :: 0 <= i < |file| ==>
      Flatten(ParseChunks(Singletons(file)))[i] == ParseRow(file[i], LooksLikeMicroseconds(file[i]))
  {
    if file != [] {
      var front, r := file[..|file| - 1], file[|file| - 1];
      assert file == front + [r];
      SingletonsParse(front);
      SingletonsSnoc(front, r);
      var one := ParseChunk([r]);
      assert InMicroseconds([r]) <==> LooksLikeMicroseconds(r) by {
        assert LooksLikeMicroseconds(r) ==> LooksLikeMicroseconds([r][0]);
      }
      assert ParseChunks(Singletons(file)) == ParseChunks(Singletons(front)) + [one];
      FlattenSnoc(ParseChunks(Singletons(front)), one);
    }
  }

  lemma SingletonsDisagree(file: seq<RawRow>)
    requires !OneUnit(file)
    ensures ChunkingOf(Singletons(file), file)
    ensures Flatten(ParseChunks(Singletons(file))) != ParseChunk(file)
  {
    var i :| 0 <= i < |file| && !LooksLikeMicroseconds(file[i]) && file[i].time != 0;
    SingletonsAreACut(file);
    SingletonsParse(file);
    assert Flatten(ParseChunks(Singletons(file)))[i] == ParseRow(file[i], false);
    assert ParseChunk(file)[i] == ParseRow(file[i], true);
  }

  /** The per-chunk choice of unit makes parsing depend on the chunking, except exactly when
      the file keeps to one unit. */
  lemma ParsingIgnoresChunkingIff(file: seq<RawRow>)
    ensures OneUnit(file) <==>
      forall chunks :: ChunkingOf(chunks, file) ==> Flatten(ParseChunks(chunks)) == ParseChunk(file)
  {
    if OneUnit(file) {
      forall chunks | ChunkingOf(chunks, file) ensures Flatten(ParseChunks(chunks)) == ParseChunk(file) {
        OneUnitParses(chunks, file);
      }
    } else {
      SingletonsDisagree(file);
    }
  }

  // ------------------------------------------------------ the whole pipeline

  /** `normalize_binance_trade_archive` without its file handling; None if it raises. */
  function Normalize(chunks: seq<seq<RawRow>>, window: nat): Option<Progress> {
    match TakeChunks(ParseChunks(chunks), window)
    case None => None
    case Some(p) => if p.written == [] then None else Some(p)
  }

  lemma SingletonsAreACut(file: seq<RawRow>)
    ensures ChunkingOf(Singletons(file), file)
  {
    FlattenSingletons(file);
  }

  /** A file that keeps to one unit gives the same output however it is read. */
  lemma OutputIgnoresChunking(a: seq<seq<RawRow>>, b: seq<seq<RawRow>>, file: seq<RawRow>, window: nat)
    requires ChunkingOf(a, file) && ChunkingOf(b, file) && OneUnit(file)
    requires Normalize(a, window).Some? && Normalize(b, window).Some?
    ensures Normalize(a, window).value.written == Normalize(b, window).value.written == KeepFirst(ParseChunk(file))
    ensures Normalize(a, window).value.dropped == Normalize(b, window).value.dropped ==
      |file| - |KeepFirst(ParseChunk(file))|
  {
    ParsingIgnoresChunkingIff(file);
    AcceptedOutputIsKeepFirst(ParseChunks(a), window);
    AcceptedOutputIsKeepFirst(ParseChunks(b), window);
  }

  // --------------------------------------------------- what a row means

  /** The instant a normalized row names, in seconds. */
  function Seconds(r: Row): real {
    r.timestamp as real / 1_000_000.0
  }

  /** The instant a raw time names, in seconds. */
  function RawSeconds(time: int, microseconds: bool): real {
    time as real / if microseconds then 1_000_000.0 else 1_000.0
  }

  /** Every row keeps its id and its fields and names the instant of the raw row, in the unit
      the chunk's largest time decides. */
  lemma ParsedRowNamesTheInstant(chunk: seq<RawRow>, i: nat)
    requires i < |chunk|
    ensures
      var row, raw := ParseChunk(chunk)[i], chunk[i];
      var micro := exists k ::
        0 <= k < |chunk| && !(-1_000_000_000_000_000 < chunk[k].time < 1_000_000_000_000_000);
      row.tradeId == raw.tradeId && row.fields == raw.fields && Seconds(row) == RawSeconds(raw.time, micro)
  {
    assert InMicroseconds(chunk) <==> exists k :: 0 <= k < |chunk| && LooksLikeMicroseconds(chunk[k]);
  }

  /** The same trades with their times in the finer unit. */
  function Rescaled(chunk: seq<RawRow>): (finer: seq<RawRow>)
    ensures |finer| == |chunk|
    ensures forall i :: 0 <= i < |chunk| ==> finer[i] == RawRow(chunk[i].time * 1000, chunk[i].tradeId, chunk[i].fields)
  {
    seq(|chunk|, i requires 0 <= i < |chunk| => RawRow(chunk[i].time * 1000, chunk[i].tradeId, chunk[i].fields))
  }

  /** Some time is at least a million million: in milliseconds, the ninth of September 2001. */
  ghost predicate ReachesFar(chunk: seq<RawRow>) {
    exists i :: 0 <= i < |chunk| && (chunk[i].time >= 1_000_000_000_000 || chunk[i].time <= -1_000_000_000_000)
  }

  lemma RescaledLooksFine(chunk: seq<RawRow>)
    ensures InMicroseconds(Rescaled(chunk)) <==> ReachesFar(chunk)
  {
    if ReachesFar(chunk) {
      var i :| 0 <= i < |chunk| && (chunk[i].time >= 1_000_000_000_000 || chunk[i].time <= -1_000_000_000_000);
      assert LooksLikeMicroseconds(Rescaled(chunk)[i]);
    }
  }

  /** A chunk in milliseconds reads the same in microseconds exactly if some time reaches far
      enough to show the unit, or all are zero. */
  lemma UnitDoesNotMatterIff(chunk: seq<RawRow>)
    requires forall i :: 0 <= i < |chunk| ==> -1_000_000_000_000_000 < chunk[i].time < 1_000_000_000_000_000
    ensures ParseChunk(Rescaled(chunk)) == ParseChunk(chunk) <==>
      ReachesFar(chunk) || forall i :: 0 <= i < |chunk| ==> chunk[i].time == 0
  {
    RescaledLooksFine(chunk);
    assert !InMicroseconds(chunk);
    forall i | 0 <= i < |chunk|
      ensures ParseChunk(Rescaled(chunk))[i] == ParseChunk(chunk)[i] <==> ReachesFar(chunk) || chunk[i].time == 0
    {
    }
  }

  function RescaledAll(chunks: seq<seq<RawRow>>): (finer: seq<seq<RawRow>>)
    ensures |finer| == |chunks| && forall i :: 0 <= i < |chunks| ==> finer[i] == Rescaled(chunks[i])
  {
    seq(|chunks|, i requires 0 <= i < |chunks| => Rescaled(chunks[i]))
  }

  /** An archive in milliseconds and the same archive in microseconds give the same rows and
      the same count, or are both refused. */
  lemma NormalizingIgnoresTheUnit(chunks: seq<seq<RawRow>>, window: nat)
    requires forall k, i :: 0 <= k < |chunks| && 0 <= i < |chunks[k]| ==>
      -1_000_000_000_000_000 < chunks[k][i].time < 1_000_000_000_000_000
    requires forall k :: 0 <= k < |chunks| ==> ReachesFar(chunks[k])
    ensures Normalize(RescaledAll(chunks), window) == Normalize(chunks, window)
  {
    forall k | 0 <= k < |chunks| ensures ParseChunk(RescaledAll(chunks)[k]) == ParseChunk(chunks[k]) {
      UnitDoesNotMatterIff(chunks[k]);
    }
    assert ParseChunks(RescaledAll(chunks)) == ParseChunks(chunks);
  }

  /** Where the kept rows stand: in order, each at its first place. */
  ghost predicate FirstPlaces(rows: seq<Row>, kept: seq<Row>, places: seq<nat>) {
    && |places| == |kept|
    && (forall k :: 0 <= k < |places| ==>
          places[k] < |rows| && kept[k] == rows[places[k]] && rows[places[k]] !in rows[..places[k]])
    && (forall j, k :: 0 <= j < k < |places| ==> places[j] < places[k])
  }

  lemma PlacesStay(front: seq<Row>, r: Row, kept: seq<Row>, places: seq<nat>)
    requires FirstPlaces(front, kept, places)
    ensures FirstPlaces(front + [r], kept, places)
  {
    forall k | 0 <= k < |places| ensures (front + [r])[..places[k]] == front[..places[k]] {
    }
  }

  lemma OneMorePlace(rows: seq<Row>, kept: seq<Row>, places: seq<nat>, n: nat)
    requires FirstPlaces(rows, kept, places) && n < |rows| && rows[n] !in rows[..n]
    requires forall k :: 0 <= k < |places| ==> places[k] < n
    ensures FirstPlaces(rows, kept + [rows[n]], places + [n])
  {
  }

  lemma {:induction false} KeepFirstPlaces(rows: seq<Row>) returns (places: seq<nat>)
    ensures FirstPlaces(rows, KeepFirst(rows), places)
  {
    if rows == [] {
      places := [];
    } else {
      var n := |rows| - 1;
      var front, r := rows[..n], rows[n];
      places := KeepFirstPlaces(front);
      assert rows == front + [r];
      PlacesStay(front, r, KeepFirst(front), places);
      KeepFirstKeepsAll(front, r);
      if r !in KeepFirst(front) {
        OneMorePlace(rows, KeepFirst(front), places, n);
        places := places + [n];
      }
    }
  }

  /** What is written of a file of one unit: in the file's order, the first of every kind of
      row, with its id and fields, at the instant the raw row names; and no row is missing. */
  lemma WrittenRowsNameTheInstants(chunks: seq<seq<RawRow>>, file: seq<RawRow>, window: nat)
    returns (places: seq<nat>)
    requires ChunkingOf(chunks, file) && OneUnit(file) && Normalize(chunks, window).Some?
    ensures
      var written := Normalize(chunks, window).value.written;
      && FirstPlaces(ParseChunk(file), written, places)
      && (forall i :: 0 <= i < |file| ==> ParseChunk(file)[i] in written)
      && forall k :: 0 <= k < |written| ==>
           && written[k].tradeId == file[places[k]].tradeId && written[k].fields == file[places[k]].fields
           && Seconds(written[k]) == RawSeconds(file[places[k]].time, InMicroseconds(file))
  {
    ParsingIgnoresChunkingIff(file);
    AcceptedOutputIsKeepFirst(ParseChunks(chunks), window);
    places := KeepFirstPlaces(ParseChunk(file));
    forall i | 0 <= i < |file| ensures ParseChunk(file)[i] in KeepFirst(ParseChunk(file)) {
      KeepFirstKeepsAll(ParseChunk(file), ParseChunk(file)[i]);
    }
    forall k | 0 <= k < |places|
      ensures
        var row, raw := KeepFirst(ParseChunk(file))[k], file[places[k]];
        && row.tradeId == raw.tradeId && row.fields == raw.fields
        && Seconds(row) == RawSeconds(raw.time, InMicroseconds(file))
    {
      RowNamesTheInstant(file[places[k]], InMicroseconds(file));
    }
  }

  lemma RowNamesTheInstant(raw: RawRow, micro: bool)
    ensures Seconds(ParseRow(raw, micro)) == RawSeconds(raw.time, micro)
  {
  }

  lemma ParsesTo(chunk: seq<RawRow>, micro: bool)
    requires micro ==> exists i :: 0 <= i < |chunk| && LooksLikeMicroseconds(chunk[i])
    requires !micro ==> forall i :: 0 <= i < |chunk| ==> !LooksLikeMicroseconds(chunk[i])
    ensures forall i :: 0 <= i < |chunk| ==> ParseChunk(chunk)[i] == ParseRow(chunk[i], micro)
  {
  }

  /** A trade stamped in milliseconds and a later one in microseconds, read together and apart. */
  lemma MixedParse(early: RawRow, late: RawRow)
    requires !LooksLikeMicroseconds(early) && LooksLikeMicroseconds(late)
    ensures ParseChunks([[early, late]]) == [[ParseRow(early, true), ParseRow(late, true)]]
    ensures ParseChunks([[early], [late]]) == [[ParseRow(early, false)], [ParseRow(late, true)]]
  {
    assert LooksLikeMicroseconds([early, late][1]) && LooksLikeMicroseconds([late][0]);
    ParsesTo([early, late], true);
    ParsesTo([early], false);
    ParsesTo([late], true);
    assert ParseChunk([early, late]) == [ParseRow(early, true), ParseRow(late, true)];
    assert ParseChunk([early]) == [ParseRow(early, false)];
    assert ParseChunk([late]) == [ParseRow(late, true)];
  }

  /** Without it there are files for which two chunkings are both accepted and disagree: here
      one trade stamped in milliseconds and the next in microseconds. */
  lemma MixedUnitsDisagree(window: nat)
    requires window >= 2
    ensures
      var early, late := RawRow(1_600_000_000_000, 1, ""), RawRow(1_700_000_000_000_000, 2, "");
      && Normalize([[early, late]], window).Some? && Normalize([[early], [late]], window).Some?
      && Normalize([[early, late]], window).value.written != Normalize([[early], [late]], window).value.written
  {
    var early, late := RawRow(1_600_000_000_000, 1, ""), RawRow(1_700_000_000_000_000, 2, "");
    MixedParse(early, late);
    var x, y, z := ParseRow(early, true), ParseRow(early, false), ParseRow(late, true);
    FlattenOneOrTwo(x, z);
    FlattenOneOrTwo(y, z);
    TwoRows(x, z, [[x, z]], window);
    TwoRows(y, z, [[y], [z]], window);
    assert [x, z][0] != [y, z][0];
  }

  lemma KeepBoth(x: Row, y: Row)
    requires KeyLess(x, y) && x.tradeId != y.tradeId
    ensures KeepFirst([x, y]) == [x, y] && Ascending([x, y]) && !Conflict([x, y])
  {
    AscendingIsKept([x, y]);
  }

  lemma TwoRows(x: Row, y: Row, chunks: seq<seq<Row>>, window: nat)
    requires KeyLess(x, y) && x.tradeId != y.tradeId && window >= 2
    requires Flatten(chunks) == [x, y]
    ensures TakeChunks(chunks, window).Some? && TakeChunks(chunks, window).value.written == [x, y]
  {
    KeepBoth(x, y);
    FittingRepeatsAreRecent([x, y], window);
    CutAccepted(chunks, window);
    AcceptedOutputIsKeepFirst(chunks, window);
  }

  lemma FlattenOneOrTwo(x: Row, y: Row)
    ensures Flatten([[x, y]]) == [x, y] && Flatten([[x], [y]]) == [x, y]
  {
    FlattenOne([x, y]);
    FlattenOne([x]);
    FlattenSnoc([[x]], [y]);
    assert [[x]] + [[y]] == [[x], [y]];
  }

  lemma TakeChunksSnoc(chunks: seq<seq<Row>>, chunk: seq<Row>, window: nat)
    requires TakeChunks(chunks, window).Some?
    ensures TakeChunks(chunks + [chunk], window) == TakeChunk(TakeChunks(chunks, window).value, chunk, window)
  {
    assert (chunks + [chunk])[..|chunks|] == chunks;
  }

  /** The body of the chunk loop: filter replays, check the order against the last key and
      within the chunk, then append. */
  method WriteChunk(p: Progress, previousKey: Option<Row>, chunk: seq<Row>, window: nat)
    returns (next: Option<Progress>, nextKey: Option<Row>)
    requires previousKey == LastKey(p.written)
    ensures next == TakeChunk(p, chunk, window)
    ensures next.Some? ==> nextKey == LastKey(next.value.written)
  {
    var filtered := FilterReplay(chunk, p.recent, window);
    if filtered.None? {
      return None, None;
    }
    var unique, recent, replayed := filtered.value.unique, filtered.value.recent, p.dropped + filtered.value.dropped;
    if unique == [] {
      return Some(Progress(p.written, recent, replayed)), previousKey;
    }
    if previousKey.Some? && !KeyLess(previousKey.value, unique[0]) {
      return None, None;
    }
    if !Ascending(unique) {
      return None, None;
    }
    return Some(Progress(p.written + unique, recent, replayed)), Some(unique[|unique| - 1]);
  }

  function LastKey(rows: seq<Row>): Option<Row> {
    if rows == [] then None else Some(rows[|rows| - 1])
  }

  /** The chunk loop as it runs: rows are appended to the output file while the last key, the
      recent window and the replay count are kept up to date. */
  method NormalizeArchive(chunks: seq<seq<RawRow>>, window: nat) returns (r: Option<Progress>)
    ensures r == Normalize(chunks, window)
  {
    var p := Progress([], [], 0);
    var previousKey: Option<Row> := None;
    ghost var parsed := ParseChunks(chunks);
    for i := 0 to |chunks|
      invariant TakeChunks(parsed[..i], window) == Some(p) && previousKey == LastKey(p.written)
    {
      var chunk := ParseChunk(chunks[i]);
      assert parsed[..i + 1] == parsed[..i] + [chunk];
      TakeChunksSnoc(parsed[..i], chunk, window);
      var next, nextKey := WriteChunk(p, previousKey, chunk, window);
      assert TakeChunks(parsed[..i + 1], window) == next;
      if next.None? {
        RaiseEnds(parsed, i + 1, window);
        return None;
      }
      p, previousKey := next.value, nextKey;
    }
    assert parsed[..|chunks|] == parsed;
    return if p.written == [] then None else Some(p);
  }

  lemma {:induction false} RaiseEnds(chunks: seq<seq<Row>>, n: nat, window: nat)
    requires n <= |chunks| && TakeChunks(chunks[..n], window).None?
    ensures TakeChunks(chunks, window).None?
  {
    if n == |chunks| {
      assert chunks[..n] == chunks;
    } else {
      assert chunks[..|chunks| - 1][..n] == chunks[..n];
      RaiseEnds(chunks[..|chunks| - 1], n, window);
    }
  }

  // --------------------------------------------------------------- auditing

  /** The auditor's batch loop: whatever the batch size, its order flag is the global strict
      order and its row count the number of rows. */
  method AuditOrder(batches: seq<seq<Row>>) returns (ordered: bool, rows: nat)
    ensures ordered <==> Ascending(Flatten(batches))
    ensures rows == |Flatten(batches)|
  {
    ordered, rows := true, 0;
    var previous: Option<Row> := None;
    for i := 0 to |batches|
      invariant ordered <==> Ascending(Flatten(batches[..i]))
      invariant rows == |Flatten(batches[..i])|
      invariant previous == if rows == 0 then None else Some(Flatten(batches[..i])[rows - 1])
    {
      var frame := batches[i];
      ghost var before := Flatten(batches[..i]);
      assert batches[..i + 1][..i] == batches[..i];
      AscendingConcat(before, frame);
      rows := rows + |frame|;
      if frame == [] {
        assert before + frame == before;
        continue;
      }
      if previous.Some? && !KeyLess(previous.value, frame[0]) {
        ordered := false;
      }
      if !Ascending(frame) {
        ordered := false;
      }
      previous := Some(frame[|frame| - 1]);
    }
    assert batches[..|batches|] == batches;
  }

  /** What the normalizer accepts, the auditor passes, however the file is batched. */
  lemma AcceptedOutputPassesTheAudit(chunks: seq<seq<RawRow>>, window: nat, batches: seq<seq<Row>>)
    requires Normalize(chunks, window).Some?
    requires Flatten(batches) == Normalize(chunks, window).value.written
    ensures Ascending(Flatten(batches)) && |Flatten(batches)| > 0
    ensures |Flatten(batches)| + Normalize(chunks, window).value.dropped == |Flatten(ParseChunks(chunks))|
  {
    AcceptedOutputIsKeepFirst(ParseChunks(chunks), window);
  }
}
