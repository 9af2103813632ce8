/** What a Binance replay is for: the replayed book is the exchange's book.

    The exchange is a history of absolute-size overwrites indexed by update id. A REST
    snapshot states sizes at one id; a diff event states the final sizes of the prices
    touched in its range of ids. The first event may overlap the snapshot, so overwrites
    can be replayed that the snapshot already contains; only their being absolute makes
    that harmless. */
module BinanceRefinement {
  import opened Common
  import opened Levels
  import Gate = BinanceGate
  import KeyedReplay
  import opened BinanceReplay

  /** The overwrites the exchange made to one side: element i - 1 is update id i. */
  type SideHistory = seq<seq<Level>>

  datatype History = History(bids: SideHistory, asks: SideHistory)

  ghost predicate ValidHistory(h: History) {
    && |h.bids| == |h.asks|
    && (forall i :: 0 <= i < |h.bids| ==> ValidLevels(h.bids[i]))
    && (forall i :: 0 <= i < |h.asks| ==> ValidLevels(h.asks[i]))
  }

  /** The exchange's own side after update id n. */
  ghost function Truth(h: SideHistory, n: int): Side
    requires 0 <= n <= |h|
    decreases n
  {
    if n == 0 then map[] else ApplyLevels(Truth(h, n - 1), h[n - 1])
  }

  ghost predicate TouchedAt(h: SideHistory, id: int, p: real) {
    1 <= id <= |h| && Listed(h[id - 1], p)
  }

  /** Some update id in lo..hi overwrote this price. */
  ghost predicate Touched(h: SideHistory, lo: int, hi: int, p: real) {
    exists id :: lo <= id <= hi && TouchedAt(h, id, p)
  }

  lemma {:induction false} TruthPositive(h: SideHistory, n: int)
    requires 0 <= n <= |h| && forall i :: 0 <= i < |h| ==> ValidLevels(h[i])
    ensures AllPositive(Truth(h, n))
    decreases n
  {
    if n > 0 {
      TruthPositive(h, n - 1);
      ApplyLevelsPositive(Truth(h, n - 1), h[n - 1]);
    }
  }

  lemma {:induction false} UntouchedKeepsSize(h: SideHistory, m: int, n: int, p: real)
    requires 0 <= m <= n <= |h| && !Touched(h, m + 1, n, p)
    ensures SizeOf(Truth(h, m), p) == SizeOf(Truth(h, n), p)
    decreases n
  {
    if m < n {
      assert !TouchedAt(h, n, p);
      UntouchedKeepsSize(h, m, n - 1, p);
      ApplyLevelsAt(Truth(h, n - 1), h[n - 1], p);
    }
  }

  // ---------------------------------------------------------- faithfulness

  /** The levels carry the size after id `hi` of every price touched in lo..hi, and no false size. */
  ghost predicate FaithfulSide(h: SideHistory, lo: int, hi: int, ls: seq<Level>)
    requires 0 <= hi <= |h|
  {
    forall p ::
      && (Touched(h, lo, hi, p) ==> Listed(ls, p))
      && (Listed(ls, p) ==> LastSize(ls, p) == SizeOf(Truth(h, hi), p))
  }

  /** All overwrites of ids lo..hi, one after another. */
  ghost function Overwrites(h: SideHistory, lo: int, hi: int): seq<Level>
    requires 1 <= lo <= hi + 1 <= |h| + 1
    decreases hi
  {
    if hi < lo then [] else Overwrites(h, lo, hi - 1) + h[hi - 1]
  }

  /** Replaying all overwrites of a range brings the side before it to the side after it. */
  lemma {:induction false} OverwritesReach(h: SideHistory, lo: int, hi: int)
    requires 1 <= lo <= hi + 1 <= |h| + 1
    ensures ApplyLevels(Truth(h, lo - 1), Overwrites(h, lo, hi)) == Truth(h, hi)
    decreases hi
  {
    if lo <= hi {
      OverwritesReach(h, lo, hi - 1);
      ApplyLevelsConcat(Truth(h, lo - 1), Overwrites(h, lo, hi - 1), h[hi - 1]);
    }
  }

  lemma ListedConcat(a: seq<Level>, b: seq<Level>, p: real)
    ensures Listed(a + b, p) <==> Listed(a, p) || Listed(b, p)
  {
    if i :| 0 <= i < |a + b| && (a + b)[i].price == p {
      assert if i < |a| then a[i].price == p else b[i - |a|].price == p;
    }
    if i :| 0 <= i < |a| && a[i].price == p { assert (a + b)[i].price == p; }
    if i :| 0 <= i < |b| && b[i].price == p { assert (a + b)[|a| + i].price == p; }
  }

  lemma TouchedLast(h: SideHistory, lo: int, hi: int, p: real)
    requires 1 <= lo <= hi <= |h|
    ensures Touched(h, lo, hi, p) <==> Touched(h, lo, hi - 1, p) || Listed(h[hi - 1], p)
  {
    assert TouchedAt(h, hi, p) <==> Listed(h[hi - 1], p);
  }

  /** They list exactly the prices the range touched. */
  lemma {:induction false} OverwritesTouch(h: SideHistory, lo: int, hi: int, p: real)
    requires 1 <= lo <= hi + 1 <= |h| + 1
    ensures Listed(Overwrites(h, lo, hi), p) <==> Touched(h, lo, hi, p)
    decreases hi
  {
    if lo <= hi {
      OverwritesTouch(h, lo, hi - 1, p);
      ListedConcat(Overwrites(h, lo, hi - 1), h[hi - 1], p);
      TouchedLast(h, lo, hi, p);
    }
  }

  /** Faithful events exist for every range of every history: the concatenated overwrites
      are one, and so is any list with the same last word on the same prices. */
  lemma ConcatenationIsFaithful(h: SideHistory, lo: int, hi: int)
    requires 1 <= lo <= hi + 1 <= |h| + 1
    ensures FaithfulSide(h, lo, hi, Overwrites(h, lo, hi))
  {
    forall p ensures (Touched(h, lo, hi, p) ==> Listed(Overwrites(h, lo, hi), p)) &&
        (Listed(Overwrites(h, lo, hi), p) ==> LastSize(Overwrites(h, lo, hi), p) == SizeOf(Truth(h, hi), p))
    {
      OverwritesReach(h, lo, hi);
      OverwritesTouch(h, lo, hi, p);
      ApplyLevelsAt(Truth(h, lo - 1), Overwrites(h, lo, hi), p);
    }
  }

  ghost predicate Untouched(h: SideHistory, lo: int, hi: int) {
    forall p :: !Touched(h, lo, hi, p)
  }

  /** A diff event that parses tells the truth about its range U..u, and nothing happened
      strictly between `pu` and U. Events that do not parse may say anything. */
  ghost predicate FaithfulDelta(h: History, p: Gate.Payload) {
    (p.Fields? && p.firstId.Some? && p.finalId.Some? && p.previousId.Some? && p.firstId.value <= p.finalId.value
     && WellFormed(p.bids) && WellFormed(p.asks)) ==>
      && 0 <= p.finalId.value <= |h.bids| && |h.bids| == |h.asks|
      && FaithfulSide(h.bids, p.firstId.value, p.finalId.value, Parsed(p.bids))
      && FaithfulSide(h.asks, p.firstId.value, p.finalId.value, Parsed(p.asks))
      && Untouched(h.bids, p.previousId.value + 1, p.firstId.value - 1)
      && Untouched(h.asks, p.previousId.value + 1, p.firstId.value - 1)
  }

  ghost predicate StatesTrueSizes(h: SideHistory, n: int, ls: seq<Level>)
    requires 0 <= n <= |h|
  {
    forall i :: 0 <= i < |ls| ==> ls[i].size == SizeOf(Truth(h, n), ls[i].price)
  }

  ghost predicate SnapshotParses(p: Gate.Payload) {
    p.Fields? && p.lastUpdateId.Some? && WellFormed(p.snapshotBids) && WellFormed(p.snapshotAsks)
  }

  /** A snapshot that parses states true sizes; it may be cut off at any depth. */
  ghost predicate FaithfulSnapshot(h: History, p: Gate.Payload) {
    SnapshotParses(p) ==>
      && 0 <= p.lastUpdateId.value <= |h.bids| && |h.bids| == |h.asks|
      && StatesTrueSizes(h.bids, p.lastUpdateId.value, Parsed(p.snapshotBids))
      && StatesTrueSizes(h.asks, p.lastUpdateId.value, Parsed(p.snapshotAsks))
  }

  ghost predicate FaithfulEvent(hist: string -> History, e: Event) {
    e.exchange == Binance && e.channel == Orderbook ==>
      ValidHistory(hist(e.symbol)) &&
      if e.messageType == Snapshot then FaithfulSnapshot(hist(e.symbol), e.payload)
      else FaithfulDelta(hist(e.symbol), e.payload)
  }

  /** Each event is faithful; the stream itself may be stale, reordered, repeated or incomplete. */
  ghost predicate Faithful(hist: string -> History, events: seq<Event>) {
    forall i :: 0 <= i < |events| ==> FaithfulEvent(hist, events[i])
  }

  // --------------------------------------------------------- the invariant

  predicate IsSnapshotOf(e: Event, symbol: string) {
    e.exchange == Binance && e.channel == Orderbook && e.symbol == symbol && e.messageType == Snapshot
  }

  /** The payload of the symbol's most recent snapshot event. */
  function LastSnapshot(events: seq<Event>, symbol: string): Option<Gate.Payload> {
    if events == [] then None
    else if IsSnapshotOf(events[|events| - 1], symbol) then Some(events[|events| - 1].payload)
    else LastSnapshot(events[..|events| - 1], symbol)
  }

  /** A price whose size the stream has disclosed: listed by the snapshot at id l, empty at
      that id, or touched by an id in l + 1..n. With a snapshot of limited depth the others
      are the prices beyond its depth that have not moved since. */
  ghost predicate Disclosed(h: SideHistory, snapshot: seq<Level>, l: int, n: int, p: real)
    requires 0 <= l <= |h|
  {
    Listed(snapshot, p) || SizeOf(Truth(h, l), p) == 0.0 || Touched(h, l + 1, n, p)
  }

  ghost predicate Tracks(h: SideHistory, snapshot: seq<Level>, l: int, n: int, side: Side)
    requires 0 <= l <= n <= |h|
  {
    AllPositive(side) && forall p :: Disclosed(h, snapshot, l, n, p) ==> SizeOf(side, p) == SizeOf(Truth(h, n), p)
  }

  /** Gate and book agree on the id, and at that id the book shows the exchange's size at
      every disclosed price. */
  ghost predicate TracksExchange(h: History, snapshot: Option<Gate.Payload>, s: SymbolState) {
    && s.book.updateId == s.gate.updateId
    && (s.gate.updateId.None? ==> s == FRESH)
    && (s.gate.updateId.Some? ==>
          && snapshot.Some? && SnapshotParses(snapshot.value) && ValidHistory(h)
          && 0 <= snapshot.value.lastUpdateId.value <= s.gate.updateId.value <= |h.bids|
          && Uncrossed(s.book.bids, s.book.asks)
          && Tracks(h.bids, Parsed(snapshot.value.snapshotBids), snapshot.value.lastUpdateId.value,
                    s.gate.updateId.value, s.book.bids)
          && Tracks(h.asks, Parsed(snapshot.value.snapshotAsks), snapshot.value.lastUpdateId.value,
                    s.gate.updateId.value, s.book.asks))
  }

  lemma LoadedSideTracks(h: SideHistory, l: int, ls: seq<Level>)
    requires 0 <= l <= |h| && ValidLevels(ls) && StatesTrueSizes(h, l, ls)
    ensures Tracks(h, ls, l, l, SnapshotSide(ls))
  {
    SnapshotSidePositive(ls);
    forall p | Disclosed(h, ls, l, l, p) ensures SizeOf(SnapshotSide(ls), p) == SizeOf(Truth(h, l), p) {
      SnapshotSidePrices(ls, p);
      if p in SnapshotSide(ls) {
        assert Level(p, SnapshotSide(ls)[p]) in ls;
      } else if Listed(ls, p) {
        var i :| 0 <= i < |ls| && ls[i].price == p;
        assert ls[i].size == 0.0;
      }
    }
  }

  /** The heart of the matter: overwrites for lo..hi replayed on a side that is already at id
      w, anywhere at or after lo - 1 or separated from lo by ids that touched nothing, bring
      it to id hi, although those for lo..w are applied a second time. */
  lemma OverlapIsHarmless(h: SideHistory, snapshot: seq<Level>, l: int, w: int, lo: int, hi: int, ls: seq<Level>,
                          side: Side)
    requires 0 <= l <= w < hi <= |h| && ValidLevels(ls)
    requires Tracks(h, snapshot, l, w, side)
    requires FaithfulSide(h, lo, hi, ls) && Untouched(h, w + 1, lo - 1)
    ensures Tracks(h, snapshot, l, hi, ApplyLevels(side, ls))
  {
    ApplyLevelsPositive(side, ls);
    forall p | Disclosed(h, snapshot, l, hi, p)
      ensures SizeOf(ApplyLevels(side, ls), p) == SizeOf(Truth(h, hi), p)
    {
      ApplyLevelsAt(side, ls, p);
      if !Listed(ls, p) {
        assert !Touched(h, w + 1, lo - 1, p) && !Touched(h, lo, hi, p);
        assert !Touched(h, w + 1, hi, p);
        UntouchedKeepsSize(h, w, hi, p);
        if id :| l + 1 <= id <= hi && TouchedAt(h, id, p) {
          assert id <= w;
        }
      }
    }
  }

  lemma SnapshotStepTracks(h: History, s: SymbolState, e: Event)
    requires e.exchange == Binance && e.channel == Orderbook && e.messageType == Snapshot
    requires ValidHistory(h) && FaithfulSnapshot(h, e.payload)
    requires Step(s, e).Ok?
    ensures TracksExchange(h, Some(e.payload), Step(s, e).value)
  {
    var l := e.payload.lastUpdateId.value;
    LoadedSideTracks(h.bids, l, Parsed(e.payload.snapshotBids));
    LoadedSideTracks(h.asks, l, Parsed(e.payload.snapshotAsks));
  }

  lemma AcceptedDeltaTracks(h: History, snapshot: Option<Gate.Payload>, s: SymbolState, e: Event)
    requires e.exchange == Binance && e.channel == Orderbook
    requires TracksExchange(h, snapshot, s) && FaithfulDelta(h, e.payload)
    requires Gate.Judge(s.gate, e.symbol, e).1 == Gate.Accepted
    requires WellFormed(e.payload.bids) && WellFormed(e.payload.asks)
    ensures
      var l, u := snapshot.value.lastUpdateId.value, e.payload.finalId.value;
      && s.gate.updateId.value < u <= |h.bids|
      && Tracks(h.bids, Parsed(snapshot.value.snapshotBids), l, u, ApplyLevels(s.book.bids, Parsed(e.payload.bids)))
      && Tracks(h.asks, Parsed(snapshot.value.snapshotAsks), l, u, ApplyLevels(s.book.asks, Parsed(e.payload.asks)))
  {
    var l, w := snapshot.value.lastUpdateId.value, s.gate.updateId.value;
    var lo, hi := e.payload.firstId.value, e.payload.finalId.value;
    OverlapIsHarmless(h.bids, Parsed(snapshot.value.snapshotBids), l, w, lo, hi, Parsed(e.payload.bids), s.book.bids);
    OverlapIsHarmless(h.asks, Parsed(snapshot.value.snapshotAsks), l, w, lo, hi, Parsed(e.payload.asks), s.book.asks);
  }

  lemma StepTracks(h: History, snapshot: Option<Gate.Payload>, s: SymbolState, e: Event)
    requires TracksExchange(h, snapshot, s)
    requires e.exchange == Binance && e.channel == Orderbook ==>
      && ValidHistory(h)
      && if e.messageType == Snapshot then FaithfulSnapshot(h, e.payload) else FaithfulDelta(h, e.payload)
    requires Step(s, e).Ok?
    ensures TracksExchange(h, if IsSnapshotOf(e, e.symbol) then Some(e.payload) else snapshot, Step(s, e).value)
  {
    if e.exchange == Binance && e.channel == Orderbook {
      if e.messageType == Snapshot {
        SnapshotStepTracks(h, s, e);
      } else if Gate.Judge(s.gate, e.symbol, e).1 == Gate.Accepted {
        AcceptedDeltaTracks(h, snapshot, s, e);
      }
    }
  }

  /** Refinement: after every beginning of a stream of faithful events that has not raised,
      every symbol's gate and book stand at one id, and the book equals the exchange's book
      at that id wherever the stream has disclosed it. */
  lemma {:induction false} ReplayRefinesExchange(hist: string -> History, events: seq<Event>, symbol: string)
    requires Faithful(hist, events) && Replay(events).Ok?
    ensures TracksExchange(hist(symbol), LastSnapshot(events, symbol), StateOf(Replay(events).value, symbol))
  {
    if events != [] {
      var front, e := events[..|events| - 1], events[|events| - 1];
      ReplayRefinesExchange(hist, front, symbol);
      if e.symbol == symbol {
        assert FaithfulEvent(hist, e);
        StepTracks(hist(symbol), LastSnapshot(front, symbol), StateOf(Replay(front).value, symbol), e);
      }
    }
  }

  // --------------------------------------------- snapshots of full depth

  ghost predicate CompleteSide(h: SideHistory, n: int, ls: seq<Level>)
    requires 0 <= n <= |h|
  {
    forall p :: SizeOf(Truth(h, n), p) > 0.0 ==> Listed(ls, p)
  }

  /** The snapshot lists every price that has any size. */
  ghost predicate CompleteSnapshot(h: History, p: Gate.Payload) {
    && SnapshotParses(p) && 0 <= p.lastUpdateId.value <= |h.bids| && |h.bids| == |h.asks|
    && CompleteSide(h.bids, p.lastUpdateId.value, Parsed(p.snapshotBids))
    && CompleteSide(h.asks, p.lastUpdateId.value, Parsed(p.snapshotAsks))
  }

  lemma CompleteSideIsTruth(h: SideHistory, snapshot: seq<Level>, l: int, n: int, side: Side)
    requires 0 <= l <= n <= |h| && forall i :: 0 <= i < |h| ==> ValidLevels(h[i])
    requires CompleteSide(h, l, snapshot) && Tracks(h, snapshot, l, n, side)
    ensures side == Truth(h, n)
  {
    TruthPositive(h, l);
    TruthPositive(h, n);
    forall p ensures SizeOf(side, p) == SizeOf(Truth(h, n), p) {
      assert SizeOf(Truth(h, l), p) >= 0.0;
      assert Disclosed(h, snapshot, l, n, p);
    }
    SidesEqual(side, Truth(h, n));
  }

  /** If the last snapshot was complete, the replayed book is the exchange's book, level for level. */
  lemma CompleteReplayEqualsExchange(hist: string -> History, events: seq<Event>, symbol: string)
    requires Faithful(hist, events) && Replay(events).Ok?
    requires LastSnapshot(events, symbol).Some? && CompleteSnapshot(hist(symbol), LastSnapshot(events, symbol).value)
    ensures
      var s := StateOf(Replay(events).value, symbol);
      s.book.updateId.Some? ==>
        && 0 <= s.book.updateId.value <= |hist(symbol).bids| == |hist(symbol).asks|
        && s.book.bids == Truth(hist(symbol).bids, s.book.updateId.value)
        && s.book.asks == Truth(hist(symbol).asks, s.book.updateId.value)
  {
    ReplayRefinesExchange(hist, events, symbol);
    var h, s := hist(symbol), StateOf(Replay(events).value, symbol);
    if s.book.updateId.Some? {
      var p, n := LastSnapshot(events, symbol).value, s.book.updateId.value;
      CompleteSideIsTruth(h.bids, Parsed(p.snapshotBids), p.lastUpdateId.value, n, s.book.bids);
      CompleteSideIsTruth(h.asks, Parsed(p.snapshotAsks), p.lastUpdateId.value, n, s.book.asks);
    }
  }

  /** And then only the gate can stop the replay: an event the gate accepts is never refused
      by the book, provided the exchange's own book is not crossed or one-sided at its id. */
  lemma OnlyTheGateRaises(hist: string -> History, events: seq<Event>, e: Event)
    requires Faithful(hist, events + [e]) && Replay(events).Ok?
    requires LastSnapshot(events, e.symbol).Some?
    requires CompleteSnapshot(hist(e.symbol), LastSnapshot(events, e.symbol).value)
    requires e.exchange == Binance && e.channel == Orderbook && e.messageType != Snapshot
    requires Gate.Judge(StateOf(Replay(events).value, e.symbol).gate, e.symbol, e).1 == Gate.Accepted
    requires WellFormed(e.payload.bids) && WellFormed(e.payload.asks)
    requires
      var h, u := hist(e.symbol), e.payload.finalId.value;
      0 <= u <= |h.bids| == |h.asks| ==> Uncrossed(Truth(h.bids, u), Truth(h.asks, u))
    ensures Replay(events + [e]).Ok?
  {
    var h, s, p := hist(e.symbol), StateOf(Replay(events).value, e.symbol), LastSnapshot(events, e.symbol).value;
    assert (events + [e])[|events|] == e;
    assert forall i :: 0 <= i < |events| ==> events[i] == (events + [e])[i];
    ReplayRefinesExchange(hist, events, e.symbol);
    assert FaithfulEvent(hist, e);
    AcceptedDeltaTracks(h, Some(p), s, e);
    var l, u := p.lastUpdateId.value, e.payload.finalId.value;
    CompleteSideIsTruth(h.bids, Parsed(p.snapshotBids), l, u, ApplyLevels(s.book.bids, Parsed(e.payload.bids)));
    CompleteSideIsTruth(h.asks, Parsed(p.snapshotAsks), l, u, ApplyLevels(s.book.asks, Parsed(e.payload.asks)));
    KeyedReplay.RunSnoc(FRESH, Step, SymbolOf, events, e);
  }
}
