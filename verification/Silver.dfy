/** Bronze-to-Silver normalization of order-book messages
    (src/data/binance_normalized_event.py, src/data/coinbase_normalized_event.py): the
    upsert/delete rows mean what the raw delta means. */
module Silver {
  import opened Common
  import opened Levels
  import opened CoinbaseReplay
  import CoinbaseGate
  import BinanceGate
  import BinanceReplay

  datatype Record =
    | BookLevel(isBid: bool, isDelete: bool, price: real, size: real)
    | TradeRecord
    | TickerMetric
    | LiquidationRecord

  datatype Row = Row(rawEventId: nat, rowIndex: nat, record: Record)

  // ------------------------------------------------- what the rows mean

  function ApplyRecord(bids: Side, asks: Side, r: Record): (Side, Side) {
    if !r.BookLevel? then (bids, asks)
    else if r.isBid then ((if r.isDelete then bids - {r.price} else bids[r.price := r.size]), asks)
    else (bids, (if r.isDelete then asks - {r.price} else asks[r.price := r.size]))
  }

  /** Both sides after a reader has executed the rows in order. */
  function FoldRecords(bids: Side, asks: Side, rs: seq<Record>): (Side, Side) {
    if rs == [] then (bids, asks)
    else
      var (b, a) := FoldRecords(bids, asks, rs[..|rs| - 1]);
      ApplyRecord(b, a, rs[|rs| - 1])
  }

  function RecordOf(l: SidedLevel): Record {
    BookLevel(l.isBid, l.level.size == 0.0, l.level.price, l.level.size)
  }

  function RecordsOf(ls: seq<SidedLevel>): (rs: seq<Record>)
    ensures |rs| == |ls|
    ensures forall i :: 0 <= i < |ls| ==> rs[i] == RecordOf(ls[i])
  {
    seq(|ls|, i requires 0 <= i < |ls| => RecordOf(ls[i]))
  }

  /** Executing the rows of a list of updates is applying each side's updates to that side,
      repeated prices included. */
  lemma {:induction false} RecordsMeanLevels(bids: Side, asks: Side, ls: seq<SidedLevel>)
    ensures FoldRecords(bids, asks, RecordsOf(ls)) ==
      (ApplyLevels(bids, OfSide(ls, true)), ApplyLevels(asks, OfSide(ls, false)))
  {
    if ls != [] {
      var front, l := ls[..|ls| - 1], ls[|ls| - 1];
      assert ls == front + [l];
      assert RecordsOf(ls)[..|ls| - 1] == RecordsOf(front);
      RecordsMeanLevels(bids, asks, front);
      OfSideSnoc(front, l, true);
      OfSideSnoc(front, l, false);
      ApplyLevelsSnoc(bids, OfSide(front, true), l.level);
      ApplyLevelsSnoc(asks, OfSide(front, false), l.level);
    }
  }

  // -------------------------------------------------------------- Binance

  /** The payload of a Binance event of any channel: a depth message, or what the record
      builder of another channel makes of its message (`None` if it raises). */
  datatype Message = Depth(payload: BinanceGate.Payload) | Builder(records: Option<seq<Record>>)

  type BinanceEvent = RawEvent<Message>

  /** `event.matching_ts_ms or event.exchange_ts_ms`, where zero counts as missing. */
  function EventTime(e: BinanceEvent): Option<int> {
    if e.matchingTsMs.Some? && e.matchingTsMs.value != 0 then e.matchingTsMs else e.exchangeTsMs
  }

  predicate DepthHeaderValid(e: BinanceEvent) {
    && EventTime(e).Some?
    && e.payload.Depth? && e.payload.payload.Fields?
    && var p := e.payload.payload;
       && p.firstId.Some? && p.firstId.value > 0 && p.finalId.Some? && p.finalId.value > 0
       && p.previousId.Some? && p.previousId.value >= 0 && p.firstId.value <= p.finalId.value
  }

  function Tagged(ls: seq<Level>, isBid: bool): (r: seq<SidedLevel>)
    ensures |r| == |ls|
    ensures forall i :: 0 <= i < |ls| ==> r[i] == SidedLevel(isBid, ls[i])
  {
    seq(|ls|, i requires 0 <= i < |ls| => SidedLevel(isBid, ls[i]))
  }

  /** The record loop over one side of a depth message. */
  method SideRecords(w: WireLevels, isBid: bool) returns (r: Option<seq<Record>>)
    ensures r.Some? <==> WellFormed(w)
    ensures r.Some? ==> r.value == RecordsOf(Tagged(Parsed(w), isBid))
  {
    if w.NotAList? {
      return None;
    }
    var records: seq<Record> := [];
    for i := 0 to |w.items|
      invariant |records| == i
      invariant forall j :: 0 <= j < i ==> ValidWireLevel(w.items[j])
      invariant forall j :: 0 <= j < i ==>
        records[j] == BookLevel(isBid, w.items[j].size == 0.0, w.items[j].price, w.items[j].size)
    {
      if !ValidWireLevel(w.items[i]) {
        return None;
      }
      var price, size := w.items[i].price, w.items[i].size;
      records := records + [BookLevel(isBid, size == 0.0, price, size)];
    }
    assert WellFormed(w) && records == RecordsOf(Tagged(Parsed(w), isBid));
    return Some(records);
  }

  /** The rows of a depth delta, bids before asks. */
  function DepthRecords(e: BinanceEvent): Option<seq<Record>> {
    if !DepthHeaderValid(e) then None
    else
      var p := e.payload.payload;
      if !WellFormed(p.bids) || !WellFormed(p.asks) then None
      else Some(RecordsOf(Tagged(Parsed(p.bids), true)) + RecordsOf(Tagged(Parsed(p.asks), false)))
  }

  method OrderbookRecords(e: BinanceEvent) returns (r: Option<seq<Record>>)
    ensures r == DepthRecords(e)
  {
    if !DepthHeaderValid(e) {
      return None;
    }
    var bidRecords := SideRecords(e.payload.payload.bids, true);
    if bidRecords.None? {
      return None;
    }
    var askRecords := SideRecords(e.payload.payload.asks, false);
    if askRecords.None? {
      return None;
    }
    return Some(bidRecords.value + askRecords.value);
  }

  lemma TaggedSnoc(front: seq<Level>, l: Level, isBid: bool)
    ensures Tagged(front + [l], isBid) == Tagged(front, isBid) + [SidedLevel(isBid, l)]
  {
  }

  lemma {:induction false} OneSided(ls: seq<Level>, isBid: bool)
    ensures OfSide(Tagged(ls, isBid), isBid) == ls
    ensures OfSide(Tagged(ls, isBid), !isBid) == []
  {
    if ls != [] {
      var front, l := ls[..|ls| - 1], ls[|ls| - 1];
      assert ls == front + [l];
      OneSided(front, isBid);
      TaggedSnoc(front, l, isBid);
      OfSideSnoc(Tagged(front, isBid), SidedLevel(isBid, l), isBid);
      OfSideSnoc(Tagged(front, isBid), SidedLevel(isBid, l), !isBid);
    }
  }

  /** Bronze to Silver preserves meaning: if a depth delta is normalized, then replay parses
      it too, and executing its rows over any book gives the two sides that `apply_delta`
      computes from the raw message. */
  lemma BinanceRowsMeanTheDelta(e: BinanceEvent, bids: Side, asks: Side)
    requires DepthRecords(e).Some?
    ensures
      var p := e.payload.payload;
      && WellFormed(p.bids) && WellFormed(p.asks)
      && FoldRecords(bids, asks, DepthRecords(e).value)
         == (ApplyLevels(bids, Parsed(p.bids)), ApplyLevels(asks, Parsed(p.asks)))
  {
    var p := e.payload.payload;
    var b, a := Tagged(Parsed(p.bids), true), Tagged(Parsed(p.asks), false);
    assert RecordsOf(b) + RecordsOf(a) == RecordsOf(b + a);
    RecordsMeanLevels(bids, asks, b + a);
    OneSided(Parsed(p.bids), true);
    OneSided(Parsed(p.asks), false);
    OfSideConcat(b, a, true);
    OfSideConcat(b, a, false);
    assert Parsed(p.bids) + [] == Parsed(p.bids) && [] + Parsed(p.asks) == Parsed(p.asks);
  }

  /** The rows and the replayed book: a delta the book accepts leaves it where the rows lead. */
  lemma BinanceRowsTrackTheBook(e: BinanceEvent, b: BinanceReplay.Book)
    requires DepthRecords(e).Some?
    requires
      var p := e.payload.payload;
      BinanceReplay.Advanced(b, p.bids, p.asks, p.finalId.value).1 == Done
    ensures
      var p := e.payload.payload;
      var next := BinanceReplay.Advanced(b, p.bids, p.asks, p.finalId.value).0;
      FoldRecords(b.bids, b.asks, DepthRecords(e).value) == (next.bids, next.asks)
  {
    BinanceRowsMeanTheDelta(e, b.bids, b.asks);
  }

  // ------------------------------------------------------------- Coinbase

  /** The entries all name the envelope's product. */
  predicate OneProduct(e: CoinbaseReplay.Event) {
    e.payload.EventList? && forall i :: 0 <= i < |e.payload.entries| ==>
      e.payload.entries[i].Entry? && e.payload.entries[i].product == e.symbol
  }

  /** The rows of a Coinbase L2 message, snapshot or delta, in message order. `timesParse`
      says whether every update's event time is a timestamp. */
  function CoinbaseRecords(e: CoinbaseReplay.Event, timesParse: bool): Option<seq<Record>> {
    if e.exchange != Coinbase || e.channel != Orderbook || e.symbol == "ALL" || e.symbol == "MULTI" then None
    else if e.messageType == OtherType || !OneProduct(e) || !ValidEntries(e.payload.entries) || !timesParse then None
    else Some(RecordsOf(SidedLevels(e.payload.entries)))
  }

  method BookRecords(e: CoinbaseReplay.Event, timesParse: bool) returns (r: Option<seq<Record>>)
    ensures r == CoinbaseRecords(e, timesParse)
  {
    if e.exchange != Coinbase || e.channel != Orderbook || e.symbol == "ALL" || e.symbol == "MULTI" {
      return None;
    }
    if e.messageType == OtherType || !OneProduct(e) {
      return None;
    }
    var levels := ParseEntries(e.payload.entries);
    if levels.Err? || !timesParse {
      return None;
    }
    var output: seq<Record> := [];
    for i := 0 to |levels.value|
      invariant output == RecordsOf(levels.value[..i])
    {
      var l := levels.value[i];
      output := output + [BookLevel(l.isBid, l.level.size == 0.0, l.level.price, l.level.size)];
      assert levels.value[..i + 1] == levels.value[..i] + [l];
    }
    assert levels.value[..|levels.value|] == levels.value;
    return Some(output);
  }

  /** A normalized delta that the book accepts leaves the book where the rows lead. */
  lemma CoinbaseRowsTrackTheBook(e: CoinbaseReplay.Event, timesParse: bool, b: Book)
    requires CoinbaseRecords(e, timesParse).Some? && e.messageType == Delta
    requires Advanced(b, e.payload.entries, e.sequence).1 == Done
    ensures
      var next := Advanced(b, e.payload.entries, e.sequence).0;
      FoldRecords(b.bids, b.asks, CoinbaseRecords(e, timesParse).value) == (next.bids, next.asks)
  {
    RecordsMeanLevels(b.bids, b.asks, SidedLevels(e.payload.entries));
  }

  lemma {:induction false} OfSideValid(ls: seq<SidedLevel>, isBid: bool)
    requires forall i :: 0 <= i < |ls| ==> ls[i].level.price > 0.0 && ls[i].level.size >= 0.0
    ensures ValidLevels(OfSide(ls, isBid))
  {
    if ls != [] {
      OfSideValid(ls[..|ls| - 1], isBid);
    }
  }

  lemma {:induction false} SidedLevelsValid(es: seq<CoinbaseGate.WireEntry>)
    requires ValidEntries(es)
    ensures forall i :: 0 <= i < |SidedLevels(es)| ==>
      SidedLevels(es)[i].level.price > 0.0 && SidedLevels(es)[i].level.size >= 0.0
  {
    if es != [] {
      SidedLevelsValid(es[..|es| - 1]);
    }
  }

  /** Coinbase snapshots are normalized too. Their rows, executed from empty sides, rebuild
      the loaded book exactly when no price is given a size and later zeroed for good. */
  lemma CoinbaseSnapshotRowsRebuildIff(e: CoinbaseReplay.Event, timesParse: bool, b: Book)
    requires CoinbaseRecords(e, timesParse).Some? && e.messageType == Snapshot
    requires Loaded(b, e.payload.entries, e.sequence).1 == Done
    ensures
      var next := Loaded(b, e.payload.entries, e.sequence).0;
      var ls := SidedLevels(e.payload.entries);
      var rebuilt := FoldRecords(map[], map[], CoinbaseRecords(e, timesParse).value) == (next.bids, next.asks);
      rebuilt <==> !ZeroedAfterSize(OfSide(ls, true)) && !ZeroedAfterSize(OfSide(ls, false))
  {
    var ls := SidedLevels(e.payload.entries);
    SidedLevelsValid(e.payload.entries);
    OfSideValid(ls, true);
    OfSideValid(ls, false);
    RecordsMeanLevels(map[], map[], ls);
    SnapshotIsFoldIff(OfSide(ls, true));
    SnapshotIsFoldIff(OfSide(ls, false));
  }
}
