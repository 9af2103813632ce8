/** What the Silver rows of a whole list of events mean, and which lists are normalized
    (src/data/binance_normalized_event.py, src/data/coinbase_normalized_event.py). */
module SilverMeaning {
  import opened Common
  import opened EventOrder
  import opened Levels
  import opened Silver
  import opened Normalization
  import BinanceGate
  import CoinbaseGate
  import CoinbaseReplay
  import CoinbaseSession

  // ------------------------------------------------------- executing rows

  function RecordsIn(rows: seq<Row>): (rs: seq<Record>)
    ensures |rs| == |rows| && forall i :: 0 <= i < |rows| ==> rs[i] == rows[i].record
  {
    seq(|rows|, i requires 0 <= i < |rows| => rows[i].record)
  }

  lemma RecordsInSnoc(before: seq<Row>, eventId: nat, more: seq<Record>)
    ensures RecordsIn(before + RowsOf(eventId, more)) == RecordsIn(before) + more
  {
  }

  /** One more event's rows, when what they do is known. */
  lemma FoldOneMore(bids: Side, asks: Side, before: seq<Row>, eventId: nat, more: seq<Record>,
                    bidsBefore: seq<Level>, asksBefore: seq<Level>, moreBids: seq<Level>, moreAsks: seq<Level>)
    requires FoldRecords(bids, asks, RecordsIn(before)) ==
      (ApplyLevels(bids, bidsBefore), ApplyLevels(asks, asksBefore))
    requires FoldRecords(ApplyLevels(bids, bidsBefore), ApplyLevels(asks, asksBefore), more) ==
      (ApplyLevels(ApplyLevels(bids, bidsBefore), moreBids), ApplyLevels(ApplyLevels(asks, asksBefore), moreAsks))
    ensures FoldRecords(bids, asks, RecordsIn(before + RowsOf(eventId, more))) ==
      (ApplyLevels(bids, bidsBefore + moreBids), ApplyLevels(asks, asksBefore + moreAsks))
  {
    RecordsInSnoc(before, eventId, more);
    FoldConcat(bids, asks, RecordsIn(before), more);
    ApplyLevelsConcat(bids, bidsBefore, moreBids);
    ApplyLevelsConcat(asks, asksBefore, moreAsks);
  }

  lemma {:induction false} FoldConcat(bids: Side, asks: Side, x: seq<Record>, y: seq<Record>)
    ensures
      var (b, a) := FoldRecords(bids, asks, x);
      FoldRecords(bids, asks, x + y) == FoldRecords(b, a, y)
  {
    if y == [] {
      assert x + y == x;
    } else {
      var front, r := y[..|y| - 1], y[|y| - 1];
      assert (x + y)[..|x + y| - 1] == x + front;
      FoldConcat(bids, asks, x, front);
    }
  }

  /** Rows of the other channels leave the book alone. */
  predicate NoBookRows(rs: seq<Record>) {
    forall i :: 0 <= i < |rs| ==> !rs[i].BookLevel?
  }

  lemma {:induction false} OtherRowsLeaveTheBook(bids: Side, asks: Side, rs: seq<Record>)
    requires NoBookRows(rs)
    ensures FoldRecords(bids, asks, rs) == (bids, asks)
  {
    if rs != [] {
      OtherRowsLeaveTheBook(bids, asks, rs[..|rs| - 1]);
    }
  }

  // -------------------------------------------------------------- Binance

  predicate IsDelta(e: BinanceEvent) {
    e.channel == Orderbook && e.messageType != Snapshot
  }

  /** The builders of trade, ticker and liquidation rows make no book rows. */
  predicate BuildersKeepOff(events: seq<BinanceEvent>) {
    forall i :: 0 <= i < |events| && events[i].payload.Builder? && events[i].payload.records.Some? ==>
      NoBookRows(events[i].payload.records.value)
  }

  /** The bid levels of the deltas, one delta after another. */
  function BidLevels(events: seq<BinanceEvent>): seq<Level> {
    if events == [] then []
    else
      var front, e := BidLevels(events[..|events| - 1]), events[|events| - 1];
      if IsDelta(e) && e.payload.Depth? && e.payload.payload.Fields? && WellFormed(e.payload.payload.bids) then
        front + Parsed(e.payload.payload.bids)
      else front
  }

  function AskLevels(events: seq<BinanceEvent>): seq<Level> {
    if events == [] then []
    else
      var front, e := AskLevels(events[..|events| - 1]), events[|events| - 1];
      if IsDelta(e) && e.payload.Depth? && e.payload.payload.Fields? && WellFormed(e.payload.payload.asks) then
        front + Parsed(e.payload.payload.asks)
      else front
  }

  lemma EventRowsMean(bids: Side, asks: Side, e: BinanceEvent)
    requires BinanceRecords(e).Some? && BuildersKeepOff([e])
    ensures FoldRecords(bids, asks, BinanceRecords(e).value) ==
      if IsDelta(e) then (ApplyLevels(bids, BidLevels([e])), ApplyLevels(asks, AskLevels([e]))) else (bids, asks)
    ensures !IsDelta(e) ==> BidLevels([e]) == [] && AskLevels([e]) == []
  {
    assert [e][0] == e && [e][..0] == [];
    if IsDelta(e) {
      BinanceRowsMeanTheDelta(e, bids, asks);
      assert [] + Parsed(e.payload.payload.bids) == Parsed(e.payload.payload.bids);
      assert [] + Parsed(e.payload.payload.asks) == Parsed(e.payload.payload.asks);
    } else {
      OtherRowsLeaveTheBook(bids, asks, BinanceRecords(e).value);
    }
  }

  lemma LevelsSnoc(front: seq<BinanceEvent>, e: BinanceEvent)
    ensures BidLevels(front + [e]) == BidLevels(front) + BidLevels([e])
    ensures AskLevels(front + [e]) == AskLevels(front) + AskLevels([e])
  {
    assert (front + [e])[..|front|] == front && [e][..0] == [];
  }

  /** Executing all rows of a normalized list over any book does what its deltas say, in
      order: snapshots, control messages and other channels have no part in it. */
  lemma {:induction false} BinanceRowsMeanTheDeltas(events: seq<BinanceEvent>, bids: Side, asks: Side)
    requires AllRows(BinanceRecords, events).Some? && BuildersKeepOff(events)
    ensures FoldRecords(bids, asks, RecordsIn(AllRows(BinanceRecords, events).value)) ==
      (ApplyLevels(bids, BidLevels(events)), ApplyLevels(asks, AskLevels(events)))
  {
    if events != [] {
      var front, e := events[..|events| - 1], events[|events| - 1];
      assert events == front + [e];
      BinanceRowsMeanTheDeltas(front, bids, asks);
      LevelsSnoc(front, e);
      RowsSnoc(front, e, bids, asks);
    }
  }

  lemma RowsSnoc(front: seq<BinanceEvent>, e: BinanceEvent, bids: Side, asks: Side)
    requires AllRows(BinanceRecords, front + [e]).Some? && BuildersKeepOff(front + [e])
    requires AllRows(BinanceRecords, front).Some?
    requires FoldRecords(bids, asks, RecordsIn(AllRows(BinanceRecords, front).value)) ==
      (ApplyLevels(bids, BidLevels(front)), ApplyLevels(asks, AskLevels(front)))
    ensures FoldRecords(bids, asks, RecordsIn(AllRows(BinanceRecords, front + [e]).value)) ==
      (ApplyLevels(bids, BidLevels(front) + BidLevels([e])), ApplyLevels(asks, AskLevels(front) + AskLevels([e])))
  {
    AllRowsSnoc(BinanceRecords, front, e);
    var before, more := AllRows(BinanceRecords, front).value, BinanceRecords(e).value;
    assert (front + [e])[|front|] == e;
    assert BuildersKeepOff([e]);
    EventRowsMean(ApplyLevels(bids, BidLevels(front)), ApplyLevels(asks, AskLevels(front)), e);
    FoldOneMore(bids, asks, before, e.eventId, more, BidLevels(front), AskLevels(front),
                BidLevels([e]), AskLevels([e]));
  }

  /** The delta as the sequence gate sees it. */
  function AsDepth(e: BinanceEvent): BinanceGate.Event
    requires e.payload.Depth?
  {
    RawEvent(e.exchange, e.channel, e.symbol, e.messageType, e.connectionId,
             e.receiveTsNs, e.receiveSequence, e.eventId,
             e.exchangeTsMs, e.matchingTsMs, e.sequence, e.payload.payload)
  }

  /** What the gate accepts is normalized, too, if its ids are not below one (zero for `pu`), a
      time is given (a matching time of zero does not count) and its levels parse; and only
      then. */
  lemma AcceptedDeltaNormalizesIff(e: BinanceEvent, g: BinanceGate.GateState)
    requires e.payload.Depth? && e.messageType != Snapshot
    requires BinanceGate.Judge(g, e.symbol, AsDepth(e)).1 == BinanceGate.Accepted
    ensures
      var p := e.payload.payload;
      BinanceRecords(e).Some? <==>
        && p.firstId.value >= 1 && p.finalId.value >= 1 && p.previousId.value >= 0
        && ((e.matchingTsMs.Some? && e.matchingTsMs.value != 0) || e.exchangeTsMs.Some?)
        && WellFormed(p.bids) && WellFormed(p.asks)
  {
  }

  /** The list is normalized if and only if every event, wherever it stands, is Binance's and
      either makes no rows, or is a delta whose rows can be made, or is of a known channel whose
      builder makes them. */
  lemma BinanceNormalizesIff(events: seq<BinanceEvent>)
    ensures Normalized(BinanceRecords, BinanceSkips, Sorted(events)).Some? <==>
      forall e :: e in events ==>
        && e.exchange == Binance
        && (e.channel != Control && e.messageType != Snapshot ==>
              if e.channel == Orderbook then DepthRecords(e).Some?
              else e.channel in {Trades, Ticker, Liquidations} && e.payload.Builder? && e.payload.records.Some?)
  {
    AllRowsSomeIff(BinanceRecords, Sorted(events));
    SameMembers(events);
  }

  lemma {:induction false} AllRowsSomeIff<P>(build: RawEvent<P> -> Option<seq<Record>>, events: seq<RawEvent<P>>)
    ensures AllRows(build, events).Some? <==> forall e :: e in events ==> build(e).Some?
  {
    if events != [] {
      AllRowsSomeIff(build, events[..|events| - 1]);
      assert events == events[..|events| - 1] + [events[|events| - 1]];
    }
  }

  lemma SameMembers<P(!new)>(events: seq<RawEvent<P>>)
    ensures forall e :: e in Sorted(events) <==> e in events
  {
    forall e ensures e in Sorted(events) <==> e in events {
      assert e in multiset(Sorted(events)) <==> e in multiset(events);
    }
  }

  // ------------------------------------------------------------- Coinbase

  predicate IsBook(e: CoinbaseEvent) {
    e.channel == Orderbook && e.payload.L2?
  }

  predicate CoinbaseBuildersKeepOff(events: seq<CoinbaseEvent>) {
    forall i :: 0 <= i < |events| && events[i].payload.CoinbaseBuilder? && events[i].payload.records.Some? ==>
      NoBookRows(events[i].payload.records.value)
  }

  /** The updates of all L2 messages that name a side, snapshots and updates alike, in order. */
  function NamingIn(events: seq<CoinbaseEvent>, side: CoinbaseGate.BookSide): seq<Level> {
    if events == [] then []
    else
      var front, e := NamingIn(events[..|events| - 1], side), events[|events| - 1];
      if IsBook(e) && e.payload.payload.EventList? then
        front + CoinbaseReplay.AllNaming(e.payload.payload.entries, side)
      else front
  }

  lemma CoinbaseEventRowsMean(bids: Side, asks: Side, e: CoinbaseEvent)
    requires CoinbaseEventRecords(e).Some? && CoinbaseBuildersKeepOff([e])
    ensures FoldRecords(bids, asks, CoinbaseEventRecords(e).value) ==
      (ApplyLevels(bids, NamingIn([e], CoinbaseGate.Bid)), ApplyLevels(asks, NamingIn([e], CoinbaseGate.Offer)))
  {
    assert [e][0] == e && [e][..0] == [];
    if IsBook(e) {
      var es := e.payload.payload.entries;
      var ls := CoinbaseReplay.SidedLevels(es);
      RecordsMeanLevels(bids, asks, ls);
      CoinbaseReplay.EntriesKeepTheirSide(es);
      assert [] + CoinbaseReplay.AllNaming(es, CoinbaseGate.Bid) == CoinbaseReplay.AllNaming(es, CoinbaseGate.Bid);
      assert [] + CoinbaseReplay.AllNaming(es, CoinbaseGate.Offer) == CoinbaseReplay.AllNaming(es, CoinbaseGate.Offer);
    } else {
      OtherRowsLeaveTheBook(bids, asks, CoinbaseEventRecords(e).value);
    }
  }

  lemma NamingSnoc(front: seq<CoinbaseEvent>, e: CoinbaseEvent, side: CoinbaseGate.BookSide)
    ensures NamingIn(front + [e], side) == NamingIn(front, side) + NamingIn([e], side)
  {
    assert (front + [e])[..|front|] == front && [e][..0] == [];
  }

  /** Executing all rows of a normalized Coinbase list does what its updates say, side by side
      and in order. */
  lemma {:induction false} CoinbaseRowsMeanTheUpdates(events: seq<CoinbaseEvent>, bids: Side, asks: Side)
    requires AllRows(CoinbaseEventRecords, events).Some? && CoinbaseBuildersKeepOff(events)
    ensures FoldRecords(bids, asks, RecordsIn(AllRows(CoinbaseEventRecords, events).value)) ==
      (ApplyLevels(bids, NamingIn(events, CoinbaseGate.Bid)), ApplyLevels(asks, NamingIn(events, CoinbaseGate.Offer)))
  {
    if events != [] {
      var front, e := events[..|events| - 1], events[|events| - 1];
      assert events == front + [e];
      CoinbaseRowsMeanTheUpdates(front, bids, asks);
      NamingSnoc(front, e, CoinbaseGate.Bid);
      NamingSnoc(front, e, CoinbaseGate.Offer);
      CoinbaseRowsSnoc(front, e, bids, asks);
    }
  }

  lemma CoinbaseRowsSnoc(front: seq<CoinbaseEvent>, e: CoinbaseEvent, bids: Side, asks: Side)
    requires AllRows(CoinbaseEventRecords, front + [e]).Some? && CoinbaseBuildersKeepOff(front + [e])
    requires AllRows(CoinbaseEventRecords, front).Some?
    requires FoldRecords(bids, asks, RecordsIn(AllRows(CoinbaseEventRecords, front).value)) ==
      (ApplyLevels(bids, NamingIn(front, CoinbaseGate.Bid)), ApplyLevels(asks, NamingIn(front, CoinbaseGate.Offer)))
    ensures
      var bidLevels := NamingIn(front, CoinbaseGate.Bid) + NamingIn([e], CoinbaseGate.Bid);
      var askLevels := NamingIn(front, CoinbaseGate.Offer) + NamingIn([e], CoinbaseGate.Offer);
      FoldRecords(bids, asks, RecordsIn(AllRows(CoinbaseEventRecords, front + [e]).value)) ==
        (ApplyLevels(bids, bidLevels), ApplyLevels(asks, askLevels))
  {
    AllRowsSnoc(CoinbaseEventRecords, front, e);
    var before, more := AllRows(CoinbaseEventRecords, front).value, CoinbaseEventRecords(e).value;
    assert (front + [e])[|front|] == e;
    assert CoinbaseBuildersKeepOff([e]);
    var bidsBefore, asksBefore := NamingIn(front, CoinbaseGate.Bid), NamingIn(front, CoinbaseGate.Offer);
    CoinbaseEventRowsMean(ApplyLevels(bids, bidsBefore), ApplyLevels(asks, asksBefore), e);
    FoldOneMore(bids, asks, before, e.eventId, more, bidsBefore, asksBefore,
                NamingIn([e], CoinbaseGate.Bid), NamingIn([e], CoinbaseGate.Offer));
  }

  /** An L2 message is normalized if and only if the replay can read it and finds it addressed
      to one product, every entry names that product, and every update's time parses. */
  lemma BookMessageNormalizesIff(e: CoinbaseEvent)
    requires IsBook(e)
    ensures CoinbaseEventRecords(e).Some? <==>
      && e.exchange == Coinbase && CoinbaseSession.Addressed(AsL2(e)) && CoinbaseSession.MessageOf(AsL2(e)).Message?
      && (forall i :: 0 <= i < |e.payload.payload.entries| ==> e.payload.payload.entries[i].product == e.symbol)
      && e.payload.timesParse
  {
  }

  /** The list is normalized if and only if every event, wherever it stands, is Coinbase's and
      is a control message, or for one product and either an L2 message whose rows can be made
      or of a channel whose builder makes them. */
  lemma CoinbaseNormalizesIff(events: seq<CoinbaseEvent>)
    ensures Normalized(CoinbaseEventRecords, CoinbaseSkips, Sorted(events)).Some? <==>
      forall e :: e in events ==>
        && e.exchange == Coinbase
        && (e.channel != Control ==>
              && e.symbol != "ALL" && e.symbol != "MULTI"
              && if e.channel == Orderbook then e.payload.L2? && CoinbaseEventRecords(e).Some?
                 else e.channel in {Trades, Ticker} && e.payload.CoinbaseBuilder? && e.payload.records.Some?)
  {
    AllRowsSomeIff(CoinbaseEventRecords, Sorted(events));
    SameMembers(events);
  }
}
