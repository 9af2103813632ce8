/** The two normalization entry points: sort the raw events, make the rows of each, and
    report (src/data/binance_normalized_event.py, src/data/coinbase_normalized_event.py). */
module Normalization {
  import opened Common
  import opened EventOrder
  import opened Silver
  import CoinbaseGate
  import CoinbaseReplay

  // -------------------------------------------------- one event's records

  /** `normalize_binance_event`: control and snapshot events make no rows. */
  function BinanceRecords(e: BinanceEvent): Option<seq<Record>> {
    if e.exchange != Binance then None
    else if e.channel == Control || e.messageType == Snapshot then Some([])
    else if e.channel == Orderbook then DepthRecords(e)
    else if e.channel == OtherChannel || e.payload.Depth? then None
    else e.payload.records
  }

  predicate BinanceSkips(e: BinanceEvent) {
    e.channel == Control || e.messageType == Snapshot
  }

  /** The payload of a Coinbase event of any channel: an L2 message and whether its event
      times parse, or what the record builder of another channel makes of its message. */
  datatype CoinbaseMessage =
    | L2(payload: CoinbaseGate.Payload, timesParse: bool)
    | CoinbaseBuilder(records: Option<seq<Record>>)

  type CoinbaseEvent = RawEvent<CoinbaseMessage>

  function AsL2(e: CoinbaseEvent): CoinbaseReplay.Event
    requires e.payload.L2?
  {
    RawEvent(e.exchange, e.channel, e.symbol, e.messageType, e.connectionId,
             e.receiveTsNs, e.receiveSequence, e.eventId,
             e.exchangeTsMs, e.matchingTsMs, e.sequence, e.payload.payload)
  }

  /** `normalize_coinbase_event`: only control events make no rows; snapshots do. */
  function CoinbaseEventRecords(e: CoinbaseEvent): Option<seq<Record>> {
    if e.exchange != Coinbase then None
    else if e.channel == Control then Some([])
    else if e.symbol == "ALL" || e.symbol == "MULTI" then None
    else if e.channel == Orderbook then if e.payload.L2? then CoinbaseRecords(AsL2(e), e.payload.timesParse) else None
    else if (e.channel == Trades || e.channel == Ticker) && e.payload.CoinbaseBuilder? then e.payload.records
    else None
  }

  predicate CoinbaseSkips(e: CoinbaseEvent) {
    e.channel == Control
  }

  // ------------------------------------------------- rows of all events

  function RowsOf(eventId: nat, records: seq<Record>): (rows: seq<Row>)
    ensures |rows| == |records|
    ensures forall i :: 0 <= i < |rows| ==> rows[i] == Row(eventId, i, records[i])
  {
    seq(|records|, i requires 0 <= i < |records| => Row(eventId, i, records[i]))
  }

  /** The rows of a list of events, one event after another; None if one raises. */
  function AllRows<P>(build: RawEvent<P> -> Option<seq<Record>>, events: seq<RawEvent<P>>): Option<seq<Row>> {
    if events == [] then Some([])
    else
      var front, e := AllRows(build, events[..|events| - 1]), events[|events| - 1];
      if front.None? || build(e).None? then None
      else Some(front.value + RowsOf(e.eventId, build(e).value))
  }

  lemma AllRowsSnoc<P>(build: RawEvent<P> -> Option<seq<Record>>, events: seq<RawEvent<P>>, e: RawEvent<P>)
    ensures AllRows(build, events + [e]) ==
      if AllRows(build, events).None? || build(e).None? then None
      else Some(AllRows(build, events).value + RowsOf(e.eventId, build(e).value))
  {
    assert (events + [e])[..|events|] == events;
  }

  lemma {:induction false} RaiseEnds<P>(build: RawEvent<P> -> Option<seq<Record>>, events: seq<RawEvent<P>>, n: nat)
    requires n <= |events| && AllRows(build, events[..n]).None?
    ensures AllRows(build, events).None?
  {
    if n == |events| {
      assert events[..n] == events;
    } else {
      assert events[..|events| - 1][..n] == events[..n];
      RaiseEnds(build, events[..|events| - 1], n);
    }
  }

  // ---------------------------------------------------------- the report

  datatype Kind = BookKind | TradeKind | TickerKind | LiquidationKind

  function KindOf(r: Record): Kind {
    match r
    case BookLevel(_, _, _, _) => BookKind
    case TradeRecord => TradeKind
    case TickerMetric => TickerKind
    case LiquidationRecord => LiquidationKind
  }

  datatype Report = Report(
    rawEventCount: nat, rowCount: nat, skipped: nat, channelCounts: map<Channel, nat>, recordCounts: map<Kind, nat>)

  function ChannelTotal(m: map<Channel, nat>): nat {
    CountOf(m, Orderbook) + CountOf(m, Trades) + CountOf(m, Ticker) + CountOf(m, Liquidations)
    + CountOf(m, Control) + CountOf(m, OtherChannel)
  }

  function KindTotal(m: map<Kind, nat>): nat {
    CountOf(m, BookKind) + CountOf(m, TradeKind) + CountOf(m, TickerKind) + CountOf(m, LiquidationKind)
  }

  function IsOn<P>(c: Channel): RawEvent<P> -> bool {
    (e: RawEvent<P>) => e.channel == c
  }

  function IsKind(k: Kind): Row -> bool {
    (r: Row) => KindOf(r.record) == k
  }

  function ChannelCounts<P>(events: seq<RawEvent<P>>): map<Channel, nat> {
    if events == [] then map[] else Bump(ChannelCounts(events[..|events| - 1]), events[|events| - 1].channel)
  }

  function KindCounts(rows: seq<Row>): map<Kind, nat> {
    if rows == [] then map[] else Bump(KindCounts(rows[..|rows| - 1]), KindOf(rows[|rows| - 1].record))
  }

  lemma ChannelCountsSnoc<P>(events: seq<RawEvent<P>>, e: RawEvent<P>)
    ensures ChannelCounts(events + [e]) == Bump(ChannelCounts(events), e.channel)
  {
    assert (events + [e])[..|events|] == events;
  }

  lemma KindCountsSnoc(rows: seq<Row>, r: Row)
    ensures KindCounts(rows + [r]) == Bump(KindCounts(rows), KindOf(r.record))
  {
    assert (rows + [r])[..|rows|] == rows;
  }

  lemma BumpChannel(m: map<Channel, nat>, c: Channel)
    ensures ChannelTotal(Bump(m, c)) == ChannelTotal(m) + 1
  {
    match c
    case Orderbook =>
    case Trades =>
    case Ticker =>
    case Liquidations =>
    case Control =>
    case OtherChannel =>
  }

  lemma BumpKind(m: map<Kind, nat>, k: Kind)
    ensures KindTotal(Bump(m, k)) == KindTotal(m) + 1
  {
    match k
    case BookKind =>
    case TradeKind =>
    case TickerKind =>
    case LiquidationKind =>
  }

  lemma {:induction false} ChannelTotalIsRight<P>(events: seq<RawEvent<P>>)
    ensures ChannelTotal(ChannelCounts(events)) == |events|
  {
    if events != [] {
      var front, e := events[..|events| - 1], events[|events| - 1];
      ChannelTotalIsRight(front);
      BumpChannel(ChannelCounts(front), e.channel);
    }
  }

  lemma {:induction false} ChannelCountsAreRight<P>(events: seq<RawEvent<P>>, c: Channel)
    ensures CountOf(ChannelCounts(events), c) == |Filter(events, IsOn(c))|
  {
    if events != [] {
      var front, e := events[..|events| - 1], events[|events| - 1];
      assert events == front + [e];
      ChannelCountsAreRight(front, c);
      FilterSnoc(front, e, IsOn(c));
    }
  }

  lemma {:induction false} KindTotalIsRight(rows: seq<Row>)
    ensures KindTotal(KindCounts(rows)) == |rows|
  {
    if rows != [] {
      var front, r := rows[..|rows| - 1], rows[|rows| - 1];
      KindTotalIsRight(front);
      BumpKind(KindCounts(front), KindOf(r.record));
    }
  }

  lemma {:induction false} KindCountsAreRight(rows: seq<Row>, k: Kind)
    ensures CountOf(KindCounts(rows), k) == |Filter(rows, IsKind(k))|
  {
    if rows != [] {
      var front, r := rows[..|rows| - 1], rows[|rows| - 1];
      assert rows == front + [r];
      KindCountsAreRight(front, k);
      FilterSnoc(front, r, IsKind(k));
    }
  }

  /** The report of a list of events and their rows. */
  function ReportOf<P>(skips: RawEvent<P> -> bool, events: seq<RawEvent<P>>, rows: seq<Row>): Report {
    Report(|events|, |rows|, |Filter(events, skips)|, ChannelCounts(events), KindCounts(rows))
  }

  /** What the entry points return, or None if they raise. */
  function Normalized<P>(build: RawEvent<P> -> Option<seq<Record>>, skips: RawEvent<P> -> bool,
                         ordered: seq<RawEvent<P>>)
    : Option<(seq<Row>, Report)>
  {
    match AllRows(build, ordered)
    case None => None
    case Some(rows) => Some((rows, ReportOf(skips, ordered, rows)))
  }

  /** The report conserves counts: channel totals add up to the raw events, record totals to
      the rows, and each is the number of events on that channel or rows of that kind. */
  lemma ReportConservesCounts<P(!new)>(
      build: RawEvent<P> -> Option<seq<Record>>, skips: RawEvent<P> -> bool,
      events: seq<RawEvent<P>>, c: Channel, k: Kind)
    requires Normalized(build, skips, Sorted(events)).Some?
    ensures
      var (rows, report) := Normalized(build, skips, Sorted(events)).value;
      && ChannelTotal(report.channelCounts) == report.rawEventCount == |events|
      && KindTotal(report.recordCounts) == report.rowCount == |rows|
      && CountOf(report.channelCounts, c) == |Filter(Sorted(events), IsOn(c))|
      && CountOf(report.recordCounts, k) == |Filter(rows, IsKind(k))|
  {
    var rows := AllRows(build, Sorted(events)).value;
    ChannelTotalIsRight(Sorted(events));
    ChannelCountsAreRight(Sorted(events), c);
    KindTotalIsRight(rows);
    KindCountsAreRight(rows, k);
    assert |multiset(Sorted(events))| == |multiset(events)|;
  }

  /** Neither the rows nor the report depend on the order in which the events arrive. */
  lemma NormalizationIsDeterministic<P(!new)>(
      build: RawEvent<P> -> Option<seq<Record>>, skips: RawEvent<P> -> bool,
      events: seq<RawEvent<P>>, shuffled: seq<RawEvent<P>>)
    requires KeysIdentify(events) && multiset(shuffled) == multiset(events)
    ensures Normalized(build, skips, Sorted(shuffled)) == Normalized(build, skips, Sorted(events))
  {
    SortedPermutation(events, shuffled);
  }

  // ------------------------------------------------------------ the loops

  /** What the loop of an entry point has collected. */
  datatype Tally = Tally(rows: seq<Row>, skipped: nat, channelCounts: map<Channel, nat>, recordCounts: map<Kind, nat>)

  const NOTHING := Tally([], 0, map[], map[])

  ghost predicate Collected<P>(
      build: RawEvent<P> -> Option<seq<Record>>, skips: RawEvent<P> -> bool, events: seq<RawEvent<P>>, t: Tally)
  {
    && AllRows(build, events) == Some(t.rows)
    && t.skipped == |Filter(events, skips)|
    && t.channelCounts == ChannelCounts(events) && t.recordCounts == KindCounts(t.rows)
  }

  lemma CollectedSnoc<P>(
      build: RawEvent<P> -> Option<seq<Record>>, skips: RawEvent<P> -> bool,
      events: seq<RawEvent<P>>, e: RawEvent<P>, t: Tally, n: Tally)
    requires Collected(build, skips, events, t) && build(e).Some?
    requires n.rows == t.rows + RowsOf(e.eventId, build(e).value) && n.recordCounts == KindCounts(n.rows)
    requires n.skipped == t.skipped + (if skips(e) then 1 else 0) && n.channelCounts == Bump(t.channelCounts, e.channel)
    ensures Collected(build, skips, events + [e], n)
  {
    AllRowsSnoc(build, events, e);
    FilterSnoc(events, e, skips);
    ChannelCountsSnoc(events, e);
  }

  /** The body of the loop: count the event, append and count its rows. */
  method TakeEvent(t: Tally, eventId: nat, channel: Channel, skip: bool, records: seq<Record>) returns (n: Tally)
    requires t.recordCounts == KindCounts(t.rows)
    ensures n.rows == t.rows + RowsOf(eventId, records) && n.recordCounts == KindCounts(n.rows)
    ensures n.skipped == t.skipped + (if skip then 1 else 0) && n.channelCounts == Bump(t.channelCounts, channel)
  {
    var more := RowsOf(eventId, records);
    var rows, counts := t.rows, t.recordCounts;
    for i := 0 to |more|
      invariant rows == t.rows + more[..i] && counts == KindCounts(rows)
    {
      KindCountsSnoc(rows, more[i]);
      rows := rows + [more[i]];
      counts := Bump(counts, KindOf(more[i].record));
    }
    assert more[..|more|] == more;
    return Tally(rows, t.skipped + (if skip then 1 else 0), Bump(t.channelCounts, channel), counts);
  }

  method BuildBinance(e: BinanceEvent) returns (r: Option<seq<Record>>)
    ensures r == BinanceRecords(e)
  {
    if e.exchange != Binance {
      return None;
    }
    if e.channel == Control || e.messageType == Snapshot {
      return Some([]);
    }
    if e.channel == Orderbook {
      r := OrderbookRecords(e);
    } else if e.channel == OtherChannel || e.payload.Depth? {
      return None;
    } else {
      return e.payload.records;
    }
  }

  method BuildCoinbase(e: CoinbaseEvent) returns (r: Option<seq<Record>>)
    ensures r == CoinbaseEventRecords(e)
  {
    if e.exchange != Coinbase {
      return None;
    }
    if e.channel == Control {
      return Some([]);
    }
    if e.symbol == "ALL" || e.symbol == "MULTI" {
      return None;
    }
    if e.channel == Orderbook {
      if !e.payload.L2? {
        return None;
      }
      r := BookRecords(AsL2(e), e.payload.timesParse);
    } else if (e.channel == Trades || e.channel == Ticker) && e.payload.CoinbaseBuilder? {
      return e.payload.records;
    } else {
      return None;
    }
  }

  lemma PrefixSnoc<T>(xs: seq<T>, i: nat)
    requires i < |xs|
    ensures xs[..i + 1] == xs[..i] + [xs[i]]
  {
  }

  /** `normalize_binance_events`. */
  method NormalizeBinanceEvents(events: seq<BinanceEvent>) returns (r: Option<(seq<Row>, Report)>)
    ensures r == Normalized(BinanceRecords, BinanceSkips, Sorted(events))
  {
    var ordered := Sorted(events);
    var t := NOTHING;
    for i := 0 to |ordered|
      invariant Collected(BinanceRecords, BinanceSkips, ordered[..i], t)
    {
      var e := ordered[i];
      PrefixSnoc(ordered, i);
      var records := BuildBinance(e);
      if records.None? {
        AllRowsSnoc(BinanceRecords, ordered[..i], e);
        RaiseEnds(BinanceRecords, ordered, i + 1);
        return None;
      }
      var n := TakeEvent(t, e.eventId, e.channel, BinanceSkips(e), records.value);
      CollectedSnoc(BinanceRecords, BinanceSkips, ordered[..i], e, t, n);
      t := n;
    }
    assert ordered[..|ordered|] == ordered;
    return Some((t.rows, Report(|ordered|, |t.rows|, t.skipped, t.channelCounts, t.recordCounts)));
  }

  /** `normalize_coinbase_events`. */
  method NormalizeCoinbaseEvents(events: seq<CoinbaseEvent>) returns (r: Option<(seq<Row>, Report)>)
    ensures r == Normalized(CoinbaseEventRecords, CoinbaseSkips, Sorted(events))
  {
    var ordered := Sorted(events);
    var t := NOTHING;
    for i := 0 to |ordered|
      invariant Collected(CoinbaseEventRecords, CoinbaseSkips, ordered[..i], t)
    {
      var e := ordered[i];
      PrefixSnoc(ordered, i);
      var records := BuildCoinbase(e);
      if records.None? {
        AllRowsSnoc(CoinbaseEventRecords, ordered[..i], e);
        RaiseEnds(CoinbaseEventRecords, ordered, i + 1);
        return None;
      }
      var n := TakeEvent(t, e.eventId, e.channel, CoinbaseSkips(e), records.value);
      CollectedSnoc(CoinbaseEventRecords, CoinbaseSkips, ordered[..i], e, t, n);
      t := n;
    }
    assert ordered[..|ordered|] == ordered;
    return Some((t.rows, Report(|ordered|, |t.rows|, t.skipped, t.channelCounts, t.recordCounts)));
  }
}
