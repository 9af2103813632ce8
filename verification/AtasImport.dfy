/** Accepting an ATAS history export (src/data/atas_history_bridge.py). Timestamps are
    microseconds; `None` is one that is missing or not UTC. */
module AtasImport {
  import opened Common
  import Sorting

  datatype Quote = Quote(price: real, volume: real)

  datatype Header = Header(
    schemaVersion: int, source: string, namesPresent: bool, requestedFrom: Option<int>, requestedTo: Option<int>,
    exportedAt: Option<int>, pathSafe: bool)

  /** A footer count is None when it is not a non-negative integer. */
  datatype Footer = Footer(complete: bool, tradeCount: Option<nat>, depthCount: Option<nat>)

  datatype Record =
    | Unreadable                                          // blank line, bad JSON, not an object, unknown type
    | HeaderRecord(header: Header)
    | TradeRecord(timestamp: Option<int>, fieldsValid: bool)
    | DepthRecord(timestamp: Option<int>, bids: seq<Quote>, asks: seq<Quote>)
    | FooterRecord(footer: Footer)

  const SCHEMA_VERSION := 1
  const SEVEN_DAYS := 604_800_000_000

  // ------------------------------------------------------------- one side

  /** Whether a stable sort by price, ascending or descending, may put a before b. */
  predicate InPlace(a: Quote, b: Quote, reverse: bool) {
    if reverse then a.price >= b.price else a.price <= b.price
  }

  function Order(reverse: bool): (Quote, Quote) -> bool {
    (a, b) => InPlace(a, b, reverse)
  }

  /** `sorted(levels, key=price, reverse=reverse)`. */
  function Sorted(xs: seq<Quote>, reverse: bool): seq<Quote> {
    Sorting.Sorted(xs, Order(reverse))
  }

  predicate PositiveQuotes(xs: seq<Quote>) {
    forall i :: 0 <= i < |xs| ==> xs[i].price > 0.0 && xs[i].volume > 0.0
  }

  predicate DistinctPrices(xs: seq<Quote>) {
    forall i, j :: 0 <= i < j < |xs| ==> xs[i].price != xs[j].price
  }

  /** `_levels` accepts: positive, equal to its own sorting, and without repeated prices. */
  predicate SideAccepted(xs: seq<Quote>, reverse: bool) {
    PositiveQuotes(xs) && xs == Sorted(xs, reverse) && DistinctPrices(xs)
  }

  predicate Strictly(a: Quote, b: Quote, reverse: bool) {
    if reverse then a.price > b.price else a.price < b.price
  }

  ghost predicate StrictlyOrdered(xs: seq<Quote>, reverse: bool) {
    forall i, j :: 0 <= i < j < |xs| ==> Strictly(xs[i], xs[j], reverse)
  }

  /** Comparing with a sorted copy and counting distinct prices is demanding strict order. */
  lemma SideAcceptedIff(xs: seq<Quote>, reverse: bool)
    ensures SideAccepted(xs, reverse) <==>
      (forall q :: q in xs ==> q.price > 0.0 && q.volume > 0.0) && StrictlyOrdered(xs, reverse)
  {
    Sorting.SortedOrders(xs, Order(reverse));
    if StrictlyOrdered(xs, reverse) {
      Sorting.SortedOfOrdered(xs, Order(reverse));
    }
    if SideAccepted(xs, reverse) {
      forall i, j | 0 <= i < j < |xs| ensures Strictly(xs[i], xs[j], reverse) {
        assert Order(reverse)(xs[i], xs[j]);
      }
    }
  }

  predicate DepthAccepted(bids: seq<Quote>, asks: seq<Quote>) {
    && SideAccepted(bids, true) && SideAccepted(asks, false)
    && bids != [] && asks != [] && bids[0].price < asks[0].price
  }

  /** Both sides quote something, at positive prices and volumes, the best first and no price
      twice, and every bid is below every ask. */
  ghost predicate ProperBook(bids: seq<Quote>, asks: seq<Quote>) {
    && bids != [] && asks != []
    && (forall q :: q in bids || q in asks ==> q.price > 0.0 && q.volume > 0.0)
    && (forall i, j :: 0 <= i < j < |bids| ==> bids[i].price > bids[j].price)
    && (forall i, j :: 0 <= i < j < |asks| ==> asks[i].price < asks[j].price)
    && (forall b, a :: b in bids && a in asks ==> b.price < a.price)
  }

  lemma HeadsDecide(bids: seq<Quote>, asks: seq<Quote>, b: Quote, a: Quote)
    requires StrictlyOrdered(bids, true) && StrictlyOrdered(asks, false)
    requires bids != [] && asks != [] && bids[0].price < asks[0].price && b in bids && a in asks
    ensures b.price < a.price
  {
    var i :| 0 <= i < |bids| && bids[i] == b;
    var j :| 0 <= j < |asks| && asks[j] == a;
    assert i > 0 ==> Strictly(bids[0], bids[i], true);
    assert j > 0 ==> Strictly(asks[0], asks[j], false);
  }

  lemma StrictlyDescending(xs: seq<Quote>)
    ensures StrictlyOrdered(xs, true) <==> forall i, j :: 0 <= i < j < |xs| ==> xs[i].price > xs[j].price
  {
    if StrictlyOrdered(xs, true) {
      forall i, j | 0 <= i < j < |xs| ensures xs[i].price > xs[j].price {
        assert Strictly(xs[i], xs[j], true);
      }
    }
  }

  lemma StrictlyAscending(xs: seq<Quote>)
    ensures StrictlyOrdered(xs, false) <==> forall i, j :: 0 <= i < j < |xs| ==> xs[i].price < xs[j].price
  {
    if StrictlyOrdered(xs, false) {
      forall i, j | 0 <= i < j < |xs| ensures xs[i].price < xs[j].price {
        assert Strictly(xs[i], xs[j], false);
      }
    }
  }

  /** Only the heads are compared; every bid is below every ask all the same. */
  lemma DepthAcceptedIff(bids: seq<Quote>, asks: seq<Quote>)
    ensures DepthAccepted(bids, asks) <==> ProperBook(bids, asks)
  {
    SideAcceptedIff(bids, true);
    SideAcceptedIff(asks, false);
    StrictlyDescending(bids);
    StrictlyAscending(asks);
    if DepthAccepted(bids, asks) {
      forall b, a | b in bids && a in asks ensures b.price < a.price {
        HeadsDecide(bids, asks, b, a);
      }
    }
  }

  // ------------------------------------------------------------ the export

  predicate BodyRecord(r: Record) {
    || (r.TradeRecord? && r.timestamp.Some? && r.fieldsValid)
    || (r.DepthRecord? && r.timestamp.Some? && DepthAccepted(r.bids, r.asks))
  }

  function Time(r: Record): int
    requires BodyRecord(r)
  {
    r.timestamp.value
  }

  function TradeCount(rs: seq<Record>): nat {
    if rs == [] then 0 else TradeCount(rs[..|rs| - 1]) + if rs[|rs| - 1].TradeRecord? then 1 else 0
  }

  function DepthCount(rs: seq<Record>): nat {
    if rs == [] then 0 else DepthCount(rs[..|rs| - 1]) + if rs[|rs| - 1].DepthRecord? then 1 else 0
  }

  /** Valid records whose timestamps never step back. */
  ghost predicate ValidBody(rs: seq<Record>) {
    && (forall i :: 0 <= i < |rs| ==> BodyRecord(rs[i]))
    && (forall i :: 0 <= i < |rs| - 1 ==> Time(rs[i]) <= Time(rs[i + 1]))
  }

  predicate EnvelopeValid(h: Header, f: Footer) {
    && h.schemaVersion == SCHEMA_VERSION && h.source == "atas" && h.namesPresent && h.exportedAt.Some? && f.complete
    && h.requestedFrom.Some? && h.requestedTo.Some? && h.pathSafe
    && 0 < h.requestedTo.value - h.requestedFrom.value <= SEVEN_DAYS
  }

  /** Exactly a header, valid records, and a footer with their counts. */
  ghost predicate WellFormedExport(rs: seq<Record>) {
    && |rs| >= 2 && rs[0].HeaderRecord? && rs[|rs| - 1].FooterRecord?
    && var body, h, f := rs[1..|rs| - 1], rs[0].header, rs[|rs| - 1].footer;
       && ValidBody(body) && body != []
       && EnvelopeValid(h, f)
       && f.tradeCount == Some(TradeCount(body)) && f.depthCount == Some(DepthCount(body))
       && h.requestedFrom.value <= Time(body[0]) && Time(body[|body| - 1]) <= h.requestedTo.value
  }

  datatype Scan = Scan(
    header: Option<Header>, footer: Option<Footer>, trades: nat, depths: nat, first: Option<int>, previous: Option<int>)

  /** What the record loop has established after n records that did not raise. */
  ghost predicate Scanned(rs: seq<Record>, n: nat, s: Scan)
    requires n <= |rs|
  {
    && (n == 0 ==> s == Scan(None, None, 0, 0, None, None))
    && (n > 0 ==>
          && rs[0].HeaderRecord? && s.header == Some(rs[0].header)
          && var end := if s.footer.Some? then n - 1 else n;
             && 1 <= end && (s.footer.Some? ==> rs[n - 1].FooterRecord? && s.footer == Some(rs[n - 1].footer))
             && var body := rs[1..end];
                && ValidBody(body)
                && s.trades == TradeCount(body) && s.depths == DepthCount(body)
                && s.first == (if body == [] then None else Some(Time(body[0])))
                && s.previous == (if body == [] then None else Some(Time(body[|body| - 1]))))
  }

  /** One record of the loop; None if it raises. */
  function ScanRecord(s: Scan, r: Record, lineNumber: nat): Option<Scan> {
    if r.Unreadable? || s.footer.Some? then None
    else if r.HeaderRecord? then
      if s.header.Some? || lineNumber != 1 then None else Some(s.(header := Some(r.header)))
    else if s.header.None? then None
    else if r.FooterRecord? then Some(s.(footer := Some(r.footer)))
    else if !BodyRecord(r) || (s.previous.Some? && Time(r) < s.previous.value) then None
    else
      Some(s.(trades := s.trades + (if r.TradeRecord? then 1 else 0),
              depths := s.depths + (if r.DepthRecord? then 1 else 0),
              first := (if s.first.None? then Some(Time(r)) else s.first),
              previous := Some(Time(r))))
  }

  lemma BodyExtends(body: seq<Record>, r: Record)
    requires ValidBody(body) && BodyRecord(r) && (body == [] || Time(body[|body| - 1]) <= Time(r))
    ensures ValidBody(body + [r])
  {
    var all := body + [r];
    forall i | 0 <= i < |all| ensures BodyRecord(all[i]) {
      assert i < |body| ==> all[i] == body[i];
    }
    forall i | 0 <= i < |all| - 1 ensures Time(all[i]) <= Time(all[i + 1]) {
      assert all[i] == body[i];
      assert i < |body| - 1 ==> all[i + 1] == body[i + 1] && Time(body[i]) <= Time(body[i + 1]);
    }
  }

  lemma CountsExtend(body: seq<Record>, r: Record)
    ensures TradeCount(body + [r]) == TradeCount(body) + if r.TradeRecord? then 1 else 0
    ensures DepthCount(body + [r]) == DepthCount(body) + if r.DepthRecord? then 1 else 0
  {
    assert (body + [r])[..|body|] == body;
  }

  lemma ScanStep(rs: seq<Record>, n: nat, s: Scan)
    requires n < |rs| && Scanned(rs, n, s) && ScanRecord(s, rs[n], n + 1).Some?
    ensures Scanned(rs, n + 1, ScanRecord(s, rs[n], n + 1).value)
  {
    if n > 0 && !rs[n].FooterRecord? {
      assert rs[1..n + 1] == rs[1..n] + [rs[n]];
      BodyExtends(rs[1..n], rs[n]);
      CountsExtend(rs[1..n], rs[n]);
    }
  }

  /** A well-formed export gets past every record of the loop. */
  lemma WellFormedScans(rs: seq<Record>, n: nat, s: Scan)
    requires WellFormedExport(rs) && n < |rs| && Scanned(rs, n, s)
    ensures ScanRecord(s, rs[n], n + 1).Some?
  {
    var body := rs[1..|rs| - 1];
    if 0 < n {
      assert n > 1 ==> BodyRecord(body[n - 2]);
      if s.footer.Some? {
        assert false; // the record before this one is not a footer
      }
      if n < |rs| - 1 {
        assert BodyRecord(body[n - 1]);
        if n > 1 { assert Time(body[n - 2]) <= Time(body[n - 2 + 1]); }
      }
    }
  }

  /** What the checks after the loop demand of the scan. */
  predicate ScanAccepted(s: Scan) {
    && s.header.Some? && s.footer.Some? && EnvelopeValid(s.header.value, s.footer.value)
    && s.footer.value.tradeCount == Some(s.trades) && s.footer.value.depthCount == Some(s.depths)
    && s.trades + s.depths > 0
    && (s.first.Some? ==> s.header.value.requestedFrom.value <= s.first.value)
    && (s.previous.Some? ==> s.previous.value <= s.header.value.requestedTo.value)
  }

  /** The checks after the loop. */
  method FinalChecks(s: Scan) returns (accepted: bool)
    ensures accepted <==> ScanAccepted(s)
  {
    if s.header.None? || s.footer.None? {
      return false;
    }
    var h, f := s.header.value, s.footer.value;
    if h.schemaVersion != SCHEMA_VERSION || h.source != "atas" || !h.namesPresent || h.exportedAt.None? || !f.complete {
      return false;
    }
    if f.tradeCount != Some(s.trades) || f.depthCount != Some(s.depths) || s.trades + s.depths == 0 {
      return false;
    }
    if h.requestedFrom.None? || h.requestedTo.None? {
      return false;
    }
    var from, to := h.requestedFrom.value, h.requestedTo.value;
    if to <= from || to - from > SEVEN_DAYS {
      return false;
    }
    if s.first.Some? && s.first.value < from {
      return false;
    }
    if s.previous.Some? && s.previous.value > to {
      return false;
    }
    return h.pathSafe;
  }

  lemma {:induction false} CountsCoverBody(body: seq<Record>)
    requires forall i :: 0 <= i < |body| ==> BodyRecord(body[i])
    ensures TradeCount(body) + DepthCount(body) == |body|
  {
    if body != [] {
      CountsCoverBody(body[..|body| - 1]);
    }
  }

  /** `ingest_atas_history_export` accepts exactly the proper exports. */
  method Ingest(rs: seq<Record>) returns (accepted: bool)
    ensures accepted <==> ProperExport(rs)
  {
    var s := Scan(None, None, 0, 0, None, None);
    for n := 0 to |rs|
      invariant Scanned(rs, n, s)
    {
      var next := ScanRecord(s, rs[n], n + 1);
      if next.None? {
        if ProperExport(rs) {
          ProperIsWellFormed(rs);
          WellFormedScans(rs, n, s);
          assert false;
        }
        return false;
      }
      ScanStep(rs, n, s);
      s := next.value;
    }
    accepted := FinalChecks(s);
    ScanDecides(rs, s, accepted);
    WellFormedIff(rs);
  }

  lemma ScanDecides(rs: seq<Record>, s: Scan, accepted: bool)
    requires Scanned(rs, |rs|, s)
    requires accepted <==> ScanAccepted(s)
    ensures accepted <==> WellFormedExport(rs)
  {
    if |rs| > 0 && s.footer.Some? {
      CountsCoverBody(rs[1..|rs| - 1]);
    }
    if |rs| > 1 && s.footer.None? {
      assert BodyRecord(rs[1..|rs|][|rs| - 2]);
    }
  }

  lemma {:induction false} BodyAscends(body: seq<Record>, i: nat, j: nat)
    requires ValidBody(body) && i <= j < |body|
    ensures Time(body[i]) <= Time(body[j])
    decreases j
  {
    if i < j {
      BodyAscends(body, i, j - 1);
      assert Time(body[j - 1]) <= Time(body[j - 1 + 1]);
    }
  }

  /** The requested window: longer than nothing and no longer than seven days, in microseconds. */
  ghost predicate ProperRequest(h: Header) {
    && h.schemaVersion == 1 && h.source == "atas" && h.namesPresent && h.pathSafe && h.exportedAt.Some?
    && h.requestedFrom.Some? && h.requestedTo.Some?
    && h.requestedFrom.value < h.requestedTo.value
    && h.requestedTo.value - h.requestedFrom.value <= 7 * 24 * 3600 * 1_000_000
  }

  /** A trade or a depth snapshot that could be true, within the requested window. */
  ghost predicate ProperRecord(h: Header, r: Record)
    requires ProperRequest(h)
  {
    && (|| (r.TradeRecord? && r.fieldsValid)
        || (r.DepthRecord? && ProperBook(r.bids, r.asks)))
    && r.timestamp.Some? && h.requestedFrom.value <= r.timestamp.value <= h.requestedTo.value
  }

  /** What an export should be: a header, records of which every one is proper and none is
      older than one before it, and a footer that counts them. */
  ghost predicate ProperExport(rs: seq<Record>) {
    && |rs| >= 3 && rs[0].HeaderRecord? && ProperRequest(rs[0].header)
    && (forall i :: 0 < i < |rs| - 1 ==> ProperRecord(rs[0].header, rs[i]))
    && (forall i, j :: 0 < i < j < |rs| - 1 ==> rs[i].timestamp.value <= rs[j].timestamp.value)
    && rs[|rs| - 1].FooterRecord? && rs[|rs| - 1].footer.complete
    && rs[|rs| - 1].footer.tradeCount == Some(|Filter(rs, (r: Record) => r.TradeRecord?)|)
    && rs[|rs| - 1].footer.depthCount == Some(|Filter(rs, (r: Record) => r.DepthRecord?)|)
  }

  lemma {:induction false} CountsAreFilters(rs: seq<Record>)
    ensures TradeCount(rs) == |Filter(rs, (r: Record) => r.TradeRecord?)|
    ensures DepthCount(rs) == |Filter(rs, (r: Record) => r.DepthRecord?)|
  {
    if rs != [] {
      var front, r := rs[..|rs| - 1], rs[|rs| - 1];
      assert rs == front + [r];
      CountsAreFilters(front);
      FilterSnoc(front, r, (x: Record) => x.TradeRecord?);
      FilterSnoc(front, r, (x: Record) => x.DepthRecord?);
    }
  }

  lemma EndsDoNotCount(rs: seq<Record>)
    requires |rs| >= 2 && rs[0].HeaderRecord? && rs[|rs| - 1].FooterRecord?
    ensures TradeCount(rs[1..|rs| - 1]) == TradeCount(rs) && DepthCount(rs[1..|rs| - 1]) == DepthCount(rs)
  {
    var body := rs[1..|rs| - 1];
    assert rs == [rs[0]] + body + [rs[|rs| - 1]];
    CountsExtend([rs[0]] + body, rs[|rs| - 1]);
    HeadDoesNotCount(rs[0], body);
  }

  lemma {:induction false} HeadDoesNotCount(head: Record, body: seq<Record>)
    requires head.HeaderRecord?
    ensures TradeCount([head] + body) == TradeCount(body) && DepthCount([head] + body) == DepthCount(body)
  {
    if body == [] {
      assert [head] + body == [head];
    } else {
      var front, r := body[..|body| - 1], body[|body| - 1];
      assert [head] + body == ([head] + front) + [r];
      HeadDoesNotCount(head, front);
      CountsExtend([head] + front, r);
    }
  }

  lemma RecordIsProper(rs: seq<Record>, i: nat)
    requires WellFormedExport(rs) && 0 < i < |rs| - 1
    ensures ProperRecord(rs[0].header, rs[i])
  {
    var body := rs[1..|rs| - 1];
    assert body[i - 1] == rs[i];
    BodyAscends(body, 0, i - 1);
    BodyAscends(body, i - 1, |body| - 1);
    if rs[i].DepthRecord? {
      DepthAcceptedIff(rs[i].bids, rs[i].asks);
    }
  }

  lemma RecordsAscend(rs: seq<Record>, i: nat, j: nat)
    requires WellFormedExport(rs) && 0 < i < j < |rs| - 1
    ensures rs[i].timestamp.Some? && rs[j].timestamp.Some? && rs[i].timestamp.value <= rs[j].timestamp.value
  {
    var body := rs[1..|rs| - 1];
    assert body[i - 1] == rs[i] && body[j - 1] == rs[j];
    BodyAscends(body, i - 1, j - 1);
  }

  lemma WellFormedIsProper(rs: seq<Record>)
    requires WellFormedExport(rs)
    ensures ProperExport(rs)
  {
    EndsDoNotCount(rs);
    CountsAreFilters(rs);
    forall i | 0 < i < |rs| - 1 ensures ProperRecord(rs[0].header, rs[i]) {
      RecordIsProper(rs, i);
    }
    forall i, j | 0 < i < j < |rs| - 1 ensures rs[i].timestamp.value <= rs[j].timestamp.value {
      RecordsAscend(rs, i, j);
    }
  }

  lemma ProperIsWellFormed(rs: seq<Record>)
    requires ProperExport(rs)
    ensures WellFormedExport(rs)
  {
    var body := rs[1..|rs| - 1];
    EndsDoNotCount(rs);
    CountsAreFilters(rs);
    forall i | 0 <= i < |body| ensures BodyRecord(body[i]) {
      assert body[i] == rs[i + 1] && ProperRecord(rs[0].header, rs[i + 1]);
      if body[i].DepthRecord? {
        DepthAcceptedIff(body[i].bids, body[i].asks);
      }
    }
    forall i | 0 <= i < |body| - 1 ensures Time(body[i]) <= Time(body[i + 1]) {
      assert body[i] == rs[i + 1] && body[i + 1] == rs[i + 2];
    }
    assert body[0] == rs[1] && body[|body| - 1] == rs[|rs| - 2];
  }

  /** The checks accept exactly the proper exports, although only neighbouring timestamps are
      compared, only the first and the last are tested against the window, and only the best
      prices of a depth record against each other. */
  lemma WellFormedIff(rs: seq<Record>)
    ensures WellFormedExport(rs) <==> ProperExport(rs)
  {
    if WellFormedExport(rs) {
      WellFormedIsProper(rs);
    } else if ProperExport(rs) {
      ProperIsWellFormed(rs);
    }
  }
}
