/** Bybit order-book and ticker replay (src/data/bybit_replay.py). */
module BybitReplay {
  import opened Common
  import opened Levels
  import opened EventOrder
  import KeyedReplay

  /** A message; `None` is a field that is missing or not an integer. */
  datatype Payload = Payload(
    kind: MessageType,
    dataIsObject: bool,
    updateId: Option<int>, crossSequence: Option<int>, bids: WireLevels, asks: WireLevels,
    tickerSequence: Option<int>, tickerFields: map<string, string>)

  type Event = RawEvent<Payload>

  // ------------------------------------------------------------ the book

  datatype Book = Book(bids: Side, asks: Side, updateId: Option<int>, sequence: Option<int>)

  const NO_BOOK: Book := Book(map[], map[], None, None)

  predicate Ready(b: Book) {
    b.bids != map[] && b.asks != map[] && b.updateId.Some?
  }

  predicate Parses(p: Payload) {
    p.dataIsObject && p.updateId.Some? && p.crossSequence.Some? && WellFormed(p.bids) && WellFormed(p.asks)
  }

  ghost function BookStep(b: Book, p: Payload): (Book, Outcome) {
    if !Parses(p) then (b, Raised(Malformed))
    else
      var u, q := p.updateId.value, p.crossSequence.value;
      match p.kind
      case Snapshot =>
        var next := Book(SnapshotSide(Parsed(p.bids)), SnapshotSide(Parsed(p.asks)), Some(u), Some(q));
        if Uncrossed(next.bids, next.asks) then (next, Done) else (b, Raised(InvalidOrderBook))
      case OtherType => (b, Raised(Malformed))
      case Delta =>
        if !Ready(b) || b.sequence.None? then (b, Raised(SnapshotRequired))
        else if u > b.updateId.value + 1 then (NO_BOOK, Raised(SequenceGap))
        else if u <= b.updateId.value then (NO_BOOK, Raised(SequenceRegression))
        else if q <= b.sequence.value then (NO_BOOK, Raised(SequenceRegression))
        else
          var next := Book(ApplyLevels(b.bids, Parsed(p.bids)), ApplyLevels(b.asks, Parsed(p.asks)), Some(u), Some(q));
          if Uncrossed(next.bids, next.asks) then (next, Done) else (b, Raised(InvalidOrderBook))
  }

  ghost function BookEventStep(b: Book, symbol: string, e: Event): (Book, Outcome) {
    if e.exchange != Bybit || e.channel != Orderbook || e.symbol != symbol then (b, Raised(WrongStream))
    else BookStep(b, e.payload)
  }

  class BybitOrderBook {
    const symbol: string
    var bids: Side
    var asks: Side
    var updateId: Option<int>
    var sequence: Option<int>

    function State(): Book
      reads this
    {
      Book(bids, asks, updateId, sequence)
    }

    constructor (symbol: string)
      ensures this.symbol == symbol && State() == NO_BOOK
    {
      this.symbol := symbol;
      bids, asks, updateId, sequence := map[], map[], None, None;
    }

    method Invalidate()
      modifies this
      ensures State() == NO_BOOK
    {
      bids, asks, updateId, sequence := map[], map[], None, None;
    }

    method ApplyEvent(e: Event) returns (r: Outcome)
      modifies this
      ensures (State(), r) == BookEventStep(old(State()), symbol, e)
    {
      if e.exchange != Bybit || e.channel != Orderbook {
        return Raised(WrongStream);
      }
      if e.symbol != symbol {
        return Raised(WrongStream);
      }
      r := ApplyMessage(e.payload);
    }

    method ApplyMessage(p: Payload) returns (r: Outcome)
      modifies this
      ensures (State(), r) == BookStep(old(State()), p)
    {
      if !p.dataIsObject || p.updateId.None? || p.crossSequence.None? {
        return Raised(Malformed);
      }
      var u, q := p.updateId.value, p.crossSequence.value;
      var bidLevels := ParseLevels(p.bids);
      if bidLevels.Err? {
        return Raised(bidLevels.error);
      }
      var askLevels := ParseLevels(p.asks);
      if askLevels.Err? {
        return Raised(askLevels.error);
      }
      if p.kind == Snapshot {
        r := Replace(bidLevels.value, askLevels.value, u, q);
        return r;
      }
      if p.kind != Delta {
        return Raised(Malformed);
      }
      if !Ready(State()) || sequence.None? {
        return Raised(SnapshotRequired);
      }
      if u > updateId.value + 1 {
        Invalidate();
        return Raised(SequenceGap);
      }
      if u <= updateId.value {
        Invalidate();
        return Raised(SequenceRegression);
      }
      if q <= sequence.value {
        Invalidate();
        return Raised(SequenceRegression);
      }
      var nextBids := ApplyLevelsInOrder(bids, bidLevels.value);
      var nextAsks := ApplyLevelsInOrder(asks, askLevels.value);
      var valid := ValidateBook(nextBids, nextAsks);
      if !valid {
        return Raised(InvalidOrderBook);
      }
      bids, asks, updateId, sequence := nextBids, nextAsks, Some(u), Some(q);
      return Done;
    }

    method Replace(bidLevels: seq<Level>, askLevels: seq<Level>, u: int, q: int) returns (r: Outcome)
      modifies this
      ensures Uncrossed(SnapshotSide(bidLevels), SnapshotSide(askLevels)) ==>
        r == Done && State() == Book(SnapshotSide(bidLevels), SnapshotSide(askLevels), Some(u), Some(q))
      ensures !Uncrossed(SnapshotSide(bidLevels), SnapshotSide(askLevels)) ==>
        r == Raised(InvalidOrderBook) && State() == old(State())
    {
      var nextBids := BuildSnapshotSide(bidLevels);
      var nextAsks := BuildSnapshotSide(askLevels);
      var valid := ValidateBook(nextBids, nextAsks);
      if !valid {
        return Raised(InvalidOrderBook);
      }
      bids, asks, updateId, sequence := nextBids, nextAsks, Some(u), Some(q);
      return Done;
    }
  }

  // ------------------------------------------- safety over all book runs

  datatype BookOp = Invalidation | Message(payload: Payload)

  /** The book after any sequence of messages and invalidations, whether they raised or not. */
  ghost function BookAfter(ops: seq<BookOp>): Book {
    if ops == [] then NO_BOOK
    else
      match ops[|ops| - 1]
      case Invalidation => NO_BOOK
      case Message(p) => BookStep(BookAfter(ops[..|ops| - 1]), p).0
  }

  /** A snapshot and the deltas that go on from it. */
  datatype Lineage = NoLineage | Since(snapshot: Payload, deltas: seq<Payload>)

  function AllBids(ps: seq<Payload>): seq<Level> {
    if ps == [] then []
    else
      var front, p := ps[..|ps| - 1], ps[|ps| - 1];
      AllBids(front) + if WellFormed(p.bids) then Parsed(p.bids) else []
  }

  function AllAsks(ps: seq<Payload>): seq<Level> {
    if ps == [] then []
    else
      var front, p := ps[..|ps| - 1], ps[|ps| - 1];
      AllAsks(front) + if WellFormed(p.asks) then Parsed(p.asks) else []
  }

  /** `u` grows by exactly one and `seq` strictly, from the snapshot through every delta. */
  ghost predicate Contiguous(snapshot: Payload, deltas: seq<Payload>) {
    var all := [snapshot] + deltas;
    && (forall i :: 0 <= i < |all| ==> all[i].updateId.Some? && all[i].crossSequence.Some?)
    && (forall i :: 0 <= i < |all| - 1 ==> all[i + 1].updateId.value == all[i].updateId.value + 1)
    && (forall i :: 0 <= i < |all| - 1 ==> all[i + 1].crossSequence.value > all[i].crossSequence.value)
  }

  /** The last message of a lineage. */
  function LastOf(snapshot: Payload, deltas: seq<Payload>): Payload {
    ([snapshot] + deltas)[|deltas|]
  }

  /** The book that a lineage stands for: the snapshot's levels with all deltas folded over
      them, and the ids of the last message. */
  ghost function BookOf(l: Lineage): Book {
    if l.NoLineage? || !Parses(l.snapshot) then NO_BOOK
    else
      Book(ApplyLevels(SnapshotSide(Parsed(l.snapshot.bids)), AllBids(l.deltas)),
           ApplyLevels(SnapshotSide(Parsed(l.snapshot.asks)), AllAsks(l.deltas)),
           LastOf(l.snapshot, l.deltas).updateId, LastOf(l.snapshot, l.deltas).crossSequence)
  }

  ghost predicate Fits(l: Lineage) {
    Uncrossed(BookOf(l).bids, BookOf(l).asks)
  }

  /** The book is that of a gap-free lineage, and not crossed. */
  ghost predicate Embodies(b: Book, l: Lineage) {
    && b == BookOf(l)
    && (l.Since? ==> Contiguous(l.snapshot, l.deltas) && Parses(l.snapshot) && Fits(l))
  }

  /** The ids of p are next in line: `u` by exactly one, `seq` by anything. */
  predicate Succeeds(l: Lineage, p: Payload) {
    && l.Since? && p.updateId.Some? && p.crossSequence.Some?
    && var last := LastOf(l.snapshot, l.deltas);
       && last.updateId.Some? && last.crossSequence.Some?
       && p.updateId.value == last.updateId.value + 1 && p.crossSequence.value > last.crossSequence.value
  }

  function Appended(l: Lineage, p: Payload): Lineage
    requires p.kind != Snapshot ==> l.Since?
  {
    if p.kind == Snapshot then Since(p, []) else Since(l.snapshot, l.deltas + [p])
  }

  /** The message goes on from the lineage. */
  ghost predicate Continues(l: Lineage, p: Payload) {
    && p.dataIsObject && Parses(p)
    && (p.kind == Snapshot || (p.kind == Delta && Succeeds(l, p)))
    && Fits(Appended(l, p))
  }

  /** A message that goes on from the lineage is appended, a delta out of line ends it, and
      any other is passed over. */
  ghost function LineageAfter(l: Lineage, p: Payload): Lineage {
    if Continues(l, p) then Appended(l, p)
    else if Parses(p) && p.kind == Delta && !Succeeds(l, p) then NoLineage
    else l
  }

  /** The lineage after any run, read off its messages. */
  ghost function LineageOf(ops: seq<BookOp>): Lineage {
    if ops == [] then NoLineage
    else
      var front := LineageOf(ops[..|ops| - 1]);
      match ops[|ops| - 1]
      case Invalidation => NoLineage
      case Message(p) => LineageAfter(front, p)
  }

  lemma ContiguousExtends(snapshot: Payload, deltas: seq<Payload>, p: Payload)
    requires Contiguous(snapshot, deltas) && p.updateId.Some? && p.crossSequence.Some?
    requires Succeeds(Since(snapshot, deltas), p)
    ensures Contiguous(snapshot, deltas + [p])
  {
    assert [snapshot] + (deltas + [p]) == ([snapshot] + deltas) + [p];
  }

  lemma FoldExtends(snapshot: Payload, deltas: seq<Payload>, p: Payload)
    requires Parses(snapshot) && Parses(p)
    ensures
      ApplyLevels(SnapshotSide(Parsed(snapshot.bids)), AllBids(deltas + [p])) ==
      ApplyLevels(ApplyLevels(SnapshotSide(Parsed(snapshot.bids)), AllBids(deltas)), Parsed(p.bids))
    ensures
      ApplyLevels(SnapshotSide(Parsed(snapshot.asks)), AllAsks(deltas + [p])) ==
      ApplyLevels(ApplyLevels(SnapshotSide(Parsed(snapshot.asks)), AllAsks(deltas)), Parsed(p.asks))
  {
    assert (deltas + [p])[..|deltas|] == deltas;
    ApplyLevelsConcat(SnapshotSide(Parsed(snapshot.bids)), AllBids(deltas), Parsed(p.bids));
    ApplyLevelsConcat(SnapshotSide(Parsed(snapshot.asks)), AllAsks(deltas), Parsed(p.asks));
  }

  lemma NextBook(l: Lineage, p: Payload)
    requires l.Since? && Parses(l.snapshot) && Parses(p)
    ensures
      BookOf(Since(l.snapshot, l.deltas + [p])) ==
      Book(ApplyLevels(BookOf(l).bids, Parsed(p.bids)), ApplyLevels(BookOf(l).asks, Parsed(p.asks)),
           p.updateId, p.crossSequence)
  {
    FoldExtends(l.snapshot, l.deltas, p);
  }

  lemma AcceptedDeltaExtends(b: Book, snapshot: Payload, deltas: seq<Payload>, p: Payload)
    requires Embodies(b, Since(snapshot, deltas)) && p.kind == Delta && BookStep(b, p).1 == Done
    ensures Embodies(BookStep(b, p).0, Since(snapshot, deltas + [p]))
  {
    NextBook(Since(snapshot, deltas), p);
    ContiguousExtends(snapshot, deltas, p);
  }

  /** How a message ends, told from the lineage before it. */
  ghost function Answer(l: Lineage, p: Payload): Outcome {
    if Continues(l, p) then Done
    else if !Parses(p) || p.kind == OtherType then Raised(Malformed)
    else if p.kind == Snapshot || Succeeds(l, p) then Raised(InvalidOrderBook)
    else if l.NoLineage? then Raised(SnapshotRequired)
    else
      var last := LastOf(l.snapshot, l.deltas);
      if last.updateId.Some? && p.updateId.value > last.updateId.value + 1 then Raised(SequenceGap)
      else Raised(SequenceRegression)
  }

  lemma SnapshotAtLineage(b: Book, l: Lineage, p: Payload)
    requires Embodies(b, l) && Parses(p) && p.kind == Snapshot
    ensures BookStep(b, p).1 == Answer(l, p) && Embodies(BookStep(b, p).0, LineageAfter(l, p))
  {
    assert BookOf(Since(p, [])) ==
      Book(SnapshotSide(Parsed(p.bids)), SnapshotSide(Parsed(p.asks)), p.updateId, p.crossSequence);
  }

  lemma DeltaAtLineage(b: Book, l: Lineage, p: Payload)
    requires Embodies(b, l) && Parses(p) && p.kind == Delta && l.Since?
    ensures BookStep(b, p).1 == Answer(l, p) && Embodies(BookStep(b, p).0, LineageAfter(l, p))
  {
    NextBook(l, p);
    assert LastOf(l.snapshot, l.deltas) in [l.snapshot] + l.deltas;
    if Succeeds(l, p) {
      ContiguousExtends(l.snapshot, l.deltas, p);
    }
  }

  lemma MessageAtLineage(b: Book, l: Lineage, p: Payload)
    requires Embodies(b, l)
    ensures BookStep(b, p).1 == Answer(l, p) && Embodies(BookStep(b, p).0, LineageAfter(l, p))
  {
    if Parses(p) && p.kind == Snapshot {
      SnapshotAtLineage(b, l, p);
    } else if Parses(p) && p.kind == Delta && l.Since? {
      DeltaAtLineage(b, l, p);
    }
  }

  /** A call that raises leaves the book empty, on a broken sequence, or else untouched; it
      is never half-applied. */
  lemma RaisingIsAtomic(b: Book, p: Payload)
    requires BookStep(b, p).1.Raised?
    ensures
      var (next, outcome) := BookStep(b, p);
      if outcome.error == SequenceGap || outcome.error == SequenceRegression then next == NO_BOOK else next == b
  {
  }

  /** Every reachable book is either entirely empty, with no ids, or is two non-empty
      uncrossed sides that equal the fold of all deltas since the last snapshot, whose ids
      are gap-free. */
  lemma {:induction false} ReachableBooksAreSound(ops: seq<BookOp>)
    ensures Embodies(BookAfter(ops), LineageOf(ops))
  {
    if ops != [] {
      var front, op := ops[..|ops| - 1], ops[|ops| - 1];
      ReachableBooksAreSound(front);
      if op.Message? {
        MessageAtLineage(BookAfter(front), LineageOf(front), op.payload);
      }
    }
  }

  /** After any run, raising or not, a message is accepted exactly if it parses and is a
      snapshot with uncrossed sides, or a delta next in line that leaves the fold uncrossed;
      and how any other ends is told by the lineage, too. */
  lemma MessageAcceptedIff(ops: seq<BookOp>, p: Payload)
    ensures BookStep(BookAfter(ops), p).1.Done? <==> Continues(LineageOf(ops), p)
    ensures BookStep(BookAfter(ops), p).1 == Answer(LineageOf(ops), p)
  {
    ReachableBooksAreSound(ops);
    MessageAtLineage(BookAfter(ops), LineageOf(ops), p);
  }

  // ---------------------------------------------------------- the ticker

  datatype TickerState = TickerState(data: Option<map<string, string>>, sequence: Option<int>)

  const NO_TICKER: TickerState := TickerState(None, None)

  function TickerMessage(t: TickerState, p: Payload): (TickerState, Outcome) {
    if !p.dataIsObject || p.tickerSequence.None? then (t, Raised(Malformed))
    else
      var q := p.tickerSequence.value;
      match p.kind
      case Snapshot => (TickerState(Some(p.tickerFields), Some(q)), Done)
      case OtherType => (t, Raised(Malformed))
      case Delta =>
        if t.data.None? || t.sequence.None? then (t, Raised(SnapshotRequired))
        else if q <= t.sequence.value then (NO_TICKER, Raised(SequenceRegression))
        else (TickerState(Some(t.data.value + p.tickerFields), Some(q)), Done)
  }

  function TickerStep(t: TickerState, symbol: string, e: Event): (TickerState, Outcome) {
    if e.exchange != Bybit || e.channel != Ticker || e.symbol != symbol then (t, Raised(WrongStream))
    else TickerMessage(t, e.payload)
  }

  class BybitTickerState {
    const symbol: string
    var data: Option<map<string, string>>
    var sequence: Option<int>

    function State(): TickerState
      reads this
    {
      TickerState(data, sequence)
    }

    constructor (symbol: string)
      ensures this.symbol == symbol && State() == NO_TICKER
    {
      this.symbol := symbol;
      data, sequence := None, None;
    }

    method Invalidate()
      modifies this
      ensures State() == NO_TICKER
    {
      data, sequence := None, None;
    }

    method ApplyEvent(e: Event) returns (r: Outcome)
      modifies this
      ensures (State(), r) == TickerStep(old(State()), symbol, e)
    {
      if e.exchange != Bybit || e.channel != Ticker || e.symbol != symbol {
        return Raised(WrongStream);
      }
      if !e.payload.dataIsObject || e.payload.tickerSequence.None? {
        return Raised(Malformed);
      }
      var q := e.payload.tickerSequence.value;
      if e.payload.kind == Snapshot {
        data, sequence := Some(e.payload.tickerFields), Some(q);
        return Done;
      }
      if e.payload.kind != Delta {
        return Raised(Malformed);
      }
      if data.None? || sequence.None? {
        return Raised(SnapshotRequired);
      }
      if q <= sequence.value {
        Invalidate();
        return Raised(SequenceRegression);
      }
      data := Some(data.value + e.payload.tickerFields);
      sequence := Some(q);
      return Done;
    }
  }

  // ------------------------------------------- safety over ticker runs

  /** The ticker after any sequence of messages and invalidations, raising or not. */
  function TickerAfter(ops: seq<BookOp>): TickerState {
    if ops == [] then NO_TICKER
    else
      match ops[|ops| - 1]
      case Invalidation => NO_TICKER
      case Message(p) => TickerMessage(TickerAfter(ops[..|ops| - 1]), p).0
  }

  /** What the last of the messages that lists a field says of it. */
  function Latest(messages: seq<Payload>, field: string): Option<string> {
    if messages == [] then None
    else
      var p := messages[|messages| - 1];
      if field in p.tickerFields then Some(p.tickerFields[field]) else Latest(messages[..|messages| - 1], field)
  }

  /** A snapshot and the deltas after it, or no messages at all: the ticker shows for every
      field the latest value, and the last sequence number. */
  ghost predicate Shows(t: TickerState, messages: seq<Payload>) {
    if messages == [] then t == NO_TICKER
    else
      && t.sequence.Some? && t.sequence == messages[|messages| - 1].tickerSequence
      && t.data.Some?
      && forall f :: Latest(messages, f) == if f in t.data.value then Some(t.data.value[f]) else None
  }

  predicate TickerContinues(messages: seq<Payload>, p: Payload) {
    && p.dataIsObject && p.tickerSequence.Some?
    && (p.kind == Snapshot ||
        (p.kind == Delta && messages != [] && messages[|messages| - 1].tickerSequence.Some?
         && p.tickerSequence.value > messages[|messages| - 1].tickerSequence.value))
  }

  /** A message that continues is appended, or starts anew if it is a snapshot; a delta that
      does not ends the run, and any other is passed over. */
  function MessagesAfter(messages: seq<Payload>, p: Payload): seq<Payload> {
    if TickerContinues(messages, p) then (if p.kind == Snapshot then [p] else messages + [p])
    else if p.dataIsObject && p.tickerSequence.Some? && p.kind == Delta then []
    else messages
  }

  function TickerAnswer(messages: seq<Payload>, p: Payload): Outcome {
    if TickerContinues(messages, p) then Done
    else if !p.dataIsObject || p.tickerSequence.None? || p.kind == OtherType then Raised(Malformed)
    else Raised(if messages == [] then SnapshotRequired else SequenceRegression)
  }

  /** The messages a ticker stands for after any run. */
  function MessagesOf(ops: seq<BookOp>): seq<Payload> {
    if ops == [] then []
    else
      match ops[|ops| - 1]
      case Invalidation => []
      case Message(p) => MessagesAfter(MessagesOf(ops[..|ops| - 1]), p)
  }

  lemma LatestSnoc(messages: seq<Payload>, p: Payload, field: string)
    ensures Latest(messages + [p], field) ==
      if field in p.tickerFields then Some(p.tickerFields[field]) else Latest(messages, field)
  {
    assert (messages + [p])[..|messages|] == messages;
  }

  lemma TickerMessageShows(t: TickerState, messages: seq<Payload>, p: Payload)
    requires Shows(t, messages)
    ensures TickerMessage(t, p).1 == TickerAnswer(messages, p)
    ensures Shows(TickerMessage(t, p).0, MessagesAfter(messages, p))
  {
    if TickerContinues(messages, p) {
      var before := if p.kind == Snapshot then [] else messages;
      assert before + [p] == MessagesAfter(messages, p);
      forall f ensures Latest(before + [p], f) ==
        if f in p.tickerFields then Some(p.tickerFields[f]) else Latest(before, f)
      {
        LatestSnoc(before, p, f);
      }
    }
  }

  /** Over every run: the ticker is empty, or shows for each field what the last message since
      the snapshot says of it; and a message is accepted exactly if it is a snapshot, or a
      delta with a higher sequence number than the message before. */
  lemma {:induction false} TickersShowTheLatest(ops: seq<BookOp>, p: Payload)
    ensures Shows(TickerAfter(ops), MessagesOf(ops))
    ensures TickerMessage(TickerAfter(ops), p).1 == TickerAnswer(MessagesOf(ops), p)
  {
    if ops != [] && ops[|ops| - 1].Message? {
      var front, q := ops[..|ops| - 1], ops[|ops| - 1].payload;
      TickersShowTheLatest(front, p);
      TickerMessageShows(TickerAfter(front), MessagesOf(front), q);
    }
    TickerMessageShows(TickerAfter(ops), MessagesOf(ops), p);
  }

  // --------------------------------------------------- one symbol's step

  /** What the session keeps for one symbol: its book and ticker, each with the connection
      that last fed it. */
  datatype SymbolState = SymbolState(
    book: Book, bookConnection: Option<string>, ticker: TickerState, tickerConnection: Option<string>)

  const FRESH: SymbolState := SymbolState(NO_BOOK, None, NO_TICKER, None)

  /** A new connection voids the state before the event is applied. */
  ghost function StepOutcome(s: SymbolState, e: Event): (SymbolState, Outcome) {
    if e.channel == Orderbook then
      var book := if s.bookConnection == Some(e.connectionId) then s.book else NO_BOOK;
      var (next, outcome) := BookEventStep(book, e.symbol, e);
      (s.(book := next, bookConnection := Some(e.connectionId)), outcome)
    else if e.channel == Ticker then
      var ticker := if s.tickerConnection == Some(e.connectionId) then s.ticker else NO_TICKER;
      var (next, outcome) := TickerStep(ticker, e.symbol, e);
      (s.(ticker := next, tickerConnection := Some(e.connectionId)), outcome)
    else (s, Done)
  }

  ghost function Step(s: SymbolState, e: Event): Result<SymbolState, ReplayError> {
    var (next, outcome) := StepOutcome(s, e);
    if outcome.Raised? then Err(outcome.error) else Ok(next)
  }

  function SymbolOf(e: Event): string { e.symbol }

  ghost function Replay(events: seq<Event>): Result<map<string, SymbolState>, ReplayError> {
    KeyedReplay.Run(FRESH, Step, SymbolOf, events)
  }

  ghost function StateOf(m: map<string, SymbolState>, symbol: string): SymbolState {
    KeyedReplay.Get(m, symbol, FRESH)
  }

  // --------------------------------------------------------- the session

  class BybitReplaySession {
    var books: map<string, BybitOrderBook>
    var tickers: map<string, BybitTickerState>
    var bookConnections: map<string, string>
    var tickerConnections: map<string, string>
    var channelCounts: map<Channel, nat>
    var rawEventCount: nat

    ghost predicate Valid()
      reads this`books, this`tickers, books.Values, tickers.Values
    {
      && (forall s :: s in books ==> books[s].symbol == s)
      && (forall s :: s in tickers ==> tickers[s].symbol == s)
    }

    ghost function Of(symbol: string): SymbolState
      reads this`books, this`tickers, this`bookConnections, this`tickerConnections, books.Values, tickers.Values
    {
      SymbolState(
        if symbol in books then books[symbol].State() else NO_BOOK,
        if symbol in bookConnections then Some(bookConnections[symbol]) else None,
        if symbol in tickers then tickers[symbol].State() else NO_TICKER,
        if symbol in tickerConnections then Some(tickerConnections[symbol]) else None)
    }

    constructor ()
      ensures Valid() && books == map[] && tickers == map[] && rawEventCount == 0
      ensures bookConnections == map[] && tickerConnections == map[]
    {
      books, tickers, bookConnections, tickerConnections := map[], map[], map[], map[];
      channelCounts, rawEventCount := map[], 0;
    }

    /** `setdefault`. */
    method EnsureBook(symbol: string) returns (book: BybitOrderBook)
      requires Valid()
      modifies this`books
      ensures Valid() && fresh(books.Values - old(books.Values))
      ensures symbol in books && books[symbol] == book
      ensures forall s :: Of(s) == old(Of(s))
    {
      if symbol !in books {
        var newBook := new BybitOrderBook(symbol);
        books := books[symbol := newBook];
      }
      return books[symbol];
    }

    /** The symbol's book, invalidated if the connection changed. */
    method BookFor(symbol: string, connection: string) returns (book: BybitOrderBook)
      requires Valid()
      modifies this`books, this`bookConnections, books.Values
      ensures Valid() && fresh(books.Values - old(books.Values))
      ensures symbol in books && books[symbol] == book
      ensures Of(symbol) == old(Of(symbol)).(
        book := (if old(Of(symbol)).bookConnection == Some(connection) then old(Of(symbol)).book else NO_BOOK),
        bookConnection := Some(connection))
      ensures forall s :: s != symbol ==> Of(s) == old(Of(s))
    {
      book := EnsureBook(symbol);
      if symbol !in bookConnections || bookConnections[symbol] != connection {
        assert forall s :: s in books && s != symbol ==> books[s] != book;
        book.Invalidate();
        bookConnections := bookConnections[symbol := connection];
      }
    }

    method EnsureTicker(symbol: string) returns (ticker: BybitTickerState)
      requires Valid()
      modifies this`tickers
      ensures Valid() && fresh(tickers.Values - old(tickers.Values))
      ensures symbol in tickers && tickers[symbol] == ticker
      ensures forall s :: Of(s) == old(Of(s))
    {
      if symbol !in tickers {
        var newTicker := new BybitTickerState(symbol);
        tickers := tickers[symbol := newTicker];
      }
      return tickers[symbol];
    }

    method TickerFor(symbol: string, connection: string) returns (ticker: BybitTickerState)
      requires Valid()
      modifies this`tickers, this`tickerConnections, tickers.Values
      ensures Valid() && fresh(tickers.Values - old(tickers.Values))
      ensures symbol in tickers && tickers[symbol] == ticker
      ensures Of(symbol) == old(Of(symbol)).(
        ticker := (if old(Of(symbol)).tickerConnection == Some(connection) then old(Of(symbol)).ticker else NO_TICKER),
        tickerConnection := Some(connection))
      ensures forall s :: s != symbol ==> Of(s) == old(Of(s))
    {
      ticker := EnsureTicker(symbol);
      if symbol !in tickerConnections || tickerConnections[symbol] != connection {
        assert forall s :: s in tickers && s != symbol ==> tickers[s] != ticker;
        ticker.Invalidate();
        tickerConnections := tickerConnections[symbol := connection];
      }
    }

    method ApplyBook(e: Event) returns (r: Outcome)
      requires Valid() && e.channel == Orderbook
      modifies this`books, this`bookConnections, books.Values
      ensures Valid() && fresh(books.Values - old(books.Values))
      ensures (Of(e.symbol), r) == StepOutcome(old(Of(e.symbol)), e)
      ensures forall s :: s != e.symbol ==> Of(s) == old(Of(s))
    {
      var book := BookFor(e.symbol, e.connectionId);
      assert forall s :: s in books && s != e.symbol ==> books[s] != book;
      r := book.ApplyEvent(e);
    }

    method ApplyTicker(e: Event) returns (r: Outcome)
      requires Valid() && e.channel == Ticker
      modifies this`tickers, this`tickerConnections, tickers.Values
      ensures Valid() && fresh(tickers.Values - old(tickers.Values))
      ensures (Of(e.symbol), r) == StepOutcome(old(Of(e.symbol)), e)
      ensures forall s :: s != e.symbol ==> Of(s) == old(Of(s))
    {
      var ticker := TickerFor(e.symbol, e.connectionId);
      assert forall s :: s in tickers && s != e.symbol ==> tickers[s] != ticker;
      r := ticker.ApplyEvent(e);
    }

    method CountEvent(channel: Channel)
      modifies `rawEventCount, `channelCounts
      ensures rawEventCount == old(rawEventCount) + 1 && channelCounts == Bump(old(channelCounts), channel)
    {
      rawEventCount := rawEventCount + 1;
      channelCounts := Bump(channelCounts, channel);
    }

    method Apply(e: Event) returns (r: Outcome)
      requires Valid()
      modifies this, books.Values, tickers.Values
      ensures Valid() && fresh(books.Values - old(books.Values)) && fresh(tickers.Values - old(tickers.Values))
      ensures (Of(e.symbol), r) == StepOutcome(old(Of(e.symbol)), e)
      ensures forall s :: s != e.symbol ==> Of(s) == old(Of(s))
      ensures rawEventCount == old(rawEventCount) + 1
      ensures channelCounts == Bump(old(channelCounts), e.channel)
    {
      CountEvent(e.channel);
      if e.channel == Orderbook {
        r := ApplyBook(e);
      } else if e.channel == Ticker {
        r := ApplyTicker(e);
      } else {
        r := Done;
      }
    }
  }

  /** `replay_bybit_stream`: feed the session until it raises. */
  method ReplayStream(events: seq<Event>) returns (session: BybitReplaySession, r: Outcome)
    ensures fresh(session) && session.Valid()
    ensures r.Done? <==> Replay(events).Ok?
    ensures r.Done? ==> forall s :: session.Of(s) == StateOf(Replay(events).value, s)
    ensures r.Done? ==> session.rawEventCount == |events|
    ensures r.Raised? ==> Replay(events) == Err(r.error)
  {
    session := new BybitReplaySession();
    for i := 0 to |events|
      invariant session.Valid() && fresh(session) && fresh(session.books.Values) && fresh(session.tickers.Values)
      invariant Replay(events[..i]).Ok? && session.rawEventCount == i
      invariant forall s :: session.Of(s) == StateOf(Replay(events[..i]).value, s)
    {
      assert events[..i + 1] == events[..i] + [events[i]];
      KeyedReplay.RunSnoc(FRESH, Step, SymbolOf, events[..i], events[i]);
      var outcome := session.Apply(events[i]);
      if outcome.Raised? {
        KeyedReplay.RunError(FRESH, Step, SymbolOf, events, i + 1);
        return session, outcome;
      }
    }
    assert events[..|events|] == events;
    return session, Done;
  }

  /** `replay_bybit`: the bounded entry point sorts first. */
  ghost function ReplayBounded(events: seq<Event>): Result<map<string, SymbolState>, ReplayError> {
    Replay(Sorted(events))
  }

  /** The bounded replay does not depend on the order in which the list arrives. */
  lemma ReplayIsDeterministic(events: seq<Event>, shuffled: seq<Event>)
    requires KeysIdentify(events) && multiset(shuffled) == multiset(events)
    ensures ReplayBounded(shuffled) == ReplayBounded(events)
  {
    SortedPermutation(events, shuffled);
  }

  /** No symbol's events can make another symbol's replay raise or change its state. */
  lemma SymbolsAreIndependent(events: seq<Event>)
    ensures Replay(events).Ok? <==> forall s :: Replay(KeyedReplay.Of(events, SymbolOf, s)).Ok?
    ensures Replay(events).Ok? ==>
              forall s ::
                StateOf(Replay(events).value, s) == StateOf(Replay(KeyedReplay.Of(events, SymbolOf, s)).value, s)
  {
    KeyedReplay.SymbolsDoNotInterfere(FRESH, Step, SymbolOf, events);
  }
}
