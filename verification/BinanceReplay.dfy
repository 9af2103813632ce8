/** Binance order-book replay (src/data/binance_replay.py). */
module BinanceReplay {
  import opened Common
  import opened Levels
  import opened EventOrder
  import Gate = BinanceGate
  import KeyedReplay
  import Lineage = BookLineage

  type Event = Gate.Event

  // ------------------------------------------------------------ the book

  datatype Book = Book(bids: Side, asks: Side, updateId: Option<int>)

  const NO_BOOK: Book := Book(map[], map[], None)

  predicate Ready(b: Book) {
    b.bids != map[] && b.asks != map[] && b.updateId.Some?
  }

  ghost function Loaded(b: Book, bids: WireLevels, asks: WireLevels, id: int): (Book, Outcome) {
    if !WellFormed(bids) || !WellFormed(asks) then (b, Raised(Malformed))
    else
      var next := Book(SnapshotSide(Parsed(bids)), SnapshotSide(Parsed(asks)), Some(id));
      if Uncrossed(next.bids, next.asks) then (next, Done) else (b, Raised(InvalidOrderBook))
  }

  ghost function Advanced(b: Book, bids: WireLevels, asks: WireLevels, id: int): (Book, Outcome) {
    if !Ready(b) then (b, Raised(SnapshotRequired))
    else if !WellFormed(bids) || !WellFormed(asks) then (b, Raised(Malformed))
    else
      var next := Book(ApplyLevels(b.bids, Parsed(bids)), ApplyLevels(b.asks, Parsed(asks)), Some(id));
      if Uncrossed(next.bids, next.asks) then (next, Done) else (b, Raised(InvalidOrderBook))
  }

  class BinanceOrderBook {
    const symbol: string
    var bids: Side
    var asks: Side
    var updateId: Option<int>

    function State(): Book
      reads this
    {
      Book(bids, asks, updateId)
    }

    constructor (symbol: string)
      ensures this.symbol == symbol && State() == NO_BOOK
    {
      this.symbol := symbol;
      bids, asks, updateId := map[], map[], None;
    }

    method LoadSnapshot(wireBids: WireLevels, wireAsks: WireLevels, id: int) returns (r: Outcome)
      modifies this
      ensures (State(), r) == Loaded(old(State()), wireBids, wireAsks, id)
    {
      var bidLevels := ParseLevels(wireBids);
      if bidLevels.Err? {
        return Raised(bidLevels.error);
      }
      var nextBids := BuildSnapshotSide(bidLevels.value);
      var askLevels := ParseLevels(wireAsks);
      if askLevels.Err? {
        return Raised(askLevels.error);
      }
      var nextAsks := BuildSnapshotSide(askLevels.value);
      var valid := ValidateBook(nextBids, nextAsks);
      if !valid {
        return Raised(InvalidOrderBook);
      }
      bids, asks, updateId := nextBids, nextAsks, Some(id);
      return Done;
    }

    method ApplyDelta(wireBids: WireLevels, wireAsks: WireLevels, id: int) returns (r: Outcome)
      modifies this
      ensures (State(), r) == Advanced(old(State()), wireBids, wireAsks, id)
    {
      if !Ready(State()) {
        return Raised(SnapshotRequired);
      }
      var bidLevels := ParseLevels(wireBids);
      if bidLevels.Err? {
        return Raised(bidLevels.error);
      }
      var nextBids := ApplyLevelsInOrder(bids, bidLevels.value);
      var askLevels := ParseLevels(wireAsks);
      if askLevels.Err? {
        return Raised(askLevels.error);
      }
      var nextAsks := ApplyLevelsInOrder(asks, askLevels.value);
      var valid := ValidateBook(nextBids, nextAsks);
      if !valid {
        return Raised(InvalidOrderBook);
      }
      bids, asks, updateId := nextBids, nextAsks, Some(id);
      return Done;
    }
  }

  // ------------------------------------------------- all runs of a book

  /** A call of `load_snapshot` or `apply_delta`. */
  datatype BookCall =
    | Snapshotted(bids: WireLevels, asks: WireLevels, id: int)
    | Updated(bids: WireLevels, asks: WireLevels, id: int)

  ghost function BookOutcome(b: Book, c: BookCall): (Book, Outcome) {
    match c
    case Snapshotted(bids, asks, id) => Loaded(b, bids, asks, id)
    case Updated(bids, asks, id) => Advanced(b, bids, asks, id)
  }

  /** The book after any sequence of calls, whether they raised or not. */
  ghost function BookAfter(calls: seq<BookCall>): Book {
    if calls == [] then NO_BOOK else BookOutcome(BookAfter(calls[..|calls| - 1]), calls[|calls| - 1]).0
  }

  function MessageOf(bids: WireLevels, asks: WireLevels, id: int): Lineage.Message {
    if !WellFormed(bids) || !WellFormed(asks) then Lineage.Unreadable
    else Lineage.Message(Parsed(bids), Parsed(asks), Some(id))
  }

  function CallOf(c: BookCall): Lineage.Call {
    match c
    case Snapshotted(bids, asks, id) => Lineage.Load(MessageOf(bids, asks, id))
    case Updated(bids, asks, id) => Lineage.Advance(MessageOf(bids, asks, id))
  }

  ghost function LineageOf(calls: seq<BookCall>): Lineage.Lineage {
    if calls == [] then Lineage.Nothing
    else Lineage.After(LineageOf(calls[..|calls| - 1]), CallOf(calls[|calls| - 1]))
  }

  ghost predicate StandsFor(b: Book, l: Lineage.Lineage) {
    Lineage.Stands(b.bids, b.asks, b.updateId, l) && (l.Since? ==> b.updateId.Some?)
  }

  lemma CallAtLineage(b: Book, l: Lineage.Lineage, c: BookCall)
    requires StandsFor(b, l)
    ensures BookOutcome(b, c).1 == Lineage.Answer(l, CallOf(c))
    ensures StandsFor(BookOutcome(b, c).0, Lineage.After(l, CallOf(c)))
  {
    var m := CallOf(c).message;
    if m.Message? {
      if c.Snapshotted? {
        Lineage.FirstSides(m);
      } else if l.Since? {
        Lineage.NextSides(l, m);
      }
    }
  }

  /** Every reachable book is empty, or the fold of the last snapshot it took and of the deltas
      it took since; it takes exactly the messages that parse, go on from a snapshot and leave
      it uncrossed, and nothing of any other. */
  lemma {:induction false} ReachableBooksAreSound(calls: seq<BookCall>, c: BookCall)
    ensures StandsFor(BookAfter(calls), LineageOf(calls))
    ensures BookOutcome(BookAfter(calls), c).1 == Lineage.Answer(LineageOf(calls), CallOf(c))
  {
    if calls != [] {
      var front, last := calls[..|calls| - 1], calls[|calls| - 1];
      ReachableBooksAreSound(front, last);
      CallAtLineage(BookAfter(front), LineageOf(front), last);
    }
    CallAtLineage(BookAfter(calls), LineageOf(calls), c);
  }

  // --------------------------------------------------- one symbol's step

  /** What the session keeps for one symbol. */
  datatype SymbolState = SymbolState(book: Book, gate: Gate.GateState)

  const FRESH: SymbolState := SymbolState(NO_BOOK, Gate.INVALIDATED)

  /** One event. The gate moves before the book, so a raise can leave them apart. */
  ghost function StepOutcome(s: SymbolState, e: Event): (SymbolState, Outcome) {
    if e.exchange != Binance then (s, Raised(WrongStream))
    else if e.channel != Orderbook then (s, Done)
    else if e.messageType == Snapshot then
      if e.payload.NotAnObject? || e.payload.lastUpdateId.None? then (s, Raised(Malformed))
      else
        var id := e.payload.lastUpdateId.value;
        var (book, loaded) := Loaded(s.book, e.payload.snapshotBids, e.payload.snapshotAsks, id);
        if loaded.Raised? then (SymbolState(book, s.gate), loaded)
        else
          var (gate, bridged) := Gate.Bootstrapped(s.gate, id, e.connectionId);
          (SymbolState(book, gate), bridged)
    else
      var (gate, verdict) := Gate.Judge(s.gate, e.symbol, e);
      match verdict
      case Rejected(error) => (SymbolState(s.book, gate), Raised(error))
      case Stale => (SymbolState(s.book, gate), Done)
      case Accepted =>
        var (book, applied) := Advanced(s.book, e.payload.bids, e.payload.asks, e.payload.finalId.value);
        (SymbolState(book, gate), applied)
  }

  ghost function Step(s: SymbolState, e: Event): Result<SymbolState, ReplayError> {
    var (next, outcome) := StepOutcome(s, e);
    if outcome.Raised? then Err(outcome.error) else Ok(next)
  }

  function SymbolOf(e: Event): string { e.symbol }

  /** A replay that stops at the first raise: the state per symbol, or the error. */
  ghost function Replay(events: seq<Event>): Result<map<string, SymbolState>, ReplayError> {
    KeyedReplay.Run(FRESH, Step, SymbolOf, events)
  }

  ghost function StateOf(m: map<string, SymbolState>, symbol: string): SymbolState {
    KeyedReplay.Get(m, symbol, FRESH)
  }

  // --------------------------------------------------------- the session

  class BinanceReplaySession {
    var books: map<string, BinanceOrderBook>
    var gates: map<string, Gate.BinanceDepthSequenceGate>
    var channelCounts: map<Channel, nat>
    var rawEventCount: nat

    ghost predicate Valid()
      reads this`books, this`gates, books.Values, gates.Values
    {
      && books.Keys == gates.Keys
      && (forall s :: s in books ==> books[s].symbol == s)
      && (forall s :: s in gates ==> gates[s].symbol == s)
    }

    /** The state kept for a symbol; a symbol never seen is fresh. */
    ghost function Of(symbol: string): SymbolState
      requires Valid()
      reads this`books, this`gates, books.Values, gates.Values
    {
      if symbol in books then SymbolState(books[symbol].State(), gates[symbol].State()) else FRESH
    }

    constructor ()
      ensures Valid() && books == map[] && gates == map[] && rawEventCount == 0 && channelCounts == map[]
    {
      books, gates, channelCounts, rawEventCount := map[], map[], map[], 0;
    }

    /** The two `setdefault` calls. */
    method BookAndGate(symbol: string) returns (book: BinanceOrderBook, gate: Gate.BinanceDepthSequenceGate)
      requires Valid()
      modifies this`books, this`gates
      ensures Valid()
      ensures fresh(books.Values - old(books.Values)) && fresh(gates.Values - old(gates.Values))
      ensures symbol in books && books[symbol] == book && gates[symbol] == gate
      ensures SymbolState(book.State(), gate.State()) == old(Of(symbol))
      ensures forall s :: s != symbol ==> Of(s) == old(Of(s))
    {
      if symbol !in books {
        var newBook := new BinanceOrderBook(symbol);
        var newGate := new Gate.BinanceDepthSequenceGate(symbol);
        books := books[symbol := newBook];
        gates := gates[symbol := newGate];
      }
      book, gate := books[symbol], gates[symbol];
    }

    method ApplyOrderbook(e: Event) returns (r: Outcome)
      requires Valid() && e.exchange == Binance && e.channel == Orderbook
      modifies this`books, this`gates, books.Values, gates.Values
      ensures Valid()
      ensures fresh(books.Values - old(books.Values)) && fresh(gates.Values - old(gates.Values))
      ensures (Of(e.symbol), r) == StepOutcome(old(Of(e.symbol)), e)
      ensures forall s :: s != e.symbol ==> Of(s) == old(Of(s))
    {
      var book, gate := BookAndGate(e.symbol);
      label Found:
      assert forall s :: s != e.symbol ==> Of(s) == old(Of(s));
      if e.messageType == Snapshot {
        r := TakeSnapshot(book, gate, e);
      } else {
        r := TakeDelta(book, gate, e);
      }
      forall s | s != e.symbol ensures Of(s) == old@Found(Of(s)) {
        if s in books {
          assert books[s].symbol == s && gates[s].symbol == s;
          assert books[s] != book && gates[s] != gate;
        }
      }
    }

    method CountEvent(channel: Channel)
      requires Valid()
      modifies `rawEventCount, `channelCounts
      ensures Valid()
      ensures rawEventCount == old(rawEventCount) + 1 && channelCounts == Bump(old(channelCounts), channel)
      ensures forall s :: Of(s) == old(Of(s))
    {
      rawEventCount := rawEventCount + 1;
      channelCounts := Bump(channelCounts, channel);
    }

    method Apply(e: Event) returns (r: Outcome)
      requires Valid()
      modifies this, books.Values, gates.Values
      ensures Valid() && fresh(books.Values - old(books.Values)) && fresh(gates.Values - old(gates.Values))
      ensures (Of(e.symbol), r) == StepOutcome(old(Of(e.symbol)), e)
      ensures forall s :: s != e.symbol ==> Of(s) == old(Of(s))
      ensures e.exchange == Binance ==> rawEventCount == old(rawEventCount) + 1
      ensures e.exchange == Binance ==>
        channelCounts == Bump(old(channelCounts), e.channel)
    {
      if e.exchange != Binance {
        return Raised(WrongStream);
      }
      CountEvent(e.channel);
      assert books == old(books) && gates == old(gates);
      assert Of(e.symbol) == old(Of(e.symbol));
      if e.channel == Orderbook {
        label Counted:
        r := ApplyOrderbook(e);
        assert forall s :: s != e.symbol ==> Of(s) == old@Counted(Of(s));
        assert fresh(books.Values - old(books.Values)) && fresh(gates.Values - old(gates.Values));
      } else {
        r := Done;
      }
    }
  }

  method TakeSnapshot(book: BinanceOrderBook, gate: Gate.BinanceDepthSequenceGate, e: Event) returns (r: Outcome)
    requires e.exchange == Binance && e.channel == Orderbook && e.messageType == Snapshot
    modifies book, gate
    ensures (SymbolState(book.State(), gate.State()), r) == StepOutcome(old(SymbolState(book.State(), gate.State())), e)
  {
    if e.payload.NotAnObject? || e.payload.lastUpdateId.None? {
      return Raised(Malformed);
    }
    r := book.LoadSnapshot(e.payload.snapshotBids, e.payload.snapshotAsks, e.payload.lastUpdateId.value);
    if r.Raised? {
      return r;
    }
    r := gate.Bootstrap(e.payload.lastUpdateId.value, e.connectionId);
  }

  method TakeDelta(book: BinanceOrderBook, gate: Gate.BinanceDepthSequenceGate, e: Event) returns (r: Outcome)
    requires e.exchange == Binance && e.channel == Orderbook && e.messageType != Snapshot
    requires gate.symbol == e.symbol
    modifies book, gate
    ensures (SymbolState(book.State(), gate.State()), r) == StepOutcome(old(SymbolState(book.State(), gate.State())), e)
  {
    var verdict := gate.Apply(e);
    if verdict.Rejected? {
      return Raised(verdict.error);
    }
    if verdict.Stale? {
      return Done; // stale relative to the bootstrap snapshot
    }
    r := book.ApplyDelta(e.payload.bids, e.payload.asks, e.payload.finalId.value);
  }

  /** `replay_binance_stream`: feed the session until it raises. */
  method ReplayStream(events: seq<Event>) returns (session: BinanceReplaySession, r: Outcome)
    ensures fresh(session) && session.Valid()
    ensures r.Done? <==> Replay(events).Ok?
    ensures r.Done? ==> forall s :: session.Of(s) == StateOf(Replay(events).value, s)
    ensures r.Done? ==> session.rawEventCount == |events|
    ensures r.Raised? ==> Replay(events) == Err(r.error)
  {
    session := new BinanceReplaySession();
    for i := 0 to |events|
      invariant session.Valid() && fresh(session) && fresh(session.books.Values) && fresh(session.gates.Values)
      invariant Replay(events[..i]).Ok? && session.rawEventCount == i
      invariant forall s :: session.Of(s) == StateOf(Replay(events[..i]).value, s)
    {
      assert events[..i + 1] == events[..i] + [events[i]];
      KeyedReplay.RunSnoc(FRESH, Step, SymbolOf, events[..i], events[i]);
      var outcome := session.Apply(events[i]);
      if outcome.Raised? {
        KeyedReplay.RunError(FRESH, Step, SymbolOf, events, i + 1);
        return session, outcome;
      }
    }
    assert events[..|events|] == events;
    return session, Done;
  }

  /** `replay_binance`: the bounded entry point sorts first. */
  ghost function ReplayBounded(events: seq<Event>): Result<map<string, SymbolState>, ReplayError> {
    Replay(Sorted(events))
  }

  /** The bounded replay does not depend on the order in which the list arrives. */
  lemma ReplayIsDeterministic(events: seq<Event>, shuffled: seq<Event>)
    requires KeysIdentify(events) && multiset(shuffled) == multiset(events)
    ensures ReplayBounded(shuffled) == ReplayBounded(events)
  {
    SortedPermutation(events, shuffled);
  }

  /** No symbol's events can make another symbol's replay raise or change its state. */
  lemma SymbolsAreIndependent(events: seq<Event>)
    ensures Replay(events).Ok? <==> forall s :: Replay(KeyedReplay.Of(events, SymbolOf, s)).Ok?
    ensures Replay(events).Ok? ==>
              forall s ::
                StateOf(Replay(events).value, s) == StateOf(Replay(KeyedReplay.Of(events, SymbolOf, s)).value, s)
  {
    KeyedReplay.SymbolsDoNotInterfere(FRESH, Step, SymbolOf, events);
  }
}
