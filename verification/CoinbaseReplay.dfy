/** Coinbase order-book replay (src/data/coinbase_replay.py): one connection-global gate,
    one book per product. */
module CoinbaseReplay {
  import opened Common
  import opened Levels
  import opened EventOrder
  import Gate = CoinbaseGate
  import KeyedReplay

  type Event = Gate.Event

  // --------------------------------------------------------------- levels

  /** A parsed update; the two sides share one list, in message order. */
  datatype SidedLevel = SidedLevel(isBid: bool, level: Level)

  predicate ValidUpdate(u: Gate.WireUpdate) {
    u.Update? && u.side != Gate.OtherSide && u.price > 0.0 && u.size >= 0.0
  }

  predicate ValidEntry(e: Gate.WireEntry) {
    e.Entry? && forall i :: 0 <= i < |e.updates| ==> ValidUpdate(e.updates[i])
  }

  predicate ValidEntries(es: seq<Gate.WireEntry>) {
    forall i :: 0 <= i < |es| ==> ValidEntry(es[i])
  }

  function SidedUpdates(us: seq<Gate.WireUpdate>): (r: seq<SidedLevel>)
    requires forall i :: 0 <= i < |us| ==> ValidUpdate(us[i])
  {
    seq(|us|, i requires 0 <= i < |us| && ValidUpdate(us[i]) =>
      SidedLevel(us[i].side == Gate.Bid, Level(us[i].price, us[i].size)))
  }

  function SidedLevels(es: seq<Gate.WireEntry>): seq<SidedLevel>
    requires ValidEntries(es)
  {
    if es == [] then [] else SidedLevels(es[..|es| - 1]) + SidedUpdates(es[|es| - 1].updates)
  }

  method ParseEntries(es: seq<Gate.WireEntry>) returns (r: Result<seq<SidedLevel>, ReplayError>)
    ensures r.Ok? <==> ValidEntries(es)
    ensures r.Ok? ==> r.value == SidedLevels(es)
    ensures r.Err? ==> r.error == Malformed
  {
    var result: seq<SidedLevel> := [];
    for n := 0 to |es|
      invariant ValidEntries(es[..n]) && result == SidedLevels(es[..n])
    {
      if es[n].BadEntry? {
        return Err(Malformed);
      }
      var us := es[n].updates;
      ghost var before := result;
      for i := 0 to |us|
        invariant forall j :: 0 <= j < i ==> ValidUpdate(us[j])
        invariant result == before + SidedUpdates(us[..i])
      {
        if !ValidUpdate(us[i]) {
          return Err(Malformed);
        }
        assert SidedUpdates(us[..i + 1]) ==
          SidedUpdates(us[..i]) + [SidedLevel(us[i].side == Gate.Bid, Level(us[i].price, us[i].size))];
        result := result + [SidedLevel(us[i].side == Gate.Bid, Level(us[i].price, us[i].size))];
      }
      assert us[..|us|] == us;
      assert es[..n + 1][..n] == es[..n];
    }
    assert es[..|es|] == es;
    return Ok(result);
  }

  /** The levels of one side, in order. */
  function OfSide(ls: seq<SidedLevel>, isBid: bool): seq<Level> {
    if ls == [] then []
    else
      var front := OfSide(ls[..|ls| - 1], isBid);
      if ls[|ls| - 1].isBid == isBid then front + [ls[|ls| - 1].level] else front
  }

  lemma OfSideSnoc(ls: seq<SidedLevel>, l: SidedLevel, isBid: bool)
    ensures OfSide(ls + [l], isBid) == if l.isBid == isBid then OfSide(ls, isBid) + [l.level] else OfSide(ls, isBid)
  {
    assert (ls + [l])[..|ls|] == ls;
  }

  /** The levels of the updates that name a side, in message order. */
  function Naming(us: seq<Gate.WireUpdate>, side: Gate.BookSide): seq<Level> {
    if us == [] then []
    else
      var front, u := Naming(us[..|us| - 1], side), us[|us| - 1];
      if u.Update? && u.side == side then front + [Level(u.price, u.size)] else front
  }

  function AllNaming(es: seq<Gate.WireEntry>, side: Gate.BookSide): seq<Level> {
    if es == [] then []
    else
      var front, e := AllNaming(es[..|es| - 1], side), es[|es| - 1];
      if e.Entry? then front + Naming(e.updates, side) else front
  }

  lemma {:induction false} OfSideConcat(a: seq<SidedLevel>, b: seq<SidedLevel>, isBid: bool)
    ensures OfSide(a + b, isBid) == OfSide(a, isBid) + OfSide(b, isBid)
  {
    if b == [] {
      assert a + b == a;
    } else {
      var front, l := b[..|b| - 1], b[|b| - 1];
      assert a + b == (a + front) + [l] && b == front + [l];
      OfSideConcat(a, front, isBid);
      OfSideSnoc(a + front, l, isBid);
      OfSideSnoc(front, l, isBid);
    }
  }

  lemma {:induction false} UpdatesKeepTheirSide(us: seq<Gate.WireUpdate>)
    requires forall i :: 0 <= i < |us| ==> ValidUpdate(us[i])
    ensures OfSide(SidedUpdates(us), true) == Naming(us, Gate.Bid)
    ensures OfSide(SidedUpdates(us), false) == Naming(us, Gate.Offer)
  {
    if us != [] {
      var front, u := us[..|us| - 1], us[|us| - 1];
      UpdatesKeepTheirSide(front);
      var l := SidedUpdates(us)[|us| - 1];
      assert SidedUpdates(us) == SidedUpdates(front) + [l];
      OfSideSnoc(SidedUpdates(front), l, true);
      OfSideSnoc(SidedUpdates(front), l, false);
    }
  }

  /** What names the bid side goes to the bids and what names the offer side to the asks, in
      message order and with its price and size. */
  lemma {:induction false} EntriesKeepTheirSide(es: seq<Gate.WireEntry>)
    requires ValidEntries(es)
    ensures OfSide(SidedLevels(es), true) == AllNaming(es, Gate.Bid)
    ensures OfSide(SidedLevels(es), false) == AllNaming(es, Gate.Offer)
  {
    if es != [] {
      var front, e := es[..|es| - 1], es[|es| - 1];
      EntriesKeepTheirSide(front);
      UpdatesKeepTheirSide(e.updates);
      OfSideConcat(SidedLevels(front), SidedUpdates(e.updates), true);
      OfSideConcat(SidedLevels(front), SidedUpdates(e.updates), false);
    }
  }

  /** The loop of `apply_delta` picks the side per update; it does to each side exactly what
      that side's own updates do. */
  method ApplySidedLevels(bids: Side, asks: Side, ls: seq<SidedLevel>) returns (nextBids: Side, nextAsks: Side)
    ensures nextBids == ApplyLevels(bids, OfSide(ls, true))
    ensures nextAsks == ApplyLevels(asks, OfSide(ls, false))
  {
    nextBids, nextAsks := bids, asks;
    for i := 0 to |ls|
      invariant nextBids == ApplyLevels(bids, OfSide(ls[..i], true))
      invariant nextAsks == ApplyLevels(asks, OfSide(ls[..i], false))
    {
      var l := ls[i].level;
      assert ls[..i + 1] == ls[..i] + [ls[i]];
      OfSideSnoc(ls[..i], ls[i], true);
      OfSideSnoc(ls[..i], ls[i], false);
      ApplyLevelsSnoc(bids, OfSide(ls[..i], true), l);
      ApplyLevelsSnoc(asks, OfSide(ls[..i], false), l);
      if ls[i].isBid {
        nextBids := if l.size == 0.0 then nextBids - {l.price} else nextBids[l.price := l.size];
      } else {
        nextAsks := if l.size == 0.0 then nextAsks - {l.price} else nextAsks[l.price := l.size];
      }
    }
    assert ls[..|ls|] == ls;
  }

  // ------------------------------------------------------------ the book

  datatype Book = Book(bids: Side, asks: Side, lastSequence: Option<int>)

  const NO_BOOK: Book := Book(map[], map[], None)

  ghost function Loaded(b: Book, es: seq<Gate.WireEntry>, sequence: Option<int>): (Book, Outcome) {
    if !ValidEntries(es) then (b, Raised(Malformed))
    else
      var ls := SidedLevels(es);
      var next := Book(SnapshotSide(OfSide(ls, true)), SnapshotSide(OfSide(ls, false)), sequence);
      if Uncrossed(next.bids, next.asks) then (next, Done) else (b, Raised(InvalidOrderBook))
  }

  ghost function Advanced(b: Book, es: seq<Gate.WireEntry>, sequence: Option<int>): (Book, Outcome) {
    if b.bids == map[] || b.asks == map[] then (b, Raised(SnapshotRequired))
    else if !ValidEntries(es) then (b, Raised(Malformed))
    else
      var ls := SidedLevels(es);
      var next := Book(ApplyLevels(b.bids, OfSide(ls, true)), ApplyLevels(b.asks, OfSide(ls, false)), sequence);
      if Uncrossed(next.bids, next.asks) then (next, Done) else (b, Raised(InvalidOrderBook))
  }

  class CoinbaseOrderBook {
    const symbol: string
    var bids: Side
    var asks: Side
    var lastSequence: Option<int>

    function State(): Book
      reads this
    {
      Book(bids, asks, lastSequence)
    }

    constructor (symbol: string)
      ensures this.symbol == symbol && State() == NO_BOOK
    {
      this.symbol := symbol;
      bids, asks, lastSequence := map[], map[], None;
    }

    method LoadSnapshot(es: seq<Gate.WireEntry>, sequence: Option<int>) returns (r: Outcome)
      modifies this
      ensures (State(), r) == Loaded(old(State()), es, sequence)
    {
      var levels := ParseEntries(es);
      if levels.Err? {
        return Raised(levels.error);
      }
      var nextBids := BuildSnapshotSide(OfSide(levels.value, true));
      var nextAsks := BuildSnapshotSide(OfSide(levels.value, false));
      var valid := ValidateBook(nextBids, nextAsks);
      if !valid {
        return Raised(InvalidOrderBook);
      }
      bids, asks, lastSequence := nextBids, nextAsks, sequence;
      return Done;
    }

    method ApplyDelta(es: seq<Gate.WireEntry>, sequence: Option<int>) returns (r: Outcome)
      modifies this
      ensures (State(), r) == Advanced(old(State()), es, sequence)
    {
      if bids == map[] || asks == map[] {
        return Raised(SnapshotRequired);
      }
      var levels := ParseEntries(es);
      if levels.Err? {
        return Raised(levels.error);
      }
      var nextBids, nextAsks := ApplySidedLevels(bids, asks, levels.value);
      var valid := ValidateBook(nextBids, nextAsks);
      if !valid {
        return Raised(InvalidOrderBook);
      }
      bids, asks, lastSequence := nextBids, nextAsks, sequence;
      return Done;
    }
  }

  // --------------------------------------------------- one product's step

  /** What an event does to its product's book, once the gate has let it pass. */
  ghost function BookOutcome(b: Book, e: Event): (Book, Outcome) {
    if e.channel != Orderbook then (b, Done)
    else if e.symbol == "ALL" || e.symbol == "MULTI" then (b, Raised(WrongStream))
    else if e.messageType == OtherType then (b, Raised(Malformed))
    else if e.payload.NoEventList? then (b, Raised(Malformed))
    else if e.messageType == Snapshot then Loaded(b, e.payload.entries, e.sequence)
    else Advanced(b, e.payload.entries, e.sequence)
  }

  ghost function BookStep(b: Book, e: Event): Result<Book, ReplayError> {
    var (next, outcome) := BookOutcome(b, e);
    if outcome.Raised? then Err(outcome.error) else Ok(next)
  }

  function SymbolOf(e: Event): string { e.symbol }

  /** The books alone, without a gate. */
  ghost function Books(events: seq<Event>): Result<map<string, Book>, ReplayError> {
    KeyedReplay.Run(NO_BOOK, BookStep, SymbolOf, events)
  }

  ghost function BookOf(m: map<string, Book>, symbol: string): Book {
    KeyedReplay.Get(m, symbol, NO_BOOK)
  }

  datatype SessionState = SessionState(gate: Gate.GateState, books: map<string, Book>)

  /** The session: the gate first, for every channel, then the product's book. */
  ghost function Replay(events: seq<Event>): (r: Result<SessionState, ReplayError>)
    ensures r.Ok? ==> (r.value.gate.connectionId.Some? <==> r.value.gate.lastSequence.Some?)
  {
    if events == [] then Ok(SessionState(Gate.RESET, map[]))
    else
      var e := events[|events| - 1];
      match Replay(events[..|events| - 1])
      case Err(x) => Err(x)
      case Ok(s) =>
        var (gate, verdict) := Gate.Judge(s.gate, e);
        if verdict.Rejected? then Err(verdict.error)
        else
          match BookStep(BookOf(s.books, e.symbol), e)
          case Err(x) => Err(x)
          case Ok(b) => Ok(SessionState(gate, s.books[e.symbol := b]))
  }

  lemma ReplaySnoc(events: seq<Event>, e: Event)
    requires Replay(events).Ok?
    ensures
      var s := Replay(events).value;
      var (gate, verdict) := Gate.Judge(s.gate, e);
      var (book, outcome) := BookOutcome(BookOf(s.books, e.symbol), e);
      Replay(events + [e]) ==
        if verdict.Rejected? then Err(verdict.error)
        else if outcome.Raised? then Err(outcome.error)
        else Ok(SessionState(gate, s.books[e.symbol := book]))
  {
    assert (events + [e])[..|events|] == events;
  }

  /** The session is the gate and the books side by side: it raises exactly when one of them
      would, and neither changes what the other computes. */
  lemma {:induction false} SessionIsGateAndBooks(events: seq<Event>)
    ensures Replay(events).Ok? <==> Gate.After(events).Ok? && Books(events).Ok?
    ensures Replay(events).Ok? ==> Replay(events).value == SessionState(Gate.After(events).value, Books(events).value)
  {
    if events != [] {
      SessionIsGateAndBooks(events[..|events| - 1]);
    }
  }

  // ------------------------------------------------------------- the class

  class CoinbaseReplaySession {
    const gate: Gate.CoinbaseConnectionSequenceGate
    var books: map<string, CoinbaseOrderBook>
    var channelCounts: map<Channel, nat>
    var rawEventCount: nat

    ghost predicate Valid()
      reads this`books, gate, books.Values
    {
      gate.Valid() && forall s :: s in books ==> books[s].symbol == s
    }

    ghost function Of(symbol: string): Book
      reads this`books, books.Values
    {
      if symbol in books then books[symbol].State() else NO_BOOK
    }

    constructor ()
      ensures Valid() && fresh(gate) && gate.State() == Gate.RESET && books == map[] && rawEventCount == 0
    {
      gate := new Gate.CoinbaseConnectionSequenceGate();
      books, channelCounts, rawEventCount := map[], map[], 0;
    }

    method BookFor(symbol: string) returns (book: CoinbaseOrderBook)
      requires Valid()
      modifies this`books
      ensures Valid() && fresh(books.Values - old(books.Values))
      ensures symbol in books && books[symbol] == book
      ensures forall s :: Of(s) == old(Of(s))
    {
      if symbol !in books {
        var newBook := new CoinbaseOrderBook(symbol);
        books := books[symbol := newBook];
      }
      book := books[symbol];
    }

    method ApplyBook(e: Event) returns (r: Outcome)
      requires Valid() && e.channel == Orderbook
      modifies this`books, books.Values
      ensures Valid() && fresh(books.Values - old(books.Values))
      ensures (Of(e.symbol), r) == BookOutcome(old(Of(e.symbol)), e)
      ensures forall s :: s != e.symbol ==> Of(s) == old(Of(s))
    {
      if e.symbol == "ALL" || e.symbol == "MULTI" {
        return Raised(WrongStream);
      }
      if e.messageType != Snapshot && e.messageType != Delta {
        return Raised(Malformed);
      }
      var book := BookFor(e.symbol);
      if e.payload.NoEventList? {
        return Raised(Malformed);
      }
      assert forall s :: s in books && s != e.symbol ==> books[s] != book;
      if e.messageType == Snapshot {
        r := book.LoadSnapshot(e.payload.entries, e.sequence);
      } else {
        r := book.ApplyDelta(e.payload.entries, e.sequence);
      }
    }

    method CountEvent(channel: Channel)
      modifies `rawEventCount, `channelCounts
      ensures rawEventCount == old(rawEventCount) + 1 && channelCounts == Bump(old(channelCounts), channel)
    {
      rawEventCount := rawEventCount + 1;
      channelCounts := Bump(channelCounts, channel);
    }

    method Apply(e: Event) returns (r: Outcome)
      requires Valid()
      modifies this, gate, books.Values
      ensures Valid() && fresh(books.Values - old(books.Values))
      ensures gate.State() == Gate.Judge(old(gate.State()), e).0
      ensures Gate.Judge(old(gate.State()), e).1.Rejected? ==>
        r == Raised(Gate.Judge(old(gate.State()), e).1.error) && forall s :: Of(s) == old(Of(s))
      ensures !Gate.Judge(old(gate.State()), e).1.Rejected? ==>
        (Of(e.symbol), r) == BookOutcome(old(Of(e.symbol)), e) && forall s :: s != e.symbol ==> Of(s) == old(Of(s))
      ensures e.exchange == Coinbase ==> rawEventCount == old(rawEventCount) + 1
      ensures e.exchange == Coinbase ==> channelCounts == Bump(old(channelCounts), e.channel)
    {
      if e.exchange != Coinbase {
        return Raised(WrongStream);
      }
      CountEvent(e.channel);
      var verdict := gate.Observe(e);
      if verdict.Rejected? {
        return Raised(verdict.error);
      }
      if e.channel != Orderbook {
        return Done;
      }
      r := ApplyBook(e);
    }
  }

  /** `replay_coinbase_stream`: feed the session until it raises. */
  method ReplayStream(events: seq<Event>) returns (session: CoinbaseReplaySession, r: Outcome)
    ensures fresh(session) && session.Valid()
    ensures r.Done? <==> Replay(events).Ok?
    ensures r.Done? ==> session.gate.State() == Replay(events).value.gate
    ensures r.Done? ==> forall s :: session.Of(s) == BookOf(Replay(events).value.books, s)
  {
    session := new CoinbaseReplaySession();
    for i := 0 to |events|
      invariant session.Valid() && fresh(session) && fresh(session.gate) && fresh(session.books.Values)
      invariant Replay(events[..i]).Ok?
      invariant session.gate.State() == Replay(events[..i]).value.gate
      invariant forall s :: session.Of(s) == BookOf(Replay(events[..i]).value.books, s)
    {
      assert events[..i + 1] == events[..i] + [events[i]];
      ReplaySnoc(events[..i], events[i]);
      var outcome := session.Apply(events[i]);
      if outcome.Raised? {
        RaiseEnds(events, i + 1);
        return session, outcome;
      }
    }
    assert events[..|events|] == events;
    return session, Done;
  }

  lemma {:induction false} RaiseEnds(events: seq<Event>, n: nat)
    requires n <= |events| && Replay(events[..n]).Err?
    ensures Replay(events) == Replay(events[..n])
  {
    if n == |events| {
      assert events[..n] == events;
    } else {
      assert events[..|events| - 1][..n] == events[..n];
      RaiseEnds(events[..|events| - 1], n);
    }
  }

  // ---------------------------------------------------------- independence

  function L2Of(events: seq<Event>, symbol: string): seq<Event> {
    Filter(events, (e: Event) => e.symbol == symbol && e.channel == Orderbook)
  }

  lemma {:induction false} BookNeedsOnlyL2(events: seq<Event>, symbol: string)
    requires Books(events).Ok?
    ensures Books(L2Of(events, symbol)).Ok?
    ensures BookOf(Books(events).value, symbol) == BookOf(Books(L2Of(events, symbol)).value, symbol)
  {
    if events != [] {
      var front, e := events[..|events| - 1], events[|events| - 1];
      assert events == front + [e];
      BookNeedsOnlyL2(front, symbol);
      FilterSnoc(front, e, (x: Event) => x.symbol == symbol && x.channel == Orderbook);
      KeyedReplay.RunSnoc(NO_BOOK, BookStep, SymbolOf, L2Of(front, symbol), e);
    }
  }

  /** In an accepted stream a product's book is the one its own L2 events alone build. Other
      products, other channels and the connections they came on have no part in it; in
      particular books survive a reconnect. */
  lemma ProductBooksAreIndependent(events: seq<Event>, symbol: string)
    requires Replay(events).Ok?
    ensures Books(L2Of(events, symbol)).Ok?
    ensures BookOf(Replay(events).value.books, symbol) == BookOf(Books(L2Of(events, symbol)).value, symbol)
  {
    SessionIsGateAndBooks(events);
    BookNeedsOnlyL2(events, symbol);
  }

  /** When a stream is accepted, in full: the numbered messages are continuous per connection
      and no product's own L2 events raise. */
  lemma AcceptedIff(events: seq<Event>)
    requires forall i :: 0 <= i < |events| ==> events[i].exchange == Coinbase
    ensures Replay(events).Ok? <==>
      Gate.Continuous(Gate.Numbered(events)) && forall s :: Books(KeyedReplay.Of(events, SymbolOf, s)).Ok?
  {
    SessionIsGateAndBooks(events);
    Gate.AcceptedIffContinuous(events);
    KeyedReplay.SymbolsDoNotInterfere(NO_BOOK, BookStep, SymbolOf, events);
  }

  /** `replay_coinbase` sorts first, so the order in which the list arrives is irrelevant. */
  lemma ReplayIsDeterministic(events: seq<Event>, shuffled: seq<Event>)
    requires KeysIdentify(events) && multiset(shuffled) == multiset(events)
    ensures Replay(Sorted(shuffled)) == Replay(Sorted(events))
  {
    SortedPermutation(events, shuffled);
  }
}
