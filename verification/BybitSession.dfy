/** Which streams a Bybit replay session accepts, told from the messages alone. */
module BybitSession {
  import opened Common
  import opened BybitReplay
  import KeyedReplay

  /** The connection of the last event of this channel and symbol. */
  function LastOn(events: seq<Event>, channel: Channel, symbol: string): Option<string> {
    if events == [] then None
    else
      var e := events[|events| - 1];
      if e.channel == channel && e.symbol == symbol then Some(e.connectionId)
      else LastOn(events[..|events| - 1], channel, symbol)
  }

  /** The symbol's book messages since its last snapshot, on the connection that fed it last. */
  ghost function BookLineage(events: seq<Event>, symbol: string): Lineage
    decreases |events|, 0
  {
    if events == [] then NoLineage
    else
      var front, e := events[..|events| - 1], events[|events| - 1];
      if e.channel == Orderbook && e.symbol == symbol then
        LineageAfter(BookLineageOn(front, symbol, e.connectionId), e.payload)
      else BookLineage(front, symbol)
  }

  /** The same for a given connection: another one has nothing to go on from. */
  ghost function BookLineageOn(events: seq<Event>, symbol: string, connection: string): Lineage
    decreases |events|, 1
  {
    if LastOn(events, Orderbook, symbol) == Some(connection) then BookLineage(events, symbol) else NoLineage
  }

  function TickerMessages(events: seq<Event>, symbol: string): seq<Payload>
    decreases |events|, 0
  {
    if events == [] then []
    else
      var front, e := events[..|events| - 1], events[|events| - 1];
      if e.channel == Ticker && e.symbol == symbol then
        MessagesAfter(TickerMessagesOn(front, symbol, e.connectionId), e.payload)
      else TickerMessages(front, symbol)
  }

  function TickerMessagesOn(events: seq<Event>, symbol: string, connection: string): seq<Payload>
    decreases |events|, 1
  {
    if LastOn(events, Ticker, symbol) == Some(connection) then TickerMessages(events, symbol) else []
  }

  /** The event goes on from the events before it of its symbol, channel and connection; what
      is neither a book nor a ticker event always does. */
  ghost predicate GoesOn(events: seq<Event>, e: Event) {
    match e.channel
    case Orderbook => e.exchange == Bybit && Continues(BookLineageOn(events, e.symbol, e.connectionId), e.payload)
    case Ticker => e.exchange == Bybit && TickerContinues(TickerMessagesOn(events, e.symbol, e.connectionId), e.payload)
    case _ => true
  }

  /** How an event ends that does not go on. */
  ghost function ErrorOf(events: seq<Event>, e: Event): Outcome {
    if e.exchange != Bybit then Raised(WrongStream)
    else if e.channel == Orderbook then Answer(BookLineageOn(events, e.symbol, e.connectionId), e.payload)
    else TickerAnswer(TickerMessagesOn(events, e.symbol, e.connectionId), e.payload)
  }

  ghost predicate AllGoOn(events: seq<Event>) {
    forall n :: 0 <= n < |events| ==> GoesOn(events[..n], events[n])
  }

  /** The state of a symbol is what its messages say. */
  ghost predicate AsTold(events: seq<Event>, symbol: string, s: SymbolState) {
    && Embodies(s.book, BookLineage(events, symbol)) && s.bookConnection == LastOn(events, Orderbook, symbol)
    && Shows(s.ticker, TickerMessages(events, symbol)) && s.tickerConnection == LastOn(events, Ticker, symbol)
  }

  lemma AllGoOnSnoc(events: seq<Event>, e: Event)
    ensures AllGoOn(events + [e]) <==> AllGoOn(events) && GoesOn(events, e)
  {
    var all := events + [e];
    assert all[..|events|] == events && all[|events|] == e;
    forall n | 0 <= n < |events| ensures all[..n] == events[..n] && all[n] == events[n] {
    }
    if AllGoOn(all) {
      forall n | 0 <= n < |events| ensures GoesOn(events[..n], events[n]) {
        assert GoesOn(all[..n], all[n]);
      }
    }
  }

  lemma StepAsTold(events: seq<Event>, e: Event, s: SymbolState)
    requires AsTold(events, e.symbol, s)
    ensures Step(s, e).Ok? <==> GoesOn(events, e)
    ensures Step(s, e).Err? ==> Raised(Step(s, e).error) == ErrorOf(events, e)
    ensures Step(s, e).Ok? ==> AsTold(events + [e], e.symbol, Step(s, e).value)
  {
    assert (events + [e])[..|events|] == events;
    if e.channel == Orderbook {
      var l := BookLineageOn(events, e.symbol, e.connectionId);
      MessageAtLineage(if s.bookConnection == Some(e.connectionId) then s.book else NO_BOOK, l, e.payload);
    } else if e.channel == Ticker {
      var ms := TickerMessagesOn(events, e.symbol, e.connectionId);
      TickerMessageShows(if s.tickerConnection == Some(e.connectionId) then s.ticker else NO_TICKER, ms, e.payload);
    }
  }

  lemma OthersAsTold(events: seq<Event>, e: Event, symbol: string, s: SymbolState)
    requires AsTold(events, symbol, s) && symbol != e.symbol
    ensures AsTold(events + [e], symbol, s)
  {
    assert (events + [e])[..|events|] == events;
  }

  /** A replay accepts a stream if and only if every event goes on from those before it of its
      symbol, channel and connection; each book then is the fold of its snapshot and deltas,
      and each ticker shows the latest of every field. */
  lemma {:induction false} ReplayAcceptsIff(events: seq<Event>)
    ensures Replay(events).Ok? <==> AllGoOn(events)
    ensures Replay(events).Ok? ==> forall symbol :: AsTold(events, symbol, StateOf(Replay(events).value, symbol))
  {
    if events != [] {
      var front, e := events[..|events| - 1], events[|events| - 1];
      assert events == front + [e];
      ReplayAcceptsIff(front);
      AllGoOnSnoc(front, e);
      KeyedReplay.RunSnoc(FRESH, Step, SymbolOf, front, e);
      if Replay(front).Ok? {
        var states := Replay(front).value;
        assert AsTold(front, e.symbol, StateOf(states, e.symbol));
        StepAsTold(front, e, StateOf(states, e.symbol));
        if Replay(events).Ok? {
          forall symbol ensures AsTold(events, symbol, StateOf(Replay(events).value, symbol)) {
            if symbol != e.symbol {
              OthersAsTold(front, e, symbol, StateOf(states, symbol));
            }
          }
        }
      }
    }
  }

  /** A replay that raises does so at the first event that does not go on, with the error that
      the events before it tell. */
  lemma ReplayRaisesAtTheFirst(events: seq<Event>, n: nat)
    requires n < |events| && AllGoOn(events[..n]) && !GoesOn(events[..n], events[n])
    ensures Replay(events).Err? && Raised(Replay(events).error) == ErrorOf(events[..n], events[n])
  {
    ReplayAcceptsIff(events[..n]);
    var s := StateOf(Replay(events[..n]).value, events[n].symbol);
    assert AsTold(events[..n], events[n].symbol, s);
    StepAsTold(events[..n], events[n], s);
    assert events[..n + 1] == events[..n] + [events[n]];
    KeyedReplay.RunSnoc(FRESH, Step, SymbolOf, events[..n], events[n]);
    KeyedReplay.RunError(FRESH, Step, SymbolOf, events, n + 1);
  }
}
