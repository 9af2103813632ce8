/** What the live collector saw is what a replay of its stored events sees. */
module LiveReplay {
  import opened Common
  import opened CaptureQueue
  import opened BybitReplay
  import KeyedReplay
  import Collector = BybitCollector

  /** The events the live check has already been given. */
  function Processed(s: Collector.State): seq<Event> {
    var all := s.intake.captured;
    if s.main.Recording? && all != [] then all[..|all| - 1] else all
  }

  predicate Feeds(e: Event, channel: Channel, symbol: string, connection: string) {
    e.channel == channel && e.symbol == symbol && e.connectionId == connection
  }

  /** Some event of this channel and symbol arrived on this connection. */
  ghost predicate Fed(es: seq<Event>, channel: Channel, symbol: string, connection: string) {
    exists i :: 0 <= i < |es| && Feeds(es[i], channel, symbol, connection)
  }

  lemma FedSnoc(es: seq<Event>, e: Event, channel: Channel, symbol: string, connection: string)
    ensures Fed(es + [e], channel, symbol, connection) <==>
      Fed(es, channel, symbol, connection) || Feeds(e, channel, symbol, connection)
  {
    var all := es + [e];
    if i :| 0 <= i < |es| && Feeds(es[i], channel, symbol, connection) {
      assert all[i] == es[i];
    }
    assert all[|es|] == e;
    if i :| 0 <= i < |all| && Feeds(all[i], channel, symbol, connection) {
      assert i < |es| ==> es[i] == all[i];
    }
  }

  /** For one symbol: the replayed book is the live one if the current connection has fed it,
      and otherwise the live one is still empty; likewise the ticker. */
  ghost predicate Matches(s: Collector.State, processed: seq<Event>, symbol: string, r: SymbolState) {
    && (r.bookConnection == Some(s.live.connection) <==> Fed(processed, Orderbook, symbol, s.live.connection))
    && (r.tickerConnection == Some(s.live.connection) <==> Fed(processed, Ticker, symbol, s.live.connection))
    && (symbol in s.live.books ==>
          s.live.books[symbol] == if r.bookConnection == Some(s.live.connection) then r.book else NO_BOOK)
    && (symbol in s.live.tickers ==>
          s.live.tickers[symbol] == if r.tickerConnection == Some(s.live.connection) then r.ticker else NO_TICKER)
    && (r.bookConnection == Some(s.live.connection) ==> symbol in s.live.books)
    && (r.tickerConnection == Some(s.live.connection) ==> symbol in s.live.tickers)
    && (r.bookConnection.Some? ==> r.bookConnection.value in s.usedConnections)
    && (r.tickerConnection.Some? ==> r.tickerConnection.value in s.usedConnections)
  }

  /** The collector is subscribed to every symbol whose book or ticker it receives. */
  ghost predicate AllConfigured(c: Collector.Config, es: seq<Event>) {
    forall i :: 0 <= i < |es| && (es[i].channel == Orderbook || es[i].channel == Ticker) ==> es[i].symbol in c.symbols
  }

  /** Until the live check first fails, a replay follows it state by state; once it has failed
      on a configured symbol, the replay has failed too. */
  ghost predicate Simulates(c: Collector.Config, s: Collector.State) {
    && (s.live.uncertainties > 0 && AllConfigured(c, Processed(s)) ==> Replay(Processed(s)).Err?)
    && (s.live.connection != "" ==> s.live.books.Keys == c.symbols && s.live.tickers.Keys == c.symbols)
    && (s.live.uncertain ==> s.live.uncertainties > 0)
    && (s.live.connection == "" ==> Processed(s) == [])
    && (s.live.uncertainties == 0 ==>
          && Replay(Processed(s)).Ok?
          && forall symbol :: Matches(s, Processed(s), symbol, StateOf(Replay(Processed(s)).value, symbol)))
    && (s.main.Recording? ==> s.intake.captured != [] && s.main.event == s.intake.captured[|s.intake.captured| - 1]
                              && s.main.event.connectionId == s.live.connection
                              && s.live.connection in s.usedConnections)
    && (s.main.Recording? ==> s.main.event.exchange == Bybit)
    && (forall i :: 0 <= i < |s.intake.captured| ==> s.intake.captured[i].connectionId in s.usedConnections)
    && "" !in s.usedConnections
    && (s.live.connection != "" ==> s.live.connection in s.usedConnections)
  }

  lemma ConnectSimulates(c: Collector.Config, s: Collector.State, id: string)
    requires Simulates(c, s) && Collector.Enabled(s, Collector.Connect(id))
    ensures Simulates(c, Collector.Next(c, s, Collector.Connect(id)))
  {
    var n := Collector.Next(c, s, Collector.Connect(id));
    assert Processed(n) == Processed(s);
    if n.live.uncertainties == 0 {
      forall symbol ensures Matches(n, Processed(n), symbol, StateOf(Replay(Processed(n)).value, symbol)) {
        assert Matches(s, Processed(s), symbol, StateOf(Replay(Processed(s)).value, symbol));
        assert !Fed(Processed(n), Orderbook, symbol, id) && !Fed(Processed(n), Ticker, symbol, id);
      }
    }
  }

  lemma ReceiveSimulates(c: Collector.Config, s: Collector.State, frame: Collector.Frame, now: int)
    requires Simulates(c, s) && Collector.Enabled(s, Collector.Receive(frame, now))
    ensures Simulates(c, Collector.Received(c, s, frame, now))
  {
    var n := Collector.Received(c, s, frame, now);
    assert Processed(n) == Processed(s);
    if n.live.uncertainties == 0 {
      forall symbol ensures Matches(n, Processed(n), symbol, StateOf(Replay(Processed(n)).value, symbol)) {
        assert Matches(s, Processed(s), symbol, StateOf(Replay(Processed(s)).value, symbol));
      }
    }
  }

  lemma RecordFailsTogether(c: Collector.Config, s: Collector.State)
    requires Simulates(c, s) && s.main.Recording?
    requires Collector.Checked(s.live, s.main.event).uncertainties > 0
    requires AllConfigured(c, Processed(s) + [s.main.event])
    ensures Replay(Processed(s) + [s.main.event]).Err?
  {
    var e, before := s.main.event, Processed(s);
    var all := before + [e];
    KeyedReplay.RunSnoc(FRESH, Step, SymbolOf, before, e);
    assert all[|before|] == e;
    assert AllConfigured(c, before) by {
      forall i | 0 <= i < |before| && (before[i].channel == Orderbook || before[i].channel == Ticker)
        ensures before[i].symbol in c.symbols
      {
        assert all[i] == before[i];
      }
    }
    if s.live.uncertainties == 0 {
      assert Matches(s, before, e.symbol, StateOf(Replay(before).value, e.symbol));
    }
  }

  /** While the live check is content the replay takes the event too, and only its symbol's
      state changes. */
  lemma RecordReplays(c: Collector.Config, s: Collector.State)
    requires Simulates(c, s) && s.main.Recording?
    requires Collector.Checked(s.live, s.main.event).uncertainties == 0
    ensures
      var e, before := s.main.event, Processed(s);
      && Replay(before).Ok?
      && var step := Step(StateOf(Replay(before).value, e.symbol), e);
         step.Ok? && Replay(before + [e]) == Ok(Replay(before).value[e.symbol := step.value])
  {
    var e, before := s.main.event, Processed(s);
    KeyedReplay.RunSnoc(FRESH, Step, SymbolOf, before, e);
    assert Matches(s, before, e.symbol, StateOf(Replay(before).value, e.symbol));
  }

  /** The live check of one event leaves the other symbols' books and tickers alone. */
  lemma OthersUnchecked(l: Collector.Live, e: Event, symbol: string)
    requires symbol != e.symbol
    ensures
      var m := Collector.Checked(l, e);
      && m.connection == l.connection
      && (symbol in m.books <==> symbol in l.books) && (symbol in l.books ==> m.books[symbol] == l.books[symbol])
      && (symbol in m.tickers <==> symbol in l.tickers)
      && (symbol in l.tickers ==> m.tickers[symbol] == l.tickers[symbol])
  {
  }

  lemma StillMatches(s: Collector.State, n: Collector.State, before: seq<Event>, e: Event, symbol: string,
                     r: SymbolState)
    requires Matches(s, before, symbol, r) && symbol != e.symbol && n.usedConnections == s.usedConnections
    requires n.live.connection == s.live.connection
    requires (symbol in n.live.books <==> symbol in s.live.books)
    requires (symbol in s.live.books ==> n.live.books[symbol] == s.live.books[symbol])
    requires (symbol in n.live.tickers <==> symbol in s.live.tickers)
    requires (symbol in s.live.tickers ==> n.live.tickers[symbol] == s.live.tickers[symbol])
    ensures Matches(n, before + [e], symbol, r)
  {
    FedSnoc(before, e, Orderbook, symbol, s.live.connection);
    FedSnoc(before, e, Ticker, symbol, s.live.connection);
  }

  /** A symbol the event is not about. */
  lemma OthersMatch(c: Collector.Config, s: Collector.State, symbol: string)
    requires Simulates(c, s) && s.main.Recording? && symbol != s.main.event.symbol
    requires Collector.Checked(s.live, s.main.event).uncertainties == 0
    ensures
      var n, all := Collector.Next(c, s, Collector.Record), Processed(s) + [s.main.event];
      Matches(n, all, symbol, StateOf(Replay(Processed(s)).value, symbol))
  {
    OthersUnchecked(s.live, s.main.event, symbol);
    assert Matches(s, Processed(s), symbol, StateOf(Replay(Processed(s)).value, symbol));
    var n, r := Collector.Next(c, s, Collector.Record), StateOf(Replay(Processed(s)).value, symbol);
    StillMatches(s, n, Processed(s), s.main.event, symbol, r);
  }

  /** The symbol of the event: the live check and the replay take the same step. */
  lemma SameStep(c: Collector.Config, s: Collector.State)
    requires Simulates(c, s) && s.main.Recording?
    requires Collector.Checked(s.live, s.main.event).uncertainties == 0
    ensures
      var e, before := s.main.event, Processed(s);
      var state := StateOf(Replay(before).value, e.symbol);
      && Step(state, e).Ok?
      && Matches(Collector.Next(c, s, Collector.Record), before + [e], e.symbol, Step(state, e).value)
  {
    var e, before := s.main.event, Processed(s);
    assert Matches(s, before, e.symbol, StateOf(Replay(before).value, e.symbol));
    FedSnoc(before, e, Orderbook, e.symbol, s.live.connection);
    FedSnoc(before, e, Ticker, e.symbol, s.live.connection);
  }

  /** The symbols' states after the live check and after the replay of one more event. */
  lemma RecordMatches(c: Collector.Config, s: Collector.State, symbol: string)
    requires Simulates(c, s) && s.main.Recording?
    requires Collector.Checked(s.live, s.main.event).uncertainties == 0
    ensures
      var all := Processed(s) + [s.main.event];
      && Replay(all).Ok?
      && Matches(Collector.Next(c, s, Collector.Record), all, symbol, StateOf(Replay(all).value, symbol))
  {
    RecordReplays(c, s);
    if symbol == s.main.event.symbol {
      SameStep(c, s);
    } else {
      OthersMatch(c, s, symbol);
    }
  }

  lemma RecordSimulates(c: Collector.Config, s: Collector.State)
    requires Simulates(c, s) && s.main.Recording?
    ensures Simulates(c, Collector.Next(c, s, Collector.Record))
  {
    var n, e, before := Collector.Next(c, s, Collector.Record), s.main.event, Processed(s);
    assert s.intake.captured == before + [e] && Processed(n) == before + [e];
    if n.live.uncertainties > 0 && AllConfigured(c, before + [e]) {
      RecordFailsTogether(c, s);
    }
    if n.live.uncertainties == 0 {
      RecordMatches(c, s, e.symbol);
      forall symbol ensures Matches(n, Processed(n), symbol, StateOf(Replay(Processed(n)).value, symbol)) {
        RecordMatches(c, s, symbol);
      }
    }
  }

  /** Steps that leave the live state and the history of enqueued events alone. */
  lemma SameLiveState(c: Collector.Config, s: Collector.State, n: Collector.State)
    requires Simulates(c, s)
    requires n.live == s.live && n.intake.captured == s.intake.captured && n.usedConnections == s.usedConnections
    requires n.main == s.main || (s.main == Collector.Ready && n.main == Collector.Stopped)
    ensures Simulates(c, n)
  {
    assert Processed(n) == Processed(s);
    if n.live.uncertainties == 0 {
      forall symbol ensures Matches(n, Processed(n), symbol, StateOf(Replay(Processed(n)).value, symbol)) {
        assert Matches(s, Processed(s), symbol, StateOf(Replay(Processed(s)).value, symbol));
      }
    }
  }

  lemma {:induction false} EveryInterleavingSimulates(c: Collector.Config, actions: seq<Collector.Action>)
    requires Collector.After(c, actions).Some?
    ensures Simulates(c, Collector.After(c, actions).value)
  {
    if actions != [] {
      var front, a := actions[..|actions| - 1], actions[|actions| - 1];
      EveryInterleavingSimulates(c, front);
      var s := Collector.After(c, front).value;
      match a
      case Connect(id) => ConnectSimulates(c, s, id);
      case Receive(frame, now) => ReceiveSimulates(c, s, frame, now);
      case Record => RecordSimulates(c, s);
      case Stop => SameLiveState(c, s, Collector.Next(c, s, a));
      case Write(due) => SameLiveState(c, s, Collector.Next(c, s, a));
      case WriteFails(_) => SameLiveState(c, s, Collector.Next(c, s, a));
    }
  }

  /** The live state of every symbol the current connection has fed is in the replay. */
  ghost predicate ShowsLiveState(s: Collector.State, replayed: map<string, SymbolState>) {
    && (forall symbol :: Fed(s.intake.pipe.store, Orderbook, symbol, s.live.connection) ==>
          symbol in s.live.books && StateOf(replayed, symbol).book == s.live.books[symbol])
    && (forall symbol :: Fed(s.intake.pipe.store, Ticker, symbol, s.live.connection) ==>
          symbol in s.live.tickers && StateOf(replayed, symbol).ticker == s.live.tickers[symbol])
  }

  lemma CaptureOrderShowsLiveState(c: Collector.Config, s: Collector.State)
    requires Simulates(c, s) && s.live.uncertainties == 0 && Processed(s) == s.intake.pipe.store
    ensures Replay(s.intake.pipe.store).Ok? && ShowsLiveState(s, Replay(s.intake.pipe.store).value)
  {
    var replayed := Replay(s.intake.pipe.store).value;
    forall symbol | Fed(s.intake.pipe.store, Orderbook, symbol, s.live.connection)
      ensures symbol in s.live.books && StateOf(replayed, symbol).book == s.live.books[symbol]
    {
      assert Matches(s, Processed(s), symbol, StateOf(replayed, symbol));
    }
    forall symbol | Fed(s.intake.pipe.store, Ticker, symbol, s.live.connection)
      ensures symbol in s.live.tickers && StateOf(replayed, symbol).ticker == s.live.tickers[symbol]
    {
      assert Matches(s, Processed(s), symbol, StateOf(replayed, symbol));
    }
  }

  /** If a collector run, over any reconnects, has stopped and drained and never became
      uncertain, then replaying its stored events in any order does not raise, and every
      symbol the current connection has fed has exactly its live book and ticker. */
  lemma ReplayReproducesLiveState(c: Collector.Config, actions: seq<Collector.Action>, stored: seq<Event>)
    requires c.bounds.maxBatch > 0 && Collector.After(c, actions).Some?
    requires Collector.After(c, actions).value.intake.pipe.writer == Exited
    requires Collector.After(c, actions).value.live.uncertainties == 0
    requires multiset(stored) == multiset(Collector.After(c, actions).value.intake.pipe.store)
    ensures ReplayBounded(stored).Ok?
    ensures ShowsLiveState(Collector.After(c, actions).value, ReplayBounded(stored).value)
  {
    var s := Collector.After(c, actions).value;
    Collector.EveryInterleavingIsLossless(c, actions);
    QuiescenceIsComplete(c.bounds, s.intake);
    EveryInterleavingSimulates(c, actions);
    CaptureOrderShowsLiveState(c, s);
    SortedStoreIsCapture(c.bounds, s.intake, stored);
  }

  /** The live check and the replay stand or fall together: if every symbol received is a
      configured one, the stored events replay without a raise exactly when the collector
      never became uncertain. (An unconfigured symbol makes the collector uncertain by a
      KeyError that a replay, which creates books on demand, does not have.) */
  lemma ReplaySucceedsIffLiveWasCertain(c: Collector.Config, actions: seq<Collector.Action>, stored: seq<Event>)
    requires c.bounds.maxBatch > 0 && Collector.After(c, actions).Some?
    requires Collector.After(c, actions).value.intake.pipe.writer == Exited
    requires multiset(stored) == multiset(Collector.After(c, actions).value.intake.pipe.store)
    requires AllConfigured(c, Collector.After(c, actions).value.intake.pipe.store)
    ensures ReplayBounded(stored).Ok? <==> Collector.After(c, actions).value.live.uncertainties == 0
  {
    var s := Collector.After(c, actions).value;
    Collector.EveryInterleavingIsLossless(c, actions);
    QuiescenceIsComplete(c.bounds, s.intake);
    EveryInterleavingSimulates(c, actions);
    SortedStoreIsCapture(c.bounds, s.intake, stored);
    assert Processed(s) == s.intake.pipe.store;
  }
}
