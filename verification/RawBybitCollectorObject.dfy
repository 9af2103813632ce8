/** The collector object. Each method up to `Count` is one uninterrupted stretch of one thread
    and is proved against the corresponding step of the protocol in BybitCollector; the loop
    of the writer after a stop is proved to be those steps in turn. */
module RawBybitCollectorObject {
  import opened Common
  import opened BybitReplay
  import opened BybitCollector
  import opened CaptureQueue

  ghost function BooksOf(books: map<string, BybitOrderBook>): map<string, Book>
    reads books.Values
  {
    map s | s in books :: books[s].State()
  }

  ghost function TickersOf(tickers: map<string, BybitTickerState>): map<string, TickerState>
    reads tickers.Values
  {
    map s | s in tickers :: tickers[s].State()
  }

  class RawBybitCollector {
    const config: Config

    // shared between the threads
    var queue: seq<Event>
    var backgroundStop: bool
    var eventsReceived: nat
    var eventsWritten: nat
    var droppedEventCount: nat
    var sequenceUncertaintyCount: nat

    // main thread
    var connectionId: string
    var receiveSequence: nat
    var books: map<string, BybitOrderBook>
    var tickers: map<string, BybitTickerState>
    var sequenceUncertain: bool

    // writer thread
    var store: seq<Event>

    // history
    ghost var captured: seq<Event>
    ghost var handled: nat
    ghost var refused: nat
    ghost var clock: int
    ghost var usedConnections: set<string>

    ghost predicate Valid()
      reads this`books, this`tickers, books.Values, tickers.Values
    {
      && (forall s :: s in books ==> books[s].symbol == s)
      && (forall s :: s in tickers ==> tickers[s].symbol == s)
    }

    ghost function LiveState(): Live
      reads this`connectionId, this`books, this`tickers, this`sequenceUncertain, this`sequenceUncertaintyCount,
            books.Values, tickers.Values
    {
      Live(connectionId, BooksOf(books), TickersOf(tickers), sequenceUncertain, sequenceUncertaintyCount)
    }

    ghost function PipeState(writer: WriterPc, batch: seq<Event>): Pipe<Event>
      reads `queue, `store, `eventsWritten
    {
      Pipe(writer, queue, batch, store, eventsWritten)
    }

    ghost function IntakeState(writer: WriterPc, batch: seq<Event>): Intake<Payload>
      reads `queue, `store, `eventsWritten, `backgroundStop, `receiveSequence, `droppedEventCount,
            `captured, `handled, `refused, `clock
    {
      Intake(PipeState(writer, batch), backgroundStop, receiveSequence, droppedEventCount,
             captured, handled, refused, clock)
    }

    /** The protocol state, given where the two threads stand and the writer's local batch. */
    ghost function Protocol(main: MainPc, writer: WriterPc, batch: seq<Event>): State
      reads this, books.Values, tickers.Values
    {
      BybitCollector.State(main, IntakeState(writer, batch), LiveState(), eventsReceived, usedConnections)
    }

    constructor (config: Config)
      ensures this.config == config && Valid() && Protocol(Ready, Checking, []) == INITIAL
    {
      this.config := config;
      queue, store, backgroundStop := [], [], false;
      eventsReceived, eventsWritten, droppedEventCount, sequenceUncertaintyCount := 0, 0, 0, 0;
      connectionId, receiveSequence, books, tickers, sequenceUncertain := "", 0, map[], map[], false;
      captured, handled, refused, clock, usedConnections := [], 0, 0, 0, {};
    }

    method FreshBooks() returns (made: map<string, BybitOrderBook>)
      ensures made.Keys == config.symbols
      ensures forall s :: s in made ==> fresh(made[s]) && made[s].symbol == s
      ensures BooksOf(made) == NoBooks(config.symbols)
    {
      made := map[];
      var rest := config.symbols;
      while rest != {}
        invariant rest <= config.symbols && made.Keys == config.symbols - rest
        invariant forall s :: s in made ==> fresh(made[s]) && made[s].symbol == s && made[s].State() == NO_BOOK
        decreases rest
      {
        var s :| s in rest;
        var book := new BybitOrderBook(s);
        made := made[s := book];
        rest := rest - {s};
      }
    }

    method FreshTickers() returns (made: map<string, BybitTickerState>)
      ensures made.Keys == config.symbols
      ensures forall s :: s in made ==> fresh(made[s]) && made[s].symbol == s
      ensures TickersOf(made) == NoTickers(config.symbols)
    {
      made := map[];
      var rest := config.symbols;
      while rest != {}
        invariant rest <= config.symbols && made.Keys == config.symbols - rest
        invariant forall s :: s in made ==> fresh(made[s]) && made[s].symbol == s && made[s].State() == NO_TICKER
        decreases rest
      {
        var s :| s in rest;
        var ticker := new BybitTickerState(s);
        made := made[s := ticker];
        rest := rest - {s};
      }
    }

    method PrepareConnection(id: string)
      modifies `connectionId, `sequenceUncertain, `books, `tickers, `usedConnections
      ensures Valid() && fresh(books.Values) && fresh(tickers.Values)
      ensures LiveState() == Connected(config, old(LiveState()), id)
      ensures usedConnections == old(usedConnections) + {id}
    {
      var newBooks := FreshBooks();
      var newTickers := FreshTickers();
      assert BooksOf(newBooks) == NoBooks(config.symbols);
      Adopt(id, newBooks, newTickers);
    }

    method Adopt(id: string, newBooks: map<string, BybitOrderBook>, newTickers: map<string, BybitTickerState>)
      modifies `connectionId, `sequenceUncertain, `books, `tickers, `usedConnections
      ensures books == newBooks && tickers == newTickers
      ensures LiveState() == old(Live(id, BooksOf(newBooks), TickersOf(newTickers), false, sequenceUncertaintyCount))
      ensures usedConnections == old(usedConnections) + {id}
    {
      connectionId, sequenceUncertain := id, false;
      books, tickers := newBooks, newTickers;
      usedConnections := usedConnections + {id};
    }

    /** `_fail_closed`, as far as the counters go. */
    method FailClosed(ghost writer: WriterPc, ghost batch: seq<Event>)
      modifies `droppedEventCount, `refused
      ensures IntakeState(writer, batch) == Dropped(old(IntakeState(writer, batch)))
    {
      droppedEventCount := droppedEventCount + 1;
      refused := refused + 1;
    }

    /** Into the queue if the message parsed to an event and there is room. */
    method Offer(event: Option<Event>, ghost writer: WriterPc, ghost batch: seq<Event>) returns (put: bool)
      modifies `droppedEventCount, `refused, `queue, `captured
      ensures put == (event.Some? && old(|queue|) < config.bounds.capacity)
      ensures !put ==> IntakeState(writer, batch) == Dropped(old(IntakeState(writer, batch)))
      ensures put ==> IntakeState(writer, batch) == CaptureQueue.Put(old(IntakeState(writer, batch)), event.value)
    {
      if event.None? { // RawEventError
        FailClosed(writer, batch);
        return false;
      }
      if |queue| >= config.bounds.capacity { // queue.Full
        FailClosed(writer, batch);
        return false;
      }
      queue := queue + [event.value];
      captured := captured + [event.value];
      return true;
    }

    /** A message on its way to the queue. */
    method Admit(frame: Frame, now: int, ghost writer: WriterPc, ghost batch: seq<Event>) returns (e: Option<Event>)
      modifies `droppedEventCount, `refused, `handled, `receiveSequence, `clock, `queue, `captured
      ensures IntakeState(writer, batch) == Admitted(config, old(IntakeState(writer, batch)), connectionId, frame, now)
      ensures e == if old(Room(config.bounds, IntakeState(writer, batch)))
                   then Parsed(connectionId, old(receiveSequence) + 1, frame, now) else None
    {
      handled := handled + 1;
      if frame.Undecodable? {
        FailClosed(writer, batch);
        return None;
      }
      receiveSequence := receiveSequence + 1;
      clock := now;
      var event := Parsed(connectionId, receiveSequence, frame, now);
      var put := Offer(event, writer, batch);
      return if put then event else None;
    }

    /** The first half of `handle_raw_message`, up to and including `put_nowait`. */
    method EnqueueMessage(frame: Frame, now: int, ghost writer: WriterPc, ghost batch: seq<Event>)
      returns (e: Option<Event>)
      modifies `droppedEventCount, `refused, `handled, `receiveSequence, `clock, `queue, `captured
      ensures Protocol(if e.Some? then Recording(e.value) else Ready, writer, batch)
              == Received(config, old(Protocol(Ready, writer, batch)), frame, now)
    {
      e := Admit(frame, now, writer, batch);
      assert LiveState() == old(LiveState());
    }

    /** The second half: `record_event`, then the live sequence check. */
    method RecordMessage(e: Event)
      requires Valid()
      modifies `eventsReceived, `sequenceUncertain, `sequenceUncertaintyCount, books.Values, tickers.Values
      ensures Valid()
      ensures eventsReceived == old(eventsReceived) + 1
      ensures LiveState() == Checked(old(LiveState()), e)
    {
      eventsReceived := eventsReceived + 1;
      if sequenceUncertain {
        return;
      }
      if e.channel == Orderbook {
        CheckBook(e);
      } else if e.channel == Ticker {
        CheckTicker(e);
      }
    }

    method BecomeUncertain()
      modifies `sequenceUncertain, `sequenceUncertaintyCount
      ensures LiveState() == Doubtful(old(LiveState()))
    {
      sequenceUncertain := true;
      sequenceUncertaintyCount := sequenceUncertaintyCount + 1;
    }

    method CheckBook(e: Event)
      requires Valid() && e.channel == Orderbook && !sequenceUncertain
      modifies `sequenceUncertain, `sequenceUncertaintyCount, books.Values
      ensures Valid()
      ensures LiveState() == Checked(old(LiveState()), e)
    {
      if e.symbol !in books {
        BecomeUncertain(); // KeyError
        return;
      }
      var book := books[e.symbol];
      assert forall s :: s in books && s != e.symbol ==> books[s] != book;
      var outcome := book.ApplyEvent(e);
      assert BooksOf(books) == old(BooksOf(books))[e.symbol := book.State()];
      assert LiveState() == old(LiveState()).(books := BooksOf(books));
      if outcome.Raised? {
        BecomeUncertain();
      }
    }

    method CheckTicker(e: Event)
      requires Valid() && e.channel == Ticker && !sequenceUncertain
      modifies `sequenceUncertain, `sequenceUncertaintyCount, tickers.Values
      ensures Valid()
      ensures LiveState() == Checked(old(LiveState()), e)
    {
      if e.symbol !in tickers {
        BecomeUncertain(); // KeyError
        return;
      }
      var ticker := tickers[e.symbol];
      assert forall s :: s in tickers && s != e.symbol ==> tickers[s] != ticker;
      var outcome := ticker.ApplyEvent(e);
      assert TickersOf(tickers) == old(TickersOf(tickers))[e.symbol := ticker.State()];
      assert LiveState() == old(LiveState()).(tickers := TickersOf(tickers));
      if outcome.Raised? {
        BecomeUncertain();
      }
    }

    // ------------------------------------------------- the writer thread

    predicate KeepsRunning(batch: seq<Event>)
      reads `backgroundStop, `queue
    {
      !backgroundStop || queue != [] || batch != []
    }

    predicate Flushes(batch: seq<Event>, due: bool)
      reads `backgroundStop, `queue
    {
      batch != [] && (due || |batch| >= config.bounds.maxBatch || (backgroundStop && queue == []))
    }

    /** The loop's condition. */
    method Check(batch: seq<Event>, ghost due: bool) returns (again: bool)
      ensures PipeState(if again then Getting else Exited, batch) ==
        Wrote(config.bounds, PipeState(Checking, batch), backgroundStop, due)
    {
      return KeepsRunning(batch);
    }

    /** `get` with a time-out. */
    method Take(batch: seq<Event>, ghost due: bool) returns (next: seq<Event>)
      modifies `queue
      ensures PipeState(Deciding, next) ==
        Wrote(config.bounds, old(PipeState(Getting, batch)), backgroundStop, due)
    {
      next := batch;
      if queue != [] {
        next := batch + [queue[0]];
        queue := queue[1..];
      }
    }

    /** Whether the batch is to be written now. */
    method Decide(batch: seq<Event>, due: bool) returns (flush: bool)
      ensures PipeState(if flush then Writing else Checking, batch) ==
        Wrote(config.bounds, PipeState(Deciding, batch), backgroundStop, due)
    {
      return Flushes(batch, due);
    }

    /** `write` of a batch: it is stored, or it fails after storing whatever it stored, and the
        drop is counted. */
    method Append(batch: seq<Event>, ghost due: bool) returns (failed: bool, ghost partial: seq<Event>)
      modifies `store, `droppedEventCount
      ensures !failed ==>
        PipeState(Counting, batch) == Wrote(config.bounds, old(PipeState(Writing, batch)), backgroundStop, due)
      ensures failed ==> PipeState(Failed, batch) == WriteFailed(old(PipeState(Writing, batch)), partial)
      ensures droppedEventCount == old(droppedEventCount) + if failed then 1 else 0
    {
      failed := *;
      if failed {
        var stored: seq<Event> := *;
        store, partial := store + stored, stored;
        droppedEventCount := droppedEventCount + 1;
      } else {
        store, partial := store + batch, [];
      }
    }

    /** `record_flush`, and a new batch. */
    method Count(batch: seq<Event>, ghost due: bool)
      modifies `eventsWritten
      ensures PipeState(Checking, []) ==
        Wrote(config.bounds, old(PipeState(Counting, batch)), backgroundStop, due)
    {
      eventsWritten := eventsWritten + |batch|;
    }

    /** The writer thread's loop once `stop` has set `_background_stop`, with the batch it had
        collected by then, while the main thread waits in `join`: it is a run of the
        protocol's writer steps, which ends when the writer exits or an append fails. */
    method WriterLoop(pending: seq<Event>)
      returns (failed: bool, ghost dues: seq<bool>, ghost lost: seq<Event>, ghost partial: seq<Event>)
      requires backgroundStop
      modifies `queue, `store, `eventsWritten, `droppedEventCount
      ensures !failed ==>
        && queue == []
        && PipeState(Exited, []) == Drained(config.bounds, old(PipeState(Checking, pending)), dues)
      ensures failed ==>
        && Drained(config.bounds, old(PipeState(Checking, pending)), dues).writer == Writing
        && PipeState(Failed, lost) ==
           WriteFailed(Drained(config.bounds, old(PipeState(Checking, pending)), dues), partial)
      ensures droppedEventCount == old(droppedEventCount) + if failed then 1 else 0
    {
      ghost var start := PipeState(Checking, pending);
      var batch := pending;
      dues := [];
      while true
        invariant backgroundStop && PipeState(Checking, batch) == Drained(config.bounds, start, dues)
        invariant droppedEventCount == old(droppedEventCount)
        decreases 2 * |queue| + |batch|
      {
        dues := Turn(start, dues, false);
        var again := Check(batch, false);
        if !again {
          return false, dues, [], [];
        }
        dues := Turn(start, dues, false);
        batch := Take(batch, false);
        var due: bool := *;
        dues := Turn(start, dues, due);
        var flush := Decide(batch, due);
        if flush {
          failed, partial := Append(batch, false);
          if failed {
            return true, dues, batch, partial;
          }
          dues := Turn(start, dues, false);
          dues := Turn(start, dues, false);
          Count(batch, false);
          batch := [];
        }
      }
    }

    /** One more answer of the timer. */
    ghost method Turn(start: Pipe<Event>, dues: seq<bool>, due: bool) returns (more: seq<bool>)
      ensures Drained(config.bounds, start, more) ==
        Wrote(config.bounds, Drained(config.bounds, start, dues), true, due)
    {
      more := dues + [due];
      DrainedSnoc(config.bounds, start, dues, due);
    }

    /** `stop`: raise the flags, then let the writer finish or fail. Unless an append fails,
        everything pending and queued ends up in the store, in order; if one fails, what was
        written before it, the batch that was lost and what is left in the queue are still
        everything, and the drop is counted. */
    method StopAndJoin(pending: seq<Event>) returns (failed: bool, ghost lost: seq<Event>, ghost partial: seq<Event>)
      modifies `backgroundStop, `queue, `store, `eventsWritten, `droppedEventCount
      ensures backgroundStop
      ensures !failed ==> queue == [] && store == old(store) + (pending + old(queue))
      ensures !failed ==> eventsWritten - |store| == old(eventsWritten) - |old(store)|
      ensures failed ==> exists written ::
        && store == written + partial && written + lost + queue == old(store) + (pending + old(queue))
        && eventsWritten - |written| == old(eventsWritten) - |old(store)|
      ensures droppedEventCount == old(droppedEventCount) + if failed then 1 else 0
    {
      ghost var start := PipeState(Checking, pending);
      backgroundStop := true;
      ghost var dues;
      failed, dues, lost, partial := WriterLoop(pending);
      DrainedKeepsEverything(config.bounds, start, dues);
      assert Everything(start) == old(store) + (pending + old(queue));
      ghost var end := Drained(config.bounds, start, dues);
      if failed {
        assert store == end.store + partial && end.store + lost + queue == Everything(end);
      } else {
        assert Everything(end) == store;
      }
    }
  }
}
