/** The Bybit raw collector as a protocol between two threads: the main thread, which runs
    the WebSocket callbacks and then `stop`, and the writer thread. They share the capture
    queue and the health counters (src/data/bybit_raw_collector.py,
    src/data/collector_health.py). */
module BybitCollector {
  import opened Common
  import opened CaptureQueue
  import opened BybitReplay

  datatype Config = Config(symbols: set<string>, bounds: Bounds)

  /** Where the main thread is: between messages, between `put_nowait` and the rest of
      `handle_raw_message`, or past setting `_background_stop` in `stop`. */
  datatype MainPc = Ready | Recording(event: Event) | Stopped

  /** The sequence check of the current connection. */
  datatype Live = Live(
    connection: string, books: map<string, Book>, tickers: map<string, TickerState>,
    uncertain: bool, uncertainties: nat)

  datatype State = State(
    main: MainPc, intake: Intake<Payload>, live: Live, eventsReceived: nat,
    usedConnections: set<string>) // history

  const INITIAL: State := State(Ready, Started(), Live("", map[], map[], false, 0), 0, {})

  /** A WebSocket message: not UTF-8, text that `parse_bybit_message` rejects, or the
      envelope fields it parses to. */
  datatype Frame =
    | Undecodable
    | Unparseable
    | Text(channel: Channel, symbol: string, messageType: MessageType, eventId: nat,
           sequence: Option<int>, payload: Payload)

  datatype Action =
    | Connect(id: string)
    | Receive(frame: Frame, now: int)
    | Record
    | Stop
    | Write(due: bool)
    | WriteFails(partial: seq<Event>)

  /** The event a frame parses to; the envelope refuses an empty connection id and a
      non-positive receive time. */
  function Parsed(connection: string, receiveSequence: nat, f: Frame, now: int): Option<Event> {
    if !f.Text? || connection == "" || now <= 0 then None
    else Some(RawEvent(Bybit, f.channel, f.symbol, f.messageType, connection, now, receiveSequence,
                       f.eventId, None, None, f.sequence, f.payload))
  }

  function Admitted(c: Config, i: Intake<Payload>, connection: string, f: Frame, now: int): Intake<Payload> {
    if f.Undecodable? then Undecoded(i) else Taken(c.bounds, i, Parsed(connection, i.receiveSequence + 1, f, now), now)
  }

  /** `uuid4` gives fresh connection ids and the wall clock does not step back. */
  predicate Enabled(s: State, a: Action) {
    match a
    case Connect(id) => s.main == Ready && id != "" && id !in s.usedConnections
    case Receive(frame, now) => s.main == Ready && s.intake.clock <= now
    case Record => s.main.Recording?
    case Stop => s.main == Ready
    case Write(_) => Running(s.intake.pipe)
    case WriteFails(_) => s.intake.pipe.writer == Writing
  }

  function NoBooks(symbols: set<string>): map<string, Book> {
    map x | x in symbols :: NO_BOOK
  }

  function NoTickers(symbols: set<string>): map<string, TickerState> {
    map x | x in symbols :: NO_TICKER
  }

  function Connected(c: Config, l: Live, id: string): Live {
    l.(connection := id, uncertain := false, books := NoBooks(c.symbols), tickers := NoTickers(c.symbols))
  }

  function Received(c: Config, s: State, frame: Frame, now: int): State {
    var event := Parsed(s.live.connection, s.intake.receiveSequence + 1, frame, now);
    s.(intake := Admitted(c, s.intake, s.live.connection, frame, now),
       main := if event.Some? && Room(c.bounds, s.intake) then Recording(event.value) else s.main)
  }

  function Doubtful(l: Live): Live {
    l.(uncertain := true, uncertainties := l.uncertainties + 1)
  }

  /** The live check after a message is enqueued; a raise or an unknown symbol makes the
      connection's sequence state uncertain, and from then on nothing is checked. */
  ghost function Checked(l: Live, e: Event): Live {
    if l.uncertain then l
    else if e.channel == Orderbook then
      if e.symbol !in l.books then Doubtful(l)
      else
        var (book, outcome) := BookEventStep(l.books[e.symbol], e.symbol, e);
        (if outcome.Raised? then Doubtful(l) else l).(books := l.books[e.symbol := book])
    else if e.channel == Ticker then
      if e.symbol !in l.tickers then Doubtful(l)
      else
        var (ticker, outcome) := TickerStep(l.tickers[e.symbol], e.symbol, e);
        (if outcome.Raised? then Doubtful(l) else l).(tickers := l.tickers[e.symbol := ticker])
    else l
  }

  ghost function Next(c: Config, s: State, a: Action): State
    requires Enabled(s, a)
  {
    match a
    case Connect(id) => s.(live := Connected(c, s.live, id), usedConnections := s.usedConnections + {id})
    case Receive(frame, now) => Received(c, s, frame, now)
    case Record => s.(main := Ready, eventsReceived := s.eventsReceived + 1, live := Checked(s.live, s.main.event))
    case Stop => s.(main := Stopped, intake := s.intake.(stopping := true))
    case Write(due) => s.(intake := WriterStep(c.bounds, s.intake, due))
    case WriteFails(partial) => s.(intake := WriterFails(s.intake, partial))
  }

  /** The state after any interleaving; None if some action was not possible where it stands. */
  ghost function After(c: Config, actions: seq<Action>): Option<State> {
    if actions == [] then Some(INITIAL)
    else
      var front := After(c, actions[..|actions| - 1]);
      var a := actions[|actions| - 1];
      if front.None? || !Enabled(front.value, a) then None else Some(Next(c, front.value, a))
  }

  // ------------------------------------------------------- nothing is lost

  /** No event is lost on its way to the store, and every event is counted as received once
      it has been recorded. */
  ghost predicate Accounted(c: Config, s: State) {
    && Lossless(c.bounds, s.intake)
    && s.eventsReceived + (if s.main.Recording? then 1 else 0) == |s.intake.captured|
    && (s.main.Recording? ==> |s.intake.captured| > 0 && s.main.event == s.intake.captured[|s.intake.captured| - 1])
    && (s.intake.stopping <==> s.main == Stopped)
  }

  lemma ReceiveIsLossless(c: Config, s: State, frame: Frame, now: int)
    requires Accounted(c, s) && Enabled(s, Receive(frame, now))
    ensures Accounted(c, Received(c, s, frame, now))
  {
    var event := Parsed(s.live.connection, s.intake.receiveSequence + 1, frame, now);
    if !frame.Undecodable? {
      TakeIsLossless(c.bounds, s.intake, event, now);
    }
  }

  lemma StepIsLossless(c: Config, s: State, a: Action)
    requires c.bounds.maxBatch > 0 && Accounted(c, s) && Enabled(s, a)
    ensures Accounted(c, Next(c, s, a))
  {
    match a
    case Receive(frame, now) => ReceiveIsLossless(c, s, frame, now);
    case Write(due) => WriteIsLossless(c.bounds, s.intake, due);
    case _ =>
  }

  /** Under every interleaving of receiver, writer and stop nothing is lost, reordered or
      duplicated, and the batch stays within its bound. */
  lemma {:induction false} EveryInterleavingIsLossless(c: Config, actions: seq<Action>)
    requires c.bounds.maxBatch > 0 && After(c, actions).Some?
    ensures Accounted(c, After(c, actions).value)
  {
    if actions != [] {
      EveryInterleavingIsLossless(c, actions[..|actions| - 1]);
      StepIsLossless(c, After(c, actions[..|actions| - 1]).value, actions[|actions| - 1]);
    }
  }

  /** `events_written <= events_received` can fail while a message is between `put_nowait`
      and `record_event`; it can fail by that one message and no more. */
  lemma CountersLagByOne(c: Config, s: State)
    requires Accounted(c, s) && s.intake.pipe.writer != Failed
    ensures s.intake.pipe.eventsWritten <= s.eventsReceived + (if s.main.Recording? then 1 else 0)
  {
    var p := s.intake.pipe;
    assert |s.intake.captured| == |p.store| + |InFlight(p)| + |p.queue|;
  }

  // ---------------------------------------------------- what is captured

  predicate IsText(a: Action) {
    a.Receive? && !a.frame.Undecodable?
  }

  /** The sequence number of an event is the number of text messages up to and including its
      own; an event is captured if and only if its message parses, arrives on an open connection
      at a positive time, and finds room in the queue. */
  ghost predicate Numbered(c: Config, actions: seq<Action>) {
    && After(c, actions).Some?
    && After(c, actions).value.intake.receiveSequence == |Filter(actions, IsText)|
  }

  lemma {:induction false} SequenceCountsMessages(c: Config, actions: seq<Action>)
    requires After(c, actions).Some?
    ensures Numbered(c, actions)
  {
    if actions != [] {
      var front, a := actions[..|actions| - 1], actions[|actions| - 1];
      assert actions == front + [a];
      SequenceCountsMessages(c, front);
      FilterSnoc(front, a, IsText);
    }
  }

  /** What one message adds to the capture. */
  lemma CapturedIff(c: Config, actions: seq<Action>, frame: Frame, now: int)
    requires After(c, actions + [Receive(frame, now)]).Some?
    ensures After(c, actions).Some?
    ensures
      var s, n := After(c, actions).value, After(c, actions + [Receive(frame, now)]).value;
      var taken := frame.Text? && s.live.connection != "" && now >= 1 && |s.intake.pipe.queue| < c.bounds.capacity;
      && (!taken ==> n.intake.captured == s.intake.captured && n.intake.dropped == s.intake.dropped + 1)
      && (taken ==>
            && |n.intake.captured| == |s.intake.captured| + 1
            && n.intake.captured[..|s.intake.captured|] == s.intake.captured
            && n.intake.dropped == s.intake.dropped
            && var e := n.intake.captured[|s.intake.captured|];
               && e.exchange == Bybit && e.connectionId == s.live.connection && e.receiveTsNs == now
               && e.receiveSequence == |Filter(actions, IsText)| + 1
               && e.channel == frame.channel && e.symbol == frame.symbol && e.messageType == frame.messageType
               && e.eventId == frame.eventId && e.sequence == frame.sequence && e.payload == frame.payload)
  {
    assert (actions + [Receive(frame, now)])[..|actions|] == actions;
    SequenceCountsMessages(c, actions);
  }

  // --------------------------------------------------------- uncertainty

  /** Every connection becomes uncertain at most once. */
  ghost predicate OnceEach(s: State) {
    && (s.live.connection == "" ==> !s.main.Recording? && !s.live.uncertain && s.live.uncertainties == 0)
    && s.live.uncertainties + (if s.live.uncertain || s.live.connection == "" then 0 else 1) <= |s.usedConnections|
  }

  lemma {:induction false} OneUncertaintyPerConnection(c: Config, actions: seq<Action>)
    requires After(c, actions).Some?
    ensures OnceEach(After(c, actions).value)
  {
    if actions != [] {
      var front, a := actions[..|actions| - 1], actions[|actions| - 1];
      OneUncertaintyPerConnection(c, front);
      if a.Record? {
        CheckedOnce(After(c, front).value.live, After(c, front).value.main.event);
      }
    }
  }

  lemma CheckedOnce(l: Live, e: Event)
    ensures l.uncertain ==> Checked(l, e) == l
    ensures !l.uncertain ==> Checked(l, e).uncertainties == l.uncertainties + if Checked(l, e).uncertain then 1 else 0
    ensures Checked(l, e).connection == l.connection
  {
  }

  /** Once the sequence is in doubt, books and tickers stand still until the next connection. */
  lemma {:induction false} DoubtLastsUntilReconnect(c: Config, actions: seq<Action>, more: seq<Action>)
    requires After(c, actions + more).Some? && After(c, actions).Some? && After(c, actions).value.live.uncertain
    requires forall i :: 0 <= i < |more| ==> !more[i].Connect?
    ensures After(c, actions + more).value.live == After(c, actions).value.live
  {
    if more == [] {
      assert actions + more == actions;
    } else {
      var front := more[..|more| - 1];
      assert (actions + more)[..|actions + more| - 1] == actions + front;
      DoubtLastsUntilReconnect(c, actions, front);
    }
  }

  // ------------------------------------------------------------- draining

  /** The collector has finished: everything captured is in the store in order, both counters
      are its length, and the drop counter accounts for every other message. */
  ghost predicate Complete(s: State) {
    && s.intake.pipe.writer == Exited
    && s.intake.pipe.store == s.intake.captured
    && s.eventsReceived == s.intake.pipe.eventsWritten == |s.intake.pipe.store|
    && s.intake.handled == s.intake.pipe.eventsWritten + s.intake.dropped
  }

  lemma ExitedIsComplete(c: Config, actions: seq<Action>)
    requires c.bounds.maxBatch > 0 && After(c, actions).Some? && After(c, actions).value.intake.pipe.writer == Exited
    ensures Complete(After(c, actions).value)
  {
    EveryInterleavingIsLossless(c, actions);
    QuiescenceIsComplete(c.bounds, After(c, actions).value.intake);
  }

  function Writes(dues: seq<bool>): seq<Action> {
    seq(|dues|, i requires 0 <= i < |dues| => Write(dues[i]))
  }

  /** Stopped, and the writer has not failed: only the writer can still act. */
  ghost predicate Stopping(s: State) {
    s.main == Stopped && s.intake.pipe.writer != Failed
  }

  lemma WriterTurn(c: Config, actions: seq<Action>, due: bool)
    requires c.bounds.maxBatch > 0 && After(c, actions).Some? && Stopping(After(c, actions).value)
    requires After(c, actions).value.intake.pipe.writer != Exited
    ensures After(c, actions + [Write(due)]).Some? && Stopping(After(c, actions + [Write(due)]).value)
    ensures After(c, actions + [Write(due)]).value.intake.captured == After(c, actions).value.intake.captured
    ensures Work(After(c, actions + [Write(due)]).value.intake.pipe) < Work(After(c, actions).value.intake.pipe)
  {
    var p := After(c, actions).value.intake.pipe;
    assert (actions + [Write(due)])[..|actions|] == actions;
    EveryInterleavingIsLossless(c, actions);
    WriterMakesProgress(c.bounds, p, due);
    WriteKeepsEverything(c.bounds, p, true, due);
  }

  lemma WritesCons(actions: seq<Action>, dues: seq<bool>, n: nat)
    requires n < |dues|
    ensures actions + Writes(dues[..n + 1]) == actions + [Write(dues[0])] + Writes(dues[1..][..n])
  {
  }

  lemma NoWrites(actions: seq<Action>, dues: seq<bool>, n: nat)
    requires n == 0
    ensures actions + Writes(dues[..n]) == actions
  {
  }

  /** From any run that has been stopped and whose writer has not failed, the writer's turns
      alone complete the collector within the work left, whatever the timer answers. */
  lemma {:induction false} StopCompletes(c: Config, actions: seq<Action>, dues: seq<bool>) returns (n: nat)
    requires c.bounds.maxBatch > 0 && After(c, actions).Some? && Stopping(After(c, actions).value)
    requires |dues| >= Work(After(c, actions).value.intake.pipe)
    ensures n <= |dues| && After(c, actions + Writes(dues[..n])).Some?
    ensures Complete(After(c, actions + Writes(dues[..n])).value)
    ensures After(c, actions + Writes(dues[..n])).value.intake.captured == After(c, actions).value.intake.captured
    decreases |dues|
  {
    if After(c, actions).value.intake.pipe.writer == Exited {
      n := 0;
      NoWrites(actions, dues, n);
      ExitedIsComplete(c, actions);
    } else {
      WriterTurn(c, actions, dues[0]);
      var m := StopCompletes(c, actions + [Write(dues[0])], dues[1..]);
      n := m + 1;
      WritesCons(actions, dues, m);
    }
  }

  // --------------------------------------------------- flushing in time

  /** The writer's turns with the flush deadline due. */
  function DueWrites(n: nat): seq<Action> {
    seq(n, i => Write(true))
  }

  /** Everything captured is in the store, in order, and counted as written. */
  ghost predicate Flushed(s: State) {
    s.intake.pipe.store == s.intake.captured && s.intake.pipe.eventsWritten == |s.intake.pipe.store|
  }

  lemma DueTurn(c: Config, actions: seq<Action>)
    requires c.bounds.maxBatch > 0 && After(c, actions).Some? && Running(After(c, actions).value.intake.pipe)
    requires !Settled(After(c, actions).value.intake.pipe)
    ensures After(c, actions + [Write(true)]).Some? && Running(After(c, actions + [Write(true)]).value.intake.pipe)
    ensures After(c, actions + [Write(true)]).value.intake.captured == After(c, actions).value.intake.captured
    ensures Work(After(c, actions + [Write(true)]).value.intake.pipe) < Work(After(c, actions).value.intake.pipe)
  {
    var s := After(c, actions).value;
    assert (actions + [Write(true)])[..|actions|] == actions;
    EveryInterleavingIsLossless(c, actions);
    DueMakesProgress(c.bounds, s.intake.pipe, s.intake.stopping);
  }

  lemma SettledIsFlushed(c: Config, actions: seq<Action>)
    requires c.bounds.maxBatch > 0 && After(c, actions).Some? && Running(After(c, actions).value.intake.pipe)
    requires Settled(After(c, actions).value.intake.pipe)
    ensures Flushed(After(c, actions).value)
  {
    var s := After(c, actions).value;
    EveryInterleavingIsLossless(c, actions);
    SettledIsStored(c.bounds, s.intake.pipe, s.intake.stopping);
  }

  lemma DueWritesCons(actions: seq<Action>, n: nat)
    ensures actions + DueWrites(n + 1) == actions + [Write(true)] + DueWrites(n)
  {
  }

  lemma NoDueWrites(actions: seq<Action>, n: nat)
    requires n == 0
    ensures actions + DueWrites(n) == actions
  {
  }

  /** From every reachable state whose writer runs, stopping or not, the writer's turns with
      the deadline due store everything captured so far, within the work left. */
  lemma {:induction false} DeadlineFlushes(c: Config, actions: seq<Action>) returns (n: nat)
    requires c.bounds.maxBatch > 0 && After(c, actions).Some? && Running(After(c, actions).value.intake.pipe)
    ensures n <= Work(After(c, actions).value.intake.pipe)
    ensures After(c, actions + DueWrites(n)).Some? && Flushed(After(c, actions + DueWrites(n)).value)
    ensures After(c, actions + DueWrites(n)).value.intake.captured == After(c, actions).value.intake.captured
    decreases Work(After(c, actions).value.intake.pipe)
  {
    if Settled(After(c, actions).value.intake.pipe) {
      n := 0;
      NoDueWrites(actions, n);
      SettledIsFlushed(c, actions);
    } else {
      DueTurn(c, actions);
      var m := DeadlineFlushes(c, actions + [Write(true)]);
      n := m + 1;
      DueWritesCons(actions, m);
    }
  }

  /** In a run without a due deadline, a stop or a failed append the store holds whole batches
      only. */
  lemma {:induction false} BatchesAreFull(c: Config, actions: seq<Action>)
    requires c.bounds.maxBatch > 0 && After(c, actions).Some?
    requires forall i :: 0 <= i < |actions| ==>
      actions[i] != Write(true) && !actions[i].Stop? && !actions[i].WriteFails?
    ensures !After(c, actions).value.intake.stopping
    ensures OnlyFullBatches(c.bounds, After(c, actions).value.intake.pipe)
  {
    if actions != [] {
      var front, a := actions[..|actions| - 1], actions[|actions| - 1];
      BatchesAreFull(c, front);
      EveryInterleavingIsLossless(c, front);
      if a.Write? {
        WithoutDeadlineBatchesAreFull(c.bounds, After(c, front).value.intake.pipe);
      }
    }
  }
}
