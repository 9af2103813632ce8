/** A Binance replay session taken apart: its gates alone, and the books under the gates'
    verdicts. A session accepts a stream exactly when both do. */
module BinanceSession {
  import opened Common
  import opened Levels
  import opened BinanceReplay
  import Gate = BinanceGate
  import KeyedReplay

  // --------------------------------------------------------- gates alone

  /** What one event does to its symbol's gate, or the error if the gate refuses it. */
  function GateStep(g: Gate.GateState, e: Event): Result<Gate.GateState, ReplayError> {
    if e.exchange != Binance then Err(WrongStream)
    else if e.channel != Orderbook then Ok(g)
    else if e.messageType == Snapshot then
      if e.payload.NotAnObject? || e.payload.lastUpdateId.None? then Err(Malformed)
      else
        var (gate, bridged) := Gate.Bootstrapped(g, e.payload.lastUpdateId.value, e.connectionId);
        if bridged.Raised? then Err(bridged.error) else Ok(gate)
    else
      var (gate, verdict) := Gate.Judge(g, e.symbol, e);
      if verdict.Rejected? then Err(verdict.error) else Ok(gate)
  }

  function Gates(events: seq<Event>): Result<map<string, Gate.GateState>, ReplayError> {
    KeyedReplay.Run(Gate.INVALIDATED, GateStep, SymbolOf, events)
  }

  function GateOf(gates: map<string, Gate.GateState>, symbol: string): Gate.GateState {
    KeyedReplay.Get(gates, symbol, Gate.INVALIDATED)
  }

  /** The event reaches the book: a snapshot, or a delta the gate accepts. */
  predicate Passes(g: Gate.GateState, e: Event) {
    e.channel == Orderbook && (e.messageType == Snapshot || Gate.Judge(g, e.symbol, e).1 == Gate.Accepted)
  }

  // ------------------------------------------------------ books under them

  predicate LevelsParse(e: Event) {
    && e.payload.Fields?
    && if e.messageType == Snapshot then WellFormed(e.payload.snapshotBids) && WellFormed(e.payload.snapshotAsks)
       else WellFormed(e.payload.bids) && WellFormed(e.payload.asks)
  }

  /** The book after an event that passed, no questions asked. */
  function Applied(b: Book, e: Event): Book
    requires LevelsParse(e)
  {
    if e.messageType == Snapshot then
      Book(SnapshotSide(Parsed(e.payload.snapshotBids)), SnapshotSide(Parsed(e.payload.snapshotAsks)),
           e.payload.lastUpdateId)
    else
      Book(ApplyLevels(b.bids, Parsed(e.payload.bids)), ApplyLevels(b.asks, Parsed(e.payload.asks)), e.payload.finalId)
  }

  ghost predicate FitsOn(b: Book, e: Event)
    requires LevelsParse(e)
  {
    Uncrossed(Applied(b, e).bids, Applied(b, e).asks)
  }

  predicate PassesAfter(events: seq<Event>, e: Event) {
    Gates(events).Ok? && Passes(GateOf(Gates(events).value, e.symbol), e)
  }

  /** The fold of a symbol's events that passed its gate. */
  function Tracked(events: seq<Event>, symbol: string): Book {
    if events == [] then NO_BOOK
    else
      var front, e := events[..|events| - 1], events[|events| - 1];
      if e.symbol == symbol && PassesAfter(front, e) && LevelsParse(e) then Applied(Tracked(front, symbol), e)
      else Tracked(front, symbol)
  }

  /** Every event that passes its gate parses and leaves an uncrossed book. */
  ghost predicate BooksHold(events: seq<Event>) {
    events != [] ==>
      var front, e := events[..|events| - 1], events[|events| - 1];
      && BooksHold(front)
      && (PassesAfter(front, e) ==>
            LevelsParse(e) && FitsOn(Tracked(front, e.symbol), e))
  }

  // ------------------------------------------------------- the two halves

  /** A gate that has been bootstrapped has a book to go with it. */
  ghost predicate HasBook(s: SymbolState) {
    s.gate.updateId.Some? ==> Ready(s.book)
  }

  lemma StepIsGateAndBook(s: SymbolState, e: Event)
    requires HasBook(s)
    ensures Step(s, e).Ok? <==>
      && GateStep(s.gate, e).Ok?
      && (Passes(s.gate, e) ==> LevelsParse(e) && FitsOn(s.book, e))
    ensures Step(s, e).Ok? ==>
      && Step(s, e).value.book == (if Passes(s.gate, e) then Applied(s.book, e) else s.book)
      && Step(s, e).value.gate == GateStep(s.gate, e).value
      && HasBook(Step(s, e).value)
  {
  }

  /** A state of the session is the state of the gates and the tracked book. */
  ghost predicate IsGateAndBook(events: seq<Event>, symbol: string, s: SymbolState)
    requires Gates(events).Ok?
  {
    s == SymbolState(Tracked(events, symbol), GateOf(Gates(events).value, symbol)) && HasBook(s)
  }

  lemma TrackedSnoc(events: seq<Event>, e: Event, symbol: string)
    ensures Tracked(events + [e], symbol) ==
      if e.symbol == symbol && PassesAfter(events, e) && LevelsParse(e) then Applied(Tracked(events, symbol), e)
      else Tracked(events, symbol)
  {
    assert (events + [e])[..|events|] == events;
  }

  lemma BooksHoldSnoc(events: seq<Event>, e: Event)
    ensures BooksHold(events + [e]) <==>
      && BooksHold(events)
      && (PassesAfter(events, e) ==>
            LevelsParse(e) && FitsOn(Tracked(events, e.symbol), e))
  {
    assert (events + [e])[..|events|] == events;
  }

  lemma GatesSnoc(events: seq<Event>, e: Event)
    requires Gates(events).Ok?
    ensures Gates(events + [e]) ==
      match GateStep(GateOf(Gates(events).value, e.symbol), e)
      case Err(x) => Err(x)
      case Ok(g) => Ok(Gates(events).value[e.symbol := g])
  {
    KeyedReplay.RunSnoc(Gate.INVALIDATED, GateStep, SymbolOf, events, e);
  }

  lemma ReplaySnoc(events: seq<Event>, e: Event)
    requires Replay(events).Ok?
    ensures Replay(events + [e]) ==
      match Step(StateOf(Replay(events).value, e.symbol), e)
      case Err(x) => Err(x)
      case Ok(s) => Ok(Replay(events).value[e.symbol := s])
  {
    KeyedReplay.RunSnoc(FRESH, Step, SymbolOf, events, e);
  }

  lemma StepOfSession(events: seq<Event>, e: Event)
    requires Replay(events).Ok? && Gates(events).Ok? && BooksHold(events)
    requires forall symbol :: IsGateAndBook(events, symbol, StateOf(Replay(events).value, symbol))
    ensures Replay(events + [e]).Ok? <==> Gates(events + [e]).Ok? && BooksHold(events + [e])
    ensures Replay(events + [e]).Ok? ==>
      forall symbol :: IsGateAndBook(events + [e], symbol, StateOf(Replay(events + [e]).value, symbol))
  {
    var s := StateOf(Replay(events).value, e.symbol);
    assert IsGateAndBook(events, e.symbol, s);
    StepIsGateAndBook(s, e);
    GatesSnoc(events, e);
    ReplaySnoc(events, e);
    BooksHoldSnoc(events, e);
    if Replay(events + [e]).Ok? {
      forall symbol ensures IsGateAndBook(events + [e], symbol, StateOf(Replay(events + [e]).value, symbol)) {
        TrackedSnoc(events, e, symbol);
        assert IsGateAndBook(events, symbol, StateOf(Replay(events).value, symbol));
      }
    }
  }

  lemma RaisedStays(events: seq<Event>, e: Event)
    ensures Replay(events).Err? ==> Replay(events + [e]).Err?
    ensures Gates(events).Err? ==> Gates(events + [e]).Err?
  {
    KeyedReplay.RunSnoc(FRESH, Step, SymbolOf, events, e);
    KeyedReplay.RunSnoc(Gate.INVALIDATED, GateStep, SymbolOf, events, e);
  }

  /** A session accepts a stream if and only if its gates accept it and every event that
      passes its gate parses and leaves an uncrossed book; its states are then the gates'
      states and the folds of what passed. */
  lemma {:induction false} SessionIsGatesAndBooks(events: seq<Event>)
    ensures Replay(events).Ok? <==> Gates(events).Ok? && BooksHold(events)
    ensures Replay(events).Ok? ==> forall symbol :: IsGateAndBook(events, symbol, StateOf(Replay(events).value, symbol))
  {
    if events != [] {
      var front, e := events[..|events| - 1], events[|events| - 1];
      assert events == front + [e];
      SessionIsGatesAndBooks(front);
      if Replay(front).Ok? {
        StepOfSession(front, e);
      } else {
        RaisedStays(front, e);
        BooksHoldSnoc(front, e);
      }
    }
  }

  // ------------------------------------------------ when gates accept

  predicate HasSnapshotId(e: Event) {
    e.payload.Fields? && e.payload.lastUpdateId.Some?
  }

  function Extended(h: Option<Gate.Horizon>, e: Event): Option<Gate.Horizon> {
    if e.messageType == Snapshot then
      if HasSnapshotId(e) then Some(Gate.StartAt(e.payload.lastUpdateId.value, e.connectionId)) else h
    else if h.Some? then Some(Gate.Reach(h.value, e))
    else h
  }

  /** What a symbol's events add up to since its last snapshot. */
  function HorizonOf(events: seq<Event>, symbol: string): Option<Gate.Horizon> {
    if events == [] then None
    else
      var front, e := events[..|events| - 1], events[|events| - 1];
      if e.symbol == symbol && e.channel == Orderbook then Extended(HorizonOf(front, symbol), e)
      else HorizonOf(front, symbol)
  }

  predicate Continues(h: Option<Gate.Horizon>, e: Event) {
    && e.exchange == Binance
    && (e.channel == Orderbook ==>
          if e.messageType == Snapshot then HasSnapshotId(e) && e.payload.lastUpdateId.value > 0 && e.connectionId != ""
          else h.Some? && e.connectionId == h.value.connection && Gate.HasIds(e) && Gate.Chains(h.value, e))
  }

  /** Every event continues what came before it of its symbol. */
  ghost predicate AllContinue(events: seq<Event>) {
    forall n :: 0 <= n < |events| ==> Continues(HorizonOf(events[..n], events[n].symbol), events[n])
  }

  lemma AllContinueSnoc(events: seq<Event>, e: Event)
    ensures AllContinue(events + [e]) <==> AllContinue(events) && Continues(HorizonOf(events, e.symbol), e)
  {
    var all := events + [e];
    assert all[..|events|] == events && all[|events|] == e;
    forall n | 0 <= n < |events| ensures all[..n] == events[..n] && all[n] == events[n] {
    }
    if AllContinue(all) {
      forall n | 0 <= n < |events| ensures Continues(HorizonOf(events[..n], events[n].symbol), events[n]) {
        assert Continues(HorizonOf(all[..n], all[n].symbol), all[n]);
      }
    }
  }

  lemma HorizonSnoc(events: seq<Event>, e: Event, symbol: string)
    ensures HorizonOf(events + [e], symbol) ==
      if e.symbol == symbol && e.channel == Orderbook then Extended(HorizonOf(events, symbol), e)
      else HorizonOf(events, symbol)
  {
    assert (events + [e])[..|events|] == events;
  }

  /** One event: the gate accepts it exactly if it continues the horizon. */
  lemma GateStepContinues(h: Option<Gate.Horizon>, e: Event)
    requires h.Some? ==> h.value.base <= h.value.largest
    ensures GateStep(Gate.GateAt(h), e).Ok? <==> Continues(h, e)
    ensures Continues(h, e) ==>
      GateStep(Gate.GateAt(h), e).value == Gate.GateAt(if e.channel == Orderbook then Extended(h, e) else h)
  {
  }

  lemma {:induction false} HorizonGrows(events: seq<Event>, symbol: string)
    ensures HorizonOf(events, symbol).Some? ==>
      HorizonOf(events, symbol).value.base <= HorizonOf(events, symbol).value.largest
  {
    if events != [] {
      HorizonGrows(events[..|events| - 1], symbol);
    }
  }

  /** The gates of a session accept a stream if and only if every event continues what came
      before it of its symbol; each gate then stands at its symbol's horizon. */
  lemma {:induction false} GatesAcceptIff(events: seq<Event>)
    ensures Gates(events).Ok? <==> AllContinue(events)
    ensures Gates(events).Ok? ==>
      forall symbol :: GateOf(Gates(events).value, symbol) == Gate.GateAt(HorizonOf(events, symbol))
  {
    if events != [] {
      var front, e := events[..|events| - 1], events[|events| - 1];
      assert events == front + [e];
      GatesAcceptIff(front);
      AllContinueSnoc(front, e);
      if Gates(front).Err? {
        RaisedStays(front, e);
      } else {
        GatesSnoc(front, e);
        HorizonGrows(front, e.symbol);
        GateStepContinues(HorizonOf(front, e.symbol), e);
        forall symbol ensures HorizonOf(events, symbol) ==
          if e.symbol == symbol && e.channel == Orderbook then Extended(HorizonOf(front, symbol), e)
          else HorizonOf(front, symbol)
        {
          HorizonSnoc(front, e, symbol);
        }
      }
    }
  }

  // --------------------------------------------------- how a replay raises

  /** The error of a message whose levels do not parse or would cross the book. */
  ghost function LevelError(book: Book, e: Event): ReplayError {
    if !LevelsParse(e) then Malformed else InvalidOrderBook
  }

  /** The error of an event that is not taken, told from what the events before it add up to:
      the levels of a snapshot come before its id, the ids of a delta before its levels. */
  ghost function ErrorOf(h: Option<Gate.Horizon>, book: Book, e: Event): ReplayError {
    if e.exchange != Binance then WrongStream
    else if e.messageType == Snapshot then
      if !HasSnapshotId(e) then Malformed
      else if !LevelsParse(e) || !FitsOn(book, e) then LevelError(book, e)
      else BadArgument
    else if h.None? || e.connectionId != h.value.connection then SnapshotRequired
    else if !Gate.HasIds(e) then Malformed
    else if !Gate.Chains(h.value, e) then SequenceGap
    else LevelError(book, e)
  }

  lemma StepError(s: SymbolState, h: Option<Gate.Horizon>, e: Event)
    requires Step(s, e).Err? && HasBook(s) && s.gate == Gate.GateAt(h)
    requires h.Some? ==> h.value.base <= h.value.largest
    ensures Step(s, e).error == ErrorOf(h, s.book, e)
  {
  }

  /** A replay that raises ends with the error that the events before the first refused one
      tell. */
  lemma ReplayRaisesAtTheFirst(events: seq<Event>, n: nat)
    requires n < |events| && Replay(events[..n]).Ok? && Replay(events[..n + 1]).Err?
    ensures
      var front, e := events[..n], events[n];
      Replay(events) == Err(ErrorOf(HorizonOf(front, e.symbol), Tracked(front, e.symbol), e))
  {
    var front, e := events[..n], events[n];
    assert events[..n + 1] == front + [e];
    SessionIsGatesAndBooks(front);
    GatesAcceptIff(front);
    HorizonGrows(front, e.symbol);
    ReplaySnoc(front, e);
    var s := StateOf(Replay(front).value, e.symbol);
    assert IsGateAndBook(front, e.symbol, s);
    StepError(s, HorizonOf(front, e.symbol), e);
    KeyedReplay.RunError(FRESH, Step, SymbolOf, events, n + 1);
  }
}
