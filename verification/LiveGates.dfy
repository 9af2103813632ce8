/** The live sequence gates of the Binance and Coinbase collectors against a replay of what
    they stored (src/data/binance_raw_collector.py, src/data/coinbase_raw_collector.py).
    A message that does not fit the queue reaches neither the store nor the gate. The gate is
    checked in the same step in which the event is queued, since the writer thread never
    touches a gate. */
module LiveGates {
  import opened Common
  import opened CaptureQueue
  import Gate = BinanceGate
  import BinanceReplay
  import Session = BinanceSession
  import CoinbaseGate
  import CoinbaseReplay
  import EventOrder
  import KeyedReplay

  // -------------------------------------------------------------- Binance

  type Event = Gate.Event

  datatype Config = Config(symbols: set<string>, bounds: Bounds)

  datatype Live = Live(connection: string, gates: map<string, Gate.GateState>, uncertain: bool, uncertainties: nat)

  datatype State = State(intake: Intake<Gate.Payload>, live: Live, usedConnections: set<string>)

  const INITIAL: State := State(Started(), Live("", map[], false, 0), {})

  /** Open a connection; queue a fetched REST snapshot; take a stream message with the event
      it parses to; or a turn that involves no event. */
  datatype Action =
    | Connect(id: string)
    | Bootstrap(snapshot: Event, now: int)
    | Message(event: Option<Event>, now: int)
    | Other(turn: Turn<Gate.Payload>)

  predicate IsSnapshot(e: Event) {
    e.channel == Orderbook && e.messageType == Snapshot
  }

  /** Connection ids are fresh; every event carries the current one; a snapshot is for a
      configured symbol and has an id, positive or not. */
  predicate Enabled(c: Config, s: State, a: Action) {
    match a
    case Connect(id) => !s.intake.stopping && id != "" && id !in s.usedConnections
    case Bootstrap(e, now) =>
      && !s.intake.stopping && Stamped(s.intake, Some(e), now)
      && s.live.connection != "" && e.connectionId == s.live.connection && e.exchange == Binance && IsSnapshot(e)
      && e.symbol in c.symbols && e.payload.Fields? && e.payload.lastUpdateId.Some?
    case Message(event, now) =>
      && !s.intake.stopping && Stamped(s.intake, event, now)
      && (event.Some? ==>
            && s.live.connection != "" && event.value.connectionId == s.live.connection
            && event.value.exchange == Binance && !IsSnapshot(event.value))
    case Other(turn) => TurnEnabled(s.intake, turn)
  }

  function Doubtful(l: Live): Live {
    l.(uncertain := true, uncertainties := l.uncertainties + 1)
  }

  /** The gate of the snapshot's symbol is bootstrapped; on a non-positive id that raises, out
      of the callback and without a change. */
  function Bridged(l: Live, e: Event): Live
    requires e.payload.Fields? && e.payload.lastUpdateId.Some?
  {
    if e.symbol !in l.gates then l
    else
      var (g, _) := Gate.Bootstrapped(l.gates[e.symbol], e.payload.lastUpdateId.value, l.connection);
      l.(gates := l.gates[e.symbol := g])
  }

  /** The live check of a message that was queued. */
  function Checked(l: Live, e: Event): Live {
    if l.uncertain || e.channel != Orderbook then l
    else if e.symbol !in l.gates then Doubtful(l)
    else
      var (g, verdict) := Gate.Judge(l.gates[e.symbol], e.symbol, e);
      (if verdict.Rejected? then Doubtful(l) else l).(gates := l.gates[e.symbol := g])
  }

  function Connected(c: Config, l: Live, id: string): Live {
    l.(connection := id, uncertain := false, gates := map x | x in c.symbols :: Gate.INVALIDATED)
  }

  function Next(c: Config, s: State, a: Action): State
    requires Enabled(c, s, a)
  {
    match a
    case Connect(id) => s.(live := Connected(c, s.live, id), usedConnections := s.usedConnections + {id})
    case Bootstrap(e, now) =>
      s.(intake := Taken(c.bounds, s.intake, Some(e), now),
         live := if Room(c.bounds, s.intake) then Bridged(s.live, e) else s.live)
    case Message(event, now) =>
      s.(intake := Taken(c.bounds, s.intake, event, now),
         live := if event.Some? && Room(c.bounds, s.intake) then Checked(s.live, event.value) else s.live)
    case Other(turn) => s.(intake := AfterTurn(c.bounds, s.intake, turn))
  }

  function After(c: Config, actions: seq<Action>): Option<State> {
    if actions == [] then Some(INITIAL)
    else
      var front := After(c, actions[..|actions| - 1]);
      var a := actions[|actions| - 1];
      if front.None? || !Enabled(c, front.value, a) then None else Some(Next(c, front.value, a))
  }

  /** Every snapshot has a positive id. */
  ghost predicate PositiveSnapshots(es: seq<Event>) {
    forall i :: 0 <= i < |es| && IsSnapshot(es[i]) ==> PositiveId(es[i])
  }

  predicate PositiveId(e: Event) {
    e.payload.Fields? && e.payload.lastUpdateId.Some? && e.payload.lastUpdateId.value > 0
  }

  lemma PositiveSnapshotsSnoc(es: seq<Event>, e: Event)
    ensures PositiveSnapshots(es + [e]) <==> PositiveSnapshots(es) && (IsSnapshot(e) ==> PositiveId(e))
  {
    var all := es + [e];
    if PositiveSnapshots(all) {
      forall i | 0 <= i < |es| && IsSnapshot(es[i]) ensures PositiveId(es[i]) {
        assert all[i] == es[i];
      }
      assert all[|es|] == e;
    }
  }

  /** The gate a replay holds for a symbol, if it holds the current connection, is the live
      one; only configured symbols are ever bootstrapped. */
  ghost predicate SameGate(c: Config, l: Live, used: set<string>, symbol: string, g: Gate.GateState) {
    && (g.connectionId.Some? ==> g.connectionId.value in used && g.updateId.Some?)
    && (g.updateId.Some? ==> g.connectionId.Some? && symbol in c.symbols)
    && (symbol in l.gates ==> l.gates[symbol] == if g.connectionId == Some(l.connection) then g else Gate.INVALIDATED)
    && (g.connectionId == Some(l.connection) ==> symbol in l.gates)
  }

  ghost predicate SameGates(c: Config, l: Live, used: set<string>, replayed: map<string, Gate.GateState>) {
    forall symbol :: SameGate(c, l, used, symbol, Session.GateOf(replayed, symbol))
  }

  /** The live gates have failed, or a snapshot could not bootstrap its gate, exactly if the
      gates of a replay of the captured events fail; until then the two agree. */
  ghost predicate Follows(c: Config, l: Live, used: set<string>, captured: seq<Event>) {
    && (l.uncertain ==> l.uncertainties > 0)
    && "" !in used
    && (l.connection != "" ==> l.connection in used && l.gates.Keys == c.symbols)
    && (l.uncertainties == 0 && PositiveSnapshots(captured) <==> Session.Gates(captured).Ok?)
    && (l.uncertainties == 0 && PositiveSnapshots(captured) ==> SameGates(c, l, used, Session.Gates(captured).value))
  }

  /** On a message of the current connection the live gate and the replay's gate decide alike. */
  lemma SameVerdict(c: Config, l: Live, used: set<string>, g: Gate.GateState, e: Event)
    requires SameGate(c, l, used, e.symbol, g) && l.gates.Keys == c.symbols
    requires e.exchange == Binance && e.channel == Orderbook && e.connectionId == l.connection
    ensures e.symbol !in l.gates ==> Gate.Judge(g, e.symbol, e).1.Rejected?
    ensures e.symbol in l.gates ==>
      var (live, verdict) := Gate.Judge(l.gates[e.symbol], e.symbol, e);
      (verdict.Rejected? <==> Gate.Judge(g, e.symbol, e).1.Rejected?) && (!verdict.Rejected? ==> g == l.gates[e.symbol])
  {
  }

  /** One captured event leaves the gates in agreement, or makes both fail. */
  lemma GatesAfterCapture(c: Config, l: Live, n: Live, used: set<string>, before: map<string, Gate.GateState>,
                          after: Gate.GateState, e: Event)
    requires SameGates(c, l, used, before)
    requires n.connection == l.connection && l.connection in used
    requires e.channel != Orderbook ==> after == Session.GateOf(before, e.symbol) && n.gates == l.gates
    requires e.channel == Orderbook ==>
      && e.symbol in c.symbols && e.symbol in l.gates && n.gates == l.gates[e.symbol := after]
      && after.connectionId == Some(l.connection) && after.updateId.Some?
    ensures SameGates(c, n, used, before[e.symbol := after])
  {
    var replayed := before[e.symbol := after];
    forall symbol ensures SameGate(c, n, used, symbol, Session.GateOf(replayed, symbol)) {
      assert SameGate(c, l, used, symbol, Session.GateOf(before, symbol));
    }
  }

  function Taking(l: Live, e: Event): Live
    requires IsSnapshot(e) ==> e.payload.Fields? && e.payload.lastUpdateId.Some?
  {
    if IsSnapshot(e) then Bridged(l, e) else Checked(l, e)
  }

  /** A captured event carries the current connection; a snapshot is for a configured symbol. */
  ghost predicate FromConnection(c: Config, l: Live, e: Event) {
    && l.connection != "" && e.connectionId == l.connection && e.exchange == Binance
    && (IsSnapshot(e) ==> e.symbol in c.symbols && e.payload.Fields? && e.payload.lastUpdateId.Some?)
  }

  /** One event, as far as its own symbol goes: live gate and replay's gate decide alike. */
  lemma SameStep(c: Config, l: Live, used: set<string>, g: Gate.GateState, e: Event)
    requires SameGate(c, l, used, e.symbol, g) && l.gates.Keys == c.symbols && !l.uncertain && l.uncertainties == 0
    requires FromConnection(c, l, e)
    ensures Session.GateStep(g, e).Ok? <==> Taking(l, e).uncertainties == 0 && (IsSnapshot(e) ==> PositiveId(e))
    ensures Session.GateStep(g, e).Ok? ==>
      var after := Session.GateStep(g, e).value;
      && (e.channel != Orderbook ==> after == g && Taking(l, e).gates == l.gates)
      && (e.channel == Orderbook ==>
            && e.symbol in l.gates && Taking(l, e).gates == l.gates[e.symbol := after]
            && after.connectionId == Some(l.connection) && after.updateId.Some?)
  {
    if e.channel == Orderbook && e.messageType != Snapshot {
      SameVerdict(c, l, used, g, e);
    }
  }

  /** A captured event is one the collector bootstraps from or checks. */
  lemma CaptureFollows(c: Config, l: Live, used: set<string>, captured: seq<Event>, e: Event)
    requires Follows(c, l, used, captured) && FromConnection(c, l, e)
    ensures Follows(c, Taking(l, e), used, captured + [e])
  {
    PositiveSnapshotsSnoc(captured, e);
    if Session.Gates(captured).Err? {
      Session.RaisedStays(captured, e);
    } else {
      var before := Session.Gates(captured).value;
      var g := Session.GateOf(before, e.symbol);
      assert SameGate(c, l, used, e.symbol, g);
      Session.GatesSnoc(captured, e);
      SameStep(c, l, used, g, e);
      var step := Session.GateStep(g, e);
      if step.Ok? {
        GatesAfterCapture(c, l, Taking(l, e), used, before, step.value, e);
      }
    }
  }

  lemma ConnectFollows(c: Config, l: Live, used: set<string>, captured: seq<Event>, id: string)
    requires Follows(c, l, used, captured) && id != "" && id !in used
    ensures Follows(c, Connected(c, l, id), used + {id}, captured)
  {
    if Session.Gates(captured).Ok? {
      var replayed := Session.Gates(captured).value;
      forall symbol ensures SameGate(c, Connected(c, l, id), used + {id}, symbol, Session.GateOf(replayed, symbol)) {
        assert SameGate(c, l, used, symbol, Session.GateOf(replayed, symbol));
      }
    }
  }

  ghost predicate Consistent(c: Config, s: State) {
    Lossless(c.bounds, s.intake) && Follows(c, s.live, s.usedConnections, s.intake.captured)
  }

  lemma StepIsConsistent(c: Config, s: State, a: Action)
    requires c.bounds.maxBatch > 0 && Consistent(c, s) && Enabled(c, s, a)
    ensures Consistent(c, Next(c, s, a))
  {
    match a
    case Connect(id) => ConnectFollows(c, s.live, s.usedConnections, s.intake.captured, id);
    case Bootstrap(e, now) =>
      TakeIsLossless(c.bounds, s.intake, Some(e), now);
      CaptureFollows(c, s.live, s.usedConnections, s.intake.captured, e);
    case Message(event, now) =>
      TakeIsLossless(c.bounds, s.intake, event, now);
      if event.Some? {
        CaptureFollows(c, s.live, s.usedConnections, s.intake.captured, event.value);
      }
    case Other(turn) => TurnIsLossless(c.bounds, s.intake, turn);
  }

  /** For every interleaving of reconnects, snapshots, messages, stop and the writer: nothing
      captured is lost, and the live gates have failed, or a snapshot could not bootstrap its
      gate, if and only if the gates of a replay of the capture fail; until then every gate of
      the current connection is in the replay as it is live. */
  lemma {:induction false} ReplayAgreesWithLiveGates(c: Config, actions: seq<Action>)
    requires c.bounds.maxBatch > 0 && After(c, actions).Some?
    ensures Consistent(c, After(c, actions).value)
  {
    if actions != [] {
      var front, a := actions[..|actions| - 1], actions[|actions| - 1];
      ReplayAgreesWithLiveGates(c, front);
      StepIsConsistent(c, After(c, front).value, a);
    }
  }

  /** After a drained run the stored events, read back in any order, replay without a raise if
      and only if no live gate ever failed, every snapshot had a positive id, and every event
      that passed its gate parses and leaves an uncrossed book, which the collector, keeping
      no books, does not check. */
  lemma ReplaySucceedsIff(c: Config, actions: seq<Action>, stored: seq<Event>)
    requires c.bounds.maxBatch > 0 && After(c, actions).Some? && After(c, actions).value.intake.pipe.writer == Exited
    requires multiset(stored) == multiset(After(c, actions).value.intake.pipe.store)
    ensures
      var s := After(c, actions).value;
      BinanceReplay.ReplayBounded(stored).Ok? <==>
        s.live.uncertainties == 0 && PositiveSnapshots(s.intake.pipe.store) && Session.BooksHold(s.intake.pipe.store)
  {
    var s := After(c, actions).value;
    ReplayAgreesWithLiveGates(c, actions);
    SortedStoreIsCapture(c.bounds, s.intake, stored);
    Session.SessionIsGatesAndBooks(s.intake.captured);
  }

  /** Every connection becomes uncertain at most once. */
  ghost predicate OnceEach(s: State) {
    && (s.live.connection == "" ==> !s.live.uncertain && s.live.uncertainties == 0)
    && s.live.uncertainties + (if s.live.uncertain || s.live.connection == "" then 0 else 1) <= |s.usedConnections|
  }

  lemma {:induction false} OneUncertaintyPerConnection(c: Config, actions: seq<Action>)
    requires After(c, actions).Some?
    ensures OnceEach(After(c, actions).value)
  {
    if actions != [] {
      OneUncertaintyPerConnection(c, actions[..|actions| - 1]);
    }
  }

  // ------------------------------------------------------------- Coinbase

  type CoinbaseEvent = CoinbaseGate.Event

  datatype CoinbaseLive = CoinbaseLive(
    connection: string, gate: CoinbaseGate.GateState, uncertain: bool, uncertainties: nat)

  datatype CoinbaseState = CoinbaseState(
    intake: Intake<CoinbaseGate.Payload>, live: CoinbaseLive, usedConnections: set<string>)

  const COINBASE_INITIAL: CoinbaseState :=
    CoinbaseState(Started(), CoinbaseLive("", CoinbaseGate.RESET, false, 0), {})

  datatype CoinbaseAction =
    | Reconnect(id: string)
    | Received(event: Option<CoinbaseEvent>, now: int)
    | Besides(turn: Turn<CoinbaseGate.Payload>)

  predicate CoinbaseEnabled(s: CoinbaseState, a: CoinbaseAction) {
    match a
    case Reconnect(id) => !s.intake.stopping && id != "" && id !in s.usedConnections
    case Received(event, now) =>
      && !s.intake.stopping && Stamped(s.intake, event, now)
      && (event.Some? ==>
            && s.live.connection != "" && event.value.connectionId == s.live.connection
            && event.value.exchange == Coinbase)
    case Besides(turn) => TurnEnabled(s.intake, turn)
  }

  predicate Paired(g: CoinbaseGate.GateState) {
    g.connectionId.Some? <==> g.lastSequence.Some?
  }

  /** The live check of a message that was queued. */
  function Observed(l: CoinbaseLive, e: CoinbaseEvent): CoinbaseLive
    requires Paired(l.gate)
  {
    if l.uncertain then l
    else
      var (g, verdict) := CoinbaseGate.Judge(l.gate, e);
      if verdict.Rejected? then l.(gate := g, uncertain := true, uncertainties := l.uncertainties + 1)
      else l.(gate := g)
  }

  /** Each connection gets a new gate. */
  function CoinbaseNext(b: Bounds, s: CoinbaseState, a: CoinbaseAction): CoinbaseState
    requires CoinbaseEnabled(s, a) && Paired(s.live.gate)
  {
    match a
    case Reconnect(id) =>
      s.(live := s.live.(connection := id, uncertain := false, gate := CoinbaseGate.RESET),
         usedConnections := s.usedConnections + {id})
    case Received(event, now) =>
      s.(intake := Taken(b, s.intake, event, now),
         live := if event.Some? && Room(b, s.intake) then Observed(s.live, event.value) else s.live)
    case Besides(turn) => s.(intake := AfterTurn(b, s.intake, turn))
  }

  function CoinbaseAfter(b: Bounds, actions: seq<CoinbaseAction>): (r: Option<CoinbaseState>)
    ensures r.Some? ==> Paired(r.value.live.gate)
  {
    if actions == [] then Some(COINBASE_INITIAL)
    else
      var front := CoinbaseAfter(b, actions[..|actions| - 1]);
      var a := actions[|actions| - 1];
      if front.None? || !CoinbaseEnabled(front.value, a) then None else Some(CoinbaseNext(b, front.value, a))
  }

  /** The replay's one gate, carried across connections, is in step with the live gates: it
      has rejected exactly if one of them has, and on the current connection it is the same. */
  ghost predicate CoinbaseFollows(l: CoinbaseLive, used: set<string>, captured: seq<CoinbaseEvent>) {
    && (l.uncertain ==> l.uncertainties > 0)
    && "" !in used && (l.connection != "" ==> l.connection in used)
    && (forall i :: 0 <= i < |captured| ==> captured[i].exchange == Coinbase)
    && (l.uncertainties > 0 <==> CoinbaseGate.After(captured).Err?)
    && (l.uncertainties == 0 ==>
          var g := CoinbaseGate.After(captured).value;
          && (g.connectionId.Some? ==> g.connectionId.value in used)
          && l.gate == if g.connectionId == Some(l.connection) then g else CoinbaseGate.RESET)
  }

  lemma ObservedFollows(l: CoinbaseLive, used: set<string>, captured: seq<CoinbaseEvent>, e: CoinbaseEvent)
    requires Paired(l.gate) && CoinbaseFollows(l, used, captured)
    requires l.connection != "" && e.connectionId == l.connection && e.exchange == Coinbase
    ensures CoinbaseFollows(Observed(l, e), used, captured + [e])
  {
    assert (captured + [e])[..|captured|] == captured;
  }

  ghost predicate CoinbaseConsistent(b: Bounds, s: CoinbaseState) {
    Lossless(b, s.intake) && CoinbaseFollows(s.live, s.usedConnections, s.intake.captured)
  }

  lemma CoinbaseStepIsConsistent(b: Bounds, s: CoinbaseState, a: CoinbaseAction)
    requires b.maxBatch > 0 && Paired(s.live.gate) && CoinbaseConsistent(b, s) && CoinbaseEnabled(s, a)
    ensures CoinbaseConsistent(b, CoinbaseNext(b, s, a))
  {
    match a
    case Reconnect(id) =>
    case Received(event, now) =>
      TakeIsLossless(b, s.intake, event, now);
      if event.Some? {
        ObservedFollows(s.live, s.usedConnections, s.intake.captured, event.value);
      }
    case Besides(turn) => TurnIsLossless(b, s.intake, turn);
  }

  lemma {:induction false} CoinbaseReplayAgrees(b: Bounds, actions: seq<CoinbaseAction>)
    requires b.maxBatch > 0 && CoinbaseAfter(b, actions).Some?
    ensures CoinbaseConsistent(b, CoinbaseAfter(b, actions).value)
  {
    if actions != [] {
      var front, a := actions[..|actions| - 1], actions[|actions| - 1];
      CoinbaseReplayAgrees(b, front);
      CoinbaseStepIsConsistent(b, CoinbaseAfter(b, front).value, a);
    }
  }

  /** The collector is certain exactly when what it captured is continuous on every connection. */
  lemma CertainIffContinuous(b: Bounds, actions: seq<CoinbaseAction>)
    requires b.maxBatch > 0 && CoinbaseAfter(b, actions).Some?
    ensures
      var s := CoinbaseAfter(b, actions).value;
      s.live.uncertainties == 0 <==> CoinbaseGate.Continuous(CoinbaseGate.Numbered(s.intake.captured))
  {
    CoinbaseReplayAgrees(b, actions);
    CoinbaseGate.AcceptedIffContinuous(CoinbaseAfter(b, actions).value.intake.captured);
  }

  /** After a drained run the stored events, read back in any order, replay without a raise if
      and only if no live gate ever failed and no product's own events are refused by its book. */
  lemma CoinbaseReplaySucceedsIff(b: Bounds, actions: seq<CoinbaseAction>, stored: seq<CoinbaseEvent>)
    requires b.maxBatch > 0 && CoinbaseAfter(b, actions).Some?
    requires CoinbaseAfter(b, actions).value.intake.pipe.writer == Exited
    requires multiset(stored) == multiset(CoinbaseAfter(b, actions).value.intake.pipe.store)
    ensures
      var s := CoinbaseAfter(b, actions).value;
      CoinbaseReplay.Replay(EventOrder.Sorted(stored)).Ok? <==>
        && s.live.uncertainties == 0
        && forall p :: CoinbaseReplay.Books(KeyedReplay.Of(s.intake.pipe.store, CoinbaseReplay.SymbolOf, p)).Ok?
  {
    var s := CoinbaseAfter(b, actions).value;
    CoinbaseReplayAgrees(b, actions);
    SortedStoreIsCapture(b, s.intake, stored);
    CertainIffContinuous(b, actions);
    CoinbaseReplay.AcceptedIff(s.intake.captured);
  }

  /** Every connection becomes uncertain at most once. */
  ghost predicate CoinbaseOnceEach(s: CoinbaseState) {
    && (s.live.connection == "" ==> !s.live.uncertain && s.live.uncertainties == 0)
    && s.live.uncertainties + (if s.live.uncertain || s.live.connection == "" then 0 else 1) <= |s.usedConnections|
  }

  lemma ObservedOnce(l: CoinbaseLive, e: CoinbaseEvent)
    requires Paired(l.gate)
    ensures l.uncertain ==> Observed(l, e) == l
    ensures Observed(l, e).uncertainties == l.uncertainties + if Observed(l, e).uncertain && !l.uncertain then 1 else 0
    ensures Observed(l, e).connection == l.connection
  {
  }

  lemma CoinbaseNextOnce(b: Bounds, s: CoinbaseState, a: CoinbaseAction)
    requires CoinbaseEnabled(s, a) && Paired(s.live.gate) && CoinbaseOnceEach(s)
    ensures CoinbaseOnceEach(CoinbaseNext(b, s, a))
  {
    match a
    case Reconnect(id) =>
    case Besides(turn) =>
    case Received(event, now) =>
      if event.Some? && Room(b, s.intake) {
        ObservedOnce(s.live, event.value);
      }
  }

  lemma {:induction false} CoinbaseOneUncertaintyPerConnection(b: Bounds, actions: seq<CoinbaseAction>)
    requires CoinbaseAfter(b, actions).Some?
    ensures CoinbaseOnceEach(CoinbaseAfter(b, actions).value)
  {
    if actions != [] {
      CoinbaseOneUncertaintyPerConnection(b, actions[..|actions| - 1]);
      CoinbaseNextOnce(b, CoinbaseAfter(b, actions[..|actions| - 1]).value, actions[|actions| - 1]);
    }
  }
}
