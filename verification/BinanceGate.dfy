/** The Binance depth sequence gate: a REST snapshot bridged to the diff stream, then
    `pu` continuity (src/data/binance_adapter.py). */
module BinanceGate {
  import opened Common
  import opened Levels

  /** The payload of an event. A snapshot event carries the first three fields; a stream
      event carries the others. `None` is a field that is missing or not an integer. */
  datatype Payload =
    | NotAnObject
    | Fields(
        lastUpdateId: Option<int>, snapshotBids: WireLevels, snapshotAsks: WireLevels,
        firstId: Option<int>, finalId: Option<int>, previousId: Option<int>,
        bids: WireLevels, asks: WireLevels)

  type Event = RawEvent<Payload>

  datatype GateState = GateState(updateId: Option<int>, connectionId: Option<string>, firstStreamEvent: bool)

  const INVALIDATED: GateState := GateState(None, None, true)

  datatype Verdict = Accepted | Stale | Rejected(error: ReplayError)

  /** One call of `apply`: the state it leaves and its verdict. */
  function Judge(g: GateState, symbol: string, e: Event): (GateState, Verdict) {
    if e.exchange != Binance || e.channel != Orderbook || e.symbol != symbol then (g, Rejected(WrongStream))
    else if g.updateId.None? || g.connectionId.None? then (g, Rejected(SnapshotRequired))
    else if e.connectionId != g.connectionId.value then (INVALIDATED, Rejected(SnapshotRequired))
    else if
      e.payload.NotAnObject? || e.payload.firstId.None? || e.payload.finalId.None? || e.payload.previousId.None?
    then
      (g, Rejected(Malformed))
    else
      var first, final, previous := e.payload.firstId.value, e.payload.finalId.value, e.payload.previousId.value;
      if first > final then (INVALIDATED, Rejected(SequenceGap))
      else if final <= g.updateId.value then (g, Stale)
      else if g.firstStreamEvent then
        if first <= g.updateId.value + 1 <= final
        then (GateState(Some(final), g.connectionId, false), Accepted)
        else (INVALIDATED, Rejected(SequenceGap))
      else if previous != g.updateId.value then (INVALIDATED, Rejected(SequenceGap))
      else (GateState(Some(final), g.connectionId, false), Accepted)
  }

  function Bootstrapped(g: GateState, id: int, connection: string): (GateState, Outcome) {
    if id <= 0 || connection == "" then (g, Raised(BadArgument))
    else (GateState(Some(id), Some(connection), true), Done)
  }

  class BinanceDepthSequenceGate {
    const symbol: string
    var updateId: Option<int>
    var connectionId: Option<string>
    var firstStreamEvent: bool

    function State(): GateState
      reads this
    {
      GateState(updateId, connectionId, firstStreamEvent)
    }

    constructor (symbol: string)
      ensures this.symbol == symbol && State() == INVALIDATED
    {
      this.symbol := symbol;
      updateId, connectionId, firstStreamEvent := None, None, true;
    }

    method Bootstrap(id: int, connection: string) returns (r: Outcome)
      modifies this
      ensures (State(), r) == Bootstrapped(old(State()), id, connection)
    {
      if id <= 0 || connection == "" {
        return Raised(BadArgument);
      }
      updateId, connectionId, firstStreamEvent := Some(id), Some(connection), true;
      return Done;
    }

    method Invalidate()
      modifies this
      ensures State() == INVALIDATED
    {
      updateId, connectionId, firstStreamEvent := None, None, true;
    }

    method Apply(e: Event) returns (v: Verdict)
      modifies this
      ensures (State(), v) == Judge(old(State()), symbol, e)
    {
      if e.exchange != Binance || e.channel != Orderbook {
        return Rejected(WrongStream);
      }
      if e.symbol != symbol {
        return Rejected(WrongStream);
      }
      if updateId.None? || connectionId.None? {
        return Rejected(SnapshotRequired);
      }
      if e.connectionId != connectionId.value {
        Invalidate();
        return Rejected(SnapshotRequired);
      }
      if e.payload.NotAnObject? || e.payload.firstId.None? || e.payload.finalId.None? || e.payload.previousId.None? {
        return Rejected(Malformed);
      }
      var first, final := e.payload.firstId.value, e.payload.finalId.value;
      if first > final {
        Invalidate();
        return Rejected(SequenceGap);
      }
      if final <= updateId.value {
        return Stale;
      }
      if firstStreamEvent {
        var expected := updateId.value + 1;
        if !(first <= expected <= final) {
          Invalidate();
          return Rejected(SequenceGap);
        }
        firstStreamEvent := false;
      } else if e.payload.previousId.value != updateId.value {
        Invalidate();
        return Rejected(SequenceGap);
      }
      updateId := Some(final);
      return Accepted;
    }
  }

  // --------------------------------------------------- runs of one gate

  /** What a caller may do to a gate, in any order. */
  datatype Op = Bootstrap(id: int, connection: string) | Offer(event: Event)

  function After(symbol: string, ops: seq<Op>): GateState {
    if ops == [] then INVALIDATED
    else
      var g := After(symbol, ops[..|ops| - 1]);
      match ops[|ops| - 1]
      case Bootstrap(id, c) => Bootstrapped(g, id, c).0
      case Offer(e) => Judge(g, symbol, e).0
  }

  /** The verdict on the operation at index i of a run; only offers have one. */
  function VerdictAt(symbol: string, ops: seq<Op>, i: nat): Verdict
    requires i < |ops| && ops[i].Offer?
  {
    Judge(After(symbol, ops[..i]), symbol, ops[i].event).1
  }

  // ------------------------------------ what the events say about a run

  /** What has been offered since the last bootstrap: the id and connection of the bootstrap,
      and the largest id reached. */
  datatype Horizon = Horizon(base: int, largest: int, connection: string)

  function StartAt(id: int, connection: string): Horizon {
    Horizon(id, id, connection)
  }

  predicate OnStream(symbol: string, e: Event) {
    e.exchange == Binance && e.channel == Orderbook && e.symbol == symbol
  }

  predicate HasIds(e: Event) {
    e.payload.Fields? && e.payload.firstId.Some? && e.payload.finalId.Some? && e.payload.previousId.Some?
  }

  function Reach(h: Horizon, e: Event): Horizon {
    if HasIds(e) && e.payload.finalId.value > h.largest then h.(largest := e.payload.finalId.value) else h
  }

  /** The delta repeats ids already seen, or is the first to go on from the snapshot and
      leaves no id out, or names the largest id seen as its predecessor. */
  predicate Chains(h: Horizon, e: Event)
    requires HasIds(e)
  {
    && e.payload.firstId.value <= e.payload.finalId.value
    && (|| e.payload.finalId.value <= h.largest
        || (h.largest == h.base && e.payload.firstId.value <= h.base + 1)
        || (h.largest != h.base && e.payload.previousId.value == h.largest))
  }

  /** The event comes on another connection, or its ids do not chain. */
  predicate Breaks(h: Horizon, e: Event) {
    e.connectionId != h.connection || (HasIds(e) && !Chains(h, e))
  }

  predicate Boots(op: Op) {
    op.Bootstrap? && op.id > 0 && op.connection != ""
  }

  /** The horizon of a run, read off its operations alone. */
  function Seen(symbol: string, ops: seq<Op>): Option<Horizon> {
    if ops == [] then None
    else
      var front, op := Seen(symbol, ops[..|ops| - 1]), ops[|ops| - 1];
      if Boots(op) then Some(StartAt(op.id, op.connection))
      else if op.Offer? && OnStream(symbol, op.event) && front.Some? then Some(Reach(front.value, op.event))
      else front
  }

  predicate BreaksAt(symbol: string, ops: seq<Op>, i: nat)
    requires i < |ops|
  {
    && ops[i].Offer? && OnStream(symbol, ops[i].event)
    && Seen(symbol, ops[..i]).Some? && Breaks(Seen(symbol, ops[..i]).value, ops[i].event)
  }

  /** Some event since the last bootstrap broke the horizon. */
  ghost predicate Broken(symbol: string, ops: seq<Op>) {
    exists i :: 0 <= i < |ops| && BreaksAt(symbol, ops, i) && NoBootAfter(ops, i)
  }

  ghost predicate NoBootAfter(ops: seq<Op>, i: nat) {
    forall k :: i < k < |ops| ==> !Boots(ops[k])
  }

  /** The state of a gate that stands at a horizon. */
  function GateAt(h: Option<Horizon>): GateState {
    if h.None? then INVALIDATED
    else GateState(Some(h.value.largest), Some(h.value.connection), h.value.largest == h.value.base)
  }

  lemma BrokenSnoc(symbol: string, ops: seq<Op>, op: Op)
    ensures Broken(symbol, ops + [op]) <==>
      !Boots(op) && (Broken(symbol, ops) || BreaksAt(symbol, ops + [op], |ops|))
  {
    var all := ops + [op];
    assert all[|ops|] == op;
    forall i | 0 <= i < |ops| ensures BreaksAt(symbol, all, i) == BreaksAt(symbol, ops, i) {
      assert all[..i] == ops[..i] && all[i] == ops[i];
    }
    forall i | 0 <= i < |ops| ensures NoBootAfter(all, i) <==> NoBootAfter(ops, i) && !Boots(op) {
      if NoBootAfter(all, i) {
        assert forall k :: i < k < |ops| ==> ops[k] == all[k];
      }
    }
    if Broken(symbol, all) {
      var i :| 0 <= i < |all| && BreaksAt(symbol, all, i) && NoBootAfter(all, i);
      if i == |ops| {
        assert !Boots(op);
      }
    }
  }

  lemma SeenSnoc(symbol: string, ops: seq<Op>, op: Op)
    ensures Seen(symbol, ops + [op]) ==
      if Boots(op) then Some(StartAt(op.id, op.connection))
      else if op.Offer? && OnStream(symbol, op.event) && Seen(symbol, ops).Some? then
        Some(Reach(Seen(symbol, ops).value, op.event))
      else Seen(symbol, ops)
  {
    assert (ops + [op])[..|ops|] == ops;
  }

  lemma {:induction false} SeenGrows(symbol: string, ops: seq<Op>)
    ensures Seen(symbol, ops).Some? ==> Seen(symbol, ops).value.base <= Seen(symbol, ops).value.largest
  {
    if ops != [] {
      SeenGrows(symbol, ops[..|ops| - 1]);
    }
  }

  /** Every run of a gate, whatever was refused on the way: it holds nothing if an event has
      broken the horizon since the last bootstrap, and otherwise it stands at the horizon. */
  lemma {:induction false} GateStandsAt(symbol: string, ops: seq<Op>)
    ensures After(symbol, ops) == GateAt(if Broken(symbol, ops) then None else Seen(symbol, ops))
  {
    if ops != [] {
      var front, op := ops[..|ops| - 1], ops[|ops| - 1];
      assert ops == front + [op];
      GateStandsAt(symbol, front);
      BrokenSnoc(symbol, front, op);
      SeenSnoc(symbol, front, op);
      SeenGrows(symbol, front);
      if op.Offer? && OnStream(symbol, op.event) && !Broken(symbol, front) && Seen(symbol, front).Some? {
        OfferAtHorizon(symbol, Seen(symbol, front).value, op.event);
      }
    }
  }

  lemma OfferAtHorizon(symbol: string, h: Horizon, e: Event)
    requires h.base <= h.largest && OnStream(symbol, e)
    ensures Judge(GateAt(Some(h)), symbol, e).0 == GateAt(if Breaks(h, e) then None else Some(Reach(h, e)))
  {
  }

  /** What a gate answers, for every run and every event offered after it. */
  ghost function Answer(symbol: string, ops: seq<Op>, e: Event): Verdict {
    if !OnStream(symbol, e) then Rejected(WrongStream)
    else if Broken(symbol, ops) || Seen(symbol, ops).None? then Rejected(SnapshotRequired)
    else
      var h := Seen(symbol, ops).value;
      if e.connectionId != h.connection then Rejected(SnapshotRequired)
      else if !HasIds(e) then Rejected(Malformed)
      else if !Chains(h, e) then Rejected(SequenceGap)
      else if e.payload.finalId.value <= h.largest then Stale
      else Accepted
  }

  /** An event is accepted exactly if nothing has broken the horizon since the last bootstrap
      and it goes beyond the horizon by chaining on the same connection; and every other
      answer is as the events say, too. */
  lemma VerdictIs(symbol: string, ops: seq<Op>, i: nat)
    requires i < |ops| && ops[i].Offer?
    ensures VerdictAt(symbol, ops, i) == Answer(symbol, ops[..i], ops[i].event)
  {
    GateStandsAt(symbol, ops[..i]);
    SeenGrows(symbol, ops[..i]);
  }

  lemma StaysBroken(symbol: string, ops: seq<Op>, i: nat, j: nat)
    requires i < j <= |ops| && BreaksAt(symbol, ops, i) && forall k :: i < k < j ==> !Boots(ops[k])
    ensures Broken(symbol, ops[..j])
  {
    assert ops[..j][..i] == ops[..i];
    assert BreaksAt(symbol, ops[..j], i);
  }

  /** A gap, a bad range or a changed connection is final: whatever arrives afterwards,
      nothing is accepted (nor even called stale) until the gate is bootstrapped again. */
  lemma NothingAcceptedUntilBootstrap(symbol: string, ops: seq<Op>, i: nat, j: nat)
    requires i < j < |ops| && ops[j].Offer?
    requires BreaksAt(symbol, ops, i)
    requires forall k :: i < k < j ==> !Boots(ops[k])
    ensures VerdictAt(symbol, ops, j) ==
      Rejected(if OnStream(symbol, ops[j].event) then SnapshotRequired else WrongStream)
  {
    StaysBroken(symbol, ops, i, j);
    VerdictIs(symbol, ops, j);
  }

  lemma {:induction false} IdHolds(symbol: string, ops: seq<Op>, i: nat, j: nat)
    requires i < j <= |ops|
    requires ops[i].Offer? && VerdictAt(symbol, ops, i) == Accepted
    requires forall k :: i < k < j ==> ops[k].Offer? && VerdictAt(symbol, ops, k) != Accepted
    ensures After(symbol, ops[..j]) == INVALIDATED ||
            After(symbol, ops[..j]) == GateState(ops[i].event.payload.finalId, Some(ops[i].event.connectionId), false)
    decreases j
  {
    assert ops[..j][..j - 1] == ops[..j - 1];
    if i + 1 < j {
      IdHolds(symbol, ops, i, j - 1);
    }
  }

  /** Two accepted events with no accepted event and no bootstrap between them are chained,
      however many stale or malformed events came in between: same connection, and the later
      one names the earlier one's last id as its predecessor and ends after it. */
  lemma AcceptedEventsChain(symbol: string, ops: seq<Op>, i: nat, j: nat)
    requires i < j < |ops| && ops[i].Offer? && ops[j].Offer?
    requires VerdictAt(symbol, ops, i) == Accepted && VerdictAt(symbol, ops, j) == Accepted
    requires forall k :: i < k < j ==> ops[k].Offer? && VerdictAt(symbol, ops, k) != Accepted
    ensures ops[j].event.connectionId == ops[i].event.connectionId
    ensures ops[j].event.payload.previousId == ops[i].event.payload.finalId
    ensures ops[j].event.payload.finalId.value > ops[i].event.payload.finalId.value
  {
    IdHolds(symbol, ops, i, j);
  }
}
