/** Coinbase's connection-global sequence gate (src/data/coinbase_adapter.py). */
module CoinbaseGate {
  import opened Common

  datatype BookSide = Bid | Offer | OtherSide

  /** One L2 update: not an object with finite decimals, or a side, a price and a size. */
  datatype WireUpdate = BadUpdate | Update(side: BookSide, price: real, size: real)

  /** One element of `events`: not an object with a list of updates, or that list. */
  datatype WireEntry = BadEntry | Entry(product: string, updates: seq<WireUpdate>)

  datatype Payload = NoEventList | EventList(entries: seq<WireEntry>)

  type Event = RawEvent<Payload>

  datatype GateState = GateState(connectionId: Option<string>, lastSequence: Option<int>)

  const RESET: GateState := GateState(None, None)

  datatype Verdict = Advanced | Unchecked | Rejected(error: ReplayError)

  class CoinbaseConnectionSequenceGate {
    var connectionId: Option<string>
    var lastSequence: Option<int>

    function State(): GateState
      reads this
    {
      GateState(connectionId, lastSequence)
    }

    /** Both fields are set or neither is. */
    ghost predicate Valid()
      reads this
    {
      connectionId.Some? <==> lastSequence.Some?
    }

    constructor ()
      ensures Valid() && State() == RESET
    {
      connectionId, lastSequence := None, None;
    }

    method ResetState()
      modifies this
      ensures Valid() && State() == RESET
    {
      connectionId, lastSequence := None, None;
    }

    method Observe(e: Event) returns (v: Verdict)
      requires Valid()
      modifies this
      ensures Valid()
      ensures (State(), v) == Judge(old(State()), e)
    {
      if e.exchange != Coinbase {
        return Rejected(WrongStream);
      }
      if e.sequence.None? {
        return Unchecked;
      }
      if connectionId.Some? && e.connectionId != connectionId.value {
        ResetState();
      }
      if connectionId.None? {
        connectionId, lastSequence := Some(e.connectionId), e.sequence;
        return Advanced;
      }
      var expected := lastSequence.value + 1;
      if e.sequence.value == expected {
        lastSequence := e.sequence;
        return Advanced;
      }
      if e.sequence.value == lastSequence.value {
        ResetState();
        return Rejected(SequenceDuplicate);
      }
      if e.sequence.value > lastSequence.value {
        ResetState();
        return Rejected(SequenceGap);
      }
      ResetState();
      return Rejected(SequenceRegression);
    }
  }

  /** One call of `observe`. */
  function Judge(g: GateState, e: Event): (GateState, Verdict)
    requires g.connectionId.Some? <==> g.lastSequence.Some?
  {
    if e.exchange != Coinbase then (g, Rejected(WrongStream))
    else if e.sequence.None? then (g, Unchecked)
    else if g.connectionId != Some(e.connectionId) then (GateState(Some(e.connectionId), e.sequence), Advanced)
    else if e.sequence.value == g.lastSequence.value + 1 then (GateState(g.connectionId, e.sequence), Advanced)
    else if e.sequence.value == g.lastSequence.value then (RESET, Rejected(SequenceDuplicate))
    else if e.sequence.value > g.lastSequence.value then (RESET, Rejected(SequenceGap))
    else (RESET, Rejected(SequenceRegression))
  }

  /** The gate after a run, which the first rejection ends. */
  function After(events: seq<Event>): (r: Result<GateState, ReplayError>)
    ensures r.Ok? ==> (r.value.connectionId.Some? <==> r.value.lastSequence.Some?)
  {
    if events == [] then Ok(RESET)
    else
      match After(events[..|events| - 1])
      case Err(x) => Err(x)
      case Ok(g) =>
        var (next, verdict) := Judge(g, events[|events| - 1]);
        if verdict.Rejected? then Err(verdict.error) else Ok(next)
  }

  // ------------------------------------------------------------ continuity

  /** The events that carry a `sequence_num`. */
  function Numbered(events: seq<Event>): seq<Event> {
    Filter(events, (e: Event) => e.sequence.Some?)
  }

  /** On one connection the next number is the successor; a new connection starts anew. */
  predicate Follows(a: Event, b: Event) {
    && a.sequence.Some? && b.sequence.Some?
    && (a.connectionId == b.connectionId ==> b.sequence.value == a.sequence.value + 1)
  }

  ghost predicate Continuous(numbered: seq<Event>) {
    forall i :: 0 <= i < |numbered| - 1 ==> Follows(numbered[i], numbered[i + 1])
  }

  lemma ContinuousSnoc(q: seq<Event>, e: Event)
    ensures Continuous(q + [e]) <==> Continuous(q) && (q == [] || Follows(q[|q| - 1], e))
  {
    var q' := q + [e];
    if Continuous(q') {
      forall i | 0 <= i < |q| - 1 ensures Follows(q[i], q[i + 1]) {
        assert Follows(q'[i], q'[i + 1]);
      }
      assert q != [] ==> Follows(q'[|q| - 1], q'[|q| - 1 + 1]);
    }
  }

  /** The state a run of numbered events leaves: the last one's connection and number. */
  function LastSeen(numbered: seq<Event>): GateState {
    if numbered == [] then RESET
    else GateState(Some(numbered[|numbered| - 1].connectionId), numbered[|numbered| - 1].sequence)
  }

  /** One numbered event after a continuous run. */
  lemma NumberedStep(numbered: seq<Event>, e: Event)
    requires forall i :: 0 <= i < |numbered| ==> numbered[i].sequence.Some?
    requires e.exchange == Coinbase && e.sequence.Some?
    ensures
      var (next, verdict) := Judge(LastSeen(numbered), e);
      && (!verdict.Rejected? <==> numbered == [] || Follows(numbered[|numbered| - 1], e))
      && (!verdict.Rejected? ==> next == LastSeen(numbered + [e]))
  {
  }

  /** A run is accepted exactly when its numbered events are continuous. Unnumbered messages
      play no part, wherever they stand. */
  lemma {:induction false} AcceptedIffContinuous(events: seq<Event>)
    requires forall i :: 0 <= i < |events| ==> events[i].exchange == Coinbase
    ensures After(events).Ok? <==> Continuous(Numbered(events))
    ensures After(events).Ok? ==> After(events).value == LastSeen(Numbered(events))
  {
    if events != [] {
      var front, e := events[..|events| - 1], events[|events| - 1];
      assert events == front + [e];
      AcceptedIffContinuous(front);
      FilterSnoc(front, e, (x: Event) => x.sequence.Some?);
      var q, q' := Numbered(front), Numbered(events);
      if e.sequence.Some? {
        assert q' == q + [e];
        ContinuousSnoc(q, e);
        NumberedStep(q, e);
      }
    }
  }

  /** Inside a block of one connection the numbers are s, s + 1, s + 2, ...: the last minus
      the first is the count minus one. */
  lemma {:induction false} BlocksAreGapless(events: seq<Event>, i: nat, j: nat)
    requires forall k :: 0 <= k < |events| ==> events[k].exchange == Coinbase
    requires After(events).Ok?
    requires i <= j < |Numbered(events)|
    requires forall k :: i <= k <= j ==> Numbered(events)[k].connectionId == Numbered(events)[i].connectionId
    ensures Numbered(events)[j].sequence.value - Numbered(events)[i].sequence.value == j - i
    decreases j
  {
    AcceptedIffContinuous(events);
    var q := Numbered(events);
    if i < j {
      BlocksAreGapless(events, i, j - 1);
      assert Follows(q[j - 1], q[j - 1 + 1]);
    }
  }

  // ------------------------------------------- runs past a rejection

  /** The gate after any sequence of events, whatever it rejected on the way. */
  function AfterAll(events: seq<Event>): (g: GateState)
    ensures g.connectionId.Some? <==> g.lastSequence.Some?
  {
    if events == [] then RESET else Judge(AfterAll(events[..|events| - 1]), events[|events| - 1]).0
  }

  predicate Counts(e: Event) {
    e.exchange == Coinbase && e.sequence.Some?
  }

  /** The events that take part in the count. */
  function Counted(events: seq<Event>): seq<Event> {
    Filter(events, (e: Event) => Counts(e))
  }

  /** How many events at the end, one after another, do not follow the one before them. */
  function BreaksInARow(q: seq<Event>): nat {
    if |q| < 2 || Follows(q[|q| - 2], q[|q| - 1]) then 0 else 1 + BreaksInARow(q[..|q| - 1])
  }

  /** A rejection makes the gate forget, so the next event is taken whatever its number: of
      breaks in a row every second one is rejected. */
  predicate Refused(q: seq<Event>) {
    BreaksInARow(q) % 2 == 1
  }

  lemma CountedSnoc(events: seq<Event>, e: Event)
    ensures Counted(events + [e]) == if Counts(e) then Counted(events) + [e] else Counted(events)
  {
    FilterSnoc(events, e, (x: Event) => Counts(x));
  }

  lemma BreaksSnoc(q: seq<Event>, e: Event)
    ensures BreaksInARow(q + [e]) == if q == [] || Follows(q[|q| - 1], e) then 0 else 1 + BreaksInARow(q)
  {
    assert (q + [e])[..|q|] == q;
  }

  function Standing(q: seq<Event>): GateState {
    if Refused(q) then RESET else LastSeen(q)
  }

  lemma CountedStep(q: seq<Event>, e: Event)
    requires Counts(e) && (q != [] ==> q[|q| - 1].sequence.Some?)
    ensures Judge(Standing(q), e).0 == Standing(q + [e])
  {
    BreaksSnoc(q, e);
  }

  lemma LastCounts(events: seq<Event>)
    ensures Counted(events) != [] ==> Counts(Counted(events)[|Counted(events)| - 1])
  {
  }

  lemma {:induction false} GateAfterAll(events: seq<Event>)
    ensures AfterAll(events) == Standing(Counted(events))
  {
    if events != [] {
      var front, e := events[..|events| - 1], events[|events| - 1];
      assert events == front + [e];
      GateAfterAll(front);
      CountedSnoc(front, e);
      LastCounts(front);
      if Counts(e) {
        CountedStep(Counted(front), e);
      }
    }
  }

  /** Why an event that does not follow `last` is rejected. */
  function Reason(last: int, number: int): ReplayError {
    if number == last then SequenceDuplicate else if number > last then SequenceGap else SequenceRegression
  }

  lemma RefusedSnoc(q: seq<Event>, e: Event)
    ensures Refused(q + [e]) <==> q != [] && !Follows(q[|q| - 1], e) && !Refused(q)
  {
    BreaksSnoc(q, e);
  }

  /** The answer to a counted event, given the event counted before it and whether that one
      was rejected. */
  lemma CountedVerdict(before: Event, refused: bool, e: Event)
    requires before.sequence.Some? && Counts(e)
    ensures
      Judge(if refused then RESET else GateState(Some(before.connectionId), before.sequence), e).1 ==
        if refused || Follows(before, e) then Advanced
        else Rejected(Reason(before.sequence.value, e.sequence.value))
  {
  }

  /** Every answer of the gate, for every run, rejections included: an event that follows the
      one counted before it is taken; one that does not is rejected unless that one was. */
  lemma VerdictIs(events: seq<Event>, e: Event)
    ensures
      var q := Counted(events);
      Judge(AfterAll(events), e).1 ==
        if e.exchange != Coinbase then Rejected(WrongStream)
        else if e.sequence.None? then Unchecked
        else if !Refused(q + [e]) then Advanced
        else Rejected(Reason(q[|q| - 1].sequence.value, e.sequence.value))
  {
    var q := Counted(events);
    GateAfterAll(events);
    LastCounts(events);
    if Counts(e) {
      RefusedSnoc(q, e);
      if q != [] {
        CountedVerdict(q[|q| - 1], Refused(q), e);
      }
    }
  }
}
