/** Which streams a Coinbase replay session accepts, told from the messages alone. */
module CoinbaseSession {
  import opened Common
  import opened Levels
  import opened CoinbaseReplay
  import Gate = CoinbaseGate
  import KeyedReplay
  import Lineage = BookLineage

  /** The levels that name each side, in order; or a message that does not parse. */
  function MessageOf(e: Event): Lineage.Message {
    if e.payload.NoEventList? || !ValidEntries(e.payload.entries) then Lineage.Unreadable
    else
      Lineage.Message(AllNaming(e.payload.entries, Gate.Bid), AllNaming(e.payload.entries, Gate.Offer), e.sequence)
  }

  function CallOf(e: Event): Lineage.Call {
    if e.messageType == Snapshot then Lineage.Load(MessageOf(e)) else Lineage.Advance(MessageOf(e))
  }

  /** The message is for a single product and is a snapshot or an update. */
  predicate Addressed(e: Event) {
    e.symbol != "ALL" && e.symbol != "MULTI" && e.messageType != OtherType
  }

  ghost function After(l: Lineage.Lineage, e: Event): Lineage.Lineage {
    if e.channel == Orderbook && Addressed(e) then Lineage.After(l, CallOf(e)) else l
  }

  ghost predicate GoesOn(l: Lineage.Lineage, e: Event) {
    e.channel == Orderbook ==> Addressed(e) && Lineage.GoesOn(l, CallOf(e))
  }

  /** How the book of a product takes a message, told from the lineage before it. */
  ghost function Answer(l: Lineage.Lineage, e: Event): Outcome {
    if GoesOn(l, e) then Done
    else if e.symbol == "ALL" || e.symbol == "MULTI" then Raised(WrongStream)
    else if e.messageType == OtherType || e.payload.NoEventList? then Raised(Malformed)
    else Lineage.Answer(l, CallOf(e))
  }

  ghost predicate StandsFor(b: Book, l: Lineage.Lineage) {
    Lineage.Stands(b.bids, b.asks, b.lastSequence, l)
  }

  lemma SnapshotAtLineage(b: Book, l: Lineage.Lineage, es: seq<Gate.WireEntry>, id: Option<int>)
    requires StandsFor(b, l) && ValidEntries(es)
    ensures
      var call := Lineage.Load(Lineage.Message(AllNaming(es, Gate.Bid), AllNaming(es, Gate.Offer), id));
      Loaded(b, es, id).1 == Lineage.Answer(l, call) && StandsFor(Loaded(b, es, id).0, Lineage.After(l, call))
  {
    EntriesKeepTheirSide(es);
    Lineage.FirstSides(Lineage.Message(AllNaming(es, Gate.Bid), AllNaming(es, Gate.Offer), id));
  }

  lemma UpdateAtLineage(b: Book, l: Lineage.Lineage, es: seq<Gate.WireEntry>, id: Option<int>)
    requires StandsFor(b, l) && ValidEntries(es)
    ensures
      var call := Lineage.Advance(Lineage.Message(AllNaming(es, Gate.Bid), AllNaming(es, Gate.Offer), id));
      Advanced(b, es, id).1 == Lineage.Answer(l, call) && StandsFor(Advanced(b, es, id).0, Lineage.After(l, call))
  {
    EntriesKeepTheirSide(es);
    if l.Since? {
      Lineage.NextSides(l, Lineage.Message(AllNaming(es, Gate.Bid), AllNaming(es, Gate.Offer), id));
    }
  }

  lemma EventAtLineage(b: Book, l: Lineage.Lineage, e: Event)
    requires StandsFor(b, l)
    ensures BookOutcome(b, e).1 == Answer(l, e)
    ensures StandsFor(BookOutcome(b, e).0, After(l, e))
  {
    if e.channel == Orderbook && Addressed(e) && MessageOf(e).Message? {
      if e.messageType == Snapshot {
        SnapshotAtLineage(b, l, e.payload.entries, e.sequence);
      } else {
        UpdateAtLineage(b, l, e.payload.entries, e.sequence);
      }
    }
  }

  /** The book of one product after any events for it, whether they raised or not. */
  ghost function BookAfter(events: seq<Event>): Book {
    if events == [] then NO_BOOK else BookOutcome(BookAfter(events[..|events| - 1]), events[|events| - 1]).0
  }

  ghost function LineageOf(events: seq<Event>): Lineage.Lineage {
    if events == [] then Lineage.Nothing else After(LineageOf(events[..|events| - 1]), events[|events| - 1])
  }

  /** Every reachable book is empty, or the fold of the last snapshot it took and of the updates
      it took since, each side made of the updates that name it; it takes exactly the messages
      that go on from there, and nothing of any other. */
  lemma {:induction false} ReachableBooksAreSound(events: seq<Event>, e: Event)
    ensures StandsFor(BookAfter(events), LineageOf(events))
    ensures BookOutcome(BookAfter(events), e).1 == Answer(LineageOf(events), e)
  {
    if events != [] {
      var front, last := events[..|events| - 1], events[|events| - 1];
      ReachableBooksAreSound(front, last);
      EventAtLineage(BookAfter(front), LineageOf(front), last);
    }
    EventAtLineage(BookAfter(events), LineageOf(events), e);
  }

  // ------------------------------------------------------- whole streams

  function Product(events: seq<Event>, symbol: string): seq<Event> {
    KeyedReplay.Of(events, SymbolOf, symbol)
  }

  /** Every event goes on from those before it of its product. */
  ghost predicate AllGoOn(events: seq<Event>) {
    forall n :: 0 <= n < |events| ==> GoesOn(LineageOf(Product(events[..n], events[n].symbol)), events[n])
  }

  lemma AllGoOnSnoc(events: seq<Event>, e: Event)
    ensures AllGoOn(events + [e]) <==> AllGoOn(events) && GoesOn(LineageOf(Product(events, e.symbol)), e)
  {
    var all := events + [e];
    assert all[..|events|] == events && all[|events|] == e;
    forall n | 0 <= n < |events| ensures all[..n] == events[..n] && all[n] == events[n] {
    }
    if AllGoOn(all) {
      forall n | 0 <= n < |events| ensures GoesOn(LineageOf(Product(events[..n], events[n].symbol)), events[n]) {
        assert GoesOn(LineageOf(Product(all[..n], all[n].symbol)), all[n]);
      }
    }
  }

  lemma ProductSnoc(events: seq<Event>, e: Event, symbol: string)
    ensures Product(events + [e], symbol) ==
      if e.symbol == symbol then Product(events, symbol) + [e] else Product(events, symbol)
  {
    FilterSnoc(events, e, x => SymbolOf(x) == symbol);
  }

  lemma LineageSnoc(events: seq<Event>, e: Event)
    ensures LineageOf(events + [e]) == After(LineageOf(events), e)
  {
    assert (events + [e])[..|events|] == events;
  }

  lemma ProductLineage(events: seq<Event>, e: Event, symbol: string)
    ensures LineageOf(Product(events + [e], symbol)) ==
      if e.symbol == symbol then After(LineageOf(Product(events, symbol)), e) else LineageOf(Product(events, symbol))
  {
    ProductSnoc(events, e, symbol);
    LineageSnoc(Product(events, symbol), e);
  }

  ghost predicate AllStand(books: map<string, Book>, events: seq<Event>) {
    forall s :: StandsFor(BookOf(books, s), LineageOf(Product(events, s)))
  }

  lemma StepStands(books: map<string, Book>, events: seq<Event>, e: Event)
    requires AllStand(books, events)
    ensures BookStep(BookOf(books, e.symbol), e).Ok? <==> GoesOn(LineageOf(Product(events, e.symbol)), e)
    ensures BookStep(BookOf(books, e.symbol), e).Ok? ==>
      AllStand(books[e.symbol := BookStep(BookOf(books, e.symbol), e).value], events + [e])
  {
    EventAtLineage(BookOf(books, e.symbol), LineageOf(Product(events, e.symbol)), e);
    if BookStep(BookOf(books, e.symbol), e).Ok? {
      var next := books[e.symbol := BookStep(BookOf(books, e.symbol), e).value];
      forall s ensures StandsFor(BookOf(next, s), LineageOf(Product(events + [e], s))) {
        ProductLineage(events, e, s);
        assert StandsFor(BookOf(books, s), LineageOf(Product(events, s)));
      }
    }
  }

  /** The books accept a stream if and only if every event goes on from those before it of its
      product; each book then stands for them. */
  lemma {:induction false} BooksAcceptIff(events: seq<Event>)
    ensures Books(events).Ok? <==> AllGoOn(events)
    ensures Books(events).Ok? ==> AllStand(Books(events).value, events)
  {
    if events == [] {
      assert forall s :: Product(events, s) == [];
    } else {
      var front, e := events[..|events| - 1], events[|events| - 1];
      assert events == front + [e];
      BooksAcceptIff(front);
      AllGoOnSnoc(front, e);
      KeyedReplay.RunSnoc(NO_BOOK, BookStep, SymbolOf, front, e);
      if Books(front).Ok? {
        StepStands(Books(front).value, front, e);
      }
    }
  }

  /** A session accepts a stream if and only if its numbers are continuous on every connection
      and every event goes on from those before it of its product. */
  lemma ReplayAcceptsIff(events: seq<Event>)
    requires forall i :: 0 <= i < |events| ==> events[i].exchange == Coinbase
    ensures Replay(events).Ok? <==> Gate.Continuous(Gate.Numbered(events)) && AllGoOn(events)
    ensures Replay(events).Ok? ==> AllStand(Replay(events).value.books, events)
  {
    SessionIsGateAndBooks(events);
    Gate.AcceptedIffContinuous(events);
    BooksAcceptIff(events);
  }

  /** The error of an event that is not taken, told from the numbered events before it and the
      lineage of its product: its number comes before its content. */
  ghost function ErrorOf(q: seq<Event>, l: Lineage.Lineage, e: Event): ReplayError {
    if e.exchange != Coinbase then WrongStream
    else if e.sequence.Some? && q != [] && q[|q| - 1].sequence.Some? && !Gate.Follows(q[|q| - 1], e) then
      Gate.Reason(q[|q| - 1].sequence.value, e.sequence.value)
    else
      var answer := Answer(l, e);
      if answer.Raised? then answer.error else Malformed
  }

  lemma StepError(q: seq<Event>, b: Book, l: Lineage.Lineage, e: Event)
    requires (q != [] ==> q[|q| - 1].sequence.Some?) && StandsFor(b, l)
    ensures Gate.Judge(Gate.LastSeen(q), e).1.Rejected? ==>
      Gate.Judge(Gate.LastSeen(q), e).1.error == ErrorOf(q, l, e)
    ensures !Gate.Judge(Gate.LastSeen(q), e).1.Rejected? && BookOutcome(b, e).1.Raised? ==>
      BookOutcome(b, e).1.error == ErrorOf(q, l, e)
  {
    EventAtLineage(b, l, e);
  }

  lemma LastIsNumbered(events: seq<Event>)
    ensures
      var q := Gate.Numbered(events);
      q != [] ==> q[|q| - 1].sequence.Some?
  {
  }

  lemma NextError(front: seq<Event>, e: Event)
    requires forall i :: 0 <= i < |front| ==> front[i].exchange == Coinbase
    requires Replay(front).Ok? && Replay(front + [e]).Err?
    ensures Replay(front + [e]).error == ErrorOf(Gate.Numbered(front), LineageOf(Product(front, e.symbol)), e)
  {
    var s := Replay(front).value;
    ReplayAcceptsIff(front);
    assert StandsFor(BookOf(s.books, e.symbol), LineageOf(Product(front, e.symbol)));
    GateIsLastSeen(front);
    LastIsNumbered(front);
    StepError(Gate.Numbered(front), BookOf(s.books, e.symbol), LineageOf(Product(front, e.symbol)), e);
    ReplaySnoc(front, e);
  }

  lemma GateIsLastSeen(events: seq<Event>)
    requires Replay(events).Ok? && forall i :: 0 <= i < |events| ==> events[i].exchange == Coinbase
    ensures Replay(events).value.gate == Gate.LastSeen(Gate.Numbered(events))
  {
    SessionIsGateAndBooks(events);
    Gate.AcceptedIffContinuous(events);
  }

  /** A replay that raises ends with the error that the events before the first refused one
      tell. */
  lemma ReplayRaisesAtTheFirst(events: seq<Event>, n: nat)
    requires n < |events| && (forall i :: 0 <= i < n ==> events[i].exchange == Coinbase)
    requires Replay(events[..n]).Ok? && Replay(events[..n + 1]).Err?
    ensures
      var front, e := events[..n], events[n];
      Replay(events) == Err(ErrorOf(Gate.Numbered(front), LineageOf(Product(front, e.symbol)), e))
  {
    var front, e := events[..n], events[n];
    assert events[..n + 1] == front + [e];
    NextError(front, e);
    RaiseEnds(events, n + 1);
  }
}
