/** What the three raw collectors do with a message between the socket and the store: a
    bounded queue filled by the main thread and a batching writer thread that empties it
    (src/data/bybit_raw_collector.py, src/data/binance_raw_collector.py,
    src/data/coinbase_raw_collector.py, whose code for this is the same). */
module CaptureQueue {
  import opened Common
  import opened EventOrder

  datatype Bounds = Bounds(capacity: nat, maxBatch: nat)

  /** Where the writer thread is in its loop. */
  datatype WriterPc = Checking | Getting | Deciding | Writing | Counting | Exited | Failed

  /** The queue, and what the writer thread does with it. */
  datatype Pipe<+E> = Pipe(writer: WriterPc, queue: seq<E>, batch: seq<E>, store: seq<E>, eventsWritten: nat)

  datatype Intake<+P> = Intake(
    pipe: Pipe<RawEvent<P>>, stopping: bool, receiveSequence: nat, dropped: nat,
    // history, not stored by the program
    captured: seq<RawEvent<P>>, handled: nat, refused: nat, clock: int)

  function Started<P>(): Intake<P> {
    Intake(Pipe(Checking, [], [], [], 0), false, 0, 0, [], 0, 0, 0)
  }

  // ------------------------------------------------------- the main thread

  predicate Room<P>(b: Bounds, i: Intake<P>) {
    |i.pipe.queue| < b.capacity
  }

  function Put<P>(i: Intake<P>, e: RawEvent<P>): Intake<P> {
    i.(pipe := i.pipe.(queue := i.pipe.queue + [e]), captured := i.captured + [e])
  }

  function Dropped<P>(i: Intake<P>): Intake<P> {
    i.(dropped := i.dropped + 1, refused := i.refused + 1)
  }

  /** A message that is not even text: it takes no receive sequence. */
  function Undecoded<P>(i: Intake<P>): Intake<P> {
    Dropped(i.(handled := i.handled + 1))
  }

  /** A message received at `now`, with the event it parses to if it does: into the queue, or
      dropped and counted. */
  function Taken<P>(b: Bounds, i: Intake<P>, event: Option<RawEvent<P>>, now: int): Intake<P> {
    var counted := i.(receiveSequence := i.receiveSequence + 1, clock := now, handled := i.handled + 1);
    if event.None? || !Room(b, i) then Dropped(counted) else Put(counted, event.value)
  }

  /** The event carries the receive sequence and the time it was taken at; the wall clock
      does not step back. */
  predicate Stamped<P>(i: Intake<P>, event: Option<RawEvent<P>>, now: int) {
    && i.clock <= now
    && (event.Some? ==> event.value.receiveSequence == i.receiveSequence + 1 && event.value.receiveTsNs == now)
  }

  // ----------------------------------------------------- the writer thread

  function Wrote<E>(b: Bounds, p: Pipe<E>, stopping: bool, due: bool): Pipe<E> {
    match p.writer
    case Checking => p.(writer := if !stopping || p.queue != [] || p.batch != [] then Getting else Exited)
    case Getting =>
      if p.queue == [] then p.(writer := Deciding)
      else p.(writer := Deciding, batch := p.batch + [p.queue[0]], queue := p.queue[1..])
    case Deciding =>
      var flush := p.batch != [] && (due || |p.batch| >= b.maxBatch || (stopping && p.queue == []));
      p.(writer := if flush then Writing else Checking)
    case Writing => p.(writer := Counting, store := p.store + p.batch)
    case Counting => p.(writer := Checking, eventsWritten := p.eventsWritten + |p.batch|, batch := [])
    case _ => p
  }

  /** The append raises after some part of the batch was stored. */
  function WriteFailed<E>(p: Pipe<E>, partial: seq<E>): Pipe<E> {
    p.(writer := Failed, store := p.store + partial)
  }

  predicate Running<E>(p: Pipe<E>) {
    !p.writer.Exited? && !p.writer.Failed?
  }

  function WriterStep<P>(b: Bounds, i: Intake<P>, due: bool): Intake<P> {
    i.(pipe := Wrote(b, i.pipe, i.stopping, due))
  }

  function WriterFails<P>(i: Intake<P>, partial: seq<RawEvent<P>>): Intake<P> {
    i.(pipe := WriteFailed(i.pipe, partial), dropped := i.dropped + 1)
  }

  /** What happens without an event: a message that is not text, `stop`, the writer's turns. */
  datatype Turn<P> = NotText | StopRequested | WriterActs(due: bool) | AppendFails(partial: seq<RawEvent<P>>)

  predicate TurnEnabled<P>(i: Intake<P>, t: Turn<P>) {
    match t
    case NotText => !i.stopping
    case StopRequested => !i.stopping
    case WriterActs(_) => Running(i.pipe)
    case AppendFails(_) => i.pipe.writer == Writing
  }

  function AfterTurn<P>(b: Bounds, i: Intake<P>, t: Turn<P>): Intake<P>
    requires TurnEnabled(i, t)
  {
    match t
    case NotText => Undecoded(i)
    case StopRequested => i.(stopping := true)
    case WriterActs(due) => WriterStep(b, i, due)
    case AppendFails(partial) => WriterFails(i, partial)
  }

  // ------------------------------------------------------- nothing is lost

  /** The part of the batch that is not in the store yet. */
  function InFlight<E>(p: Pipe<E>): seq<E> {
    if p.writer == Counting then [] else p.batch
  }

  function Everything<E>(p: Pipe<E>): seq<E> {
    p.store + InFlight(p) + p.queue
  }

  /** How far the counter of written events is behind the store, but for a batch that is
      about to be counted. */
  function Uncounted<E>(p: Pipe<E>): int {
    |p.store| - p.eventsWritten - if p.writer == Counting then |p.batch| else 0
  }

  ghost predicate PipeSound<E>(b: Bounds, p: Pipe<E>, stopping: bool) {
    && |p.queue| <= b.capacity
    && |p.batch| <= b.maxBatch
    && (p.writer == Checking || p.writer == Getting ==> |p.batch| < b.maxBatch)
    && (p.writer == Writing || p.writer == Counting ==> p.batch != [])
    && (p.writer == Exited ==> stopping && p.queue == [] && p.batch == [])
    && (p.writer != Failed ==> Uncounted(p) == 0)
  }

  ghost predicate CapturedInKeyOrder<P>(i: Intake<P>) {
    && (forall j, k :: 0 <= j < k < |i.captured| ==> Before(i.captured[j], i.captured[k]))
    && (forall j :: 0 <= j < |i.captured| ==>
          i.captured[j].receiveTsNs <= i.clock && i.captured[j].receiveSequence <= i.receiveSequence)
  }

  /** Every event taken off the socket is, in order and once, in the store, in the batch or
      in the queue; every message is captured or counted as a drop. */
  ghost predicate Lossless<P>(b: Bounds, i: Intake<P>) {
    && PipeSound(b, i.pipe, i.stopping)
    && (i.pipe.writer != Failed ==> i.captured == Everything(i.pipe))
    && i.handled == |i.captured| + i.refused
    && i.dropped == i.refused + (if i.pipe.writer == Failed then 1 else 0)
    && CapturedInKeyOrder(i)
  }

  lemma WriteKeepsEverything<E>(b: Bounds, p: Pipe<E>, stopping: bool, due: bool)
    ensures Everything(Wrote(b, p, stopping, due)) == Everything(p)
    ensures Uncounted(Wrote(b, p, stopping, due)) == Uncounted(p)
    ensures Wrote(b, p, stopping, due).writer == Failed <==> p.writer == Failed
  {
    if p.writer == Getting && p.queue != [] {
      assert p.queue == [p.queue[0]] + p.queue[1..];
    }
  }

  lemma WriteIsSound<E>(b: Bounds, p: Pipe<E>, stopping: bool, due: bool)
    requires b.maxBatch > 0 && PipeSound(b, p, stopping)
    ensures PipeSound(b, Wrote(b, p, stopping, due), stopping)
  {
  }

  lemma WriteIsLossless<P>(b: Bounds, i: Intake<P>, due: bool)
    requires b.maxBatch > 0 && Lossless(b, i)
    ensures Lossless(b, WriterStep(b, i, due))
  {
    WriteIsSound(b, i.pipe, i.stopping, due);
    WriteKeepsEverything(b, i.pipe, i.stopping, due);
  }

  lemma KeyOrderSnoc<P>(i: Intake<P>, next: Intake<P>, event: RawEvent<P>, now: int)
    requires CapturedInKeyOrder(i) && Stamped(i, Some(event), now)
    requires next.captured == i.captured + [event] && next.clock == now && next.receiveSequence == i.receiveSequence + 1
    ensures CapturedInKeyOrder(next)
  {
  }

  lemma TakeIsLossless<P>(b: Bounds, i: Intake<P>, event: Option<RawEvent<P>>, now: int)
    requires Lossless(b, i) && !i.stopping && Stamped(i, event, now)
    ensures Lossless(b, Taken(b, i, event, now))
  {
    var next := Taken(b, i, event, now);
    if event.Some? && Room(b, i) {
      assert Everything(next.pipe) == Everything(i.pipe) + [event.value];
      KeyOrderSnoc(i, next, event.value, now);
    }
  }

  lemma TurnIsLossless<P>(b: Bounds, i: Intake<P>, t: Turn<P>)
    requires b.maxBatch > 0 && Lossless(b, i) && TurnEnabled(i, t)
    ensures Lossless(b, AfterTurn(b, i, t)) && AfterTurn(b, i, t).captured == i.captured
  {
    if t.WriterActs? {
      WriteIsLossless(b, i, t.due);
    }
  }

  /** When the writer has exited, everything captured is written, in order, and the drop
      counter accounts for every other message. */
  lemma QuiescenceIsComplete<P>(b: Bounds, i: Intake<P>)
    requires Lossless(b, i) && i.pipe.writer == Exited
    ensures i.pipe.store == i.captured
    ensures i.pipe.eventsWritten == |i.pipe.store|
    ensures i.handled == i.pipe.eventsWritten + i.dropped
  {
    assert Everything(i.pipe) == i.pipe.store;
  }

  /** Sorting what is stored, in whatever order it is read back, gives the capture. */
  lemma SortedStoreIsCapture<P(!new)>(b: Bounds, i: Intake<P>, stored: seq<RawEvent<P>>)
    requires Lossless(b, i) && i.pipe.writer == Exited && multiset(stored) == multiset(i.pipe.store)
    ensures Sorted(stored) == i.captured == i.pipe.store
  {
    QuiescenceIsComplete(b, i);
    SortedRecoversCapture(i.captured, stored);
  }

  // ------------------------------------------------------------- draining

  /** Work left for the writer after a stop. */
  function Work<E>(p: Pipe<E>): nat {
    8 * (2 * |p.queue| + |p.batch|) +
    match p.writer
    case Checking => 6
    case Getting => if p.queue == [] && p.batch == [] then 8 else 5
    case Deciding => if p.queue == [] && p.batch != [] then 4 else 7
    case Writing => 3
    case Counting => 2
    case Exited => 0
    case Failed => 0
  }

  lemma WriterMakesProgress<E>(b: Bounds, p: Pipe<E>, due: bool)
    requires b.maxBatch > 0 && PipeSound(b, p, true) && Running(p)
    ensures Work(Wrote(b, p, true, due)) < Work(p)
  {
  }

  /** The pipe after the writer's turns with these answers of the timer, once stopped. */
  function Drained<E>(b: Bounds, p: Pipe<E>, dues: seq<bool>): Pipe<E> {
    if dues == [] then p else Wrote(b, Drained(b, p, dues[..|dues| - 1]), true, dues[|dues| - 1])
  }

  lemma DrainedSnoc<E>(b: Bounds, p: Pipe<E>, dues: seq<bool>, due: bool)
    ensures Drained(b, p, dues + [due]) == Wrote(b, Drained(b, p, dues), true, due)
  {
    assert (dues + [due])[..|dues|] == dues;
  }

  lemma {:induction false} DrainedKeepsEverything<E>(b: Bounds, p: Pipe<E>, dues: seq<bool>)
    ensures Everything(Drained(b, p, dues)) == Everything(p)
    ensures Uncounted(Drained(b, p, dues)) == Uncounted(p)
  {
    if dues != [] {
      DrainedKeepsEverything(b, p, dues[..|dues| - 1]);
      WriteKeepsEverything(b, Drained(b, p, dues[..|dues| - 1]), true, dues[|dues| - 1]);
    }
  }

  lemma {:induction false} DrainedWorks<E>(b: Bounds, p: Pipe<E>, dues: seq<bool>)
    requires b.maxBatch > 0 && PipeSound(b, p, true) && p.writer != Failed
    ensures PipeSound(b, Drained(b, p, dues), true) && Drained(b, p, dues).writer != Failed
    ensures Drained(b, p, dues).writer == Exited || Work(Drained(b, p, dues)) + |dues| <= Work(p)
  {
    if dues != [] {
      var q, due := Drained(b, p, dues[..|dues| - 1]), dues[|dues| - 1];
      DrainedWorks(b, p, dues[..|dues| - 1]);
      WriteIsSound(b, q, true, due);
      if q.writer != Exited {
        WriterMakesProgress(b, q, due);
      }
    }
  }

  /** After a stop the writer drains whatever the flush deadlines do: after `Work` turns it
      has exited with everything that was in flight in the store, in order. */
  lemma WriterDrains<E>(b: Bounds, p: Pipe<E>, dues: seq<bool>)
    requires b.maxBatch > 0 && PipeSound(b, p, true) && p.writer != Failed
    requires |dues| >= Work(p)
    ensures Drained(b, p, dues).writer == Exited
    ensures Drained(b, p, dues).store == Everything(p)
    ensures Drained(b, p, dues).eventsWritten == |Everything(p)|
  {
    DrainedWorks(b, p, dues);
    DrainedKeepsEverything(b, p, dues);
    assert Everything(Drained(b, p, dues)) == Drained(b, p, dues).store;
  }

  /** The writer's turns, one for every answer of the timer. */
  function Acts<P>(dues: seq<bool>): seq<Turn<P>> {
    seq(|dues|, i requires 0 <= i < |dues| => WriterActs(dues[i]))
  }

  /** The intake after turns that involve no event; None if one was not possible. */
  function AfterTurns<P>(b: Bounds, i: Intake<P>, turns: seq<Turn<P>>): Option<Intake<P>>
    decreases |turns|
  {
    if turns == [] then Some(i)
    else if !TurnEnabled(i, turns[0]) then None
    else AfterTurns(b, AfterTurn(b, i, turns[0]), turns[1..])
  }

  lemma ActsCons<P>(dues: seq<bool>, n: nat)
    requires n < |dues|
    ensures Acts<P>(dues[..n + 1]) == [WriterActs(dues[0])] + Acts<P>(dues[1..][..n])
  {
  }

  lemma {:induction false} StoppedDrains<P>(b: Bounds, i: Intake<P>, dues: seq<bool>) returns (n: nat)
    requires b.maxBatch > 0 && Lossless(b, i) && i.stopping && i.pipe.writer != Failed && |dues| >= Work(i.pipe)
    ensures n <= |dues| && AfterTurns(b, i, Acts(dues[..n])).Some?
    ensures
      var end := AfterTurns(b, i, Acts(dues[..n])).value;
      end.pipe.writer == Exited && end.pipe.store == end.captured == i.captured && Lossless(b, end)
    decreases |dues|
  {
    if i.pipe.writer == Exited {
      n := 0;
      QuiescenceIsComplete(b, i);
    } else {
      var next := AfterTurn(b, i, WriterActs(dues[0]));
      WriterMakesProgress(b, i.pipe, dues[0]);
      WriteKeepsEverything(b, i.pipe, true, dues[0]);
      TurnIsLossless(b, i, WriterActs(dues[0]));
      var m := StoppedDrains(b, next, dues[1..]);
      n := m + 1;
      ActsCons<P>(dues, m);
      assert Acts<P>(dues[..n])[1..] == Acts<P>(dues[1..][..m]);
    }
  }

  /** Asking for a stop and letting the writer act stores everything captured, whatever the
      flush deadlines do, unless an append fails. */
  lemma StopDrains<P>(b: Bounds, i: Intake<P>, dues: seq<bool>) returns (n: nat)
    requires b.maxBatch > 0 && Lossless(b, i) && TurnEnabled(i, StopRequested) && i.pipe.writer != Failed
    requires |dues| >= Work(i.pipe)
    ensures n <= |dues| && AfterTurns(b, AfterTurn(b, i, StopRequested), Acts(dues[..n])).Some?
    ensures
      var end := AfterTurns(b, AfterTurn(b, i, StopRequested), Acts(dues[..n])).value;
      end.stopping && end.pipe.writer == Exited && end.pipe.store == end.captured == i.captured
  {
    TurnIsLossless(b, i, StopRequested);
    n := StoppedDrains(b, AfterTurn(b, i, StopRequested), dues);
  }

  // ------------------------------------------- progress before a stop

  /** Nothing is on its way any more: all is in the store and counted. */
  predicate Settled<E>(p: Pipe<E>) {
    p.queue == [] && p.batch == []
  }

  lemma SettledIsStored<E>(b: Bounds, p: Pipe<E>, stopping: bool)
    requires PipeSound(b, p, stopping) && p.writer != Failed && Settled(p)
    ensures p.store == Everything(p) && p.eventsWritten == |p.store|
  {
    assert Everything(p) == p.store;
  }

  /** When the flush deadline is due, every turn of a running writer brings it nearer to having
      stored everything, whether it is stopping or not. */
  lemma DueMakesProgress<E>(b: Bounds, p: Pipe<E>, stopping: bool)
    requires b.maxBatch > 0 && PipeSound(b, p, stopping) && Running(p) && !Settled(p)
    ensures Running(Wrote(b, p, stopping, true))
    ensures Work(Wrote(b, p, stopping, true)) < Work(p)
  {
  }

  // ---------------------------------------------------- batches are full

  /** So many events make whole batches. */
  predicate WholeBatches(events: nat, batch: nat)
    requires batch > 0
    decreases events
  {
    events == 0 || (events >= batch && WholeBatches(events - batch, batch))
  }

  /** As long as no deadline was due and no stop was asked for, only full batches are written. */
  ghost predicate OnlyFullBatches<E>(b: Bounds, p: Pipe<E>)
    requires b.maxBatch > 0
  {
    && WholeBatches(|p.store|, b.maxBatch)
    && (p.writer == Writing || p.writer == Counting ==> |p.batch| == b.maxBatch)
  }

  lemma WithoutDeadlineBatchesAreFull<E>(b: Bounds, p: Pipe<E>)
    requires b.maxBatch > 0 && PipeSound(b, p, false) && OnlyFullBatches(b, p)
    ensures OnlyFullBatches(b, Wrote(b, p, false, false))
  {
  }
}
