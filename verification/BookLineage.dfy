/** What a book that is loaded from snapshots and advanced by deltas stands for: the last
    snapshot it took and the deltas it took since. The Binance and Coinbase books are measured
    by this; it speaks of messages only. */
module BookLineage {
  import opened Common
  import opened Levels

  /** The levels of a message and its number; or a message that does not parse. */
  datatype Message = Unreadable | Message(bids: seq<Level>, asks: seq<Level>, id: Option<int>)

  datatype Call = Load(message: Message) | Advance(message: Message)

  datatype Lineage = Nothing | Since(snapshot: Message, deltas: seq<Message>)

  function AllBids(ms: seq<Message>): seq<Level> {
    if ms == [] then []
    else AllBids(ms[..|ms| - 1]) + if ms[|ms| - 1].Message? then ms[|ms| - 1].bids else []
  }

  function AllAsks(ms: seq<Message>): seq<Level> {
    if ms == [] then []
    else AllAsks(ms[..|ms| - 1]) + if ms[|ms| - 1].Message? then ms[|ms| - 1].asks else []
  }

  /** The snapshot's levels with those of all deltas folded over them. */
  function BidsOf(l: Lineage): Side {
    if l.Nothing? || l.snapshot.Unreadable? then map[]
    else ApplyLevels(SnapshotSide(l.snapshot.bids), AllBids(l.deltas))
  }

  function AsksOf(l: Lineage): Side {
    if l.Nothing? || l.snapshot.Unreadable? then map[]
    else ApplyLevels(SnapshotSide(l.snapshot.asks), AllAsks(l.deltas))
  }

  function IdOf(l: Lineage): Option<int> {
    if l.Nothing? then None
    else
      var last := ([l.snapshot] + l.deltas)[|l.deltas|];
      if last.Message? then last.id else None
  }

  ghost predicate Fits(l: Lineage) {
    Uncrossed(BidsOf(l), AsksOf(l))
  }

  function Appended(l: Lineage, call: Call): Lineage {
    match call
    case Load(m) => Since(m, [])
    case Advance(m) => if l.Since? then Since(l.snapshot, l.deltas + [m]) else Nothing
  }

  /** The message parses, has a snapshot to go on from unless it is one, and leaves two
      non-empty uncrossed sides. */
  ghost predicate GoesOn(l: Lineage, call: Call) {
    call.message.Message? && (call.Advance? ==> l.Since?) && Fits(Appended(l, call))
  }

  /** A message that does not go on from the lineage is passed over, with nothing of it taken. */
  ghost function After(l: Lineage, call: Call): Lineage {
    if GoesOn(l, call) then Appended(l, call) else l
  }

  ghost function Answer(l: Lineage, call: Call): Outcome {
    if GoesOn(l, call) then Done
    else if call.Advance? && l.Nothing? then Raised(SnapshotRequired)
    else if call.message.Unreadable? then Raised(Malformed)
    else Raised(InvalidOrderBook)
  }

  /** The sides and the number of a book that stands for the lineage. */
  ghost predicate Stands(bids: Side, asks: Side, id: Option<int>, l: Lineage) {
    && bids == BidsOf(l) && asks == AsksOf(l) && id == IdOf(l)
    && (l.Since? ==> l.snapshot.Message? && Fits(l))
  }

  lemma AllSnoc(ms: seq<Message>, m: Message)
    requires m.Message?
    ensures AllBids(ms + [m]) == AllBids(ms) + m.bids && AllAsks(ms + [m]) == AllAsks(ms) + m.asks
  {
    assert (ms + [m])[..|ms|] == ms;
  }

  lemma LastId(l: Lineage, m: Message)
    requires l.Since? && m.Message?
    ensures IdOf(Since(l.snapshot, l.deltas + [m])) == m.id
  {
    assert ([l.snapshot] + (l.deltas + [m]))[|l.deltas| + 1] == m;
  }

  /** One more delta is folded over what is there. */
  lemma NextSides(l: Lineage, m: Message)
    requires l.Since? && l.snapshot.Message? && m.Message?
    ensures BidsOf(Since(l.snapshot, l.deltas + [m])) == ApplyLevels(BidsOf(l), m.bids)
    ensures AsksOf(Since(l.snapshot, l.deltas + [m])) == ApplyLevels(AsksOf(l), m.asks)
    ensures IdOf(Since(l.snapshot, l.deltas + [m])) == m.id
  {
    AllSnoc(l.deltas, m);
    LastId(l, m);
    ApplyLevelsConcat(SnapshotSide(l.snapshot.bids), AllBids(l.deltas), m.bids);
    ApplyLevelsConcat(SnapshotSide(l.snapshot.asks), AllAsks(l.deltas), m.asks);
  }

  lemma FirstSides(m: Message)
    requires m.Message?
    ensures BidsOf(Since(m, [])) == SnapshotSide(m.bids) && AsksOf(Since(m, [])) == SnapshotSide(m.asks)
    ensures IdOf(Since(m, [])) == m.id
  {
  }
}
