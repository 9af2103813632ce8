/** Types shared by the models of the replay, collection and storage code. */
module Common {
  datatype Option<+T> = None | Some(value: T)

  /** The source raises an exception; the model returns `Err`. */
  datatype Result<+T, +E> = Ok(value: T) | Err(error: E)

  /** The exception families of the three replay modules. */
  datatype ReplayError =
    | WrongStream          // the event belongs to another exchange, channel or symbol
    | Malformed            // a field is missing or is not what the parser accepts
    | SnapshotRequired
    | SequenceGap
    | SequenceDuplicate
    | SequenceRegression
    | InvalidOrderBook
    | BadArgument          // the gate's ValueError

  /** How a call that changes state in place ended: normally, or by raising. */
  datatype Outcome = Done | Raised(error: ReplayError)

  datatype Exchange = Binance | Bybit | Coinbase | OtherExchange

  datatype Channel = Orderbook | Trades | Ticker | Liquidations | Control | OtherChannel

  datatype MessageType = Snapshot | Delta | OtherType

  /** The fields of the raw envelope that replay and normalization look at. */
  datatype RawEvent<+P> = RawEvent(
    exchange: Exchange,
    channel: Channel,
    symbol: string,
    messageType: MessageType,
    connectionId: string,
    receiveTsNs: int,
    receiveSequence: int,
    eventId: nat,
    exchangeTsMs: Option<int>,
    matchingTsMs: Option<int>,
    sequence: Option<int>,
    payload: P)

  function CountOf<K>(m: map<K, nat>, k: K): nat {
    if k in m then m[k] else 0
  }

  /** A counter dictionary with one more for `k`. */
  function Bump<K>(m: map<K, nat>, k: K): map<K, nat> {
    m[k := CountOf(m, k) + 1]
  }

  /** The elements of `xs` that satisfy `p`, in order. */
  function Filter<T>(xs: seq<T>, p: T -> bool): (ys: seq<T>)
    ensures |ys| <= |xs|
    ensures forall i :: 0 <= i < |ys| ==> ys[i] in xs && p(ys[i])
    ensures forall i :: 0 <= i < |xs| && p(xs[i]) ==> xs[i] in ys
  {
    if xs == [] then []
    else
      var front := Filter(xs[..|xs| - 1], p);
      var x := xs[|xs| - 1];
      assert xs == xs[..|xs| - 1] + [x];
      if p(x) then front + [x] else front
  }

  lemma FilterSnoc<T>(xs: seq<T>, x: T, p: T -> bool)
    ensures Filter(xs + [x], p) == if p(x) then Filter(xs, p) + [x] else Filter(xs, p)
  {
    assert (xs + [x])[..|xs|] == xs;
  }

  lemma {:induction false} FilterConcat<T>(xs: seq<T>, ys: seq<T>, p: T -> bool)
    ensures Filter(xs + ys, p) == Filter(xs, p) + Filter(ys, p)
  {
    if ys == [] {
      assert xs + ys == xs;
    } else {
      var front, y := ys[..|ys| - 1], ys[|ys| - 1];
      assert xs + ys == (xs + front) + [y] && ys == front + [y];
      FilterConcat(xs, front, p);
      FilterSnoc(xs + front, y, p);
      FilterSnoc(front, y, p);
    }
  }

  lemma {:induction false} FilterBag<T>(xs: seq<T>, p: T -> bool, x: T)
    ensures multiset(Filter(xs, p))[x] == if p(x) then multiset(xs)[x] else 0
  {
    if xs != [] {
      var front, last := xs[..|xs| - 1], xs[|xs| - 1];
      assert xs == front + [last];
      FilterBag(front, p, x);
      FilterSnoc(front, last, p);
    }
  }
}
