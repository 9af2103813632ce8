# Capture, replay and storage: a verified model

The repository records exchange streams, rebuilds order books from the records, rewrites and
prunes what it stored, and computes interval and run statistics over backtests. This project
models those parts in Dafny and proves what they promise.

* **Replay.** Order books, sequence gates and replay sessions are classes whose fields the
  methods update in place, as in the source. Every method is proved against a transition
  function on values (`Loaded`, `Advanced`, `Judge`, `BookStep`, `StepOutcome`), error branches
  included, and the theorems are about whole runs of those functions: the replayed Binance book
  is the exchange's book, reachable Bybit books are sound, Coinbase acceptance is continuity of
  the connection counter, symbols do not disturb one another, the input order does not matter.
* **The exchange.** `BinanceRefinement` describes an exchange that assigns an id to each batch
  of absolute-size overwrites. A depth event is faithful when it states the final size of every
  price its ids touched and skips only ids that touched nothing; a snapshot is faithful when
  every size it lists is the true one. A snapshot of limited depth is allowed: the claim then
  covers the prices the stream has *disclosed*, and all prices when the snapshot was complete.
* **The collectors.** `CaptureQueue` is what the three collectors share between socket and
  store: the bounded queue, the batching writer and the stop flag. `BybitCollector` is the Bybit
  collector as a state machine over interleaved steps of receiver, writer and stop. In
  `RawBybitCollectorObject`, with its fields and queue, the uninterrupted stretches of either
  thread are methods proved against the steps of that machine, and the writer's loop after a stop
  is proved to be a run of them. `LiveReplay` shows that a replay of the stored events, in any
  order, reproduces what the live checks saw. `LiveGates` does so for the Binance and Coinbase
  collectors, which check gates but keep no books; `BinanceSession` takes the Binance replay
  apart into its gates and the books under them, and says which streams the gates accept;
  `BybitSession` and `CoinbaseSession` say which streams those replays accept, and
  `BookLineage` what a Binance or Coinbase book stands for.
* **Storage.** `SilverArchive` and `MonthRotation` run their scripts with a budget of disk
  changes after which the process dies; `TradeArchive` is the streaming deduplication and
  `TradeCuts` says how far it depends on where the reader cuts the file;
  `ParquetMerge` is the locked merge; `Silver` and `Normalization` are the Bronze-to-Silver
  rewrite of one message and of a whole list, and `SilverMeaning` says what its rows mean.
  `Sorting` is the stable sort they share.
* **Backtests.** Union length of trade intervals, half-open funding settlements, walk-forward
  windows, longest runs, drawdown and ruin, equity stitching, and acceptance of ATAS exports.

Prices, sizes and balances are exact reals; ids, times and counts are unbounded integers, as in
Python. Exceptions are `Raised`, `Rejected`, `Err` or `None` results.

Where the code does not do what one would expect of it, the exact condition is proved:

* A snapshot side equals the fold of its levels exactly when no price is listed with a size and
  is zeroed in its last listing (`Levels.SnapshotIsFoldIff`, `Silver.CoinbaseSnapshotRowsRebuildIff`).
* `normalize_trade_chunk` decides between milliseconds and microseconds once per chunk. Parsing
  does not depend on where the chunks are cut exactly when the file uses one unit, zeros aside
  (`TradeArchive.ParsingIgnoresChunkingIff`); `MixedUnitsDisagree` has a file that is accepted
  under two chunkings with different output.
* Whether a file is accepted can depend on the cuts, for every size of the deduplication window
  (`TradeArchive.BeyondTheWindowChunkingMatters`). `TradeArchive.AcceptedIff` says exactly which
  chunkings are accepted, `TradeArchive.EveryCutAcceptedIff` exactly which files are accepted
  under all of them: those in which no id carries two rows, the deduplicated rows ascend, and
  every repeated row is still in the window when it is repeated. `TradeCuts.SomeCutAcceptedIff`
  says which are accepted under some, hence which are refused under all. With the unit of each
  chunk in the picture, a file of whatever units is accepted under all cuts exactly when every
  reading of it in at most five chunks is such a file (`TradeCuts.EveryCutNormalizesIff`).
  Accepted outputs of the same parsed rows always agree.
* `exposure_fraction` does not refuse a trade that exits before it enters. The result is the
  measure of the union exactly when every such trade within the period enters while a proper
  trade is open, or just as it closes (`Exposure.ExposedIsFractionIff`).
* `funding_timestamps` takes any integers as hours. Settlements are conserved at every cut
  exactly when all hours lie in -24..23 (`Funding.SettlementsSplitIff`), and no list it returns
  names an instant twice exactly when the hours differ modulo 24 (`Funding.ChargedOnceIff`).
* "A drawdown from any prior peak" is what the ruin test detects exactly for positive starting
  balances and thresholds up to the whole balance (`Drawdown.RuinMeansAnyPriorIff`).
* The stitched equity curve has a number for every step of every segment exactly when no segment
  has a zero before its last value (`Equity.StitchingTelescopesIff`).
* A Binance snapshot with a non-positive id is queued and then refused by its gate, out of the
  callback: the collector stays certain and the replay raises (`LiveGates.ReplaySucceedsIff`).
* A receiver drop reaches neither the store nor the live books, so the live/replay agreement
  needs no hypothesis about drops, only that sequence continuity was never in doubt.

## Model

| member | source | states |
|---|---|---|
| BinanceRefinement.ReplayRefinesExchange | src/data/binance_replay.py:150-182 | For every exchange history and every stream of faithful snapshots and deltas, stale, repeated, reordered, missing or overlapping the snapshot, after every beginning of a run that has not raised: gate and book stand at one id, the book is uncrossed, and at that id it shows the exchange's size at every price the stream disclosed. |
| BinanceRefinement.CompleteReplayEqualsExchange | src/data/binance_replay.py:113-131 | If the last snapshot listed every price with size, both sides of the replayed book are exactly the exchange's sides at the book's id. |
| BinanceRefinement.OverlapIsHarmless | src/data/binance_adapter.py:214-221 | Overwrites for ids lo..hi applied to a side already at any id w >= lo - 1, or below it by ids that touched nothing, bring it to id hi, although those for lo..w are applied a second time. |
| BinanceRefinement.ConcatenationIsFaithful | src/data/binance_replay.py:248-253 | Sending all overwrites of a range of ids one after another is a faithful delta for that range, so faithful events exist for every range. |
| BinanceRefinement.OverwritesReach | src/data/binance_replay.py:248-253 | Replaying all overwrites of lo..hi on the true side before lo gives the true side at hi. |
| BinanceRefinement.OverwritesTouch | src/data/binance_replay.py:248-253 | Those overwrites list exactly the prices that some id in lo..hi touched. |
| BinanceRefinement.AcceptedDeltaTracks | src/data/binance_adapter.py:206-229 | A faithful delta the gate accepts, bridging or chained by `pu`, moves a tracking book forward to a tracking book at the event's final id. |
| BinanceRefinement.StepTracks | src/data/binance_replay.py:159-182 | One step that does not raise keeps the agreement of gate, book and exchange. |
| BinanceRefinement.OnlyTheGateRaises | src/data/binance_replay.py:177-182 | After a complete snapshot, a well-formed delta the gate accepts is never refused by the book as long as the exchange's own book is not crossed or one-sided. |
| BinanceGate.BinanceDepthSequenceGate.Apply | src/data/binance_adapter.py:195-229 | The gate's fields and its answer after an event, on every branch including the raises that invalidate and those that do not. |
| BinanceGate.BinanceDepthSequenceGate.Bootstrap | src/data/binance_adapter.py:183-188 | Sets id, connection and the first-event flag, or raises and changes nothing on a non-positive id or an empty connection. |
| BinanceGate.BinanceDepthSequenceGate.Invalidate | src/data/binance_adapter.py:190-193 | The gate returns to its initial state. |
| BinanceGate.GateStandsAt | src/data/binance_adapter.py:183-229 | Over every run of the gate, whatever it refused on the way: it holds nothing if since the last successful bootstrap some event came on another connection or with ids that do not chain, and otherwise it stands at the largest id seen, on the bootstrap's connection. Told from the operations alone. |
| BinanceGate.VerdictIs | src/data/binance_adapter.py:195-229 | Over every run of the gate: every answer, each kind of refusal included, told from the operations before it; an event is accepted exactly if nothing broke the sequence since the last bootstrap and it goes beyond the largest id by chaining on the same connection. |
| BinanceGate.NothingAcceptedUntilBootstrap | src/data/binance_adapter.py:190-227 | Over every run of the gate: after an event on another connection, with a first id above its last, with a hole after the bootstrap id, or with another `pu` than the largest id seen, every later event of the stream is refused for want of a snapshot until the next successful bootstrap. |
| BinanceGate.AcceptedEventsChain | src/data/binance_adapter.py:214-229 | Over every run of the gate: two successive accepted events, with anything refused or stale between, carry one connection, the later one's `pu` is the earlier one's `u`, and `u` strictly grows. |
| BinanceReplay.BinanceOrderBook.LoadSnapshot | src/data/binance_replay.py:113-119 | The new book, or the error with the book unchanged. |
| BinanceReplay.BinanceOrderBook.ApplyDelta | src/data/binance_replay.py:121-131 | The new book, or the error with the book unchanged: never half-applied. |
| BinanceReplay.ReachableBooksAreSound | src/data/binance_replay.py:113-131 | Over every sequence of snapshots and deltas given to a book, raising or not: it is empty or the fold of the last snapshot it took and of the deltas it took since; it takes exactly what parses, goes on from a snapshot and leaves it uncrossed, and nothing of anything else. |
| BinanceReplay.BinanceReplaySession.Apply | src/data/binance_replay.py:159-182 | The state kept for the event's symbol moves as specified, gate before book, every other symbol keeps its state although books are separate objects, and the counters grow by one. |
| BinanceReplay.ReplayStream | src/data/binance_replay.py:215-220 | The streaming session raises exactly when the specification does, with its error, and otherwise holds its state for every symbol. |
| BinanceReplay.ReplayIsDeterministic | src/data/binance_replay.py:206-212 | `replay_binance` gives one result for every permutation of events with distinct sort keys. |
| BinanceReplay.SymbolsAreIndependent | src/data/binance_replay.py:159-182 | An interleaved stream raises exactly when some symbol's own events raise, and otherwise each symbol has the state of its own events replayed alone. |
| BinanceSession.SessionIsGatesAndBooks | src/data/binance_replay.py:159-182 | A session accepts a stream if and only if its gates alone accept it and every event that passes its gate parses and leaves an uncrossed book; its states are then those gates and the folds of what passed. |
| BinanceSession.GatesAcceptIff | src/data/binance_adapter.py:195-229 | The gates of a session accept a stream if and only if every order-book event continues what came before it of its symbol: a snapshot has a positive id, and a delta comes on the snapshot's connection with a proper range of ids and repeats ids seen since, or is the first to go on from the snapshot and leaves none out, or names the largest id seen as its `pu`. Each gate then stands at that largest id. |
| BinanceSession.ReplayRaisesAtTheFirst | src/data/binance_replay.py:159-182 | A replay that raises ends with the error that the events before the first refused one tell: the kind of break in its symbol's ids, or what was wrong with the message or the book. |
| Levels.ParseLevels | src/data/binance_replay.py:230-245 | Succeeds exactly on a list of pairs with positive price and non-negative size, and then returns them in order. |
| Levels.ApplyLevelsInOrder | src/data/binance_replay.py:248-253 | The dictionary after the loop is the fold of the levels. |
| Levels.ApplyLevelsAt | src/data/binance_replay.py:248-253 | After a fold the size at a price is the last listed size, or the old size when the price is not listed. |
| Levels.ApplyLevelsConcat | src/data/binance_replay.py:248-253 | Folding two messages one after the other is folding their concatenation. |
| Levels.DeltaBetween | src/data/binance_replay.py:230-253 | Between any two sides of positive prices and sizes there is a list that the parser accepts and that leads from the one to the other. |
| Levels.SnapshotIsFoldIff | src/data/binance_replay.py:113-117 | The snapshot dictionary, which drops zero sizes first, equals the fold of its levels from an empty side exactly when no price is listed with a size and zeroed in its last listing. |
| Levels.ValidateBook | src/data/binance_replay.py:256-264 | Accepts exactly the books with two non-empty sides and every bid below every ask, although only the best prices are compared. |
| KeyedReplay.SymbolsDoNotInterfere | src/data/bybit_replay.py:228-242 | For any per-symbol step: the whole stream is accepted exactly when every symbol's subsequence is, with equal states per symbol. |
| EventOrder.OrderedArrangementUnique | src/data/bybit_replay.py:273-279 | Two arrangements of the same events in sort-key order are equal when the keys identify the events. |
| EventOrder.SortedPermutation | src/data/bybit_replay.py:273-279 | Every permutation of events with distinct sort keys sorts to the same list; the determinism rows below are instances of it. |
| EventOrder.SortedRecoversCapture | src/data/bybit_replay.py:273-279 | Sorting any permutation of events captured in increasing key order gives the capture order back. |
| BybitReplay.BybitOrderBook.ApplyMessage | src/data/bybit_replay.py:96-148 | Book after a snapshot or delta on every branch, emptied on a gap or regression and unchanged on every other error. |
| BybitReplay.BybitOrderBook.ApplyEvent | src/data/bybit_replay.py:89-94 | Refuses events of another exchange, channel or symbol without change, else behaves as the message. |
| BybitReplay.ReachableBooksAreSound | src/data/bybit_replay.py:83-148 | Over every sequence of messages and invalidations, raising or not: the book is entirely empty without ids, or is two non-empty uncrossed sides equal to the fold of all deltas since the last snapshot, with `u` exactly consecutive and `seq` strictly increasing. Which snapshot and deltas these are is read off the messages. |
| BybitReplay.MessageAcceptedIff | src/data/bybit_replay.py:96-148 | After any run a message is accepted if and only if it parses and is a snapshot with uncrossed sides, or a delta with `u` one above the last and `seq` above the last, however far, whose fold is uncrossed; every other ending is told from the messages, too. |
| BybitReplay.TickersShowTheLatest | src/data/bybit_replay.py:175-207 | Over every run of a ticker: it is empty, or shows for each field what the last message since the snapshot says of it; a delta is accepted exactly if its sequence number is above that of the message before. |
| BybitSession.ReplayAcceptsIff | src/data/bybit_replay.py:228-287 | A whole stream is accepted if and only if every book and ticker event goes on from those before it of its symbol on the same connection; every book is then the fold of its snapshot and deltas and every ticker shows the latest of each field. |
| BybitSession.ReplayRaisesAtTheFirst | src/data/bybit_replay.py:197-242 | A replay raises at the first event that does not go on from those before it of its symbol, with the error that those tell. |
| BybitReplay.AcceptedDeltaExtends | src/data/bybit_replay.py:118-148 | An accepted delta extends the run of gap-free deltas the book stands for. |
| BybitReplay.RaisingIsAtomic | src/data/bybit_replay.py:118-148 | A raising message leaves the book empty, on a broken sequence, or exactly as it was. |
| BybitReplay.BybitTickerState.ApplyEvent | src/data/bybit_replay.py:180-207 | Ticker fields after a snapshot or a merged delta, and on each error. |
| BybitReplay.BybitReplaySession.BookFor | src/data/bybit_replay.py:231-236 | A new connection empties the symbol's book, the same one keeps it; no other symbol changes. |
| BybitReplay.BybitReplaySession.Apply | src/data/bybit_replay.py:228-242 | Book, ticker and the connections last seen of the event's symbol move as specified, no other symbol's state changes, counters grow by one. |
| BybitReplay.ReplayStream | src/data/bybit_replay.py:282-287 | The streaming session raises exactly when the specification does, with its error, and otherwise holds its state for every symbol. |
| BybitReplay.ReplayIsDeterministic | src/data/bybit_replay.py:273-279 | `replay_bybit` gives one result for every permutation of events with distinct sort keys. |
| BybitReplay.SymbolsAreIndependent | src/data/bybit_replay.py:228-242 | An interleaved stream raises exactly when some symbol's own events raise, and otherwise each symbol has the state of its own events replayed alone. |
| BybitCollector.EveryInterleavingIsLossless | src/data/bybit_raw_collector.py:225-376 | Under every interleaving of receiver, writer and stop: the captured events are the written ones, the batch and the queue, in order and once each, unless the writer failed; queue and batch stay within their bounds; every handled message was captured or counted as a drop; every captured event is counted as received once it is recorded; events are captured in sort-key order. |
| BybitCollector.CountersLagByOne | src/data/collector_health.py:88-109 | `events_written` can exceed `events_received` by at most the one event whose receipt is not yet recorded. |
| BybitCollector.ExitedIsComplete | src/data/bybit_raw_collector.py:207-223 | In every run whose writer has exited, everything captured is stored in order, both counters equal its length, and handled messages are written plus dropped. |
| BybitCollector.StopCompletes | src/data/bybit_raw_collector.py:207-223 | From every run that has been stopped and whose writer has not failed, the writer's turns alone lead within a bounded number of steps, whatever the timer says, to a state in which everything captured before is stored in order and the counters agree. |
| CaptureQueue.WriteKeepsEverything | src/data/bybit_raw_collector.py:338-376 | A step of the writer moves events along without losing, repeating or reordering one, and keeps the counter of written events in step with the store. |
| CaptureQueue.TakeIsLossless | src/data/binance_raw_collector.py:271-309 | Taking a message off the socket, into the queue or not, keeps the queue's invariant: events in order and once each, in sort-key order, every message captured or counted as a drop. |
| CaptureQueue.SortedStoreIsCapture | src/data/coinbase_raw_collector.py:353-391 | When the writer has exited, sorting any permutation of the store by the replay's key gives the capture. |
| CaptureQueue.WriterMakesProgress | src/data/bybit_raw_collector.py:338-376 | After stop every step of the writer, whatever the timer says, lowers a measure of the work left. |
| CaptureQueue.WriterDrains | src/data/bybit_raw_collector.py:338-376 | After stop the writer, given that many steps, exits with everything stored in order. |
| CaptureQueue.StopDrains | src/data/bybit_raw_collector.py:207-223 | From every state the shared queue can reach whose writer has not failed, asking for a stop and letting the writer act, whatever the deadlines do, ends it with everything captured stored in order. |
| BybitCollector.DeadlineFlushes | src/data/bybit_raw_collector.py:338-376 | From every reachable state whose writer runs, stopping or not, the writer's turns with the flush deadline due lead within a bounded number of steps to a store of everything captured so far, in order, with the counter of written events equal to its length. |
| BybitCollector.BatchesAreFull | src/data/bybit_raw_collector.py:350-356 | In a run without a due deadline, a stop or a failed append, the store holds whole batches only. |
| BybitCollector.CapturedIff | src/data/bybit_raw_collector.py:225-261 | In every run a message is captured, as itself, on the current connection and numbered by the messages received so far, if and only if it decodes, a connection and a positive time exist and the queue has room; otherwise one drop is counted. |
| BybitCollector.OneUncertaintyPerConnection | src/data/bybit_raw_collector.py:263-275 | In every run the number of uncertainties is at most the number of connections, less one while the current connection is certain. |
| BybitCollector.DoubtLastsUntilReconnect | src/data/bybit_raw_collector.py:255-283 | Once the sequence is in doubt, no books or tickers move until the next connection. |
| RawBybitCollectorObject.RawBybitCollector.PrepareConnection | src/data/bybit_raw_collector.py:277-283 | The live state after a connect is the protocol's: new id, certainty restored, a fresh book and ticker for each configured symbol. |
| RawBybitCollectorObject.RawBybitCollector.EnqueueMessage | src/data/bybit_raw_collector.py:225-253 | The object's state after a message reached the queue, or was dropped as undecodable, invalid or over capacity, is the protocol's. |
| RawBybitCollectorObject.RawBybitCollector.RecordMessage | src/data/bybit_raw_collector.py:255-275 | Counting and the live book or ticker check move the live state as the protocol does. |
| RawBybitCollectorObject.RawBybitCollector.CheckBook | src/data/bybit_raw_collector.py:263-275 | The live check of one order-book event applies it to the book of its symbol, and loses certainty exactly when that is missing or raises. |
| RawBybitCollectorObject.RawBybitCollector.FailClosed | src/data/bybit_raw_collector.py:431-437 | One more drop, nothing else of the protocol's state changes. |
| RawBybitCollectorObject.RawBybitCollector.Take | src/data/bybit_raw_collector.py:343-348 | `get` with a time-out is the protocol's step: the head of the queue joins the batch, or nothing does. |
| RawBybitCollectorObject.RawBybitCollector.Decide | src/data/bybit_raw_collector.py:350-355 | The batch is written when the protocol says so: due, full, or stopping with an empty queue. |
| RawBybitCollectorObject.RawBybitCollector.Append | src/data/bybit_raw_collector.py:356-370 | `write` is the protocol's step: the batch is stored, or it fails after storing a part and one drop is counted. |
| RawBybitCollectorObject.RawBybitCollector.WriterLoop | src/data/bybit_raw_collector.py:338-376 | Once stopped, with any batch pending: the loop ends in the state to which some turns of the protocol's writer lead from where it started, exited with an empty queue, or in the failure of the append that is then due. |
| RawBybitCollectorObject.RawBybitCollector.StopAndJoin | src/data/bybit_raw_collector.py:207-223 | Setting the stop flag and joining the writer stores and counts everything pending and queued in order, or ends in the writer's failure with written events, lost batch and queue still everything and one drop counted. |
| LiveReplay.EveryInterleavingSimulates | src/data/bybit_raw_collector.py:255-275 | After every interleaving: while certain, replaying what the live checks have processed succeeds and agrees with every live book and ticker; once certainty was lost over configured symbols, the replay raises. |
| LiveReplay.ReplayReproducesLiveState | src/data/bybit_replay.py:228-287 | After a drained run that was never uncertain, over any reconnects, replaying the stored events in any order does not raise and gives every symbol the current connection fed its live book and ticker. |
| LiveReplay.ReplaySucceedsIffLiveWasCertain | src/data/bybit_raw_collector.py:255-275 | For a drained run over configured symbols, replay of the stored events in any order succeeds if and only if the live checks never lost certainty. |
| LiveGates.ReplayAgreesWithLiveGates | src/data/binance_raw_collector.py:271-358 | Under every interleaving of reconnects, snapshots, messages, stop and the writer: nothing captured is lost; some live gate has refused, or a message of an unconfigured symbol arrived, or a snapshot had a non-positive id, if and only if the gates of a replay of the capture refuse; until then every gate of the current connection is in the replay as it is live. |
| LiveGates.ReplaySucceedsIff | src/data/binance_raw_collector.py:271-358 | For a drained run, replay of the stored events in any order succeeds if and only if no live gate ever refused, every snapshot had a positive id, and every event that passed its gate parses and leaves an uncrossed book. |
| LiveGates.OneUncertaintyPerConnection | src/data/binance_raw_collector.py:311-358 | In every run each connection contributes at most one uncertainty. |
| LiveGates.CoinbaseReplayAgrees | src/data/coinbase_raw_collector.py:264-319 | Under every interleaving nothing captured is lost, and the collector, whose gate is replaced on each connection, has been uncertain exactly when a single gate over everything captured refuses; otherwise both gates stand at the same number. |
| LiveGates.CertainIffContinuous | src/data/coinbase_raw_collector.py:287-319 | The collector never became uncertain if and only if the captured numbers are consecutive within each stretch of one connection. |
| LiveGates.CoinbaseReplaySucceedsIff | src/data/coinbase_replay.py:165-221 | For a drained run, replay of the stored events in any order succeeds if and only if the collector never became uncertain and no product's own events are refused by its book. |
| CoinbaseGate.CoinbaseConnectionSequenceGate.Observe | src/data/coinbase_adapter.py:141-189 | Gate fields and answer on every branch: advance, bootstrap, reconnect, unnumbered, duplicate, gap and rollback; both fields are set or both are None. |
| CoinbaseGate.AcceptedIffContinuous | src/data/coinbase_adapter.py:134-189 | A run raises nothing if and only if each numbered event continues the previous numbered one by one or comes from another connection; unnumbered events never matter; the gate ends at the last numbered event. |
| CoinbaseGate.VerdictIs | src/data/coinbase_adapter.py:141-189 | Over every run of the gate, rejections included: an event that follows the numbered one before it is taken, and one that does not is rejected, as a duplicate, gap or rollback, unless that one was rejected itself, since a rejection makes the gate forget. |
| CoinbaseGate.BlocksAreGapless | src/data/coinbase_adapter.py:155-165 | Within a stretch of one connection of an accepted run the count of numbered events is last - first + 1. |
| CoinbaseReplay.ParseEntries | src/data/coinbase_replay.py:232-255 | Succeeds exactly when all updates of all entries are valid, with the sided levels in order. |
| CoinbaseReplay.EntriesKeepTheirSide | src/data/coinbase_replay.py:232-255 | What names the bid side goes to the bids and what names the offer side to the asks, in message order, with its price and size. |
| CoinbaseReplay.ApplySidedLevels | src/data/coinbase_replay.py:120-134 | One pass over mixed sides gives each side the fold of its own levels. |
| CoinbaseReplay.CoinbaseOrderBook.LoadSnapshot | src/data/coinbase_replay.py:111-118 | The new book, or the error with the book unchanged. |
| CoinbaseReplay.CoinbaseOrderBook.ApplyDelta | src/data/coinbase_replay.py:120-134 | The new book, or the error with the book unchanged. |
| CoinbaseReplay.CoinbaseReplaySession.Apply | src/data/coinbase_replay.py:165-191 | The gate moves on every event; a refused event touches no book; else only the event's product can change, and its book survives reconnects. |
| CoinbaseReplay.ReplayStream | src/data/coinbase_replay.py:224-229 | The streaming session raises exactly when the specification does, and otherwise holds its gate and its book for every product. |
| CoinbaseReplay.SessionIsGateAndBooks | src/data/coinbase_replay.py:165-191 | A session accepts exactly when the gate alone and the books alone accept, and is then the pair of them. |
| CoinbaseReplay.ProductBooksAreIndependent | src/data/coinbase_replay.py:165-191 | In an accepted stream a product's book is that of its own L2 events replayed alone. |
| CoinbaseReplay.AcceptedIff | src/data/coinbase_replay.py:165-191 | A Coinbase stream is accepted if and only if its numbers are continuous per connection and every product's own events are accepted. |
| CoinbaseSession.ReachableBooksAreSound | src/data/coinbase_replay.py:111-134 | Over every sequence of events for a product, raising or not: its book is empty or the fold of the last snapshot it took and of the updates it took since, side by side; it takes exactly the messages for one product that parse, go on from a snapshot and leave it uncrossed. |
| CoinbaseSession.ReplayAcceptsIff | src/data/coinbase_replay.py:165-229 | A whole stream is accepted if and only if its numbers are continuous on every connection and every event goes on from those before it of its product; each book then stands for them. |
| CoinbaseSession.ReplayRaisesAtTheFirst | src/data/coinbase_replay.py:165-229 | A replay that raises ends with the error that the events before the first refused one tell: the break in the numbers, or what was wrong with the message or the book. |
| CoinbaseReplay.ReplayIsDeterministic | src/data/coinbase_replay.py:215-221 | `replay_coinbase` gives one result for every permutation of events with distinct sort keys. |
| Silver.RecordsMeanLevels | src/data/binance_normalized_event.py:92-125 | Folding upsert and delete rows in order over any book gives both sides the fold of the levels they came from, repeated prices included. |
| Silver.OrderbookRecords | src/data/binance_normalized_event.py:92-125 | Header checks, then bids and asks; refuses on the first invalid level. |
| Silver.BinanceRowsMeanTheDelta | src/data/binance_normalized_event.py:92-125 | Whenever the normalizer accepts a depth event its levels are well-formed for replay, and the rows fold over any book to the same sides as the raw levels. |
| Silver.BinanceRowsTrackTheBook | src/data/binance_replay.py:121-131 | When both sides accept a delta, folding its rows over the book gives exactly the sides `apply_delta` gives. |
| Normalization.NormalizeBinanceEvents | src/data/binance_normalized_event.py:56-89 | Sorts, emits every event's rows with `row_index` from zero, and reports, or refuses when some event is refused; control and snapshot events make no rows. |
| Normalization.NormalizeCoinbaseEvents | src/data/coinbase_normalized_event.py:48-73 | The same for Coinbase, where only control events make no rows. |
| Normalization.ReportConservesCounts | src/data/binance_normalized_event.py:56-89 | For both entry points: channel totals add up to the raw events, record totals to the rows, and each entry is the true number of its channel or kind. |
| Normalization.NormalizationIsDeterministic | src/data/coinbase_normalized_event.py:48-73 | For both entry points: the same rows and the same report for every permutation of events with distinct sort keys. |
| SilverMeaning.BinanceRowsMeanTheDeltas | src/data/binance_normalized_event.py:22-89 | Executing all rows of a normalized list over any book does what its depth deltas say, in order; snapshots, control messages and other channels have no part in it. |
| SilverMeaning.AcceptedDeltaNormalizesIff | src/data/binance_normalized_event.py:92-125 | A delta the sequence gate accepts is normalized if and only if its ids are at least one, its `pu` not negative, a matching time other than zero or an exchange time is given, and its levels parse. |
| SilverMeaning.BinanceNormalizesIff | src/data/binance_normalized_event.py:22-89 | A list is normalized if and only if every event, wherever it stands, is Binance's and makes no rows, or is a delta whose rows can be made, or is of a known channel whose builder makes them. |
| SilverMeaning.CoinbaseRowsMeanTheUpdates | src/data/coinbase_normalized_event.py:22-99 | Executing all rows of a normalized list does what its updates say, each on the side it names, in order. |
| SilverMeaning.BookMessageNormalizesIff | src/data/coinbase_normalized_event.py:76-99 | An L2 message is normalized if and only if the replay can read it and finds it addressed to one product, every entry names that product and every update's time parses. |
| SilverMeaning.CoinbaseNormalizesIff | src/data/coinbase_normalized_event.py:22-73 | A list is normalized if and only if every event is Coinbase's and is a control message, or is for one product and makes its rows. |
| Silver.BookRecords | src/data/coinbase_normalized_event.py:76-99 | Rows of an accepted one-product L2 message in order; refuses multi-product messages and invalid updates. |
| Silver.CoinbaseRowsTrackTheBook | src/data/coinbase_normalized_event.py:76-99 | When both sides accept an update, folding its rows over the book gives exactly the sides `apply_delta` gives. |
| Silver.CoinbaseSnapshotRowsRebuildIff | src/data/coinbase_normalized_event.py:76-99 | Folding a snapshot's rows from an empty book rebuilds the loaded book if and only if no price is listed with a size and zeroed in its last listing. |
| SilverArchive.VerifyArchive | scripts/archive_bybit_silver.py:58-82 | Accepts exactly the complete archives whose members are regular, safely named, distinct, one for every inventory entry, with matching size and hash. |
| SilverArchive.MatchingArchiveHoldsEverything | scripts/archive_bybit_silver.py:47-82 | An archive verified against a directory's inventory holds each file's exact bytes. |
| SilverArchive.VerifiesIff | scripts/archive_bybit_silver.py:47-82 | Of a directory's inventory exactly those archives verify that read to their end and hold each file once, as a regular member with its size and bytes, and nothing else, and only if no file's name has a slash or backslash or is a dot or two dots. |
| SilverArchive.NothingIsLost | scripts/archive_bybit_silver.py:92-159 | In every safe disk state each original file is in the source unchanged or in the archive the evidence vouches for. |
| SilverArchive.Partition.ArchivePartition | scripts/archive_bybit_silver.py:92-159 | A run that dies after any number of disk changes keeps the disk safe; before complete evidence the source is intact; complete evidence and its archive never change again; a prune cut short is completed by rerunning; only pruning removes files. Without evidence, archive or partial file, with a non-empty source of regular, safely named files, enough space and time for twice the files plus five changes, the run finishes with complete evidence and an archive that holds every file, pruned if asked; otherwise, space among the reasons, it is refused and nothing is written. |
| SilverArchive.Partition.CreateArchive | scripts/archive_bybit_silver.py:115-149 | Refused with nothing written when something stands in the way, space among it; otherwise refused only for the name of a file, and dead only for want of time; else verified archive and complete evidence. |
| SilverArchive.Partition.Prune | scripts/archive_bybit_silver.py:150-158 | Removes the source only under complete evidence; finishes when no crash intervenes. |
| SilverArchive.RunMany | scripts/archive_bybit_silver.py:92-159 | Over every sequence of runs, crashes and refusals, every original file survives byte for byte. |
| MonthRotation.Rotation.Rotate | src/data/binance_archive_rotation.py:19-96 | Dying after any number of disk changes: every file is in the source or in the backup with its bytes; a file leaves the source only when pruning was asked for, the month was complete and every one of its files is in the backup; existing backups are never overwritten. An incomplete month, a count other than 48, a dry run and a short volume change nothing; otherwise a run with time for 194 changes backs up every file and prunes if asked, unless the backup holds something else under one of the names or half a copy. |
| MonthRotation.Rotation.CopyVerified | src/data/binance_archive_rotation.py:135-151 | Publishes a copy only when its hash matches, accepts an existing one only when it matches, never overwrites, and leaves a half-copy only where it dies. |
| MonthRotation.Rotation.UnlinkAll | src/data/binance_archive_rotation.py:91-93 | Unlinks only files whose backup matches; a crash between two unlinks loses nothing. |
| TradeArchive.AcceptedOutputIsKeepFirst | src/data/binance_trade_archive.py:135-171 | Whatever the chunking and window, accepted output is the keep-first deduplication of all rows, strictly ordered, and rows in are rows out plus duplicates. |
| TradeArchive.AcceptedChunkingsAgree | src/data/binance_trade_archive.py:207-238 | Two accepted chunkings of the same rows, even with different windows, emit the same rows and count the same duplicates. |
| TradeArchive.AcceptedIff | src/data/binance_trade_archive.py:135-171 | For every chunking and window: accepted if and only if the deduplicated file ascends strictly and, for every chunk, no id among the remembered rows and the chunk carries two rows and what repeats an earlier row repeats a remembered one. |
| TradeArchive.EveryCutAcceptedIff | src/data/binance_trade_archive.py:135-171 | A file is accepted under every chunking if and only if no id carries two rows, the deduplicated file ascends strictly, and every repeated row is among the last rows of the window when it is repeated. |
| TradeArchive.FittingWindowIgnoresChunking | src/data/binance_trade_archive.py:207-238 | When the distinct rows fit the window, one accepted chunking means all are. |
| TradeCuts.SomeCutAcceptedIff | src/data/binance_trade_archive.py:135-171 | Some chunking of a file is accepted if and only if the deduplicated file ascends strictly and, for any two different rows with one id, a chunk may start between them where the window has forgotten the earlier one and no later repeat is missed; every other file is refused under every chunking. |
| TradeCuts.EveryCutNormalizesIff | src/data/binance_trade_archive.py:135-175 | For the whole loop over raw chunks and files of any mixture of units: every cut is accepted if and only if there are rows and every reading in at most five chunks has no id on two rows, ascends strictly once deduplicated and repeats only rows that the window still holds. |
| TradeCuts.OneUnitNormalizesIff | src/data/binance_trade_archive.py:262-264 | For a file of one unit that is a condition on its single reading. |
| TradeArchive.BeyondTheWindowChunkingMatters | src/data/binance_trade_archive.py:207-238 | For every window size, the 1,000,000 rows of the code among them: a file that reuses an id one row too late for the window is refused in one chunk and accepted row by row. |
| TradeArchive.ParsingIgnoresChunkingIff | src/data/binance_trade_archive.py:262-264 | Every chunking of a file parses to the same rows if and only if the file's times are all below the microsecond threshold, or all at it or above with zeros aside. |
| TradeArchive.MixedUnitsDisagree | src/data/binance_trade_archive.py:262-264 | A concrete file of mixed units that is accepted under two chunkings with different output. |
| TradeArchive.ParsedRowNamesTheInstant | src/data/binance_trade_archive.py:262-264 | A parsed row keeps id and fields and names, in microseconds, the instant that the raw time names in the chunk's unit: microseconds if some time is at least 1,000,000,000,000,000 either way, else milliseconds. |
| TradeArchive.UnitDoesNotMatterIff | src/data/binance_trade_archive.py:262-264 | A chunk in milliseconds and the same chunk in microseconds parse to the same rows if and only if some time reaches 1,000,000,000,000 milliseconds either way, or all are zero. |
| TradeArchive.NormalizingIgnoresTheUnit | src/data/binance_trade_archive.py:135-175 | An archive in milliseconds whose chunks reach that far, and the same archive in microseconds, give the same rows and duplicate count, or are both refused. |
| TradeArchive.WrittenRowsNameTheInstants | src/data/binance_trade_archive.py:135-175 | What is written of a one-unit file: in the file's order, the first of every kind of row, with id and fields of the raw row and at the instant the raw time names; no raw row is missing. |
| TradeArchive.OutputIgnoresChunking | src/data/binance_trade_archive.py:135-171 | For a file of one unit, two accepted chunkings give the same rows and duplicate count, those of the whole file. |
| TradeArchive.WriteChunk | src/data/binance_trade_archive.py:135-171 | One pass of the loop: refused, or rows, window, duplicates and previous key as specified. |
| TradeArchive.NormalizeArchive | src/data/binance_trade_archive.py:135-175 | The chunk loop over raw chunks gives the specified rows and count, and refuses when no row was written. |
| TradeArchive.AuditOrder | src/data/binance_archive_quality.py:120-181 | The batchwise comparison, carrying the previous key, decides strict order of all rows for every batch size and counts them. |
| TradeArchive.AcceptedOutputPassesTheAudit | src/data/binance_archive_quality.py:169-174 | Whatever the normalizer accepts is strictly ordered and non-empty however it is batched, and its rows plus duplicates are the raw rows. |
| ParquetMerge.MergesCompose | src/data/atomic_parquet.py:68-104 | Merging X1 and then X2 is merging X1 ++ X2, stable sorting and deduplication included. |
| ParquetMerge.MergeIsIdempotent | src/data/atomic_parquet.py:68-104 | Merging the same rows again changes nothing. |
| ParquetMerge.MergeKeepsFirsts | src/data/atomic_parquet.py:68-104 | The rows of a merge are, of every key, the first row that carries it among the stored and then the incoming ones, with all its columns, ordered by the sort key. |
| ParquetMerge.StoredRowsWin | src/data/atomic_parquet.py:68-104 | Every stored row is still there after a merge, keys stay distinct and are exactly the old and the new ones. |
| ParquetMerge.Partition.MergeAtomic | src/data/atomic_parquet.py:68-104 | Dying at any step leaves the old file or the merged one, and at most one temporary file. |
| ParquetMerge.EveryInterleavingIsSerial | src/data/atomic_parquet.py:39-65 | Under every interleaving of writers, time-outs and crashes at most one writer holds the lock and the file is the serial merge of the published updates. |
| ParquetMerge.WaitingWriterCompletes | src/data/atomic_parquet.py:39-104 | No lock outlives its holder: after every interleaving a waiting writer gets through on its own, at the latest once the holder of the lock has died, and merges its rows into what the file holds; other writers are not disturbed. |
| ParquetMerge.NoCompletedUpdateIsLost | src/data/atomic_parquet.py:39-104 | The file is one merge of all published updates in order: it holds, of every key, exactly the first row published, whole, and has every key of every completed update. |
| Exposure.ExposureFraction | src/analytics/metrics.py:43-67 | For all trades whatever: the number of instants of the period that some trade covers, less the deficit of trades that exit before they enter, divided by the period's length. |
| Exposure.ExposedIsFractionIff | src/analytics/metrics.py:43-67 | The result is the measure of the union of the trades, clipped to the period, over its length, if and only if every trade within the period that exits before it enters does enter while a proper trade is open or just as it closes; in particular when there is none. |
| Exposure.MergeIntervals | src/analytics/metrics.py:58-64 | Proper intervals come out sorted, pairwise disjoint and covering exactly the same instants; for any intervals the lengths add up to the covered instants less the deficit. |
| Exposure.FractionBounds | src/analytics/metrics.py:43-67 | The measure of the union over the period's length lies in [0, 1]. |
| Exposure.FractionGrows | src/analytics/metrics.py:43-67 | More trades never lower that measure. |
| Exposure.FractionIgnoresOrder | src/analytics/metrics.py:43-67 | Order and repetition of trades do not matter to it. |
| Funding.TimestampsAreSettlements | src/backtesting/funding.py:38-57 | With hours in -24..23 the list ascends and holds each instant t with start <= t < end as often as the hours name it, whatever the day. |
| Funding.SettlementsSplit | src/backtesting/funding.py:38-57 | With hours in -24..23 settlements over [a, c) are those over [a, b) followed by those over [b, c). |
| Funding.SettlementsSplitIff | src/backtesting/funding.py:38-57 | They are so at every cut if and only if all hours lie in -24..23. |
| Funding.ChargedOnceIff | src/backtesting/funding.py:38-57 | For all hours whatever: no list of settlements names an instant twice, over any interval, if and only if the hours differ modulo 24. |
| Funding.CountIsClosed | src/backtesting/funding.py:38-57 | With hours in -24..23, repeated or not, their number is the sum over the hours of a difference of ceiling divisions. |
| Funding.EstimateFundingCost | src/backtesting/funding.py:60-85 | The accumulated total is the sum over positions of settlements times quantity, price and rate. |
| Funding.UnitCostIsTheRate | src/backtesting/funding.py:78-85 | One unit at price one pays the rate at each settlement. |
| Funding.CostIsProportional | src/backtesting/funding.py:78-85 | The cost of a position is proportional to its quantity, sign included, to its price and to the rate. |
| Funding.TotalIsSumOfCosts | src/backtesting/funding.py:78-85 | The cost of a list of positions is the sum of what each costs by itself. |
| Funding.ReopeningIsNeutral | src/backtesting/funding.py:60-85 | Splitting a position in time at any instant, even a settlement, does not change its funding cost. |
| Funding.GenerateWindows | src/backtesting/walk_forward.py:51-85 | Refuses non-positive lengths, else yields windows of the given lengths from the start, whose tests tile without gap or overlap and end inside, with no room for one more. |
| Funding.WindowCount | src/backtesting/walk_forward.py:51-85 | The number of windows in closed form, and where each test ends. |
| Funding.WindowsConserveSettlements | src/backtesting/walk_forward.py:51-85 | The settlements of the test windows, concatenated, are those of the whole tested span. |
| Runs.LongestLosingStreak | src/analytics/metrics.py:32-40 | The length of the longest contiguous segment of losses. |
| Runs.StreakMaximum | src/analytics/monte_carlo.py:171-176 | The maximum of the array recurrence is the length of the longest contiguous segment of losses. |
| Runs.LongestIsUnique | src/analytics/metrics.py:32-40 | That length is unique, so the scalar loop and the array recurrence agree. |
| Runs.PositiveRunLengths | scripts/analyze_hyperliquid_bybit_carry_sensitivity.py:99-110 | The loop computes the specified list of run lengths. |
| Runs.RunLengthsSum | scripts/analyze_hyperliquid_bybit_carry_sensitivity.py:99-110 | They add up to the number of true flags. |
| Runs.SpansAreRuns | scripts/analyze_hyperliquid_bybit_carry_sensitivity.py:99-110 | They are the lengths of maximal runs, in order and without overlap. |
| Runs.EveryRunIsMeasured | scripts/analyze_hyperliquid_bybit_carry_sensitivity.py:99-110 | Every maximal run has its length in the list. |
| Runs.LongestIsAmongRuns | scripts/analyze_hyperliquid_bybit_carry_sensitivity.py:99-110 | The longest segment's length is the largest entry of the list. |
| Runs.LongestContiguousRun | scripts/check_order_flow_toxicity_data_sufficiency.py:44-61 | The first of the longest runs of consecutive days among the distinct dates in order, although best and current run may be one list that is still appended to. |
| Runs.SortedDaysAscend | scripts/check_order_flow_toxicity_data_sufficiency.py:44-47 | The list scanned is strictly ascending and has exactly the given dates. |
| Drawdown.WorstDrawdown | src/analytics/monte_carlo.py:159-167 | The minimum over the path, starting balance included, of the relative loss from the running maximum; not a number exactly when some running maximum is zero. |
| Drawdown.ZeroOverZero | src/analytics/monte_carlo.py:165-167 | When some running maximum is zero, some balance on the path is zero divided by zero. |
| Drawdown.RuinIsAFallFromAnyPrior | src/analytics/monte_carlo.py:117-118 | For thresholds up to the whole balance a path is ruined if and only if some balance is at least that fraction below some earlier one, even on paths below zero. |
| Drawdown.RuinMeansAnyPriorIff | src/analytics/monte_carlo.py:178-179 | That reading holds of every path from a balance if and only if the balance is positive and the threshold is at most one. |
| Drawdown.CountRuinEvents | src/analytics/monte_carlo.py:178-179 | The number of simulated paths that were ruined. |
| Equity.StitchingTelescopesIff | src/backtesting/walk_forward.py:88-108 | For any segments not all empty: the stitched curve has one number for the start and one for each step of each segment if and only if no segment has a zero before its last value; it then ends at the starting balance times the product of last over first of the segments. |
| Equity.StitchingIgnoresScale | src/backtesting/walk_forward.py:88-108 | Rescaling any segment, zeros and all, by any non-zero factor leaves the stitched curve unchanged at every point. |
| AtasImport.Ingest | src/data/atas_history_bridge.py:55-117 | The loop and the checks after it accept exactly the well-formed exports, and those are proper in the sense of `WellFormedIff`. |
| AtasImport.SideAcceptedIff | src/data/atas_history_bridge.py:209-227 | A side passes the sorted-and-distinct test if and only if its quotes are positive and strictly ordered. |
| AtasImport.DepthAcceptedIff | src/data/atas_history_bridge.py:198-227 | A depth record passes if and only if both sides quote something, at positive prices and volumes, strictly ordered from the best, with every bid below every ask, although only the heads are compared. |
| AtasImport.WellFormedIff | src/data/atas_history_bridge.py:61-145 | The checks pass if and only if the export is a schema-1 `atas` header with a window of up to seven days, records that are all proper, within the window and in order pairwise, and a complete footer with their counts, although only neighbours are compared and only the first and the last time are tested against the window. |

## Left out

- Decoding of JSON, CSV, ZIP, TAR, Parquet and decimal text: records arrive typed, with a case for what does not parse; prices are exact reals.
- SHA-256 is an injective digest.
- Power loss: a crash is the death of the process between two disk changes, and completed changes stay; `fsync` is not modelled.
- Health publication, status strings, fatal and stop reasons: claims are about the counters and the stored events.
- A failing writer is a step of the protocol; restarting after it is not.
- Storage-reserve checks, reconnect timing, WebSocket and REST plumbing, signals: connection ids are taken to be fresh and the wall clock non-decreasing, which recovering capture order by sorting needs.
- Stop and receiver run on the main thread, so a message is not handled half-way through a stop.
- RawBybitCollectorObject.RawBybitCollector.WriterLoop: the loop as a whole is stated once stop is set; before that its steps interleave with the receiver's and are those of BybitCollector.
- RawBybitCollectorObject.RawBybitCollector.StopAndJoin: the join has no time-out.
- CoinbaseLevel2SequenceGate: the repository records it as wrong for the live protocol and does not use it.
- Record contents of channels other than the order book: given per event, possibly refused.
- The checksums of row ids and books in the normalization and replay reports.
- Time-zone handling and time-stamp text: times are integers, and whether a text parses is an input.
- The time index of the stitched equity curve, and the difference between infinite and undefined values on it.
- TradeCuts.SomeCutAcceptedIff: is about parsed rows; for mixed units the cut decides the rows too.
- Sampling, percentiles and the risk ratio of the Monte Carlo simulation.
- Price, quantity and column checks of trade chunks, chunks without rows, and the shortcut for existing output of the trade normalizer.
- The auditor's other checks: only order and row count of the batch loop are modelled.
- Discovery of partitions, month files and manifests, path and closed-day checks: their results are inputs.
- Statistics on floats, engine wrappers, configuration loaders and command lines.
