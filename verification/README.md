# Verified model of an L2 market-data and trading engine

This project models the integer core of a Binance order-book engine: reconstruction of
the depth book from snapshots and diffs, the queue between the market-data thread and the
engine, the order state machine, the paper strategy, and the codecs around them. Each
stateful component is a class or an array algorithm whose methods are proved against
value-level functions. The properties of the system are lemmas about those functions,
over all inputs and over whole runs.

`dafny verify dfyconfig.toml` checks everything.

## What is proved

- **Reconstruction** (`BookSide`, `Book`, `Fragmenter`, `Protocol`, `MarketData`,
  `Exchange`, `Feed`, `Reconstruction`, `Pipeline`). An exchange is a first
  book and a history of absolute-quantity changes numbered by id. In every run of the market-data thread, with
  any connects, failed reads, stale, gapped or unparseable frames, resyncs, full queues
  and stops, the engine's book at each complete live message holds exactly the exchange's
  quantities. Every exchange level better than the *horizon* is in the book. The horizon
  is the best price the book evicted, dropped, or was never told since the last snapshot.
  With an empty horizon the book is the exchange's book.
- **The redundant verifier** (`Verifier`). It counts exactly the discontinuities of any
  message sequence, and it counts none on anything the thread can push.
- **The single-producer single-consumer queue** (`Spsc`). Producer and consumer take
  small steps in any interleaving, and an acquire load may return any value between the
  last one seen and the current one.
- **The cross-check** (`CrossCheck`, `Tales`, `CrossCheckExact`, `CrossCheckAlarm`,
  `EngineRings`). The ring of recent events may start and end inside a message. Two exact
  results hold for any arrangement of message ids the engine can meet and any REST snapshot
  id L. First, while the compared levels lie inside what both books still know, no truthful
  content raises a false alarm if and only if two conditions on the ids hold. The first
  message of the ring, if it lost events at the front, does not bracket L. The last message,
  if it is still arriving, does not bracket L unless the messages before it end exactly at L.
  Second, without that restriction on the levels, no truthful content raises a false alarm
  if and only if no message in the ring brackets L, in which case the check gives no answer:
  a REST listing that was cut short is enough for an alarm in every other case. When a safe
  check gets through and its scratch book knows the compared levels, its answer says whether
  the live top levels are the right ones, for any live book.
- **The order state machine** (`Oms`, `OmsExchange`, `OmsRuns`, `OmsReports`,
  `OmsConvergence`). Safety over every run against a truthful exchange with queues for
  commands, execution reports and listings of open orders, idempotence, convergence in two
  rounds, and the exact events between taking and applying a listing that make it unsafe.
- **Strategy, accounting and replay** (`PaperBook`, `Strategy`, `StrategyRuns`, `Replay`,
  `Engine`, `LogReplay`). Inventory bound, no phantom fills, conservation, and live equals
  replay, also through the closed log file.
- **Codecs and the rate limit** (`EventLog`, `Decimal`, `TokenBucket`).

## Where the code and its promises part

- The architecture notes speak of a book of 5000 levels. The code keeps 1024 per side and
  so does the model.
- The cross-check can report a mismatch although both books are right, in three ways. The
  ring is trimmed by event count, so it can start inside the message that brackets the
  REST id (`EngineRings.TrimInsideOccurs`, `EngineRings.LostHeadOccurs`). The engine drains
  until the queue is momentarily empty, so it can run the check between two fragments of
  that message (`EngineRings.EarlyEndOccurs`). And a REST listing is cut after its best
  levels, so the scratch book does not know the level that becomes the best when those go
  (`EngineRings.CutListingOccurs`). `CrossCheckAlarm.NoAlarmExactly` and
  `CrossCheckAlarm.AnswerMeansAlarms` give the exact conditions.
- The post-only clamp keeps quotes off the opposite side exactly when both best prices are
  positive (`StrategyRuns.PostOnlyExactly`).
- The decimal parser refuses the eight magnitudes 9223372036854775800 to
  9223372036854775807 when their last digit comes from the text, and always refuses
  -9223372036854775808, although all of these fit 64 bits. It refuses no other representable
  value (`Decimal.DecimalToScaled`, `Decimal.PrintedParses`).
- The decimal printer divides by a 64-bit power of ten that wraps around from scale 20 on,
  and is zero from scale 64 on (`Decimal.DivisorNonZero`). It prints the value itself
  exactly when the scale is at most 19 or the magnitude is below the wrapped divisor
  (`Decimal.PrintsExactly`).
- A reconcile report is applied some time after it was taken. It is safe exactly when, at
  the time it is applied, no placement is under way, no order accepted since it was taken is
  open, and no closing report about an order it lists has been taken in since
  (`OmsReports.SafeSince`, `OmsExchange.ReportIsSafe`). Otherwise the state machine forgets an
  order and puts a second one on its side (`OmsReports.StaleReportDoublesUp`,
  `OmsReports.LateReportDoublesUp`), or holds an order that is gone and leaves its side
  unquoted (`OmsReports.LateReportRevives`). The safety results admit every safe report.

## Model

| member | source | states |
|---|---|---|
| `Book.LowerBound` | src/core/book.cpp:30-41 | the binary search finds the rank of a price among the sorted levels |
| `Book.EraseAt` | src/core/book.cpp:8-12 | the shift removes exactly the level at the index and keeps the order of the others |
| `Book.InsertAt` | src/core/book.cpp:14-19 | the shift puts the level at the index and keeps the order of the others |
| `Book.ApplySide` | src/core/book.cpp:23-71 | replace, delete, insert, evict-worst or drop on the array, with the result code |
| `Book.L2Book.Apply` | src/core/book.cpp:23-71 | one side changes as specified, the other side and the ids stay, and both stay sorted within 1024 levels |
| `Book.L2Book.ApplyEvent` | src/core/book.cpp:73-83 | all bids, then all asks, then the id and timestamp of the event |
| `Book.L2Book.Clear` | src/core/book.cpp:85-90 | the book is empty again |
| `Book.L2Book.DepthAt` | src/core/book.cpp:118-125 | the n-th level from the top, or none past the depth |
| `BookSide.AppliedTracks` | src/core/book.cpp:23-71 | one update keeps the array in step with an unbounded price map, the horizon widened by what was lost |
| `BookSide.AppliedAllTracks` | src/core/book.cpp:23-71 | any sequence of updates: sorted, bounded, every kept level right, every level better than the horizon kept |
| `BookSide.ExactWhenNothingLost` | src/core/book.cpp:23-71 | if nothing was evicted or dropped the side is the map, level for level |
| `BookSide.DepthExactInsideHorizon` | src/core/book.cpp:118-125 | inside the horizon, the n-th kept level is the map's n-th best, and conversely |
| `BookSide.SeedIsTopK` | src/core/book.cpp:57-80 | a non-zero listing in any order leaves exactly the best 1024 distinct prices with their last quantities |
| `Fragmenter.Fragment` | src/exchange/binance_depth.cpp:96-117 | the loop builds the fragment chain, bids first |
| `Fragmenter.FragmentsLossless` | src/exchange/binance_depth.cpp:96-117 | fragments concatenate to the message, number max(1, ceil(n/64)), flags set on the right fragments, header shared |
| `Fragmenter.NoShorterChain` | src/exchange/binance_depth.cpp:96-117 | no chain of events within the level cap that carries the same levels is shorter |
| `Fragmenter.FragmentedApplyIsOneStep` | src/core/book.cpp:73-83 | applying the chain equals applying all bids then all asks at once |
| `Protocol.LegalIsContinuity` | docs/ARCHITECTURE.md:39-45 | a stream is admissible step by step exactly when each diff brackets the snapshot or continues its predecessor |
| `MarketData.EmitsExactlyAdmitted` | src/exchange/reconstructor.cpp:42-72 | the sequence state machine emits a diff exactly when the protocol admits it, and moves to the protocol's next phase |
| `MarketData.FollowIsLegal` | src/exchange/reconstructor.cpp:42-78 | whatever snapshots, diffs and resets arrive, what is forwarded is a legal stream |
| `MarketData.Reconstructor.OnSnapshot` | src/exchange/reconstructor.cpp:5-40 | the fragments of the snapshot, and waiting for the bracket diff |
| `MarketData.Reconstructor.OnDiffGroup` | src/exchange/reconstructor.cpp:42-72 | drop, emit, go live, too-old or gap from the first fragment's ids, with the new state |
| `MarketData.Reconstructor.Reset` | src/exchange/reconstructor.cpp:74-78 | back to waiting for a snapshot |
| `MarketData.MarketDataThread.PushGroup` | src/engine/market_data_thread.cpp:25-35 | pushes the group, or a prefix of it only if stopped |
| `MarketData.MarketDataThread.Bootstrap` | src/engine/market_data_thread.cpp:37-88 | what reached the queue is what a protocol follower forwards, and the outcome matches the state |
| `MarketData.MarketDataThread.RunLive` | src/engine/market_data_thread.cpp:90-112 | the same while live, and a cut message only after a stop |
| `MarketData.MarketDataThread.Run` | src/engine/market_data_thread.cpp:114-158 | every run pushes a legal stream, cut at most inside its last message |
| `Exchange.DiffAdvances` | src/exchange/reconstructor.cpp:42-72 | a diff that may overlap the known state takes the exchange's book to its final id, because quantities are absolute |
| `Exchange.ListingSeeds` | src/exchange/reconstructor.cpp:5-40 | a possibly truncated snapshot listing seeds a book that tracks the exchange up to the cut |
| `Feed.FeedBook` | src/engine/engine.cpp:38-64 | clear on snapshot start, apply, live on the first diff |
| `Feed.FeedGroup` | src/engine/engine.cpp:38-64 | a whole message acts on each side as one list of updates |
| `Reconstruction.GroupsTrack` | src/exchange/reconstructor.cpp:5-72 | after any legal truthful message sequence both sides track the exchange at the last id |
| `Reconstruction.Reconstructed` | src/engine/engine.cpp:38-64 | at every complete live event of a truthful stream the book tracks the exchange at that event's final id |
| `Reconstruction.PipelineTracks` | src/engine/market_data_thread.cpp:25-158 | the same for every prefix of what any run of the thread pushes, with the verifier silent |
| `Reconstruction.ExactBook` | src/core/book.cpp:23-83 | with an empty horizon book and exchange agree level for level |
| `Pipeline.RunPipeline` | src/engine/engine.cpp:38-64 | thread and engine objects run one after the other: the gap counter is 0 whatever arrived, and in a truthful world the engine's own book tracks the exchange |
| `Pipeline.DrainQueue` | src/engine/engine.cpp:38-78 | draining the queue object applies everything unread, in order, leaves it empty, and reports whether there was work |
| `Verifier.GapVerifier.Check` | src/engine/gap_verifier.cpp:5-45 | one event against the tracked continuity state |
| `Verifier.CountsViolations` | src/engine/gap_verifier.cpp:5-45 | over any message sequence the gap counter is the number of discontinuous messages |
| `Verifier.ZeroGapsMeansContinuity` | src/engine/gap_verifier.cpp:5-45 | on snapshot-first streams a zero counter holds exactly when every message is continuous |
| `Verifier.NeverFires` | src/engine/gap_verifier.cpp:5-45 | no prefix of a legal stream, even cut inside a message, counts a gap |
| `Spsc.MaskIsMod` | src/core/spsc_queue.hpp:60 | masking with capacity minus one is the remainder for powers of two |
| `Spsc.StepKeepsInv` | src/core/spsc_queue.hpp:28-48 | every step of either thread keeps the queue invariant |
| `Spsc.QueueSafety` | src/core/spsc_queue.hpp:28-48 | in every interleaving popped is a prefix of pushed, at most capacity are in between, cached counters never lead |
| `Spsc.NoOverwrite` | src/core/spsc_queue.hpp:28-37 | the producer never writes a slot whose element is still unread |
| `Spsc.FailureIsHonest` | src/core/spsc_queue.hpp:28-48 | a refusal means full, or empty, at the counter value loaded |
| `Spsc.AllSlotsUsable` | src/core/spsc_queue.hpp:28-37 | any list up to the capacity can be pushed before the first pop |
| `Spsc.PushAloneMeaning` | src/core/spsc_queue.hpp:28-37 | a push without interference appends exactly when there is room |
| `Spsc.PopAloneMeaning` | src/core/spsc_queue.hpp:39-48 | a pop without interference takes the oldest element exactly when there is one |
| `Spsc.SpscQueue.TryPush` | src/core/spsc_queue.hpp:28-37 | the code is that composition of steps, and its result says whether there was room |
| `Spsc.SpscQueue.TryPop` | src/core/spsc_queue.hpp:39-48 | the code is that composition of steps, and returns the oldest element or nothing |
| `CrossCheck.Seed` | src/engine/crosscheck.cpp:19-24 | the scratch book is the snapshot applied to an empty book |
| `CrossCheck.ReplayRing` | src/engine/crosscheck.cpp:26-44 | skip to the bracket message, give up on a gap or a snapshot, else apply |
| `CrossCheck.CompareTop` | src/engine/crosscheck.cpp:46-63 | match, mismatch or skipped from the top levels of both books |
| `CrossCheck.Check` | src/engine/crosscheck.cpp:15-63 | the whole check, leaving the live book alone |
| `CrossCheck.NoFalseAlarm` | src/engine/crosscheck.cpp:15-63 | for truthful inputs, levels inside both horizons and a ring safe at the front and at the end, the answer is never a mismatch |
| `CrossCheck.AnswerMeansTruth` | src/engine/crosscheck.cpp:15-63 | when the replay of a safe ring gets through and the compared levels are inside the scratch book's horizon, any live book is answered with a match exactly when its top levels are the n-th best of the exchange's book with the arrived part of the last message, else with a mismatch |
| `CrossCheckAlarm.NoAlarmExactly` | src/engine/crosscheck.cpp:26-63 | for every arrangement of ids and every REST id, no truthful content whose compared levels are inside both horizons raises an alarm if and only if the ring is safe at the front and at the end |
| `CrossCheckAlarm.AnswerMeansAlarms` | src/engine/crosscheck.cpp:15-63 | for every arrangement of ids and every REST id, no truthful content at all raises an alarm if and only if no message in the ring brackets the REST id |
| `CrossCheckAlarm.FrontAlarm` | src/engine/crosscheck.cpp:26-44 | every ring that lost the head of the bracket message has truthful content with those ids, each price listed once, that is answered with a mismatch inside both horizons |
| `CrossCheckAlarm.EndAlarm` | src/engine/crosscheck.cpp:26-44 | so has every ring that ends inside the bracket message when the messages before it do not end at the REST id |
| `CrossCheckAlarm.CutAlarm` | src/engine/crosscheck.cpp:15-63 | every ring with a bracket message has truthful content with a REST listing cut after its best levels that is answered with a mismatch |
| `CrossCheckExact.GetsThrough` | src/engine/crosscheck.cpp:26-44 | the replay starts and is never given up if a message in the ring brackets the REST id, and takes exactly the events from that message on |
| `EngineRings.RingIsSpot` | src/engine/engine.cpp:31-36 | the ring after any part of a legal stream is a suffix cut at both ends inside messages of that stream, with only diffs behind its first message |
| `EngineRings.CheckQuietly` | src/engine/engine.cpp:80-101 | an engine that applied part of a truthful stream counts no failure on any number of safe checks |
| `EngineRings.TrimInsideOccurs` | src/engine/engine.cpp:31-36 | with a snapshot, small diffs and one diff of two events, the engine's own trim lands inside that diff and a truthful check raises a false alarm |
| `EngineRings.LostHeadOccurs` | src/engine/engine.cpp:31-36 | the same for all ids of a snapshot and a bracketing diff, with one very long diff |
| `EngineRings.EarlyEndOccurs` | src/engine/engine.cpp:38-101 | for all such ids with the snapshot not at the REST id and any number of arrived fragments below the ring capacity, a truthful check between two fragments raises a false alarm |
| `EngineRings.CutListingOccurs` | src/engine/engine.cpp:80-101 | for all such ids, a truthful check of a two-event ring that is safe at both ends raises a false alarm on a cut REST listing |
| `Engine.RingIsSuffix` | src/engine/engine.cpp:31-36 | the ring is a bounded suffix of the applied events and never reaches back past a snapshot start |
| `Engine.Engine.Drain` | src/engine/engine.cpp:38-78 | after any batch the whole engine state is a function of all events popped so far |
| `Engine.Engine.HandleCrossChecks` | src/engine/engine.cpp:80-101 | the three counters grow by the outcomes, nothing else changes |
| `Engine.EngineParts` | src/engine/engine.cpp:38-78 | book, verifier, ring and strategy inside the engine are what each would be alone on the popped events |
| `Engine.LiveEqualsReplay` | src/engine/replay.cpp:29-119 | logged decisions, quotes and fills are the replay of the logged events |
| `LogReplay.ReplaySaved` | src/engine/replay.cpp:50-66 | the closed file of an engine's log, read back and replayed, gives the logged decisions, for any payload codec that loses nothing of the logged events |
| `LogReplay.ReplaySavedStrategy` | src/engine/replay.cpp:121-124 | in paper mode it gives the logged quotes and fills |
| `Replay.ReplayEvents` | src/engine/replay.cpp:29-47 | the decisions of the event stream |
| `Replay.ReplayStrategy` | src/engine/replay.cpp:74-119 | quotes and fills of the stream and every summary field: counts of events, quotes, fills, one-sided and pulled ticks, no crossed quote, mean, final and peak inventory, cash, peak within the limit |
| `Replay.TallyCounts` | src/engine/replay.cpp:94-104 | the running counters are the numbers of one-sided and of pulled quotes |
| `Replay.StreamFillsAreReal` | src/engine/replay.cpp:74-119 | on any positive-price stream, each fill's quote was strictly inside the book it was placed on |
| `PaperBook.Paper.SimulateFills` | src/strategy/paper_fills.cpp:14-67 | bid and ask fills against the opposite best level, inventory, cash and remaining quotes updated |
| `PaperBook.Paper.ApplyRealFill` | src/strategy/paper_fills.cpp:69-90 | a real fill moves inventory and cash with the commission in its own asset |
| `Strategy.Strategy.OnEvent` | src/strategy/strategy.cpp:54-134 | fills first, then pull or re-decide with hysteresis, clamp and inventory limit |
| `Strategy.Strategy.OnExec` | src/strategy/strategy.cpp:37-40 | a real fill is booked and counted |
| `Strategy.Strategy.OnResync` | src/strategy/strategy.cpp:48-52 | quotes pulled, working prices forgotten, volatility continuity reset |
| `StrategyRuns.InventoryBounded` | src/strategy/strategy.cpp:54-127 | over every paper run the inventory stays within q_max - 1 + size |
| `StrategyRuns.FillRecordsBounded` | src/strategy/paper_fills.cpp:14-67 | so does the inventory reported by every single fill record |
| `StrategyRuns.BoundIsTight` | src/strategy/strategy.cpp:94-106 | for every q_max and size of at least one, some run reaches the bound |
| `StrategyRuns.QuotesNeverCross` | src/strategy/strategy.cpp:108-122 | no emitted two-sided quote is crossed |
| `StrategyRuns.PostOnlyExactly` | src/strategy/strategy.cpp:108-122 | the clamp keeps every quote off the opposite best price if and only if both best prices are positive |
| `StrategyRuns.FillsAreReal` | src/strategy/strategy.cpp:48-127 | a fill comes from the quote of the immediately preceding tick, which was strictly inside that book, and the market has since reached it |
| `StrategyRuns.NoFillOnQuotingBook` | src/strategy/strategy.cpp:66-127 | a second fill pass on the quoting book yields nothing |
| `StrategyRuns.Conservation` | src/strategy/paper_fills.cpp:14-90 | inventory and cash are the fold of the trade ledger, and each fill record carries its running totals |
| `Oms.Oms.Find` | src/engine/oms.cpp:7-33 | the first matching slot |
| `Oms.Oms.Reconcile` | src/engine/oms.cpp:69-103 | per side: place, cancel, or leave alone, with the commands in order |
| `Oms.Oms.OnExec` | src/engine/oms.cpp:105-125 | the reported order changes state or frees its slot, unknown ids are ignored |
| `Oms.Oms.OnReconcile` | src/engine/oms.cpp:127-144 | the slots are rebuilt from the reported rows |
| `Oms.Oms.CancelEverything` | src/engine/oms.cpp:146-156 | every active slot waits for its cancel and one cancel-all goes out |
| `Oms.Oms.AllFlat` | src/engine/oms.cpp:158-166 | flat exactly when no slot is active |
| `Oms.ReconcileIsIdempotent` | src/engine/oms.cpp:69-103 | from any state a second reconcile with the same quote emits nothing and changes nothing |
| `OmsRuns.StepKeepsInv` | src/engine/oms.cpp:35-156 | every step of state machine, exchange and queues, and every safe report, however late, keeps the system invariant |
| `OmsRuns.OneOrderPerSide` | src/engine/oms.cpp:69-144 | in every run at most one order per side is in flight or open, and it has an active slot with its id and side |
| `OmsRuns.NeverSaturated` | src/engine/oms.cpp:35-57 | a free slot is always left, so the saturation branch is never taken |
| `OmsRuns.FlatMeansFlat` | src/engine/oms.cpp:158-166 | no active slot exactly when no placement is under way, no order is open, and every report still to come is about an order without a slot |
| `OmsExchange.ReportIsSafe` | src/engine/oms.cpp:127-144 | rebuilding the slots from orders that were once open keeps the invariant if and only if no placement is under way, every open order is listed, and every listed order is open or about to be reported closed |
| `OmsReports.SafeSince` | src/engine/oms.cpp:105-144 | over every run, a listing taken at one moment may be applied at a later one if and only if then no placement is under way, no order accepted since is open, and no closing report about a listed order was taken in since |
| `OmsReports.StaleReportDoublesUp` | src/engine/oms.cpp:127-144 | from every invariant state with a placement under way, a truthful report and any quote wanting that side expose two orders there |
| `OmsReports.LateReportDoublesUp` | src/engine/oms.cpp:127-144 | an order under way or open that a past report does not list loses its slot, and is doubled by the next quote if the report lists nothing on its side |
| `OmsReports.LateReportRevives` | src/engine/oms.cpp:127-144 | an order known to be gone comes back from a past report, and a quote that asks for just that order then sends nothing |
| `OmsConvergence.TwoRoundsConverge` | src/engine/oms.cpp:69-125 | after two reconcile-then-drain rounds exactly the desired orders rest, and reconciling again emits nothing |
| `OmsConvergence.DrainExists` | src/engine/oms.cpp:105-125 | from every state the queues can be drained, so the rounds can always be completed |
| `EventLog.EventLogWriter.WriteRecord` | src/engine/event_log.cpp:29-39 | disk plus buffer stay the header and the framed records, whatever is flushed in between |
| `EventLog.EventLogWriter.Flush` | src/engine/event_log.cpp:69-75 | moves the buffer to disk and loses nothing |
| `EventLog.EventLogWriter.Close` | src/engine/event_log.cpp:77-82 | everything written is on disk |
| `EventLog.EventLogReader.Open` | src/engine/event_log.cpp:84-102 | accepts exactly the files that start with the expected header |
| `EventLog.EventLogReader.Next` | src/engine/event_log.cpp:108-124 | the next event or decision, other records skipped by length, nothing on a short read |
| `EventLog.EventLogReader.ReadLogEvents` | src/engine/replay.cpp:50-60 | the events of all remaining records |
| `EventLog.ClosedLogRoundTrip` | src/engine/event_log.cpp:108-124 | a closed log reads back exactly the events written, in order, for any mix of record types |
| `EventLog.CutLogReads` | src/engine/event_log.cpp:108-124 | a log cut at any byte reads back exactly the events of the records wholly before the cut |
| `EventLog.WholeRecordsFit` | src/engine/event_log.cpp:35-39 | the records wholly before the cut fit, and the next one does not |
| `EventLog.Recover` | src/engine/event_log.cpp:84-124 | reading what a writer left at any moment, with any tail lost, gives a header error or those events |
| `Decimal.DecimalToScaled` | src/exchange/binance_depth.cpp:30-68 | success returns the exact scaled value within 64 bits, failure means no value is representable within the guards |
| `Decimal.MantissaIsExact` | src/exchange/binance_depth.cpp:42-65 | kept digits and padding give the decimal times 10^scale, and excess digits are zero exactly when that is an integer |
| `Decimal.ScaledToDecimal` | src/exchange/signing.cpp:74-89 | for every scale below 64 the text has exactly scale fraction digits and denotes quotient and remainder by the 64-bit divisor |
| `Decimal.PrintsExactly` | src/exchange/signing.cpp:74-89 | what is printed is the value if and only if the scale is at most 19 or the magnitude is below the wrapped divisor |
| `Decimal.DivisorNonZero` | src/exchange/signing.cpp:80-83 | the 64-bit power of ten is usable as a divisor exactly below scale 64 |
| `Decimal.PrintedParses` | src/exchange/signing.cpp:74-89 | printed text parses back to the same value if and only if its magnitude is at most 9223372036854775799 |
| `Decimal.RoundTrip` | src/exchange/binance_depth.cpp:30-68 | printing then parsing gives the value back exactly when it is printed exactly and within that magnitude, else parsing fails |
| `Decimal.ClientIdRoundTrip` | src/exchange/signing.cpp:56-72 | an id decodes from its own encoding exactly when it fits 64 bits |
| `Decimal.DecodesOnlyOwn` | src/exchange/signing.cpp:60-72 | a decodable text is the encoding of its id exactly when it has no leading zero |
| `TokenBucket.TokenBucket.TryTake` | src/engine/token_bucket.cpp:16-22 | grants exactly when the refilled level covers the request up to the slack, and charges it |
| `TokenBucket.TokenBucket.SetUsed` | src/engine/token_bucket.cpp:24-27 | the level becomes capacity minus usage, clamped |
| `TokenBucket.RunBounded` | src/engine/token_bucket.cpp:10-27 | over every run the level stays between -1e-9 and the capacity |
| `TokenBucket.RateLimit` | src/engine/token_bucket.cpp:10-22 | after any history, a window of requests is granted at most capacity + refill * length + 1e-9 |

## Left out

- Transports, TLS, HMAC signing, JSON walking, configuration and logging are not modelled. Frames and snapshots arrive parsed.
- Quoting arithmetic, volatility and fees are arbitrary functions of what they are given, because the strategy clamps the result again.
- Clocks, the stop flag, queue-full answers and network outcomes are arbitrary functions of time. Sleeping, back-off and stale-book timing are not modelled.
- Integers are unbounded except in the decimal codec, and doubles are reals.
- The C++ memory model is represented only by acquire loads that may be stale but never go backwards. Counter wrap-around at 2^64 is not modelled.
- Byte layout of the log payloads is not modelled. Payloads are byte strings of the right size.
- The order gateway and the exchange's own checks are not modelled. The exchange may accept, reject, fill, expire or cancel as it likes, but its reports are truthful and arrive in order.
- `EventLogReader::NextRaw` is not modelled, because it would only repeat the framing argument.
- Engine.Engine.Drain: takes the popped batch as a sequence. `Pipeline.DrainQueue` takes it from the queue object.
- Pipeline.RunPipeline: runs the thread to its end before the engine pops. Any number of popped events is covered, so every intermediate state of the engine is too.
- Packing a REST listing of at most 128 levels per side into a message (src/engine/crosscheck.cpp:5-13) is not modelled, because it only copies. The check takes a listing of any length.
- Decimal scales from 64 on, where the printer divides by zero, are shown to be exactly those without a usable divisor and are not modelled further.
