# A verified model of the exchange simulator

The repository is a single-symbol exchange. Lock-free queues take requests in, a sequential
matching core executes them against a price/time-priority book, and a driver keeps client
exposures and publishes a binary market-data feed. This project models those parts in Dafny
and proves what they promise, over every input and every run.

Check everything with `dafny verify dfyconfig.toml`.

## How the model is built

- **Book.** `Bits`, `Bitmaps`, `Slab`, `PriceLevels`, `Ladder` and `Books` keep the source's own
  structures: 64-bit words, an index freelist, doubly linked FIFOs threaded through pool slots,
  cached totals, an occupancy bitmap with a cached best index, and an id map. `NaiveBook` is the
  reference: each side is one flat list, best price first and oldest first within a price.
  `BookRep` proves, on values, that every edit keeps all five structures in step with that list,
  and `Books.OrderBook` states each method as an edit of the list. A word is a natural number
  below 2^64 and bit operations are defined digit by digit.
- **Matching.** `MatchingSpec` gives the rules on the reference book: an incoming order consumes
  the opposite list from the front. `MatchingLaws` and `Ledger` prove the laws of those rules over
  single requests and whole runs; `Outcomes` tells what one order comes to from its own fields and
  the orders it meets. `Matching.MatchingEngine` is the imperative engine, proved equal to the rules
  step for step.
- **Driver.** `DriverSpec` composes sequencing, the risk gate, matching, accounting and publishing;
  `DriverLaws` proves what holds after every request of every run, snapshots and kill-switch
  flips included; `Replay.ReplayEngine`, `Risk.RiskEngine` and `Feed.Publisher` are the imperative
  forms, and `Replay.Drive` builds them, runs any requests and ends in the state of the rules.
  `Answers`, `Transcripts` and `Accounts` tell what each request does to the book, the feed and the
  accounts from the fields of the request and of the trades. `Joins` adds a subscriber that starts
  from a snapshot in the middle of a run.
- **Queues.** `Mpsc`, `Spsc` and `FanIn` are transition systems with one step per atomic load, store
  or compare-and-swap and separate steps for plain data accesses. Any number of producers, any
  interleaving and spurious failure of the weak compare-and-swap are allowed. Steps interleave
  sequentially consistently. `Calls` keeps what a caller sees, the arguments it passed and what each
  call returned, and the delivery laws are stated in those terms.
- **Arithmetic and wire.** `Histograms`, `Codec` and `Snapshots` cover the log-linear buckets, the
  snapshot framing and its 16-bit ceiling. `PriceIndex` covers the three interchangeable price
  indices.

`Books.OrderBook.Valid` and `Matching.MatchingEngine.Valid` keep their invariant folded behind a
quantifier with a marker trigger, so that callers reason with the ghost field `model` only.

Prices, quantities, cash and the driver's own sequence numbers are unbounded integers, except where
the source's width is the point (bitmap words, the SPSC counters, account keys, histogram samples,
wire fields, and the feed's sequence numbers, which wrap at 2^64).

## Where the code and its comments differ

The model follows the code.

- `include/jane/matching/matching_engine.hpp:115-122` says a failed rest means the pool is
  exhausted. Any refusal gives that reason. `MatchingLaws.CapacityReason` states exactly when, from
  the book before the call; `CapacityMeansFull` when the comment is right; `CapacityReasonMisleads`
  an order it is wrong for.
- `include/jane/matching/matching_engine.hpp:41` says a rejected order reports zero remaining.
  `MatchingLaws.RejectedRemaining` proves that one does if and only if it asked for zero, and
  `RejectedRemainderPositive` shows a refused order for five reporting five.
- `include/jane/risk/risk_engine.hpp:120-122` says summed PnL is zero. Summed cash and position are;
  PnL at own marks is not. `Risk.SummedPnl` gives what it is, `DriverLaws.ZeroSum` says so over every
  run, `Risk.FillRemarks` when a fill moves it, `Risk.CommonMark` a case where it is zero, and
  `Risk.SummedPnlNotZero` one where it is not.
- A failed MPSC pop does not mean an empty queue: `MpscLaws.FailedPopExact` and `FailedPopNotEmpty`.
- `include/jane/metrics/histogram.hpp:55-56` says percentiles are exact at the extremes and bucketed in
  between, so percentile zero can exceed a positive one. `Histograms.MinimumAgainstRank` says exactly
  when, for every rank; `PercentilesOrdered` that percentiles rise with `p` everywhere else;
  `MinimumExceedsPercentile` and `MinimumExceedsRankZero` show a case in a bucket and one at rank zero.

## Model

| member | source | states |
|---|---|---|
| `Bitmaps.Bitmap.Set` | include/jane/book/bitmap.hpp:24 | sets exactly bit `i` of the bool sequence the words stand for, for every size |
| `Bitmaps.Bitmap.Clear` | include/jane/book/bitmap.hpp:25 | clears exactly bit `i` |
| `Bitmaps.Bitmap.Test` | include/jane/book/bitmap.hpp:26-28 | reads bit `i` |
| `Bitmaps.Bitmap.FindHighestAtOrBelow` | include/jane/book/bitmap.hpp:32-57 | the word scan equals linear search downwards, for every size and query, out-of-range queries clamped |
| `Bitmaps.Bitmap.FindLowestAtOrAbove` | include/jane/book/bitmap.hpp:61-80 | the word scan equals linear search upwards |
| `Bitmaps.HighestMeaning` | include/jane/book/bitmap.hpp:30-31 | the linear search finds the highest set position at or below the query, or there is none |
| `Bitmaps.LowestMeaning` | include/jane/book/bitmap.hpp:59-60 | the linear search finds the lowest set position at or above the query, or there is none |
| `Slab.SlabPool.constructor` | include/jane/memory/slab_pool.hpp:45-50 | the freelist chains every slot once and nothing is live |
| `Slab.SlabPool.Allocate` | include/jane/memory/slab_pool.hpp:57-65 | fails exactly when every slot is live; otherwise hands out a slot that was free and is free no longer, and blanks it alone |
| `Slab.SlabPool.Deallocate` | include/jane/memory/slab_pool.hpp:71-76 | a live slot joins the freelist, no stored value changes |
| `PriceLevels.LevelPushBack` | include/jane/book/price_level.hpp:26-37 | the node becomes the last of a list linked both ways, aggregates equal the list's sums, no node outside the list changes |
| `PriceLevels.LevelUnlink` | include/jane/book/price_level.hpp:43-58 | removes position `k`, wherever it is, from a list linked both ways, aggregates again the list's sums |
| `Ladder.LadderSide.NoteNonempty` | include/jane/book/order_book.hpp:42-47 | occupancy gains the level and the cached best is again the best set position |
| `Ladder.LadderSide.NoteMaybeEmpty` | include/jane/book/order_book.hpp:50-63 | occupancy loses an emptied level and the cached best is relocated correctly |
| `Ladder.LadderSide.NextAfter` | include/jane/book/order_book.hpp:71-77 | the best occupied index strictly worse than the given one, if any |
| `Ladder.LadderSide.ForEachLevel` | include/jane/book/order_book.hpp:298-307 | the walk over the bitmap visits the occupied levels best first and stops when the visitor declines |
| `BookRep.AddRep` | include/jane/book/order_book.hpp:139-155 | linking a filled slot and recording its id keeps all structures in step and inserts the order behind every order at least as good |
| `BookRep.RemoveRep` | include/jane/book/order_book.hpp:365-370 | unlinking, freeing and forgetting an order keeps all structures in step and removes it from the reference list |
| `BookRep.ShrinkRep` | include/jane/book/order_book.hpp:205-208 | a partial fill in place keeps all structures in step and the order's place in the queue |
| `Books.OrderBook.constructor` | include/jane/book/order_book.hpp:114-116 | an empty book whose structures agree |
| `Books.OrderBook.Add` | include/jane/book/order_book.hpp:123-156 | rests the order behind every order at least as good, or names the first failing check and changes nothing |
| `Books.OrderBook.Cancel` | include/jane/book/order_book.hpp:158-168 | removes exactly that order, or reports it missing and changes nothing |
| `Books.OrderBook.ReduceQuantity` | include/jane/book/order_book.hpp:174-210 | a partial fill keeps the order's place, a full fill removes it, a bad amount or id changes nothing |
| `Books.OrderBook.Replace` | include/jane/book/order_book.hpp:226-266 | re-queues the amended order under its id; past the three checks it never fails, so the pool-exhausted branch is dead |
| `Books.OrderBook.BestPrice` | include/jane/book/order_book.hpp:268-269 | the price at the front of the side's list |
| `Books.OrderBook.LevelAt` | include/jane/book/order_book.hpp:271-277 | the cached totals are the volume and number of the orders at that price; nothing off the ladder |
| `Books.OrderBook.FrontAt` | include/jane/book/order_book.hpp:283-289 | the oldest order at that price |
| `Books.OrderBook.ForEachLevel` | include/jane/book/order_book.hpp:298-307 | the visitor sees the side's aggregated depth in strictly worsening price order until it declines |
| `Books.OrderBook.FindOrder` | include/jane/book/order_book.hpp:309-312 | the order resting under that id on either side, if any |
| `Books.OrderBook.IndexOf` | include/jane/book/order_book.hpp:320-326 | an index exactly for the prices on the ladder |
| `Depths.DepthMeaning` | include/jane/book/order_book.hpp:291-296 | depth lists every occupied price once, in strictly worsening order, with the level's volume and count |
| `BookReads.SeenDepth` | include/jane/book/order_book.hpp:298-307 | what the cached level aggregates show, level by level, is the depth of the resting orders |
| `Matching.MatchingEngine.MatchAgainstBook` | include/jane/matching/matching_engine.hpp:213-259 | fills and remaining book equal greedy consumption of the reference list |
| `Matching.MatchingEngine.AvailableLiquidity` | include/jane/matching/matching_engine.hpp:189-205 | the early-stopping walk over cached totals decides against the cap as the full crossing volume does |
| `Matching.MatchingEngine.SubmitOrder` | include/jane/matching/matching_engine.hpp:77-131 | engine, outcome and appended fills are those of the matching rules |
| `Matching.MatchingEngine.CancelOrder` | include/jane/matching/matching_engine.hpp:133-135 | accepted exactly for a resting id, which leaves the book |
| `Matching.MatchingEngine.ReplaceOrder` | include/jane/matching/matching_engine.hpp:145-180 | cancel then resubmit of the amended order, or a refusal before either |
| `MatchingSpec.ConsumePriority` | include/jane/matching/matching_engine.hpp:207-259 | fill `i` is with the i-th order in price/time priority, at its price, for what the orders ahead left wanting; a partly filled order stays in front |
| `MatchingSpec.ConsumeBalance` | include/jane/matching/matching_engine.hpp:213-259 | the sweep is maximal and the fills are exactly what both sides lose |
| `MatchingSpec.ConsumeTotal` | include/jane/matching/matching_engine.hpp:182-205 | an aggressor takes exactly the crossing volume, up to what it wants |
| `MatchingLaws.FillOrKillExact` | include/jane/matching/matching_engine.hpp:95-107 | rejected iff crossing volume is below the quantity; rejected changes nothing, accepted is filled in full |
| `Outcomes.SubmitTrades` | include/jane/matching/matching_engine.hpp:77-131 | for every order, each reason iff its cause; one that enters trades the minimum of its quantity and all volume opposite (market) or the volume priced within its limit (limit), and a fill-or-kill order is refused iff that is below its quantity |
| `Outcomes.SubmitRests` | include/jane/matching/matching_engine.hpp:109-131 | what is left rests iff the order is a day limit order not refused for capacity: as it came, behind every order at least as good and ahead of every worse one; any other remainder is dropped without a reason |
| `Outcomes.SubmitSweeps` | include/jane/matching/matching_engine.hpp:213-259 | fill by fill both parties' ids and clients, price, side, symbol and match id, limits respected; only the last order met can be left in part, and it stays in front |
| `Outcomes.AddRefusals` | include/jane/book/order_book.hpp:123-150 | each reason not to rest an order iff its cause and no earlier one |
| `Outcomes.ReplaceRefusals` | include/jane/book/order_book.hpp:226-240 | each reason not to re-queue an order iff its cause and no earlier one |
| `Outcomes.AmendedTerms` | include/jane/book/order_book.hpp:242-248 | an amended order keeps id, client, symbol, side, type and time in force, and takes the new price, quantity, sequence and timestamp with all of it open |
| `Outcomes.CancelTakesOne` | include/jane/book/order_book.hpp:158-168 | a cancel takes exactly the order under that id out of its queue; every other order keeps its place |
| `MatchingLaws.NeverCrossed` | include/jane/matching/matching_engine.hpp:77-180 | over every run of submit, cancel and replace from an empty book the best bid stays strictly below the best ask |
| `MatchingLaws.StepKeeps` | include/jane/matching/matching_engine.hpp:77-180 | each of submit, cancel and replace keeps that book invariant |
| `MatchingLaws.RunKeeps` | include/jane/matching/matching_engine.hpp:77-180 | over every run the sides stay sorted and uncrossed, ids unique, every order an open day limit order of the right symbol on the ladder, and the capacity respected |
| `MatchingLaws.SubmitConserves` | include/jane/matching/matching_engine.hpp:77-131 | on every return path quantity is filled plus reported remaining; the opposite side loses the fills, the own side gains what rests |
| `MatchingLaws.ReplaceNeverLoses` | include/jane/matching/matching_engine.hpp:145-180 | refused iff the id does not rest, the quantity is not positive or the price is off the ladder, each with its reason and no change; otherwise the order re-enters with the new terms and nothing else changed, and is filled in full or rests under its id at the back of its new level |
| `MatchingLaws.CapacityReason` | include/jane/matching/matching_engine.hpp:109-124 | for every order, on the book before the call: refused for capacity iff a day limit order wants more than the crossing volume and its price is off the ladder, its id rests on its own side or beyond its price, or those orders fill the book; refused, exactly those orders are left |
| `MatchingLaws.CapacityMeansFull` | include/jane/matching/matching_engine.hpp:115-122 | a capacity refusal leaves a full book iff the own orders and those beyond the price number the capacity, and always when the id is fresh and the price on the ladder |
| `MatchingLaws.CapacityReasonMisleads` | include/jane/matching/matching_engine.hpp:115-122 | an order off the ladder is refused for capacity on an empty book |
| `MatchingLaws.RejectedRemaining` | include/jane/matching/matching_engine.hpp:77-124 | on every rejecting path the reported remainder is zero iff the quantity was |
| `MatchingLaws.RejectedRemainderPositive` | include/jane/matching/matching_engine.hpp:41 | a fill-or-kill order for five on an empty book is rejected with five remaining |
| `Ledger.StepLedger` | include/jane/matching/matching_engine.hpp:77-180 | per id and request: open before plus entered equals open after plus filled plus withdrawn |
| `Ledger.VolumeConserved` | include/jane/matching/matching_engine.hpp:77-180 | per id over every run: entered equals filled as aggressor plus filled at rest plus still resting plus withdrawn |
| `Risk.RiskEngine.CheckNewOrder` | include/jane/risk/risk_engine.hpp:63-88 | the first failing check in order; a pass means no kill switch and the prospective position within the limit |
| `Risk.GateReasons` | include/jane/risk/risk_engine.hpp:63-88 | each reason iff its cause and no earlier one, over the switch, the size, the position after the order and the account's cash and marked position; a pass iff none |
| `Risk.KeysDistinct` | include/jane/risk/risk_engine.hpp:132-134 | accounts with 32-bit ids share a key only if they are the same account |
| `Risk.ExposureIsOwn` | include/jane/risk/risk_engine.hpp:95-106 | every exposure is the fold of that account's own fills |
| `Risk.FillCancels` | include/jane/risk/risk_engine.hpp:89-106 | the two sides of a fill cancel in total position and cash, self-trades included |
| `Risk.SummedPnl` | include/jane/risk/risk_engine.hpp:116-126 | with cash and positions balanced, worth at one common mark is zero and summed PnL is exactly the summed drift of the own marks |
| `Risk.SummedPnlNotZero` | include/jane/risk/risk_engine.hpp:120-122 | two fills at different prices balance cash and positions and leave summed PnL at -10 |
| `Risk.FillRemarks` | include/jane/risk/risk_engine.hpp:95-126 | a fill moves summed PnL by exactly what re-marking the two parties' prior holdings at its price gains, a self-trade's once; so it is unchanged iff those gains cancel |
| `Risk.CommonMark` | include/jane/risk/risk_engine.hpp:116-126 | balanced accounts whose open positions share one mark have summed PnL zero |
| `Feed.LevelMirrored` | include/jane/marketdata/publisher.hpp:57-74 | publishing a level makes a replica right about it and disturbs nothing else it was right about |
| `Feed.TopMirrored` | include/jane/marketdata/publisher.hpp:76-97 | the levels a snapshot collects are the best levels of any replica that mirrors the book |
| `Feed.SnapshotKeeps` | include/jane/marketdata/publisher.hpp:82-112 | a snapshot, sent or dropped, leaves no gap in the shared numbers, no change to replica or prints, and never a smaller scratch buffer |
| `Replay.ReplayEngine.ProcessNewOrder` | include/jane/replay/replay_engine.hpp:73-116 | sequencing, gate, matching, accounting and publishing compose as the driver rules say |
| `Replay.ReplayEngine.ProcessCancel` | include/jane/replay/replay_engine.hpp:118-135 | the cancelled order's level and report are published, or an unknown-order report |
| `Replay.ReplayEngine.ProcessReplace` | include/jane/replay/replay_engine.hpp:137-173 | the fills, the vacated level, the joined level and the report are published, or a rejection |
| `Replay.ReplayEngine.ApplyFills` | include/jane/replay/replay_engine.hpp:178-186 | every fill is printed, booked to both clients and followed by its level |
| `Replay.ReplayEngine.PublishReport` | include/jane/replay/replay_engine.hpp:200-222 | the report carries the summed fills and the last fill's price and id |
| `Replay.Drive` | include/jane/replay/replay_engine.hpp:60-173 | engine, risk, feed and driver built afresh and driven through any requests end in the state of the rules; the feed's replica is the book, its numbers have no gap, the accounts balance |
| `DriverSpec.FillsApplied` | include/jane/replay/replay_engine.hpp:178-186 | accounting and publishing never touch the engine or the sequence counter |
| `DriverLaws.FeedReplica` | include/jane/replay/replay_engine.hpp:73-192 | after every request of every run, snapshots among them, a subscriber of level updates alone holds exactly the book's levels, the shared sequence numbers have no gap and prints are exactly the fills |
| `DriverLaws.SnapshotsMatchReplica` | include/jane/marketdata/publisher.hpp:76-112 | after every run a snapshot asked for is dropped iff it cannot be framed (with 8192 scratch bytes at the start, iff it has more than 2729 levels); sent, it takes the next shared number and decodes to the best levels of the subscriber's replica |
| `Joins.SeedExact` | include/jane/marketdata/publisher.hpp:76-112 | a replica built from a snapshot's records is the book's levels iff the snapshot shows every level and every field fits its wire width |
| `Joins.RunExtends` | include/jane/marketdata/publisher.hpp:30-112 | the feed of every run extends the feed of each earlier moment of it |
| `Joins.LateJoin` | include/jane/marketdata/publisher.hpp:15-18 | a subscriber that decodes a snapshot sent at any point of any run holds the book's levels of that moment iff the snapshot is complete, and then, following only later level updates, holds them after every further request |
| `DriverLaws.SubmitTouches` | include/jane/replay/replay_engine.hpp:94-100 | a submission changes only the levels of its fills and the level its remainder joins |
| `DriverLaws.ZeroSum` | include/jane/replay/replay_engine.hpp:178-186 | over every run positions and cash sum to zero, worth at any common mark is zero, summed PnL is the summed drift of the own marks from it, each account is the fold of its own fills |
| `DriverLaws.RunPnl` | include/jane/replay/replay_engine.hpp:178-186 | over every run summed PnL is the sum of what each fill re-marked in the accounts before it |
| `Accounts.AccountsAreTrades` | include/jane/replay/replay_engine.hpp:178-186 | over every run each client's position is what it bought less what it sold, its cash what it was paid less what it paid, its mark the price of its latest trade |
| `DriverLaws.TimePriority` | include/jane/replay/replay_engine.hpp:73-173 | over every run each side is ordered by price and then by the driver's sequence numbers, and the book is uncrossed |
| `DriverLaws.ReportAddsUp` | include/jane/replay/replay_engine.hpp:88-116 | every new order's report satisfies filled plus leaves equals quantity |
| `DriverLaws.ReplaceAddsUp` | include/jane/replay/replay_engine.hpp:137-173 | every replace's report satisfies filled plus leaves equals the new quantity if the engine takes it, else zero |
| `Answers.NewReaches` | include/jane/replay/replay_engine.hpp:73-95 | a new order reaches gate and engine with exactly the message's fields and the next sequence number, and its fills are added to the history |
| `Answers.NewReports` | include/jane/replay/replay_engine.hpp:88-116 | its report carries the message's id, client and symbol, the reason, the open quantity, the summed fills, the last fill's price and match id, and the execution type these and the book imply |
| `Answers.NewTrades` | include/jane/replay/replay_engine.hpp:73-100 | every print it adds has the order's side and a price within its limit, and is booked under its id and client |
| `Answers.NewRests` | include/jane/replay/replay_engine.hpp:73-100 | an order left under a new id is the one asked for, field by field, on its own side with part of it open |
| `Answers.CancelAnswers` | include/jane/replay/replay_engine.hpp:118-135 | a cancel removes exactly that order and reports it to its owner, or only reports an unknown id to the sender; nothing else changes |
| `Answers.ReplaceReaches` | include/jane/replay/replay_engine.hpp:137-160 | a replace of a resting order reaches the engine with the new terms and the next sequence number; of another id it only reports |
| `Answers.ReplaceReports` | include/jane/replay/replay_engine.hpp:155-173 | its report goes to the owner with the reason, or with the fills, the open quantity and the execution type these imply |
| `Answers.SwitchStops` | include/jane/risk/risk_engine.hpp:63-66 | while the switch is engaged a new order only uses a sequence number and is reported back in full |
| `Answers.OperatorAnswers` | include/jane/risk/risk_engine.hpp:127-128 | the switch changes nothing but itself, a snapshot nothing but the feed |
| `Answers.FreshStart` | include/jane/replay/replay_engine.hpp:224-228 | a new venue has an empty ladder, the switch off, no account, nothing sent and every counter at one |
| `Transcripts.OneReportEach` | include/jane/replay/replay_engine.hpp:73-222 | every client request adds market data of the venue's symbol and then exactly one report |
| `DriverLaws.RunOk` | include/jane/replay/replay_engine.hpp:73-222 | every reachable driver state satisfies book, feed, account and numbering invariants together |
| `Ring.SlotsDiffer` | include/jane/concurrency/mpsc_ring_buffer.hpp:74 | masked positions less than a lap apart use different cells |
| `Mpsc.StepInv` | include/jane/concurrency/mpsc_ring_buffer.hpp:70-105 | every step of every thread keeps the window invariant |
| `Mpsc.CheckedFree` | include/jane/concurrency/mpsc_ring_buffer.hpp:74-86 | the sequence check implies the position is inside the window, or, if it reads older, that every cell is taken |
| `MpscLaws.RunInv` | include/jane/concurrency/mpsc_ring_buffer.hpp:56-105 | in every reachable state claimed positions are owned by one writer or published with the claimed item, and the rest are free |
| `MpscLaws.ClaimsOnlyFreed` | include/jane/concurrency/mpsc_ring_buffer.hpp:77-80 | every compare-and-swap that succeeds, after any delay, claims a cell whose previous item was read and that no producer is writing |
| `MpscLaws.RetriesArePaidFor` | include/jane/concurrency/mpsc_ring_buffer.hpp:70-87 | a push retries only if another push claimed a position since it read its own, or the weak compare-and-swap failed spuriously |
| `MpscLaws.NoDataRace` | include/jane/concurrency/mpsc_ring_buffer.hpp:88-102 | no two threads are ever about to touch the same cell's data |
| `MpscLaws.ExactlyOnceInOrder` | include/jane/concurrency/mpsc_ring_buffer.hpp:94-105 | the output is exactly the claimed items in position order, up to where the consumer is |
| `MpscLaws.CallCarriesArgument` | include/jane/concurrency/mpsc_ring_buffer.hpp:66-91 | however often it retries, a push still holds the argument of its call, and a producer's claims are the arguments of its calls that returned true, in call order, then the one in flight |
| `MpscLaws.PerProducerOrder` | include/jane/concurrency/mpsc_ring_buffer.hpp:66-91 | what was received from a producer is, in order, a prefix of the arguments of its calls that returned true |
| `MpscLaws.FailedPushExact` | include/jane/concurrency/mpsc_ring_buffer.hpp:71-87 | a push fails at its load iff it looks at the tail and all cells are claimed and unfreed at that instant |
| `MpscLaws.AlonePushFinishes` | include/jane/concurrency/mpsc_ring_buffer.hpp:66-91 | from every reachable state a push in progress finishes within six steps of its own, true if it has claimed or there is room and false if not |
| `MpscLaws.AlonePopDelivers` | include/jane/concurrency/mpsc_ring_buffer.hpp:94-105 | from every reachable state a pop of a published head delivers the item claimed there in four steps |
| `MpscLaws.FailedPopExact` | include/jane/concurrency/mpsc_ring_buffer.hpp:95-100 | a pop fails iff nothing is claimed or the head position is not yet published |
| `MpscLaws.FailedPopNotEmpty` | include/jane/concurrency/mpsc_ring_buffer.hpp:95-100 | from every start with two producers some run makes a pop fail while a later item is published |
| `Spsc.StepInv` | include/jane/concurrency/spsc_ring_buffer.hpp:65-92 | every step keeps tail cache <= tail <= head cache <= head <= tail cache + capacity behind the wrapped counters, and the buffer contents |
| `Spsc.GapExact` | include/jane/concurrency/spsc_ring_buffer.hpp:67 | the wrapped 64-bit difference is the true distance |
| `Spsc.SlotWrap` | include/jane/concurrency/spsc_ring_buffer.hpp:75 | wrapping a counter does not move its slot |
| `SpscLaws.RefinesBoundedFifo` | include/jane/concurrency/spsc_ring_buffer.hpp:65-92 | every step of every run, seen through calls and answers: true appends the argument of the call to a queue that is not full, false finds it full, an item is the oldest, none finds it empty, and nothing else is visible |
| `SpscLaws.FirstInFirstOut` | include/jane/concurrency/spsc_ring_buffer.hpp:81-92 | what the pops returned is, in order, a prefix of the arguments of the pushes that returned true |
| `SpscLaws.AlonePushFinishes` | include/jane/concurrency/spsc_ring_buffer.hpp:65-79 | from every reachable state a push in progress finishes within four steps of its own, true iff the queue is not full |
| `SpscLaws.AlonePopFinishes` | include/jane/concurrency/spsc_ring_buffer.hpp:81-92 | likewise a pop, with the oldest item iff there is one |
| `SpscLaws.DecidesAsNaive` | bench/bench_spsc_ring_buffer.cpp:27-42 | stale caches never change a decision: failures are exactly full or empty at the load, as in the re-reading baseline |
| `SpscLaws.NoDataRace` | include/jane/concurrency/spsc_ring_buffer.hpp:75-89 | producer and consumer never touch the same slot at once |
| `FanIn.StepInv` | include/jane/concurrency/fan_in_sequencer.hpp:35-65 | every push or drain step keeps all queues sound, one pop at a time, and the served log exact |
| `FanIn.MergeKeepsOrder` | include/jane/concurrency/fan_in_sequencer.hpp:55-65 | items drained from a source are, in order, a prefix of the arguments of that producer's pushes that returned true |
| `FanIn.ServedWithinOneRound` | include/jane/concurrency/fan_in_sequencer.hpp:55-65 | a waiting queue is served within N calls under any concurrent pushes, and no call before that returns false |
| `Histograms.BucketMonotone` | include/jane/metrics/histogram.hpp:94-107 | larger samples never fall in smaller buckets |
| `Histograms.LowerBoundInverse` | include/jane/metrics/histogram.hpp:109-120 | the lower bound is an exact right inverse of the bucket index on every bucket |
| `Histograms.BucketSpans` | include/jane/metrics/histogram.hpp:94-107 | below 8192 each sample has its own bucket, then each power of two is cut into 64 equal ones, numbered on |
| `Histograms.RelativeError` | include/jane/metrics/histogram.hpp:18-31 | the lower bound is exact below 8192 and less than 1/64 short above |
| `Histograms.NoClamp` | include/jane/metrics/histogram.hpp:38-47 | samples below 2^53 are never clamped into the last bucket |
| `Histograms.Clamped` | include/jane/metrics/histogram.hpp:38-47 | every sample from 2^53 on is clamped into the last bucket, strictly above its lower bound |
| `Histograms.LatencyHistogram.Record` | include/jane/metrics/histogram.hpp:43-53 | counts, sum, minimum and maximum describe the samples with negatives read as zero |
| `Histograms.TotalMeaning` | include/jane/metrics/histogram.hpp:51 | the sum it keeps adds up sample by sample and group by group |
| `Histograms.LatencyHistogram.Percentile` | include/jane/metrics/histogram.hpp:57-84 | the scan returns the lower bound of the bucket of the rank-th smallest sample; exact extremes; zero for rank zero, maximum beyond the count |
| `Histograms.RankOf` | include/jane/metrics/histogram.hpp:66-75 | over exact reals the least whole number not below the share of the samples less the epsilon; never past the count, zero iff within the epsilon |
| `Histograms.PercentileAccuracy` | include/jane/metrics/histogram.hpp:55-84 | a reported percentile equals the rank-th smallest sample below 8192 and is at most 1/64 short below 2^53 |
| `Histograms.MinimumAgainstRank` | include/jane/metrics/histogram.hpp:55-84 | for every rank, the minimum is at most what the rank reads as iff: at rank zero, the minimum is zero; at a rank with a sample, that sample is in a later bucket or the minimum is below 8192, or below 2^53 and on a bucket boundary; beyond the count, always |
| `Histograms.PercentilesOrdered` | include/jane/metrics/histogram.hpp:55-84 | for every `p <= q` the percentiles are in order, except from the minimum into the buckets, where they are iff the rank of `q` meets that condition |
| `Histograms.MinimumExceedsPercentile` | include/jane/metrics/histogram.hpp:61-80 | one sample of 10001 reads as 9984 in between the extremes |
| `Histograms.MinimumExceedsRankZero` | include/jane/metrics/histogram.hpp:61-80 | one sample of 500 reads as 0 at a hundred-millionth of a percent |
| `Codec.EncodeSnapshot` | include/jane/protocol/codec.hpp:96-134 | writes the whole message or nothing, never past it, and refuses exactly what does not fit |
| `Codec.SnapshotRoundTrip` | include/jane/protocol/codec.hpp:96-186 | decoding inverts encoding for every snapshot that fits, whatever bytes follow |
| `Codec.PrefixIncomplete` | include/jane/protocol/codec.hpp:144-156 | every proper prefix decodes as incomplete |
| `Codec.DecodeInverse` | include/jane/protocol/codec.hpp:144-186 | whatever decodes re-encodes to the same bytes with the reserved header byte zeroed |
| `Codec.RecordLayout` | include/jane/protocol/messages.hpp:164-169 | each field of a level record is at its offset, little-endian, two's complement where signed |
| `Codec.HeaderLayout` | include/jane/protocol/messages.hpp:155-160 | payload length, type 7, zero byte, sequence, symbol and the two counts at their offsets, low byte first |
| `Codec.LevelLayout` | include/jane/protocol/codec.hpp:119-132 | after the header bids and then asks, 24 bytes a level |
| `Codec.DecodeStatuses` | include/jane/protocol/codec.hpp:144-168 | each status iff its cause, for any bytes at all |
| `Snapshots.LevelCeiling` | include/jane/protocol/codec.hpp:100-106 | the 16-bit payload length allows exactly 2729 levels, and from 8192 scratch bytes on nothing else stops a snapshot |
| `Snapshots.Collected` | include/jane/marketdata/publisher.hpp:85-96 | the collecting visitor yields the best levels in order, up to the depth, and one level for depth zero |
| `Feed.Publisher.Frame` | include/jane/marketdata/publisher.hpp:98-106 | four attempts frame the message iff it fits the format and eight times the scratch buffer, which is doubled after each failure and never shrinks |
| `Feed.Publisher.PublishSnapshot` | include/jane/marketdata/publisher.hpp:82-112 | a snapshot of the best levels is sent whole under the feed's next shared number iff it can be framed; from 8192 scratch bytes it is dropped iff its levels exceed 2729, and the scratch never shrinks |
| `PriceIndex.LadderIndex.Insert` | include/jane/book/price_index_variants.hpp:34-66 | exactly that price joins and the cached best is the maximum again |
| `PriceIndex.LadderIndex.Erase` | include/jane/book/price_index_variants.hpp:67-73 | exactly that price leaves and the cached best is the maximum again |
| `PriceIndex.TreeIndex.Best` | include/jane/book/price_index_variants.hpp:90-92 | the maximum of the set, if there is one |
| `PriceIndex.FlatIndex.LowerBound` | include/jane/book/price_index_variants.hpp:105 | binary search finds the first position not below the price |
| `PriceIndex.FlatIndex.Insert` | include/jane/book/price_index_variants.hpp:104-109 | exactly that price joins a vector that stays strictly ascending |
| `PriceIndex.FlatIndex.Erase` | include/jane/book/price_index_variants.hpp:110-115 | exactly that price leaves a vector that stays strictly ascending |
| `PriceIndex.Lockstep` | include/jane/book/price_index_variants.hpp:30-122 | after every operation of any sequence the three indices report the same best price, the maximum |

## Left out

- Weak-memory reordering, cache-line layout and timing: the queues are modelled under sequentially consistent interleaving of their atomic steps.
- Signed overflow of the MPSC sequence difference after 2^63 positions, and 64-bit overflow of prices, quantities, cash and match ids: unbounded integers.
- Scheduling fairness of the MPSC push loop: that a retry means another push advanced is proved, that some push is eventually scheduled is not.
- Rounding of doubles in the rank formula of `LatencyHistogram::percentile` (include/jane/metrics/histogram.hpp:74): `RankOf` is over exact reals, and `Percentile` takes whatever rank was computed.
- `LatencyHistogram::mean`: floating-point division of two fields that are modelled.
- Fixed-size message codecs (`encode`, `decode`): a single copy each; the variable-length snapshot is the one with framing arithmetic.
- Wire encoding of trades, level updates and reports: the feed is a sequence of message values; byte order of the snapshot is little-endian.
- `size_approx`, `empty_approx`, `full_approx`: racy monitoring reads with no promise attached.
- The hash map `ankerl::unordered_dense` and `std::set` are mathematical maps and sets.
- Use after free and double free of pool slots: the pool asks its callers not to, and the book is proved not to.
- include/jane/memory/pmr_pool.hpp: wraps library pools that are not part of this model.
- Strategies, the synthetic generator, sinks, the book viewer, benchmarks and tooling: shallow decisions, random or floating-point input, or input and output.
