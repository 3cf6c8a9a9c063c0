# NanoMatch-OME, modelled and proved in Dafny

NanoMatch-OME is a price-time-priority matching engine.  This project models its four working
parts and proves what each promises for every input, every run and every interleaving.

**Matching engine, order book and pool.**  The slab of order slots is an array, a pointer into it
is an index (`NIL` is null), and `OrderPool`, `OrderBook` and `MatchingEngine` are classes that
rewrite links, aggregates, cursors, the id index and the freelist in place, as the code does.
Beside them stands a reference engine (`Reference.dfy`) that knows nothing of slots: a book is two
lists, best price first and oldest first, and a message is one step on them.  The classes are
proved to refine it: `MatchingEngine` carries a ghost `model`, its invariant says that every slot
has exactly one owner and that the queues read as `model`'s lists, and every handler moves `model`
by exactly one reference step and appends exactly that step's reports.  The laws of `SweepLaws`,
`RunLaws`, `SlotLaws`, `Ledger` and `OrderLaws` are then proved of every run of the reference
engine.  `MessageLaws` says what one message does from its own bytes, the lists before and after
and the reports, without the reference's own functions, and proves that this leaves no choice;
`Leaves` lifts what reports say to whole runs.  `Health` proves that what they start from holds after construction, registration and
reset and after every message; the engine's invariant carries it, so cursors, slot counts and the
partition of the pool are facts about every engine there can be, with no assumed start.

**SPSC ring.**  `RingSteps` splits every push and pop into the load of the other side's index, the
slot accesses one at a time, and the publishing store, and lets two threads interleave them in any
way.  An index is the list of words ever stored to it, and a load may return any of them that is
not older than what the same thread saw before.  Indices are 64-bit words that wrap; the unbounded
counters appear only in the invariant.  `SpscQueue` has the operations as the code runs them, and
`RingOps` proves each to be an uninterrupted stretch of those steps.

**Wire format and decoder.**  Structs are lists of field widths over little-endian bytes.  A byte
string has exactly one reading as frames and a tail, and the decoder's loop is proved to push the
messages of those frames and to count its errors; `Positions` says which bytes mean what.  `Cuts` says where a stream may be cut into
received spans.  `Pipeline` drives decoder, ring and engine together from encoded messages to
reports, with any batch sizes.

**Receive buffers.**  Receiver, kernel and decoder take steps in any order over 64 buffers, two
queues and a submission ring; the kernel may overwrite a buffer whenever it has it.

Modelling decisions:

- The default build compiles assertions out (`-DNDEBUG`, CMakeLists.txt:24), so the model follows
  the code behind them.  A limit order left over at a price without a level is neither queued nor
  released (src/lob/order_book.hpp:297, src/matching/matching_engine.hpp:332-334): the model leaks
  that slot and `OrderLaws.LossExactly` says exactly which orders can lose quantity.
- `match_fok` claims a full fill is guaranteed.  It is not: a buy limit below the grid still counts
  level 0, a sell limit between two ticks is rounded down, and the 32-bit sum can wrap.  The first
  two lose quantity without a report, the third refuses a fillable order; `OrderLaws` states when.
- Quantities and level sums are 32-bit, ring indices 64-bit; both wrap where the code does.  What
  the code demands of callers is a precondition (`Reference.Admissible`): an order that comes to
  rest has an id not already resting in its book, and its level's sum stays below 2^32.
- The clock is a parameter that does not run backwards (the code reads CLOCK_MONOTONIC_RAW).  No
  decision reads a timestamp, so stamps may be any sequence that does not fall; numbering the
  messages makes "earlier stamp" mean "arrived earlier".
- The decoder keeps nothing between spans.  A stream cut inside a frame loses that frame;
  `Cuts.CutExactly` proves that exactly the cuts at the end of a frame are harmless.
- The outbound side is an append-only log; reports carry no timestamp there.

Every claim below is what Dafny verifies.

## Model

| member | source | states |
|---|---|---|
| SweepLaws.SweepCharacterised | src/matching/matching_engine.hpp:261-312 | a result is the sweep's result if and only if it is a greedy walk: a prefix of the opposite list consumed whole and in order, each maker at its own price, at most the last touched order hit in part, everything behind it unchanged, and a stop only when the aggressor is filled, the side is empty or the next price does not cross |
| SweepLaws.SweepIsGreedy | src/matching/matching_engine.hpp:263-311 | every sweep is such a walk, for any list at all, and the number of makers gone is the length of the consumed prefix |
| SweepLaws.GreedyIsUnique | src/matching/matching_engine.hpp:263-311 | over orders with positive quantity no two different results are greedy |
| SweepLaws.SweepQuantity | src/matching/matching_engine.hpp:263-267 | on a price-sorted side the sweep executes the smaller of the order's quantity and everything crossable, and a remainder means the best price left does not cross |
| SweepLaws.SweepProgress | src/matching/matching_engine.hpp:273-311 | every trade has positive quantity, the aggressor's reported leaves strictly fall by it, and there is at most one trade more than makers consumed |
| RunLaws.RunKeepsOk | src/matching/matching_engine.hpp:162-236 | after every run of limit, market, IOC, FOK, cancel and modify messages both sides of every book are in price-time order, every resting order has positive quantity and a grid price, and best bid is strictly below best ask |
| RunLaws.StepKeepsOk | src/matching/matching_engine.hpp:321-339 | one message of any kind keeps that invariant, in particular a residual rests only where it does not cross |
| RunLaws.SweepSkipsNone | src/matching/matching_engine.hpp:263-274 | when a maker trades, every order with priority over it was filled completely by an earlier trade of the same sweep |
| MessageLaws.RefusedExactly | src/matching/matching_engine.hpp:174-217 | a new order is refused, with one reject for its whole quantity and nothing else touched, if and only if its instrument is not registered, no slot is free, its type byte is above 3, or it is FOK and the 32-bit sum of the levels its check counts is below its quantity; otherwise no reject is sent |
| MessageLaws.NewOrderObeys | src/matching/matching_engine.hpp:261-381 | an order that is not refused trades with the first orders of the other side, a non-market order only at its price or better; trade i is reported as reports 2i and 2i+1, both at the i-th maker's price and for the same quantity, each naming the other party, the maker's leaves being what that id then has in the book and the taker's being its quantity less what it executed so far; quantity is left only when the other side is empty or beyond its price; market and IOC remainders are acknowledged, a limit remainder on the grid joins behind every price at least as good, and nothing else happens to either list |
| MessageLaws.NewOrderDetermined | src/matching/matching_engine.hpp:261-423 | whatever obeys that law has the reports, the books and the fill count the engine has: the law leaves no choice |
| MessageLaws.CancelTakesOut | src/matching/matching_engine.hpp:162-169 | a cancel or modify (kind 1 or 2) of an order that rests takes exactly that order out, keeps every other in its place, sends one acknowledgement with what was left of it and frees one slot |
| MessageLaws.NothingToCancel | src/matching/matching_engine.hpp:223-229 | a cancel of an id that does not rest or for an unknown instrument, and a message of any other kind, changes nothing and reports nothing |
| Leaves.LeavesAreCurrent | src/matching/matching_engine.hpp:286-303 | in every run in which an id is created once, while the order rests the leaves of its latest trade report are its resting quantity, and without such a report it rests with all it wanted |
| OrderLaws.RunRespectsPriority | src/matching/matching_engine.hpp:263-311 | the same at every message of every run, across any mix of adds, partial fills and mid-queue cancels: no trade passes over an order at a better price or at the same price with an earlier arrival |
| RunLaws.RunAccountsSlots | src/core/order_pool.hpp:129-133 | in every run free slots, resting orders of all books and leaked slots add up to the capacity; which messages leak is SlotLaws.RunLeaks |
| SlotLaws.RunLeaks | src/matching/matching_engine.hpp:332-334 | over every run the leaked slots grow by exactly the number of leaking messages |
| SlotLaws.RunLeaksNothing | src/lob/order_book.hpp:214-216 | a run whose limit orders name prices with levels leaks no slot, from any state |
| SlotLaws.RunPartition | src/core/order_pool.hpp:131 | over every run free slots plus live orders fall short of the pool by exactly the leaking messages |
| SlotLaws.PartitionExactly | src/lob/order_book.hpp:297 | the freelist and the resting orders partition the pool in every admissible run of the messages clients may send if and only if those messages name prices with levels |
| SlotLaws.PartitionBreaks | src/matching/matching_engine.hpp:332-334 | one allowed limit order without a level is enough to break the partition, on every set of grids |
| RunLaws.RunIsolates | src/matching/matching_engine.hpp:141-144 | any run of messages for other instruments leaves a book as it was |
| RunLaws.BatchTransparency | src/matching/matching_engine.hpp:111-132 | for the reference engine, any cut of the inbound stream into batches gives the state and reports of the messages one by one; MatchingEngine.PollAll and SubmitAll say it of the code |
| Ledger.QuantityLedger | src/matching/matching_engine.hpp:174-236 | over a whole run an order's original quantity is what all reports executed of it, plus what a cancel or reject gave back, plus what still rests, plus what was lost; with positive quantity it rests or has exactly one terminal report, never both, exactly when nothing was lost |
| Ledger.StepLedger | src/matching/matching_engine.hpp:273-303 | a message that does not create an order moves that order's quantity only from the book into reports, and ends it at most once |
| Ledger.CreationLedger | src/matching/matching_engine.hpp:332-423 | the creating message splits its quantity between its reports, the book and loss, for every order type and outcome |
| Ledger.MakerLedger | src/matching/matching_engine.hpp:286-308 | what a sweep reports for a resting order is what left the list, and its terminal reports are the orders that left |
| Ledger.TakerLedger | src/matching/matching_engine.hpp:296-303 | the aggressor's reports add up to what it executed, with one terminal report exactly when nothing is left |
| OrderLaws.RunBalances | src/matching/matching_engine.hpp:286-303 | in every run the quantity reported to buyers equals the quantity reported to sellers |
| OrderLaws.RunCounts | src/matching/matching_engine.hpp:134-138 | fills_executed and orders_rejected always agree with the reports sent: two per fill, one per reject |
| OrderLaws.FokAllOrNothing | src/matching/matching_engine.hpp:393-423 | with a limit its check handles, a FOK order is rejected with every book unchanged or executed for its whole quantity |
| OrderLaws.FokAcceptance | src/lob/order_book.hpp:449-477 | acceptance is sound even when the 32-bit sum wraps; a fillable order is refused exactly when the wrapped sum falls below its quantity; without wrap acceptance holds exactly when the crossable quantity suffices |
| OrderLaws.FokWrapRefuses | src/lob/order_book.hpp:461-463 | a concrete sound book of two levels of 2^31 whose sum wraps to zero, so that a fillable order is refused |
| OrderLaws.LossExactly | src/matching/matching_engine.hpp:332-334 | quantity can disappear without a report exactly for limit orders whose price has no level and FOK orders with an unsafe limit; for every other order type, side and price it never does, in any sound state |
| OrderLaws.LimitLoses | src/lob/order_book.hpp:297 | for every grid and every price without a level there is a state in which a limit order loses quantity |
| OrderLaws.FokLoses | src/lob/order_book.hpp:456-470 | for every grid and every unsafe FOK limit there is a state in which an accepted order is not filled and loses quantity |
| OrderLaws.RunKeepsDistinct | src/lob/order_book.hpp:179-183 | when no order comes to rest under an id already resting, ids stay unique within every book over every run |
| Health.EmptyIsHealthy | src/matching/matching_engine.hpp:74-78 | empty books and a full freelist satisfy the book invariant, slot accounting, id uniqueness and the side condition of the balance law: the base case of every run law |
| Health.GrownIsHealthy | src/matching/matching_engine.hpp:91-98 | registering an instrument keeps all of these |
| Health.StepIsHealthy | src/matching/matching_engine.hpp:162-169 | every message keeps them |
| Health.RunIsHealthy | src/matching/matching_engine.hpp:111-122 | every admissible run keeps them |
| EngineLaws.CursorsNeverCross | src/lob/order_book.hpp:693-696 | in every engine that stands for a healthy state, the bid cursor's index is strictly below the ask cursor's whenever both exist |
| EngineLaws.UsedSlots | src/core/order_pool.hpp:131 | in every such engine used_count is the number of orders resting in all books plus the leaked slots, which are as many as the model counts |
| EngineLaws.PoolIsPartitioned | src/core/order.hpp:51-53 | without leaks every slot is free if and only if it is not queued in the book of its own instrument, and used_count is the number of live orders |
| EngineLaws.LevelledRunPartitions | src/matching/matching_engine.hpp:332-338 | the same after any run from an unleaked engine whose limit orders name prices with levels |
| MatchingEngines.MatchingEngine.constructor | src/matching/matching_engine.hpp:74-78 | a new engine satisfies the whole invariant with no orders and every slot free |
| MatchingEngines.MatchingEngine.CursorsNeverCross | src/lob/order_book.hpp:693-696 | in every valid engine each book's bid cursor is strictly below its ask cursor |
| MatchingEngines.MatchingEngine.UsedSlots | src/core/order_pool.hpp:131 | in every valid engine used_count is the live orders plus the leaked slots |
| MatchingEngines.MatchingEngine.PoolIsPartitioned | src/core/order.hpp:51-53 | in every valid engine that has leaked nothing, freelist and books partition the pool |
| MatchingEngines.MatchingEngine.DoSweep | src/matching/matching_engine.hpp:261-312 | the in-place loop leaves the aggressor, the opposite queues, the freelist, the log and the fill counter exactly as the reference sweep says, moves slots only between book and freelist and writes no other slot |
| MatchingEngines.MatchingEngine.SweepOnce | src/matching/matching_engine.hpp:264-308 | one iteration trades with the front of the opposite list, reports the resting party first, and releases the maker exactly when it is consumed |
| MatchingEngines.MatchingEngine.MatchLimit | src/matching/matching_engine.hpp:321-339 | a limit order sweeps, then rests behind its price, or is released, or leaks when its price has no level; pool, book, log and counters end as the reference step says |
| MatchingEngines.MatchingEngine.MatchAndCancel | src/matching/matching_engine.hpp:347-381 | market and IOC orders sweep, acknowledge the cancelled remainder, never rest, and give their slot back |
| MatchingEngines.MatchingEngine.MatchFok | src/matching/matching_engine.hpp:393-423 | a FOK order is refused before the book is touched or swept; its slot goes back either way |
| MatchingEngines.MatchingEngine.HandleNewOrder | src/matching/matching_engine.hpp:174-218 | unknown instrument, exhausted pool, unknown type and the four order types: invariant kept, one reference step taken, only this instrument's book written |
| MatchingEngines.MatchingEngine.HandleCancel | src/matching/matching_engine.hpp:223-236 | a resting order is spliced out, acknowledged with its remaining quantity and its slot released; an unknown instrument or id changes nothing |
| MatchingEngines.MatchingEngine.Dispatch | src/matching/matching_engine.hpp:162-169 | every message keeps the engine invariant, takes one reference step and writes no book but its instrument's; modify is a cancel, other kinds are ignored |
| MatchingEngines.MatchingEngine.Submit | src/matching/matching_engine.hpp:129-132 | one step, one more processed message, no book written but the message's own |
| MatchingEngines.MatchingEngine.Poll | src/matching/matching_engine.hpp:111-122 | at most max_batch and at most 64 messages are taken, only those need be admissible, and the engine ends where the reference run over them ends |
| MatchingEngines.MatchingEngine.SubmitAll | src/matching/matching_engine.hpp:124-132 | submitting the messages one by one ends where the reference run over them ends |
| MatchingEngines.MatchingEngine.PollAll | src/matching/matching_engine.hpp:111-122 | polling with any sequence of batch sizes ends, after as many messages, exactly where submitting them one by one ends: books, pool and reports |
| MatchingEngines.MatchingEngine.AddInstrument | src/matching/matching_engine.hpp:91-98 | registers an empty book, or changes nothing when the id is known; the engine invariant, health included, is kept |
| MatchingEngines.MatchingEngine.ResetState | src/matching/matching_engine.hpp:150-155 | every slot free, every book empty, leaks recovered, counters kept, the engine invariant re-established |
| Settlement.EachSlotOnce | src/core/order.hpp:51-53 | in every valid engine each slot is on the freelist, leaked, or queued in the book of its own instrument, never two of these, and the freelist repeats no slot |
| Settlement.ConcludeNew | src/matching/matching_engine.hpp:174-218 | a finished new order leaves every slot owned once and the whole engine standing for the reference's next state |
| Settlement.ConcludeCancel | src/matching/matching_engine.hpp:223-236 | the same for a cancel |
| Ownership.OwnedStep | src/core/order_pool.hpp:93-116 | a step that touches one book and the freelist keeps the partition of the pool over all books |
| Ownership.OthersUnmoved | src/matching/matching_engine.hpp:489-490 | such a step leaves every other book's queues, aggregates, index, cursors and slots unchanged although all draw from one pool |
| Books.IndexAgreement | src/lob/order_book.hpp:172-204 | lookup by id finds a slot if and only if that slot carries the id and is queued at its own side and price, and then it is in no other queue |
| Settlement.IndexedSide | src/lob/order_book.hpp:191-194 | the index answers exactly as a search of both lists |
| OrderBooks.BestHead | src/lob/order_book.hpp:513-520 | a side's cursor is set exactly when its list is not empty, and its level's head is the list's first order |
| OrderBooks.OrderBook.AddOrder | src/lob/order_book.hpp:292-315 | a valid order joins behind everything at its price or better, with queue, aggregates, index and cursor in step; a price without a level changes nothing |
| OrderBooks.OrderBook.CancelOrder | src/lob/order_book.hpp:339-357 | exactly that order leaves its list, everything else and the order's quantity stay, the book stays consistent |
| OrderBooks.OrderBook.ReduceOrderQty | src/lob/order_book.hpp:366-386 | the order keeps its place with the new quantity, or leaves as cancelled when it is zero |
| OrderBooks.OrderBook.FillRestingOrder | src/lob/order_book.hpp:406-434 | the order shrinks in place, marked partial, or leaves, marked filled; the result says which; all redundant views stay in step |
| OrderBooks.OrderBook.PopBestHead | src/lob/order_book.hpp:487-511 | hands out the first order of the side's list and drops it, or null on an empty side |
| OrderBooks.OrderBook.AdvanceBestCursor | src/lob/order_book.hpp:647-685 | after a level drained the bid cursor is the highest non-empty level, the ask cursor the lowest, or none |
| OrderBooks.OrderBook.AvailableQuantityAtOrBetter | src/lob/order_book.hpp:449-477 | the level loop returns the crossable quantity of the list, for the limit the check effectively uses, modulo 2^32 |
| Feasibility.CheckedSumIsAvailable | src/lob/order_book.hpp:456-474 | summing level totals between cursor and limit index is summing the crossable orders of the list, and the indices stay in range |
| OrderBooks.OrderBook.Clear | src/lob/order_book.hpp:270-280 | every consistent book becomes the empty book |
| OrderBooks.OrderBook.constructor | src/lob/order_book.hpp:234-260 | one level per tick and side, each with its grid price, all empty |
| PriceLevels.LevelEnqueueTail | src/lob/order_book.hpp:82-97 | append on the queue's sequence; links stay mutually inverse, both aggregates exact |
| PriceLevels.LevelDequeueHead | src/lob/order_book.hpp:101-122 | drop-first, or null on an empty level |
| PriceLevels.LevelRemove | src/lob/order_book.hpp:126-152 | delete-one at any position, only links change, aggregates exact, so the saturating branches are never taken |
| PriceLevels.LevelReduceQty | src/lob/order_book.hpp:155-163 | update-one; total_qty stays exact |
| Ticks.PriceRoundTrip | src/lob/order_book.hpp:605-618 | a valid price has a level and that level has the price |
| Ticks.IndexRoundTrip | src/lob/order_book.hpp:610-618 | a level's price is valid and leads back to the level |
| Ticks.IndexOrder | src/lob/order_book.hpp:610-612 | index order is price order, both ways |
| Ticks.IndexBound | src/lob/order_book.hpp:456-470 | an in-range limit, rounded down to its level, compares with every level as the limit does |
| OrderPools.OrderPool.BuildFreelist | src/core/order_pool.hpp:145-155 | an acyclic freelist of all slots in order, whoever held them |
| OrderPools.OrderPool.Acquire | src/core/order_pool.hpp:93-102 | pops the first free slot and clears it, or null; free_count is the freelist's length |
| OrderPools.OrderPool.Release | src/core/order_pool.hpp:109-116 | pushes a slot that is not free; nothing but its links changes |
| Words.MaskIsMod | src/spsc/spsc_queue.hpp:81-82 | for every power of two, masking is the remainder |
| Words.WrapIsInvisible | src/spsc/spsc_queue.hpp:108-210 | for every ring size 2^k below 2^64, full test, empty test, used count and slots computed on wrapping 64-bit indices are those of unbounded counters |
| RingSteps.RingIsSafe | src/spsc/spsc_queue.hpp:108-210 | under every interleaving with stale index loads: popped items followed by the ring's contents are the pushed items, at most N are held, no slot is written while unread, none read before it is published, and the two threads never touch the same slot |
| RingSteps.StepKeeps | src/spsc/spsc_queue.hpp:108-210 | every step of either thread keeps the ring's invariant |
| RingSteps.FreshRefusals | src/spsc/spsc_queue.hpp:112-154 | in every reachable state a push that loads the latest index is refused exactly when N items are held, a pop exactly when none is |
| RingOps.PushIsSteps | src/spsc/spsc_queue.hpp:108-123 | what try_push does to slots, index and pushed items is what load, write and publish do as steps of the interleaved ring, without touching the consumer's side |
| RingOps.PopIsSteps | src/spsc/spsc_queue.hpp:145-160 | the same for try_pop |
| RingOps.PushBatchIsSteps | src/spsc/spsc_queue.hpp:173-187 | the same for try_push_batch |
| RingOps.PopBatchIsSteps | src/spsc/spsc_queue.hpp:197-210 | the same for try_pop_batch |
| SpscQueues.SPSCQueue.TryPush | src/spsc/spsc_queue.hpp:108-126 | refused exactly when full as of the loaded index, otherwise appends one item |
| SpscQueues.SPSCQueue.TryPop | src/spsc/spsc_queue.hpp:145-161 | refused exactly when empty as of the loaded index, otherwise hands out the oldest item |
| SpscQueues.SPSCQueue.TryPushBatch | src/spsc/spsc_queue.hpp:173-187 | appends as many items as fit as of one load, in order |
| SpscQueues.SPSCQueue.TryPopBatch | src/spsc/spsc_queue.hpp:197-210 | hands out as many items as are there as of one load, in order |
| SpscQueues.BatchPushIsSingles | src/spsc/spsc_queue.hpp:163-187 | a batch push leaves slots and index exactly as offering the items one by one against the same loaded index |
| SpscQueues.BatchPopIsSingles | src/spsc/spsc_queue.hpp:189-210 | a batch pop returns and leaves exactly what repeated single pops do |
| Framing.SplitCharacterised | src/io/decoder.hpp:121-134 | every byte string has exactly one reading as complete frames followed by a tail at which the loop stops, and it is the one found |
| Framing.SpansAreTransparent | src/io/decoder.hpp:113-164 | a stream cut where a frame ends decodes, with its errors, to what the whole decodes to; that no other cut is safe is Cuts.CutExactly |
| Cuts.CutExactly | src/io/decoder.hpp:113-164 | decoding a stream in two pieces gives the messages and errors of decoding it whole, whatever follows, if and only if the first piece ends where a frame ends |
| Cuts.CutMessageIsLost | src/io/decoder.hpp:121-134 | any message cut strictly inside its encoding: the first piece decodes to nothing, with an error once the header is there, and the cut is not harmless |
| Framing.EncodedStreamDecodes | src/io/decoder.hpp:166-210 | decoding the concatenated encodings of any list of orders and cancels yields that list, no error and no tail |
| Framing.NewOrderRoundTrip | src/io/wire_protocol.hpp:57-79 | an encoded order is one frame of its type that parses to the order |
| Positions.NewOrderBytes | src/io/decoder.hpp:173-192 | a new order's instrument is bytes 4-7, id 8-15, client 16-23, signed price 24-31, quantity 32-35, side byte 36 and type byte 37; fewer than 40 bytes are refused |
| Positions.CancelBytesAt | src/io/decoder.hpp:194-210 | a cancel's instrument is bytes 4-7 and its id 8-15; fewer than 16 bytes are refused |
| Positions.FrameMeans | src/io/decoder.hpp:139-153 | type bytes 1,0 are a new order, 2,0 a cancel, everything else is unknown and counted; a known type that is too short is no message and no error |
| Positions.ValueLast | src/io/wire_protocol.hpp:9 | numbers are little-endian: a byte counts 256 to the power of its position |
| Framing.CancelRoundTrip | src/io/wire_protocol.hpp:85-92 | the same for a cancel |
| Framing.NewOrderBytesSurvive | src/io/decoder.hpp:173-192 | any order frame parses, and encoding the result gives back its 40 bytes if and only if its length field is 40 and its padding zero |
| Framing.ExecReportRoundTrip | src/io/decoder.hpp:225-272 | every execution report survives encoding into 48 bytes, whatever follows in the buffer |
| Positions.ReportBytesWritten | src/io/decoder.hpp:228-249 | the 48 bytes of a report: type 16, length 48, kind byte 4, zero padding 5-7, order 8-15, counterpart 16-23, signed price 24-31, quantity 32-35, leaves 36-39, time 40-47 |
| Positions.ReportBytesRead | src/io/decoder.hpp:252-272 | the same positions when reading, and refusal exactly of shorter buffers or another type |
| Framing.ExecReportRefused | src/io/decoder.hpp:252-261 | decoding refuses exactly buffers that are too short or of another type |
| Wire.UnpackPack | src/io/wire_protocol.hpp:44-112 | for every struct layout, reading back a written struct yields its fields |
| Wire.PackUnpack | src/io/wire_protocol.hpp:44-112 | and writing back what was read yields the bytes |
| Decoders.Decoder.DecodeSpan | src/io/decoder.hpp:113-164 | on arbitrary bytes the loop ends, pushes the messages of the known full-length frames in order, and counts one error per unknown frame plus one for a bad length |
| Decoders.Decoder.Poll | src/io/decoder.hpp:76-97 | spans are decoded and their buffers returned in order, up to the batch size as cast to int |
| Decoders.ToIntIs | src/io/decoder.hpp:84 | the cast of the batch size: in 32-bit signed range, the same modulo 2^32, the same number below 2^31 |
| Pipelines.SentIsDecoded | src/io/decoder.hpp:113-164 | however messages are grouped into spans, the spans decode to the messages in order, without error |
| Pipelines.Pipeline.Turn | src/matching/matching_engine.hpp:111-122 | one turn of decoder, ring and engine with any batch sizes, zero included: no message between socket and engine is lost, duplicated or reordered, and the engine is where the messages it has had, one by one, lead |
| Pipelines.Pipeline.Serve | src/io/decoder.hpp:76-97 | with batch sizes that change from turn to turn, everything on its way is worked off and the engine ends as the reference run over all messages ends |
| Pipelines.EndToEnd | src/io/decoder.hpp:63-97 | Decoder.Poll, the ring and MatchingEngine.Poll driven together: for any grouping into spans, any ring size and any batch sizes the engine ends with the state and the reports of the messages sent, in order |
| Buffers.BuffersCirculate | src/io/uring_receiver.hpp:200-283 | in every run of receiver, kernel and decoder each of the 64 buffers is in exactly one place, armed exactly when on the kernel's side; a buffer queued, decoded or just returned is not armed; raw queue, return queue and submission ring are never full; and the decoder reads the delivered data in order and unaltered |
| Buffers.StepKeeps | src/io/uring_receiver.hpp:200-283 | every single step keeps ownership, flags and data |
| Buffers.PendingIsSafe | src/io/uring_receiver.hpp:257-262 | data the decoder has not read lies in no buffer the kernel is working on |
| Buffers.ArmKeeps | src/io/uring_receiver.hpp:209-236 | arming a buffer the receiver holds never fails: it was not armed, there is room, its entry is queued, its flag set, no error counted |
| Buffers.DecoderTurn | src/io/decoder.hpp:84-94 | when data is queued the decoder reads the oldest delivered data it has not read and hands back its buffer; always possible, nothing else changes |
| Reception.DeliveredIsDecoded | src/io/decoder.hpp:76-97 | in every run what the delivered data decodes to is what was decoded followed by what the data still in the buffers decodes to |
| UringReceivers.UringReceiver.constructor | src/io/uring_receiver.hpp:87-98 | construction reaches the start state all buffer theorems begin in |
| UringReceivers.UringReceiver.ArmAllBuffers | src/io/uring_receiver.hpp:199-207 | arming 64 unarmed buffers and submitting leaves all of them in flight and flagged, without error |
| UringReceivers.UringReceiver.ArmBuf | src/io/uring_receiver.hpp:210-236 | with room in the ring the entry is queued last, the flag set and no error counted; without room only the error is counted and the buffer dropped |
| UringReceivers.UringReceiver.ReclaimBuffers | src/io/uring_receiver.hpp:276-283 | every returned buffer is armed, in order; the guard never skips one and no error is counted |
| UringReceivers.UringReceiver.ProcessCqe | src/io/uring_receiver.hpp:239-273 | data is posted to the raw queue without finding it full, anything else is armed again, and exactly a negative result counts an error |
| UringReceivers.UringReceiver.DrainCompletions | src/io/uring_receiver.hpp:137-147 | the loop ends with an empty queue and has handled, in order, what was there and what the kernel added meanwhile |
| UringReceivers.UringReceiver.Poll | src/io/uring_receiver.hpp:123-148 | returned buffers are re-armed and submitted, every completion is handled, also those that arrive while the queue is drained, and the raw queue grows by exactly the completions that carry data |

## Left out

- Memory-mapped allocation, huge pages, sockets, io_uring set-up, signals and thread start-up: foreign calls.  The kernel is a nondeterministic step.
- src/io/uring_sender.hpp: its slot flags would add only easy members, and no progress claim is made for its spin.
- Weak-memory axioms: release and acquire are publishing stores and possibly stale, coherent loads; slot accesses themselves are sequentially consistent.
- Spin-until-space loops: the queue behind the engine is an append-only log, and no liveness is claimed for threads that wait on each other (`Pipeline.Serve` gives each a turn).
- Timestamps in engine reports, latency, cache-line layout and alignment.
- Wrap-around of the 64-bit statistics counters, and of 64-bit price subtraction on grids wider than 2^63.
- Null-pointer guards of the book functions, and their guards on invalid prices in cancel, reduce and fill: an order that rests always has a valid price, which is proved.
- Behaviour after the caller breaks its duties, i.e. a duplicate resting id or a level sum of 2^32 and more.
- Grids the constructor asserts against (reversed range, tick not positive, range not a multiple of the tick).
- `cancel_order(OrderId)`, sweep spans, depth snapshots and other thin queries: unused by matching or easy.
- Modify semantics beyond what the code does, which is to cancel.
- Reassembly of a frame that reaches across two received spans: the code has none; what is lost is stated by Cuts.
