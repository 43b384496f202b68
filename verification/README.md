# A model of the Nitek exchange and its trading client

Nitek is an exchange with one limit order book per ticker, a market data feed with snapshot
recovery, a trading client that rebuilds the books, and a TCP order gateway. This project models
that chain in Dafny and proves what each part promises to the next.

The files, in the order of the chain:

| file | what it models |
|---|---|
| `Types.dfy`, `Market.dfy` | orders and messages; a book as two lists in price-time order, and what an update does to it |
| `Exchange.dfy` | the matching engine as a function of its requests, and the invariant of its books |
| `ReachableBook.dfy`, `PriceTime.dfy`, `LifeCycle.dfy` | what every reachable book satisfies; greedy price-time matching; the life of an order in its owner's responses |
| `Messages.dfy` | every message of a request and the book after it, written out without the matching loop |
| `Replication.dfy` | clients that apply all updates hold the engine's books |
| `Rings.dfy`, `Levels.dfy`, `LevelBook.dfy` | the linked structure of both order books: rings of levels, rings of orders, the side-less price table, and what becomes of them where prices share a slot |
| `PriceSlots.dfy` | when the price table's modulo index is right |
| `PoolRoom.dfy` | exactly when a request overruns a book's pools |
| `MatchingBook.dfy` | the exchange's book in place, with its client table and matching loop |
| `BestOffer.dfy`, `ClientBook.dfy` | a client's book in place, with its id table and kept best prices |
| `Mirror.dfy` | both linked books in lockstep over whole runs |
| `Synthesizer.dfy`, `Snapshots.dfy`, `SnapshotFeed.dfy` | the snapshot synthesizer, why its snapshots rebuild queues, and a linked client book that starts from one |
| `Consumer.dfy`, `Recovery.dfy`, `RecoveryEnds.dfy` | the client's loss recovery, its safety, and that it ends |
| `GuardedRecovery.dfy`, `SnapshotMixing.dfy` | the comparison of frames that recovery leaves out, and what happens without it |
| `EndToEnd.dfy` | from requests to a client behind a lossy feed |
| `SpscQueue.dfy`, `Publisher.dfy`, `WireFeed.dfy` | the queue between threads over all interleavings, the publisher that reads a slot twice, and the engine's feed through both |
| `MemPool.dfy` | the block allocator, and what it means that a pool houses a set of nodes |
| `Position.dfy` | positions and profit against a cash ledger |
| `Codec.dfy`, `Framing.dfy`, `Gateway.dfy`, `GatewayNodes.dfy` | the order gateway: records, stream cutting, sequence numbers, both ends in place |
| `Respondents.dfy` | every response finds its client's socket |
| `OrderSlots.dfy` | the client's order slots, risk check and position limit, against any exchange that keeps an order's life cycle |
| `Quoting.dfy` | what a quote does to a slot and which orders pass the risk check, written out; where repeating a quote ends |
| `Desk.dfy` | the same against the matching engine itself, among other clients |

Each part that the source updates in place is a class whose methods are proved equal to a function
of the old state; what the source promises is then proved about that function. An unused message
field, which the source fills with the largest value of its type, is a field its constructor does
not have. The preconditions of the linked books are not empty promises: `Mirrors.RunFresh` builds
both books with their constructors and takes them through any run. Where the source's process exits
because a pool is full, a method returns `false`, and its contract says exactly when.

## What is assumed

- An order that comes to rest finds, after matching, no other live price in its slot of the price
  table. `PriceSlots.QueueBySlotProper` shows that the book is right exactly then, and
  `LevelBooks.LevelBook.AddOrder` what the linked book does otherwise. Prices may be negative: the source's unsigned `%` by a power of two
  agrees with Dafny's.
- A client does not reuse an order id while that order is live (`Admissible`), and ids are within
  their tables.
- A writer of the queue starts only below capacity, and keeps one block spare where the reader looks
  twice. The source checks neither; both are shown to be necessary.
- Snapshot messages keep one of two promises: they arrive in turn, each a first message or of the
  snapshot that is buffered (`Recovery.RunSafe`); or they are of no older snapshot than before, and a
  last frame that closes the buffer names the same update as its first
  (`GuardedRecovery.GuardedRunSafe`). A receiver can check the frames, and the source does not:
  `SnapshotMixing.MixedUnsafe` shows that recovery is unsafe without either promise.
- The server's tables have an entry for every client id that arrives (`Named`).
- Pointer tables start null. Two have no initialiser in the source
  (`source/nitek/exchange/orders/ome_order_book.h:79`,
  `source/nitek/exchange/data/snapshot_synthesizer.h:76`).
- A client's requests reach the engine in order, and so do its responses. `OrderSlots` assumes
  nothing more of an exchange than an order's life cycle; `Desk` puts the engine in its place.

## Where the source does less than one might expect

- Clearing a client's book leaves the price table as it was, so a book that was not empty is broken
  by a CLEAR (`LevelBooks.LevelBook.Drop`, `ClientBooks.ClientBook.ClearEntireBook`). Recovery is
  therefore proved of the lists of orders, and of linked books only from a fresh start.
- The kept best prices miss the first order of an empty side and a CLEAR (`BestOffer.KeptBest`): a
  side's is wrong from its first order until an update touches it (`BestOffer.BestSinceTouched`).
- A book with `n` slots has `n` level blocks, of which `n - 1` can be used: the process exits on
  the `n`-th level, for which the price table still has room (`PoolRoom.OverrunIff`,
  `Mirrors.SecondLevelOverruns`).
- The snapshot synthesizer keeps the orders of all tickers in one pool of as many blocks as a single
  ticker has ids: the process exits on the ADD that makes as many orders rest over all tickers, where
  every book may still have room (`EndToEnd.SynthesizerLasts`, `EndToEnd.SharedPoolOverruns`).
- The server indexes its tables by the client id of a request without checking it
  (`source/nitek/exchange/networking/order_gateway_server.h:85`). What is proved of the gateway holds
  while every client id that arrives is below the tables' size.
- Recovery does not compare the update named by a snapshot's first frame with the one named by its
  last (`GuardedRecovery.GuardIff`).
- The publisher reads a queue slot after releasing it (`Publisher.SynthesizerFollowsWire`).
- The risk check converts an unsigned size to a signed one; the position limit holds in every run
  exactly when the sizes configured leave no room to wrap (`OrderSlots.LimitedIff`).
- An order for quantity 0 is accepted but never rests, and a cancel of it leaves its slot waiting for
  ever (`OrderSlots.WaitsIffNothing`, `OrderSlots.QuietWaitsForEver`).

## Model

| member | source | states |
|---|---|---|
| `ReachableBook.ProcessSound` | source/nitek/exchange/orders/ome_order_book.cpp:27-92 | after every `add` and `cancel` the book is again sound: both sides strictly by price then arrival, quantities positive, no id or owner twice, best bid below best ask |
| `ReachableBook.FindMatchSound` | source/nitek/exchange/orders/ome_order_book.cpp:145-177 | matching stops exactly when the order is filled or nothing crosses, leaves its own side alone and keeps the book sound |
| `ReachableBook.NextPriorityLast` | source/nitek/exchange/orders/ome_order_book.h:135-142 | what the side-less price table finds is the level of the resting order's own side, and the priority it yields is one above the largest of that level, or 1 where there is none; this rests on the book not being crossed |
| `ReachableBook.RestSound` | source/nitek/exchange/orders/ome_order_book.cpp:39-53 | resting the remainder of an order keeps the book sound, id and priority rising along the queue |
| `PriceTime.GreedyShare` | source/nitek/exchange/orders/ome_order_book.cpp:94-177 | each resting order executes exactly its greedy share of the incoming quantity in (price, arrival) order |
| `PriceTime.GreedyRemains` | source/nitek/exchange/orders/ome_order_book.cpp:145-177 | the incoming order executes the sum of the shares and what remains is the rest of it |
| `PriceTime.GreedyBook` | source/nitek/exchange/orders/ome_order_book.cpp:94-177 | the book after matching is the one the shares leave: filled orders gone, the last one reduced, all else as it was |
| `PriceTime.PriorityRespected` | source/nitek/exchange/orders/ome_order_book.cpp:149-153 | an order trades only if every order ahead of it is filled completely |
| `PriceTime.RestingPrices` | source/nitek/exchange/orders/ome_order_book.cpp:107-127 | every fill report is at the price of a resting order it consumes, never worse than the limit, for more than nothing |
| `LifeCycle.RunConserves` | source/nitek/exchange/orders/ome_order_book.cpp:27-143 | over any run, a ledger that refuses every protocol violation (ACCEPTED first, executed plus remaining equal to the original, nothing after the end) accepts all responses, and the orders it holds live are exactly the resting ones |
| `LifeCycle.RunBalanced` | source/nitek/exchange/orders/ome_order_book.cpp:107-127 | over any run the volumes reported to buyers, to sellers and as TRADE updates are equal |
| `Replication.RunSound` | source/nitek/exchange/orders/order_matching_engine.cpp:46-65 | every book of every run of admissible requests over all tickers is sound |
| `Messages.MatchMessages` | source/nitek/exchange/orders/ome_order_book.cpp:94-177 | all of matching, whatever the sides hold: which orders trade (price within the limit, something left for them, and no later one), both reports and both updates of each trade in order, quantities and priorities written out, what remains, and the book that is left |
| `Messages.NewMessages` | source/nitek/exchange/orders/ome_order_book.cpp:27-54 | all of a new order: ACCEPTED under the next id, those trades, and if anything is left its place behind the prices as good as its own and its ADD with one more than the largest priority at its price |
| `Messages.CancelMessages` | source/nitek/exchange/orders/ome_order_book.cpp:56-92 | an owner's cancel takes exactly that order out, confirms it with what was left of it, and publishes quantity 0 and the order's own priority |
| `Messages.RunMessages` | source/nitek/exchange/orders/ome_order_book.cpp:27-143 | in every run every request adds exactly these messages to the run's, in its own ticker's book, under the id that counts the ticker's new orders; a cancel without a live order is rejected, publishes nothing and changes nothing |
| `Messages.NextIsCounted` | source/nitek/exchange/orders/ome_order_book.h:121-123 | ids are given out one by one: the next is one more than the new orders of the ticker so far |
| `Messages.RestingIsAsked` | source/nitek/exchange/orders/ome_order_book.cpp:27-54 | in every run each resting order has the owner, side, price and id of a new order of the run, and no more than its quantity |
| `Messages.RunSorted` | source/nitek/exchange/orders/ome_order_book.cpp:27-92 | in every run every bid is below every ask, and each side stands by price and then by id and priority, with no id or owner twice |
| `Replication.MatchReplicates` | source/nitek/exchange/orders/ome_order_book.cpp:94-143 | the two updates of one match fit a client's copy and carry it to the engine's book after the match |
| `Replication.FindMatchReplicates` | source/nitek/exchange/orders/ome_order_book.cpp:145-177 | the same for the whole of matching |
| `Replication.ProcessReplicates` | source/nitek/exchange/orders/ome_order_book.cpp:27-92 | the updates of one request fit and carry a client's copy to the engine's new book |
| `Replication.RunReplicates` | source/nitek/exchange/orders/ome_order_book.cpp:27-143 | for every run, fresh clients that apply all updates in order hold the engine's books: same orders, sides, prices, quantities, priorities and queue order |
| `Market.ApplyWellFormed` | source/nitek/client/orders/te_order_book.cpp:18-69 | an update that fits keeps a client's book in price-time order with unique ids |
| `Mirrors.ProcessSmooth` | source/nitek/exchange/orders/ome_order_book.cpp:27-92 | if an order that comes to rest finds, after matching, no other live price in its slot, each update of the request meets what the client's linked book needs (live id on MODIFY and CANCEL, newer id on ADD, no foreign price in its slot, nothing opposite at its price), and folding them gives the engine's book |
| `Mirrors.Feed` | source/nitek/client/orders/te_order_book.cpp:18-69 | a stream of such updates gets through exactly if every ADD finds room in the pools, and then leaves the client's linked book at the fold of the stream and the kept best at its own fold |
| `Mirrors.Mirror` | source/nitek/exchange/orders/ome_order_book.cpp:27-92 | one request served by the exchange's linked book and fed to the client's gets through exactly if there is room in the pools of both, and leaves both valid and equal |
| `Mirrors.RunFresh` | source/nitek/exchange/orders/ome_order_book.cpp:27-143 | from empty linked books, any run of requests gets through exactly if there is room in the pools for each, and then leaves the client's levels and queues equal to the exchange's; the client's kept best of a side is then right exactly when no ADD has started that side from empty since the last update that touched it |
| `Mirrors.SharedSlotServed` | source/nitek/exchange/orders/ome_order_book.cpp:27-54 | two prices that share a slot, but not at the same time, are served: the condition is asked of what is left after matching |
| `Mirrors.ProcessHeld` | source/nitek/client/orders/te_order_book.cpp:25-33 | a client's pools hold what a request sends exactly when pools of the same size would hold it at the exchange |
| `Mirrors.SecondLevelOverruns` | source/nitek/exchange/orders/ome_order_book.h:82-90 | two slots and two level blocks: the table has room for the second price, the pool has no block to spare, and the process exits |
| `PoolRoom.OverrunIff` | source/nitek/exchange/orders/ome_order_book.h:82-90 | while ids last, an order is refused a block exactly when some of it is left to rest, its price has no level, and all but one of the level blocks are taken; the order pool is never the one to overrun |
| `PoolRoom.FewerThanIds` | source/nitek/exchange/orders/ome_order_book.h:90-94 | the orders resting are fewer than the ids given out |
| `PoolRoom.PublicRests` | source/nitek/client/orders/te_order_book.h:78-83 | the public copy of a book takes exactly as many blocks as the book |
| `Rings.InsertLevel` | source/nitek/exchange/orders/ome_order_book.cpp:179-252 | for both sides and any ring size the ring of a sequence becomes the ring of the sequence with the level at its place, and the head changes exactly when the level is best |
| `Rings.FindPlace` | source/nitek/exchange/orders/ome_order_book.cpp:202-222 | the walk ends after at most one circle at the first worse level, or back at the best if there is none |
| `Rings.LinkAfter` | source/nitek/exchange/orders/ome_order_book.cpp:224-232 | linking behind the last level gives the ring with the level appended |
| `Rings.LinkBefore` | source/nitek/exchange/orders/ome_order_book.cpp:233-249 | linking before position `k` gives the ring with the level at `k`; it becomes the head exactly when `k` is 0 |
| `Rings.RemoveLevel` | source/nitek/exchange/orders/ome_order_book.cpp:254-275 | the ring without the level and its new head, null when it was the only one |
| `Rings.AppendOrder` | source/nitek/exchange/orders/ome_order_book.cpp:291-299 | four pointer writes make the ring of `q` the ring of `q` with the order at its end |
| `Rings.UnlinkOrder` | source/nitek/exchange/orders/ome_order_book.cpp:316-325 | the ring without the order, whose own pointers become null |
| `LevelBooks.LevelBook.AddOrder` | source/nitek/exchange/orders/ome_order_book.cpp:281-303 | it fails exactly where a new level overruns the level pool; otherwise the rings of both sides become what `QueueBySlot` says, whatever level is in the slot, and the book stays valid exactly if that level was the order's own, its side then being the side with the order placed in price-time order; no other quantity changes |
| `LevelBooks.LevelBook.AddToLevel` | source/nitek/exchange/orders/ome_order_book.cpp:291-299 | the append to the level found: with a level of another price or side the order joins that level's ring, and the book is no longer valid; with its own, it is placed |
| `LevelBooks.LevelBook.NewOrder` | source/nitek/exchange/orders/ome_order_book.cpp:41-44 | an order's block comes from the order pool and is no other order's; null exactly where that overruns the pool |
| `LevelBooks.LevelBook.AddNewLevel` | source/nitek/exchange/orders/ome_order_book.cpp:283-290 | a one-order level in a block no other level has; it fails exactly where that overruns the pool |
| `LevelBooks.LevelBook.LevelRoom` | source/nitek/exchange/orders/ome_order_book.h:82-82 | the level pool has room exactly while two more blocks than the levels of both sides fit in it |
| `LevelBooks.LevelBook.BlocksInUse` | source/nitek/exchange/orders/ome_order_book.h:82-90 | the pools' used blocks are as many as the levels of both sides and as the orders; with `Pooled`, kept by every operation, they are theirs, one each |
| `LevelBooks.LevelBook.AddPriceLevel` | source/nitek/exchange/orders/ome_order_book.cpp:179-252 | a new level joins its ring and the price table at its place |
| `LevelBooks.LevelBook.RemovePriceLevel` | source/nitek/exchange/orders/ome_order_book.cpp:254-279 | the level leaves its ring and the table, its block goes back to the pool, and its orders leave the book |
| `LevelBooks.LevelBook.RemoveOrder` | source/nitek/exchange/orders/ome_order_book.cpp:305-330 | a valid book stays valid and exactly the order's entry leaves its side, the level with it when it was the last; their blocks go back to the pools, which never refuse them |
| `LevelBooks.LevelBook.SetQty` | source/nitek/exchange/orders/ome_order_book.cpp:99-102 | reducing an order in place changes exactly its entry of its side |
| `LevelBooks.LevelBook.FreeLevels` | source/nitek/client/orders/te_order_book.cpp:79-83 | the walk around a side's ring gives back each level's block exactly once |
| `LevelBooks.LevelBook.Drop` | source/nitek/client/orders/te_order_book.cpp:79-92 | clearing gives every level back and empties both sides but not the price table: the book is valid again exactly when it was empty before |
| `LevelBooks.LevelBook.TableAgrees` | source/nitek/exchange/orders/ome_order_book.h:147-156 | the table entry of a price is null when neither side has the price, and otherwise the level that holds all of that price's queue, last order before first |
| `LevelBooks.LevelBook.LevelFits` | source/nitek/exchange/orders/ome_order_book.h:147-156 | with no foreign price in its slot and nothing opposite at its price, the level found for an order is of its own price and side |
| `Levels.OldLevelPlaces` | source/nitek/exchange/orders/ome_order_book.cpp:291-299 | appending to the level of its price puts an order in price-time place |
| `Levels.NewLevelPlaces` | source/nitek/exchange/orders/ome_order_book.cpp:283-290 | a one-order level at its place puts the order in price-time place |
| `PriceSlots.QueueBySlotProper` | source/nitek/exchange/orders/ome_order_book.cpp:281-303 | queueing by `price % MAX_PRICE_LEVELS` keeps levels uniform and sorted exactly when whatever is live in the slot has the order's price and side |
| `PriceSlots.QueueBySlotPlaces` | source/nitek/exchange/orders/ome_order_book.cpp:281-303 | in that case the order lands where price-time order puts it |
| `PriceSlots.QueueBySlotOnly` | source/nitek/exchange/orders/ome_order_book.cpp:281-303 | a side has one decomposition into levels: proper ladders that show the order in its place are those `QueueBySlot` gives |
| `LevelBooks.ValidProper` | source/nitek/exchange/orders/ome_order_book.h:147-156 | a valid book's rings are proper ladders and show its view |
| `PriceSlots.CollisionExample` | source/nitek/exchange/orders/ome_order_book.h:147-149 | with 256 slots a bid at 356 is queued behind the bids at 100 |
| `MatchingBooks.MatchingBook.Add` | source/nitek/exchange/orders/ome_order_book.cpp:27-54 | for an order that, if it comes to rest, has its ids in range and after matching no other live price in its slot: it fails exactly where a pool overruns; otherwise book, responses and updates become what the pure engine says, in order, and the client table again holds exactly the live orders |
| `MatchingBooks.MatchingBook.Cancel` | source/nitek/exchange/orders/ome_order_book.cpp:56-92 | the same for cancels, rejection included |
| `MatchingBooks.MatchingBook.Match` | source/nitek/exchange/orders/ome_order_book.cpp:94-143 | one trade: quantities, both responses, TRADE and then CANCEL or MODIFY, and the unlinking of a filled order |
| `MatchingBooks.MatchingBook.FindMatch` | source/nitek/exchange/orders/ome_order_book.cpp:145-177 | the loop ends and equals the pure matching; it never needs a node the book did not have |
| `MatchingBooks.MatchingBook.GetNextPriority` | source/nitek/exchange/orders/ome_order_book.h:135-142 | one more than the priority of the last order of the level in the price's slot, or 1; with a level of the price itself, the pure engine's priority |
| `MatchingBooks.MatchingBook.AddOrderToBook` | source/nitek/exchange/orders/ome_order_book.cpp:281-303 | rests an order by slot and enters it in the client table, which again holds exactly the live orders; all stays valid exactly if the level found was the order's own; it fails exactly where a new level overruns the pool |
| `MatchingBooks.MatchingBook.RestRemainder` | source/nitek/exchange/orders/ome_order_book.cpp:39-53 | the remainder rests with the next priority and is announced; it fails exactly when a pool has no block to spare |
| `MatchingBooks.MatchingBook.Remove` | source/nitek/exchange/orders/ome_order_book.cpp:305-330 | takes an order out of levels and client table |
| `ReachableBook.LocateOwned` | source/nitek/exchange/orders/ome_order_book.cpp:60-67 | in a sound book a client's order id leads to exactly one order |
| `MatchingBooks.FindMatchSlots` | source/nitek/exchange/orders/ome_order_book.cpp:145-177 | matching brings no new price into the book, so a slot free before matching is free after |
| `ClientBooks.ClientBook.OnMarketUpdate` | source/nitek/client/orders/te_order_book.cpp:18-69 | it fails exactly for an ADD that finds no room in a pool; otherwise levels become what the update says, the kept best what the two flags say, and the book stays valid except after a CLEAR of a book that was not empty |
| `ClientBooks.ClientBook.AddOrder` | source/nitek/client/orders/te_order_book.cpp:26-33 | ADD: the order in price-time place and in the id table; it fails exactly where a pool overruns |
| `ClientBooks.ClientBook.CancelOrder` | source/nitek/client/orders/te_order_book.cpp:157-184 | CANCEL: the order out of levels and id table |
| `ClientBooks.ClientBook.ModifyOrder` | source/nitek/client/orders/te_order_book.cpp:34-39 | MODIFY: the live order's quantity, in place |
| `ClientBooks.ClientBook.UpdateBbo` | source/nitek/client/orders/te_order_book.cpp:98-129 | each flagged side becomes best price and total quantity of the best level, or invalid when the side is empty |
| `ClientBooks.ClientBook.Summed` | source/nitek/client/orders/te_order_book.cpp:103-107 | the walk around the ring of the best level sums its whole queue |
| `ClientBooks.ClientBook.ClearEntireBook` | source/nitek/client/orders/te_order_book.cpp:71-92 | every order and level is given back to its pool, sides and id table are empty; the book is valid again exactly when it was empty before |
| `ClientBooks.ClientBook.FreeOrders` | source/nitek/client/orders/te_order_book.cpp:73-75 | the walk over the id table gives back each order's block exactly once |
| `BestOffer.KeptBest` | source/nitek/client/orders/te_order_book.cpp:18-69 | each side by itself, whatever is kept for the other: a kept best that is right is right after an update exactly when the update neither gives the side its first order nor clears orders of it |
| `BestOffer.BestSinceTouched` | source/nitek/client/orders/te_order_book.cpp:18-69 | from a new book and any stream of the engine's updates: the kept best of a side is right exactly when no ADD has started the side from empty since the last update that touched it |
| `BestOffer.TrackedBest` | source/nitek/client/orders/te_order_book.cpp:18-69 | the same with CLEARs: right exactly when the side's mark, computed from the updates, is fresh |
| `BestOffer.BestMeans` | source/nitek/client/orders/te_order_book.cpp:98-129 | the best of an ordered side is at the price of one of its orders, no order's price is better, and its quantity is the sum over all orders at that price |
| `BestOffer.BestPlaced` | source/nitek/client/orders/te_order_book.cpp:26-33 | placing an order at the best price adds exactly its quantity to the best; at a better price it is the best by itself |
| `BestOffer.BestReduced` | source/nitek/client/orders/te_order_book.cpp:34-39 | changing an order at the best price changes the best quantity by exactly the difference |
| `BestOffer.BestRemoved` | source/nitek/client/orders/te_order_book.cpp:40-45 | removing one of several orders at the best price takes exactly its quantity off the best |
| `Snapshots.SynthesizerAgrees` | source/nitek/exchange/data/snapshot_synthesizer.cpp:55-97 | on a legal stream numbered without gaps the only ASSERT of the synthesizer that can fail is the overrun of its pool, and it fails exactly if at some point, over all tickers, as many orders rest as one ticker has ids; until then the table holds exactly the market's resting orders |
| `Snapshots.TableCount` | source/nitek/exchange/data/snapshot_synthesizer.cpp:55-97 | the table has as many entries, each a block of the one pool, as orders rest over all tickers |
| `Snapshots.SnapshotRebuilds` | source/nitek/exchange/data/snapshot_synthesizer.cpp:99-139 | replaying a snapshot's ascending-id ADDs into any clients rebuilds the market, queue for queue |
| `Snapshots.TickerRebuilds` | source/nitek/exchange/data/snapshot_synthesizer.cpp:108-129 | the same for one ticker, from whatever the client held |
| `SnapshotFeeds.Restart` | source/nitek/client/orders/te_order_book.cpp:18-69 | a new linked client book fed one ticker's part of a snapshot ends valid and equal to the market, queue for queue, exactly if its pools hold the market with a block each to spare |
| `SnapshotFeeds.OrdersSmooth` | source/nitek/exchange/data/snapshot_synthesizer.cpp:108-129 | each ADD of a snapshot meets what the linked book needs, and folding them gives the market's orders up to that id |
| `SnapshotFeeds.OrdersHeld` | source/nitek/exchange/data/snapshot_synthesizer.cpp:108-129 | the pools hold the ADDs up to an id exactly when they hold the market's orders up to it |
| `Synthesizer.SnapshotSynthesizer.AddToSnapshot` | source/nitek/exchange/data/snapshot_synthesizer.cpp:55-97 | the array becomes the stepped table, or an ASSERT, the pool's overrun among them, stops it exactly where the step is undefined; the pool's used blocks stay the stored orders' own, one each |
| `Synthesizer.SnapshotSynthesizer.Store` | source/nitek/exchange/data/snapshot_synthesizer.cpp:62-69 | an ADD gets a block exactly while two more than the stored orders fit in the pool |
| `Synthesizer.SnapshotSynthesizer.Remove` | source/nitek/exchange/data/snapshot_synthesizer.cpp:80-89 | a CANCEL gives the order's block back, which the pool accepts |
| `Synthesizer.SnapshotSynthesizer.PublishSnapshot` | source/nitek/exchange/data/snapshot_synthesizer.cpp:99-139 | the nested loops send the table's snapshot, numbered from 0 |
| `Recovery.RunSafe` | source/nitek/client/data/market_data_consumer.cpp:66-251 | in every run with any loss, repetition and reordering of incrementals, and snapshots that arrive in turn: whenever the consumer is not recovering, what it forwarded replays to the published market up to its sequence number, and is every published update, trades included, since the last snapshot it took (or from the start), after that snapshot's orders |
| `Recovery.NothingLost` | source/nitek/client/data/market_data_consumer.cpp:66-112 | incrementals delivered in order, with any batches at all on the snapshot stream: the consumer never recovers and has forwarded exactly the updates sent, each once and in order |
| `Recovery.TakenIff` | source/nitek/exchange/data/snapshot_synthesizer.cpp:99-139 | the synthesizer can take a snapshot after update `n` exactly if until then, over all tickers, fewer orders rested at any time than one ticker has ids; recovery is proved with the snapshots there are |
| `Recovery.ReceiveSafe` | source/nitek/client/data/market_data_consumer.cpp:78-108 | one message keeps the consumer safe, and nothing is forwarded by a message that leaves it recovering |
| `Recovery.CheckSafe` | source/nitek/client/data/market_data_consumer.cpp:147-251 | recovery ends only with a whole snapshot and gapless incrementals after it |
| `Recovery.ResumeInSync` | source/nitek/client/data/market_data_consumer.cpp:199-251 | snapshot and buffered incrementals forwarded together replay to the market after the last of them |
| `Recovery.CatchUp` | source/nitek/client/data/market_data_consumer.cpp:235-240 | a snapshot taken after update `n` and the updates to `m` carry any client to the market after `m` |
| `Consumer.MarketDataConsumer.RxCallback` | source/nitek/client/data/market_data_consumer.cpp:66-112 | one batch changes mode, sequence number, buffers and output as `Callback` says |
| `Consumer.MarketDataConsumer.QueueUpdate` | source/nitek/client/data/market_data_consumer.cpp:114-131 | a repeated snapshot number discards the older snapshot; then the check |
| `Consumer.MarketDataConsumer.SnapshotSyncCheck` | source/nitek/client/data/market_data_consumer.cpp:147-251 | the check's outcome, early returns included |
| `Consumer.ScanSnapshot` | source/nitek/client/data/market_data_consumer.cpp:163-182 | the scan finds a gap exactly when the buffered numbers are not 0, 1, 2, ...; else it has collected the body |
| `Consumer.ScanIncrementals` | source/nitek/client/data/market_data_consumer.cpp:199-226 | the scan ends at the first missing number and tells whether anything is buffered beyond it |
| `SnapshotMixing.MixedUnsafe` | source/nitek/client/data/market_data_consumer.cpp:147-203 | without a promise about snapshots it fails: of published messages only, head of one snapshot and tail of the next end recovery with a cancelled order in the book and a live one missing |
| `GuardedRecovery.GuardIff` | source/nitek/client/data/market_data_consumer.cpp:147-203 | the comparison left out: a buffer of snapshot messages in order of arrival that a last frame closes is one snapshot exactly when its first and last frame name the same update |
| `GuardedRecovery.GuardedRunSafe` | source/nitek/client/data/market_data_consumer.cpp:66-251 | in every run with any loss, first frames of snapshots included: with that comparison holding whenever a last frame closes the buffer, and snapshots never older than before, a consumer that is not recovering has forwarded the market, and every published update since the last snapshot it took |
| `GuardedRecovery.ReceiveGuarded` | source/nitek/client/data/market_data_consumer.cpp:78-108 | one message keeps that, and nothing is forwarded by a message that leaves the consumer recovering |
| `RecoveryEnds.EndsRecovery` | source/nitek/client/data/market_data_consumer.cpp:147-251 | a snapshot received whole, with incrementals mixed in as they like, ends recovery at its last frame exactly when nothing buffered lies beyond the first missing update after it; the consumer then goes on from that one, and else drops the snapshot and waits for another |
| `RecoveryEnds.Fills` | source/nitek/client/data/market_data_consumer.cpp:114-197 | short of its last frame the snapshot fills the buffer, and nothing is forwarded or dropped |
| `RecoveryEnds.CheckEnds` | source/nitek/client/data/market_data_consumer.cpp:147-251 | of any buffers, sent by whomever: the check ends recovery exactly if the snapshot is numbered from 0 without holes from a first to a last frame and nothing buffered lies beyond the first missing update, and it keeps a snapshot exactly if that has begun so and lacks its last frame |
| `RecoveryEnds.BeginsIff` | source/nitek/client/data/market_data_consumer.cpp:87-98 | out of recovery, a message begins it exactly if it is not numbered as the next one, and is then buffered |
| `RecoveryEnds.IncrementalsKept` | source/nitek/client/data/market_data_consumer.cpp:114-145 | as long as recovery lasts, every incremental since it began is buffered under its number, and nothing is forwarded |
| `RecoveryEnds.SnapshotEndsRecovery` | source/nitek/exchange/data/snapshot_synthesizer.cpp:99-139 | a snapshot as the synthesizer numbers and sends it, delivered whole, ends recovery exactly if nothing buffered lies beyond the first missing update |
| `EndToEnd.RunFeeds` | source/nitek/exchange/data/market_data_publisher.cpp:42-65 | every run of the engine publishes a stream that fits every client that follows it |
| `EndToEnd.SynthesizerLasts` | source/nitek/exchange/data/snapshot_synthesizer.h:76-86 | the synthesizer gets through the stream of a run exactly if after no request, over all tickers, as many orders rest as one ticker has ids |
| `EndToEnd.SharedPoolOverruns` | source/nitek/exchange/data/snapshot_synthesizer.h:76-86 | a run of three orders on two tickers on which every book has room and the synthesizer's pool overruns |
| `EndToEnd.TableIsBook` | source/nitek/exchange/data/snapshot_synthesizer.cpp:55-97 | the synthesizer gets through the updates of the first `k` requests exactly under that condition, and its table then holds exactly the engine's resting orders |
| `EndToEnd.ClientHoldsBook` | source/nitek/client/data/market_data_consumer.cpp:66-251 | from requests to a client behind a lossy feed: not recovering, at the end of request `k`, it holds exactly the engine's books after request `k`, under either promise about snapshots |
| `WireFeeds.WireIsFeed` | source/nitek/exchange/data/market_data_publisher.cpp:42-65 | for every run of the engine and every interleaving in which it writes the run's updates with a block kept spare: the wire is the beginning of the feed, numbered, and the synthesizer stands where the feed's table stands after what it was given, or has exited there |
| `WireFeeds.TakesIff` | source/nitek/exchange/data/snapshot_synthesizer.cpp:55-97 | over any numbered messages whatever, the synthesizer gets through exactly if each carries the next number and adds an order that is not there while two more fit, or changes one that is there on the same side; the table then holds each order as last added and changed, and nothing cancelled |
| `SpscQueue.EveryRun` | source/llbase/lfqueue.h:46-77 | in every interleaving of the atomic steps: reads are a prefix of writes, the ASSERT holds, at most a capacity is unread, and with a spare block second reads repeat the first |
| `SpscQueue.StepInv` | source/llbase/lfqueue.h:46-77 | every step of either thread keeps indices, count and slot contents in their relation |
| `SpscQueue.OrderedIffGuarded` | source/llbase/lfqueue.h:46-55 | the reader gets what was written, in order, in all interleavings exactly when a writer starts only below capacity |
| `SpscQueue.LateReadIffSpare` | source/nitek/exchange/data/market_data_publisher.cpp:47-62 | with guarded writes, reading a released slot again is safe in all interleavings exactly when a block is kept spare |
| `SpscQueue.Overrun` | source/llbase/lfqueue.h:46-55 | a full queue written once more gives the reader the last value first |
| `SpscQueue.LfQueue.CountDown` | source/llbase/lfqueue.h:67-73 | the asserted block is there whenever a reader releases one |
| `SpscQueue.LfQueue.ReadAt` | source/llbase/lfqueue.h:61-63 | the block read is the oldest not yet read |
| `SpscQueue.LfQueue.CountUp` | source/llbase/lfqueue.h:52-55 | from here on the written value is the newest to read |
| `SpscQueue.LfQueue.ReadAgain` | source/nitek/exchange/data/market_data_publisher.cpp:56-61 | with a spare block a released block still holds its value |
| `Publisher.SynthesizerFollowsWire` | source/nitek/exchange/data/market_data_publisher.cpp:47-62 | what the synthesizer is given is a prefix of what is on the wire, number and update, in all interleavings exactly when a block is kept spare |
| `Publisher.MarketDataPublisher.Drain` | source/nitek/exchange/data/market_data_publisher.cpp:42-65 | the loop sends every queued update with consecutive numbers, the same to wire and synthesizer |
| `Pools.AllocIff` | source/llbase/mempool.h:53-64 | `allocate` succeeds exactly when a second block is free, and hands out one that is not live |
| `Pools.NextIsNearest` | source/llbase/mempool.h:53-117 | a successful allocation leaves every other flag alone and names as next the nearest other free block round the circle |
| `Pools.Capacity` | source/llbase/mempool.h:53-117 | it succeeds exactly while at least two blocks are free: usable capacity is one less than the size |
| `Pools.RunExact` | source/llbase/mempool.h:53-117 | over any run of allocations and frees the used blocks are those handed out and not given back, and the next index names none of them |
| `Pools.HousedTaken` | source/llbase/mempool.h:53-64 | a pool whose used blocks are exactly those of some nodes, one each, keeps that when a node takes the next block |
| `Pools.HousedGiven` | source/llbase/mempool.h:68-77 | and when a node gives its block back, which the pool accepts |
| `Pools.MemPool.UpdateNextFreeIndex` | source/llbase/mempool.h:101-117 | the circular search ends, at the first free block or with an overrun when there is none |
| `Pools.MemPool.Allocate` | source/llbase/mempool.h:53-64 | object, flag and next index after an allocation |
| `Pools.MemPool.Deallocate` | source/llbase/mempool.h:68-77 | frees exactly a block of the pool that is in use; the two ASSERTs otherwise |
| `Positions.ProfitIsLedger` | source/nitek/client/trading/position_manager.h:57-136 | after any fills and quotes, in any order, total profit is the ledger's cash plus position times the mark: the last fill's price, or the mid of a quote with both prices since |
| `Positions.ProfitAtQuote` | source/nitek/client/trading/position_manager.h:111-136 | after any fills and quotes and then a quote with both prices: twice the profit is twice what was sold for less what was bought for, plus the bid and the ask for each piece still held; the realized part is as before |
| `Positions.ProfitAtFill` | source/nitek/client/trading/position_manager.h:57-101 | after a fill, profit is what was sold for less what was bought for, plus the fill's price for each piece still held |
| `Positions.ProfitIsSums` | source/nitek/client/trading/position_manager.h:57-136 | position, volume and profit after any fills and quotes, as plain sums over the fills |
| `Positions.FillDivides` | source/nitek/client/trading/position_manager.h:57-80 | opening or increasing realizes nothing, reducing keeps the average entry price, and a flip enters at the fill's price |
| `Positions.HalfQuoteIgnored` | source/nitek/client/trading/position_manager.h:114-114 | a quote with a price missing changes nothing |
| `Positions.QuotesRevalue` | source/nitek/client/trading/position_manager.h:111-136 | quotes between fills change the unrealized part only, and it is always the open position at the mark less its cost |
| `Positions.LedgerReconciled` | source/nitek/client/trading/position_manager.h:57-80 | after any fills realized profit is cash plus the cost of the open position, and only the open side has a cost |
| `Positions.PositionIsNet` | source/nitek/client/trading/position_manager.h:57-65 | position and volume are the signed and the plain sum of the fills |
| `Positions.AverageBetween` | source/nitek/client/trading/position_manager.h:57-80 | the average entry price lies between the prices of the fills that opened or increased the position since it was flat or flipped |
| `Positions.ReducingKeepsAverage` | source/nitek/client/trading/position_manager.h:69-76 | a partial reduction keeps the average entry price |
| `Positions.Position.AddFill` | source/nitek/client/trading/position_manager.h:57-101 | the fields after a fill: open, increase, reduce, close or flip |
| `Positions.Position.OnBboUpdate` | source/nitek/client/trading/position_manager.h:111-136 | the fields after a quote |
| `Codec.RequestRoundTrip` | source/nitek/exchange/data/ome_client_request.h:41-104 | the 38-byte record of a request decodes to it, and every 38 bytes are the record of what they decode to |
| `Codec.ResponseRoundTrip` | source/nitek/exchange/data/ome_client_response.h:40-113 | the same for the 50-byte record of a response |
| `Codec.RequestLayout` | source/nitek/exchange/data/ome_client_request.h:41-104 | where each field of a request stands in its 38 bytes: little-endian, signed ones in two's complement |
| `Codec.ResponseLayout` | source/nitek/exchange/data/ome_client_response.h:40-113 | the same for the 50 bytes of a response |
| `Framing.ChunkingInvariant` | source/nitek/exchange/networking/order_gateway_server.h:71-120 | however a stream is cut into receives, the records are those of the whole stream and less than a record is left |
| `Framing.Rejoined` | source/nitek/exchange/networking/order_gateway_server.h:71-120 | records and residue together are the stream |
| `Framing.TcpSocket.Shift` | source/nitek/exchange/networking/order_gateway_server.h:117-119 | the leftover moves to the front; source and destination of the copy do not overlap |
| `Framing.TcpSocket.Receive` | source/llbase/tcp_socket.cpp:28-39 | received bytes are appended to the buffer |
| `Gateway.OnceInOrder` | source/nitek/exchange/networking/order_gateway_server.h:78-115 | whatever arrives on whatever sockets, what is passed on for a client came from one socket and is numbered 1, 2, 3, ... |
| `Gateway.AcceptedIffInOrder` | source/nitek/exchange/networking/order_gateway_server.h:78-115 | all of a client's requests are passed on exactly when they arrive on one socket, numbered in order |
| `Gateway.PassedOnIff` | source/nitek/exchange/networking/order_gateway_server.h:84-115 | whatever arrived before, one more request is passed on exactly if it comes on the socket of its client's first request and its number is one more than the requests passed on for that client |
| `Gateway.RequestsArrive` | source/nitek/client/networking/order_gateway_client.cpp:44-63 | a client's numbered requests, cut anywhere and mixed with other clients', are passed on exactly once, in order |
| `Gateway.ResponsesDelivered` | source/nitek/exchange/networking/order_gateway_server.cpp:52-68 | responses stamped per client and routed by socket are accepted by each client exactly once, in the engine's order |
| `Gateway.ResponsesDecoded` | source/nitek/client/networking/order_gateway_client.cpp:65-102 | responses on the wire, received in any pieces, decode to themselves |
| `Gateway.AcceptedNext` | source/nitek/client/networking/order_gateway_client.cpp:74-97 | whatever arrived before, one more response is accepted exactly if it is for this client and its number is one more than the responses accepted |
| `Gateway.AllAcceptedIff` | source/nitek/client/networking/order_gateway_client.cpp:74-97 | all of a client's responses are accepted exactly if they are numbered 1, 2, 3, ... |
| `GatewayNodes.OrderGatewayServer.RxCallback` | source/nitek/exchange/networking/order_gateway_server.h:64-121 | buffer, socket map, expected numbers and requests passed on after a receive |
| `GatewayNodes.OrderGatewayServer.HandleRequest` | source/nitek/exchange/networking/order_gateway_server.h:84-115 | one request: first socket kept, wrong socket or number skipped |
| `GatewayNodes.OrderGatewayServer.SendResponses` | source/nitek/exchange/networking/order_gateway_server.cpp:52-68 | every socket gets its clients' responses with their numbers, and the counters advance |
| `Respondents.ResponsesReach` | source/nitek/exchange/networking/order_gateway_server.cpp:52-68 | over every run of gateway and engine: a response is to a client the gateway knows, by the socket that client's requests came from |
| `Respondents.AlwaysReachable` | source/nitek/exchange/networking/order_gateway_server.cpp:59-61 | so the server's ASSERT on a missing socket never fails on the engine's responses |
| `Respondents.RunAnswers` | source/nitek/exchange/orders/ome_order_book.cpp:27-143 | over any run, every response is to the owner of a request of the run |
| `GatewayNodes.OrderGatewayClient.SendRequests` | source/nitek/client/networking/order_gateway_client.cpp:52-61 | requests go out with consecutive numbers |
| `GatewayNodes.OrderGatewayClient.RxCallback` | source/nitek/client/networking/order_gateway_client.cpp:65-102 | buffer, expected number and accepted responses after a receive |
| `OrderSlots.PositionLimited` | source/nitek/client/trading/order_manager.h:61-135 | in every run, fills racing a cancel included: position plus remaining buy and position less remaining sell stay within `position_max`, and so does the position |
| `OrderSlots.StepInv` | source/nitek/client/trading/order_manager.h:61-135 | every step of client or exchange keeps slots, messages under way and live orders in their relation |
| `OrderSlots.RiskSoundIff` | source/nitek/client/trading/risk_manager.h:72-81 | for every unsigned configuration, the check lets through only orders that stay within the limit when filled, exactly when the sizes configured leave the signed conversion no room to wrap or the limit is so large that it refuses every order |
| `Quoting.RiskAnswers` | source/nitek/client/trading/risk_manager.h:72-81 | each answer of the risk check is given in exactly one case, limits written out: size first, then position, then loss; an order is let through only with the profit not below the loss limit |
| `Quoting.ProfitHelps` | source/nitek/client/trading/risk_manager.h:78-81 | a higher profit never turns an order away that was let through, and changes no refusal but the one for loss |
| `OrderSlots.LimitedIff` | source/nitek/client/trading/order_manager.h:61-135 | over whole runs: the position stays within the limit in every run exactly under that condition |
| `OrderSlots.Quiescent` | source/nitek/client/trading/order_manager.h:110-135 | for every configuration, with nothing under way a slot is live exactly as the exchange has it, or has nothing live; it is left waiting for a cancel only after asking for an order of quantity 0 |
| `OrderSlots.WaitsIffNothing` | source/nitek/client/trading/order_manager.h:61-135 | runs that trade one size can leave a slot waiting for a cancel with nothing under way exactly when that size is 0 and the configuration lets orders through; the run is given |
| `OrderSlots.QuietWaitsForEver` | source/nitek/client/trading/order_manager.h:61-135 | such a slot is the same after any further steps |
| `TradingDesk.DeskLimited` | source/nitek/client/trading/order_manager.h:61-135 | the same limit against the engine itself, in any interleaving with other clients' requests |
| `TradingDesk.StepGood` | source/nitek/exchange/orders/ome_order_book.cpp:27-143 | every step of the client and of the engine, our own and others' requests included, keeps a sound book with at most one order of ours a side and a desk whose slots, messages and replies fit it |
| `TradingDesk.SlotsAreResting` | source/nitek/client/trading/order_manager.h:110-135 | the client's one resting order on a side is the one its slot names, at the price the slot was quoted for it |
| `TradingDesk.PositionIsExecuted` | source/nitek/client/trading/order_manager.h:61-135 | the position, with the fills still on their way, is what the engine has reported as executed of the client's orders, bought less sold |
| `TradingDesk.FindMatchSeen` | source/nitek/exchange/orders/ome_order_book.cpp:94-177 | matching looks to a client like fills of its live orders, as taker and as maker, self-trades included |
| `TradingDesk.OwnCancelServed` | source/nitek/exchange/orders/ome_order_book.cpp:56-92 | what the engine finds by owner is what an exchange would find by side and id, and it answers alike |
| `Quoting.Quoted` | source/nitek/client/trading/order_manager.h:61-91 | the whole effect of a quote on a slot in any state: a live order stays live exactly if quoted at its own price, and otherwise exactly one CANCEL of its id is sent; a NEW carries the quoted price and quantity |
| `Quoting.SentForReason` | source/nitek/client/trading/order_manager.h:61-91 | in every run: every NEW carries the price and quantity of a quote made while nothing was out, within the size limit and with the profit not below the loss limit; every CANCEL is for the live order, quoted at another price |
| `Quoting.SlotIsLastSent` | source/nitek/client/trading/order_manager.h:61-135 | in every run a slot has the id and the price of the last order sent for its side |
| `Quoting.QuoteSettles` | source/nitek/client/trading/order_manager.h:61-135 | from any quiet state of any run, two or more rounds of one allowed quote, each served and answered, end with that order live here and at the exchange, exactly unless the slot waits for the cancel of an order for nothing or is about to; an order already there is left alone |
| `Quoting.PositionIsFilled` | source/nitek/client/trading/order_manager.h:61-135 | in every run the position, with the replies under way counted in, is what the exchange has filled, bought less sold |
| `OrderSlots.OrderManager.ManageOrder` | source/nitek/client/trading/order_manager.h:61-91 | slot, message and next id after managing a slot |
| `OrderSlots.OrderManager.OnOrderResponse` | source/nitek/client/trading/order_manager.h:110-135 | the slot of the response's side after a response, the other untouched |

## Left out

- Mirrors.RunFresh: starts from fresh books only, because a CLEAR leaves the price table stale; the allocator inside the books is the function `Pools.Alloc`, which `Pools.MemPool` computes in place.
- Gateway.OnceInOrder: asks that client ids are within the tables; outside them the source reads and writes beyond its arrays.
- Gateway.AcceptedIffInOrder: the same.
- GatewayNodes.OrderGatewayServer.RxCallback: the same.
- GatewayNodes.OrderGatewayServer.HandleRequest: the same.
- ClientBooks.ClientBook.OnMarketUpdate: the callbacks to the trading engine after an update are not modelled.
- LevelBooks.LevelBook.AddOrder: what the source does to a book after a collision is not followed further.
- MatchingBooks.MatchingBook.Add: asks that what comes to rest finds no other live price in its slot; `AddOrderToBook` says what happens otherwise.
- Positions.ProfitIsLedger: amounts are reals, so rounding of `double` is not modelled, nor overflow of the 32-bit position.
- Publisher.MarketDataPublisher.Drain: the engine pauses while the loop runs; the interleavings are in `SpscQueue`, `Publisher.SynthesizerFollowsWire` and `WireFeeds.WireIsFeed`.
- OrderSlots.RiskSoundIff: the product of a side and the most negative 32-bit value, which overflows in the source, is a plain integer here.
- Recovery.RunSafe: datagrams carry whole records; a partial record left in the buffer of a multicast socket is not modelled.
- Integer widths elsewhere: quantities, sequence numbers, order ids and priorities are unbounded.
- Messages with an invalid side or type.
- Sockets, multicast groups, epoll, threads, clocks and start and stop code; TCP is an ordered byte stream in arbitrary pieces, so a send that the kernel takes only in part (`source/llbase/tcp_socket.cpp:57-64`) is not modelled.
- The overflow ASSERT of the transmit buffer.
- The logger and all text output.
- FIFOSequencer: it sorts one batch whose requests share a receive time, by a sort that is not stable.
- FeatureEngine and MarketMaker: short floating-point formulas without state.
- `OrderManager::manage_orders` works on copies of the slots; `manage_order` is modelled on the slot itself.
- `TradingEngine::run` calls the callback rather than `on_order_response`; a response is modelled as handled by `on_order_response`.
- The tables' sizes (256 price levels, 8 tickers and so on) are parameters.
- The id of the ticker a book is assigned to, which the source stores and does not use.
