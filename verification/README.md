# Exchange and trading client

A Dafny model of an exchange and a trading client, with proofs. It follows one order through the whole system: the
client's order manager decides to send it, the wire carries it, the matching engine trades it on a linked order book, the
market data path publishes what happened, and the client rebuilds the book and keeps its position. `dafny verify
dfyconfig.toml` checks everything.

The layers, bottom up:

- `Types`, `PriceTime`: messages and limits; the order book as a value, two sequences of orders in price-time order.
- `Priority`: price-time priority said outright, and why greedy matching is the only way to keep it.
- `Rings`, `LinkedLevels`, `LinkedBook`: the book both programs keep in place, two circular rings of price levels with a
  circular queue of orders each and one price index, as classes over mutable nodes. Its `Valid` ties every pointer to the
  sorted book, so a method's contract says what it does to that book. The exchange and the client repeat this code and
  differ only in the scan that places a new level; both scans are modelled and meet one contract.
- `Matching`, `ExchangeBook`: what a request does to the sorted book and which messages it sends; `MEOrderBook`, whose
  methods have exactly that effect on the linked book.
- `Runs`, `Conservation`, `Sums`: whole runs of requests over all books; nothing is ever crossed and no quantity is lost.
- `MatchingEngine`: the engine over its eight linked books; whole runs of it are runs on values.
- `Replication`, `Feed`, `Rebuild`, `ClientBook`: updates as edits of a book; replaying them gives the exchange's book; the
  client's `MarketOrderBook` does so in place and keeps its best bid and offer.
- `Snapshots`, `Consumer`, `Recovery`, `SnapshotGuard`, `MixedSnapshots`, `ReorderedSnapshots`: publisher, synthesizer and
  consumer, recovery over a network that loses, repeats and reorders increments and loses snapshot messages, and exactly
  which snapshots put together from several cycles are right.
- `OrderManager`, `OrderProtocol`, `EngineContract`, `EndToEnd`, `PositionKeeper`, `TradeEngine`: the client's orders over
  asynchronous channels, the position limit in every interleaving, the proof that the matching engine keeps the contract the
  client relies on, and profit as cash.
- `Framing`, `Storage`: the byte stream between gateway and server, the memory pool and the queue between threads.

Promises that turned out not to hold as stated are kept as the code has them, with the exact condition or a run that
breaks them: the best bid and offer after the first order of an empty side (`AccurateUnlessFirst`, `AccurateOver`) and after
CLEAR (`AccurateAfterClear`), CLEAR on a book in use (`LinkedBook.Clear`), prices that share an index slot (`IndexExact`,
`LinkedBook.AddOrder`, `MEOrderBook.Add`), a client order id used twice (`AddKeepsGood`, `MEOrderBook.Add`), a pool that
refuses although it has free blocks (`Allocate`, `RefusesWithFreeBlock`), the queue after one round (`PastTheEnd`,
`OverrunIsReached`), a read that goes on after the snapshot that ended recovery (`ReadGoesOn`), and a snapshot pieced
together from several cycles (`MixedCyclesMislead`, `RestoresOnlyItsCycle`, `AcceptedRestoresIff`, `ReorderedButRight`).

Prices, quantities and sequence numbers are unbounded integers and profit is in reals; where the source's width or rounding
shows, the section "Left out" says so.

## Model

| member | source | states |
|---|---|---|
| `PriceTime.InsertKeepsOrder` | Exchange Matching Engine /EXCHANGE/matcher/me_order_book.h:210-228 | an order that arrives after everything at its price, put where its price belongs, keeps a side in price-time order |
| `PriceTime.InPriceTimeOrder` | Exchange Matching Engine /EXCHANGE/matcher/me_order_book.h:169-228 | a well-formed book in plain figures: bids from the highest price down and asks from the lowest up, the older order first at one price, every bid below every ask |
| `PriceTime.PricesDisjoint` | Exchange Matching Engine /EXCHANGE/matcher/me_order_book.cpp:66-121 | in a well-formed book every bid is below every ask, not only the best ones |
| `PriceTime.NextPriorityIs` | Exchange Matching Engine /EXCHANGE/matcher/me_order_book.h:169-175 | the next priority at a price is one more than that of the last order there, or 1 if there is none |
| `PriceTime.LastPriority` | Exchange Matching Engine /EXCHANGE/matcher/me_order_book.h:169-175 | the next priority at a price is above that of every order resting there |
| `PricePriority.GreedyIsPriceTime` | Exchange Matching Engine /EXCHANGE/matcher/me_order_book.cpp:63-125 | greedy matching is price-time priority: a share-out takes only prices the limit allows, gives nobody anything while a better or as good and older order has something left, and leaves nothing tradable out, if and only if it is the one matching computes |
| `PricePriority.GreedyLeavesRemainder` | Exchange Matching Engine /EXCHANGE/matcher/me_order_book.cpp:27-59 | after matching the side is what the share-out leaves, order by order, and nothing of the quantity is lost |
| `PricePriority.TradesAtPassivePrice` | Exchange Matching Engine /EXCHANGE/matcher/me_order_book.cpp:27-59 | every fill reported and every trade shown is at the price of an order that rested on the other side, at most the limit of a buy and at least the limit of a sale |
| `PricePriority.SharesReported` | Exchange Matching Engine /EXCHANGE/matcher/me_order_book.cpp:27-150 | everything a new order makes the book report, said of the fair share-out alone: the acceptance, for each trade both reports and both market updates with prices, quantities and what is left, and last the rest that joins the book |
| `Rings.DropLevelDescribes` | Exchange Matching Engine /EXCHANGE/matcher/me_order_book.h:147-167 | taking a level out of its ring leaves exactly the rings of the book without that order |
| `Rings.DropOrderDescribes` | Exchange Matching Engine /EXCHANGE/matcher/me_order_book.h:187-207 | taking an order out of its queue, and moving the level's first order on, leaves exactly the rings of the book without that order |
| `Rings.AppendOrderDescribes` | Exchange Matching Engine /EXCHANGE/matcher/me_order_book.h:218-225 | linking an order behind the last of its level gives exactly the rings of the book with that order behind its price |
| `Rings.AddLevelDescribes` | Exchange Matching Engine /EXCHANGE/matcher/me_order_book.h:124-142 | linking a new level between its neighbours gives exactly the rings of the book with that order at its insert position |
| `LinkedBooks.LinkedBook.RemoveOrdersAtPrice` | Exchange Matching Engine /EXCHANGE/matcher/me_order_book.h:147-167 | a level leaves its ring, the index and, if it was best, the head |
| `LinkedBooks.LinkedBook.RemoveOrder` | Exchange Matching Engine /EXCHANGE/matcher/me_order_book.h:187-207 | an order leaves the book: the structure stays whole and the book is the old one without that order, whether or not its level goes with it |
| `LinkedBooks.LinkedBook.ScanExchange` | Exchange Matching Engine /EXCHANGE/matcher/me_order_book.h:105-122 | the exchange's scan stops at the level the new one goes before, or after, in price order |
| `LinkedBooks.LinkedBook.ScanClient` | trading/strategy/market_order_book.h:118-136 | the client's different scan finds the same neighbours as the exchange's |
| `LinkedBooks.LinkedBook.InsertLevel` | Exchange Matching Engine /EXCHANGE/matcher/me_order_book.h:98-143 | whichever scan is used, the level ring gains the new level in price order and the head moves only for a new best price |
| `LinkedBooks.LinkedBook.AddOrdersAtPrice` | Exchange Matching Engine /EXCHANGE/matcher/me_order_book.h:88-144 | a new level enters the index, its ring and, if it is best, the head |
| `LinkedBooks.LinkedBook.AddOrder` | Exchange Matching Engine /EXCHANGE/matcher/me_order_book.h:210-228 | an order joins the end of its level or opens one; the structure stays whole, and the book is the old one with the order at its insert position, if and only if no other price with resting orders shares its index slot; otherwise the order is queued behind the orders of that other price, and no book whatsoever is laid out the way the heap then is |
| `LinkedBooks.LinkedBook.IndexExact` | Exchange Matching Engine /EXCHANGE/matcher/me_order_book.h:78-85 | the index answers correctly for a price if and only if no other price with resting orders shares its slot |
| `LinkedLevels.IndexUnsigned` | Exchange Matching Engine /EXCHANGE/matcher/me_order_book.h:78-79 | the index slot of a price is the remainder of the unsigned 64-bit number it is converted to, negative prices included, so it is always in the table |
| `LinkedLevels.SlotsInWindow` | Exchange Matching Engine /EXCHANGE/matcher/me_order_book.h:78-85 | prices within 256 of each other never share an index slot |
| `LinkedBooks.LinkedBook.Navigate` | Exchange Matching Engine /EXCHANGE/matcher/me_order_book.h:88-228 | every pointer of every order and level leads where the sorted book says: next and previous round each queue, next and previous round each level ring, first order of each level |
| `LinkedBooks.LinkedBook.HeadLeads` | Exchange Matching Engine /EXCHANGE/matcher/me_order_book.h:54-56 | a side's head is the level of its best order, or null for an empty side |
| `LinkedBooks.LinkedBook.RingStep` | Exchange Matching Engine /EXCHANGE/matcher/me_order_book.h:112-120 | going round the level ring visits the levels in price order and comes back to the head after the last |
| `LinkedBooks.LinkedBook.QueueStep` | Exchange Matching Engine /EXCHANGE/matcher/me_order_book.h:219-225 | going round a level's queue visits its orders in arrival order and comes back to the first after the last |
| `LinkedBooks.LinkedBook.TailPriority` | Exchange Matching Engine /EXCHANGE/matcher/me_order_book.h:169-175 | the order before a level's first is its last, so the priority taken there is the next one at that price |
| `LinkedBooks.LinkedBook.Clear` | trading/strategy/market_order_book.cpp:50-71 | after CLEAR the heads are null and the index unchanged, so the book is usable if and only if it was empty before; otherwise no book whatsoever is laid out the way the heap then is |
| `LinkedBooks.LinkedBook.Walk` | Exchange Matching Engine /EXCHANGE/matcher/me_order_book.cpp:181-248 | walking both rings from the head reaches every order of a side, in price-time order |
| `LinkedLevels.JoinsOrOpens` | Exchange Matching Engine /EXCHANGE/matcher/me_order_book.h:210-217 | an order that can be added either joins the end of a level of its own side and price or opens a level no other order is at |
| `Matching.AddKeepsGood` | Exchange Matching Engine /EXCHANGE/matcher/me_order_book.cpp:129-150 | after any accepted order the book is sorted and uncrossed, and every order is owned once and no id reused if and only if nothing left of the order rests under a client order id its client still has an order under |
| `Matching.CancelKeepsGood` | Exchange Matching Engine /EXCHANGE/matcher/me_order_book.cpp:153-179 | after any cancel the book is sorted, uncrossed, every order owned once and no id reused |
| `Matching.RemainderCanRest` | Exchange Matching Engine /EXCHANGE/matcher/me_order_book.cpp:138-145 | what matching leaves of an order can rest: no order crosses it and it is last at its price |
| `Matching.GreedyRest` | Exchange Matching Engine /EXCHANGE/matcher/me_order_book.cpp:68-93 | matching takes whole orders off the front and shrinks at most one; what is left on the other side does not cross |
| `Matching.CancelFinds` | Exchange Matching Engine /EXCHANGE/matcher/me_order_book.cpp:153-179 | a cancel takes out the one order its client owns under that id and reports its side, price and open quantity |
| `Matching.CancelMisses` | Exchange Matching Engine /EXCHANGE/matcher/me_order_book.cpp:163-165 | a cancel of an order its client does not have is rejected and changes nothing |
| `Matching.FillStep` | Exchange Matching Engine /EXCHANGE/matcher/me_order_book.cpp:27-59 | each match brings greedy matching one trade further and adds its two reports and its two market updates |
| `ExchangeBook.MEOrderBook.StateGood` | Exchange Matching Engine /EXCHANGE/matcher/me_order_book.h:46-71 | the pointer structure of a valid book stands for a sorted, uncrossed, consistently owned book |
| `ExchangeBook.MEOrderBook.RemoveOrder` | Exchange Matching Engine /EXCHANGE/matcher/me_order_book.h:187-207 | an order leaves the rings and the client order map together |
| `ExchangeBook.MEOrderBook.AddOrder` | Exchange Matching Engine /EXCHANGE/matcher/me_order_book.h:210-228 | an order enters the rings and the client order map together, and the book stays sound, if and only if no other price shares its index slot and its client has no live order under the same id |
| `ExchangeBook.MEOrderBook.Match` | Exchange Matching Engine /EXCHANGE/matcher/me_order_book.cpp:27-59 | one match: both fill reports, the trade, then a cancel and removal or a modify with what remains |
| `ExchangeBook.MEOrderBook.CheckForMatch` | Exchange Matching Engine /EXCHANGE/matcher/me_order_book.cpp:63-125 | the loop over the linked book trades exactly as greedy matching does: same fills, messages, leaves and remaining book |
| `ExchangeBook.MEOrderBook.GetNextPriority` | Exchange Matching Engine /EXCHANGE/matcher/me_order_book.h:169-175 | the priority is that of the next order at that price on its own side, if no other price shares its index slot, and otherwise the one after the last order of a price that does |
| `ExchangeBook.MEOrderBook.Add` | Exchange Matching Engine /EXCHANGE/matcher/me_order_book.cpp:129-150 | adding an order to the linked book has exactly the effect of adding it to the sorted book, state, responses and updates, and leaves it sound if and only if what is left after matching finds its index slot free of other prices and its client order id not taken |
| `ExchangeBook.MEOrderBook.Cancel` | Exchange Matching Engine /EXCHANGE/matcher/me_order_book.cpp:153-179 | cancelling has exactly the effect of cancelling in the sorted book, rejection included |
| `ExchangeBook.TradedSlots` | Exchange Matching Engine /EXCHANGE/matcher/me_order_book.cpp:138-145 | matching opens no index slot: a slot free of other prices before is free for what is left of the order |
| `Runs.NeverCrossed` | Exchange Matching Engine /EXCHANGE/matcher/me_order_book.cpp:129-150 | in every run, every bid of every book is below every ask |
| `MatchingEngines.RunInWindow` | Exchange Matching Engine /EXCHANGE/matcher/me_order_book.cpp:129-179 | as long as the prices of each ticker's new orders lie in a window of 256 of its own, so does everything that ever rests there, and every new order finds its index slot free of other prices |
| `MatchingEngines.MatchingEngine.ProcessClientRequest` | Exchange Matching Engine /EXCHANGE/matcher/matching_engine.h:32-57 | the book of the request's ticker handles it, the other linked books stay as they are, and what it reports is sent on; the engine stays sound if and only if what is left of a new order finds its index slot free of other prices |
| `MatchingEngines.MatchingEngine.Run` | Exchange Matching Engine /EXCHANGE/matcher/matching_engine.h:78-101 | over whole runs in which every new order finds its index slot free in its turn and ids fit the tables, the eight linked books and both outgoing queues are exactly those of the run on values |
| `Conservation.RestingIsEntry` | Exchange Matching Engine /EXCHANGE/matcher/me_order_book.h:187-228 | the resting quantity counted over a book is that of the order's one entry, or none |
| `Conservation.GreedyConserves` | Exchange Matching Engine /EXCHANGE/matcher/me_order_book.cpp:27-59 | matching moves quantity from resting orders and the aggressor into fills and loses none |
| `Conservation.HandleBalances` | Exchange Matching Engine /EXCHANGE/matcher/matching_engine.h:32-57 | one request balances for every order of every book, and both sides of its trades agree |
| `Conservation.QuantityConserved` | Exchange Matching Engine /EXCHANGE/matcher/me_order_book.cpp:27-179 | in every run: accepted quantity is what was reported filled, plus what was reported cancelled, plus what rests |
| `Conservation.BothSidesTrade` | Exchange Matching Engine /EXCHANGE/matcher/me_order_book.cpp:35-45 | in every run: buyers' fills, sellers' fills and the trades shown to the market add up to the same |
| `Replication.ApplyKeepsWellFormed` | trading/strategy/market_order_book.cpp:24-71 | every acceptable update keeps a book sorted and uncrossed |
| `Replication.FillsReplay` | Exchange Matching Engine /EXCHANGE/matcher/me_order_book.cpp:43-58 | replaying the updates of all matches of an order gives the book after matching |
| `Replication.HandleReplays` | Exchange Matching Engine /EXCHANGE/matcher/matching_engine.h:32-57 | replaying the updates of one request turns the old book into the new one, level by level and queue by queue |
| `Replication.RunReplays` | Exchange Matching Engine /EXCHANGE/matcher/matching_engine.h:78-101 | in every run: replaying all updates of a ticker from an empty book gives the exchange's book |
| `Feed.EngineFeed` | Exchange Matching Engine /EXCHANGE/market_data/market_data_publisher.cpp:15-45 | whatever the engine handles, its updates are each acceptable where they come and describe exactly its books |
| `Feed.BooksWellFormed` | Exchange Matching Engine /EXCHANGE/market_data/snapshot_synthesizer.cpp:29-69 | the books a feed describes are sorted and uncrossed |
| `Feed.EngineIdsBelow` | Exchange Matching Engine /EXCHANGE/market_data/snapshot_synthesizer.cpp:29-69 | as long as no book has handed out more order ids than the tables have places, every order of the feed has one |
| `Rebuild.BelowIdInserts` | trading/strategy/market_order_book.h:205-223 | among orders with smaller ids, the order with the next id joins exactly where it rests among all of them |
| `Rebuild.BelowGrows` | Exchange Matching Engine /EXCHANGE/market_data/snapshot_synthesizer.cpp:94-101 | adding orders in id order grows the book id by id, each add acceptable |
| `ClientBook.MarketOrderBook.AddOrder` | trading/strategy/market_order_book.h:205-223 | an order enters the rings and the id map together, and the book stays sound, if and only if no other price shares its index slot |
| `ClientBook.MarketOrderBook.RemoveOrder` | trading/strategy/market_order_book.h:182-202 | an order leaves the rings and the id map together |
| `ClientBook.MarketOrderBook.LevelTotal` | trading/strategy/market_order_book.h:31-33 | adding up round the best level's queue gives all the quantity at the best price |
| `ClientBook.MarketOrderBook.UpdateBBO` | trading/strategy/market_order_book.h:27-53 | a refreshed side shows its best price and all the quantity there, or no value if the side is empty |
| `ClientBook.MarketOrderBook.OnMarketUpdate` | trading/strategy/market_order_book.cpp:20-86 | one update on the linked book has exactly the effect of the update on the sorted book and refreshes the best bid and offer under the source's guards; only a CLEAR of a book in use breaks the structure |
| `ClientBook.MarketOrderBook.Clear` | trading/strategy/market_order_book.cpp:50-71 | after CLEAR nothing can be reached, and the structure is sound if and only if nothing was there |
| `ClientBook.MarketOrderBook.Follow` | trading/strategy/market_order_book.cpp:20-86 | a client fed a stream that replays to a book ends with that book in its linked structure, and with the best bid and offer of the guarded refreshes, as long as no CLEAR meets a book in use and no order a slot of another price |
| `ClientBook.FollowableInWindow` | trading/strategy/market_order_book.cpp:20-86 | a stream whose prices lie in one window of 256, with CLEAR at most first and on an unused book, is such a stream |
| `ClientBook.AccurateIs` | trading/strategy/market_order_book.h:27-53 | what an accurate best bid and offer says: the highest bid and the lowest ask with the sum of all quantity at that price, and no value where there is no order |
| `ClientBook.AccurateUnlessFirst` | trading/strategy/market_order_book.cpp:21-22 | an accurate best bid and offer stays accurate if and only if the update is not the first order of an empty side |
| `ClientBook.AccurateOver` | trading/strategy/market_order_book.cpp:20-86 | over a whole stream an accurate best bid, or offer, stays accurate if and only if not: its side got a first order, and every update from then on lay below the top |
| `ClientBook.AccurateAfterClear` | trading/strategy/market_order_book.cpp:50-79 | after CLEAR the best bid and offer is accurate if and only if the book was empty |
| `Snapshots.FollowsOn` | Exchange Matching Engine /EXCHANGE/market_data/snapshot_synthesizer.cpp:29-65 | on any update the engine can send no assertion on the stored order fires, and the replica stays exactly the live orders |
| `Snapshots.AssertsWhatRests` | Exchange Matching Engine /EXCHANGE/market_data/snapshot_synthesizer.cpp:29-65 | what is asserted of the stored order holds if and only if an order to be added does not rest yet and one to be modified or cancelled rests on the side named |
| `Snapshots.SnapshotSynthesizer.AddToSnapshot` | Exchange Matching Engine /EXCHANGE/market_data/snapshot_synthesizer.cpp:29-69 | an update is taken in if and only if every assertion holds, and then changes the replica by exactly that update |
| `Snapshots.SnapshotSynthesizer.PublishSnapshot` | Exchange Matching Engine /EXCHANGE/market_data/snapshot_synthesizer.cpp:72-111 | the loops send one full cycle: start marker, for each ticker a clear and its orders by id, end marker, numbered from 0 |
| `Snapshots.SnapshotSynthesizer.Drain` | Exchange Matching Engine /EXCHANGE/market_data/snapshot_synthesizer.cpp:117-124 | on any feed the engine can send within the order ids the table has places for, stamped consecutively, no assertion fires and the replica is the one of the whole feed |
| `Snapshots.SnapshotRebuilds` | Exchange Matching Engine /EXCHANGE/market_data/snapshot_synthesizer.cpp:80-102 | from any book, clear and then the adds of a ticker rebuild the exchange's book, queue order included |
| `Snapshots.MarketDataPublisher.Publish` | Exchange Matching Engine /EXCHANGE/market_data/market_data_publisher.cpp:15-45 | both streams carry every update in order under consecutive numbers from 1 |
| `Consumers.MarketDataConsumer.CollectSnapshot` | trading/market_data/market_data_consumer.cpp:62-86 | the pass over the queued snapshot succeeds if and only if the numbers run from 0 without a gap, and then yields its updates in order |
| `Consumers.MarketDataConsumer.CollectIncrements` | trading/market_data/market_data_consumer.cpp:95-128 | the pass over the queued increments ends at the first number missing after the snapshot and succeeds if and only if nothing lies beyond it |
| `Consumers.MarketDataConsumer.CheckSync` | trading/market_data/market_data_consumer.cpp:47-144 | the whole check, as a function of the state |
| `Consumers.MarketDataConsumer.Queue` | trading/market_data/market_data_consumer.cpp:147-163 | a message is queued, a repeated snapshot number starting the snapshot over, and the check made |
| `Consumers.MarketDataConsumer.RecvCallback` | trading/market_data/market_data_consumer.cpp:166-215 | one read: dropped, forwarded or queued message by message, exactly as the step function says |
| `Consumers.QueueKeepsAssembling` | trading/market_data/market_data_consumer.cpp:47-93 | whatever arrives, after every queued message the snapshot queue is empty or runs from a start marker without a gap and does not end with an end marker |
| `Consumers.LeavesRecovery` | trading/market_data/market_data_consumer.cpp:47-144 | recovery ends if and only if a complete snapshot is continued by the queued increments without a gap |
| `Consumers.KeepsUp` | trading/market_data/market_data_consumer.cpp:166-215 | outside recovery a read of the increments expected next is passed on whole and in order, and a read from the snapshot stream changes nothing |
| `Consumers.LosslessFeed` | trading/market_data/market_data_consumer.cpp:166-215 | however a feed without losses is cut into reads, and whatever is read from the snapshot stream in between, everything is passed on, once and in order |
| `Recovery.TakingInEndsRecovery` | trading/market_data/market_data_consumer.cpp:130-144 | the snapshots of which matching markers are asked are exactly those that end recovery: complete, and continued by the queued increments without a gap |
| `Recovery.AcceptedSnapshot` | trading/market_data/market_data_consumer.cpp:52-93 | a complete queue whose start and end name the same point holds exactly the snapshot of that point, even if pieced together from several cycles |
| `Recovery.CheckKeepsSound` | trading/market_data/market_data_consumer.cpp:47-144 | checking for a complete snapshot leaves a sound state whatever it decides |
| `Recovery.TakeSnapshot` | trading/market_data/market_data_consumer.cpp:166-215 | one snapshot message, in order but with any losses, keeps the state sound |
| `Recovery.TakeIncrement` | trading/market_data/market_data_consumer.cpp:166-215 | one increment, lost, repeated or out of order, keeps the state sound |
| `Recovery.Recovers` | trading/market_data/market_data_consumer.cpp:166-215 | the state is sound in every run over the lossy network |
| `Recovery.RecoverySafe` | trading/market_data/market_data_consumer.cpp:47-215 | in every run in which the snapshots that end recovery start and end at the same point, what was passed on replays to the exchange's books at some point of the feed, and outside recovery to exactly the point before the next number expected |
| `Recovery.ClientMatchesExchange` | trading/market_data/market_data_consumer.cpp:166-215 | in such runs, a consumer that has caught up with everything the engine sent has passed on updates that replay to exactly the engine's books |
| `Recovery.ClientKeepsUp` | trading/market_data/market_data_consumer.cpp:166-215 | without losses the client has passed on exactly what the engine sent, however it was cut into reads, and it replays to the engine's books |
| `SnapshotGuard.UnbrokenCycleRecovers` | trading/market_data/market_data_consumer.cpp:47-144 | one unbroken cycle, whatever was left queued of an earlier one, ends recovery if and only if the queued increments continue it without a gap |
| `SnapshotGuard.GapStartsRecovery` | trading/market_data/market_data_consumer.cpp:184-209 | a read whose increments come in turn up to a point: those before it are passed on, and the consumer recovers from there with exactly the others queued |
| `SnapshotGuard.CatchesUp` | trading/market_data/market_data_consumer.cpp:47-144 | one unbroken cycle and the increments after it, as far as they have arrived, end recovery with the client up to date: the snapshot and exactly those increments have been passed on |
| `SnapshotGuard.ReadGoesOn` | trading/market_data/market_data_consumer.cpp:166-215 | a read that goes on after a whole cycle with the first messages of the next: it ends out of recovery if and only if it stops right there and the increments continue the first cycle, or has all of the next and they continue either; in between, the next start marker undoes the recovery |
| `SnapshotGuard.MixedCyclesMislead` | trading/market_data/market_data_consumer.cpp:88-97 | concrete runs in which messages of two cycles, in order, are accepted as one snapshot although start and end differ: the client is wrong about the book if and only if the order itself came from the older cycle |
| `MixedSnapshots.SaysEverything` | Exchange Matching Engine /EXCHANGE/market_data/snapshot_synthesizer.cpp:72-111 | updates that give every client the books of a point include every message of that point's snapshot |
| `MixedSnapshots.RestoresOnlyItsCycle` | trading/market_data/market_data_consumer.cpp:88-97 | an accepted snapshot, whatever cycles it is put together from, is right for every client only if its messages are those of the cycle it ends with |
| `MixedSnapshots.RestoresIffItsCycle` | trading/market_data/market_data_consumer.cpp:88-97 | an accepted snapshot that switched cycles at most once is right for every client if and only if it equals, apart from its start marker, the cycle it ends with |
| `MixedSnapshots.AddsRebuild` | Exchange Matching Engine /EXCHANGE/market_data/snapshot_synthesizer.cpp:94-101 | the orders of a book rebuild it in any order that respects the queue of each price |
| `MixedSnapshots.RestoresIff` | trading/market_data/market_data_consumer.cpp:62-86 | messages no more than the snapshot of a point give every client its books if and only if they are that snapshot's, each ticker's CLEAR before its orders and the orders of one side and price in id order |
| `MixedSnapshots.AcceptedRestoresIff` | trading/market_data/market_data_consumer.cpp:88-97 | an accepted snapshot, put together from however many cycles, is right for every client if and only if it has the messages of the cycle it ends with, in an order of that kind |
| `ReorderedSnapshots.ReorderedButRight` | trading/market_data/market_data_consumer.cpp:88-97 | a concrete snapshot of messages of three cycles, in the order they were sent, that is accepted and right although its messages are in an order no cycle has them in |
| `OrderManagement.OrderManager.Move` | trading/strategy/order_manager.h:61-93 | one order is moved exactly as the step function says: cancel elsewhere, new if idle and allowed, else nothing |
| `OrderManagement.OrderManager.MoveBoth` | trading/strategy/order_manager.h:99-113 | both orders of a ticker are moved, the buy order to the bid and then the sell order to the ask; `StrategyAsks` says what that amounts to |
| `OrderManagement.MovedAsWanted` | trading/strategy/order_manager.h:61-93 | an order that is pending or already at the wanted price is left alone, one that lives elsewhere is cancelled under its own id, and if there is none one is sent, exactly as wanted, if it is wanted and within size, position and loss limits |
| `OrderManagement.OrderManager.OnUpdate` | trading/strategy/order_manager.h:24-51 | a response changes the state and quantity of its slot only |
| `TradeEngines.TradeEngine.OnOrderBookUpdate` | trading/strategy/trade_engine.cpp:102-111 | a change of a book's best bid and offer revalues the position of its ticker and nothing else |
| `TradeEngines.KeepsCount` | trading/strategy/position_keeper.h:39-104 | one more response or quote keeps every ticker's position, volume, booked profit, open cost and total profit what the fills, prices and quotes heard so far make them |
| `TradeEngines.TradeEngine.Run` | trading/strategy/trade_engine.cpp:74-99 | over any responses and quotes the positions are the net quantities of the fills, total profit is the cash they moved plus the position at its last price, and a flat position has booked exactly that cash |
| `TradeEngines.TradeEngine.OnOrderUpdate` | trading/strategy/trade_engine.cpp:137-150 | a response reaches the position first and then the order, and is exactly one response step of the protocol |
| `OrderProtocol.ChainFilled` | Exchange Matching Engine /EXCHANGE/matcher/me_order_book.cpp:39-41 | one more fill at the exchange extends the chain of reports in flight at its far end |
| `OrderProtocol.ServeKeepsInv` | Exchange Matching Engine /EXCHANGE/matcher/me_order_book.cpp:129-179 | serving a request keeps the invariant, and a new order never finds its id still open |
| `OrderProtocol.FillKeepsInv` | Exchange Matching Engine /EXCHANGE/matcher/me_order_book.cpp:27-59 | a fill at the exchange keeps the invariant |
| `OrderProtocol.RespondKeepsInv` | trading/strategy/order_manager.h:24-51 | taking a response in keeps the invariant |
| `OrderProtocol.StrategyKeepsInv` | trading/strategy/order_manager.h:99-113 | moving the orders of a ticker keeps the invariant |
| `OrderProtocol.RunsKeepInv` | trading/strategy/order_manager.h:24-113 | the invariant holds in every state of every interleaving |
| `OrderProtocol.StrategyAsks` | trading/strategy/order_manager.h:61-113 | in every run a step of the strategy asks about each side of its ticker for exactly what is wanted there, the bid for buying and the ask for selling, and touches nothing else |
| `OrderProtocol.PositionBounded` | trading/strategy/risk_manager.h:48-58 | in every state the position, even with everything outstanding on one side traded, is within the limit |
| `OrderProtocol.TruePositionBounded` | trading/strategy/risk_manager.h:48-58 | the same for the position with all fills in flight and all the exchange may still fill |
| `OrderProtocol.OneOrderPerSlot` | trading/strategy/order_manager.h:61-93 | at most one order per ticker and side is open, and an idle slot has nothing under way in either channel or at the exchange |
| `OrderProtocol.RejectsAreHarmless` | trading/strategy/order_manager.h:46-49 | a rejected cancel, however late, changes no position and no order |
| `OrderProtocol.ReportsFindTheirOrder` | trading/strategy/order_manager.h:24-51 | every other report finds its order active in its slot, under the id it reports on |
| `OrderProtocol.NewIdsAreFresh` | trading/strategy/order_manager.cpp:6-12 | no new order reaches the exchange under an id still open there |
| `EngineContract.MatchingSeen` | Exchange Matching Engine /EXCHANGE/matcher/me_order_book.cpp:63-125 | all matches of an order, seen by one client, are fills of orders that client has open, one after the other |
| `EngineContract.AddSeen` | Exchange Matching Engine /EXCHANGE/matcher/me_order_book.cpp:129-150 | a new order, seen by its sender, is an acceptance and fills; seen by anyone else, fills of their own open orders, whatever its quantity |
| `EngineContract.CancelSeen` | Exchange Matching Engine /EXCHANGE/matcher/me_order_book.cpp:153-179 | a cancel, seen by its sender, is a cancellation or a rejection; nobody else sees anything |
| `EngineContract.EngineServes` | Exchange Matching Engine /EXCHANGE/matcher/matching_engine.h:32-57 | the matching engine keeps the contract the order protocol relies on, towards every client and for every request |
| `EndToEnd.OwnIsLegal` | Exchange Matching Engine /EXCHANGE/matcher/me_order_book.cpp:129-133 | every request of the client is one the engine can take |
| `EndToEnd.AlwaysSound` | Exchange Matching Engine /EXCHANGE/matcher/matching_engine.h:78-101 | the protocol's invariant holds in every run of the client, the real engine and any other clients |
| `EndToEnd.ClientWithinLimits` | trading/strategy/risk_manager.h:48-58 | in every such run the client is within its limit and has at most one order per ticker and side in the engine's books |
| `PositionKeeping.PositionInfo.Trade` | trading/strategy/position_keeper.h:40-58 | open cost and booked profit move at average cost through increases, reductions and flips |
| `PositionKeeping.PositionInfo.AddFill` | trading/strategy/position_keeper.h:39-79 | a fill moves the position, and values what is open at its price |
| `PositionKeeping.PositionInfo.UpdateBBO` | trading/strategy/position_keeper.h:82-104 | a change of the best bid and offer values an open position at the middle price |
| `PositionKeeping.TradeBooked` | trading/strategy/position_keeper.h:47-58 | cash is what is booked less what the open position cost, before and after every fill |
| `PositionKeeping.ProfitIsCash` | trading/strategy/position_keeper.h:39-79 | over any fills: total profit is net cash plus the position at the last price, a flat position has booked exactly net cash, and only the side of the position has an open cost |
| `PositionKeeping.QuoteValues` | trading/strategy/position_keeper.h:82-104 | a change of the best bid and offer books nothing and values the position at the middle price |
| `PositionKeeping.OpensAtItsPrice` | trading/strategy/position_keeper.h:47-59 | opening or increasing a position books nothing and adds what was traded to its cost; a trade that turns it round leaves what is open at that trade's price |
| `PositionKeeping.ReducingKeepsAverage` | trading/strategy/position_keeper.h:50-53 | reducing a position leaves its average entry price as it was |
| `Storage.MaskIsModulo` | Exchange Matching Engine /Common Files/mem_pool.h:28-28 | masking with one less than a power of two is the remainder |
| `Storage.MemPool.Allocate` | Exchange Matching Engine /Common Files/mem_pool.h:24-46 | the k-th success hands out block k modulo the size; null if and only if the allocation one round earlier is still held |
| `Storage.AllocatesIff` | Exchange Matching Engine /Common Files/mem_pool.h:24-46 | the next allocation succeeds if and only if nobody holds the block whose turn it is |
| `Storage.MemPool.Deallocate` | Exchange Matching Engine /Common Files/mem_pool.h:50-55 | a block given back is free and no other changes |
| `Storage.HeldApart` | Exchange Matching Engine /Common Files/mem_pool.h:24-46 | blocks held at the same time are different |
| `Storage.RefusesWithFreeBlock` | Exchange Matching Engine /Common Files/mem_pool.h:45-45 | null does not mean exhausted: a pool with a free block that refuses |
| `Storage.StepKeepsChannel` | Exchange Matching Engine /Common Files/lf_queue.h:20-56 | every step of either thread keeps the queue's invariant |
| `Storage.FirstInFirstOut` | Exchange Matching Engine /Common Files/lf_queue.h:20-56 | in every interleaving within one round of the store what comes out is a prefix of what went in |
| `Storage.ReadsTheOldest` | Exchange Matching Engine /Common Files/lf_queue.h:36-44 | the reader is given the oldest value not read yet, whenever there is one |
| `Storage.RefusesWhenFull` | Exchange Matching Engine /Common Files/lf_queue.h:24-27 | within one round the queue refuses if and only if all slots but one are written and none was given back |
| `Storage.PastTheEnd` | Exchange Matching Engine /Common Files/lf_queue.h:20-30 | after one round the slot given out, if any, is one past the end of the store |
| `Storage.OverrunIsReached` | Exchange Matching Engine /Common Files/lf_queue.h:20-56 | every queue of two or more slots has a run of legal steps to where it gives out the slot past its end |
| `Framing.DecodeEncode` | Exchange Matching Engine /EXCHANGE/order_server/client_request.h:34-63 | a packed request reads back as it was, every field within its width |
| `Framing.WireLayout` | Exchange Matching Engine /EXCHANGE/order_server/client_request.h:34-63 | where each field lies in a packed frame, byte by byte, least significant first |
| `Framing.EncodeDecode` | Exchange Matching Engine /EXCHANGE/order_server/client_request.h:34-63 | any 38 bytes read as a request pack to the same bytes |
| `Framing.RequestRoundTrip` | Exchange Matching Engine /EXCHANGE/order_server/client_request.h:34-63 | the request a frame was made from is the one it carries |
| `Framing.OrderGateway.Send` | trading/order_gw/order_gateway.cpp:14-34 | everything sent is the stream of all requests, numbered from 1 |
| `Framing.OrderServer.Take` | Exchange Matching Engine /EXCHANGE/order_server/order_server.h:68-89 | one frame: tied to its connection, dropped on another one or out of turn, else let through |
| `Framing.DroppedOrLetThrough` | Exchange Matching Engine /EXCHANGE/order_server/order_server.h:68-89 | a frame over another connection than its client's or under another number than the one expected is dropped and changes nothing else; any other is let through and moves its client's number on by one |
| `Framing.GateKept` | Exchange Matching Engine /EXCHANGE/order_server/order_server.h:57-95 | however reads of any number of connections interleave, each client is tied to the connection that first named it, and what is let through for it is exactly its frames over that connection whose turn it was |
| `Framing.OneSpeakerInTurn` | Exchange Matching Engine /EXCHANGE/order_server/order_server.h:57-95 | what is let through for a client carries the numbers 1, 2, 3 and so on without gap or repeat up to the one before the number expected, and all came over the one connection that first named the client |
| `Framing.OrderServer.RecvCallback` | Exchange Matching Engine /EXCHANGE/order_server/order_server.h:57-95 | every whole frame is taken off the front and the rest of the bytes kept |
| `Framing.ReadAll` | Exchange Matching Engine /EXCHANGE/order_server/order_server.h:62-94 | how the stream is cut into reads makes no difference |
| `Framing.RequestsArrive` | Exchange Matching Engine /EXCHANGE/order_server/order_server.h:57-95 | however the gateway's stream is cut, the server has let through, in order and none dropped, exactly the requests whose bytes have arrived |

## Left out

- Add: requires a known client below 256, a client order id below 1048576, a side, and a market order id below 2^32, because the source passes it through a 32-bit quantity into the fill reports (modelled as the remainder). When the book is left unsound only the responses and the updates of the matches are stated.
- AddOrder: requires a side and an id that does not rest, and an order that crosses nothing, as on the one path that calls it. Prices are converted to an unsigned number for the index, so negative ones need no exception (`IndexUnsigned`, for prices of 64 bits).
- AddOrdersAtPrice: requires that the new level's index slot is free, as it is on the one path that calls it.
- GetNextPriority: requires that nothing rests at the price on the other side, as is the case after matching.
- AddKeepsGood: requires a side; `OwnIsLegal` proves that the modelled client's orders never run into a client order id that is taken.
- ProcessClientRequest: requires client ids and client order ids to fit the tables, market order ids to stay below 2^32 and a new order to come under a client order id without a live order. The engine collects what the book it called has reported, where in the source the book writes to the engine's queues itself.
- CheckForMatch: the two mirrored loops of the source are one loop over the opposite side; after a match whose level was the last the source reads the head although it may be null, and the step to the next level that follows is proved never to apply.
- Match: a fully filled order leaves the book without its quantity being set to zero first; the order is freed at once, so nothing reads it.
- Cancel: requires the client order id to be below 1048576 when the client is below 256; the source throws otherwise.
- Follow: requires that no update breaks the structure (`Followable`, update by update): no CLEAR of a book in use, which would leave its levels in the index (`OnMarketUpdate` gives the exact condition), and no order whose slot another price has. Repeated recoveries are stated on book values.
- OnMarketUpdate: requires an ADD to have a price whose index slot no other price occupies (`AddOrder` says what happens otherwise). A MODIFY or CANCEL must name a live order and an order id fits the id map; the source dereferences a null pointer or throws otherwise.
- RecoverySafe: assumes of the network that snapshot messages arrive in the order sent if they arrive, and of each snapshot that ends recovery that its start and end markers name the same point (`Matched`), which the consumer never compares; `MixedCyclesMislead` shows the promise fails without it. The condition is not necessary: the start marker itself carries nothing, `AcceptedRestoresIff` says exactly which accepted snapshots are right, and `ReorderedButRight` gives one that no cycle equals. Snapshot cycles are assumed only of points where every order id of the feed is below 1048576, the size of the synthesizer's table, beyond which the source throws.
- RecvCallback: a read of the consumer or the order server holds decoded messages or bytes already received; sockets, multicast membership and partial multicast messages are not modelled. The order server's requires every frame to name a client below 256, the bound of the tables the source indexes without a check.
- AddFill: reals and unbounded integers instead of doubles and 32-bit positions, and the open costs start at zero, which the source leaves unset.
- TradeEngine.Run: a market update reaches it as the best bid and offer it leads to; what the strategy does about a response or a quote is a step of `OrderProtocol`.
- CheckPreTradeRisk: no 32-bit wrap-around of the position and quantity compared.
- PublishSnapshot: the bytes handed to the socket are a sequence of messages.
- Drain: requires every order id of the feed to be below 1048576, the size of the synthesizer's table; the source throws otherwise.
- AddToSnapshot: a failed assertion is a result instead of the end of the program.
- EngineServes: client order ids and market order ids are not bounded at this level, and this client's own new orders ask for a positive quantity, as `OrderProtocol` has it; other clients' may ask for none.
- AddSeen: the same positive quantity for the client's own new orders.
- Allocate: one thread; the pools inside the books are not used there, a plain allocation takes their place and always succeeds.
- FirstInFirstOut: the two threads of the queue are steps over values rather than methods of an object, each atomic operation one step, and at most as many slots are asked for as the store has; memory ordering is not modelled.
- The FIFO sequencer between order server and engine: its sort is not stable, so the order of one client's requests with equal receive times is not decided by the code; channels are in order here.
- The gateway's receiving side and the server's sending side: the same framing with the roles exchanged.
- Strategies and features: any calls of `moveOrders` with a positive clip.
- Sockets, threads, logging, latency measurement, `toString` texts.
