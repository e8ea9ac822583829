# A verified model of the matching core

The project models a limit order book exchange: the recursive matching engine, the
order book over price levels with lazy deletion, the snapshot of an engine, the
single-producer single-consumer ring between threads, the event dispatcher, the
routing of messages to engines, and the latency histogram. `dafny verify
dfyconfig.toml` checks it.

## How it is built

- **Eager side.** `Ladder` describes a side of the book as a list in price-time
  order. `Matcher` is a reference matcher over two such lists. It is a small-step
  machine: a configuration holds the state, the stack of activities that the
  recursive engine has under way (an order looking for counterparties, a batch of
  suspended stops being judged) and the record so far. One step is one fill, one
  judged stop, or one order going to rest. Because every moment of a cascade is a
  configuration, properties can be stated and proved of every moment.
- **Lazy side.** `PriceLevels`, `BookSides`, `OrderBooks` and `MatchingEngines` are
  classes with the fields, loops and mutual recursion of the C++ code. A level keeps
  a queue and a set of tombstones; what it stands for is read off as "the first entry
  of a tombstoned id is dead, a later one is alive". Each recursive call of the engine
  is proved to take the machine, in some number of steps, from the configuration before
  the call to the one after it, whatever calls it is nested in (`Leading.Leads`), with
  the number of steps left as the termination measure. `MatchingEngine.Submit` then equals `Matcher.Submit`.
- **Between the two.** `Spending` is the account of what exhausting fills leave in the
  volumes, kept by the machine; `Clearance` keeps orders clear of tombstones of their
  own id; `Leading` says what a call of the engine leaves behind.
- **Properties of the machine.** `Everywhere`, `Conservation`, `NoCrossing`, `Greedy`,
  `Icebergs`, `StopSafety`, `Priority`, `Requests`, `Tape`, `Runs` and `Accounts` prove
  what cascades and runs of events keep. What a slice, a trigger, a cancel or a modify
  is, they say in quantities, prices and places of the lists, without the functions that
  the machine is made of. Through the refinement all this holds of the engine: after
  every event, and in mid-cascade whenever a call begins or ends (`Runs.LedUncrossed`,
  `Runs.LedSafe`).
- **Around the core.** `Replays` and `Snapshots` (determinism and continuation),
  `SpscQueues` and `Dispatchers` (threads as interleaved atomic steps),
  `ExchangeManagers`, `Histograms`. `Instances` holds concrete inputs for the surprises
  below.

A new order is *well-formed* when its id is not open (on the book, pending,
suspended or in flight) and an iceberg's peak is at most its quantity; the engine
checks neither. An engine is *clean* when no order, wherever it is, is bound for a level
that holds a tombstone of its id. The *visited places* of an id are the
levels of a side it has been on or is bound for.

## Where the code and its documentation differ

The model follows the code. Each difference is stated exactly.

1. *Tombstones that meet their own id.* A modify that raises the quantity of an order
   in mid-queue pushes an id whose tombstone is still in the queue. The order is then
   called *haunted*: it fills correctly, but its level does not list it, a snapshot
   omits it (`Snapshots.CompleteIff`), and a cancel leaves its id queued without an
   order (`OrderBook.CancelOrder`). `MatchingEngine.Requeue` says exactly when an order
   becomes haunted; instances are `Instances.HauntedIsNotListed` and
   `Instances.HauntedCancelDangles`.
2. *The book may be crossed* (docs/testing.md:120-129) in exactly two ways: an iceberg whose first slice
   is used up on arrival rests without matching its reserve, and a price modify is put
   back without matching (`Runs.SubmitUncrossedIff`, `Greedy.IcebergCrossesIff`; instances are
   `Instances.IcebergCrossesAndStays` and `Instances.ModifyCrosses`).
3. *Such an iceberg cannot be cancelled*: it rests with the status of a filled order
   (`Runs.IcebergRefusedIff`, `Runs.IcebergUncancellableIff`). No other order is in that
   position (`Runs.SubmitRevocable`).
4. *A pending stop may be triggerable at the last trade price* after a cascade
   (`Instances.StopMayStayFireable`): exactly when the cascade puts a stop back that it
   judged at an older price (`StopSafety.EnterNoneFiresIff`), and never with at most
   one stop pending (`StopSafety.AtMostOneStop`). No stop is left that fires at the
   price of a trade of the order itself (`StopSafety.NoStopLeftBehind`).
5. *The volume of a level is not the sum of visible quantities*
   (docs/testing.md:89-96): a fill that uses up an order leaves its quantity in the
   volume. `Spending` counts on the reference matcher what is left that way;
   `OrderBook.VolumeBound` and `Replays.PlayFresh` say that it is the whole difference,
   and `Instances.UsedUpStaysDisplayed` is an instance.

## Model

| member | source | states |
|---|---|---|
| `Ladder.InsertKeepsSorted` | src/book/order_book.cpp:5-14 | Inserting an order behind all orders of an equal or better price keeps a side in price order |
| `Ladder.IdsAtInsert` | src/book/order_book.cpp:5-14 | An inserted order is the last of its own price and leaves the queue of every other price alone |
| `Ladder.IdsAtRemove` | src/book/order_book.cpp:16-38 | Removing an order takes exactly its id out of the queue of its price and leaves every other queue alone |
| `Ladder.FindAt` | src/engine/matching_engine.cpp:238-249 | The first pending stop of an id is the one that a search from the front finds and erases |
| `Matcher.StepDescends` | src/engine/matching_engine.cpp:126-230 | Every step of the recursive matching lowers a rank of four parts: stops that can still fire, quantity in flight, empty slices and aggressors, bookkeeping. Fills of size zero are included, so every event terminates |
| `Matcher.AfterFillZeros` | src/engine/matching_engine.cpp:145-158 | A fill against an order with an empty slice leaves fewer such orders: it replenishes the slice or removes the order |
| `Matcher.JudgeDescends` | src/engine/matching_engine.cpp:198-210 | Judging one stop of a suspended batch lowers the rank, also when the stop fires and starts a nested match |
| `Matcher.RunIsIterate` | src/engine/matching_engine.cpp:10-25 | Running to completion is a finite number of single steps |
| `Census.StepTotal` | src/engine/matching_engine.cpp:126-211 | No step makes an order out of nothing: what is counted of an id over book, pending stops, suspended stops and orders in flight never grows |
| `Census.StepUnique` | src/engine/matching_engine.cpp:126-211 | At every moment of a cascade each id is open at most once, wherever it is |
| `Census.ModifyUnique` | src/engine/matching_engine.cpp:282-317 | A modify keeps ids unique, and without requeueing it leaves every id where it is |
| `Census.CancelUnique` | src/engine/matching_engine.cpp:235-280 | A cancel keeps ids unique among book and pending stops |
| `PriceLevels.LivePush` | src/book/price_level.hpp:14-17 | A pushed id is live and last, even when a tombstone of the same id is still waiting in the queue |
| `PriceLevels.LiveRemove` | src/book/price_level.cpp:5-10 | A new tombstone kills exactly one entry of its id in the queue the level stands for |
| `PriceLevels.RemoveWorksIff` | src/book/price_level.cpp:5-10 | Cancelling a live id takes it out of the queue if and only if no tombstone of that id is still waiting |
| `PriceLevels.LiveSize` | src/book/price_level.hpp:45 | Entries minus tombstones is the number of live entries, also after a tombstoned id was pushed again |
| `PriceLevels.ListingWorksIff` | src/book/price_level.hpp:47-55 | The listing of a level names exactly its live ids, in order, if and only if no live id bears a tombstone |
| `PriceLevels.TombstoneStaysIff` | src/book/price_level.hpp:66-72 | A cancelled id leaves a tombstone behind, once the front is drained, if and only if it was not the oldest of its level |
| `PriceLevels.RequeuedInMidQueue` | src/book/price_level.hpp:47-55 | A concrete level where an id was cancelled and pushed again: it fills correctly, lists too little, and cannot be cancelled a second time |
| `PriceLevels.PriceLevel.PushBack` | src/book/price_level.hpp:14-17 | The queue the level stands for gains the id at its end; the volume grows by the visible quantity |
| `PriceLevels.PriceLevel.DrainCancelled` | src/book/price_level.hpp:66-72 | Dropping dead entries from the front does not change the queue the level stands for, and leaves a live entry in front |
| `PriceLevels.PriceLevel.PopFront` | src/book/price_level.hpp:19-23 | The oldest live id leaves the queue; the volume falls by the filled quantity, at least to 0 |
| `PriceLevels.PriceLevel.Front` | src/book/price_level.hpp:32-35 | The oldest live id, which bears no tombstone; the queue stays as it is |
| `PriceLevels.PriceLevel.IsEmpty` | src/book/price_level.hpp:37-40 | Empty exactly when nothing live is left |
| `PriceLevels.PriceLevel.Size` | src/book/price_level.hpp:45 | The number of live ids |
| `PriceLevels.PriceLevel.OrderIds` | src/book/price_level.hpp:47-55 | The ids without a tombstone; all live ids if and only if none of them bears one |
| `PriceLevels.PriceLevel.Remove` | src/book/price_level.cpp:5-10 | The id leaves the queue, unless an older tombstone of it was waiting: then the queue stays as it is |
| `Volumes.BalancedReduce` | src/book/price_level.hpp:25-27 | Lowering the volume by quantity that was taken off an order before never clamps, and the account still balances |
| `Volumes.BalancedInsert` | src/book/price_level.hpp:14-17 | The account of a level (volume = what rests + what fills used up) still balances after an order joins |
| `Volumes.BalancedRemove` | src/book/price_level.cpp:5-10 | Taking an order off never makes the saturating subtraction clamp, and the account still balances |
| `Volumes.BalancedAmend` | src/book/order_book.cpp:106-110 | Quantity taken off a resting order stays in the volume of its level until it is subtracted there |
| `BookSides.BookSide.Best` | src/book/order_book.cpp:84-94 | The first level of the sorted map is the level of the first order of the eager list; there is none exactly when the list is empty |
| `BookSides.BookSide.Enqueue` | src/book/order_book.cpp:5-14 | The side stands for the list with the order inserted in price-time order; opening a level starts its account at 0 |
| `BookSides.BookSide.Dequeue` | src/book/order_book.cpp:16-38 | The list loses the order, and the level when it was the last one; the id stays queued if and only if an older tombstone of it was on that level |
| `BookSides.BookSide.Rotate` | src/engine/matching_engine.cpp:164-178 | The first order goes behind everything of its price |
| `OrderBooks.OrderBook.InsertOrder` | src/book/order_book.cpp:5-14 | Sides, levels and id map agree again, with the order behind everything of its price; it is haunted exactly when its level still holds a tombstone of its id |
| `OrderBooks.OrderBook.CancelOrder` | src/book/order_book.cpp:16-38 | False for an unknown id. Otherwise the order leaves book and id map; the book stays consistent if and only if the order was not haunted; otherwise its level goes on queueing an id that the map does not know |
| `OrderBooks.OrderBook.PushedTwice` | src/engine/matching_engine.cpp:298-306 | If that haunted order is put back onto its level, the level queues the id twice |
| `OrderBooks.OrderBook.FindOrder` | src/book/order_book.cpp:40-54 | The id map finds exactly the orders that rest on either side |
| `OrderBooks.OrderBook.BestBidLevel` | src/book/order_book.cpp:84-88 | The level of the first bid, with that order in front; none exactly when there are no bids |
| `OrderBooks.OrderBook.BestAskLevel` | src/book/order_book.cpp:90-94 | The level of the first ask, with that order in front; none exactly when there are no asks |
| `OrderBooks.OrderBook.FrontOf` | src/engine/matching_engine.cpp:83-85 | The front id of the best level is always in the id map, as the first order of the side, and is never haunted: the assertion in the matching loop cannot fail |
| `OrderBooks.OrderBook.Amend` | src/book/order_book.cpp:106-110 | Overwriting the quantity of an order changes no queue and no place |
| `OrderBooks.OrderBook.ReduceLevelVolume` | src/book/order_book.cpp:112-122 | Only the volume of that level changes |
| `OrderBooks.OrderBook.VolumeBound` | src/book/price_level.hpp:42-45 | As long as no iceberg ever joined a side, the volume of each of its levels is what rests there plus the account entry of the level, so the two are equal if and only if nothing was spent there |
| `Spending.StepSpent` | src/engine/matching_engine.cpp:145-155 | A step adds to the account of a level only when it is a fill that leaves nothing of the first order there, neither in its slice nor in a reserve, and then the quantity of that fill; an account is closed only when nothing rests at its price any more |
| `Spending.RequestsSpendNothing` | src/engine/matching_engine.cpp:235-317 | A cancel or a modify adds to no account |
| `Clearance.WithdrawClear` | src/engine/matching_engine.cpp:319-330 | Taking an order off leaves no order bound for a level with a tombstone of its id, whatever tombstone the order itself leaves |
| `Clearance.ClearGone` | src/engine/matching_engine.cpp:147-149 | A tombstone of an id that is open nowhere any more can never meet a live entry of that id |
| `Clearance.ModifyClear` | src/engine/matching_engine.cpp:298-306 | A modify keeps all orders clear of tombstones of their ids unless it puts its order back onto a level that still holds one |
| `Leading.StepLeads` | src/engine/matching_engine.cpp:126-230 | One step of the machine leads on: it is on the way, same end, same spending, fewer steps left, ids unique, orders clear of tombstones |
| `Leading.FillLeads` | src/engine/matching_engine.cpp:126-158 | The same of a fill that leaves a tombstone of the passive order when it is used up |
| `Leading.RestLeads` | src/engine/matching_engine.cpp:52-58 | The same of a limit order or iceberg that found nothing more: it joins the book with what is left, if anything is |
| `Leading.SubmitNoPeak` | src/engine/matching_engine.cpp:10-25 | Where no order on the book, pending or arriving is an iceberg, none is after the event |
| `MatchingEngines.MatchingEngine.Submit` | src/engine/matching_engine.cpp:10-25 | On every well-formed event that takes no haunted order off the book, the engine over lazily deleted levels gives exactly the result and the state of the reference matcher over sorted lists, counts the event, and leaves in the volumes of levels what the matcher says it spends. Where every order was clear of tombstones of its id it still is, unless the event brings an id bound for a level that holds one |
| `MatchingEngines.MatchingEngine.NoReturnNoRevisit` | src/engine/matching_engine.cpp:283-306 | On a clean engine whose visited places are recorded, an event that brings no id back to a recorded level of a side, save the oldest order of a level onto it, meets no tombstone of the id: that oldest order has left no tombstone when it comes back |
| `MatchingEngines.MatchingEngine.CleanServes` | src/engine/matching_engine.cpp:10-25 | When every order is clear of tombstones of its id, none is haunted and any event can be served |
| `MatchingEngines.MatchingEngine.ExecuteFill` | src/engine/matching_engine.cpp:126-158 | A fill and the whole stop cascade it sets off take the reference machine from the configuration before to the one after, in fewer steps than were left |
| `MatchingEngines.MatchingEngine.SettleFill` | src/engine/matching_engine.cpp:126-155 | Both quantities, the last price, the trade and the place of the passive order are those of one fill of the reference machine |
| `MatchingEngines.MatchingEngine.SettlePassive` | src/engine/matching_engine.cpp:131-155 | The passive order stays in front, goes to the back with a fresh slice, or leaves the book; in the last case exactly the filled quantity is left in the account of its level, which closes when nothing rests there any more |
| `MatchingEngines.MatchingEngine.ReplenishIceberg` | src/engine/matching_engine.cpp:164-178 | A used-up slice is replaced from the reserve and the order goes behind everything of its price; the volume of the level loses the fill and gains the smaller of peak and reserve |
| `MatchingEngines.MatchingEngine.MatchLimit` | src/engine/matching_engine.cpp:70-93 | Stops only when the order is filled or nothing opposite is within its limit; the book is then at a moment of the run of the reference machine, the one at which the machine settles the same order |
| `MatchingEngines.MatchingEngine.MatchMarket` | src/engine/matching_engine.cpp:98-121 | Consumes the opposite side at any price; rejects the rest when that side is empty, as the reference machine does |
| `MatchingEngines.MatchingEngine.EvaluateStopTriggers` | src/engine/matching_engine.cpp:187-211 | A batch of swapped-out stops, judged one by one with nested matches in between, is what the reference machine does with a suspended batch |
| `MatchingEngines.MatchingEngine.ProcessTriggeredStop` | src/engine/matching_engine.cpp:213-230 | The sub-result of a fired stop, appended, is what the machine records next |
| `MatchingEngines.MatchingEngine.ProcessNewOrder` | src/engine/matching_engine.cpp:27-65 | For every order type the engine goes where the reference machine goes from launching that order |
| `MatchingEngines.MatchingEngine.EnterOrder` | src/engine/matching_engine.cpp:27-65 | State and result of a new order are those of the reference matcher |
| `MatchingEngines.MatchingEngine.ProcessCancel` | src/engine/matching_engine.cpp:235-280 | State and result of a cancel are those of the reference matcher, for pending stops, resting orders and both rejections |
| `MatchingEngines.MatchingEngine.Requeue` | src/engine/matching_engine.cpp:298-306 | A requeued order goes behind everything of its price; it ends up haunted if and only if it returned to its own level from behind another order, or to a level that still held a tombstone of it |
| `MatchingEngines.MatchingEngine.ProcessModify` | src/engine/matching_engine.cpp:282-317 | State and result of a modify are those of the reference matcher, and it says exactly when the order is haunted afterwards |
| `MatchingEngines.MatchingEngine.ProcessReplace` | src/engine/matching_engine.cpp:319-339 | State and result of a replace are those of the reference matcher |
| `MatchingEngines.SubmitBeside` | src/gateway/exchange_manager.cpp:38-67 | Processing an event on one engine leaves every engine that shares nothing with it as it was |
| `Everywhere.StepEvery` | src/engine/matching_engine.cpp:126-230 | A property of single orders that the engine's changes keep holds everywhere (book, pending, suspended, in flight) after each step |
| `Everywhere.SubmitEvery` | src/engine/matching_engine.cpp:10-25 | Such a property is an invariant of every event |
| `Conservation.StepOpen` | src/engine/matching_engine.cpp:126-178 | In each step open quantity, reserve included, falls exactly by what is traded and what is discarded |
| `Conservation.StepRecords` | src/engine/matching_engine.cpp:133-141 | Each step records exactly what it moves, for both parties and for both sides |
| `Conservation.RunConservesOrder` | src/engine/matching_engine.cpp:126-230 | Through a whole cascade, per order: open + traded + discarded stays the same |
| `Conservation.RunConservesSide` | src/engine/matching_engine.cpp:126-230 | Through a whole cascade, per side: open + traded volume + discarded stays the same |
| `Conservation.EnterConservesOrder` | src/engine/matching_engine.cpp:27-65 | A new order adds its quantity to the account of its id and the cascade keeps every account |
| `Conservation.EnterConservesSide` | src/engine/matching_engine.cpp:27-65 | A new order adds its quantity to the account of its side and the cascade keeps the accounts of both sides |
| `Conservation.LedgerBalances` | src/engine/matching_engine.cpp:10-65 | Over any run of new orders from an empty book, what was submitted under an id is what it traded, what is still open of it, hidden reserve included, and what was discarded |
| `NoCrossing.StepUncrossed` | src/engine/matching_engine.cpp:70-93 | One step leaves an uncrossed book crossed if and only if an iceberg goes to rest with an empty slice where its reserve would trade |
| `NoCrossing.NeverCrossed` | docs/testing.md:120-129 | At every moment of every cascade but its end the best bid is below the best ask, with outer orders in flight and whatever reserve the arriving order hides; at the end too if it hides none |
| `NoCrossing.CrossedOnlyAtRest` | src/engine/matching_engine.cpp:53-59 | Whatever stops fire meanwhile, a run leaves the book crossed if and only if the order it was about goes to rest crossing, in the last step |
| `Greedy.SweepVolume` | src/engine/matching_engine.cpp:70-93 | With no stops pending an order trades exactly the smaller of its quantity and what it can reach, reserves included, and then nothing it could still take is left or it is filled |
| `Greedy.MarketTakesAll` | src/engine/matching_engine.cpp:98-121 | A market order trades what there is, and is rejected, exactly once, if and only if it asks for more |
| `Greedy.LimitRestsWithRemainder` | src/engine/matching_engine.cpp:32-36 | A limit order rests with exactly what it could not trade, behind everything of its price, if and only if it could not reach enough |
| `Greedy.IcebergCrossesIff` | src/engine/matching_engine.cpp:53-59 | An arriving iceberg leaves the book crossed if and only if it has a reserve and could have reached more than its first slice |
| `Greedy.FillsInPriority` | docs/engine-design.md:142-153 | Closed form of a sweep: with the queue flattened into slices, an iceberg's next slice behind everything of its price, the i-th slice trades, as the i-th, if and only if the aggressor reaches its price and wants more than stands before it; it trades the smaller of the slice and what is left. `Icebergs.SlicesOfOrder` and `Icebergs.Rounds` give the sizes and the turns of the slices |
| `Greedy.EnterFillsInPriority` | src/engine/matching_engine.cpp:70-178 | With no stops pending, the trades of a new limit, market or iceberg order are exactly these |
| `Greedy.PricesWorsen` | docs/engine-design.md:142-148 | Trades of a sweep never get better for the aggressor and none is beyond its limit, with icebergs rotating or not: no trade-through |
| `Icebergs.SlicesOfOrder` | src/engine/matching_engine.cpp:164-178 | What an order on the book shows in turn as the orders before it are used up: its present slice, then its reserve in full peaks, the last slice being what is left over, and no more slices than that takes |
| `Icebergs.Rounds` | docs/engine-design.md:153 | The orders of the best price have their turns in rounds: each shows its present slice in the order of the queue, then those with a reserve show the next in the same order, and so on before any worse price |
| `Icebergs.StepReplenishes` | src/engine/matching_engine.cpp:172-174 | When a fill uses up a slice the order shows its full peak, unless less than that is left of its reserve, which it then shows |
| `Icebergs.EnterShows` | src/engine/matching_engine.cpp:53-59 | At every moment of the cascade of a new order no order shows more than its peak, and an arriving iceberg starts with exactly its peak and the rest in reserve |
| `Icebergs.SubmitShows` | src/engine/matching_engine.cpp:164-178 | After any event no order shows more than its peak, unless a modify asked for more |
| `StopSafety.StepWaiting` | src/engine/matching_engine.cpp:187-211 | Pending and suspended stops together keep their order in each step and lose at most the stop that fires |
| `StopSafety.StepJudges` | src/engine/matching_engine.cpp:198-230 | A stop of a batch is judged at the price of the batch: a buy fires at its stop price or above, a sell at its stop price or below. It then starts matching as a market order, or as a limit order at its own price; otherwise it is pending again, behind those that are |
| `StopSafety.StepSuspends` | src/engine/matching_engine.cpp:187-196 | Nothing else takes a stop off the waiting ones; a fill suspends those that are pending, to be judged at the price of that fill |
| `StopSafety.EnterStopWaitsIff` | src/engine/matching_engine.cpp:39-52 | A new stop waits if and only if nothing has traded yet or the last price is below the stop price of a buy, above that of a sell; otherwise it is processed just as a market order is, or as a limit order at its own price |
| `StopSafety.StopsOnlyShrink` | src/engine/matching_engine.cpp:187-211 | After any cascade the stops left are some of those that waited, in their order, none new and none twice |
| `StopSafety.IterateSafe` | src/engine/matching_engine.cpp:187-211 | At every moment of a cascade only the batch on top of the submitted order may hold stops that fire at the price of a trade it made, and only at the price it is being judged at |
| `StopSafety.NoStopLeftBehind` | src/engine/matching_engine.cpp:187-211 | When a new order has been processed, the price of every trade the order itself made is below the stop price of each buy stop still pending, and above that of each sell stop |
| `StopSafety.EnterStops` | src/engine/matching_engine.cpp:39-52 | A new order strikes some stops from the list and keeps the order of the others; a stop that is not yet at its price, below it for a buy and above it for a sell, joins at the end |
| `StopSafety.PendingOffBook` | docs/testing.md:141-148 | A pending stop is never on the book as well |
| `StopSafety.NoneFiresIff` | src/engine/matching_engine.cpp:191-210 | A cascade leaves a pending stop that fires at the last trade price if and only if it made no trade and there was one before, or after its last trade it puts back a stop that fires at the last price but not at the price of its batch |
| `StopSafety.EnterNoneFiresIff` | src/engine/matching_engine.cpp:191-210 | The same of a new order |
| `StopSafety.AtMostOneStop` | src/engine/matching_engine.cpp:191-210 | With at most one stop pending, a new order leaves none that fires at the last trade price if and only if there was none or it trades |
| `StopSafety.NoneFiresAfterOwnTrade` | src/engine/matching_engine.cpp:187-211 | In particular none is left when the last trade is the order's own and not that of a stop it fired |
| `Priority.StepBefore` | docs/engine-design.md:150-155 | One step keeps a resting order ahead of every order behind it, unless the step removes it or replenishes it |
| `Priority.StepReserve` | src/engine/matching_engine.cpp:164-178 | One step leaves the reserve of a resting order or lowers it, or takes the order out of play for good |
| `Priority.RunReserve` | src/engine/matching_engine.cpp:164-178 | Through a cascade the reserve of an order that still rests has not grown, so an unchanged reserve means it was not replenished |
| `Priority.RunBefore` | docs/engine-design.md:150-155 | Through a whole cascade an order that still rests and was not replenished is still ahead of every order it was ahead of |
| `Priority.GivesUpIff` | src/engine/matching_engine.cpp:282-339 | The engine takes an order off the book on request exactly when the event is a cancel of a resting order, a replace, or a modify of a resting order to another price or to more quantity |
| `Priority.SubmitBefore` | docs/engine-design.md:150-157 | The same over any event that does not ask one of the two to give up its place by a cancel, a replace, or a modify to another price or more quantity; quantity reductions of either are no exception |
| `Priority.PlayBefore` | docs/engine-design.md:150-157 | The same over any run of such events |
| `Priority.RequeuedGoesLast` | docs/engine-design.md:150-152 | A price change or a quantity increase puts the order behind everything of its new price; all other queues lose at most that order |
| `Priority.ReplenishedGoesLast` | docs/engine-design.md:153 | A replenished iceberg goes from the front of its price to the back; every other queue stays as it is |
| `Priority.ReductionKeepsQueues` | docs/engine-design.md:155 | A modify that does not requeue, in particular a quantity reduction, leaves every queue as it is |
| `Requests.CancelOfStop` | src/engine/matching_engine.cpp:238-249 | A cancel of a pending stop takes it, and no other, off the pending ones, and reports it as cancelled, with its quantity and the time of the request |
| `Requests.CancelOfResting` | src/engine/matching_engine.cpp:251-280 | A cancel of a resting order takes it, and no other, off its side and reports it as cancelled, with its quantity and the time of the request; an order with another status stays, and the cancel is rejected as not cancellable |
| `Requests.CancelOfUnknown` | src/engine/matching_engine.cpp:251-259 | A cancel of an id that is neither pending nor on the book changes nothing and is rejected as not found |
| `Requests.ModifyOfResting` | src/engine/matching_engine.cpp:282-317 | The whole effect of a modify: to another price or more quantity the order goes behind everything of its price, with the new time; otherwise it keeps its place and nothing changes but its quantity, if one is given; an order with another status stays, and the modify is rejected as not cancellable |
| `Requests.ModifyOfUnknown` | src/engine/matching_engine.cpp:285-292 | A modify of an id that is not on the book, a pending stop included, changes nothing and is rejected as not found |
| `Requests.ReplaceOfResting` | src/engine/matching_engine.cpp:319-339 | A replace of an order on the book, whatever its status, takes it off without a report and then does what the new order does by itself |
| `Requests.ReplaceOfUnknown` | src/engine/matching_engine.cpp:322-328 | A replace of an id that is not on the book, a pending stop included, is rejected as not found, and the new order is not entered |
| `Tape.RunTape` | src/engine/matching_engine.cpp:133-141 | What is on record stays, new trades follow in execution order however deeply they are nested, and the last trade price is that of the last trade on record |
| `Tape.SubmitTape` | src/engine/matching_engine.cpp:133-141 | After any event the last trade price is that of the last trade of its result, or unchanged when there was none |
| `Tape.RunGenuine` | src/engine/matching_engine.cpp:135-141 | Every trade of a cascade, also of fired stops, has a buyer that buys and a seller that sells |
| `Tape.SubmitGenuine` | src/engine/matching_engine.cpp:135-141 | The same for any event |
| `Tape.RunRejections` | src/engine/matching_engine.cpp:103-110 | A cascade reports nothing, and rejects only as market exhausted: an id exactly when some of its quantity is discarded |
| `Tape.EnterRejections` | src/engine/matching_engine.cpp:103-110 | The same of a new order |
| `Tape.RunWithinLimits` | src/engine/matching_engine.cpp:78-81 | Every trade of a cascade is at the limit price of its passive order and within the limit of its aggressor, if that has one |
| `Tape.SubmitWithinLimits` | src/engine/matching_engine.cpp:78-81 | The same for any event and every stop it fires |
| `Tape.SubmitProper` | src/engine/matching_engine.cpp:32-60 | Market orders and stops never come to rest, whatever the event |
| `Runs.EnterNeverCrossed` | docs/testing.md:120-129 | While a new order is processed, stops it fires included, the book is not crossed at any moment before the end |
| `Runs.LedUncrossed` | docs/testing.md:120-129 | Nor is the book of the engine crossed when any of its recursive calls begins or ends with work still under way: the engine is then at a moment of the machine |
| `Runs.LedSafe` | src/engine/matching_engine.cpp:187-211 | The same of the stops a cascade has yet to judge: every call of the engine keeps the invariant that no stop is left behind |
| `Runs.SubmitKeepsGood` | src/engine/matching_engine.cpp:10-25 | Every event keeps ids open at most once, bids buying, asks selling, and both in price order |
| `Runs.EnterUncrossedIff` | src/engine/matching_engine.cpp:27-65 | A new order leaves an uncrossed book crossed if and only if it goes to rest crossing; without a hidden reserve it never does |
| `Runs.PlaceUncrossedIff` | src/engine/matching_engine.cpp:298-306 | A modify that puts an order back leaves the book crossed if and only if its new price would trade |
| `Runs.SubmitUncrossedIff` | docs/testing.md:120-129 | The two ways, and the only two, in which an event leaves an uncrossed book crossed: an iceberg resting with an empty slice, and a modify put back where it would trade |
| `Runs.PlayKeeps` | docs/testing.md:120-129 | Over any run of events without these two the book is good and uncrossed |
| `Runs.IcebergUncancellableIff` | src/engine/matching_engine.cpp:261-268 | With no stops pending, a cancel right after the arrival of an iceberg is refused as not cancellable if and only if its first slice was used up on the way in and a reserve is left |
| `Runs.IcebergRefusedIff` | src/engine/matching_engine.cpp:261-268 | Whatever stops fire meanwhile, a cancel right after the arrival of an iceberg is refused as not cancellable if and only if its slice is empty as it goes to rest and a reserve is left |
| `Runs.SubmitRevocable` | src/engine/matching_engine.cpp:261-268 | After every event, only an iceberg that used up a slice on arrival can rest with a status that makes a cancel fail |
| `Runs.CancelUndoesLimit` | src/engine/matching_engine.cpp:235-280 | A limit order that finds no counterparty is only put on the book, and a cancel takes it off without a trace, reporting all of its quantity |
| `Runs.CancelUndoesStop` | src/engine/matching_engine.cpp:238-249 | A stop that does not fire at once only joins the pending stops, and a cancel takes it off them again |
| `Accounts.SubmitBalances` | src/engine/matching_engine.cpp:10-25 | Under each id, what is open after any event, traded in it, discarded by its cascade and given up on request is what was open before and what the event brought: a new or replacing order, or the increase of a modify |
| `Accounts.PlayBalances` | src/engine/matching_engine.cpp:10-25 | Over any run of well-formed events, cancels, modifies and replaces included: what an id had open and was brought is what it traded, what was withdrawn, what was discarded and what is still open |
| `Runs.CancelAccounts` | src/engine/matching_engine.cpp:235-280 | A reported cancel closes the account of its id and no other: what was open is what the report says plus the hidden reserve, which the report omits; a rejected one changes nothing |
| `Replays.Replay` | src/engine/matching_engine.cpp:10-25 | Over any run of well-formed events, requeueing modifies included, the engine gives event by event the results of the reference matcher, which is a function of the events alone, ends in its state and has spent as much. It gets to the end, or to the first event that takes a haunted order off the book; from a clean engine that does not come unless some event brought an id bound for a level that still held a tombstone of it. And it is sure to get to the end when no event brings an id back to a level of a side where it has been, save the oldest order of a level onto it (`Replays.NoReturnRun`, a condition on the events and the reference matcher alone) |
| `Replays.PlayFresh` | docs/testing.md:89-96 | Over any run without icebergs from a new engine, the volume of every level is what rests there plus what fills that used an order up left there since the level was opened, as counted on the reference matcher; the run is served to its end if it brings no id back to where it has been |
| `Snapshots.WriteLevel` | src/snapshot/snapshot.cpp:42-48 | A level is written as the orders its listing shows, oldest first |
| `Snapshots.WriteSide` | src/snapshot/snapshot.cpp:39-50 | Level by level from the best price, a side is written as its list without the orders that bear a tombstone of their own id |
| `Snapshots.SnapshotManager.Save` | src/snapshot/snapshot.cpp:8-62 | Header, number of all orders, shown orders bids first, and pending stops |
| `Snapshots.SnapshotManager.Load` | src/snapshot/snapshot.cpp:64-98 | Fails on a wrong magic or a file that ends early; otherwise the file begins with the layout of what was read, and the book holds the orders placed in that order. A complete file is read completely |
| `Snapshots.SnapshotManager.LoadOrders` | src/snapshot/snapshot.cpp:82-86 | Inserting the saved orders in turn gives the lists of placing them in turn |
| `Snapshots.CompleteIff` | src/snapshot/snapshot.cpp:33-52 | The file written is a complete one, all orders in price-time order under the right count, if and only if no order on the book is haunted |
| `Snapshots.IdMapCount` | src/snapshot/snapshot.cpp:34-35 | The number of orders written is that of both sides together |
| `Snapshots.VisibleAllIff` | src/snapshot/snapshot.cpp:42-48 | All orders are listed if and only if none bears a tombstone of its own id |
| `Snapshots.PlacedRebuilds` | src/snapshot/snapshot.cpp:82-86 | Placing the orders of two sorted sides in listing order rebuilds both sides, time priority included |
| `Snapshots.LayoutDistinct` | src/snapshot/snapshot.cpp:33-59 | A complete file of a state with unique ids names no order twice |
| `Snapshots.SaveAndLoad` | src/snapshot/snapshot.cpp:8-98 | Saving an engine without haunted orders and loading the file gives an engine that stands for the same eager state, with the same sequence number and no tombstones |
| `Snapshots.SubmitBoth` | docs/engine-design.md:174-180 | Two engines that stand for the same eager state, whatever their tombstones and volumes, answer every event both can serve alike and stand for the same state again |
| `Snapshots.PlayBoth` | docs/engine-design.md:174-180 | Two such engines answer every run of well-formed events alike, to its end or to the first event that takes a haunted order off one of the two books |
| `Snapshots.Continue` | docs/engine-design.md:174-180 | Continuing from a snapshot gives the same results as never stopping, event by event those of the reference matcher, over any later run of well-formed events: to its end, or to the first event that takes a haunted order off one of the two books; from a clean engine that does not come unless some event brought an id bound for a level that held a tombstone of it in one of the two engines, and never when no event brings an id back to a level of a side where it has been, save the oldest order of a level onto it |
| `SpscQueues.MaskIsRemainder` | src/core/spsc_queue.hpp:9-14 | With a capacity that is a power of two, masking an index is taking its remainder |
| `SpscQueues.IndicesTell` | src/core/spsc_queue.hpp:12-29 | Head and tail meet exactly when nothing is held; the tail is one short of the head exactly when all slots but one are held |
| `SpscQueues.ActKeepsSound` | src/core/spsc_queue.hpp:12-29 | Every load, write and store of either thread, at any moment, keeps the ring sound: slots between the indices hold what was accepted and not yet popped, and what a thread saw stays true for it |
| `SpscQueues.InterleaveSound` | src/core/spsc_queue.hpp:12-29 | The same for every interleaving |
| `SpscQueues.Linearizable` | src/core/spsc_queue.hpp:12-29 | For every interleaving from an empty ring, what was popped is a prefix of what was accepted, and at most capacity - 1 items are held |
| `SpscQueues.SlotsExclusive` | src/core/spsc_queue.hpp:17-27 | The producer never writes the slot that the consumer has seen and not yet released |
| `SpscQueues.RefusedOnlyFullOrEmpty` | src/core/spsc_queue.hpp:15-25 | A push is refused if and only if all slots but one are held as it looks; a pop if and only if nothing is |
| `SpscQueues.PushCompletes` | src/core/spsc_queue.hpp:17-19 | A push that saw room completes with its item, whatever the consumer does before the slot is written and before the tail is stored |
| `SpscQueues.PopCompletes` | src/core/spsc_queue.hpp:26-28 | A pop that saw an item returns the oldest one held then, whatever the producer does before the slot is read and before the head is stored |
| `SpscQueues.SpscQueue.Push` | src/gateway/gateway.cpp:87-97 | Sequentially: appends the item unless capacity - 1 are held |
| `SpscQueues.SpscQueue.Pop` | src/gateway/gateway.cpp:99-106 | Sequentially: takes the oldest item unless none is held |
| `Dispatchers.GoConsistent` | src/gateway/event_dispatcher.cpp:59-107 | Every step of enqueue, stop and publisher loop, in any order, keeps accepted + dropped = offered and sent events a prefix of accepted ones |
| `Dispatchers.DroppedOnlyWhenFull` | src/gateway/event_dispatcher.cpp:59-68 | An event is dropped if and only if the ring holds as many as it has slots but one; otherwise it goes into the ring |
| `Dispatchers.HandedOverIsKept` | src/gateway/event_dispatcher.cpp:59-73 | Of the events handed over, dropped ones excepted, all are taken in, in order; and none is dropped unless more are handed over than fit |
| `Dispatchers.SentIsHandedOver` | src/gateway/event_dispatcher.cpp:79-107 | With no more events than fit into the ring nothing is dropped; and whenever nothing was, the publisher has in the end sent exactly the events handed over |
| `Dispatchers.PublisherProgresses` | src/gateway/event_dispatcher.cpp:79-93 | While an accepted event is unsent each step of the publisher brings it closer to having sent them all, with or without the stop flag |
| `Dispatchers.NothingAcceptedIsLost` | src/gateway/event_dispatcher.cpp:79-107 | When the publisher loop has ended, after the exchange thread was joined and the stop flag went up, every event not counted as dropped was sent, once and in order: dropped + sent = offered |
| `Dispatchers.StopReturns` | src/gateway/event_dispatcher.cpp:38-43 | After the stop flag each step of the publisher brings it closer to its end and no other step takes it back, so joining it returns |
| `ExchangeManagers.RejectionEventAt` | src/gateway/exchange_manager.cpp:88-96 | The i-th rejection event names the order and the reason of the i-th rejection and the client that asked |
| `ExchangeManagers.CancelEventAt` | src/gateway/exchange_manager.cpp:98-108 | There is one cancel event per report of a cancel, in the order of the reports, with its order and remaining quantity |
| `ExchangeManagers.TradeEventAt` | src/gateway/exchange_manager.cpp:110-121 | The i-th trade event names the buyer, the seller, the price and the quantity of the i-th trade |
| `ExchangeManagers.TradeEventsGenuine` | src/gateway/exchange_manager.cpp:110-121 | After a new order every trade event, also of stops it fired, names a buyer whose order bought and a seller whose order sold |
| `ExchangeManagers.WithdrawalOfStop` | src/gateway/exchange_manager.cpp:46-52 | A withdrawal of a pending stop is answered by one event, that it is cancelled and how much of it was left |
| `ExchangeManagers.WithdrawalOfResting` | src/gateway/exchange_manager.cpp:46-52 | So is that of a resting order; one on the book with another status is answered by one rejection to the client |
| `ExchangeManagers.WithdrawalOfUnknown` | src/gateway/exchange_manager.cpp:46-52 | A withdrawal of an id that is neither pending nor on the book is answered by one rejection, as not found |
| `ExchangeManagers.ExchangeManager.EventOfMessage` | src/gateway/exchange_manager.cpp:46-65 | A withdrawal cancels the order of its id; any other message enters an order with its id, side, type, prices, quantity and peak, stamped with the time of the message or, without one, the present |
| `ExchangeManagers.ExchangeManager.RoutedBySymbol` | src/gateway/exchange_manager.cpp:39-43 | Two messages go to the same engine if and only if they are for the same symbol |
| `ExchangeManagers.AcknowledgedIff` | src/gateway/exchange_manager.cpp:123-136 | A new order is acknowledged, with what its message says, if and only if nothing that it sets off finds the other side exhausted |
| `ExchangeManagers.EventsInOrder` | src/gateway/exchange_manager.cpp:86-136 | Rejections come before cancels, cancels before trades, trades before the acceptance, of which there is at most one |
| `ExchangeManagers.BookEventTells` | src/gateway/exchange_manager.cpp:138-148 | The update tells the highest bid, the lowest offer, their distance and how many prices have orders on each side |
| `ExchangeManagers.TranslateResult` | src/gateway/exchange_manager.cpp:81-151 | Rejections, cancels, trades, the acceptance of an order without rejections, and last the top of the book |
| `ExchangeManagers.TopOfBook` | src/gateway/exchange_manager.cpp:138-148 | Best prices, spread and the number of distinct prices on each side, 0 for what is missing |
| `ExchangeManagers.ExchangeManager.Process` | src/gateway/exchange_manager.cpp:38-67 | A message for an unknown symbol does nothing; any other is answered as the reference matcher does, and every other engine stays as it was |
| `Histograms.FloorIsClose` | src/metrics/histogram.hpp:55-71 | Exactly the latencies below 9 ms have a bucket, and its floor is at most one resolution below them |
| `Histograms.IndexMonotone` | src/metrics/histogram.hpp:55-63 | Longer latencies never go to earlier buckets |
| `Histograms.RankedBucket` | src/metrics/histogram.hpp:26-32 | The running total over the buckets first reaches a rank exactly at the bucket of the sample of that rank, and at no bucket when that sample has none |
| `Histograms.RankExists` | src/metrics/histogram.hpp:22-34 | Every rank from 1 to the number of samples has its sample, so the percentile is that of an actual sample |
| `Histograms.TargetIsPercentage` | src/metrics/histogram.hpp:25 | The rank asked for is the given percentage of the number of samples, rounded down: half of them for the median |
| `Histograms.LatencyHistogram.Record` | src/metrics/histogram.hpp:12-20 | The histogram stands for one sample more; buckets, count and maximum follow |
| `Histograms.LatencyHistogram.Percentile` | src/metrics/histogram.hpp:22-34 | The floor of the bucket of the target-th smallest sample; the maximum when that sample is 9 ms or more; 0 without samples or for target 0 |
| `Instances.StopMayStayFireable` | src/engine/matching_engine.cpp:191-210 | A concrete cascade after which a pending stop would fire at the last trade price |
| `Instances.SellStopFiresOnFall` | src/engine/matching_engine.cpp:39-52 | A concrete sell stop that waits below the last price and is filled once a sale reaches its stop price |
| `Instances.IcebergTakesTurns` | src/engine/matching_engine.cpp:164-178 | A concrete iceberg that shares its price with another order: a buyer takes them in turns of one slice |
| `Instances.IcebergCrossesAndStays` | src/engine/matching_engine.cpp:53-59 | A concrete arrival that leaves the book crossed by an iceberg whose cancel is then refused |
| `Instances.ModifyCrosses` | src/engine/matching_engine.cpp:298-306 | A concrete modify that leaves the book crossed |
| `Instances.UsedUpStaysDisplayed` | docs/testing.md:89-96 | A concrete book on which a level has a volume of 12 although only 7 rest there |
| `Instances.HauntedIsNotListed` | src/engine/matching_engine.cpp:298-306 | A concrete book on which an order that was taken off and put back in mid-queue rests but is not listed by its level |
| `Instances.HauntedCancelDangles` | src/engine/matching_engine.cpp:235-280 | Once that order is cancelled the book does not know it, its level still queues it, and the book is no longer consistent |

## Left out

- OrderBooks.OrderBook.VolumeBound: says nothing for a side that an iceberg has joined, where visible quantity is always the peak and the saturating subtractions may clamp.
- MatchingEngines.MatchingEngine.Submit: says nothing about an event that takes a haunted order off the book; OrderBooks.OrderBook.CancelOrder and OrderBooks.OrderBook.PushedTwice say what becomes of the book.
- Snapshots.Continue: where ids do come back to where they were, it asks that neither engine is brought an id bound for a tombstone; that the copy's tombstones are always among the original's is not stated.
- Snapshots.SnapshotManager.Load: an incomplete file is reported as a failed read; in the code a missing order record lets later bytes be read as another record.
- Histograms.LatencyHistogram.Percentile: the rank is computed over reals, without floating-point rounding.
- 64-bit wrap-around: quantities, ids, timestamps and sequence numbers are unbounded; the one subtraction that could wrap, the iceberg split, is covered by the demand that the peak is at most the quantity.
- Duplicate ids: callers must bring fresh ids, because the engine never raises the duplicate rejection.
- Reject reasons, order states and risk limits that the engine never uses, and the status of an order that is about to be erased.
- Trade timestamps, which the engine leaves at 0; the clock, which is a parameter.
- Byte layout of records and failing writes in snapshots; more than 2^32 orders or stops.
- Weak memory: loads and stores of the ring are interleaved atomic steps.
- The inbound ring at shutdown, which may hold messages nobody reads; the ring itself is the one modelled.
- The replay log, which releases a slot before it has used its item, so that exclusive use of slots does not apply to it.
- Sockets, thread start-up, signals, JSON and CSV conversion, the text logger, counters, the synthetic generator and benchmarks.
- Snapshot events of the gateway: they list the level volumes, whose meaning OrderBooks.OrderBook.VolumeBound gives.
- Mid price, removal of whole best levels and the read-only lookups of the book: simple members over the same state.
