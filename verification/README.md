# A verified model of the exchange's matching engine and of the cores around it

The exchange keeps, for each trading pair, four sorted stacks in memory: asks and bids of
users, asks and bids of bots. Orders arrive from a task queue, are matched with the opposite
stack by price and then id, and what is left of them rests. This project models that engine
and the pieces whose correctness depends on it, in Dafny, and proves what holds of them for
all inputs and over whole runs.

## How the project is built

Each piece of code that works by changing things in place is a class or a method with loops;
its contract equates the new state with a function of the old one, and the properties are
lemmas about that function.

| files | what they model |
|---|---|
| `OrderTypes`, `Decimals`, `Orders` | order rows as values, 8-place numbers, order objects |
| `StackModel`, `Stacks` | a stack as a sorted sequence; the sorted list with its id map |
| `Matching`, `Books` | one order through a pool of two stacks: specification; `OrderProcessor` and `OrderBook` |
| `OrderUpdates`, `OtcUpdater` | changing an order; the price updater of auto orders |
| `Runs`, `StackProcessors`, `Recovery` | runs of restart, place, cancel, update, bulk reprice; the tasks that perform them; crash recovery |
| `Sites` | one pair with its rows, execution records, queued placements and book: creation, placement, update, bulk reprice, cancellation, the stop-limit task and restart as events |
| `StopLimit`, `AutoLimits`, `Accounts`, `OpenRows`, `Storage`, `Restarts` | what holds over all runs of a site: stops, limits of auto orders, quantities, that only open orders rest and trade, that what rests is stored, what a restart gives back |
| `Scenarios` | runs from the start in which one of these promises is broken |
| `PreMatch`, `QuoteAgreement`, `Stats` | the price quoter, its agreement with the matcher, exported statistics |
| `Depth`, `Grouping` | rounding to a precision and the grouped depth tables |
| `PageCache` | the cached first page of a feed |
| `Deposits`, `Withdrawals` | the block scanner; the keeper's batch of withdrawals |
| `Locks` | `AutoLock` and `MultiLock` as interleaved processes on expiring keys |

Prices and quantities are integers in units of 10^-8 (so a product counts units of 10^-16 and
is exact) in the engine, and reals where the code divides. Time, the network, the node's
answers, transaction fees, the external price and the outcome of limit, balance and deviation
checks are parameters, so every statement holds whatever they are.

## Where the code does not do what one would expect

Each item names the lemmas that state it: the exact condition under which the expected property
holds and, where a run breaks it, such a run.

- A resting order whose update is refused has already left its stack and is not put back: it
  is lost if and only if the update is not acceptable, which is decided by kind, state, new
  price, what would be left, and the balance check (`Runs.UpdateLosesOrderIff`,
  `OrderUpdates.AcceptedIff`; `Runs.ShrunkOrderIsLost`).
- `BaseStack.add` on an id that is already there replaces the map entry only; list and map
  still agree if and only if it is the same object (`Stacks.BaseStack.Add`).
- The sorted list removes by (price, id) and its failure is swallowed. With the cached object
  the entry is always found; with the caller's it would be found if and only if the price is
  still the held one (`Stacks.BaseStack.CallersObjectIff`).
- A placement is dropped only while its cache key is set, which an earlier placement does. An
  order that a restart or the updater has brought in is therefore placed once more, as it was
  when it was queued. If it is left open at another price than its entry's, the id map holds it
  under the new price and the list under the old one (`Scenarios.StalePlacementTakesApart`), and
  the entry can not be removed any more (`StackModel.RemoveByKeyIff`). The four promises below
  include that this does not happen.
- Traded and remaining quantity of every order add up to its quantity at all times if and only
  if every placement that is not dropped brings an order executed as far as its row was and,
  where its id rests already, has its entry's price or is a sell order that finds enough to
  trade with (`Accounts.QuantityIsConservedIff`). Otherwise an order can trade twice its
  quantity (`Scenarios.RestartTradesTwice`, `Scenarios.StalePlacementBuysTwice`).
- What the updater has priced is stored, rests and trades within its limit at all times,
  restarts and changed limits included, if and only if every placement that is not dropped
  agrees with the limit of its row, or else has its entry's price, and whatever a bulk reprice
  reprices before it raises rests within the limit of its row (`AutoLimits.LimitsAreKeptIff`).
  Otherwise a placement trades at an old price beyond the limit
  (`Scenarios.StalePlacementPassesLimit`), or the stack keeps it
  (`Scenarios.RaisedRepriceLeavesPrice`).
- Only orders whose rows are open rest and trade if and only if every placement that is not
  dropped brings an order whose row is open and, where its id rests already, has its entry's
  price or is a sell order that finds enough to trade with (`OpenRows.OnlyOpenOrdersIff`).
  Otherwise an order cancelled before its placement arrived rests all the same
  (`Scenarios.CanceledOrderRests`).
- What rests is flagged, in memory and in the database, with a row that says the same, if and
  only if every event passes its check (`Storage.RestingIsStoredIff`): creations, cancellations,
  restarts and selections always do; a placement that will rest must be queued with its flag set
  and agree with its row; an update must not change a bot's order that rests; a bulk reprice that
  raises must not have given an order that rests another price before.
- A restart then loads all that rests, and besides only rows that rest nowhere
  (`Restarts.LoadsWhatRests`). It makes no trade and gives the stacks back if and only if database
  and memory are in step: what rests is flagged with a row that says the same, and every open and
  flagged row with something left rests, so no placement is on its way
  (`Restarts.ReloadRestoresIff`, at the end of every run `Restarts.EveryRestartRestoresIff`). A
  run that puts them out of step is `Scenarios.RestartLosesOrder`. So does the first trade of a
  selected stop-limit order, which is serialized before its flag is set and writes the old flag
  back (`Restarts.LoadedAfterTradeIff`).
- A stop-limit order can be selected at a price that never traded: the stop-limit task reads
  the last execution record, and that of a cancellation carries the order's own price, which
  may have been changed since its last trade (`Scenarios.MovedPriceMisfires`). Stops are kept
  over all runs with two checks (`StopLimit.StopsAreReached`), and each check is exact: an
  update keeps the promise if and only if it passes (`StopLimit.UpdateIsSafeIff`), and every
  checked continuation of a cancellation does if and only if it passes
  (`StopLimit.CancelIsSafeIff`).
- A print older than the stop-limit order is enough to select it (`Scenarios.OldPrintTriggers`):
  what a record selects has a print since a given moment, whatever it waits for, if and only if
  the market printed at or past the record's price since then (`StopLimit.SelectionIsFreshIff`).
- A cached page is served whole, and a partial execution is notified as a deletion although
  the row is still open. Page 1 is right if and only if nothing is served from the cache or
  the cached page has the length asked for and none of the first rows is hidden from it
  (`PageCache.ReaderGetsFirstPageIff`; `PageCache.LongerPageIsServedWhole`,
  `PageCache.HiddenRowIsMissing`).
- Prices are rounded to a multiple of 10^exponent for a base up to 1, not of the base, and of
  base * 10^exponent above 1. Coarsening commutes if and only if the steps nest; powers of ten do
  (`Depth.CoarseningCommutesIff`, `Depth.PowersOfTenNest`).
- The block cursor never goes down when the node's height falls, because storing a lower height
  is refused (`cryptocoins/utils/commons.py:18-28`, `Deposits.CursorNeverFalls`).
- A withdrawal to the keeper's own address is overwritten by the change, so the usual formula for
  the change holds if and only if nothing is paid there (`Withdrawals.ChangeFormula`). Amounts
  above the withdrawal fee are paid out positive (`Withdrawals.PaidIsPositive`); one below it
  makes a negative output (`Withdrawals.RequestBelowFee`).
- A holder that does not prolong its key in time shares its lock with the first process that
  tries (`Locks.TakingIsExclusiveIff`, `Locks.LateHolderIsNotAlone`).

## Model

| member | source | states |
|---|---|---|
| Orders.Order.Execute | core/models/orders/__init__.py:744-768 | both orders lose the smaller of the two quantities left, at the resting order's price; each closes exactly when nothing is left |
| Orders.Order.CancelOrder | core/models/orders/__init__.py:677-711 | an open order becomes canceled, any other is left alone |
| Orders.Order.UpdateOrder | core/models/orders/__init__.py:583-675 | succeeds exactly when `UpdateOrder` of the old row has a value, and then every field is as requested (`AsRequested`); on failure nothing changed but, when auto data was sent, the percent and limit of the in-memory object |
| OrderUpdates.UpdateKeepsExecuted | core/models/orders/__init__.py:630-653 | an update keeps the executed quantity, leaves something to trade at a positive price, and changes neither id, side, owner nor kind |
| OrderUpdates.AcceptedIff | core/models/orders/__init__.py:583-653 | an update is accepted if and only if the order is open and no market order, auto data comes for an auto order only, the price is positive, and it asks for nothing new or leaves something to trade with the check passed |
| OrderUpdates.UpdatedFields | core/models/orders/__init__.py:590-653 | after an accepted update, and only then: price, quantity and stop are those asked for, cut to 8 places, or the order's own where the key is missing; what is left is the quantity less what was executed; auto data brings its percent and limit; every other field is as before |
| OrderUpdates.UpdateTwice | core/models/orders/__init__.py:583-653 | the same request once more is accepted and changes nothing |
| OrderUpdates.RepricedTo | core/otcupdater.py:80-82 | an auto order gets the market price plus as many hundredths of it as its percent says, at most its limit for a buy and at least for a sell, cut to 8 places; it is skipped if and only if that is 0, its own price, too far off or not above 0, or the order is not open, or another price comes with nothing left or a refusal; nothing else of it changes |
| OrderUpdates.RaisesIff | core/otcupdater.py:173-188 | the updater raises exactly at an auto order without a percent, or without a limit for a new price other than 0 |
| OrderUpdates.AllFollowMarket | core/otcupdater.py:168-203 | every order a bulk reprice returns follows the market price in that way |
| OrderUpdates.RepriceAllSplit | core/otcupdater.py:168-203 | the orders before the first that raises are repriced one by one and returned in their order; those behind it are not touched |
| OrderUpdates.RepriceWithinLimit | core/otcupdater.py:168-203 | a repriced auto order never buys above or sells below its limit, after cutting to 8 places too |
| OtcUpdater.OtcOrdersBulkUpdater.ProcessOrders | core/otcupdater.py:168-203 | exactly the auto orders that need it, in order, with their new prices in place (see `RepriceAllSplit`, `AllFollowMarket`); raises exactly at the first one without a percent, or without a limit for its new price |
| OtcUpdater.OtcOrdersBulkUpdater.ProcessOne | core/otcupdater.py:170-201 | one order: raised on, skipped or given the market price moved by its percent within its limit, as `FollowsMarket` spells out; a skipped one is unchanged, a repriced one but for its price and mark; none is repriced that is too far off, nor to another price when refused |
| Stacks.BaseStack.Add | core/orderbook/stack.py:17-27 | a fresh id takes its place: afterwards of any two orders the one in front has the better price (lower of asks, higher of bids), or the same price and the lower id; on an id already there list and map stay consistent if and only if it is the same object |
| Stacks.BaseStack.StandsInOrder | core/orderbook/stack.py:17-21 | in every consistent stack asks stand from the cheapest and bids from the dearest, at one price the lower id first |
| Stacks.BaseStack.Remove | core/orderbook/stack.py:29-35 | given any object, even with another price, the search by the key of the held one finds it: exactly that order goes, list and map stay consistent and strictly sorted |
| Stacks.BaseStack.CallersObjectIff | core/orderbook/stack.py:29-35 | searching by the key of the caller's object would find the order if and only if the price is still the held one; otherwise list and map would keep the id |
| StackModel.InsertKeeps | core/orderbook/stack.py:17-27 | adding a fresh id keeps a stack strictly sorted with one entry per id |
| StackModel.RemoveByKeyIff | core/orderbook/stack.py:29-35 | in a sorted stack the search by (price, id) finds the entry with this id exactly when the price agrees, and takes out that entry and no other |
| StackModel.InsertWithout | core/orderbook/stack.py:23-35 | removing undoes adding |
| StackModel.SortedIsUnique | core/orderbook/stack.py:12-21 | a stack is fixed by the set of its orders |
| Matching.NoneAvailable | core/orderbook/book.py:157-166 | once the price of a candidate is refused, no order behind it is acceptable either |
| Books.OrderProcessor.MatchingOrders | core/orderbook/book.py:157-178 | the walk returns the selected prefix of the stack, its quantity, and whether it covers the order |
| Books.OrderProcessor.MarketMatchingOrders | core/orderbook/book.py:180-197 | the walk of a market buy returns the asks its budget takes and whether they use it up |
| Books.OrderProcessor.ExecuteOrderWith | core/orderbook/book.py:134-143 | one trade; the maker leaves the stack exactly when it closed |
| Books.OrderProcessor.MatchOne | core/orderbook/book.py:112-119 | one trade with its dust rule; the maker stays exactly when it is still open |
| Books.OrderProcessor.ExecuteOrderWithMatched | core/orderbook/book.py:108-132 | taker, trades and stack are those of `Fill`, in order; the rest of a sell is cancelled as dust; the order's own stack is not touched |
| Books.OrderProcessor.CancelDust | core/orderbook/book.py:121-127 | an order in no stack is cancelled only as dust, and a closed one is left alone |
| Books.OrderProcessor.InstantExecute | core/orderbook/book.py:71-85 | a matched limit order does to both stacks, order and log what `Process` says |
| Books.OrderProcessor.MarketExecute | core/orderbook/book.py:87-106 | a market sell is executed in full or cancelled, as `Process` says |
| Books.OrderProcessor.Process | core/orderbook/book.py:43-66 | every branch: not open, already in the stack, market, nothing to match, match |
| Books.OrderProcessor.Cancel | core/orderbook/book.py:149-155 | the order leaves its own stack by id and becomes canceled if it was open |
| Books.OrderProcessor.AddToBook | core/orderbook/book.py:199-200 | a fresh order takes its sorted place in its own stack; with an id already there the list stays, and map and list agree if and only if it is the same object |
| Books.OrderBook.constructor | core/orderbook/book.py:208-217 | four empty stacks |
| Books.OrderBook.ProcessOrder | core/orderbook/book.py:219-224 | the pool of the order's owner becomes that of `Process`, the other pool is untouched |
| Books.OrderBook.CancelFresh | core/orderbook/book.py:226-230 | cancelling through a fresh object takes the held one out of its stack |
| Books.OrderBook.RemoveOrderFromStack | core/orderbook/book.py:232-234 | the id leaves the user stack of the order's side, whoever owns the order |
| Matching.LimitOrderFilled | core/orderbook/book.py:43-132 | the filled amount is min(quantity, everything acceptable anywhere in the stack); the rest is closed, cancelled as dust or inserted in its own stack, which keeps the entry of an id that is already there unless the order is a sell that traded until nothing or dust was left |
| Matching.SelectionIsComplete | core/orderbook/book.py:157-178 | the walk covers the order if and only if all acceptable quantity in the stack does, and misses none of it |
| Matching.OrderTrades | core/orderbook/book.py:108-143 | trade by trade: makers best first, at their own prices, each but the last exhausted before a worse one trades |
| Matching.PriceThenId | core/orderbook/book.py:134-178 | of two orders of the opposite stack the one with the worse price, or with the same price and the higher id, trades only after the other has given all it had |
| Matching.StacksInOrder | core/orderbook/stack.py:17-21 | asks from the cheapest, bids from the dearest, at one price the lower id first, in every pool that keeps the invariant |
| Matching.LimitOrderRemainder | core/orderbook/book.py:134-143 | exactly the used-up makers leave; the stack keeps its tail, whose head may have shrunk |
| Matching.MakerAfter | core/orderbook/book.py:108-143 | after its trade a maker stands in the stack with what is left, or is gone because nothing is left or, of a sell, less than 10^-7 of cost |
| Matching.FillConserves | core/orderbook/book.py:108-120 | what the taker loses is what the makers lose is the sum of the trades |
| Matching.ProcessOrder | core/orderbook/book.py:43-85 | the order's own stack gains it when it is still open, is swept of its id, or stays as it was with something left |
| Matching.ProcessFair | core/orderbook/book.py:34-41 | every trade is within one pool, between opposite sides; it costs no buyer more and earns no seller less than its own price, market orders apart, and keeps their auto limits |
| Matching.ProcessKeepsPool | core/orderbook/book.py:43-85 | whatever arrives, the pool stays sorted and uncrossed |
| Matching.UnfulfilledRefuses | core/orderbook/book.py:157-178 | an order that was not filled refuses everything that is left |
| Runs.EveryRunIsSafe | core/stack_processor.py:46-116 | over every run of restart, place, cancel, update and bulk reprice, placements of ids that already rest included: both books sorted and uncrossed, no bot trades with a user, no order trades beyond its price, nor beyond its auto limit while it carries the updater's mark (which a restart or an update of its owner drops; what then holds is `AutoLimits.LimitsAreKeptIff`) |
| Runs.ApplyKeeps | core/stack_processor.py:46-244 | one event keeps that, with the same mark |
| Runs.OnlyThatLeaves | core/stack_processor.py:98-116 | a cancellation takes the order out of its own stack, an update out of the user stack of its side, and nothing else out of any |
| Runs.UpdateLosesOrderIff | core/stack_processor.py:109-116 | after an update a resting order neither rests nor trades if and only if the update is not acceptable |
| Runs.ShrunkOrderIsLost | core/stack_processor.py:109-116 | an order of ten with four executed is lost when its owner asks for four |
| Recovery.RestartRebuilds | core/stack_processor.py:46-61 | mutually uncrossed orders are reloaded without a trade, each stack being the sorted set of its orders |
| Recovery.RestartOrderIrrelevant | core/stack_processor.py:50-61 | in whatever order they are replayed |
| Recovery.RestartRecovers | core/stack_processor.py:46-61 | from any safe book, reloading what rests gives the same stacks back, when the rows to load are what rests (when they are is `Restarts.ReloadRestoresIff`) |
| StackProcessors.StackProcessor.LoadOpenedOrders | core/stack_processor.py:46-61 | the book and trades of processing the orders one after another |
| StackProcessors.StackProcessor.PlaceOrder | core/stack_processor.py:63-74 | dropped while the key of the order is set, and otherwise the key is set and book and trades are those of one fresh order |
| StackProcessors.StackProcessor.CancelOrder | core/stack_processor.py:98-107 | the held order with the id leaves its stack; the fresh object is canceled |
| StackProcessors.StackProcessor.UpdateOrder | core/stack_processor.py:109-116 | out of the stack, changed, and back through the book if it rested there |
| StackProcessors.StackProcessor.OtcBulkUpdate | core/stack_processor.py:221-244 | all repriced orders leave their stacks, then go through the book again in turn; when the updater raises, the book stays as it was |
| StackProcessors.StackProcessor.RemoveEach | core/stack_processor.py:237-238 | every repriced order leaves its user stack |
| StackProcessors.StackProcessor.ProcessEach | core/stack_processor.py:240-241 | the orders go through the book one after another |
| Sites.RunKeeps | core/stack_processor.py:46-244 | over every run of create, place, update, reprice, cancel, trigger, key expiry and reload, up to a placement that takes list and map of a stack apart and on from the next restart: both books safe, every trade fair and between known orders, rows, flags, records and queue fit together, and an open row has something left |
| Sites.ApplyKeeps | core/stack_processor.py:46-244 | one event keeps that, and takes no row away nor changes its kind, side or owner |
| Sites.MessageTaken | core/stack_processor.py:63-75 | a placement leaves the queue and the key of its order set; while the key was set nothing else is done, otherwise its order goes through the matcher |
| Sites.ExpiredIsTaken | core/stack_processor.py:63-75 | once the key has lapsed, the order of a placement is matched whatever was placed before |
| Sites.NewOrderIsMatched | core/models/orders/__init__.py:250-270 | a new limit or auto order is stored, flagged and queued, and goes through the matcher when it is delivered |
| Sites.RepricedFlags | core/stack_processor.py:221-244 | after a bulk reprice the objects of the repriced orders carry the flags of their rows, all others those they had |
| Sites.OthersKeepTogether | core/stack_processor.py:46-61 | only a placement takes list and map of a stack apart, and a restart puts them together again |
| Sites.ProcessWrites | core/models/orders/__init__.py:744-843 | what one order through the book leaves in the database: the rows of its makers and its own, with the flags of the objects in memory, the last record of each, and no other row |
| Sites.ProcessRests | core/orderbook/book.py:43-143 | what rests afterwards rested before and had no part in it, or is a maker left over with its new quantity, or is the order itself, or the entry its id had, unless that was swept out |
| StopLimit.StopLimitProcessor | core/tasks/orders.py:159-168 | each selected row is queued as it stood and flagged |
| StopLimit.SelectsPassedStops | core/tasks/orders.py:121-168 | of the rows not shown the task takes exactly the open stop-limit orders of the other side with something left whose stop is at or past the record's price; each is queued and flagged, and nothing else is done |
| StopLimit.TradeIsRecorded | core/orderbook/book.py:108-127 | the stops a trade passes, on either side, are found off the last record of one of its orders |
| StopLimit.StopsAreReached | core/tasks/orders.py:121-168 | over every run whose updates and cancellations pass their checks: a stop-limit order that rests, is queued or flagged has a print at or past its stop, and one that trades had it before |
| StopLimit.UpdateIsSafeIff | core/stack_processor.py:109-116 | for every order, an update keeps that if and only if it is refused, or the order neither rests nor is flagged, or the new stop was printed |
| StopLimit.CancelIsSafeIff | core/models/orders/__init__.py:677-693 | whatever checked events follow a cancellation keep that if and only if the order had not traded, was not open, or its price as it stands was printed |
| StopLimit.UnbackedMisfires | core/tasks/orders.py:127-154 | from any state in which the last record of an order that traded has a price never printed, some checked events break it |
| StopLimit.SelectionIsFreshIff | core/tasks/orders.py:127-154 | the orders a record selects have all had a print past their stop since a given moment if and only if the record's price was printed at or past since then |
| StopLimit.UnmovedPriceIsBacked | core/models/orders/__init__.py:682-693 | an order whose price did not move past that of one of its trades may be cancelled unchecked |
| StopLimit.TriggerKeepsStops | core/tasks/orders.py:127-168 | the stop-limit task selects only orders whose stop was printed |
| StopLimit.LastBacked | core/orderbook/book.py:121-127 | the last record of an order that traded, a dust cancellation included, is of a price that was printed |
| AutoLimits.LimitsAreKeptIff | core/otcupdater.py:168-203 | over every run, restarts included: what the updater priced is stored, rests and trades within the limit of its row at all times, and lists and maps agree, if and only if every placement and every bulk reprice that raises passes its check on rows and stacks before it |
| AutoLimits.ApplyIff | core/stack_processor.py:46-244 | one event keeps that if and only if it passes its check; a placement of an order that was brought in before is checked too |
| AutoLimits.PriceWithin | core/otcupdater.py:180-183 | every trade of such an order is at a price within the limit its row had at that time |
| Accounts.QuantityIsConservedIff | core/models/orders/__init__.py:744-786 | over every run: traded and left add up to the quantity, for every row and every resting order, at all times, and lists and maps agree, if and only if every placement that is not dropped is current |
| Accounts.ApplyIff | core/stack_processor.py:46-244 | one event keeps that if and only if it is no stale placement, of a fresh order or of one that was brought in before |
| OpenRows.OnlyOpenOrdersIff | core/stack_processor.py:46-116 | over every run: what rests has an open row, the rows of both parties of every trade were open, and lists and maps agree, at all times, if and only if every placement that is not dropped brings an order with an open row, at its entry's price if it has one, or a sell that finds enough |
| OpenRows.ApplyIff | core/stack_processor.py:46-244 | one event keeps that if and only if it is no such stale placement |
| Storage.RestingIsStoredIff | core/stack_processor.py:46-116 | over every run: what rests is flagged in memory and in its row, which says the same of it, and lists and maps agree, at all times, if and only if every event passes its check |
| Storage.ApplyIff | core/stack_processor.py:46-244 | event by event, which keep that |
| Restarts.LoadsWhatRests | core/stack_processor.py:50-61 | the rows a restart loads that rest are exactly the stored values of what rests |
| Accounts.NoneOvertraded | core/models/orders/__init__.py:744-786 | so that no order trades more than its quantity |
| Restarts.ReloadRestoresIff | core/stack_processor.py:46-61 | a restart makes no trade and gives every stack back if and only if what rests is flagged with a row that says the same, and every row to load rests |
| Restarts.EveryRestartRestoresIff | core/stack_processor.py:46-61 | the same at the end of every run from the start |
| Restarts.LoadedAfterTradeIff | core/tasks/orders.py:159-168 | an order that trades as it is placed is loaded by the next restart, if still open, exactly when it was queued with its flag set |
| Scenarios.RestartLosesOrder | core/stack_processor.py:46-74 | a run from the start in which a restart overtakes two placements and a closed order then rests again |
| Scenarios.RestartTradesTwice | core/stack_processor.py:46-74 | with both placements, two orders trade twice their quantity |
| Scenarios.StalePlacementPassesLimit | core/stack_processor.py:63-74 | a run from the start in which the placement of an auto order that the updater had priced at its limit of 100 trades it at 60 |
| Scenarios.RaisedRepriceLeavesPrice | core/otcupdater.py:168-203 | a run from the start in which the updater raises after it wrote the row of a resting order, and the stack keeps its price beyond the limit |
| Scenarios.StalePlacementBuysTwice | core/stack_processor.py:63-74 | a run from the start in which a bid that a restart brought in and its owner lowered buys twice its quantity |
| Scenarios.StalePlacementTakesApart | core/orderbook/stack.py:23-27 | a run from the start after which the id map holds an order at another price than the list |
| Scenarios.CanceledOrderRests | core/stack_processor.py:63-107 | a run from the start in which a cancelled order rests |
| Scenarios.MovedPriceMisfires | core/tasks/orders.py:127-154 | a run from the start in which a stop-limit order is selected at 200 though the market never traded above 100 |
| Scenarios.OldPrintTriggers | core/tasks/orders.py:127-154 | a run from the start in which a stop-limit order is selected with no trade since it was created |
| PreMatch.FindCostAndPrice | core/orderbook/book.py:322-339 | the cut levels are taken whole up to the first that makes their running sum reach the cut quantity; the price is that level's, the cost that of the levels before and of the rest at that price; None if and only if there is no such level |
| PreMatch.QuoteStopsAt | core/orderbook/book.py:322-339 | the same of the quote as a function of levels and quantity |
| PreMatch.FindQtyAndPrice | core/orderbook/book.py:341-361 | the loop computes what the cut budget buys, the levels it touches with the quantity bought at each, and whether it is covered |
| PreMatch.TakenAddsUp | core/orderbook/book.py:341-361 | the levels taken add up to what is bought and to the budget; each but the last is taken whole, none more than whole |
| PreMatch.BudgetMeaning | core/orderbook/book.py:341-361 | a budget is spent if and only if the levels are worth it, and no fewer levels than those touched are |
| PreMatch.QuoteMeaning | core/orderbook/book.py:322-339 | there is a quote if and only if the levels hold the quantity |
| PreMatch.GreedyIsBest | core/orderbook/book.py:322-339 | no other way of taking the quantity is cheaper from asks or earns more from bids |
| PreMatch.QuoteIsOptimal | core/orderbook/book.py:322-339 | the quoted cost is the least (asks) or greatest (bids) over all ways of taking the quantity, and is attained |
| PreMatch.BudgetUndone | core/orderbook/book.py:341-361 | what a budget buys costs exactly that budget |
| PreMatch.SpendAndCostUndo | core/orderbook/book.py:322-361 | with the quantity cut to 8 places it costs no more, and less by under 10^-8 times the highest price used |
| QuoteAgreement.StackQuoteIsOptimal | core/orderbook/stack.py:17-21 | the order of a stack is what makes its quote optimal |
| QuoteAgreement.SaleMatchesQuote | core/orderbook/book.py:87-178 | a market sell has no quote if and only if it is cancelled with the book untouched; otherwise the quoted cost is the total value of its trades and the quoted price that of the last one |
| QuoteAgreement.BudgetMatchesQuote | core/orderbook/book.py:180-197 | a market buy's budget is fulfilled if and only if the quoter, with its cut of levels and budget, covers it, and both take the same asks |
| QuoteAgreement.DustIff | exchange/settings/crypto.py:102 | dust is what is left of a sell order when price times quantity is below 10^-7 |
| Stats.AverageBetween | core/orderbook/book.py:260-283 | the weighted average lies between best and worst price |
| Stats.AverageIsWeighted | core/orderbook/book.py:260-269 | average times volume is exactly the cost of all that is left in the stack |
| Stats.BuysVolumeIsTurnover | core/orderbook/book.py:271-283 | the exported volume of bids is their turnover |
| Stats.RateBetween | core/orderbook/book.py:249-258 | with both sides present the rate lies strictly between top buy and top sell |
| Stats.RateIsMean | core/orderbook/book.py:249-258 | the rate is the mean of the cheapest ask and the dearest bid, or the one of them that is there, or none |
| Decimals.CutLoss | lib/helpers.py:37-41 | cutting loses less than 10^-8, towards zero on both sides, and nothing of a number that is cut already |
| Decimals.ToTicksMonotone | lib/helpers.py:37-41 | cutting keeps the order of numbers, negative ones included |
| Depth.RoundIsQuantize | lib/helpers.py:61-68 | both branches round to a multiple of one step |
| Depth.QuantizeBounds | lib/helpers.py:61-68 | bids go down, asks up, by less than a step |
| Depth.CoarseningCommutesIff | lib/helpers.py:61-68 | rounding to one step and then another is rounding to the other, for every price, if and only if the second is a multiple of the first |
| Depth.PowersOfTenNest | lib/helpers.py:61-68 | so it does for all powers of ten, for bids and asks |
| Grouping.AddHolds | core/orderbook/helpers.py:81-98 | after one more order every bucket still holds exactly the orders of its rounded price, in order, with their owners and their quantity |
| Grouping.RecalculateDepth | core/orderbook/helpers.py:71-78 | depth is the running sum of the quantities |
| Grouping.GroupSide | core/orderbook/helpers.py:49-67 | the table has every bucket once, dearest first; each depth is the quantity of the buckets priced at or below |
| Grouping.GroupedHolds | core/orderbook/helpers.py:54-58 | one bucket per rounded price, holding exactly the orders with that price, in order, with their owners and their quantity |
| Grouping.EachIdOnce | core/orderbook/helpers.py:81-98 | each id is in the bucket of its rounded price and in no other |
| Grouping.GroupingConserves | core/orderbook/helpers.py:81-98 | bucket quantities sum to the book's quantity |
| Grouping.RegroupingIsGrouping | core/orderbook/helpers.py:41-68 | regrouping a fine table gives the coarse one, price by price |
| Grouping.RegroupingKeepsIds | core/orderbook/helpers.py:41-68 | the regrouped buckets hold the same orders as the coarse ones |
| Grouping.RegroupingKeepsDepth | core/orderbook/helpers.py:71-78 | and have the same depths |
| Grouping.GroupingNeverCrosses | core/orderbook/helpers.py:49-67 | an uncrossed book stays uncrossed at every precision |
| PageCache.PaginatedNotificator.FindSimilarEntryByField | lib/helpers.py:160-164 | the first row with the id, if any |
| PageCache.PaginatedNotificator.GetPaginatedData | exchange/notifications.py:222-280 | results and cache are those of `Paginated`, for any page and limit |
| PageCache.CachedPageIsTrue | exchange/notifications.py:222-296 | after any run of inserts, updates, deletions, hidings, expiries and reads at the feed's limit, page 1 is the true first page, or that page short of a row just gone; the next read is true again |
| PageCache.ApplyKeeps | exchange/notifications.py:239-259 | one event keeps a cached full page equal to the first page, with readers at the feed's limit |
| PageCache.ReaderGetsFirstPageIff | exchange/notifications.py:233-296 | after any run, with readers of any limit and rows hidden by partial executions, page 1 is right if and only if it is not served from the cache, or the cached page has the length asked for and none of the first rows is hidden from it |
| PageCache.RunKeepsShown | exchange/notifications.py:239-296 | in every such run the cached page holds the newest rows that are not hidden |
| PageCache.LaterPageIsTrue | exchange/notifications.py:260-280 | past the first page a reader gets the rows as they are, and the cache is left alone |
| PageCache.PagesJoin | exchange/notifications.py:272-280 | pages read one after another neither skip a row nor show one twice |
| PageCache.LongerPageIsServedWhole | exchange/notifications.py:233-234 | two rows cached are both served to a reader who asked for one |
| PageCache.HiddenRowIsMissing | exchange/notifications.py:239-296 | a run in which a reader of one row is given the second one, as the newest was hidden from a longer page |
| Deposits.CoinService.AddUp | cryptocoins/coin_service.py:533-537 | what the outputs pay to each address, in order of appearance |
| Deposits.CoinService.CheckTxForDeposit | cryptocoins/coin_service.py:531-544 | each user address paid is credited once with its sum |
| Deposits.CoinService.ProcessDeposit | cryptocoins/coin_service.py:262-292 | a record that is already stored, or an unknown wallet, changes nothing |
| Deposits.CoinService.ProcessBlock | cryptocoins/coin_service.py:230-235 | all the block is due is credited |
| Deposits.CoinService.ProcessNewBlocks | cryptocoins/coin_service.py:197-228 | without a cursor the 100 blocks up to the height are scanned, otherwise those after the cursor: exactly what they are due is added and the cursor is at the height, unless it was higher; at the height already, or with a block missing, nothing changes |
| Deposits.DepositsCreditedOnce | cryptocoins/coin_service.py:197-292 | over any run with rollbacks and any heights: one record per transaction and user address of a scanned block, with the sum of its outputs; no other record; no block skipped up to the cursor |
| Deposits.FirstRunScans | cryptocoins/coin_service.py:205-226 | the first run over existing blocks scans exactly the 100 up to the height, stores what they are due and leaves the cursor there |
| Deposits.LaterRunScans | cryptocoins/coin_service.py:205-226 | a later run at a greater height scans exactly the blocks after the cursor, stores what they are due and leaves the cursor at the height |
| Deposits.EveryDepositArrives | cryptocoins/coin_service.py:197-292 | whatever ran before: once a run has found its blocks, every output in them that pays a user's address has its record, with the sum that its transaction pays there |
| Deposits.RunCommits | cryptocoins/coin_service.py:197-228 | a run that commits keeps that |
| Deposits.CursorNeverFalls | cryptocoins/utils/commons.py:18-28 | however the node's height moves, the cursor does not go back |
| Withdrawals.GetSufficientWithdrawalRequests | cryptocoins/coin_service.py:243-260 | the prefix that ends before the first request the balance does not cover |
| Withdrawals.CoveredIsLongest | cryptocoins/coin_service.py:252-258 | for positive amounts the first requests are paid exactly as far as the balance covers them together |
| Withdrawals.SendFromKeeper | cryptocoins/coin_service.py:606-652 | outputs plus fee equal the keeper's balance; every other address gets the sum of its outputs; the change is never negative; fails if and only if it would be |
| Withdrawals.ProcessWithdrawals | cryptocoins/coin_service.py:559-592 | the whole batch, from the balance to the transaction |
| Withdrawals.ChangeFormula | cryptocoins/coin_service.py:626-646 | change is (balance - amounts) + n * withdrawal fee - transfer fee if and only if nothing is paid to the keeper's own address |
| Withdrawals.ChangeWithoutKeeper | cryptocoins/coin_service.py:626-646 | so in particular when no request names it |
| Withdrawals.PaidIsPositive | cryptocoins/coin_service.py:572-592 | requests above the withdrawal fee pay every address named a positive sum |
| Withdrawals.RequestBelowFee | cryptocoins/coin_service.py:572-592 | a request below the fee makes a negative output and raises the change |
| Locks.LocksAreSafe | lib/oneinstlock.py:36-92 | under every interleaving with renewal in time: at most one process has a name; one that runs has all its names, an idle one none |
| Locks.TakesAllAndGivesBack | lib/oneinstlock.py:36-92 | a process alone with its names gets all of them, each under its own key, touches nothing else, and letting go gives back the world as it was |
| Locks.FailsAndGivesBack | lib/oneinstlock.py:80-92 | one that finds a name taken lets go of those before it, and the world is as it was |
| Locks.KeyLivesFiveSeconds | lib/oneinstlock.py:25-69 | a key that is set or prolonged is there for less than five more seconds |
| Locks.TakingIsExclusiveIff | lib/oneinstlock.py:36-43 | taking a name keeps locks exclusive if and only if its key is still there or no one else has it |
| Locks.LateHolderIsNotAlone | lib/oneinstlock.py:61-69 | a holder that lets the period pass shares its lock |

## Left out

- Orders.Order.Execute: the average price a market order keeps and the quantity a market buy takes from its cost are not modelled; every trade is for the smaller of the two quantities left.
- Books.OrderProcessor.MarketExecute: market sells only; what a market buy does after its selection, and `close_market`, depend on the cost and average price kept by the fee code (`core/orderbook/book.py:99-106`).
- Books.OrderProcessor.Process: excludes market buys, as `MarketExecute` does, and an id that already rests in the order's own stack, which `Matching.Process` covers on values.
- Books.OrderBook.ProcessOrder: excludes the same.
- Runs.EveryRunIsSafe: excludes market buys and placements that take list and map of a stack apart (see `Sites`); updates and bulk reprices are of user orders, because the code looks for the order in the user stacks only.
- Fees, cashback, balance holds, `Transaction` rows and the average price of a market order; execution records carry price, quantity and the two orders only.
- The branch of `_execute` in which the amount less the fee cuts to zero and the order is cancelled by a task (`core/models/orders/__init__.py:814-822`).
- Market sells with a `cost` set, which would call `close_market`.
- Orders.Order.UpdateOrder: does not say which of percent and limit changed in memory when an update is refused, because nothing of it is saved.
- StackProcessors.StackProcessor.PlaceOrder: excludes market buys and ids that rest though their key is not set; on values these are in `Matching.Process` and `Sites.Arrive`.
- StackProcessors.StackProcessor.UpdateOrder: user orders only; `remove_order_from_stack` and `is_exists_in_stack` look at the user stacks, so a bot order would be left in its own.
- StackProcessors.StackProcessor.OtcBulkUpdate: user orders only, for the same reason.
- StackProcessors.StackProcessor.RemoveEach: user orders only, for the same reason.
- StackProcessors.StackProcessor.LoadOpenedOrders: excludes market buys among the rows, which are closed or cancelled as they come in.
- Sites.RunKeeps: once list and map of a stack are apart, what the code does with them until the next restart is not modelled; placements arrive in any order; lost messages, market buys and auto orders of bots in a bulk reprice are left out.
- Restarts.EveryRestartRestoresIff: over the same runs.
- AutoLimits.LimitsAreKeptIff: concerns orders the updater has priced, until an accepted update of their owner moves them past their limit; before its first pricing an auto order is not held to its limit.
- StopLimit.StopsAreReached: any past print counts, also one older than the order (see `StopLimit.SelectionIsFreshIff`); runs are those of `Sites.RunKeeps`, and the page of ids that the stop-limit task excludes is arbitrary.
- Recovery.RestartRecovers: takes the rows to load to be what rests; the exact condition is `Restarts.ReloadRestoresIff`.
- Grouping.GroupSide: the timestamp of a bucket's last order is not carried.
- PreMatch.FindQtyAndPrice: a price that cuts to zero raises in the source and is excluded.
- `find_cost_and_price` with `is_cost=True`, which has no caller.
- Decimal arithmetic of 28 digits: division and the product of two 8-place numbers are exact here.
- PageCache.CachedPageIsTrue: readers at the feed's own limit (for others see `ReaderGetsFirstPageIff`); for feeds listed by descending id whose new rows have the highest id; a change and its notice are one step.
- Deposits.DepositsCreditedOnce: a transaction id stands for one transaction, and blocks at a height are fixed.
- PageCache.PaginatedNotificator.GetPaginatedData: leaves out `total_entries` and the page count, which drift when a row outside the page goes.
- PageCache.ApplyKeeps: readers at the feed's own limit, as for `CachedPageIsTrue`.
- Feeds ordered by `-updated`.
- `memcache_lock` around the block scanner: its runs are taken as serial.
- RPC, signing, size estimation and `transfer_to`: the transfer fee is any number.
- Locks.LocksAreSafe: each access to the key store is one step; the exceptions of `release` are not modelled, nor an error other than `AlreadyLocked` while acquiring.
- Several pairs: the engine is modelled for one, as each has its own book and queue.
- The updater thread and alerts of `core/orderbook/actions.py`, REST, websockets, administration, KYC and the bots' pricing.
