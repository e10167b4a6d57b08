# A verified model of the order book simulator's exchange core

This project models the exchange at the centre of the order book simulator: the order book, the
matching engine and the user manager, with the market maker, two of the trading bots, the book seeder
and the user id counter around them. It proves what the exchange promises, over every input and every
run.

## How it is built

Two layers describe the same exchange.

* The **objects** have the program's own shape. `OrderBooks.OrderBook` stores price levels with FIFO
  lists and an id index, `UserManagers.UserManager` the positions, and `Engine.MatchingEngine` runs the
  nested matching loops over both, changing them in place and appending to the two sinks.
  `MarketMakers.MarketMaker` and `TradingBots.TradingBot` hold the agents' loop bodies. Each of these
  methods is proved equal to a function of the old state. `SeedBooks` holds the seeding loops; their draws
  are random, so their contracts state what holds for every draw.
* The **reference** (`Exchange.dfy`) is one state machine over values. A side of the book is a queue of
  orders in price-then-arrival order; `Process`, `Cancel`, `NewUser` and `ReconnectUser` are its steps
  and `Run` is a sequence of them. `Levels.dfy` connects the two: flattening a side loses nothing, and
  each change to the levels is a change to the queue. All theorems about runs are proved here and reach
  the objects through the methods' contracts.

All callers hold the book mutex, so a call is one atomic step. The user id counter is not under that
mutex; `UserIds.dfy` models its interleavings step by step.

| file | contents |
|---|---|
| `Types.dfy`, `Arithmetic.dfy` | shared values; a few facts about products, and the source's rounding |
| `Queues.dfy`, `Levels.dfy` | one side of the book, flat and in levels, and the refinement between them |
| `Exchange.dfy` | the state, the steps, runs, and which steps are legal |
| `OrderBooks.dfy`, `UserManagers.dfy`, `Engine.dfy` | the three objects |
| `Invariants.dfy` | what every reachable state satisfies |
| `Greedy.dfy`, `Execution.dfy` | what matching computes; priority, best execution, duality |
| `Priority.dfy` | price-time priority over whole runs |
| `Splitting.dfy` | sending an order in two parts |
| `Solvency.dfy` | reservations, admission, cash over runs |
| `LogReplay.dfy`, `LedgerReplay.dfy` | rebuilding the book and the accounts from the two journals |
| `EarlyUsers.dfy` | orders under user ids that were never handed out |
| `Conservation.dfy`, `IndexAgreement.dfy`, `RoundTrip.dfy` | units, the id index, placing and cancelling |
| `Agents.dfy`, `MarketMakers.dfy`, `TradingBots.dfy` | depth control and passive quoting |
| `SeedBooks.dfy` | seeding establishes the initial state |
| `Counters.dfy` | order ids and the user list over runs |
| `UserIds.dfy` | the lock-free user id counter |

## What a legal step is

Two predicates collect what the code asks of its callers.

* `Exchange.ProperIds`: an order id comes from `next_order_id` and is used once; an id to cancel rests in
  the book or is unknown to the index. Everything about the book, the fills, the logs, the index and cash
  is proved for all runs of such steps (`ProperRun`), whatever user ids the orders name: the server passes
  on any `user_id` (core/src/server/http_handlers.cpp:221-227).
* `Exchange.Legal` adds that an order's user is anonymous (0 or less) or an id the user manager has handed
  out. Only reservations, shares on offer and position replay need this over runs, and
  `EarlyUsers.AccountsExactIff` says exactly what they need instead.

Each clause has a concrete input that shows what happens without it: `RoundTrip.ReusedIdLeavesReservation`
(with `ReservationExactIffFresh` for all orders), `IndexAgreement.BoughtOutAskStaysIndexed` and
`EarlyUsers.EarlyTraderForgotten`.

## Where the code and its documentation differ

The model follows the code.

* README.md:361 has a filled maker removed from the index. The code pops it from its list and leaves the
  index entry (`IndexAgreement.IndexExact` gives the index exactly, `BoughtOutAskStaysIndexed` an example).
* README.md:336-338 has the preflight check cover an order's cost. For a market buy the check uses the
  best ask for every unit (core/src/engine/matching_engine.cpp:56-63), so the buyer can end up short;
  `Solvency.MarketBuySolventIff` says exactly when, `MarketBuyOverdraws` gives an example, and
  `CashSolvency` bounds the shortfall.
* README.md:348-367 logs a NEW event before the preflight check and a RESTING event afterwards. The code
  logs NEW only for admitted orders and has no RESTING event (`LogReplay.AcceptedEvents`).
* README.md:740 has one batch id cover everything needed to reconstruct any order's life. No event
  closes a market order for more than there was on the other side: `LogReplay.LogReconstructsBook` finds
  exactly those orders still open after replay, `DroppedOrderStaysLive` is an example.
* The market maker is meant to keep both depths level. With a mid price of 1 its bid is refused and its
  ask is not, so the gap can grow by 50 at a tick (`MarketMakers.PennyBookDrifts`); `DepthControl` says
  exactly when it stays in bounds. The thinner side is never at risk (`DepthFloor`).
* A `reconnect_user` that runs between the two halves of a `next_user_id` call can claim the id being
  handed out; the id is then listed twice and its position reset (`UserIds.EarlyReconnectIsOverwritten`).

## Model

| member | source | states |
|---|---|---|
| `OrderBooks.OrderBook.AddRestingOrder` | core/src/book/order_book.cpp:6-30 | drops empty orders and indexed ids; otherwise queues the order behind everything at least as good, in front of everything worse, and indexes it |
| `OrderBooks.OrderBook.CancelOrder` | core/src/book/order_book.cpp:32-60 | through the index, deletes exactly that id from its side and from the index; false and no change for an unknown id |
| `OrderBooks.OrderBook.FindOrder` | core/src/book/order_book.cpp:62-66 | the resting order of that id, or nothing |
| `OrderBooks.OrderBook.BestBid` | core/src/book/order_book.cpp:68-72 | the price of the first bid in priority order |
| `OrderBooks.OrderBook.BestAsk` | core/src/book/order_book.cpp:74-78 | the price of the first ask in priority order |
| `OrderBooks.OrderBook.ReduceBestAsk` | core/src/engine/matching_engine.cpp:198-224 | takes units from the front of the best ask level, popping a filled order and nothing else; the index stays as it is |
| `OrderBooks.OrderBook.ReduceBestBid` | core/src/engine/matching_engine.cpp:254-280 | the same on the bid side |
| `OrderBooks.OrderBook.CleanupBestBidLevelIfEmpty` | core/src/book/order_book.cpp:92-98 | drops the best bid level exactly if it is empty |
| `OrderBooks.OrderBook.CleanupBestAskLevelIfEmpty` | core/src/book/order_book.cpp:100-106 | drops the best ask level exactly if it is empty |
| `OrderBooks.OrderBook.BidDepth` | core/src/book/order_book.cpp:108-117 | the nested sum is the total quantity of the bid queue |
| `OrderBooks.OrderBook.AskDepth` | core/src/book/order_book.cpp:119-128 | the nested sum is the total quantity of the ask queue |
| `Levels.FlattenSorted` | core/src/book/order_book.hpp:61-65 | levels in map order, each in arrival order, are sorted by price priority |
| `Levels.FlattenInjective` | core/src/book/order_book.hpp:61-65 | the flat queue determines the levels: nothing is lost by reasoning about queues |
| `Levels.PushBackRefines` | core/src/book/order_book.cpp:15-27 | find-or-create a level and append is insertion in price-time order |
| `Levels.EraseRefines` | core/src/book/order_book.cpp:39-55 | erasing a node through a correct locator, with its level if emptied, is deleting the id by linear search |
| `Levels.FrontFillRefines` | core/src/engine/matching_engine.cpp:196-230 | a fill at the front of the best level is a fill at the head of the queue |
| `Levels.CleanupRefines` | core/src/book/order_book.cpp:92-106 | dropping an emptied best level changes no order and leaves no empty level |
| `UserManagers.UserManager.NextUserId` | core/src/user/user_manager.cpp:9-32 | a new id, one above the last, listed with a default position |
| `UserManagers.UserManager.ReconnectUserId` | core/src/user/user_manager.cpp:127-146 | raises the counter past the id, keeps an existing position, lists the user once; a non-positive id is a new user |
| `UserManagers.UserManager.RegisterOrder` | core/src/user/user_manager.cpp:34-38 | records the owner of an order id |
| `UserManagers.UserManager.GetUserForOrder` | core/src/user/user_manager.cpp:40-47 | the recorded owner, or 0 |
| `UserManagers.UserManager.GetPosition` | core/src/user/user_manager.cpp:148-155 | the stored position, or the default one |
| `UserManagers.UserManager.OnOrderFill` | core/src/user/user_manager.cpp:49-97 | books both parties, the taker first, and releases the maker's reservation, also when they are one user; `LedgerReplay.PositionsReconstructed` says what the totals it books add up to |
| `UserManagers.UserManager.OnOrderResting` | core/src/user/user_manager.cpp:99-111 | reserves price times quantity or quantity for the registered owner |
| `UserManagers.UserManager.OnOrderCancel` | core/src/user/user_manager.cpp:113-125 | releases what is left of the reservation |
| `Engine.MatchingEngine.constructor` | core/src/engine/matching_engine.cpp:9-12 | an engine over a book and a user manager, counters at their start values, empty journals |
| `Engine.MatchingEngine.NextOrderId` | core/src/engine/matching_engine.cpp:292-294 | hands out consecutive ids |
| `Engine.MatchingEngine.EmitOrderEvent` | core/src/engine/matching_engine.cpp:75-94 | appends one numbered event |
| `Engine.MatchingEngine.EmitTrades` | core/src/engine/matching_engine.cpp:14-28 | stamps the trades with consecutive numbers and sends them in order |
| `Engine.MatchingEngine.PreflightCheck` | core/src/engine/matching_engine.cpp:30-73 | the verdict and reason for every order, in the code's order of checks |
| `Engine.MatchingEngine.FillBestAsk` | core/src/engine/matching_engine.cpp:198-230 | one fill against the front ask: trade, ledger, book and maker event of the reference fill |
| `Engine.MatchingEngine.SweepBestAsk` | core/src/engine/matching_engine.cpp:196-232 | the inner loop makes the next trades of the reference match and exhausts the level or the taker |
| `Engine.MatchingEngine.MatchBuy` | core/src/engine/matching_engine.cpp:180-234 | the nested loops terminate with the reference match's state, remainder and trades |
| `Engine.MatchingEngine.FillBestBid` | core/src/engine/matching_engine.cpp:254-286 | one fill against the front bid |
| `Engine.MatchingEngine.SweepBestBid` | core/src/engine/matching_engine.cpp:252-288 | the inner loop on the bid side |
| `Engine.MatchingEngine.MatchSell` | core/src/engine/matching_engine.cpp:236-290 | the nested loops on the bid side |
| `Engine.MatchingEngine.RestRemainder` | core/src/engine/matching_engine.cpp:151-157 | a limit remainder enters the book and its owner's funds are reserved |
| `Engine.MatchingEngine.ReportOutcome` | core/src/engine/matching_engine.cpp:161-175 | final status and event of the taker |
| `Engine.MatchingEngine.ProcessOrder` | core/src/engine/matching_engine.cpp:96-178 | new state of book, ledger, journals and the result, for every order |
| `Engine.MatchingEngine.CancelOrder` | core/src/engine/matching_engine.cpp:296-310 | new state of book, ledger and journal, and whether there was anything to cancel; `IndexAgreement.CancelAnswer` says what that answer means |
| `Invariants.MatchInv` | core/src/engine/matching_engine.cpp:180-290 | matching keeps every invariant and ends only when the taker is done, the side is empty or the price no longer crosses |
| `Invariants.PlaceInv` | core/src/engine/matching_engine.cpp:96-178 | placing an order keeps the book sorted and uncrossed, ids unique, the index right, reservations equal to what rests, and no share sold twice |
| `Invariants.CancelInv` | core/src/engine/matching_engine.cpp:296-310 | cancelling keeps all of that |
| `Invariants.CancelIsLinearDelete` | core/src/book/order_book.cpp:32-60 | the indexed cancel is the linear-search delete on both sides, keeping everyone else's order |
| `Invariants.AddRestingSafe` | core/src/book/order_book.cpp:6-30 | adding any order that does not cross keeps the book in order; it is added exactly if it is not empty and its id is not indexed |
| `Invariants.RunCore` | core/src/book/order_book.cpp:6-106 | every state a run with proper order ids reaches has a sorted, uncrossed book with unique ids, an index entry for every resting order and the right owners, whatever user ids its orders name |
| `Invariants.RunInv` | core/src/book/order_book.cpp:6-106 | every state a legal run reaches satisfies all invariants |
| `Greedy.MatchIsGreedy` | core/src/engine/matching_engine.cpp:180-290 | trades, remainder and remaining queue are those of taking min(quantity, everything reachable on the queue) off its front |
| `Greedy.PriceTimePriority` | core/src/engine/matching_engine.cpp:196-230 | the i-th trade is with the i-th order in priority order and all but the last empty theirs |
| `Greedy.TradeParties` | core/src/engine/matching_engine.cpp:202-215 | recorded users are the registered owners, quantities and prices are positive, prices respect the limit |
| `Greedy.BestExecution` | core/src/engine/matching_engine.cpp:180-290 | no allocation of the same number of units over the queue is cheaper for a buyer or dearer for a seller |
| `Execution.AcceptedOutcome` | core/src/engine/matching_engine.cpp:131-177 | filled and remaining quantity, status, trades and both sides of the book after an accepted order |
| `Execution.RefusedUnchanged` | core/src/engine/matching_engine.cpp:112-129 | a refused order changes no book, position or tape; cancelled instead of rejected exactly for a market order with nothing to meet |
| `Execution.ResultTrades` | core/src/engine/matching_engine.cpp:202-215 | every trade in the result names its true parties; no buyer pays more than its limit, no seller gets less |
| `Execution.MarketOrderTrades` | core/src/engine/matching_engine.cpp:40-50 | an accepted market order fills min(quantity, depth) and at least one unit |
| `Execution.OrderBestExecution` | core/src/engine/matching_engine.cpp:131-177 | best execution for a whole call |
| `Execution.SplitSlices` | core/src/engine/matching_engine.cpp:182-233 | taking a then b units is taking a + b, merged trades and remaining queue alike, also across a split order |
| `Priority.FirstComeFirstServed` | core/src/engine/matching_engine.cpp:180-290 | of two orders on one side, the one that was there first at a price at least as good, or came later at a better one, does not rest any more after any call in which the other trades as maker, whatever was placed and cancelled in between |
| `Priority.StaysAhead` | core/src/book/order_book.cpp:6-60 | two resting orders never change places over a run |
| `Priority.ServedInOrder` | core/src/engine/matching_engine.cpp:196-230 | an order trades as maker only in a call after which nothing ahead of it rests |
| `Splitting.SplittingInvariance` | core/src/engine/matching_engine.cpp:96-178 | an admitted order, limit or market, and its two positive parts sent one by one: same opposite side, same merged trades, same total, exactly unless the second part is a user's market buy that meets a best ask it can no longer pay for |
| `Splitting.SecondAdmittedIff` | core/src/engine/matching_engine.cpp:30-73 | the second part passes the checks exactly if it is not a market order that finds the side emptied, nor a market buy that has become too dear; a limit order's always does |
| `Splitting.SecondUnitTooDear` | core/src/engine/matching_engine.cpp:52-63 | the exception, concretely: two units admitted at once, the second refused when bought one by one |
| `Execution.Duality` | core/src/engine/matching_engine.cpp:236-290 | selling into a book is buying from its mirror image, trade for trade |
| `Execution.MirroredSide` | core/src/book/order_book.hpp:61-65 | levels are the ordered map of one side exactly if their mirror image is that of the other, and the queues they flatten to are mirror images |
| `Solvency.RunReservations` | core/src/user/user_manager.cpp:99-125 | in every reachable state reservations equal the sums over the user's resting orders, and reserved shares never exceed shares |
| `Solvency.AdmissionRules` | core/src/engine/matching_engine.cpp:32-72 | an order is admitted exactly if its owner, with exact reservations or anonymous, can cover it beside everything it has resting |
| `Solvency.RefusalReasons` | core/src/engine/matching_engine.cpp:30-73 | which reason a refused order gets, each exactly in its own case, in terms of what its user holds and has resting |
| `Solvency.AcceptedCash` | core/src/user/user_manager.cpp:65-110 | what a call does to every user's unreserved cash, exactly |
| `Solvency.StepCash` | core/src/engine/matching_engine.cpp:52-70 | no step makes a solvent user insolvent beyond what its own market buy paid above the best ask |
| `Solvency.CashSolvency` | core/src/engine/matching_engine.cpp:52-70 | over a run, a user is short by at most the slippage of its market buys, and not at all without slippage |
| `Solvency.MarketBuySolventIff` | core/src/engine/matching_engine.cpp:55-63 | a market buy leaves its user solvent exactly if it could pay for the units it reaches, its own excepted |
| `Solvency.MarketBuyOverdraws` | core/src/engine/matching_engine.cpp:56-63 | a concrete accepted market buy that ends below zero |
| `LogReplay.LogReconstructsBook` | core/src/engine/matching_engine.cpp:75-94 | the log of any run replays without a misplaced event to the user, side, price and resting quantity of every id, exactly except for the admitted market orders that were for more than the other side's depth: those do not rest and stay live; gapless numbering, batch ids all drawn before; indexed ids not resting are the filled ones |
| `LogReplay.DropsRemainder` | core/src/engine/matching_engine.cpp:151-168 | a market order leaves a remainder exactly if it is admitted and larger than the other side's depth |
| `LogReplay.DroppedOrderStaysLive` | core/src/engine/matching_engine.cpp:151-175 | a concrete dropped market order that the log still has live |
| `LogReplay.OneBatchPerCall` | core/src/engine/matching_engine.cpp:105-106 | all events of a call carry the batch id it drew, and no other event of the log does |
| `LogReplay.AcceptedEvents` | core/src/engine/matching_engine.cpp:131-175 | an accepted call logs NEW, one maker event per trade in order, and the taker's outcome |
| `LogReplay.RefusedEvents` | core/src/engine/matching_engine.cpp:112-129 | a refused call logs one event, rejected or cancelled, and never NEW |
| `IndexAgreement.IndexExact` | core/src/engine/matching_engine.cpp:221-225 | index keys are the resting ids and, disjointly, the makers that admitted orders filled to the last unit; exactly the latter must not be cancelled |
| `IndexAgreement.EmptiedLeave` | core/src/engine/matching_engine.cpp:196-230 | the orders that leave a queue when n units are taken are those whose last unit is within the first n |
| `IndexAgreement.CancelAnswer` | core/src/engine/matching_engine.cpp:296-310 | true exactly if the order rests, and then one event for its user; false changes nothing |
| `IndexAgreement.LegalCancelIsSound` | core/src/book/order_book.cpp:32-66 | cancelling an id dereferences a live node exactly if the id rests or is not indexed |
| `IndexAgreement.FilledMakerStaysIndexed` | core/src/engine/matching_engine.cpp:221-225 | every maker a call fills completely was filled by one trade for all it had, stays in the index and may no longer be cancelled |
| `IndexAgreement.BoughtOutAskStaysIndexed` | core/src/engine/matching_engine.cpp:221-225 | a concrete filled maker that is still indexed |
| `RoundTrip.PlaceCancel` | core/src/engine/matching_engine.cpp:96-310 | placing a quiet limit order and cancelling it restores both sides, the index and every position |
| `RoundTrip.LevelsRestored` | core/src/book/order_book.cpp:15-55 | appending and erasing an order restores the levels, a level it created included |
| `RoundTrip.ReservationExactIffFresh` | core/src/engine/matching_engine.cpp:151-157 | after any admitted order, limit or market, its user's reservations are exact precisely if its id was not indexed or nothing was left to rest; the id may be any that does not rest for another user |
| `RoundTrip.ReusedIdLeavesReservation` | core/src/engine/matching_engine.cpp:151-157 | a concrete reused id: one unit trades, two are reserved for and rest nowhere |
| `Conservation.PlaceTape` | core/src/engine/matching_engine.cpp:159-165 | the trade sink gets exactly the result's trades |
| `Conservation.RunNumbered` | core/src/engine/matching_engine.cpp:14-28 | over any run the tape's sequence numbers and trade ids run 1, 2, 3 and on, without gaps |
| `Conservation.UnitsConserved` | core/src/engine/matching_engine.cpp:131-177 | depth plus admitted units equals depth plus twice the traded, cancelled and dropped units, over any run |
| `LedgerReplay.PositionsReconstructed` | core/src/user/user_manager.cpp:49-97 | every position is the fold of the trade tape with sides from the order log; each of its four totals is the sum over the tape of what the user bought or sold as taker or maker, in units and in cash, and they explain its holdings |
| `LedgerReplay.WealthConserved` | core/src/user/user_manager.cpp:65-96 | cash and shares over all parties add up to the starting endowments, self-trades included |
| `EarlyUsers.RunUntouched` | core/src/user/user_manager.cpp:9-125 | whatever user ids orders name, an id not handed out yet has exact reservations and a position that is the fold of the tape |
| `EarlyUsers.ConnectKeepsPositionsIff` | core/src/user/user_manager.cpp:11-17 | connecting keeps every position exactly if no trade names the id it hands out and no resting order belongs to it |
| `EarlyUsers.AccountsExactIff` | core/src/user/user_manager.cpp:9-146 | over any run with proper order ids, all reservations, shares on offer and positions are exact in every state exactly if each id handed out is unused at that moment |
| `EarlyUsers.LegalRunsAreExact` | core/src/user/user_manager.cpp:9-146 | a run whose orders name only users already handed out is of that kind |
| `EarlyUsers.EarlyTraderForgotten` | core/src/user/user_manager.cpp:11-17 | a concrete trade under an unconnected id that the connect erases |
| `EarlyUsers.EarlyBidUnreserved` | core/src/user/user_manager.cpp:11-17 | a concrete order that only rests under such an id and loses its reservation |
| `Agents.SubmitOrder` | core/src/market_maker/market_maker.cpp:61-71 | an anonymous order under a fresh id |
| `MarketMakers.MarketMaker.RunMaker` | core/src/market_maker/market_maker.cpp:34-77 | one maker iteration: quotes around the mid, both sides topped up alike |
| `MarketMakers.MarketMaker.RunTaker` | core/src/market_maker/market_maker.cpp:79-102 | one taker iteration: a market order into the deeper side if both are deep enough |
| `MarketMakers.MakerTickEffect` | core/src/market_maker/market_maker.cpp:39-72 | a maker tick never trades; it adds the top-up to the asks, and to the bids unless the mid price is 1 |
| `MarketMakers.MakerTickQuotes` | core/src/market_maker/market_maker.cpp:39-72 | what the maker quotes: what the thinner side lacks of 2000, at most 50 units, one tick either side of the mid price, under the next two ids |
| `MarketMakers.TakerTickEffect` | core/src/market_maker/market_maker.cpp:84-97 | the taker acts exactly if both sides are 1000 deep; its 20 units fill completely and come off the deeper side only |
| `MarketMakers.DepthFloor` | core/src/market_maker/market_maker.cpp:34-102 | over any interleaving of ticks, from any sound state, the thinner side does not sink below its start or 980 |
| `MarketMakers.DepthControl` | core/src/market_maker/market_maker.cpp:34-102 | over any interleaving of ticks the depth gap stays within its start and 20, or any wider bound, exactly if at every maker tick there is nothing to add, the mid price is above 1, or the asks alone have room for the top-up |
| `MarketMakers.MakerKeepsGapIff` | core/src/market_maker/market_maker.cpp:47-71 | one maker tick: exactly when the bid depth less the ask depth is unchanged, sign included, and exactly when the gap stays within its start and 20 |
| `MarketMakers.PennyBookDrifts` | core/src/market_maker/market_maker.cpp:47-71 | a concrete book on which the gap grows past its bound |
| `TradingBots.TradingBot.RunSniper` | core/src/market_maker/trading_bots.cpp:176-210 | one sniper iteration |
| `TradingBots.TradingBot.RunMeanReversion` | core/src/market_maker/trading_bots.cpp:86-134 | one mean-reversion iteration, with its moving average |
| `TradingBots.SniperQuotes` | core/src/market_maker/trading_bots.cpp:182-205 | 20 units one tick inside both best prices, exactly if they are three ticks or more apart |
| `TradingBots.SniperNarrows` | core/src/market_maker/trading_bots.cpp:187-205 | a firing sniper step trades nothing and narrows the spread by exactly two |
| `TradingBots.ReversionFades` | core/src/market_maker/trading_bots.cpp:109-129 | the average moves by 0.08 of the way to the mid price; 15 units are offered, at what price, exactly if the mid is then 2.5 ticks above it, bid for exactly if 2.5 below |
| `TradingBots.ReversionStarts` | core/src/market_maker/trading_bots.cpp:96-106 | without two sides nothing happens; the first mid price becomes the average without an order |
| `TradingBots.ReversionPassive` | core/src/market_maker/trading_bots.cpp:109-129 | the mean-reversion bot never trades, whatever its average |
| `TradingBots.PassiveNeverTrades` | core/src/market_maker/trading_bots.cpp:86-210 | no interleaving of maker, sniper and mean-reversion steps trades or crosses the book |
| `SeedBooks.DrawWeights` | core/src/sim/seed_book.cpp:27-34 | one weight per level, from 1 to 100 or three times that |
| `SeedBooks.Accumulate` | core/src/sim/seed_book.cpp:36 | the sum of the weights |
| `SeedBooks.Apportionment` | core/src/sim/seed_book.cpp:44 | the levels share out the target, losing less than one unit each |
| `SeedBooks.SliceFits` | core/src/sim/seed_book.cpp:56-63 | for every skew a slice is 7 to 13 tenths of an equal share of what remains, rounded down, at least one unit and no more than remains; the last takes all |
| `SeedBooks.SeedLevel` | core/src/sim/seed_book.cpp:49-67 | a level's quantity is cut into such slices, none of it lost, and these are queued at its price under consecutive ids |
| `SeedBooks.SeedSide` | core/src/sim/seed_book.cpp:25-69 | at every price a side holds exactly the shares of the levels drawn that price, level i at i steps from the start or one tick above; its depth is the sum of the shares, at most six ids per level |
| `SeedBooks.SeedBook` | core/src/sim/seed_book.cpp:9-76 | both sides laddered so from half the spread below and above the mid, depths within (target - levels, target], at most 12 ids per level |
| `SeedBooks.SeededIsInitial` | core/src/sim/seed_book.cpp:14-75 | with a spread of two, positive prices and few enough levels the seeded book is a legal initial state |
| `SeedBooks.StartServer` | core/src/server/tcp_server.cpp:40-50 | the server's own parameters give such a state, bids from 80 to 100 and asks from 101 to 121 |
| `Counters.OrderIdsConsecutive` | core/src/engine/matching_engine.cpp:292-294 | over any run the order id counter moves by one at each allocation and at nothing else |
| `Counters.UsersListed` | core/src/user/user_manager.cpp:9-17 | after any run the user list holds exactly the users connected or reconnected, each once, and the next id is one above the largest |
| `UserIds.NextOk` | core/src/user/user_manager.cpp:9-17 | every atomic step keeps the id invariants; the counter never goes back |
| `UserIds.IdsDistinct` | core/src/user/user_manager.cpp:11 | next_user_id results are pairwise distinct under every interleaving, stale relaxed loads included |
| `UserIds.LaterIdsExceed` | core/src/user/user_manager.cpp:131-136 | ids handed out after a reconnect's loop exceed the reconnected id |
| `UserIds.AllListed` | core/src/user/user_manager.cpp:13-17 | once all calls have returned, the list holds every id handed out or reconnected and no other |
| `UserIds.DuplicatesIff` | core/src/user/user_manager.cpp:13-17 | once all calls have returned, the user list has a duplicate exactly if a reconnect enrolled an id still being handed out |
| `UserIds.AtomicCallsClean` | core/src/user/user_manager.cpp:127-146 | calls that run one at a time never do that |
| `UserIds.EarlyReconnectIsOverwritten` | core/src/user/user_manager.cpp:127-146 | a concrete interleaving that does |

## Left out

- HTTP, WebSocket and TCP servers, JSON parsing and serialization: transport around the same calls.
- Journal files, timestamps and the change callback: the two sinks are the sequences of what they were sent.
- Engines built without a user manager or without sinks: the model is wired as core/src/server/tcp_server.cpp wires it.
- The memory pool, hash reserve and raw list iterators: a list node is the order id within its level.
- Machine overflow of `int` and `long long`: integers are unbounded, and doubles are reals.
- Cancelling the id of an already filled maker: the stale iterator makes it undefined in the code; `IndexAgreement.IndexExact` says which ids these are.
- The momentum and noise bots: their orders are ordinary anonymous limit orders, covered by the theorems over runs.
- Thread start and stop, sleeps and random distributions: loop bodies are single ticks, random draws arbitrary values of their range.
- Seeding a book that is not empty: the server never does.
- UserManagers.UserManager.ReconnectUserId: runs the compare-and-swap loop as one atomic update, because its interleavings are modelled in `UserIds.dfy`.
- UserIds.World: represents `positions_` only by which users are listed, because both are written in the same locked sections.
