# Prediction-market exchange: a verified model

This project models the trading core of a prediction-market platform and proves what it
guarantees: the matching engine that keeps one order book per market outcome, the order
service that moves money and shares for each trade, the mint that creates complete sets of
outcome shares, and the services that resolve or cancel a market and pay its holders.
`dafny verify dfyconfig.toml` checks all of it.

## How it is built

The model has two layers, and each operation of the program appears in both.

* **What the program does, in its own form.** `Queue`, `PriceLevels`, `BookSide`, `Orderbook`,
  `OrderMatching`, `Resting`, `BookFamily`, `Engine` and `Registry` are the matching engine:
  classes with FIFO queues, sorted price levels, mirror maps and loops that change orders in
  place. `Stores`, `OrderService`, `MintService`, `MarketService`, `SettlementService` and
  `Startup` are the repositories, the services on top of them and the restoring of the books at
  start-up. `Uuid` is the identifier parser and printer.
* **What that means, as values.** `FlatBook` describes a side of a book as one priority
  sequence and matching as a recursive function on it; `Ledger` and `Exchange` describe a call's
  effect on the tables and books; `World` is the whole platform as a state machine of eleven kinds
  of step: registering a user, creating a market, placing, cancelling, cancelling all, minting,
  restarting, changing a market's status, marking it resolved, resolving it and cancelling it.

Every class method is proved equal to its function in the second layer, including what it
leaves unchanged, and the theorems are about those functions: over every input (`Matching`,
`MatchedBook`, `QueueJump`, `Depth`, `AveragePrice`, `Payments`), every call (`Settlement`,
`Placement`, `Proceeds`, `Fills`, `Cancellation`, `MarketCancellation`, `Minting`, `Effects`, `Cash`,
`Refunding`, `Restart`) and every run (`BookRuns`, `World`, `Solvency`, `Vault`, `Closing`,
`AuditTrail`). They say of each operation, in terms of the tables and the answer alone, what every
row is afterwards and what each refusal answers. `Guarantees` carries this back to the service
objects, call by call.

Decimals are exact reals. The one operation of the program that rounds, the division in the
average price, is a parameter: it is assumed to keep the bounds of an average (`KeepsBounds`) or
to be within an error e (`RoundsWithin`), and rounding half up is shown to do both.

## What is assumed

* Identifiers of new orders are new. A request's outcome belongs to the request's market. An
  outcome belongs to one market for good, so which outcomes a run's markets have is fixed from the
  start. A minted quantity is positive. The program does not check these.
* A service call is one step, and a transaction that fails leaves the tables as they were. The
  matching engine is outside the transaction and is never rolled back.
* Repository listings may come in any order; nothing proved depends on it.

## Where the code does less than its comments say

The model follows the code. In each case there is a theorem that says exactly when the expected
behaviour holds, and a lemma with an input or a run on which it fails.

* Time priority: orders of the taker's own that matching passes over are put back behind their
  level (`QueueJump.OwnOrdersKeepPlaceIff`, `MatchedBook.SkippedKeepPlaceIff`; fails in
  `Shortfalls.OwnOrderLosesItsPlace`).
* A single cancellation of a sell does not return its shares
  (`Cancellation.CancelGivesBackIff`; fails in `Shortfalls.CancellingLosesShares`), while cancel-all
  does (`MarketCancellation.CancelAllWorks`).
* Minting is described as giving the user a quantity of every outcome, but it overwrites a
  position the user already has (`Minting.MintAddsSharesIff`; fails in
  `Shortfalls.MintingLosesShares`). Shares dropped in these two ways are counted as lost in `World`,
  and the solvency theorem holds with them.
* A market's cancellation refunds average prices, and minting sets an average price of one on every
  outcome, so refunds may exceed what minting collected (`Solvency.CancellationRefundsExactly`;
  fails in `Shortfalls.RefundsExceedTheVault`).
* The market service's own operations can end a market with nobody paid, and then nobody ever is
  (`Closing.EndingSettlesIff`; `Closing.MarkedMarketIsNeverPaid`).
* The identifier parser reads any character that is no hexadecimal digit as zero
  (`Uuid.FormatUndoesParseIff`; fails in `Uuid.NonHexIsAccepted`).

## Model

| member | source | states |
|---|---|---|
| `Queue.OrderQueue.Enqueue` | services/trading-svc/internal/matching/order_queue.go:25-28 | appends the order behind all others and indexes it; list and index keep holding the same orders, each identifier once |
| `Queue.OrderQueue.Dequeue` | services/trading-svc/internal/matching/order_queue.go:32-41 | removes and returns the oldest order, the rest in unchanged order; nothing from an empty queue |
| `Queue.OrderQueue.Remove` | services/trading-svc/internal/matching/order_queue.go:55-63 | takes an order out from anywhere, the others in unchanged order; true exactly if it was indexed |
| `Queue.OrderQueue.Orders` | services/trading-svc/internal/matching/order_queue.go:71-77 | all orders, oldest first |
| `Queue.WithoutStaysIndexed` | services/trading-svc/internal/matching/order_queue.go:55-63 | removing a queued order and its index entry leaves list and index in agreement |
| `BookSide.BookSide.Search` | services/trading-svc/internal/matching/orderbook.go:70-72 | the binary search splits the levels exactly where strictly worse prices begin |
| `BookSide.BookSide.Add` | services/trading-svc/internal/matching/orderbook.go:68-115 | adding by level and queue is inserting into the flat priority sequence behind every price at least as good; levels stay strictly sorted, non-empty and of one price |
| `BookSide.BookSide.Best` | services/trading-svc/internal/matching/engine.go:306-319 | the first order of the flat priority sequence, or nothing |
| `BookSide.BookSide.DequeueBest` | services/trading-svc/internal/matching/engine.go:323-353 | drops exactly the first order of the flat sequence, and its level with it if it was the last one there; does nothing on an empty side |
| `BookSide.BookSide.RemoveOrder` | services/trading-svc/internal/matching/orderbook.go:137-148 | finds the order if and only if some queue of the side holds it, removes it and no other, and drops an emptied level |
| `BookSide.BookSide.Orders` | services/trading-svc/internal/matching/orderbook.go:179-200 | level by level, the whole flat sequence |
| `BookSide.BookSide.AggregateLevels` | services/trading-svc/internal/matching/orderbook.go:213-234 | at most the asked number of levels, best first, each with its summed unfilled quantity and order count |
| `BookSide.AggregateLevel` | services/trading-svc/internal/matching/orderbook.go:221-231 | the accumulator ends at the sum of the unfilled quantities of one queue |
| `PriceLevels.AddedFlat` | services/trading-svc/internal/matching/orderbook.go:68-90 | the level insertion refines insertion into the flat sequence |
| `PriceLevels.ReducedFlat` | services/trading-svc/internal/matching/orderbook.go:137-147 | removal from a level refines removal from the flat sequence |
| `PriceLevels.LevelsOfFlat` | services/trading-svc/internal/matching/orderbook.go:213-234 | the depth of a flat side is the aggregation of its price levels |
| `PriceLevels.LevelsAreDetermined` | services/trading-svc/internal/matching/orderbook.go:27-34 | the level structure is determined by the flat sequence: no two well-formed sets of levels hold the same orders differently |
| `Orderbook.Orderbook.AddOrderUnlocked` | services/trading-svc/internal/matching/orderbook.go:56-65 | adds to the right side only, and both maps keep holding exactly the resting orders |
| `Orderbook.Orderbook.DequeueBest` | services/trading-svc/internal/matching/engine.go:323-353 | takes the best order off its side and out of both maps; does nothing on an empty side |
| `Orderbook.Orderbook.CancelOrder` | services/trading-svc/internal/matching/orderbook.go:119-154 | finds an order exactly if the map knows it and takes it out of side and maps; the fall-back for inconsistent maps is never reached |
| `Orderbook.Orderbook.GetBids` | services/trading-svc/internal/matching/orderbook.go:179-188 | the bids in priority order |
| `Orderbook.Orderbook.GetAsks` | services/trading-svc/internal/matching/orderbook.go:191-200 | the asks in priority order |
| `Orderbook.Orderbook.GetDepth` | services/trading-svc/internal/matching/orderbook.go:204-211 | the best levels of both sides of the book it stands for, as many as there are up to the number asked; no order left out is priced as well as a level shown |
| `Orderbook.ConsistentRemoves` | services/trading-svc/internal/matching/orderbook.go:119-147 | taking an identifier out of a side and both maps keeps them mirroring each other |
| `Orderbook.AddThenCancel` | services/trading-svc/internal/matching/orderbook.go:56-154 | adding a fresh order and cancelling it restores levels, queues and both maps on both sides |
| `FlatBook.RemoveUndoesInsert` | services/trading-svc/internal/matching/orderbook.go:56-154 | removing a newly inserted order restores the flat side, row for row |
| `FlatBook.RemoveKeeps` | services/trading-svc/internal/matching/orderbook.go:119-147 | removal keeps order and distinctness, and removes only that identifier |
| `Depth.DepthTotals` | services/trading-svc/internal/matching/orderbook.go:204-234 | over all levels, quantities and counts add up to those of the whole side |
| `Depth.LevelsReport` | services/trading-svc/internal/matching/orderbook.go:213-234 | every level reports exactly the resting orders of its price, and levels run strictly from best to worst |
| `Depth.EveryPriceHasLevel` | services/trading-svc/internal/matching/orderbook.go:213-234 | every price with a resting order has a level |
| `Depth.LeadingShowsBest` | services/trading-svc/internal/matching/orderbook.go:213-234 | the leading levels are the best: bids downwards and asks upwards in price, and an order is left out only behind as many strictly better levels as were asked for |
| `PriceLevels.FlatIsSorted` | services/trading-svc/internal/matching/orderbook.go:27-34 | the levels laid end to end run from best price to worst |
| `Depth.DepthIgnoresQueueOrder` | services/trading-svc/internal/matching/orderbook.go:213-234 | two sorted sides with the same orders have the same depth, however they queue |
| `OrderMatching.ExecuteTrade` | services/trading-svc/internal/matching/engine.go:181-217 | one trade naming both orders and users, at the maker price, for the smaller remaining quantity; both fills grow by it, and the maker is filled or partial |
| `OrderMatching.MatchLoop` | services/trading-svc/internal/matching/engine.go:136-220 | the loop on levels, queues and maps makes the trades of the recursive specification in the same order, leaves its remaining side, sets aside its skipped orders, and terminates |
| `OrderMatching.ReaddSkipped` | services/trading-svc/internal/matching/engine.go:222-225 | puts the skipped orders back, in order, behind their price |
| `OrderMatching.MatchOrder` | services/trading-svc/internal/matching/engine.go:132-228 | the whole of matchOrder refines the flat specification: trades, taker, remaining side with skipped orders put back; the other side is untouched |
| `MatchedBook.MatchSplitsSide` | services/trading-svc/internal/matching/engine.go:136-220 | matching splits the side at one place: before it own orders are skipped and all others filled completely, each in order; after it nothing changed, but for one partial fill |
| `MatchedBook.SideAfterMatch` | services/trading-svc/internal/matching/engine.go:222-225 | the side left is the survivors in unchanged order, except that in the level where matching stopped the skipped orders stand behind the rest |
| `MatchedBook.SkippedKeepPlaceIff` | services/trading-svc/internal/matching/engine.go:222-225 | the survivors keep their order if and only if no order set aside has the price at which matching stopped |
| `QueueJump.GoesPastIff` | services/trading-svc/internal/matching/engine.go:136-220 | matching goes past a place if and only if its price crosses and the other users' open quantity up to it does not exceed what the taker wants there |
| `QueueJump.OwnOrdersKeepPlaceIff` | services/trading-svc/internal/matching/engine.go:222-225 | strict time priority fails exactly when an own order set aside is overtaken within the level where matching stopped |
| `QueueJump.MakersTradeOnce` | services/trading-svc/internal/matching/engine.go:136-220 | no maker trades twice with one taker |
| `Matching.MatchConservesQuantity` | services/trading-svc/internal/matching/engine.go:181-217 | traded quantity equals the taker's fill, the makers' fill and the fall in the opposing side's open quantity |
| `Matching.TradesRespectLimit` | services/trading-svc/internal/matching/engine.go:154-165 | every trade is at a positive quantity, with another user, at a price the taker accepts |
| `Matching.TradesAreFair` | services/trading-svc/internal/matching/engine.go:181-197 | every trade is with a resting order of another user, named as maker, at that order's price and no worse than the taker's limit, for no more than it has left |
| `Matching.MatchIsGreedy` | services/trading-svc/internal/matching/engine.go:132-228 | the trades are the greedy allocation over the orders the taker may take, in priority order |
| `Matching.MatchIsMaximal` | services/trading-svc/internal/matching/engine.go:132-228 | what is traded is the smaller of what the taker wanted and what other users offer at prices it accepts: matching is maximal |
| `Matching.MatchTradesInPriority` | services/trading-svc/internal/matching/engine.go:132-228 | the i-th trade is with the i-th tradable order, at that order's price, for all it can take once those before it are traded out |
| `Resting.PlaceInBook` | services/trading-svc/internal/matching/engine.go:83-105 | matching and resting under the book lock compute the specification's placement, trades and final status |
| `BookFamily.PlaceAt` | services/trading-svc/internal/matching/engine.go:79-105 | placing in one book of many leaves every other book as it is |
| `Engine.Engine.GetOrCreateOrderbook` | services/trading-svc/internal/matching/engine.go:267-288 | the book of the outcome, or a new empty one |
| `Engine.Engine.PlaceOrder` | services/trading-svc/internal/matching/engine.go:68-128 | refuses bad prices and quantities without touching anything, and otherwise places the order in its outcome's book |
| `Engine.Engine.CancelOrder` | services/trading-svc/internal/matching/engine.go:231-249 | cancels exactly if the outcome's book holds the order, and marks it cancelled |
| `BookRuns.AfterMatchOk` | services/trading-svc/internal/matching/engine.go:132-228 | after matching the opposing side is well-formed and holds the survivors, nothing lost or duplicated |
| `BookRuns.PlaceKeepsBookOk` | services/trading-svc/internal/matching/engine.go:83-105 | placing keeps the book well-formed and never leaves two users crossing |
| `BookRuns.CancelKeepsBookOk` | services/trading-svc/internal/matching/orderbook.go:119-154 | cancelling keeps the book well-formed and uncrossed |
| `BookRuns.CancelUndoesRest` | services/trading-svc/internal/matching/orderbook.go:56-154 | cancelling an order that rested without trading restores the book |
| `BookRuns.NoCrossingInAnyRun` | services/trading-svc/internal/matching/engine.go:83-104 | in every book reached from empty by placing and cancelling, a bid at or above an ask belongs to the same user |
| `Registry.Registry.GetOrCreate` | services/trading-svc/internal/matching/registry.go:35-55 | the engine of the market, or a new one if there is none; all other engines and all books stay |
| `Registry.Registry.PlaceOrder` | services/trading-svc/internal/matching/registry.go:59-71 | exactly the book of the order's market and outcome moves on, as the specification says |
| `Registry.Registry.CancelOrder` | services/trading-svc/internal/matching/registry.go:77-89 | in whatever order the engines are asked, one book of the outcome loses the order if any holds it, and none changes otherwise |
| `Registry.Registry.RestoreOrder` | services/trading-svc/internal/matching/registry.go:93-97 | rests the order in its book without matching |
| `Registry.Registry.GetOrderbookDepth` | services/trading-svc/internal/matching/registry.go:101-135 | the best levels of some book of the outcome, or nothing if there is none |
| `Guarantees.DepthSoundly` | services/trading-svc/internal/matching/registry.go:101-135 | on the service's own objects: a depth query shows the best levels of the outcome's book under its own market, each with exactly the orders of its price, whatever the order in which engines are searched; orders are left out only behind that many strictly better levels |
| `Startup.RestoreBooks` | services/trading-svc/cmd/main.go:94-103 | the start-up loop restores every open order row, each once, into empty books |
| `Restart.RestoreIsStableSort` | services/trading-svc/internal/matching/registry.go:93-97 | restoring a list is a stable sort of each side by price |
| `Restart.RestartKeepsDepth` | services/trading-svc/cmd/main.go:94-103 | the rebuilt books have the depth of the live books they replace |
| `Restart.RestartKeepsAgreement` | services/trading-svc/cmd/main.go:94-103 | after a restart, engine and ledger agree |
| `Depth.StableSortIsUnique` | services/trading-svc/internal/matching/orderbook.go:68-115 | a stable sort by price has only one result |
| `Stores.UserRepository.UpdateBalance` | infra/memory/user_repo.go:72-84 | sets both balances of an existing user, fails on an unknown one |
| `Stores.UserRepository.Create` | infra/memory/user_repo.go:29-40 | inserts a user unless its identifier exists |
| `Stores.OrderRepository.Create` | infra/memory/order_repo.go:29-40 | inserts a row unless its identifier exists |
| `Stores.OrderRepository.UpdateStatus` | infra/memory/order_repo.go:57-70 | sets status and fill of an existing row, fails on an unknown one |
| `Stores.OrderRepository.ListOpenByMarket` | infra/memory/order_repo.go:74-91 | every open or partial row of the market exactly once, and nothing else |
| `Stores.OrderRepository.ListAllOpen` | infra/memory/order_repo.go:94-107 | every open or partial row exactly once, and nothing else |
| `Stores.PositionRepository.Upsert` | infra/postgres/sqlcgen/positions.sql.go:111-118 | overwrites the position there is |
| `Stores.PositionRepository.ListByMarket` | infra/postgres/position_repo.go:61-67 | every position of the market exactly once, and nothing else |
| `Stores.OutcomeRepository.ListByMarket` | infra/postgres/outcome_repo.go:50-67 | every outcome of the market exactly once, and nothing else |
| `Stores.OutcomeRepository.SetWinner` | infra/postgres/outcome_repo.go:69-77 | adds an existing outcome to the winners, fails on an unknown one; no outcome changes its market |
| `Stores.MarketRepository.Create` | infra/memory/market_repo.go:28-39 | inserts a market unless its identifier exists |
| `Stores.MarketRepository.Update` | infra/memory/market_repo.go:56-67 | replaces an existing market, fails on an unknown one |
| `Stores.Tables.Rollback` | infra/postgres/tx_manager.go:28-49 | puts all tables back to what they held when the transaction began |
| `OrderService.TakeEscrow` | services/trading-svc/internal/service/order.go:100-134 | locks a buy's full cost or takes a sell's quantity out of the position, with the errors in the order of the checks |
| `OrderService.SettleBuyer` | services/trading-svc/internal/service/order.go:172-208 | releases locked funds at the buyer's price, refunds the improvement, and adds the shares at the weighted average price |
| `OrderService.SettleOne` | services/trading-svc/internal/service/order.go:150-235 | one turn of the settlement loop does to all tables what the specification of a trade says, and fails exactly when it does |
| `OrderService.SettleTrades` | services/trading-svc/internal/service/order.go:150-235 | the settlement loop settles all trades in order, stopping at the first failure |
| `OrderService.OrderService.PlaceOrder` | services/trading-svc/internal/service/order.go:71-252 | the whole call, on tables and engine, equals the specification: result, tables (rolled back on failure) and books (never rolled back) |
| `OrderService.OrderService.CancelOrder` | services/trading-svc/internal/service/order.go:257-298 | the whole call equals the specification, including the order in which engine and tables change |
| `OrderService.OrderService.CancelAllOrdersByMarket` | services/trading-svc/internal/service/order.go:354-411 | the loop over the listed orders equals the specification on that listing, which holds every open order of the market once |
| `OrderService.AgreementKeepsIdsOnce` | services/trading-svc/internal/service/order.go:269-273 | engine and ledger agreeing, no identifier rests in two books, so the search through all engines is unambiguous |
| `Placement.PlaceOrderKeepsInv` | services/trading-svc/internal/service/order.go:71-252 | placing keeps the exchange invariant, and is accepted exactly if the price is between 1 and 99 cents, the quantity positive, and a buyer's balance covers price times quantity or a seller holds the quantity; a rejection changes neither ledger nor books |
| `Placement.RefusedReply` | services/trading-svc/internal/service/order.go:71-145 | a refused request changes nothing and is told the first of: price out of range, unknown user, insufficient balance or shares, no position, quantity not positive |
| `Proceeds.AccountsFollowTrades` | services/trading-svc/internal/service/order.go:100-219 | after an accepted placement every account is exactly what its own part in the trades makes of it: makers of a buy receive price times quantity, makers of a sell pay it out of locked funds, all others stay |
| `Proceeds.PositionsFollowTrades` | services/trading-svc/internal/service/order.go:118-208 | after an accepted placement every position has gone through exactly its holder's own purchases, from what it was less what a sell set aside |
| `Fills.PlacementFillsRows` | services/trading-svc/internal/service/order.go:136-245 | after an accepted placement the order answered and stored is filled by its trades and is filled, partial or open accordingly; each maker's row has grown by its trades, and all other rows are as they were |
| `Fills.PlacementStoresTrades` | services/trading-svc/internal/service/order.go:150-154 | an accepted placement stores exactly the trades it answers, behind those there were |
| `Placement.AcceptedPlacement` | services/trading-svc/internal/service/order.go:136-245 | once the engine has accepted, no settlement step fails, and the order table follows the engine row by row |
| `Settlement.SettleTradeKeepsFunds` | services/trading-svc/internal/service/order.go:150-235 | one trade between orders of the table never fails and keeps the funds invariant |
| `Settlement.MatchSettles` | services/trading-svc/internal/service/order.go:150-245 | settling trade by trade follows matching step by step for any number of trades |
| `Agreement.PlaceKeepsAgreement` | services/trading-svc/internal/service/order.go:136-245 | after placing, the live rows are again exactly the resting orders, field for field |
| `Agreement.NothingLost` | services/trading-svc/internal/matching/engine.go:132-228 | every order of the opposing side is afterwards consumed, skipped or left |
| `Agreement.RestsOnlyAtItsKey` | services/trading-svc/internal/matching/registry.go:77-89 | a resting order is in the book of its own market and outcome and in no other |
| `Funds.EscrowKeepsFunds` | services/trading-svc/internal/service/order.go:100-139 | escrow together with the new row keeps every locked balance equal to what open buys need, and every share accounted for |
| `Cash.PlaceOrderConservesCash` | services/trading-svc/internal/service/order.go:71-252 | placing leaves the total of balances and locked balances unchanged |
| `Cash.CancelOrderConservesCash` | services/trading-svc/internal/service/order.go:257-298 | cancelling leaves that total unchanged |
| `Cash.TakerPaysExactly` | services/trading-svc/internal/service/order.go:150-219 | a buy taker's balance falls by exactly the value of its trades plus the cost of what rests |
| `Settlement.AverageInRange` | services/trading-svc/internal/service/order.go:199-204 | a weighted average of prices in range stays in range |
| `AveragePrice.SettlementBuysAll` | services/trading-svc/internal/service/order.go:185-208 | settlement puts every holder through its own purchases in order, each averaged in by quantity |
| `AveragePrice.AverageDrift` | services/trading-svc/internal/service/order.go:199-204 | after n fills of one holder, average times quantity differs from the true cost by at most n times the rounding error times the final quantity |
| `AveragePrice.RoundHalfUpQualifies` | services/trading-svc/internal/service/order.go:203 | rounding half up to any number of decimals of at least two meets what is assumed of the division |
| `Cancellation.CancelOrderKeepsInv` | services/trading-svc/internal/service/order.go:257-298 | a cancellation succeeds exactly for the owner of a live order, keeps the invariant with the shares it drops counted as lost, and otherwise changes nothing |
| `Cancellation.CancelOrderEffect` | services/trading-svc/internal/service/order.go:257-298 | all that a cancellation does and answers: who is refused and how, which book, row and account change, and that nothing else does |
| `Cancellation.SecondCancelFails` | services/trading-svc/internal/service/order.go:269-273 | cancelling again fails and moves no funds |
| `Cancellation.EngineFindsLiveOrders` | services/trading-svc/internal/service/order.go:269-273 | the engine finds an order exactly if its row is live |
| `Cancellation.CancelGivesBackIff` | services/trading-svc/internal/service/order.go:275-290 | a single cancellation gives back what the order had set aside, a buy's funds or a sell's shares, if and only if the order is a buy |
| `MarketCancellation.CancelAllWorks` | services/trading-svc/internal/service/order.go:354-411 | cancel-all never fails midway, counts every open order, keeps the invariant, and returns what each order held |
| `MarketCancellation.CancelAllEmptiesMarket` | services/trading-svc/internal/service/order.go:354-411 | afterwards every book of the market is empty and locked balances are backed by other markets only |
| `MintService.MintService.MintTokens` | services/trading-svc/internal/service/mint.go:45-112 | the whole call equals the specification; a failure leaves the tables as they were |
| `Minting.MintKeepsInv` | services/trading-svc/internal/service/mint.go:55-88 | minting succeeds exactly if the user can pay, takes that much cash, and accounts for every share created or overwritten |
| `Minting.MintEffect` | services/trading-svc/internal/service/mint.go:45-112 | all that a mint does and answers: the user pays one per set and has exactly the quantity of every outcome at an average of one; nothing else changes |
| `Minting.MintAddsSharesIff` | services/trading-svc/internal/service/mint.go:69-81 | minting adds its quantity to an outcome's shares if and only if the user held none of it before |
| `Shortfalls.SecondMintOverwrites` | services/trading-svc/internal/service/mint.go:69-81 | of two sets minted one after the other the first is lost: a run in which the condition above fails |
| `Shortfalls.CancelledSellIsLost` | services/trading-svc/internal/service/order.go:275-290 | a sell that rests and is cancelled by its owner is lost entirely: a run in which a cancellation does not give back |
| `Shortfalls.PartialFillLosesPlace` | services/trading-svc/internal/matching/engine.go:168-228 | two asks at one price and a bid of the first one's owner for part of the second: the first ends up behind |
| `Shortfalls.CancellationOverpays` | services/market-svc/internal/service/settlement.go:166-221 | a mint of a set of n outcomes and the market's cancellation: n times what was collected is refunded |
| `MarketService.CheckTransition` | services/market-svc/internal/service/market.go:64-75 | the table lookup finds exactly the allowed transitions |
| `Lifecycle.TransitionsAdvance` | services/market-svc/internal/service/market.go:56-75 | a transition is allowed exactly if it advances by one stage; only closed markets become terminal and nothing leaves a terminal status |
| `Effects.RegisterEffect` | services/auth-svc/internal/service/auth.go:100-113 | a new user has one thousand in cash and nothing locked; nothing else changes |
| `Effects.CreateMarketEffect` | services/market-svc/internal/service/market.go:104-150 | a new market is a draft without an outcome; nothing else changes |
| `Effects.UpdateStatusEffect` | services/market-svc/internal/service/market.go:182-197 | along an allowed transition the market gets exactly the status asked for and keeps its outcome; any other request is refused, with its reason; nothing else changes |
| `Effects.MarkResolvedEffect` | services/market-svc/internal/service/market.go:202-245 | exactly a closed market is resolved to one of its own outcomes; refusals name their reason; nothing else changes |
| `Effects.SettlementRefused` | services/market-svc/internal/service/settlement.go:61-90 | settling an unknown market, one not closed, or for an outcome not its own is refused, with its reason, and changes nothing |
| `Effects.MarketsReachClosed` | services/market-svc/internal/service/market.go:56-75 | every new market can be created, opened and closed, and is a draft, open and closed in turn |
| `MarketService.MarketService.UpdateMarketStatus` | services/market-svc/internal/service/market.go:182-197 | moves the market if the transition is allowed and changes nothing otherwise |
| `MarketService.MarketService.ResolveMarket` | services/market-svc/internal/service/market.go:202-245 | marks a closed market resolved, and one of its own outcomes as the winner; pays no one |
| `SettlementService.PayWinners` | services/market-svc/internal/service/settlement.go:115-133 | the payout loop credits the specified payments one by one |
| `SettlementService.RefundHolders` | services/market-svc/internal/service/settlement.go:197-217 | the refund loop credits the specified refunds one by one |
| `SettlementService.SettlementService.ResolveMarket` | services/market-svc/internal/service/settlement.go:61-139 | the whole call equals the specification: cancel-all first and not rolled back, then market and payouts together or not at all |
| `SettlementService.SettlementService.CancelMarket` | services/market-svc/internal/service/settlement.go:166-221 | the whole call equals the specification, likewise |
| `Payments.PayAllIsExact` | services/market-svc/internal/service/settlement.go:115-133 | every balance grows by exactly the sum of what is paid to it, nothing else moves |
| `Payments.RefundsIgnoreOrder` | services/market-svc/internal/service/settlement.go:191-217 | what a user is refunded does not depend on the order of the listing |
| `Payments.PayoutTotal` | services/market-svc/internal/service/settlement.go:115-133 | a resolution pays in total the winning shares held |
| `Payments.WinnersAreOwed` | services/market-svc/internal/service/settlement.go:115-133 | each user is paid exactly the winning shares it holds |
| `Solvency.ResolutionPaysExactly` | services/market-svc/internal/service/settlement.go:67-139 | resolving a closed market goes through, pays every user exactly its winning shares, in total minted minus lost and never more than minting collected, and beyond cancel-all, the market and its winner changes nothing else |
| `Solvency.CancellationRefundsExactly` | services/market-svc/internal/service/settlement.go:166-221 | cancelling a closed market goes through, refunds every user the sum of quantity times average price, changes nothing else beyond cancel-all and the market, and stays within what minting collected if and only if the tables before the call owed no more than that |
| `Refunding.CancelAllKeepsRefunds` | services/trading-svc/internal/service/order.go:354-411 | cancel-all moves value from open sells back to positions, and changes nothing about what a market owes its holders |
| `Refunding.RefundsAreOwed` | services/market-svc/internal/service/settlement.go:191-217 | what is refunded in total is what positions and open sells were worth at their holders' average prices before the call |
| `Closing.EndedMarketIsRefused` | services/market-svc/internal/service/market.go:56-75 | a market that has ended can be neither resolved nor cancelled, in any way |
| `Closing.EndingSettlesIff` | services/market-svc/internal/service/market.go:182-245 | the step that ends a market pays its holders if and only if it is one of the settlement service; otherwise nobody has been paid |
| `Closing.EndIsFinal` | services/market-svc/internal/service/market.go:56-75 | no continuation changes the status or winner of an ended market, settles it or pays for it, so one that ended unpaid stays unpaid |
| `Closing.MarkedMarketIsNeverPaid` | services/market-svc/internal/service/market.go:202-245 | after the market service has resolved a market, its winners are never paid |
| `World.InitialIsOk` | services/trading-svc/internal/service/order.go:37-46 | a platform without orders, positions and mints satisfies the invariant |
| `World.StepKeepsWorld` | services/trading-svc/internal/service/order.go:71-411 | every one of the eleven kinds of step keeps the platform invariant |
| `World.RegisterKeepsWorld` | services/auth-svc/internal/service/auth.go:100-113 | a new user brings in the initial balance and owes and holds nothing |
| `World.RunKeepsWorld` | services/trading-svc/internal/service/order.go:71-411 | so does every run |
| `Solvency.AnyRunIsSound` | services/market-svc/internal/service/settlement.go:61-221 | after any run: engine and ledger agree, no balance is negative, locked funds are backed, average prices are in range, all shares and cash are accounted for, no market was settled twice and none has two winners |
| `AuditTrail.StepMovesTables` | services/trading-svc/internal/service/order.go:71-411 | the tables of orders and trades after any step: an accepted placement adds its row and trades and fills the rows it traded with, a withdrawal marks exactly the rows it concerns, nothing else touches them |
| `AuditTrail.TradesAreThoseAnswered` | services/trading-svc/internal/service/order.go:150-154 | after any run the trade table holds exactly the trades answered, in order |
| `AuditTrail.CancelledOnlyIfWithdrawn` | services/trading-svc/internal/service/order.go:257-411 | an order is cancelled only by a cancellation by its own user or of all orders of its market |
| `AuditTrail.AnyRunIsRecorded` | services/trading-svc/internal/service/order.go:71-411 | after any run every order is filled by exactly its trades, every status is that of the fill unless the order was cancelled, and every trade is between two orders of the table at the maker's price and within the taker's limit |
| `Vault.RunKeepsSolvent` | services/market-svc/internal/service/settlement.go:61-221 | over a whole run, a market that is never cancelled with its refunds uncovered pays out no more than its minting collected |
| `Vault.VaultHolds` | services/market-svc/internal/service/settlement.go:61-221 | over a whole run without such a cancellation, all markets together pay out no more than minting collected |
| `Guarantees.PlaceSoundly` | services/trading-svc/internal/service/order.go:71-252 | on the service's own objects: a request is placed exactly if it is acceptable, and then every account, position, order row and trade row is as the answered trades make it; a refusal names the first reason and changes nothing; the invariant holds afterwards |
| `Guarantees.CancelSoundly` | services/trading-svc/internal/service/order.go:257-298 | on the service's own objects: a cancellation succeeds exactly for the owner of a live order, otherwise says why, and keeps the invariant |
| `Guarantees.CancelAllSoundly` | services/trading-svc/internal/service/order.go:354-411 | on the service's own objects: cancel-all returns the number of open orders and empties the market's books |
| `Guarantees.MintSoundly` | services/trading-svc/internal/service/mint.go:45-112 | on the service's own objects: minting succeeds exactly if the user can pay, takes exactly the quantity from its balance, a refusal says why and changes nothing, and the invariant holds afterwards |
| `Guarantees.RestartSoundly` | services/trading-svc/cmd/main.go:94-103 | a service started anew on the tables of a running one, with its books rebuilt, satisfies the invariant again |
| `Guarantees.RegisterSoundly` | services/auth-svc/internal/service/auth.go:100-113 | a user new to the tables is created with one thousand in cash, a known one is refused, and the platform stays sound |
| `Guarantees.UpdateStatusSoundly` | services/market-svc/internal/service/market.go:182-197 | on the service's own objects: along an allowed transition the market gets exactly the status asked for and keeps its outcome, no other market changes, and the platform stays sound |
| `Guarantees.MarkResolvedSoundly` | services/market-svc/internal/service/market.go:202-245 | on the service's own objects: exactly a closed market is marked, for one of its own outcomes, no other market changes, and the platform stays sound |
| `Guarantees.ResolveSoundly` | services/market-svc/internal/service/settlement.go:61-139 | on the service's own objects: a resolution succeeds exactly for a closed market and one of its outcomes, and leaves a sound platform |
| `Guarantees.CancelMarketSoundly` | services/market-svc/internal/service/settlement.go:166-221 | on the service's own objects: a market's cancellation succeeds exactly for a closed market, and leaves a sound platform |
| `Uuid.ParseUUID` | infra/postgres/convert.go:67-84 | hyphens anywhere are dropped; any other length than 32 digits is an error; digits are packed two to a byte |
| `Uuid.FormatUUID` | infra/postgres/convert.go:99-113 | lower-case digits grouped 8-4-4-4-12 |
| `Uuid.FormatShows` | infra/postgres/convert.go:99-113 | each byte is printed as the two hexadecimal digits of its value, higher first, at its place, and the hyphens stand at theirs |
| `Uuid.ParseUndoesFormat` | infra/postgres/convert.go:67-113 | parsing a printed value gives it back, for every 16 bytes |
| `Uuid.FormatUndoesParseIff` | infra/postgres/convert.go:67-113 | for 32 characters with any hyphens, printing the parse gives their lower-case canonical form if and only if all of them are hexadecimal digits |
| `Uuid.NonHexIsAccepted` | infra/postgres/convert.go:67-96 | a text with one other character is accepted all the same and not given back |

## Left out

- Engine events, subscriptions, the event bus, the WebSocket hub and all logging and tracing: they do not change books or tables.
- gRPC and HTTP handlers, generated database code, SDKs, frontend and configuration: field mapping only.
- Authentication and API keys: they rest on hashing and randomness that are not visible here.
- Mutexes and interleavings: a locked section or service call is one step.
- Time stamps and the generation of identifiers: time stamps are not modelled, identifiers are parameters.
- Decimal column scale of the database and failures of the database itself: values are exact, and a repository fails only on a row that is missing or, for creation, present.
- Market status in trading and minting: the trading service does not look at it, so nothing is claimed about it.
- Order listing with pagination, rankings, portfolio totals and caches: they only read.
- ListMarkets and GetMarket, and what CreateMarket checks and stores of titles, labels and its batch of outcomes: a created market is a draft, and the outcomes of a run's markets are fixed from the start.
- The wallet of a user: registration creates a user under its identifier, where the program first looks for one with the same wallet.
- CancelAllByMarket of the order repositories: no service calls it.
- The in-memory transaction manager, which does not roll back: the model has the one of the database.
- Sides other than buy and sell: the program compares strings, the model has exactly the two.
- Negative depth limits: the program would panic on them; its callers pass a positive number.
- The linked list of a queue is a sequence, and its index maps to the order instead of to the list element; the addition to bids and the addition to asks, which mirror each other, are one method with the side as a parameter, as are the two dequeue methods underneath.
- Positions are keyed by user and outcome, where the database also has the market in the key; with each outcome in one market the two are the same.
