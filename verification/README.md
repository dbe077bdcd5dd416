# Exchange core: a verified model

The repository holds two stock exchanges written in C++: a multi-threaded simulation (`Src_Simulation`) and a market
session over an SQL database (`Src_SQL`). This project models their cores in Dafny 4.11 and proves what they are for.
`dafny verify dfyconfig.toml` checks everything.

## What is modelled

**The order book** (`PriceTimeList`, `Books`, `BestExecution`, `BookRuns`). Class `Books.OrderBook` keeps, as the
original does, price levels of queues on either side, and its methods run the two nested loops: over levels while they
cross, over a level's queue while quantity is left. They are proved to do what a one-order-at-a-time sweep of the flat
price-time list does. About that sweep: it fills all that any acceptable resting quantity allows; it takes orders from
the front of the list with at most one partial fill, at the end; no other way of taking the same quantity is cheaper
(or, selling, earns more); selling mirrors buying under price negation. About all runs of matches and cancellations:
best bid below best ask, positive quantities, every order under its own side and price, arrival order within a price, no
MARKET order resting, and the two cancellations agree exactly when the order is not at another price.

**The matching engine** (`Registry`, `RegistryRuns`, `Portfolios`, `EngineModel`, `EngineRuns`, `OrderLifecycle`,
`OrderPlaces`, `EngineBooks`, `Admission`, `MatchEffects`, `LastTrades`, `MatchingEngine`, `Settlement`, `MarketMaker`).
Class `MatchingEngine` works over real book objects and a real registry object and is tied, method by method, to the
engine as a value (`EngineModel`). About one call: who is refused, who waits, and whom a match pays and charges what.
About whole calls in any order: the last price is that of the last trade, and a waiting order whose condition it meets
is released by the next tick; a waiting order on a symbol not marked dirty is never ready, so a dirty-only scan releases
what a full one would; release cascades die out; quantity accepted is filled, resting, waiting, dropped, cancelled or
expired, and nothing else; an id is in one place. About threads that match and settle under different locks
(`Settlement`): every client's portfolio plus unsettled trades is what was granted plus what was traded, in every
interleaving, in any order of settlement, and the total of cash and of shares never changes. The market maker's
cancel-and-requote step, over the same engine, never has more than one resting order a side, whatever others call
between any two of its own calls.

**The SQL market** (`Crossing`, `SqlMarket`). Vectors kept sorted by bisection, the auction and the continuous sweep
with two indices and in-place remainders. Of the rows before the first that stops it on each side, one of an unknown
client or without quantity, the auction trades the greatest volume any single price could, and leaves them uncrossed;
with no such row that is all there is, and otherwise it is the greatest of all exactly when nothing with quantity left
crosses. Both sweeps do the same to an action and fill every order from the front by just what it loses; nobody trades
outside a limit, and between two MARKET orders the action's own price decides. Rows of the orders table are records, and
the fresh random order ids are a given stream.

**The event bus and its consumer** (`EventBus`, `Candles`). The bus is a state machine with one step for each stretch of
code under a lock and one for each callback. Proved for every interleaving: published is dispatched plus in flight plus
queued; who is registered, and what somebody who subscribes while the bus runs gets to hear; what a return from `flush`
promises, and how long it can take once publishing stops; no callback after `unsubscribe`; the destructor drains the bus
and ends. `MarketData` keeps candles trade by trade, and they are the batch's: one to each maximal run of trades of one
bucket. Composed: when a flush returns, an object subscribed from the start has the batch's candles over every trade
published.

**Bytes** (`BigEndian`, `Framing`, `LeftoverFraming`, `Words`, `SecureHash`, `HashBits`, `HashConstants`,
`Sha256Stream`). Two framings of messages over streams that arrive in arbitrary pieces, one with a leftover buffer;
SHA-256 as a stream of updates against FIPS 180-4, whose functions are given bit by bit and whose constants are proved
to be the fractions of roots of primes that they are meant to be. Words are numbers below 2^32, with every wrap-around
written out.

**Persistence** (`Text`, `Rounding`, `Amounts`, `Extraction`, `MapOrder`, `Accounts`, `Persistence`). The snapshot
printer, the parser and the two-pass restore into a directory and an engine, for lines in any order. Amounts are printed
with seventeen significant digits, fixed or scientific, and read back as the nearest binary double; that this reproduces
every double, and nothing else, is proved. Fields are taken off a line one by one as from a string stream, malformed
lines included. Saving and loading, in any order of lines, restores everything if and only if all names are words and
all amounts doubles.

Prices and cash are exact `real`s, quantities and ids unbounded integers, time a parameter of each call, release bounds
carry explicit infinities. Functions that only compute carry no contract of their own; the lemmas named below are about
them.

Findings, where the code does not do what its documentation says:

- `Src_SQL/README.md:32-33` says the auction executes at a single price. It prices every pair by itself
  (`Crossing.FixingCanUseTwoPrices` is an example); `SqlMarket.SinglePriceExactly` says when all fills are at one price,
  MARKET orders on either side included.
- `Src_Simulation/include/market_data.hpp:38` says the most recent candle comes first; `recent_candles` returns the
  oldest of them first, so that it holds only of fewer than two candles (`Candles.MarketData.RecentCandles`).
- A MARKET buy of no shares is accepted (`Src_SQL/server.cpp:639`, `Src_SQL/client.cpp:66-88`) and sorted to the front,
  where it stops both sweeps of its action: nothing trades, though at every price as much could as before
  (`Crossing.EmptyOrderStopsTheSweep`; `Crossing.EmptyMarketBuyStopsTheSweep` is an example). So the volume is the
  greatest of the rows in front of such a row (`Crossing.CrossTradesTheGreatestVolume`), and of whole sides exactly when
  nothing with quantity left crosses (`Crossing.GreatestOfWholeSides`).
- Among SQL orders of equal price and time the newest stands first, not last (`Crossing.NewcomerLeadsItsTies`).
- Registering a symbol again resets its price without marking it dirty, which can leave a ready order to the next full
  scan (`EngineRuns.RegisterCanLoseComplete` is a run that ends so, and `EngineRuns.RegisterKeepsComplete` says exactly
  when it happens).
- `OrderRegistry::add` with an id already filed under another symbol lets its two maps disagree
  (`Registry.AddKeepsAgreement`, `Registry.OrderRegistry.Add`: exactly then); the engine never does that.
- The risk check covers what a limit order or a sell does on submission, but not what a MARKET buy costs: matched at once
  it leaves its client's cash at zero or more exactly when the cash covers the asks in front, the client's own counted
  as nothing (`EngineBooks.AcceptedMarketBuyIsPaidForExactly`; `EngineBooks.MarketBuyCanOverdraw` is a run after which
  110 in cash become 90 of debt).
- `recv_full_string` loses bytes when the connection fails in the body: when the peer just stops, everything left of the
  stream if that is a header or more, and nothing otherwise (`LeftoverFraming.Receiver.RecvFullString`;
  `LeftoverFraming.TruncatedMessageIsLost` is an example).
- FIPS 180-4 defines no hash of 2^61 bytes or more. There the code's bit count wraps, and what comes out is the hash of
  the message padded with the count modulo 2^64 (`Sha256Stream.Sha256.Hash`).
- A snapshot is restored if and only if every name in it is a word: a name with white space in it, or an empty one but for
  an account's last fields, does not come back (`Persistence.SnapshotRoundTrip`). The line of a symbol `A B`, whatever
  its price, is read as `A` at nothing (`Persistence.NameWithSpaceIsMisread`).

## Model

| member | source | states |
|---|---|---|
| Books.OrderBook.MatchOrder | Src_Simulation/src/order_book.cpp:10-16 | matching in place yields the trades and the book that the flat price-time sweep yields |
| Books.OrderBook.MatchIncomingBuy | Src_Simulation/src/order_book.cpp:18-64 | the level loop over the queue loop, partial fills, removal of emptied levels and resting of a LIMIT remainder come to the sweep of the asks |
| Books.OrderBook.MatchIncomingSell | Src_Simulation/src/order_book.cpp:66-112 | the same for the bids |
| Books.FillFromLevel | Src_Simulation/src/order_book.cpp:31-52 | the inner loop consumes one level's queue exactly as the sweep consumes its orders, and says what is left to do |
| Books.FillContinues | Src_Simulation/src/order_book.cpp:32-51 | one fill at the head of a level's queue: the trade it makes, what it leaves of the queue, and that the sweep of the whole side goes on from there |
| Books.PushBackMeaning | Src_Simulation/src/order_book.cpp:59-61 | pushing to the back of a price's queue is inserting behind every order of an equal or better price |
| Books.PushBackWellFormed | Src_Simulation/src/order_book.cpp:59-61 | levels stay strictly ordered, non-empty and filed under their price |
| Books.OrderBook.CancelPriced | Src_Simulation/src/order_book.cpp:114-148 | removes the first order with that id at that price on that side, drops an emptied level, and reports whether it was there |
| Books.OrderBook.Cancel | Src_Simulation/src/order_book.cpp:150-171 | removes the first order with that id, looking through the bids first |
| Books.EraseFlat | Src_Simulation/src/order_book.cpp:117-129 | erasing an order from its queue, and the level if that empties it, erases it from the flat list and nothing else |
| Books.OrderBook.BestBid | Src_Simulation/src/order_book.cpp:173-179 | the highest price of any resting buy order, or none |
| Books.OrderBook.BestAsk | Src_Simulation/src/order_book.cpp:181-187 | the lowest price of any resting sell order, or none |
| Books.OrderBook.Snapshot | Src_Simulation/src/order_book.cpp:189-215 | the best levels, best first and each price once, each with the total quantity resting at its price; nothing better is left out |
| Books.OrderBook.RestingOrders | Src_Simulation/src/order_book.cpp:217-227 | every resting order, bids before asks, in price-time order |
| PriceTimeList.RemoveHits | Src_Simulation/src/order_book.cpp:114-171 | removal takes out exactly the first order that matches |
| BestExecution.FillsAllItCan | Src_Simulation/src/order_book.cpp:18-112 | a match fills the smaller of the incoming quantity and the total acceptable resting quantity |
| BestExecution.TradesInListOrder | Src_Simulation/src/order_book.cpp:18-112 | trades come in list order, each at the resting order's price and within the incoming limit |
| BestExecution.ConsumesPrefix | Src_Simulation/src/order_book.cpp:21-57 | consumed orders are a beginning of the list, with at most one partial fill, the last |
| BestExecution.InOrderIsCheapest | Src_Simulation/src/order_book.cpp:18-112 | taking a quantity from the front costs no more than any other allocation of it over the resting orders |
| BestExecution.SweepIsInOrder | Src_Simulation/src/order_book.cpp:18-112 | the value of a match's trades is that of taking its filled quantity from the front |
| BestExecution.BestPrice | Src_Simulation/src/order_book.cpp:18-112 | no way of taking the filled quantity from the resting orders costs less, or for a sell earns more |
| BestExecution.MatchMirrors | Src_Simulation/src/order_book.cpp:66-112 | the sell code is the buy code with prices negated and sides exchanged |
| MatchEffects.PartiesOfTrades | Src_Simulation/src/order_book.cpp:36-45 | trade i is between the incoming order and the i-th resting one, each with its own client, in the book's symbol, at the resting price and now |
| MatchEffects.EverybodyMovesByLoss | Src_Simulation/src/order_book.cpp:32-51 | every client but the incoming one gains or pays exactly what its own resting orders lost, at their prices, and the incoming one the other way round what everybody else's lost |
| BookRuns.MatchKeepsInvariant | Src_Simulation/src/order_book.cpp:10-112 | matching any new order keeps the book invariant |
| BookRuns.RemoveKeepsInvariant | Src_Simulation/src/order_book.cpp:114-171 | either cancellation keeps it |
| BookRuns.ReachableBooks | Src_Simulation/src/order_book.cpp:10-171 | after any run of matches and cancellations: uncrossed, price and arrival order, positive quantities, own side, no MARKET order, no id twice |
| BookRuns.LeftCannotTrade | Src_Simulation/src/order_book.cpp:21-61 | a remainder that comes to rest crosses nothing left on the other side |
| BookRuns.PriceTimePriority | Src_Simulation/src/order_book.cpp:18-112 | in a reachable book whoever is behind is worse in price, or equal and later |
| BookRuns.CancelsAgree | Src_Simulation/src/order_book.cpp:114-171 | the two cancellations do the same if and only if no order with the id rests elsewhere than on the given side at the given price |
| BookRuns.CancelRemoves | Src_Simulation/src/order_book.cpp:114-171 | afterwards exactly the orders with another id are there |
| Registry.AddKeepsAgreement | Src_Simulation/src/order_registry.cpp:5-11 | adding keeps buckets and index in agreement if and only if the id is new or already filed under the order's symbol |
| Registry.OrderRegistry.Add | Src_Simulation/src/order_registry.cpp:5-11 | a new id is filed in both maps, one already filed stays as it is; the maps still agree if and only if it was not filed under another symbol |
| Registry.OrderRegistry.Cancel | Src_Simulation/src/order_registry.cpp:13-26 | takes the order out of both maps, or reports that it is not there |
| Registry.OrderRegistry.Size | Src_Simulation/src/order_registry.cpp:28-31 | the index counts the waiting orders |
| Registry.OrderRegistry.ScanBucket | Src_Simulation/include/order_registry.hpp:67-87 | one bucket's orders are released, expired or kept by expiry, start date and band, erased from both maps when they leave |
| Registry.OrderRegistry.ScanAndReleaseSymbol | Src_Simulation/include/order_registry.hpp:46-54 | judges exactly the symbol's orders |
| Registry.OrderRegistry.ScanAndRelease | Src_Simulation/include/order_registry.hpp:34-41 | judges every waiting order |
| Registry.ScanSplits | Src_Simulation/include/order_registry.hpp:34-87 | every scan splits the orders into released, expired and kept, none lost or in two parts, and the counts add up |
| Registry.NoneReadyStays | Src_Simulation/include/order_registry.hpp:67-87 | no order visited and left waiting was overdue or ready at that moment |
| Registry.ScannedMore | Src_Simulation/include/order_registry.hpp:34-54 | scanning symbol after symbol is scanning them together |
| RegistryRuns.OperationKeepsPlaces | Src_Simulation/include/order_registry.hpp:34-87 | every atomic operation leaves each order ever added in exactly one place |
| RegistryRuns.AddedIsAccounted | Src_Simulation/include/order_registry.hpp:34-87 | over any interleaving, added is waiting plus released plus expired plus cancelled |
| MatchingEngine.MatchingEngine.RegisterSymbol | Src_Simulation/src/matching_engine.cpp:9-19 | opens a book if there is none and sets the price in any case |
| MatchingEngine.MatchingEngine.EnsureClient | Src_Simulation/src/matching_engine.cpp:21-24 | an existing portfolio is left alone |
| MatchingEngine.MatchingEngine.GrantInitialHoldings | Src_Simulation/src/matching_engine.cpp:26-29 | adds shares and no cash |
| MatchingEngine.MatchingEngine.SettleTrade | Src_Simulation/src/matching_engine.cpp:105-116 | cash and shares change hands between the two portfolios, also when they are the same |
| MatchingEngine.MatchingEngine.SettleTrades | Src_Simulation/src/matching_engine.cpp:187-201 | trades are settled one by one, each setting the last price and the dirty mark, and their quantities summed |
| MatchingEngine.MatchingEngine.MatchAndSettle | Src_Simulation/src/matching_engine.cpp:181-212 | book, portfolios, prices and dirty set change as in the engine as a value |
| MatchEffects.MatchMovesPortfolios | Src_Simulation/src/matching_engine.cpp:181-201 | so portfolios change in a settled match by what the resting orders lost between the book before and after, and no shares of another symbol move |
| MatchEffects.MatchSetsPrice | Src_Simulation/src/matching_engine.cpp:192-200 | afterwards the symbol's price is that of the last trade, if there was one, and it is marked just then; every other symbol keeps price and mark |
| MatchingEngine.MatchingEngine.SubmitOrder | Src_Simulation/src/matching_engine.cpp:214-260 | an id is used up even by a rejection; an accepted order is matched or filed |
| MatchingEngine.MatchingEngine.AdmitOrder | Src_Simulation/src/matching_engine.cpp:243-259 | started and inside its band: matched at once; otherwise it waits |
| MatchingEngine.MatchingEngine.ScanDirtySymbols | Src_Simulation/src/matching_engine.cpp:262-280 | visiting the drained symbols in any order picks what scanning them together picks |
| MatchingEngine.MatchingEngine.ScanForRelease | Src_Simulation/src/matching_engine.cpp:262-280 | a full scan leaves the dirty set, a dirty-only scan drains it first |
| MatchingEngine.MatchingEngine.TryReleaseWaitingOrders | Src_Simulation/src/matching_engine.cpp:262-291 | a tick is a scan, then the matching of what it released, in its order |
| MatchingEngine.MatchingEngine.CancelOrderPriced | Src_Simulation/src/matching_engine.cpp:293-296 | cancels in the symbol's book |
| MatchingEngine.MatchingEngine.CancelOrder | Src_Simulation/src/matching_engine.cpp:298-301 | cancels by id in the symbol's book |
| MatchingEngine.MatchingEngine.CancelWaitingOrder | Src_Simulation/src/matching_engine.cpp:303-305 | cancels in the registry |
| LastTrades.PriceIsLastFixed | Src_Simulation/src/matching_engine.cpp:192-200 | in every state whole calls reach, a symbol's last price is that of its last trade or of a later registration |
| LastTrades.MarkedExactly | Src_Simulation/src/matching_engine.cpp:169-200 | in every such state the marked symbols are those that traded since the last dirty-only tick |
| LastTrades.WaitsAsSubmitted | Src_Simulation/src/matching_engine.cpp:253-259 | an order waits, as long as it does, as it was asked for |
| LastTrades.LastTradeReleases | Src_Simulation/src/matching_engine.cpp:262-280 | a waiting order without a start date is released by the next tick if and only if it has not expired and the last trade's price meets its condition: a STOP's trigger has been reached |
| LastTrades.ResultsInOrder | Src_Simulation/src/matching_engine.cpp:280-282 | what is released is matched in the order it is listed in |
| EngineRuns.QuietKeepsComplete | Src_Simulation/src/matching_engine.cpp:192-200 | a price only changes together with the dirty mark, which keeps the dirty set complete |
| EngineRuns.RegisterKeepsComplete | Src_Simulation/src/matching_engine.cpp:9-19 | registering keeps the dirty set complete if and only if the symbol is dirty anyway or nothing without a start date waits for the new price |
| EngineRuns.RegisterCanLoseComplete | Src_Simulation/src/matching_engine.cpp:9-19 | a run of whole calls whose last registration loses it |
| EngineRuns.RunsStayComplete | Src_Simulation/src/matching_engine.cpp:169-291 | in every state whole calls reach, a waiting order without a start date on a symbol not dirty is not ready, provided no registration breaks the condition of the row above |
| EngineRuns.ReachableDirtyTickSuffices | Src_Simulation/src/matching_engine.cpp:262-280 | in every such state a dirty-only scan releases exactly the orders without a start date that a full scan would |
| EngineRuns.TickShrinksOrQuiets | Src_Simulation/src/matching_engine.cpp:262-291 | a dirty-only tick shrinks the registry or leaves nothing dirty |
| EngineRuns.CascadesDieOut | Src_Simulation/src/matching_engine.cpp:262-291 | with nothing new submitted, as many ticks as orders wait, and one more, reach a state with nothing dirty |
| EngineRuns.StaysQuiet | Src_Simulation/src/matching_engine.cpp:262-291 | and it stays so |
| OrderLifecycle.SweepBalances | Src_Simulation/src/order_book.cpp:21-61 | what a sweep fills leaves both orders by the same quantity |
| OrderLifecycle.ScanBalances | Src_Simulation/include/order_registry.hpp:67-87 | what a scan takes out is what it released and expired |
| OrderLifecycle.StepBalances | Src_Simulation/src/matching_engine.cpp:214-305 | one call changes an order's live quantity by exactly what it logs |
| OrderLifecycle.QuantityConserved | Src_Simulation/src/matching_engine.cpp:214-305 | over any run, accepted quantity is filled, resting, waiting, discarded MARKET remainder, cancelled or expired |
| OrderPlaces.OnePlaceEver | Src_Simulation/src/matching_engine.cpp:214-291 | an accepted id is in at most one place: the registry, or one position of one book |
| OrderPlaces.LeavesRegistryReady | Src_Simulation/include/order_registry.hpp:67-87 | an order leaves the registry for a book only if the scan saw its band satisfied, its start passed and its expiry not |
| OrderPlaces.EntersBookReleased | Src_Simulation/src/matching_engine.cpp:214-291 | only an order submitted or released in that call can come to rest in a book |
| EngineBooks.EngineBooksAreReachable | Src_Simulation/src/matching_engine.cpp:181-305 | in every state whole calls reach, every book is uncrossed, in price and arrival order, with positive quantities and no MARKET order |
| Admission.BuiltAsRequested | Src_Simulation/src/matching_engine.cpp:118-167 | an order's band, start and expiry mean what its request asked for: a STOP buy waits for the price to rise to its trigger, a STOP sell for it to fall |
| Admission.PlainOrdersNeverWait | Src_Simulation/src/matching_engine.cpp:243-259 | an order without trigger or start date is never filed |
| Admission.QueuedExactly | Src_Simulation/src/matching_engine.cpp:246-259 | an accepted order is filed if and only if the last price does not meet its condition or its start is still to come |
| Admission.RefusedExactly | Src_Simulation/src/matching_engine.cpp:87-103 | a limit buy is refused for cash if and only if a full fill at its limit would overdraw, a sell for shares if and only if it would deliver more than there is, a MARKET buy if and only if the last price and a tenth is not covered |
| Admission.RefusedOtherwise | Src_Simulation/src/matching_engine.cpp:217-241 | the other reasons, in their order, for unknown clients and symbols too; a refusal changes only the next id |
| EngineBooks.AcceptedLimitBuyIsPaidFor | Src_Simulation/src/matching_engine.cpp:87-103 | in every reachable state an accepted limit buy leaves its client's cash at zero or more, whatever of it is matched on submission |
| EngineBooks.AcceptedSellIsDelivered | Src_Simulation/src/matching_engine.cpp:87-103 | and an accepted sell its client's holding of the symbol |
| Admission.MarketBuyCosts | Src_Simulation/src/matching_engine.cpp:87-103 | an accepted MARKET buy matched at once costs its client what the asks in front cost, its own counted as nothing |
| EngineBooks.AcceptedMarketBuyIsPaidForExactly | Src_Simulation/src/matching_engine.cpp:87-103 | so in every reachable state it leaves the client's cash at zero or more if and only if the cash covers that |
| EngineBooks.MarketBuyCanOverdraw | Src_Simulation/src/matching_engine.cpp:87-103 | a run of whole calls after which such an order is accepted and overdraws |
| MarketMaker.RequoteTidy | Src_Simulation/src/bot.cpp:137-192 | a tick, whatever it draws, leaves the bot nothing but the quotes it remembers |
| MarketMaker.OthersStayTidy | Src_Simulation/src/matching_engine.cpp:214-305 | so does every call of anybody else |
| MarketMaker.UndisturbedTick | Src_Simulation/src/bot.cpp:137-192 | the withdrawals, the look at the price and the submissions one by one, with nobody in between, are the tick |
| MarketMaker.MoveKeepsQuotes | Src_Simulation/src/bot.cpp:141-190 | every single call of the bot or of others leaves the bot nothing but the quotes it remembers, and the side it is about to quote empty |
| MarketMaker.AtMostOneQuoteASide | Src_Simulation/src/bot.cpp:137-192 | at every moment of any run, with calls of others between any two of the bot's own, it has at most one resting buy and one resting sell across all symbols |
| MarketMaker.MarketMakerBot.Step | Src_Simulation/src/bot.cpp:137-192 | withdraws both quotes, then quotes the new symbol around its price, changing the engine and its memory as said |
| MarketMaker.TickSubmits | Src_Simulation/src/bot.cpp:158-190 | with a price to go by, a tick submits a limit buy and then a limit sell, evenly round the middle and the whole spread apart unless the buy is at 0.01 |
| MarketMaker.QuotesAroundMiddle | Src_Simulation/src/bot.cpp:166-169 | the bid is positive and below the middle, the ask above it; at the smallest price they are in order if and only if the ask is above it |
| MarketMaker.MiddleIs | Src_Simulation/src/bot.cpp:155-158 | the middle is the last price if that is positive, and only otherwise the other source's |
| MarketMaker.RememberedRests | Src_Simulation/src/bot.cpp:178-190 | an order is remembered only if something of it rests |
| Settlement.SettleMoves | Src_Simulation/src/matching_engine.cpp:105-116 | settling moves the trade's own cash and shares, whoever trades with whom |
| Settlement.AlwaysAccounted | Src_Simulation/src/matching_engine.cpp:181-201 | in every interleaving, portfolio plus unsettled trades is grants plus all trades, for every client and symbol |
| Settlement.SettlementOrderIrrelevant | Src_Simulation/src/matching_engine.cpp:187-201 | final portfolios do not depend on the order or threads of settlement |
| Settlement.TotalsConserved | Src_Simulation/src/matching_engine.cpp:105-116 | the clients together always hold exactly what was paid in |
| Crossing.InsertRowSorted | Src_SQL/market.cpp:449-460 | insertion keeps price-time priority |
| Crossing.SortedMeans | Src_SQL/market.cpp:413-433 | a side in order has the best price first and at one price the earliest day and time of day |
| Crossing.InsertRowMembers | Src_SQL/market.cpp:449-460 | and adds just the new row |
| Crossing.InsertRowAt | Src_SQL/market.cpp:449-460 | the place a bisection ends at is the place of insertion |
| Crossing.NewcomerLeadsItsTies | Src_SQL/market.cpp:413-433 | a newcomer stands before every row without priority over it, so first among equal price and time |
| SqlMarket.LowerBound | Src_SQL/market.cpp:449-460 | the first row the new one need not stand behind |
| SqlMarket.Market.AccumulateOrder | Src_SQL/market.cpp:436-461 | an unknown client is refused; the order goes to its place in its side of its action |
| SqlMarket.Market.DeaccumulateOrder | Src_SQL/market.cpp:464-494 | the first row with the id goes, nothing else changes |
| SqlMarket.EraseUndoesInsert | Src_SQL/market.cpp:436-494 | taking an order back undoes adding it |
| SqlMarket.EraseIdSorted | Src_SQL/market.cpp:464-494 | erasing keeps the order of the rest |
| Crossing.CrossConserves | Src_SQL/market.cpp:511-650 | pending plus completed quantity per side is unchanged, every fill is positive, crosses, and is between existing clients |
| Crossing.CrossFillsEach | Src_SQL/market.cpp:576-650 | every single order by itself: what it still wants and what it has been filled make up what it wanted |
| Crossing.CrossTakesFronts | Src_SQL/market.cpp:576-650 | either side loses the volume traded from its front, in price-time order, and nothing else |
| Crossing.CrossSorted | Src_SQL/market.cpp:623-650 | remainders put back in place keep both sides sorted |
| Crossing.OnlyHeadsCross | Src_SQL/market.cpp:558-575 | rows behind the first of an unknown client or without quantity take no part: the sweep makes the fills of the rows before it |
| Crossing.NoPriceTradesMore | Src_SQL/market.cpp:501-651 | of the rows before the first that stops the sweep, the volume at any single price is at most the auction's |
| Crossing.SomePriceTradesAll | Src_SQL/market.cpp:501-651 | at some price it is no less |
| Crossing.CrossTradesTheGreatestVolume | Src_SQL/market.cpp:501-651 | the auction's volume is the maximum over all prices of the smaller of demand and supply of those rows, for every sorted book |
| Crossing.CrossUncrosses | Src_SQL/market.cpp:558-575 | up to the first row that stops the sweep no buyer left reaches a seller left; with no such row none at all does |
| Crossing.GreatestOfWholeSides | Src_SQL/market.cpp:501-651 | without negative quantities, which the checks on an order keep out, the volume is the maximum of whole sides if and only if nothing with quantity left crosses |
| Crossing.EmptyOrderStopsTheSweep | Src_SQL/market.cpp:571-575 | an order without quantity that outbids the others: nothing trades, though the volume at every price is what it was |
| Crossing.EmptyMarketBuyStopsTheSweep | Src_SQL/server.cpp:639-651 | a MARKET buy of no shares that keeps a buyer at 12 and a seller at 10 apart |
| Crossing.CrossIgnoresIds | Src_SQL/market.cpp:620-645 | which fresh ids the remainders get changes nothing else |
| Crossing.CrossRespectsLimits | Src_SQL/market.cpp:392-410 | whatever the reference prices, no order but a MARKET order trades outside its limit |
| Crossing.PlaceholderNeverTrades | Src_SQL/market.cpp:384-410 | a MARKET order's stored price never is a trade's price |
| SqlMarket.SinglePriceExactly | Src_SQL/market.cpp:392-410 | every fill of a sweep is at one price if and only if every share traded passes at it: at the seller's limit, opposite a MARKET seller at the buyer's, between two MARKET orders at the price looked up |
| SqlMarket.RecordByRule | Src_SQL/market.cpp:392-410 | every transaction of a sweep is at the seller's limit, opposite a MARKET seller at the buyer's, and between two MARKET orders at the action's looked-up price if that is positive and only otherwise at the price of the transaction before it |
| Crossing.FixingCanUseTwoPrices | Src_SQL/market.cpp:576-578 | an auction that pays two prices |
| SqlMarket.Market.Execute | Src_SQL/market.cpp:576-620 | one pair is recorded at its resolved price, which becomes the session's last price |
| SqlMarket.Market.Advance | Src_SQL/market.cpp:624-645 | a remainder takes its own place under a fresh id, a filled row is passed |
| SqlMarket.Market.FixAction | Src_SQL/market.cpp:503-650 | the two-index loop of the auction computes the crossing of the action's two sides |
| SqlMarket.Market.ProcessContinuousTrading | Src_SQL/market.cpp:655-806 | the continuous loop, with its checks in another order, computes that crossing too |
| SqlMarket.Market.ProcessFixing | Src_SQL/market.cpp:501-651 | every action ends as the crossing of what it had, whichever order the actions are taken in; books stay sorted and every transaction ever recorded is within its limits |
| SqlMarket.SweepsAgree | Src_SQL/market.cpp:501-806 | the auction and the continuous sweep of an action leave the same rows and have made the same fills, up to ids |
| SqlMarket.SweptMeaning | Src_SQL/market.cpp:501-806 | after either: quantities conserved; up to the first row that stops the sweep, uncrossed and volume the greatest any price allows; of whole sides the greatest if and only if nothing with quantity left crosses |
| EventBus.StepKeepsInvariant | Src_Simulation/include/notification.hpp:40-113 | every step keeps the accounting and the state of the dispatch under way |
| EventBus.RunKeepsInvariant | Src_Simulation/include/notification.hpp:40-113 | in every interleaving published is dispatched, then in flight, then queued |
| EventBus.FlushDelivers | Src_Simulation/include/notification.hpp:82-85 | when flush returns, everything published before it was called has gone in order to everyone registered at its dispatch, once each |
| EventBus.SubscriberHearsEverything | Src_Simulation/include/notification.hpp:53-113 | a subscriber hears every event dispatched while it is subscribed exactly once |
| EventBus.RegisteredExactly | Src_Simulation/include/notification.hpp:53-64 | after any run the subscribers are those that subscribed and have not unsubscribed since |
| EventBus.IdsAreNew | Src_Simulation/include/notification.hpp:55-57 | no id is handed out twice |
| EventBus.PublishedExactly | Src_Simulation/include/notification.hpp:66-72 | what is published is on record, in order, and the bus stops when told to |
| EventBus.SubscriberIsHeard | Src_Simulation/include/notification.hpp:53-113 | whoever subscribes to a running bus gets a new id, leaves the others registered, and hears every event whose dispatch locks the subscribers afterwards exactly once and no other; when a flush returns, in order, what was still to be dispatched and everything published since |
| EventBus.ListeningFromTheStart | Src_Simulation/include/notification.hpp:53-58 | before anything is published, whoever has subscribed to a new bus and stayed is in for what comes |
| EventBus.CurrentAfterFlush | Src_Simulation/include/notification.hpp:78-85 | one that was there from the start has, after a flush, heard exactly what was published, in order |
| EventBus.NoCallAfterUnsubscribe | Src_Simulation/include/notification.hpp:60-64 | no callback runs after its unsubscribe returned, in any continuation |
| EventBus.ExitDrains | Src_Simulation/include/notification.hpp:88-94 | the worker leaves only with everything dispatched |
| EventBus.ShutdownProgress | Src_Simulation/include/notification.hpp:40-46 | a stopping bus can always move and every worker step brings it nearer to the end |
| EventBus.WorkTerminates | Src_Simulation/include/notification.hpp:40-113 | with no more published or subscribed, the number of worker steps still to come is bounded however the rest interleaves |
| EventBus.ShutdownDrains | Src_Simulation/include/notification.hpp:40-113 | when nothing more can be done the worker has left and everything has been delivered |
| EventBus.DestructorDrains | Src_Simulation/include/notification.hpp:40-46 | from a new bus, over any run in which the destructor stops it, the worker ends with everything ever published dispatched in order to everyone |
| EventBus.FlushReturnsWhenIdle | Src_Simulation/include/notification.hpp:82-113 | flush can return if and only if the worker has nothing to do but leave |
| EventBus.FlushTerminates | Src_Simulation/include/notification.hpp:82-113 | once publishing stops flush can return after a bounded number of worker steps, and until it can the worker can make one |
| Candles.MarketData.OnTrade | Src_Simulation/src/market_data.cpp:23-49 | each symbol's state is that of its trades among all seen |
| Candles.MarketData.Update | Src_Simulation/src/market_data.cpp:25-48 | running figures and the last candle are brought up to date in place |
| Candles.RunBecomesCandle | Src_Simulation/src/market_data.cpp:31-48 | a run of trades in one new bucket becomes one candle with its open, high, low, close and volume |
| Candles.CandlesAreTheGrouping | Src_Simulation/src/market_data.cpp:31-48 | for any cutting of the trades into maximal runs of one bucket, the candles are those runs' summaries in order |
| Candles.SomeGrouping | Src_Simulation/src/market_data.cpp:31-48 | such a cutting exists |
| Candles.VolumesAddUp | Src_Simulation/src/market_data.cpp:27-29 | candle volumes sum to the total volume, which is that of the trades |
| Candles.LastPriceIsLast | Src_Simulation/src/market_data.cpp:26 | the last price is that of the last trade |
| Candles.MarketData.LastPrice | Src_Simulation/src/market_data.cpp:51-55 | of the trades seen in the symbol, or zero |
| Candles.NotionalStaysWithin | Src_Simulation/src/market_data.cpp:63-70 | the value traded lies between the volume at any floor and at any ceiling of the candles |
| Candles.BucketMonotone | Src_Simulation/src/market_data.cpp:31-34 | truncating division keeps time order on both sides of the epoch |
| Candles.BucketHolds | Src_Simulation/src/market_data.cpp:31-33 | a bucket starts at a multiple of its size and holds the timestamps less than that away, after it from the epoch on and before it ahead of the epoch |
| Candles.BucketsIncrease | Src_Simulation/src/market_data.cpp:31-48 | with timestamps that never go back the candles' buckets strictly increase |
| Candles.MarketData.Vwap | Src_Simulation/src/market_data.cpp:63-70 | zero without volume, else value over volume, between the lowest low and the highest high |
| Candles.MarketData.RecentCandles | Src_Simulation/src/market_data.cpp:72-81 | the last candles, oldest first; most recent first only if fewer than two |
| Candles.MarketData.FollowBus | Src_Simulation/src/market_data.cpp:7-21 | in every interleaving of the bus the object has seen the trades of exactly the events it was called back with |
| Candles.FlushedDataIsTheBatch | Src_Simulation/src/market_data.cpp:7-49 | when a flush returns, an object subscribed from the start has seen exactly the trades published and has the batch's candles over them |
| BigEndian.FromToBytes | Src_Simulation/src/net/protocol.cpp:70-97 | a number that fits its bytes is read back |
| BigEndian.ToFromBytes | Src_Simulation/src/net/protocol.cpp:70-97 | bytes are read back from the number they make |
| BigEndian.ByteAt | Src_Simulation/src/net/protocol.cpp:72-76 | each byte is the number shifted past the bytes after it |
| Framing.RecvExact | Src_Simulation/src/net/protocol.cpp:17-30 | fills the buffer with the next bytes however they are chunked; without errors it fails only if the stream is too short |
| Framing.SendExact | Src_Simulation/src/net/protocol.cpp:40-50 | sends exactly the bytes; a failure leaves a proper beginning |
| Framing.SendFramed | Src_Simulation/src/net/protocol.cpp:70-85 | sends the frame, or a proper beginning of it |
| Framing.Header | Src_Simulation/src/net/protocol.cpp:72-76 | the header loop writes the length most significant byte first |
| Framing.ReadHeader | Src_Simulation/src/net/protocol.cpp:92-95 | the shift loop reads it back without overflow |
| Framing.RecvFramed | Src_Simulation/src/net/protocol.cpp:87-106 | returns the stream's first message and leaves the stream behind it; refuses claims over the cap |
| Framing.FrameRoundTrip | Src_Simulation/src/net/protocol.cpp:70-106 | a frame reads back exactly when its payload is within the cap |
| Framing.FrameMeans | Src_Simulation/src/net/protocol.cpp:70-85 | a frame is the length in eight bytes, the most significant first, and then the payload |
| Framing.FramesRoundTrip | Src_Simulation/src/net/protocol.cpp:70-106 | a list of payloads comes back as the same list and leaves the stream at the boundary |
| Framing.ReceiveAll | Src_Simulation/src/net/protocol.cpp:87-106 | repeated calls give back the payloads framed at the front of the stream, however they are chunked, and take nothing of what follows |
| Framing.FramesUnambiguous | Src_Simulation/src/net/protocol.cpp:70-106 | if the bytes of one list of messages begin with those of another, the other list is the beginning of the first and the rest are the bytes of its other messages |
| LeftoverFraming.SendFullString | Src_SQL/utility.cpp:171-190 | sends the frame, provided the first call takes the whole length |
| LeftoverFraming.Receiver.FillHeader | Src_SQL/utility.cpp:199-210 | reads on until the leftover holds a length, losing nothing |
| LeftoverFraming.Receiver.ReadBody | Src_SQL/utility.cpp:217-241 | takes the body from the leftover and then the socket; what a read brings beyond it is the new leftover |
| LeftoverFraming.Receiver.RecvFullString | Src_SQL/utility.cpp:193-242 | decodes what the plain decoder decodes; messages received, leftover and unread bytes always make up the whole stream; exactly how much a failure loses |
| LeftoverFraming.TruncatedMessageIsLost | Src_SQL/utility.cpp:217-241 | a stream of nine bytes that a failed call loses whole |
| LeftoverFraming.ReceivedIsPrefix | Src_SQL/utility.cpp:193-242 | at every step what was received is a beginning of what was sent, and the leftover and unread bytes are the frames of the rest |
| SecureHash.ChainEndsInHash | Src_Simulation/include/net/sha256.hpp:34-76 | hash values chained block by block end in the hash of all the blocks |
| SecureHash.ZeroBytesAreFewest | Src_Simulation/include/net/sha256.hpp:98-101 | the padding uses as few zero bytes as possible |
| Words.BitOfXor | Src_Simulation/include/net/sha256.hpp:54-67 | exclusive or acts on each bit by itself |
| Words.BitOfAnd | Src_Simulation/include/net/sha256.hpp:63-67 | so does and |
| Words.BitOfOr | Src_Simulation/include/net/sha256.hpp:32 | so does or |
| Words.ShlMultiplies | Src_Simulation/include/net/sha256.hpp:47-52 | shifting up multiplies while nothing is shifted out |
| Words.ShrDivides | Src_Simulation/include/net/sha256.hpp:112-116 | shifting down divides |
| Words.AddsCommute | Src_Simulation/include/net/sha256.hpp:53-57 | wrapping sums may be taken in any order |
| Words.BitsDecide | Src_Simulation/include/net/sha256.hpp:32 | numbers with the same bits are the same |
| HashBits.BitOfRotr | Src_Simulation/include/net/sha256.hpp:32 | a rotation to the right: bit i comes from n places higher, round the end of the word |
| HashBits.BitOfCh | Src_Simulation/include/net/sha256.hpp:64 | each bit of the first word chooses between those of the other two |
| HashBits.BitOfMaj | Src_Simulation/include/net/sha256.hpp:67 | the majority of three bits |
| HashBits.BitOfBigSigmas | Src_Simulation/include/net/sha256.hpp:63-66 | each bit is the parity of three, at the distances of section 4.1.2 |
| HashBits.BitOfSmallSigmas | Src_Simulation/include/net/sha256.hpp:54-55 | the same, with nothing coming round the end for the shifted one |
| HashBits.PadMeans | Src_Simulation/include/net/sha256.hpp:93-107 | the message, the one bit, zeros, and the bit count in the last eight bytes |
| HashBits.ScheduleMeans | Src_Simulation/include/net/sha256.hpp:46-57 | every word of the schedule as a number: four bytes, or the sum of earlier words |
| HashBits.TurnMeans | Src_Simulation/include/net/sha256.hpp:61-72 | the two new variables of a turn as sums of numbers, and where the others go |
| HashBits.CompressMeans | Src_Simulation/include/net/sha256.hpp:59-75 | what 64 turns from the hash values end in is added to them |
| HashBits.DigestMeans | Src_Simulation/include/net/sha256.hpp:109-117 | every byte of the digest |
| HashConstants.TurnConstants | Src_Simulation/include/net/sha256.hpp:35-44 | the 64 constants are the first 32 bits of the fractions of the cube roots of 64 numbers |
| HashConstants.InitialConstants | Src_Simulation/include/net/sha256.hpp:24-27 | the initial values are those of the square roots of the first 8 of them |
| HashConstants.PrimesArePrime | Src_Simulation/include/net/sha256.hpp:35-44 | which are primes, in increasing order |
| Sha256Stream.FourBytes | Src_Simulation/include/net/sha256.hpp:47-52 | four bytes shifted and or-ed make the word of section 3.1 of FIPS 180-4 |
| Sha256Stream.Sha256.MessageSchedule | Src_Simulation/include/net/sha256.hpp:46-57 | the schedule of section 6.2.2 |
| Sha256Stream.Sha256.ProcessBlock | Src_Simulation/include/net/sha256.hpp:34-76 | the hash values become those of the compression of section 6.2.2 |
| Sha256Stream.Sha256.Update | Src_Simulation/include/net/sha256.hpp:78-91 | however the input is cut, whole blocks have been hashed in order and the buffer holds the rest |
| Sha256Stream.Sha256.FillUp | Src_Simulation/include/net/sha256.hpp:95-101 | the zero-padding loop ends, with as few zeros as may be |
| Sha256Stream.Sha256.Finalize | Src_Simulation/include/net/sha256.hpp:93-118 | the blocks hashed are the padded message, with the bit count modulo 2^64 |
| Sha256Stream.Sha256.Hash | Src_Simulation/include/net/sha256.hpp:19-23 | below 2^61 bytes the digest is the standard's, and in any case that of the message padded with its bit count modulo 2^64 |
| Sha256Stream.OctetIs | Src_Simulation/include/net/sha256.hpp:111-117 | shifting and masking gives the bytes of a word in order |
| Text.WordsRoundTrip | Src_Simulation/src/net/persistence.cpp:74-100 | words written with spaces between are the words read, but for empty ones |
| Text.LinesRoundTrip | Src_Simulation/src/net/persistence.cpp:73-75 | lines written are the lines read |
| Text.IntRoundTrip | Src_Simulation/src/net/persistence.cpp:23-38 | whole numbers are read back to their end, and are single words |
| Rounding.CloseRoundsBack | Src_Simulation/src/net/persistence.cpp:19-21 | a number closer to a double than a part in 2^54 of it rounds to that double, also where doubles change spacing and among the smallest |
| Rounding.DecimalKeepsBinary | Src_Simulation/src/net/persistence.cpp:19-21 | seventeen significant digits reproduce any double |
| Rounding.ToBinaryIsBinary | Src_Simulation/src/net/persistence.cpp:87 | what is read is a double, also when it was rounded up to the next power of two |
| Rounding.TiesToEven | Src_Simulation/src/net/persistence.cpp:87 | halfway between two whole numbers of units the even one is taken |
| Rounding.GreatestIsGreatest | Src_Simulation/src/net/persistence.cpp:87 | one more unit in the last place of the greatest double would make it two to the 1024th |
| Rounding.SmallestIsSmallest | Src_Simulation/src/net/persistence.cpp:87 | two to the -1074th is a double and nothing below it is |
| Amounts.LayoutValue | Src_Simulation/src/net/persistence.cpp:21 | the numeral laid out, with or without exponent, has the value of its digits |
| Amounts.WrittenScans | Src_Simulation/src/net/persistence.cpp:28 | a numeral written is the numeral read, to its end |
| Amounts.LayoutChoice | Src_Simulation/src/net/persistence.cpp:21 | an exponent is written if and only if the number, to seventeen digits, is below a ten-thousandth or at least ten to the seventeenth; a fraction without one does not end in a zero |
| Amounts.ExponentForm | Src_Simulation/src/net/persistence.cpp:21 | an exponent has its sign and at least two digits |
| Amounts.AmountRoundTrip | Src_Simulation/src/net/persistence.cpp:19-37 | an amount printed and read is the same if and only if it is a double |
| Amounts.ScannedIsDouble | Src_Simulation/src/net/persistence.cpp:87 | whatever text is read, the amount set is a double |
| Amounts.TenthIsNotReadBack | Src_Simulation/src/net/persistence.cpp:19-21 | a tenth, which is no double, does not come back |
| Accounts.ClientDirectory.RegisterClient | Src_Simulation/src/net/auth.cpp:30-46 | a taken name is refused; a new account's id is above every other |
| Accounts.ClientDirectory.ImportAccount | Src_Simulation/src/net/auth.cpp:88-98 | the account is restored under its id and later ids stay above it |
| Accounts.NextAfterIsLeast | Src_Simulation/src/net/auth.cpp:88-98 | the next id after an import is the least that is above the imported one and no lower than before |
| Accounts.ClientDirectory.ExportAccounts | Src_Simulation/src/net/auth.cpp:78-86 | every account once |
| Persistence.EntryRoundTrip | Src_Simulation/src/net/persistence.cpp:23-38 | a printed line reads back as its entry if and only if its names are words and its amount a double |
| Persistence.LinesAsWritten | Src_Simulation/src/net/persistence.cpp:23-38 | the four kinds of line, word for word |
| Persistence.FileRoundTrip | Src_Simulation/src/net/persistence.cpp:23-100 | a printed file reads back as its entries in order if and only if that holds of every one |
| Persistence.SavedIsReadBack | Src_Simulation/src/net/persistence.cpp:23-100 | what a saved file reads back as is all there was to save if and only if every name is a word and every amount a double |
| Persistence.Save | Src_Simulation/src/net/persistence.cpp:23-38 | the file reads back as every account, cash, non-zero holding and price exactly once, if and only if all of them are readable |
| Persistence.ReadSnapshot | Src_Simulation/src/net/persistence.cpp:71-101 | the line loop imports accounts and puts by cash, holdings and prices, also from lines with fields missing or unreadable |
| Persistence.Load | Src_Simulation/src/net/persistence.cpp:58-118 | cash is applied before holdings and holdings before prices, wherever their lines stood |
| Persistence.GrantsAddUp | Src_Simulation/src/net/persistence.cpp:106-109 | granting adds up and touches no cash |
| Persistence.AccountsComeBack | Src_Simulation/src/net/auth.cpp:88-98 | restored into a fresh directory: the same accounts, and the next id above all of them |
| Persistence.EngineComesBack | Src_Simulation/src/net/persistence.cpp:103-112 | restored into a fresh engine: the same clients, cash, holdings and prices |
| Persistence.ReadableContents | Src_Simulation/src/net/persistence.cpp:23-38 | every line to be written is readable if and only if all names are words and all cash and prices doubles |
| Persistence.WholeAmountsAreReadable | Src_Simulation/src/net/persistence.cpp:19-38 | whole amounts below 2^53 always are |
| Persistence.SnapshotRoundTrip | Src_Simulation/src/net/persistence.cpp:12-118 | for any order of the file's lines, accounts, next id, clients, cash, holdings and prices are restored if and only if all names are words and all amounts doubles |
| Persistence.SpaceIsMisread | Src_Simulation/src/net/persistence.cpp:36-97 | of a symbol of two words the first is read as the symbol and the second as its price |
| Persistence.NameWithSpaceIsMisread | Src_Simulation/src/net/persistence.cpp:36-97 | whatever the price of `A B`, its line is read as `A` at nothing |

## Left out

- Sockets, accept loops, threads and mutexes themselves, SQLite, OpenSSL, files and renames, logging, random numbers, passwords and tokens: input, output and foreign code. A socket is a stream with an oracle for how much each call moves.
- IEEE rounding inside the engine: its prices and cash are exact, where every operation of the original rounds to a double. Printing and reading a snapshot do round; negative zero, infinities and not-a-number do not occur.
- 64-bit wrap-around of order ids, quantities and volumes in the simulation, also when they are read from a snapshot, and of 32-bit SQL quantities.
- One reading of the clock serves a whole call; the trades of one match share it.
- Publishing events and counting metrics inside engine calls; the bus is modelled by itself.
- A level's queue is a sequence inside the book's level list, so aliasing of a queue by reference is not modelled.
- `symbols_with_waiting_orders`, `all_waiting`, `net_worth`, the CSV report, command parsing, the noise and momentum bots: easy members, or random behaviour. What the market maker draws at random is a parameter of its tick.
- Cash and holdings never negative over time: not claimed, since the risk check reserves nothing for orders that rest or wait (`Src_Simulation/src/matching_engine.cpp:87-103`).
- Cash and share conservation in the SQL market: not claimed, since one side of a settlement may be refused (`Src_SQL/client.cpp:332-352`). Portfolios, messages and notifications of that market are not modelled.
- The last traded price that decides between two MARKET orders is looked up in the prices table; here it is a given answer to each look-up.
- The session's last price after an auction of several actions depends on the map's order and is not part of the comparison of the two sweeps.
- EngineRuns.ReachableDirtyTickSuffices: is about whole calls one after the other; a trade between the band check and the filing of an order can be missed until the next full scan, and for that scan Registry.NoneReadyStays holds.
- Persistence.ReadSnapshot: a line that ends or fails before a number is reached is ignored, where the code goes on with a variable it never set.
- LeftoverFraming.Receiver.RecvFullString: the reservation of memory for a claimed size, which may fail, is not modelled.
- Dates of `Src_SQL/utility.cpp`: constant arithmetic.
