# Prediction market exchange: a verified model

A Dafny model of the exchange's money paths, with proofs about every run of them: matching orders in
price-time priority, locking and releasing collateral, settling markets from the trade log, delivering
resolutions from the event tables to settled markets, creating orders without a transaction, the versioned
list cache, cursor pagination, the wallet and event repositories, and the decimal literals that carry amounts
between packages.

Amounts are integers as the program stores them: a million units a share, a million units of price, whole
cents of money. Rounding is half up on every single call, as in `pkg/fixed`. Identifiers are natural numbers
ordered like the program's UUIDs, moments are integers. A database transaction is one step that commits whole
or changes nothing. Code that updates state in place is a class or a method with loops, proved against a
function on the tables; protocols between several parties are state machines over their single calls, with
every interleaving and crash.

## Files

| file | content |
|---|---|
| `Sums.dfy`, `Sorting.dfy` | sums over the rows of a table; the one sorted sequence of a set |
| `Fixed.dfy`, `Decimal.dfy` | rounded fixed-point arithmetic; printing and parsing decimal literals |
| `Orders.dfy`, `Book.dfy` | orders, trades, greedy matching; priority, lifecycle, uncrossed book, trade audit |
| `MatchingRules.dfy`, `LedgerRules.dfy`, `EventRules.dfy` | the same operations in the columns' own terms: who trades first, every refusal with its cause, every row a commit writes, every row of a page |
| `Collateral.dfy` | what an order has locked against what settlement takes for it |
| `Ledger.dfy` | the tables, and placing, cancelling, settling as transactions over them |
| `LedgerInvariants.dfy`, `LedgerRuns.dfy`, `SettlementRuns.dfy` | the ledger's invariant, kept by every transaction and every run |
| `Conservation.dfy`, `ConservationRuns.dfy` | conservation with its exact conditions, for one book and for all runs of a granularity, and the run in which it fails |
| `Solvency.dfy`, `SolventRuns.dfy`, `Witnesses.dfy` | solvency with its exact conditions, for one settlement and for all runs, and the run in which it fails |
| `ExactlyOnce.dfy` | settling an event market by market under arbitrary failures |
| `Database.dfy`, `OrderRepository.dfy` | the transactions and the in-memory repository as they update their tables in place |
| `Creation.dfy`, `CreationRuns.dfy`, `CreationAlone.dfy` | interleaved order creation and cancellation outside a transaction, and how far one call alone is the transaction |
| `Delivery.dfy`, `DeliveryRuns.dfy`, `DeliveryAlone.dfy`, `SettlementWorker.dfy` | resolution, outbox, dispatch, consumption, step by step and over whole runs; a delivery that nothing interrupts; the worker's two loops |
| `Events.dfy`, `ListCache.dfy`, `Keyset.dfy`, `Wallets.dfy` | event repository, versioned list cache, cursor pagination, wallet repository |

## Where the code does not do what it is for

- A cancelled order's unfilled remainder is released when it is cancelled and counted as locked again when its
  market is settled (`internal/settlement/settlement.go:101-105` does not look at the status).
  `Witnesses.DoubleRefundRun` is a run in which another order's collateral pays for it;
  `SolventRuns.RunSolventExactlyWhen` gives the exact condition for every run.
- The conservation assertion can reject a market that matching filled correctly, which can then never be settled:
  `ConservationRuns.TwoHalvesCannotSettle` is such a run. `Conservation.ConservedExactlyWhen` says exactly which
  books pass; `ConservationRuns.ConservesExactlyWhen` exactly which granularities of the amounts keep every run
  safe, and up to a ten-thousandth of the largest order only whole hundredths of a share do
  (`ConservationRuns.ConservesOnlyOnGrid`).
- The service path outside a transaction refuses to lock or release less than half a cent, the transactional path
  accepts such an order and skips such a release. `CreationAlone.CreateAloneExactlyWhen` and
  `CreationAlone.CancelAloneExactlyWhen` say exactly when the two differ; `CreationAlone.UnitCannotBeReleased` is a
  run in which cancelling reports an error.
- Settlement's printer of cents and the shared one differ on debts smaller than one unit
  (`Decimal.PrintersAgree`); settlement never prints one.
- The in-memory wallet repository lets a credit under a used wallet identifier overwrite another owner's wallet
  (`Wallets.CreditKeepsExactly`); the service generates new ones.

## Model

| member | source | states |
|---|---|---|
| Fixed.ProductError | pkg/fixed/fixed.go:119-136 | a rounded product is non-negative and within half a cent of the exact one, rounding halves up |
| Fixed.StakeNonNegative | internal/settlement/postgres_repository.go:364-367 | neither side's stake in a fill is negative or above par, because rounding is monotone |
| Fixed.CentsFitInt64 | pkg/fixed/fixed.go:78-136 | every collateral and payout of a validated order fits the 64-bit cents it is returned in |
| Fixed.ComplementaryCollateral | pkg/fixed/fixed.go:78-102 | for any shares the two sides' collateral covers the par payout up to one cent either way |
| Fixed.ComplementaryCollateralOnGrid | pkg/fixed/fixed.go:78-102 | for whole-cent shares it covers it exactly, or one cent more exactly when the buyer's product lies on a half cent |
| Fixed.FillErrorBound | pkg/fixed/fixed.go:86-97 | stake plus improvement refund of one fill differ from the limit-price product by at most half a cent for each rounding involved |
| Fixed.FillErrorOnGrid | pkg/fixed/fixed.go:86-97 | for whole shares at whole-cent prices they equal it |
| Decimal.ParseExactly | internal/settlement/settlement.go:125-143 | exactly which strings are read and as what: an optional sign and digits, not both missing, perhaps a point and at most the given decimals, some digit after padding, and no value below zero; so a lone sign may stand before the point |
| Decimal.RoundTrip | pkg/fixed/fixed.go:138-147 | for every scale, parsing what was printed returns the value, and a printed negative value is refused |
| Decimal.PrintersAgree | internal/settlement/settlement.go:175-181 | settlement prints cents like the shared printer exactly when the value is not a debt below one unit |
| Orders.FillAllGreedy | internal/order/memory_repository.go:50-66 | every maker gets exactly what the makers before it left over, and an untouched maker keeps its row |
| Orders.FillAllTaker | internal/order/memory_repository.go:50-66 | the total fill is the smaller of what was asked for and what crosses |
| Sorting.SortUnique | internal/order/memory_repository.go:262-274 | two sorted enumerations of one set are equal, so the order in which a map is enumerated never shows |
| BookInvariants.CandidatesQueue | internal/order/memory_repository.go:245-275 | the candidates are exactly the open crossing orders of other users in the same book, each once, best price first, then oldest, then smallest identifier |
| BookInvariants.PlacementTaker | internal/order/memory_repository.go:66-71 | the incoming order's final row: greedy fill, status by fill level, an immediate-or-cancel remainder cancelled |
| BookInvariants.PlacementMaker | internal/order/memory_repository.go:51-65 | each resting order's final row, from the shares left by those with priority over it |
| BookInvariants.PlacementFrame | internal/order/memory_repository.go:47-72 | a placement touches no other order |
| BookInvariants.PriceTimePriority | internal/order/memory_repository.go:262-274 | when an order trades, every eligible order with priority over it has been filled |
| BookInvariants.PlacementAdvances | internal/order/memory_repository.go:277-288 | filled shares stay between nothing and the amount and only grow, status matches the fill level, orders that are not open never change |
| BookInvariants.PlacementUncrossed | internal/order/memory_repository.go:245-275 | no two open orders of different users in one book cross, kept by every placement |
| BookInvariants.PlacementAudited | internal/order/postgres_repository.go:94-128 | after every placement each order's filled shares are the sum of its trades, and every trade joins a buy and a sell of different users in one book at the maker's price |
| BookInvariants.BoughtEqualsSold | internal/order/postgres_repository.go:94-128 | in every audited book the shares filled on buys equal the shares filled on sells |
| MatchingRules.BestFirst | internal/order/memory_repository.go:245-275 | when an order trades, every open order of another user in its book, on its side and within the limit, is filled if it is cheaper for a buy or dearer for a sell, or as good and earlier, or as good and as early with the smaller identifier |
| MatchingRules.TradesAreFair | internal/order/postgres_repository.go:94-128 | every new trade is with an open order of another user in the same book, on the other side and within the limit, at that order's price and for shares it still had |
| MatchingRules.TradesComeInOrder | internal/order/postgres_repository.go:573-600 | the trades of a placement come best price first, then earliest, then smallest identifier |
| MatchingRules.IncomingEnds | internal/order/memory_repository.go:66-71 | the incoming order ends filled exactly when all its shares are, otherwise an immediate-or-cancel one ends cancelled and any other pending or partial |
| MatchingRules.NothingLeft | internal/order/memory_repository.go:47-66 | when it is not filled, no order it could have traded with is left open |
| MatchingRules.RestingEnds | internal/order/memory_repository.go:50-66 | a resting order keeps its row, unless it could trade and gave some of its shares; then its status follows its fill |
| Collateral.RoundingDrift | internal/settlement/settlement.go:93-110 | for an uncancelled order what is locked and what settlement takes differ by at most half a cent per rounding: two for the order, one per improved fill, one per fill of a buyer and two of a seller |
| Collateral.RoundingDriftByFills | internal/settlement/settlement.go:93-110 | the same bound counted by all fills and the fills the order took |
| Collateral.NoDriftOnGrid | internal/settlement/postgres_repository.go:364-367 | on the grid there is no drift, and a cancelled order has locked exactly its unfilled part less than settlement takes |
| Collateral.HeldOnGrid | internal/order/postgres_repository.go:145-159 | on the grid an order's locked cents cover at least its open remainder, and a cancelled remainder is worth at least one cent |
| Collateral.PlacementGranular | internal/order/postgres_repository.go:96-121 | fills are minima of remainders: any granularity of the amounts is kept by matching |
| LedgerInvariants.PlaceEffect | internal/order/postgres_repository.go:43-165 | a committed placement is its match, its market's volume, and one wallet that moves into its locked balance exactly what the new order then holds |
| LedgerRules.PlaceRefusals | internal/order/postgres_repository.go:66-92 | a placement is refused, in this order, for a market that is missing, not active or another merchant's, a missing wallet, a balance below the collateral, a taken identifier or key, and for nothing else before it is matched |
| LedgerRules.PlaceWrites | internal/order/postgres_repository.go:43-165 | otherwise it writes the match, the volume, and one wallet: the collateral of the whole amount moves to locked, less better prices and an immediate-or-cancel remainder; it fails only if locked is too small for that |
| LedgerRules.PlacedBestFirst | internal/order/postgres_repository.go:573-600 | a committed placement took the best order first, in the columns' terms |
| LedgerRules.CancelAnswers | internal/order/postgres_repository.go:301-336 | a cancellation is refused for a missing order, one not open, or a locked balance too small, and otherwise writes that order's status and moves the collateral of its open shares back |
| LedgerRules.SettleRefusals | internal/settlement/postgres_repository.go:98-163 | settling a market that is missing, another event's or settled already changes nothing, and an outcome it does not offer is refused |
| LedgerRules.SettleWrites | internal/settlement/postgres_repository.go:165-203 | a committed settlement writes its row, the market's status, and cancels exactly the market's open orders |
| LedgerRules.SettleCloses | internal/settlement/settlement.go:93-115 | each order of the market, and no other, is closed out for its stakes, the collateral of what was not filled, and par exactly if it bought the winning option or sold another |
| LedgerRules.MoveAnswers | internal/market/market.go:376-385 | a market moves only from active to suspended or closed and from suspended to active or closed |
| LedgerRules.OpenAnswers | internal/market/market.go:144-160 | a new market starts active and without volume, and never replaces one |
| LedgerRules.FundWrites | internal/wallet/postgres_repository.go:78-190 | deposits and withdrawals move the balance of one wallet by their amount |
| LedgerRules.NothingTradesOnceClosed | internal/order/postgres_repository.go:66-81 | over every run, once a market is closed or settled it stays so, no order enters it and none of its orders trades again |
| SettlementRuns.CancelKeeps | internal/order/postgres_repository.go:301-336 | a committed cancellation keeps the ledger's invariant: it releases exactly what the order no longer holds |
| SettlementRuns.SettleKeeps | internal/settlement/postgres_repository.go:165-203 | a committed settlement keeps the ledger's invariant: every order of the market closed out for its own stake and payout, none left open |
| SettlementRuns.NextInv | internal/order/postgres_repository.go:43-165 | every transaction keeps all of it, whatever its arguments: book, audit, keys, volumes, closed markets, and both accounts of every wallet |
| SettlementRuns.EveryRunKeepsTheLedger | internal/order/postgres_repository.go:43-165 | over every run at any granularity each wallet's locked balance is the sum of what its orders hold less what settlement took, and its total is its funding plus its winnings |
| SettlementRuns.RunAdvances | internal/order/memory_repository.go:186-205 | over every run no order is lost, filled shares only grow, and filled and cancelled orders never change again |
| Conservation.AuditNeverRejects | internal/settlement/postgres_repository.go:338-400 | in every reachable state settlement accepts every trade, finds filled shares equal to trades, and finds every wallet |
| Conservation.ConservedExactlyWhen | internal/settlement/postgres_repository.go:409-431 | for any audited book at any granularity the assertion holds if and only if, in every currency met, the par values of the market's trades, each rounded by itself, sum to the payouts of the winning orders |
| Conservation.ConservationNeverFires | internal/settlement/postgres_repository.go:409-431 | with amounts in whole hundredths of a share, stakes equal payouts in every currency for any matched log and either winner |
| ConservationRuns.ConservesExactlyWhen | internal/settlement/postgres_repository.go:409-431 | for every granularity: the assertion stops no settlement of any run with such amounts if and only if as many of them as one order can hold stay within half a cent of whole cents of par |
| ConservationRuns.ConservesOnlyOnGrid | internal/settlement/postgres_repository.go:409-431 | for every granularity up to a ten-thousandth of the largest order: if and only if it is whole hundredths of a share |
| ConservationRuns.SaleCannotSettle | internal/settlement/postgres_repository.go:409-431 | wherever par does not add up, a run from empty tables, one ask bought in equal pieces, ends in a market whose settlement fails |
| ConservationRuns.TwoHalvesCannotSettle | internal/settlement/settlement.go:151-164 | an ask of one hundredth of a share sold in two halves, each worth a cent of par by itself, is such a run |
| Conservation.SettlementPaysTheOdds | internal/settlement/settlement.go:93-115 | on the grid an order's payout less its stake is, trade by trade, what the trade was worth at its price: a buyer of the winning option gains the rest of par, of a losing one it loses the price, a seller the reverse |
| Conservation.SettlementConservesCurrencies | internal/settlement/postgres_repository.go:433-463 | at any granularity a committed settlement leaves the sum of balance and locked over all wallets unchanged in every currency |
| Solvency.SolventExactlyWhenClean | internal/settlement/settlement.go:101-105 | a reachable grid state has locked exactly its open obligations if and only if no cancelled order was ever closed out |
| Solvency.SettlementStaysClean | internal/settlement/postgres_repository.go:205-270 | a settlement keeps that if and only if none of the market's orders is cancelled |
| Solvency.PlaceFailsOnlyAtItsChecks | internal/order/postgres_repository.go:43-165 | on the grid a placement fails if and only if the market is not open, the wallet is missing or too small, or the identifier or key is taken |
| Solvency.CancelNeverFails | internal/order/postgres_repository.go:301-336 | in a clean grid state cancelling an open order always finds its collateral locked |
| Solvency.SettlesExactlyWhen | internal/settlement/postgres_repository.go:165-203 | in any reachable state and at any granularity a market is settled if and only if its stakes equal its payouts and every wallet's locked balance covers the sum of what is taken from it, and which of the two fails is the error reported |
| Solvency.PaysExactlyWhen | internal/settlement/postgres_repository.go:433-463 | paying out order by order never runs short unless the sums do: it goes through if and only if each locked balance covers the stakes and unfilled parts of its orders |
| Solvency.SettlementNeverFails | internal/settlement/postgres_repository.go:433-463 | in a clean grid state with no cancelled order in the market both hold, so settling it passes every check |
| Solvency.CarefulRunsAreSolvent | internal/settlement/postgres_repository.go:433-463 | after every careful grid run each wallet's locked balance is the sum of trade stakes and open remainders of its orders in unsettled markets |
| SolventRuns.RunSolventExactlyWhen | internal/settlement/settlement.go:93-110 | for every grid run from empty tables: the exchange ends solvent if and only if no committed settlement met a cancelled order |
| SolventRuns.OnlyLockedBalanceStopsSettlement | internal/settlement/postgres_repository.go:165-203 | over every run in whole hundredths of a share neither audit, wallets nor conservation ever stop a settlement |
| Witnesses.DoubleRefundRun | internal/settlement/settlement.go:101-105 | a run from a funded wallet in which settling after a cancellation takes another order's collateral and its later cancellation fails |
| ExactlyOnce.NextKeepsSettled | internal/settlement/postgres_repository.go:127-163 | no transaction pays an order twice, changes a settlement, or reopens an order of a settled market |
| ExactlyOnce.EventSettledOnce | internal/settlement/postgres_repository.go:21-45 | under any set of failing markets each market is settled once for the outcome or left exactly as it was; one is rejected only for not offering the outcome; the call aborts if and only if some market is failing or its locked balances or conservation stop it; otherwise exactly the markets that offer the outcome are settled |
| ExactlyOnce.AbortsInOrder | internal/settlement/postgres_repository.go:21-45 | an aborted call stopped at the first market, by identifier, that it could not pass: smaller ones are settled if they offer the outcome, it and larger ones are untouched |
| ExactlyOnce.OnlyResolvedIsListed | internal/settlement/postgres_repository.go:52-66 | nothing is settled for an event that is missing, unresolved, or resolved to nothing |
| ExactlyOnce.SecondCallChangesNothing | internal/settlement/postgres_repository.go:68-96 | after a call that settled every market, another call changes nothing and succeeds |
| ExactlyOnce.SettledMarketStaysClosed | internal/order/postgres_repository.go:66-81 | in every later state every order of a settled market is closed out and none is open |
| Database.Tables.PlaceWithLockedCollateral | internal/order/postgres_repository.go:43-165 | the transaction, row by row, commits exactly the ledger's placement or changes nothing, and keeps the invariant |
| Database.Tables.CancelWithUnlock | internal/order/postgres_repository.go:301-336 | the same for cancellation, with the shares that were open |
| Database.Tables.SettleMarket | internal/settlement/postgres_repository.go:98-203 | the same for settling one market |
| Database.Tables.SettleResolvedEvent | internal/settlement/postgres_repository.go:21-45 | the loop over an event's markets: permanent errors collected, any other ends the call |
| Database.FillQueue | internal/order/postgres_repository.go:94-128 | the fill loop equals the greedy fills, and the refund it adds up is the sum of the improvements of its trades |
| Database.LockTradeStakes | internal/settlement/postgres_repository.go:320-387 | accepts exactly the audited logs, and gives every order the sum of its stakes |
| Database.PayoutsConserve | internal/settlement/postgres_repository.go:409-431 | the two maps of totals decide conservation in every currency met |
| Database.ApplySettlement | internal/settlement/postgres_repository.go:433-497 | paying order by order gives the spec's wallets, orders and payouts, and fails only at a locked-balance guard |
| OrderRepository.MemoryRepository.Place | internal/order/memory_repository.go:28-72 | rejects a taken identifier or key and changes nothing, otherwise leaves exactly the greedy match and returns its price improvement |
| OrderRepository.MemoryRepository.MatchingCandidates | internal/order/memory_repository.go:245-275 | whatever order the map is enumerated in, the candidates come out in matching order |
| OrderRepository.MemoryRepository.Cancel | internal/order/memory_repository.go:186-205 | cancels exactly an open order and returns its unfilled shares |
| OrderRepository.MemoryRepository.GetByIdempotency | internal/order/memory_repository.go:87-103 | finds an order under the key if there is one, and says not found only if there is none |
| OrderRepository.MemoryRepository.ListAfter | internal/order/memory_repository.go:139-167 | the matching orders behind the cursor, each with every value the filters set, newest first, one more than the page |
| OrderRepository.RepositoriesAgree | internal/order/memory_repository.go:28-72 | the memory repository and the database leave the same orders, append the same fills and give back the same improvement |
| Creation.MovedInv | internal/order/order.go:162-260 | every call of every interleaved client keeps, at any granularity: each wallet holds locked exactly what its orders hold plus what its clients have in flight |
| CreationRuns.SameKeySameOrder | internal/order/order.go:164-172 | however clients interleave, all that are answered under one merchant and key get the same order |
| CreationRuns.UnlocksSucceed | internal/order/order.go:233-257 | on the grid every unlock a client is about to ask for succeeds |
| CreationRuns.MovedGrid | internal/order/order.go:313-342 | on the grid no interleaving strands a cent |
| CreationRuns.QuietWallets | internal/order/order.go:225-232 | once no call is in flight every wallet is determined by its funding and its orders, so a losing duplicate has left nothing |
| CreationAlone.CreateAloneIsPlace | internal/order/order.go:162-260 | on the grid a create nothing interrupts is the transaction: the same orders, trades and wallets, or the same failure and nothing changed |
| CreationAlone.CreateAloneExactlyWhen | internal/order/order.go:202-260 | at any granularity, where the transaction commits, the create leaves the same tables if and only if the order is worth half a cent or more, and otherwise is refused and leaves them as they were |
| CreationAlone.AdmittedBelowHalfCent | internal/order/postgres_repository.go:43-165 | an order worth less than half a cent is always accepted by the transaction once its market, wallet and identifiers pass, and always refused by the service's lock |
| CreationAlone.DuplicateAloneIsNeutral | internal/order/order.go:225-232 | at any granularity and whatever the market service answers, a duplicate that runs alone leaves every table as it was |
| CreationAlone.CancelAloneExactlyWhen | internal/order/order.go:313-342 | where the transaction commits a cancellation the client leaves the same tables, and reports an error if and only if the open remainder is worth less than half a cent |
| CreationAlone.ReleaseRefusedBelowHalfCent | internal/order/order.go:245-256 | the two paths differ on a release exactly when it is worth less than half a cent |
| CreationAlone.UnitCannotBeReleased | internal/order/order.go:313-342 | a run of interleaved calls from nothing that ends in such a cancellation |
| Delivery.MovedInv | internal/event/postgres_repository.go:235-304 | every step and crash of resolution, dispatch and consumption keeps the protocol's invariant, in which every resolved event has its one audit row and every settled market carries the outcome its event is resolved to, and only grows stream, dead letters, audits, settlements and resolutions, with the exchange running beside it |
| DeliveryRuns.NoLostResolution | internal/settlementworker/postgres_repository.go:20-52 | in every later state of every run a resolved event has exactly one outbox row with its outcome, and that is unpublished, or on the stream unacknowledged, or every market the event had is settled for that outcome, or it is in the dead-letter topic |
| DeliveryRuns.AcknowledgedMarketsAreSettled | internal/settlement/postgres_repository.go:21-66 | whatever runs between: once a message sent after a market existed is acknowledged as settled, that market is settled for the outcome its event is resolved to |
| DeliveryRuns.SettledForTheOutcome | internal/settlement/postgres_repository.go:186-195 | over every run a market is only ever settled for the outcome its event is resolved to |
| DeliveryRuns.ResolutionCommits | internal/event/postgres_repository.go:235-304 | a resolution of a closed event by one of the two sources writes status and outcome, exactly one audit row and one outbox row; any other changes nothing |
| DeliveryRuns.ResolutionsAreAudited | migrations/006_event_resolution_audits.sql:4-12 | over every run a resolved event has exactly one audit row, with its outcome and one of the two sources, no other event has one, and rows are never removed or changed |
| DeliveryRuns.AcknowledgedForCause | internal/settlementworker/worker.go:207-259 | over every run, an acknowledged message had its own earlier settlement call that went through its listed markets and returned nil, or its own earlier dead letter, published after the message had been given up: undecodable, event missing or unresolved, a market that does not offer the outcome, or the last attempt stuck |
| DeliveryAlone.DeliveryIsSettleEvent | internal/settlementworker/worker.go:207-220 | a delivery nothing interrupts leaves exactly what one call of `SettleEvent` on the event's outcome leaves, and acknowledges the message as settled, or with its dead letter when markets were rejected for good |
| DeliveryAlone.DeliveryEnds | internal/settlementworker/worker.go:207-244 | whatever stands in the way, a delivery nothing interrupts ends acknowledged |
| DeliveryAlone.NoMessageIsStuck | internal/settlementworker/worker.go:180-205 | in every reachable state any unacknowledged message can be taken to its acknowledgement by one consumer |
| SettlementWorker.ProcessUntilAcknowledged | internal/settlementworker/worker.go:207-244 | every call before the last failed for a passing reason; a success is acknowledged; one of the four lasting errors, or any error of the fifth call, is dead-lettered and then acknowledged; the waits are 1, 2, 4 and 8 seconds; a cancelled context acknowledges nothing |
| SettlementWorker.OutboxTable.Dispatch | internal/settlementworker/postgres_repository.go:20-52 | the batch goes out in order and exactly its rows are marked, or none is marked and what went out stays out |
| SettlementWorker.BatchIsOldest | internal/settlementworker/postgres_repository.go:60-89 | a batch holds unpublished rows oldest first, and leaves one out only at its limit and only if it is younger than all of them |
| SettlementWorker.DispatchIsARun | internal/settlementworker/postgres_repository.go:20-89 | an uninterrupted dispatch is the protocol's begin, publish and commit steps |
| Events.RunInv | internal/event/memory_repository.go:27-75 | over every run the two maps agree, events keep their source, closed is left only for resolved, and a resolved outcome never changes |
| Events.FirstResolutionWins | internal/event/memory_repository.go:168-196 | of two resolutions that both read closed, whatever happens between, only the first takes effect |
| Events.SourceKeyInjective | internal/event/memory_repository.go:34-35 | two sources never share an index entry |
| Events.MemoryRepository.UpsertSourceEvent | internal/event/memory_repository.go:46-75 | inserts or overwrites the source's event in place, protecting a closed or resolved status |
| EventRules.CreateAnswers | internal/event/memory_repository.go:27-44 | a new event is refused when its source has one already or its identifier is taken, and otherwise stored as it is |
| EventRules.UpsertAnswers | internal/event/memory_repository.go:63-75 | synchronising a known source writes description, category and end, and the status unless the event is closed or resolved; identifier, source and outcome stay |
| EventRules.UpsertInserts | internal/event/memory_repository.go:53-62 | an unknown source's event is stored as it is, unless its identifier is taken |
| EventRules.StatusAnswers | internal/event/memory_repository.go:143-166 | a status change writes that status and nothing else, exactly when the event has the status expected |
| EventRules.ResolveAnswers | internal/event/memory_repository.go:168-196 | a resolution writes status and outcome and nothing else, exactly when the status is the one expected and a source is given |
| EventRules.OperatorMoves | internal/event/event.go:245-256 | an operator moves an event only from pending to active or closed and from active to closed, and only while it has the status that was read |
| EventRules.ResolvesClosed | internal/event/event.go:288-316 | a resolution goes through exactly for a closed event, with an outcome and a source |
| Events.MemoryRepository.ResolveEvent | internal/event/memory_repository.go:168-196 | compare and set to resolved with its outcome, or an error and no change |
| Events.MemoryRepository.List | internal/event/memory_repository.go:109-141 | the page of matching events, soonest end first, and their number, whatever order the map is enumerated in |
| EventRules.PageRow | internal/event/memory_repository.go:109-141 | a page's row agrees with both filters, and exactly as many agreeing events end sooner, or at the same time with a smaller identifier, as the pages before it and the rows above it hold |
| EventRules.PageSize | internal/event/memory_repository.go:134-141 | the total is the number of agreeing events, and a page holds what is left of them up to its limit |
| ListCache.NeverStale | internal/event/event.go:211-229 | over every interleaving of readers, writers and evictions, with misses and failed puts anywhere, a listing that starts after a write's invalidation completed answers with the repository's page as of that write or later |
| ListCache.WrittenIsListed | internal/event/event.go:211-229 | once the invalidation after a write has completed, whatever ran between, a listing answers with the page of the table written or of a later one |
| ListCache.MissIsReadAndCached | internal/event/event.go:211-229 | a listing nothing interrupts reads an uncached page from the repository as it is, answers it, and caches it under the current version |
| ListCache.SecondListIsCached | internal/event/cache.go:87-159 | a second listing of the same page right after is answered from the cache |
| ListCache.MovedInv | internal/event/cache.go:87-159 | nothing cached under a version was read before that version was put, kept by every step |
| ListCache.KeyDataInjective | internal/event/cache.go:165-170 | two listings or versions never share a key, whatever a category contains |
| ListCache.EpochsDistinct | internal/event/cache.go:37-39 | a process never repeats a version, even with a clock that stands still |
| Keyset.PageIsOk | internal/order/order.go:291-311 | a page is the newest matching rows behind its cursor; without a next cursor it is all of them |
| Keyset.PageRowsAgree | internal/order/memory_repository.go:139-184 | every row of a page has the merchant, user, market and status the filters set, is older than the cursor's row, and only older rows follow it |
| Keyset.PageMissesNone | internal/order/memory_repository.go:139-184 | an order that has them and is older is on the page, or the page is full and the order is older than its last row, where the next page starts |
| Keyset.ScanDescends | internal/order/memory_repository.go:139-177 | across all pages orders come strictly newest first, none twice, with any placements and cancels in between |
| Keyset.EveryOrderOnce | internal/order/memory_repository.go:139-177 | while the exchange runs between the pages, a scan that reaches its last page returned every order that matched throughout exactly once |
| Keyset.ScanSound | internal/order/memory_repository.go:179-184 | every returned order matched the filters in some page's table |
| Keyset.ReturnedAgree | internal/order/memory_repository.go:179-184 | whatever the exchange does between the pages, a returned order had every value the filters set when some page was read |
| Keyset.AgreeingReturnedOnce | internal/order/memory_repository.go:139-184 | an order that had them whenever a page was read is returned exactly once by a scan that reaches its last page |
| Keyset.ReturnedNewestFirst | internal/order/memory_repository.go:155-160 | across all pages later creation comes first, and of one moment the larger identifier |
| Keyset.ScanEnds | internal/order/order.go:291-311 | with any limit of at least one the scan ends within as many full pages as the first table has rows for, however many orders are placed between the pages, if none is inserted behind the cursor |
| Keyset.ScanEndsWithinFinal | internal/order/memory_repository.go:139-177 | even with orders inserted behind the cursor it ends within as many full pages as the final table has rows for |
| Keyset.ScanOfRunEnds | internal/order/order.go:202-202 | no order is inserted behind the cursor while the exchange runs and gives new orders later times, so a scan of any such run ends |
| Wallets.RunInv | internal/wallet/memory_repository.go:40-188 | over every run with new identifiers each wallet's balance plus locked equals its credits less its debits, both parts are non-negative, and both indexes agree with the rows |
| Wallets.RepeatedCreditIsNoOp | internal/wallet/wallet.go:225-232 | a credit that went through is never applied again under its key, whatever ran in between and whatever the repeated call asks for |
| Wallets.LockIsUndone | internal/wallet/memory_repository.go:140-188 | unlocking what was locked restores the store |
| Wallets.MemoryRepository.Credit | internal/wallet/memory_repository.go:73-107 | opens the wallet, then refuses a known transaction or key, otherwise credits it and records both; the repository stays consistent if and only if the wallet identifier is new or the owner has a wallet |
| Wallets.CreditKeepsExactly | internal/wallet/memory_repository.go:84-89 | the invariant survives a credit exactly then: under another owner's identifier the credit overwrites that wallet |
| Wallets.MemoryRepository.Debit | internal/wallet/memory_repository.go:109-138 | refuses a missing wallet, a balance below the amount or a known transaction in this order and changes nothing, otherwise leaves the owner's balance less the amount, the debit recorded, and everything else as it was |
| Wallets.DebitCases | internal/wallet/memory_repository.go:109-138 | a debit takes exactly its amount from the owner's balance and records exactly that; each refusal has its one cause, in this order, and changes nothing |
| Wallets.LockCases | internal/wallet/memory_repository.go:140-163 | a lock moves exactly its amount from balance to locked, refused only for a missing wallet or a balance below it |
| Wallets.UnlockCases | internal/wallet/memory_repository.go:165-188 | an unlock moves it back, refused only for a missing wallet or a locked balance below it |
| Wallets.MemoryRepository.CreditWithIdempotency | internal/wallet/wallet.go:178-234 | a key already credited to the owner's wallet is answered as a success and changes nothing, a known transaction is refused and credits nothing, anything else credits the owner's wallet once under its key and changes nothing else |

## Left out

- Conversions between float64 and integer units: the model starts from validated units inside the declared maxima.
- SQL text, drivers, JSON, HTTP, authentication, metrics, tracing, health and logging.
- PostgreSQL isolation, advisory locks and row locks: each transaction is one atomic step.
- NATS retention and delivery limits, and fairness: the stream is an unbounded at-least-once log, and progress is claimed only for a consumer that nothing interrupts.
- Reconciliation, currency conversion, sports, analytics, event synchronisation clients, merchant and market administration beyond the market fields that placing and settling read.
- Generated identifiers, clocks and the digest of cache keys: new identifiers are new, versions generated by different processes differ, and the digest has no collisions.
- Timestamps of updates and fills, and the transaction rows that placement and settlement add to the statement of account: only balances are modelled there.
- The order book summary by price level, total counts of offset pagination of orders, and base64 coding of cursors.
- Event detail caching: it has no version, so no freshness holds for it.
- Database.Tables.PlaceWithLockedCollateral: models the path that locks collateral; the same transaction without it only matches.
- Wallets.RunInv: over runs whose credits use new wallet identifiers, as the service generates them; see `Wallets.CreditKeepsExactly` for the others.
- Creation.MovedInv: a client's check of the market is one answer of the market service, open or not.
- DeliveryRuns.NoLostResolution: the reads that begin a settlement call are one step; each market is its own.
- ListCache.NeverStale: says nothing of a write whose own invalidation put failed; its lists may be stale until they expire.
- Events.MemoryRepository.List: the memory repository's; the database's count and page are two queries and may disagree.
