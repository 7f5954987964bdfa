# Verified model of the BTCTurk trading bot

This project models the parts of the bot where money or orders can go wrong, and proves what they keep:
three ways of keeping positions, the order-replacement and unknown-order protocols, the single-flight
orderbook cache, the budgeted allocators and sizers, and the degrade machine. Check it with
`dafny verify dfyconfig.toml`.

Decimals are exact reals with the program's roundings written out (`ROUND_DOWN` truncates toward
zero). The exchange, clocks, other threads and other writers of the store are parameters: every theorem
about a run holds for any replies, any interleaving and any writes in between.

## Layout

| files | what they model |
|---|---|
| `Results`, `Ordering`, `Dedup` | replay of events, Python's stable sort, one event per id |
| `Money`, `Quantizer` | rounding to steps and quanta |
| `Fifo`, `DomainLedger`, `LedgerCheckpoint` | lot matching, the event-sourced ledger, checkpoints through serialization |
| `AccountingLedger`, `LedgerAgreement` | the accounting ledger, and its agreement with the first |
| `CashLaws` | what cash and realized PnL have to do with the lots, in both ledgers |
| `AverageCost`, `PnlAgreement`, `PortfolioPnl` | the average-cost book, and FIFO against average cost |
| `Drawdown`, `Degrade` | maximum drawdown, the degrade machine over timed runs |
| `SingleFlight` | the orderbook cache as interleaved thread steps |
| `ReplaceProtocol`, `ReplaceOutcomes`, `ReplaceService`, `Stage4Cycle` | the replace transaction: theorems over runs, what each step leaves behind, the service that carries it out, and the cycle around it |
| `UnknownFreeze`, `FreezeService` | the unknown-order freeze: theorems over runs, and the service |
| `Redistribution`, `Allocation`, `OrderSizing`, `NotionalSizing`, `RiskPolicy` | budgets, caps and order sizes |

Code that changes state is a class or a method with loops, proved equal to a function; the theorems are
about those functions.

## Findings

Where the code does something its name, its comments or its documentation would not suggest, the model
follows the code.

- The check that old orders are gone before a replacement is submitted compares the exchange's client
  ids with internal ids. The two differ, so an old order that is closed locally but still open at the
  exchange does not block the replacement (`ReplaceProtocol.OpenOldOrdersAreMissed`,
  `ReplaceProtocol.ReplacedWhileStillOpen`).
- A replacement whose submit ended uncertain is submitted again by the next call exactly when no freeze
  was set in between, the transaction is recognized, the new id is none of the old ones, and listing and
  gates allow it; the store's dedupe query does not stop it (`ReplaceProtocol.UncertainIsSubmittedAgain`).
- A transaction stores its symbol in upper case and is recognized only under a symbol that is upper case
  apart from underscores. Any other replacement gets one call, and if that call only cancelled, the
  replacement is never submitted (`ReplaceProtocol.NextCallProceeds`,
  `ReplaceProtocol.UnstableSymbolGetsOneCall`).
- A degrade decision made during a cooldown starts the cooldown again. With cycles closer together than
  the cooldown the level never changes again, in either direction, whatever happens
  (`Degrade.FrequentCyclesFreezeTheLevel`). At levels 1 and 2 a critical event is acted on exactly when
  900 seconds have passed since the decision before (`Degrade.ErrorsAreHeardExactly`).
- An order acknowledged without an order id is recorded as rejected and does not freeze later submits
  (`UnknownFreeze.FreezesExactly`).
- With a time to live of zero, followers of a successful orderbook fetch always fail
  (`SingleFlight.NoTtlNoSharing`).
- Stage 4 sends an order with price or quantity zero when no minimum notional is configured
  (`OrderSizing.EmptyOrders`).
- Upgrading a small order to the minimum notional works only when the minimum is a whole number of
  quantity steps (`NotionalSizing.UpgradeNeedsAnExactFit`).
- The allocator grants more than was asked exactly when the request is below the minimum order and no
  limit but the intent cap is, and reports it as accepted with reason "ok" unless some limit was below the
  request (`Allocation.RaisedAboveRequest`).
- The risk policy does not look at the minimum notional again after capping an order. An approval is
  below the minimum exactly when the per-order cap bites and leaves less than the minimum
  (`RiskPolicy.BelowMinimumExactly`, with `RiskPolicy.CappedBelowMinimum` as an instance).
- A ledger state survives serialization unchanged exactly when its lots carry their own symbol and
  UTC times (`LedgerCheckpoint.RoundTrip`).
- Maximum drawdown can be understated when equity turns negative. It is exact exactly when equity never
  turns negative after being positive, or the deepest debt comes after a single positive equity
  (`Drawdown.OnePassIsExactIff`, with `Drawdown.NegativeEquityUnderstated` as an instance).

## Model

| member | source | states |
|---|---|---|
| Money.ToStep | src/btcbot/domain/money_policy.py:159-162 | truncation toward zero: between zero and the value, off by less than one step, on both signs |
| Money.OnStepIffMultiple | src/btcbot/domain/money_policy.py:159-162 | rounding leaves a value alone exactly when it is a whole number of steps |
| Money.ToStepIdempotent | src/btcbot/domain/money_policy.py:159-162 | rounding twice is rounding once |
| Money.ToStepGreatest | src/btcbot/domain/money_policy.py:159-162 | a non-negative value is rounded to the largest grid point not above it |
| Money.ToStepShift | src/btcbot/domain/money_policy.py:159-162 | rounding a total and adding a rounded amount to a rounded total differ by at most one step, whatever the signs |
| Money.RoundQuoteIsMoney | src/btcbot/domain/money_policy.py:165-182 | under every policy quote rounding is a rounding to a grid closed under differences, never off by more than a quantum |
| Money.RoundsToOwnGrid | src/btcbot/domain/money_policy.py:165-182 | prices, quantities, quotes and fees are each truncated to the grid of their own tick, step or precision |
| Ordering.SortConcat | src/btcbot/domain/ledger.py:88-89 | a stable sort of two lists, the first no later than the second, is the two sorted lists |
| Ordering.SortStable | src/btcbot/domain/ledger.py:88-89 | elements the order does not tell apart stay in the order they were in |
| Ordering.KeyLeqExactly | src/btcbot/domain/ledger.py:88-89 | the sort key puts the earlier instant first, and at one instant the id with the smaller character at the first difference, or the prefix |
| Fifo.MatchSell | src/btcbot/domain/ledger.py:125-139 | the sell loop leaves the lots, the unfilled quantity and the booked gains of the matching function |
| Fifo.SellIsExact | src/btcbot/domain/ledger.py:126-139 | on on-grid lots the roundings inside the loop change nothing |
| Fifo.SellDrops | src/btcbot/domain/ledger.py:124-145 | one sell drops exactly its quantity from the front of the queue; what is unfilled is what the lots lacked |
| Fifo.SellConserves | src/btcbot/domain/ledger.py:124-139 | the matches account for every unit sold and for all the cost that left the book |
| Fifo.DropUnitsIsSuffix | src/btcbot/domain/ledger.py:131-139 | what remains is a suffix of the lots whose first lot may have shrunk |
| Fifo.RunIsQueueSuffix | src/btcbot/domain/ledger.py:100-145 | over a whole run: it fails exactly when a sell exceeds holdings; the lots are the buy queue with the sold units dropped; units are bought minus sold; matches plus open lots are at most the trades |
| Fifo.RoundingVanishes | src/btcbot/domain/ledger.py:113-139 | a run of on-grid trades is the run without rounding |
| DomainLedger.ApplyEvent | src/btcbot/domain/ledger.py:101-171 | the loop body is one step of the replay, with its three kinds of error and fee shapes |
| DomainLedger.ApplyEvents | src/btcbot/domain/ledger.py:92-173 | the loop replays the events in (time, id) order up to the first error |
| DomainLedger.CheckpointedReplay | src/btcbot/domain/ledger.py:88-173 | applying two lists in turn, no event of the second sorting earlier, is applying both at once, errors included |
| DomainLedger.AppliedInTimeOrder | src/btcbot/domain/ledger.py:88-100 | what is applied is the given events in order of time and then of id, equal ones in the order given |
| DomainLedger.CheckpointedInTime | src/btcbot/domain/ledger.py:88-173 | two lists of which the second lies later in time can be applied one after the other |
| DomainLedger.FeesAreSums | src/btcbot/domain/ledger.py:148-162 | fee totals are the sums of the fee events of their currency, in TRY up to one fee quantum each |
| DomainLedger.SymbolsIndependent | src/btcbot/domain/ledger.py:104-171 | each symbol's lots and realized PnL are those of its own trades |
| DomainLedger.SucceedsSymbolBySymbol | src/btcbot/domain/ledger.py:100-156 | a replay succeeds exactly when every symbol's trades do and every fee event is shaped like one |
| DomainLedger.LedgerIsQueue | src/btcbot/domain/ledger.py:100-145 | the ledger as queues: it fails exactly on a malformed fee or an uncovered sell; otherwise every symbol holds its buy queue minus the units sold, on the grid |
| LedgerCheckpoint.RoundTrip | src/btcbot/domain/ledger.py:180-234 | serialize then deserialize is the identity exactly on states whose lots carry their symbol and UTC times |
| LedgerCheckpoint.ReplayCommutes | src/btcbot/domain/ledger.py:100-173 | states that agree up to the form of opening times stay so under any replay, and fail alike |
| LedgerCheckpoint.ReplayThroughSerialization | src/btcbot/domain/ledger.py:92-234 | a checkpoint passed through serialization gives the full replay, up to the form of opening times |
| LedgerCheckpoint.ReplayThroughSerializationUtc | src/btcbot/domain/ledger.py:92-234 | with UTC times it gives exactly the full replay |
| Dedup.DedupeAll | src/btcbot/accounting/ledger.py:213-217 | the dictionary loop, keeping the least of the events with one id |
| Dedup.DedupeKeepsLeast | src/btcbot/accounting/ledger.py:196-217 | one event per id, each an input event that no input event with its id ranks below |
| AccountingLedger.RanksExactly | src/btcbot/accounting/ledger.py:199-216 | of two events with one id the earlier is kept; at one time the first text of the tuple in which they differ decides |
| AccountingLedger.KeyDeterminesView | src/btcbot/accounting/ledger.py:199-211 | events with the same id and ranking tuple are the same to the replay |
| AccountingLedger.ChronologyIgnoresOrder | src/btcbot/accounting/ledger.py:39-44 | what is replayed depends only on which events arrived |
| AccountingLedger.ReplayedInTimeOrder | src/btcbot/accounting/ledger.py:39-44 | what is replayed is in order of time and id, not after the given time, read from an earliest event of each id, and complete |
| AccountingLedger.ApplyEvent | src/btcbot/accounting/ledger.py:52-141 | the loop body is one step of the replay, for all seven kinds of event |
| AccountingLedger.RecomputeLedger | src/btcbot/accounting/ledger.py:30-141 | the loop replays the deduplicated events up to the given time, in order, up to the first oversell |
| AccountingLedger.RecomputeIgnoresOrder | src/btcbot/accounting/ledger.py:39-141 | any permutation of the events with any extra copies gives the same state or the same oversell, also with conflicting contents for one id |
| AccountingLedger.CashIsConserved | src/btcbot/accounting/ledger.py:69-132 | cash plus treasury changes by exactly the rounded notional of every buy and sell and the amounts of the other events, minus for fees, funding costs and withdrawals; rebalancing only moves it |
| CashLaws.CashFollowsLots | src/btcbot/accounting/ledger.py:51-141 | over every run, cash and treasury plus the cost of all open lots less all realized PnL is the start plus the own amounts of the events, up to two quanta per fill and the rounding of lot prices |
| CashLaws.CashFollowsLotsExactly | src/btcbot/accounting/ledger.py:51-141 | without rounding of money it is exactly that |
| CashLaws.TreasuryIsRebalances | src/btcbot/accounting/ledger.py:125-127 | the treasury is its start plus the rebalances into it |
| CashLaws.CostsAreSums | src/btcbot/accounting/ledger.py:108-119 | fees, funding costs and slippage of a symbol are the sums of their absolute amounts |
| CashLaws.RealizedIsEarned | src/btcbot/domain/ledger.py:108-165 | realized PnL is what sells brought less what buys paid, plus adjustments and the change of cost of the lots, up to one quote quantum per match |
| LedgerAgreement.LedgersAgree | src/btcbot/accounting/ledger.py:69-106 | on the same uniquely identified on-grid fills in any order the two ledgers fail on the same event with the same quantity left over, or hold the same lots and realize PnLs within one quote quantum per lot match |
| LedgerAgreement.MatchesBounded | src/btcbot/domain/ledger.py:124-139 | a symbol's lot matches plus its open lots are at most the fills |
| LedgerAgreement.DefaultTickOnQuantum | src/btcbot/domain/money_policy.py:23-26 | under the default policy a price on the tick is on the quote quantum |
| AverageCost.FeeInTry | src/btcbot/services/accounting_service_stage4.py:41-65 | a fee in TRY: nothing for no fee, itself in TRY, at the direct mark, at the inverse mark, or nothing without a mark; never negative |
| AverageCost.AccountingService.ApplyFills | src/btcbot/services/accounting_service_stage4.py:136-200 | the loop replays the fills, each id at most once; an oversell leaves the store as it was |
| AverageCost.RepetitionsChangeNothing | src/btcbot/services/accounting_service_stage4.py:146-151 | a list with repeated ids gives the positions of the list without them, or its error |
| AverageCost.OverlapsAreHarmless | src/btcbot/services/accounting_service_stage4.py:146-200 | after any batches, positions are those of each distinct committed fill id once, in first-seen order |
| AverageCost.CollectFills | src/btcbot/services/accounting_service_stage4.py:89-125 | the loop keeps each id once, counts the others, and tracks the latest time |
| AverageCost.WindowInTimeOrder | src/btcbot/services/accounting_service_stage4.py:75-119 | the window holds exactly the answered fills from the lookback on, as often as answered, in order of time and id, ties as answered, each read field by field |
| AverageCost.DatedByLastFill | src/btcbot/services/accounting_service_stage4.py:171-200 | a symbol has a position exactly when it had a fill, dated by the last one |
| AverageCost.FetchNewFills | src/btcbot/services/accounting_service_stage4.py:75-134 | the window from the lookback on, deduplicated, the last of the latest fills as the last one seen, and a cursor never below the stored one |
| AverageCost.LastSeenIsLatest | src/btcbot/services/accounting_service_stage4.py:123-125 | the fill reported as last seen is the last of the latest fills |
| AverageCost.LatestIsMaximum | src/btcbot/services/accounting_service_stage4.py:93-122 | the cursor is the maximum of its floor and the times seen |
| PnlAgreement.BooksAgree | src/btcbot/services/accounting_service_stage4.py:171-199 | over any positive fills both books fail together, hold the same quantity, and balance against the same cash |
| PnlAgreement.TotalsAgree | src/btcbot/services/accounting_service_stage4.py:171-199 | exact FIFO realized plus unrealized PnL is the average-cost total plus all fees, at any mark |
| PortfolioPnl.ComputeRealizedPnl | src/btcbot/domain/ledger.py:237-246 | the sum over symbols, rounded with the first symbol's policy |
| PortfolioPnl.ComputeUnrealizedPnl | src/btcbot/domain/ledger.py:249-267 | the nested loops: one running total over all lots, rounded at every lot, symbols without a mark skipped |
| PortfolioPnl.BooksFailTogether | src/btcbot/domain/ledger.py:140-145 | the ledger and the average-cost book oversell on the same histories |
| PortfolioPnl.PortfolioTotalsAgree | src/btcbot/domain/ledger.py:237-267 | reported realized plus unrealized PnL is the average-cost total before fees, within one quote quantum per fill for a common precision, and within each symbol's quanta plus two closing ones otherwise |
| Drawdown.ComputeMaxDrawdown | src/btcbot/domain/ledger.py:274-286 | the one-pass loop computes the largest fall from the peak so far |
| Drawdown.CurveInTimeOrder | src/btcbot/domain/ledger.py:277 | the curve is read in time order, points of one instant in the order given |
| Drawdown.OnePassIsEnough | src/btcbot/domain/ledger.py:274-286 | on curves never negative after being positive it is the unique maximum fall between any two points in time order, in [0, 1] |
| Drawdown.OnePassIsExactIff | src/btcbot/domain/ledger.py:274-286 | for every curve: the result is the maximum fall exactly when equity never turns negative after being positive, or the deepest debt follows a single positive equity |
| Drawdown.NeverOverstated | src/btcbot/domain/ledger.py:274-286 | for every curve the result is at most the maximum fall |
| Drawdown.NegativeEquityUnderstated | src/btcbot/domain/ledger.py:278-285 | with negative equity a larger fall can go unreported |
| Degrade.CombineModes | src/btcbot/domain/anomalies.py:43-50 | the result is one of the two modes and at least as strict as both |
| Degrade.LevelsExactly | src/btcbot/domain/anomalies.py:75-147 | in every run: the same level when 1800 seconds at level 3, or 900 below, have not passed; else 3 on an open breaker, a freeze or an error, 2 from twice the warning threshold, 1 from the threshold, and one less after four or eight calm decisions |
| Degrade.AlwaysImposes | src/btcbot/domain/anomalies.py:82-103 | every decision of a run carries the mode, shrink factor and universe cap of its level |
| Degrade.HigherIsStricter | src/btcbot/domain/anomalies.py:43-103 | of two decisions the one at the higher level is at least as strict in mode, order size and universe |
| Degrade.AlwaysConsistent | src/btcbot/domain/anomalies.py:92-102 | in every run a cooldown is set exactly at raised levels, counted from the decision, and the streak is short of the step down |
| Degrade.StreakIsCount | src/btcbot/domain/anomalies.py:139-145 | the streak is the number of calm decisions since the level was last entered |
| Degrade.StepsDownOneByOne | src/btcbot/domain/anomalies.py:139-145 | without a warning acted on, a level drops by one, after a full streak of calm decisions each a cooldown apart |
| Degrade.RecoveryTakesEight | src/btcbot/domain/anomalies.py:111-147 | level 0 is reached from a raised level only from level 1, after eight calm decisions with nothing acted on between, each at least 900 seconds after the decision before it |
| Degrade.RecoveryTakesTwoHours | src/btcbot/domain/anomalies.py:111-147 | on a clock that does not run backwards, the 7200 seconds before a recovery hold only calm at level 1 |
| Degrade.FrequentCyclesFreezeTheLevel | src/btcbot/domain/anomalies.py:111-112 | with cycles closer than the cooldown the level and the streak never change again |
| Degrade.ErrorsAreHeardExactly | src/btcbot/domain/anomalies.py:111-125 | in every run critical input leads to level 3 exactly when the machine is at level 0 or 3, or 900 seconds have passed since the decision before |
| Degrade.RaisedAtOnce | src/btcbot/domain/anomalies.py:118-147 | outside a cooldown level 3 follows exactly critical input, or a calm decision at level 3 short of its streak |
| Degrade.Decisions | src/btcbot/domain/anomalies.py:53-147 | any inputs give a run, each decision fed the one before it |
| SingleFlight.OrderbookCache.Enter | src/btcbot/adapters/btcturk_http.py:705-726 | the first locked section: hit, new leader or waiter, and its effect on the dictionaries |
| SingleFlight.OrderbookCache.ReadAfterWait | src/btcbot/adapters/btcturk_http.py:731-735 | a follower's second look at the cache |
| SingleFlight.OrderbookCache.Store | src/btcbot/adapters/btcturk_http.py:754-759 | the leader's store |
| SingleFlight.OrderbookCache.Pop | src/btcbot/adapters/btcturk_http.py:762-763 | the removal of the entry in the finally block |
| SingleFlight.OrderbookCache.SetEvent | src/btcbot/adapters/btcturk_http.py:764-765 | waking the waiters |
| SingleFlight.AlwaysHolds | src/btcbot/adapters/btcturk_http.py:701-825 | the protocol and data invariants hold in every reachable world |
| SingleFlight.OneFetchPerKey | src/btcbot/adapters/btcturk_http.py:717-726 | at most one thread per key leads, in every interleaving |
| SingleFlight.EntriesAndWaiters | src/btcbot/adapters/btcturk_http.py:728-765 | a leader removes only its own entry; an unset event that is waited on has a live maker that will set it, and a set one has none |
| SingleFlight.WaitersAreWoken | src/btcbot/adapters/btcturk_http.py:728-765 | however a run goes on, four more steps of the leader set the event its waiters wait on |
| SingleFlight.NeverBlocked | src/btcbot/adapters/btcturk_http.py:738-765 | a leader can always take its next step |
| SingleFlight.ReturnsAreSound | src/btcbot/adapters/btcturk_http.py:706-759 | a returned quote was fetched for the same key: by the caller, or stored less than the time to live before it was read |
| SingleFlight.CallsEndAsTheyWent | src/btcbot/adapters/btcturk_http.py:728-765 | how a call ended tells what its thread did: it returns its own fetch only after fetching and storing that quote, and raises a failed fetch only after its own fetch failed |
| SingleFlight.LeaderReturnsItsFetch | src/btcbot/adapters/btcturk_http.py:738-765 | whatever the others do, a leader whose fetch succeeded returns that quote three of its own steps later, and one whose fetch failed raises two steps later |
| SingleFlight.StoredIsReturned | src/btcbot/adapters/btcturk_http.py:753-765 | a leader that has its quote returns it three of its own steps later |
| SingleFlight.StoredNow | src/btcbot/adapters/btcturk_http.py:753-759 | right after a store, a call for the key reads that quote for the time to live |
| SingleFlight.StoredFetchIsShared | src/btcbot/adapters/btcturk_http.py:705-735 | until a stored fetch expires, no call for its key fetches again or fails |
| SingleFlight.NoTtlNoSharing | src/btcbot/adapters/btcturk_http.py:708-736 | without a time to live nothing is ever read from the cache |
| ReplaceProtocol.ConfirmedExactly | src/btcbot/services/execution_service_stage4.py:616-633 | cancels are confirmed exactly when every old id is absent from the listing and locally terminal |
| ReplaceProtocol.CancelAllEffects | src/btcbot/services/execution_service_stage4.py:973-1016 | live cancels close no order locally and leave each order they were sent for unconfirmed |
| ReplaceProtocol.SubmitNeedsClearListing | src/btcbot/services/execution_service_stage4.py:446-608 | a call that submits makes exactly two exchange calls, a listing without the old ids and the submit, and found all old orders locally terminal; so it sent no cancel |
| ReplaceProtocol.EveryRunIsSafe | src/btcbot/services/execution_service_stage4.py:446-633 | in every run each submit of a transaction directly follows a listing without its old ids, an answered submit is the last call of the transaction, and every call is one an operation means to make: a submit with the symbol, side and exchange client id of its action and a price and quantity that may be sent for it, a cancel of the order its action names or its row has |
| ReplaceProtocol.NextSends | src/btcbot/services/execution_service_stage4.py:776-1016 | the same for every operation from any state |
| ReplaceProtocol.FinalForever | src/btcbot/services/execution_service_stage4.py:500-501 | a confirmed or failed transaction never changes and never causes another exchange call |
| ReplaceProtocol.ListingCheckComparesInternalIds | src/btcbot/services/execution_service_stage4.py:616-622 | with all old orders locally terminal, the check blocks exactly when a listed id is one of the old internal ids |
| ReplaceProtocol.OpenOldOrdersAreMissed | src/btcbot/services/execution_service_stage4.py:610-633 | old orders listed under their exchange ids are missed exactly when none of those ids is an old internal id |
| ReplaceProtocol.SubmitsExactly | src/btcbot/services/execution_service_stage4.py:446-608 | a call submits exactly when it gets past the stored row, there is no freeze, the old orders are locally terminal, the listing shows none of their internal ids, and the gates are open |
| ReplaceProtocol.NextCallProceeds | src/btcbot/services/execution_service_stage4.py:457-501 | the next call on a transaction goes on exactly when this one did not end it and the stored symbol is recognized |
| ReplaceProtocol.SecondCallSubmits | src/btcbot/services/execution_service_stage4.py:446-608 | after any first call and any writes by others, the exact condition under which the second call submits |
| ReplaceProtocol.UnstableSymbolGetsOneCall | src/btcbot/services/execution_service_stage4.py:470-498 | a replacement of a symbol that is not upper case has no effect after its first call, however the run goes on |
| ReplaceProtocol.UnknownIsNotDeduped | src/btcbot/persistence/sqlite/orders_repo.py:104-144 | the dedupe query does not stop a second submit of an order recorded as unknown |
| ReplaceProtocol.UncertainIsSubmittedAgain | src/btcbot/services/execution_service_stage4.py:528-608 | the exact condition under which a replacement whose submit ended uncertain is submitted again by the next call |
| ReplaceProtocol.ReplacedWhileStillOpen | src/btcbot/services/execution_service_stage4.py:610-622 | the replacement is submitted while the listing shows every old order open |
| ReplaceOutcomes.CancelOutcome | src/btcbot/services/execution_service_stage4.py:973-1016 | when a cancel is sent, and what it leaves in the rows, in every case |
| ReplaceOutcomes.CallMovesTx | src/btcbot/services/execution_service_stage4.py:559-590 | a call that submits leaves the transaction confirmed, failed or sent, as the exchange answered |
| ReplaceOutcomes.UnconfirmedBlocks | src/btcbot/services/execution_service_stage4.py:528-557 | a live call whose cancels came back unconfirmed leaves the transaction blocked for reconcile |
| ReplaceOutcomes.AcknowledgedIsDeduped | src/btcbot/services/execution_service_stage4.py:724-731 | an acknowledged order is not sent again while its row stays and the dedupe query answers truthfully |
| ReplaceOutcomes.ProgressOnly | src/btcbot/services/state_store.py:4056-4099 | of two states on the way from start to confirmation the later is kept |
| ReplaceService.ExecutionService.UpdateTxState | src/btcbot/services/state_store.py:4056-4099 | the guarded update of a transaction's state: final states never change, and otherwise ranks do not fall except through a blocked state |
| ReplaceService.ExecutionService.ExecuteCancel | src/btcbot/services/execution_service_stage4.py:973-1016 | the cancel of one order on the stored rows |
| ReplaceService.ExecutionService.ConfirmCancels | src/btcbot/services/execution_service_stage4.py:610-633 | the listing and the loop over the old orders |
| ReplaceService.ExecutionService.ExecuteSubmit | src/btcbot/services/execution_service_stage4.py:653-971 | the submit of one order: freeze, gate, dedupe, rules, size, reply |
| ReplaceService.ExecutionService.CancelGroup | src/btcbot/services/execution_service_stage4.py:528-529 | the loop over the cancels of a group |
| ReplaceService.ExecutionService.ExecuteReplaceGroup | src/btcbot/services/execution_service_stage4.py:446-608 | the whole call on a transaction, exceptions included |
| Stage4Cycle.FillBuckets | src/btcbot/services/execution_service_stage4.py:396-412 | the dictionary of buckets: one per symbol and side, each holding its actions by kind, in order |
| Stage4Cycle.ExtractReplaceGroups | src/btcbot/services/execution_service_stage4.py:392-435 | single actions and replace groups, in the order their keys first occur |
| Stage4Cycle.ActionsAreConserved | src/btcbot/services/execution_service_stage4.py:392-435 | every action ends up, exactly as often as it was given, among the single actions or in a group |
| Stage4Cycle.CommandsExactly | src/btcbot/services/execution_service_stage4.py:149-330 | with nothing restricted, a command is given exactly for every single cancel and submit and every key with both sides of a replacement |
| Stage4Cycle.ReplacesWithLast | src/btcbot/services/execution_service_stage4.py:392-435 | a replacement submits the last submit of its key and cancels all its orders |
| Stage4Cycle.CancelsGoOn | src/btcbot/services/execution_service_stage4.py:149-330 | restricted but not frozen altogether, every cancel goes on and nothing else |
| Stage4Cycle.NothingSubmittedWhileRestricted | src/btcbot/services/execution_service_stage4.py:149-330 | with the kill switch or the freeze on, a cycle submits nothing and touches no transaction, however far it gets; with everything frozen it does nothing |
| UnknownFreeze.EveryRunKeepsTheFreeze | src/btcbot/services/execution_service.py:1126-1152 | in every run nothing is submitted while the registry holds an unknown order, and after an unconfirmed submit nothing is submitted until a refresh that did not fail |
| UnknownFreeze.FrozenUntilReported | src/btcbot/services/execution_service.py:250-503 | after an unconfirmed submit nothing is submitted, in any run, until the exchange has reported that order to a refresh or someone else rewrites its row |
| UnknownFreeze.ThawNeedsEvidence | src/btcbot/services/execution_service.py:250-503 | a refresh that empties the registry was told by the exchange about every order that was unknown |
| UnknownFreeze.FreezesExactly | src/btcbot/services/execution_service.py:1405-1573 | a submit that goes out blocks the next one exactly when its outcome is uncertain and not found |
| UnknownFreeze.SubmitRecorded | src/btcbot/services/execution_service.py:1405-1573 | nothing goes out while an order is unknown; otherwise one submit does, and the row of the order is open, rejected or unknown as the reply says |
| UnknownFreeze.RefreshThaws | src/btcbot/services/execution_service.py:493-504 | a refresh that reads every listing leaves exactly the orders still unknown in the registry; one that misses an open listing lets none out |
| UnknownFreeze.ReportsTaken | src/btcbot/services/execution_service.py:736-765 | after the open listing every stored or sided order is as it was last reported, and every other row stays |
| UnknownFreeze.ReportedIsTaken | src/btcbot/services/execution_service.py:368-490 | a local order that is not open but among the recent ones is taken as reported, an unknown one once it is due |
| UnknownFreeze.MissingIsRejected | src/btcbot/services/execution_service.py:419-490 | a local order found nowhere is closed as rejected if it should be there; an unknown one stays unknown |
| UnknownFreeze.PlacedIsConfirmed | src/btcbot/services/execution_service.py:1405-1573 | the orders counted as placed are the submits confirmed |
| FreezeService.ExecutionService.SyncFromStore | src/btcbot/services/execution_service.py:190-199 | only a clearing sync lets an order out of the registry |
| FreezeService.ExecutionService.ReconcileLocals | src/btcbot/services/execution_service.py:368-490 | the loop over a symbol's local orders |
| FreezeService.ExecutionService.ReconcileOneSymbol | src/btcbot/services/execution_service.py:301-490 | one symbol of a refresh, failures included |
| FreezeService.ExecutionService.RefreshOrderLifecycle | src/btcbot/services/execution_service.py:250-504 | a whole refresh; without symbols or while backing off it does nothing |
| FreezeService.ExecutionService.SubmitLimitOrder | src/btcbot/services/execution_service.py:1760-1811 | the gate at the submit, and what each reply leaves in the store and the registry |
| FreezeService.ExecutionService.ExecuteOrderIntents | src/btcbot/services/execution_service.py:1041-1152 | refresh, sync, guards, gate, then the intents until one raises |
| FreezeService.ExecutionService.CancelStaleOrders | src/btcbot/services/execution_service.py:940-973 | what stale-order cancels leave in the store and the registry |
| Quantizer.QuantizePrice | src/btcbot/domain/stage4.py:149-157 | fails exactly on a non-positive price; otherwise the price floored to its grid |
| Quantizer.QuantizeQty | src/btcbot/domain/stage4.py:159-167 | fails exactly on a non-positive quantity; otherwise the quantity floored to its grid |
| Quantizer.QuantizeQtyUp | src/btcbot/domain/stage4.py:169-177 | the quantity raised to its grid by less than one step |
| Redistribution.RunRound | src/btcbot/services/decision_pipeline_service.py:291-328 | one round over a snapshot with removals in place: the passing symbols, their plans, and every drop counted once |
| Redistribution.RunRounds | src/btcbot/services/decision_pipeline_service.py:287-331 | the while loop: at most two rounds, the plans of the round-one survivors |
| Redistribution.PlanAggressively | src/btcbot/services/decision_pipeline_service.py:265-331 | the plan names exactly the round-one survivors, each once, after at most two rounds; every order fits its share of the budget; and price times quantity over all orders is at most the deploy budget |
| Redistribution.PlansFit | src/btcbot/services/decision_pipeline_service.py:302-328 | an order has the mark price floored to its tick, a grid quantity worth the minimum and at most the share, which would not pay for one step more, and the notional of its price and quantity |
| Redistribution.OrderExactly | src/btcbot/services/decision_pipeline_service.py:302-328 | there is an order exactly when some grid quantity is worth the minimum and affordable, and which reason is given otherwise |
| Redistribution.SurvivesExactly | src/btcbot/services/decision_pipeline_service.py:276-331 | who survives: the eligible symbols with an affordable order in the first round |
| Redistribution.SharesByScore | src/btcbot/services/decision_pipeline_service.py:292-301 | shares are proportional to scores, and equal when nobody has one |
| Redistribution.SurvivorPasses | src/btcbot/services/decision_pipeline_service.py:291-328 | whoever passes a round passes the next, because shares only grow |
| Redistribution.SecondRoundIsStable | src/btcbot/services/decision_pipeline_service.py:291-331 | the second round drops nobody |
| Redistribution.BudgetIsAllotted | src/btcbot/services/decision_pipeline_service.py:292-301 | the shares of a round add up to the budget, by score or equally |
| Redistribution.PlansWithinAllotments | src/btcbot/services/decision_pipeline_service.py:302-328 | a round's plans cost no more than their allotments, with repeated symbols counted once |
| Redistribution.FeeBufferRatio | src/btcbot/services/decision_pipeline_service.py:619-624 | the configured ratio when positive, otherwise the basis points; never negative |
| Redistribution.DeployBudget | src/btcbot/services/decision_pipeline_service.py:265-271 | never negative, and with its fees the scaled cash above target |
| Redistribution.PlanKeepsReserve | src/btcbot/services/decision_pipeline_service.py:265-271 | unless scaled up, a plan within the budget leaves cash at or above target there, fees included |
| OrderSizing.SizedOrders | src/btcbot/services/execution_service_stage4.py:776-890 | a submitted or simulated order has the price floored to its tick, the quantity floored to its step or one that overshoots the minimum by less than one step in value, and is worth between the required minimum and a positive cap |
| OrderSizing.RejectedExactly | src/btcbot/services/execution_service_stage4.py:776-838 | a minimum-notional reject happens exactly when the minimum is positive and the intent is worth less or its price floors to zero |
| OrderSizing.RepairIsLeast | src/btcbot/services/execution_service_stage4.py:786-793 | no smaller grid quantity than the repaired one meets the minimum |
| OrderSizing.CappedExactly | src/btcbot/services/execution_service_stage4.py:839-876 | a cap reject happens exactly when no grid quantity from the floored one on is worth the minimum and within the cap |
| OrderSizing.EmptyOrders | src/btcbot/services/execution_service_stage4.py:776-890 | an order worth nothing goes out exactly when no positive minimum is required and the price or quantity floors to zero |
| NotionalSizing.AcceptedIsMaximal | src/btcbot/domain/money_policy.py:61-142 | an accepted order is on grid, meets a positive minimum, is within the target and short of it by less than one step's value; no larger grid quantity fits |
| NotionalSizing.SizedExactly | src/btcbot/domain/money_policy.py:61-142 | how a positive sizing ends in every case, with the order considered: the floored price and the largest grid quantity within the target |
| NotionalSizing.ViolationsAreBounds | src/btcbot/domain/money_policy.py:125-134 | the last check finds price and quantity bounds only, never the grid or the minimum total |
| NotionalSizing.ValidationIsBounds | src/btcbot/domain/models.py:321-343 | on a quantized order that meets the minimum, validation fails exactly on a bound |
| NotionalSizing.UpgradeNeedsAnExactFit | src/btcbot/domain/money_policy.py:80-123 | a desired notional below the minimum is upgraded successfully exactly when the minimum is a whole number of steps |
| Allocation.Investable | src/btcbot/services/allocation_service.py:337-362 | what may be invested this cycle is between zero and what is investable |
| Allocation.InvestableExactly | src/btcbot/services/allocation_service.py:337-362 | it is the largest amount that the usage mode and the maximum cash allow |
| Allocation.DeployBudget | src/btcbot/services/allocation_service.py:74-80 | the deploy budget with its fees is what may be invested |
| Allocation.Record | src/btcbot/services/allocation_service.py:285-317 | the end of the loop body keeps actions, planned total and what is left in step with the decisions |
| Allocation.DecideInTurn | src/btcbot/services/allocation_service.py:82-317 | the loop decides each intent on what the ones before it left |
| Allocation.Allocate | src/btcbot/services/allocation_service.py:47-334 | decisions, actions, planned total and unused budget |
| Allocation.DecidedInTurn | src/btcbot/services/allocation_service.py:82-317 | each intent is decided on the budget less the buys before it and the cycle cap less all grants before it |
| Allocation.GrantedExactly | src/btcbot/services/allocation_service.py:137-285 | the grant is the largest amount within the request and every limit; or the minimum order when only the request or the intent cap stands below it; or nothing; and the reason names a limit that stands there |
| Allocation.ReserveIsKept | src/btcbot/services/allocation_service.py:69-334 | buys with fees stay within what may be invested, so cash at or above target stays there; all notional stays within a cycle cap; grants meet the minimum; one decision per intent in order |
| Allocation.IntentCaps | src/btcbot/services/allocation_service.py:137-256 | per intent: sells within the position and its value, buys within the position cap from the starting position, the intent cap unless raised to the minimum |
| Allocation.RaisedAboveRequest | src/btcbot/services/allocation_service.py:224-285 | an intent is granted more than it asked for exactly when the request is below the minimum and no limit but the intent cap is; the grant is then called accepted exactly when no limit was below the request |
| RiskPolicy.Policy.Evaluate | src/btcbot/risk/policy.py:62-179 | the loop approves and blocks as the verdicts say |
| RiskPolicy.CapShrinks | src/btcbot/risk/policy.py:125-131 | capping only shrinks an order, to within the cap |
| RiskPolicy.EvaluateIsSound | src/btcbot/risk/policy.py:62-250 | approved notional within the cycle cap, orders within a positive order cap, buys within a positive investable amount so far, price and quantity only shrunk, approved plus blocked is examined |
| RiskPolicy.ApprovedWithinCap | src/btcbot/risk/policy.py:62-179 | price times quantity over all approved intents is within the cycle cap |
| RiskPolicy.ApprovedExactly | src/btcbot/risk/policy.py:86-179 | when an intent is approved, for which price and quantity, and that a block names something that stands against it |
| RiskPolicy.ExaminedIsPrefix | src/btcbot/risk/policy.py:86 | the intents examined are the first ones, up to the maximum |
| RiskPolicy.BelowMinimumExactly | src/btcbot/risk/policy.py:125-176 | an approval is below the minimum notional exactly when the per-order cap bites on the floored price and quantity and leaves less than the minimum |
| RiskPolicy.UncappedMeetMinimum | src/btcbot/risk/policy.py:125-176 | without a per-order cap every approval of a run meets its symbol's minimum |
| RiskPolicy.CappedBelowMinimum | src/btcbot/risk/policy.py:125-176 | an instance: an order worth 50 approved under a minimum of 60 |

## Left out

- Decimal context: Python's 28-digit precision, NaN and infinities; arithmetic is exact, and an infinite position cap is no cap.
- Decimal text: formatting and parsing of numbers and timestamps in the serialized ledger and in event rankings; the number a text denotes is a parameter.
- AccountingLedger.RecomputeLedger: stops at the replayed state; the closing summary (totals, average costs, unrealized PnL, equity) is a function of that state and the marks, and would add only sums. Event metadata is taken as the list of its items in sorted order.
- Text: upper-casing and symbol normalization are ASCII; symbols of the risk policy, the allocator and the redistribution loop are taken as canonical.
- AverageCost.AccountingService.ApplyFills: the snapshot it returns (equity, daily PnL, drawdown) and the notes on missing fee conversions.
- AverageCost.OverlapsAreHarmless: a batch that oversells is rolled back as a whole, as the unit of work around the call does.
- PortfolioPnl.PortfolioTotalsAgree: fills are given in the ledger's replay order, and the order of a ledger's symbols is the order its dictionary lists them.
- Degrade: the reasons attached to decisions, and the manual override, which replaces the fed-back mode.
- SingleFlight.NeverBlocked: taking the lock is not a step of its own; each locked section is one step, and no section waits inside the lock.
- SingleFlight: HTTP, retries, payload parsing and metrics; a fetch succeeds or fails as it likes. The 429 breaker of the same client is not part of this model.
- Stage4Cycle: the counts and suppression records of the report; coalescing several submits of a group keeps the last one, as the source does.
- ReplaceService.ExecutionService.ExecuteSubmit: the reject cooldown, the write policy and the age of a filled row are parameters, and so is which of several rows under the same exchange id was updated last.
- ReplaceProtocol: transaction ids are arbitrary, not assumed unique; reject counters and details.
- FreezeService.ExecutionService.ExecuteOrderIntents: sizing, balances and idempotency keys only decide whether an intent is sent, and are given as a skipped, aborted or sent intent.
- FreezeService.ExecutionService.CancelStaleOrders: ages and idempotency keys only decide which orders are cancelled; what each cancel leaves is given.
- UnknownFreeze: idempotency keys, balances and sizing before a submit, which only decide whether it is attempted; restarting the process, which rebuilds the registry from the unknown rows; probe back-off times and escalation, which are parameters.
- Redistribution: the orders and reports made from the plan, and the choice of orders for the cycle; drops are counted by reason, and claimed in total.
- Allocation: diagnostics and counters. Position caps are measured from the position at the start of the cycle, so they are claimed per intent.
- RiskPolicy: the payload of log events.
- The command line, settings, persistence engine, locks, metrics, alerts, strategies and the universe selector.
