# Metron portfolio accounting, modelled and proved in Dafny

This project models the parts of the Metron back end that turn stored broker rows into
holdings, realized gains, returns, attribution and plans, and proves what those parts promise
over all inputs, all runs and all interleavings. `dafny verify dfyconfig.toml` checks everything.

Amounts are exact reals (cents are rounded half-even where the code rounds); dates and account
ids are integers; database reads are sequences of rows in the order the query returns them.

## What is modelled

| part of the system | modules |
|---|---|
| Cross-process single-flight cache (`cached`, orphan-lock repair), as a state machine over any number of workers, expiring locks, evictions, raising computes and dying processes; where its promises end | `SingleFlight`, `SingleFlightAnswers`, `SingleFlightRaces` |
| Per-session fingerprint memo and its event hooks | `FingerprintMemo` |
| Tax-lot ledger: FIFO relief, buys, sells, transfers in kind, splits | `FifoLedger`, `LedgerReplay`, `LedgerAccounting`, `LedgerMeaning`, `WholeUnitLedger` |
| Merged ledger over accounts, replayed per (account, ticker) | `PortfolioLedger` |
| Stored rows, scoping, snapshot-sourced accounts, currency by the tenant's own links | `PortfolioData`, `LinkCurrency` |
| Holdings per scope, the batched per-account reader, consolidation, cash per account | `Holdings`, `HoldingsMeaning`, `HoldingsReaders`, `HoldingsConservation`, `AccountCash`, `AccountCashMeaning` |
| Valuation in place, copy-on-read rows, consolidated against per-account value | `Valuation`, `HoldingRows`, `ConsolidatedValue` |
| Realized lots from two sources and their tax split | `Realized`, `RealizedMeaning`, `RealizedSplit`, `RealizedCurrencies`, `RealizedCounterexample` |
| The household's flow-neutralised return series | `PersonalReturns`, `PersonalReturnsRows`, `PersonalReturnsConservation`, `PersonalReturnsBuild` |
| Sector attribution: common window, sector aggregates, reconciliation | `AttributionWindow`, `AttributionSectors`, `AttributionReconcile` |
| Cash-to-targets allocator, its optimality argument and the limits of it | `CashToTargets`, `CashToTargetsHeld`, `CashToTargetsOptimality`, `CashToTargetsLimits`, `CashToTargetsWholeShares`, `CashToTargetsRounding` |
| Append-only NAV revision log | `NavRevisions`, `NavHistory`, `NavPrecision` |
| Deterministic insight ranker | `Ranker`, `RankerTies` |
| Shared: options, stable sorting, sorted sets, sums over maps, cents, reals, text | `Wrappers`, `Sorting`, `OrderedSets`, `Sums`, `Decimals`, `Arithmetic`, `Text` |

Code that works step by step is modelled by methods and classes (loops with invariants, fields
that methods reassign) proved against specification functions; the main results are lemmas about
those functions and about every run.

The NAV log keeps both records when a row is deleted and added back unchanged: equal neighbours collapse
only when no removal lies between them (`NavHistory.ReinsertedValueIsKeptTwice`).

## Where the code does not keep what its documentation says

Each of these has a concrete input, and the exact condition under which the promise does hold; for
`cash_to_targets` with several targets and too little cash for all of them, the two conditions given
bound it from either side.

* `cached` promises at most one compute per key and content. That holds while no compute outlives its
  lock and no entry is evicted or passes its own 300 s expiry (`SingleFlight.ComputedAtMostOnce`), and
  both are needed. A second worker that waits one lock lifetime beside a running compute computes as
  well, from any reachable state (`SingleFlightRaces.WaitingWorkerComputesToo`), and two callers can
  get different values (`SlowComputeRunsTwice`); two workers computing one key at once always means an
  untimely step before (`TwoComputersMeanUntimely`). A key stored and then expired is computed again
  without any lock running out (`ExpiredEntryIsComputedAgain`).
* `_bound_unexpiring_lock` promises to leave a live holder untouched. The row is read twice, so a holder
  can come in between: in a reachable run its expiry moves from 130 to 131
  (`SingleFlightRaces.LiveHolderIsTouched`). Over all runs the touch leaves every live holder's row as it
  was if and only if no live expiry was put on that key, at an earlier time, since this worker read the
  row (`TouchSparesHoldersExactly`); it never shortens one (`TouchOnlyExtends`).
* `_apply_valuation` compares a ticker's whole value with the sum of the broker totals its accounts report,
  so a consolidated row can be worth more or less than its accounts (`Valuation.ConsolidationCanChangeValue`:
  100 by account and 10 consolidated, 190 and 100; `TwoSnapshotsCanChangeValue`: 130 and 200). With positive
  quantities, totals and closes, a ledger part and a snapshot part add up if and only if the ticker has a cached
  close, the snapshot part is in scale with its own total, and all shares are worth at most twice that total
  (`MixedSourcesAddUpExactly`). Two snapshot parts add up if and only if there is no cached close, or both are in
  scale, or the out-of-scale cases of `SnapshotsAddUpExactly` cancel. Without a cached close the broker's total
  is spread over the ledger shares as well and their whole cost shows as a loss (`NoCloseDilutes`,
  `NoCloseInventsALoss`: one share gains 5, all ten lose 40). All of this holds for the rows the readers return
  (`ConsolidatedValue.ConsolidatedValueIsTheSumExactly`, `ConsolidatedSnapshotsAddUpExactly`,
  `ConsolidatedWithoutClose`).
* `_apply_valuation` divides by the broker's total. It raises exactly when that total is zero while quantity
  and computed value are positive, with price and computed value already written
  (`Valuation.Row.ApplyValuation`).
* `summary` promises that splitting by tax treatment loses nothing. That is true of native amounts, and of
  currencies and base amounts exactly when every replayed ticker resolves to one currency in its part and in
  the whole (`RealizedSplit.TaxSplitConservesBaseLotsExactly`). On the stored rows: with upper-case,
  non-blank symbols it is enough that the replayed accounts link each symbol in one currency
  (`RealizedCurrencies.OneCurrencyConservesBaseLots`); with two currencies it fails
  (`RealizedCounterexample.TwoCurrenciesBreakTheBaseSplit`).
* `cash_to_targets` promises the whole-share purchases that leave the smallest total deviation, and argues that
  an optimal plan never passes a target. With one target at 40 a share and a gap of 70 the plan buys one share
  and two would be closer (`CashToTargetsWholeShares.PassingATargetCanBeBetter`); with several targets list order
  can also use up the cash for a better set of shares (`WholeSharesCanMissTheOptimum`), or leave less than the
  minimum line (`MinimumLineCanMissTheOptimum`). In whole cents: a line is the best one for its target and the
  cash left if and only if the next larger line is not affordable, not under the cap, or not closer
  (`LineIsBestExactly`); with cash for every room and one share and minimum line more each, no whole-share plan
  beats the plan if and only if no target is better passed, which price, room, cap and minimum line decide
  (`AmplePlanIsBestExactly`, by half a share's price in `HalfAShareDecides`); with a single target the same for
  any cash (`OneTargetIsBestExactly`). With less cash and several targets it is a packing problem: finitely many
  plans decide it, those that pass no target by more than one line (`TrimmedPlansDecide`). The plan is then beaten whenever the unspent cash buys an improving line (`UnspentCashBeatsThePlan`), is not when it spends
  the amount or all the room (`CashToTargetsLimits.OptimalExactlyWhenSpent`, which is exact against fractional
  allocations, with `FractionalBestIsBest`), and is always within one share price and one minimum line per priced
  target of the best (`CashToTargetsOptimality.WholeSharePlanIsNearOptimal`, `OneShareEachInWholeCents`).
* `cash_to_targets` reports what is left of the cash, but can spend more than there is: 10.006 is spent as
  10.01 (`CashToTargetsLimits.SubCentAmountCanOverspend`). No book overspends an amount if and only if its
  fraction of a cent is below one half, or it is 0.005 itself (`CashToTargetsRounding.OverspendsExactly`).
* `rank` promises never to depend on the order candidates were generated in. That holds if and only if no two
  different candidates with a chance of a slot share facet key and score (`RankerTies.OrderFreeExactly`, for
  every limit; `RepeatedKeysFollowGenerationOrder` for two alerts about one position).
* `select` with a limit of zero and no `as_of` raises even when candidates exist, because the ranked list it
  dates the floor from is empty (`Ranker.FloorExactlyWhenQuiet`).

## Model

| member | source | states |
|---|---|---|
| SingleFlight.ReturnedValuesWereComputed | api/services/compute_cache.py:169-189 | In every run, with locks expiring mid-compute, evictions and dying holders, any value a call returns came out of a completed compute of that same key. |
| SingleFlight.CachedReadIsDirectCompute | api/services/compute_cache.py:169-189 | When the key determines what computing it yields, a cached read equals the direct compute. |
| SingleFlight.OrphanCheckBoundsForever | api/services/compute_cache.py:158-166 | Once any caller is past the orphan check, no lock row on that key lacks an expiry in any later state of the run. |
| SingleFlight.WaitIsBounded | api/services/compute_cache.py:158-183 | A worker waiting for a lock it has checked can take it after at most one lock lifetime, whoever died holding it. |
| SingleFlightAnswers.DeathLeavesTheLock | api/services/compute_cache.py:158-189 | A worker can die anywhere inside a call, and leaves lock and entries as they are. |
| SingleFlightRaces.FailedComputeWritesNothing | api/services/compute_cache.py:183-189 | In any run, between a compute's exception and the worker's release, with anything in between, that worker writes nothing; the release deletes the lock row and the call ends with the error. |
| SingleFlightRaces.FailedComputeFreesTheKey | api/services/compute_cache.py:183-189 | In a timely run, with anything in between, that release leaves the key without entry and lock, so any worker at the lock can take it and retry. |
| SingleFlight.ComputesAreAccounted | api/services/compute_cache.py:169-189 | In timely runs (no lock or entry expires, nothing is evicted) completed computes of a key are exactly the stored, lost and about-to-be-stored ones. |
| SingleFlight.ComputedAtMostOnce | api/services/compute_cache.py:169-189 | For any number of workers and any interleaving of a timely run without lost values, each key is successfully computed at most once. |
| SingleFlight.CallersAgree | api/services/compute_cache.py:169-189 | In a timely run any two callers of a key that return at all return the same value. |
| SingleFlightAnswers.ErrorsAreRaised | api/services/compute_cache.py:169-189 | Over every run: a call ends, or is about to end, with an error only if its own compute raised since that call was made. |
| SingleFlightAnswers.CallOfLiveEntryReturnsIt | api/services/compute_cache.py:175-177 | Over every run: a call whose first look finds a live entry returns that entry's value at once and computes, stores and locks nothing. |
| SingleFlightAnswers.RecheckedHitIsReturned | api/services/compute_cache.py:183-186 | Over every run: a worker that finds an entry under the lock ends with that entry's value, whatever happens before it releases, and computes nothing. |
| SingleFlightAnswers.EveryCallReturnsTheValue | api/services/compute_cache.py:169-189 | When nothing raises and the run is timely, every call of a key that ends returns, and all return the one value. |
| SingleFlightAnswers.StoredEntryLivesFiveMinutes | api/services/compute_cache.py:169-189 | A stored value is found until exactly 300 s after it was written. |
| SingleFlightRaces.SlowComputeRunsTwice | api/services/compute_cache.py:180-189 | A reachable run in which a compute outlives its lock and two callers return different values. |
| SingleFlightRaces.TwoComputersMeanUntimely | api/services/compute_cache.py:169-189 | Two workers computing one key at once means a lock or entry ran out, or something was evicted, before. |
| SingleFlightRaces.WaitingWorkerComputesToo | api/services/compute_cache.py:180-189 | From every reachable state with one worker computing and another at its lock, one lock lifetime puts both in the compute, unless a value is already stored. |
| SingleFlightRaces.ExpiredEntryIsComputedAgain | api/services/compute_cache.py:169-189 | A reachable run in which a stored entry expires and the key is computed again, no lock having run out. |
| SingleFlightRaces.TouchSparesHoldersExactly | api/services/compute_cache.py:158-166 | Over every run, the touch leaves each row with a live expiry as it was if and only if no such expiry was put on that key, at an earlier time, since this worker read the row. |
| SingleFlightRaces.LiveHolderIsTouched | api/services/compute_cache.py:158-166 | A reachable run in which the touch moves a live holder's expiry from 130 to 131. |
| SingleFlightRaces.TouchOnlyExtends | api/services/compute_cache.py:158-166 | In every run the orphan repair keeps every lock row and never shortens an expiry. |
| FingerprintMemo.Session.PortfolioFingerprint | api/services/compute_cache.py:110-135 | Whatever the memo holds, the answer is what a query would return now, and a remembered key sends no query. |
| FingerprintMemo.Session.Serve | api/services/compute_cache.py:110-155 | Over every sequence of reads, flushes, statements, commits and rollbacks the session answers as one that never memoizes. |
| FingerprintMemo.EachAskIsAnswered | api/services/compute_cache.py:110-155 | Each question has one answer, the fingerprint of the view as it was when it was asked. |
| FingerprintMemo.AskRepeatedly | api/services/compute_cache.py:110-135 | However often a request asks within an unchanged view, it sends at most one query and every answer is right. |
| FifoLedger.RelieveLots | portfolio_analytics/domain/ledger.py:297-328 | The relief loop closes and leaves exactly what the recursive relief says. |
| FifoLedger.ReliefConservesShares | portfolio_analytics/domain/ledger.py:297-328 | Shares held before are those closed, left and dropped as dust. |
| FifoLedger.ReliefConservesBasis | portfolio_analytics/domain/ledger.py:297-328 | Cost basis before is in the gains, in what is left or in the dust. |
| FifoLedger.ReliefIsTight | portfolio_analytics/domain/ledger.py:245-328 | After the caller's availability check at most the tolerance stays unclosed and at most the tolerance is dropped, never both. |
| FifoLedger.ReliefLeavesSuffix | portfolio_analytics/domain/ledger.py:297-328 | What is left is the list without its first lots, the first kept one possibly reduced: relief goes in list order. |
| FifoLedger.ReliefClosesInOrder | portfolio_analytics/domain/ledger.py:297-328 | The i-th gain closes shares of the i-th lot at that lot's date and cost, all of it unless it is the last touched. |
| FifoLedger.WholeUnitsRelieveExactly | portfolio_analytics/domain/ledger.py:297-328 | In whole multiples of a unit above the tolerance exactly the asked quantity is closed and nothing is dropped. |
| LedgerReplay.Ledger.Process | portfolio_analytics/domain/ledger.py:198-219 | One transaction applied in place gives the specified books, or fails and changes nothing. |
| LedgerReplay.Ledger.SellShares | portfolio_analytics/domain/ledger.py:245-257 | A sale relieves lots and books cash as specified, or reports the shortfall and changes nothing. |
| LedgerReplay.Ledger.SendShares | portfolio_analytics/domain/ledger.py:281-294 | A transfer out takes its lots with it and moves no cash, or reports the shortfall and changes nothing. |
| LedgerReplay.Ledger.SplitShares | portfolio_analytics/domain/ledger.py:331-338 | A split rescales every open lot of the ticker in place. |
| LedgerReplay.BuildLedger | portfolio_analytics/domain/ledger.py:186-195 | The loop over date-sorted transactions builds the specified replay, or stops at the first failure. |
| LedgerReplay.FailsExactlyOnOversell | portfolio_analytics/domain/ledger.py:186-294 | A replay fails if and only if some sale or transfer out exceeds what the history before it left. |
| LedgerAccounting.SharesFollowTheRecord | portfolio_analytics/domain/ledger.py:198-338 | Over any history the shares held equal the recorded ones within one tolerance per sale or transfer out, and every lot stays positive. |
| LedgerAccounting.MoneyIsConserved | portfolio_analytics/domain/ledger.py:198-338 | Over any history of any tickers, cash plus the basis of all open lots less realized gains moves only by external cash, income, fees, basis moved in kind and what the tolerance left over. |
| LedgerMeaning.CashIsWhatMoved | portfolio_analytics/domain/ledger.py:198-294 | Over any history the cash is what the transactions move, by kind and each once: income in, withdrawals and fees out, sale price less fees in, purchase price and fees out. |
| LedgerMeaning.LotOpenedAtCost | portfolio_analytics/domain/ledger.py:221-278 | A purchase or transfer in appends one lot of its shares on its day that costs what was paid, or carries, and touches nothing else. |
| LedgerMeaning.SaleGains | portfolio_analytics/domain/ledger.py:245-328 | A sale's gains close the ticker's lots in order on its day and share its price less fees by their shares; a transfer out adds none. |
| LedgerMeaning.RefusedExactly | portfolio_analytics/domain/ledger.py:245-294 | A sale or transfer out is refused if and only if it asks for over a billionth of a share more than the open lots hold, and the failure says how much that is. |
| LedgerMeaning.ReplayedByDateThenRecord | portfolio_analytics/domain/ledger.py:186-195 | A history is replayed by date, transactions of one day in recorded order. |
| LedgerAccounting.SplitKeepsBasis | portfolio_analytics/domain/ledger.py:331-338 | A split multiplies shares and preserves total cost basis. |
| WholeUnitLedger.WholeUnitsAreExact | portfolio_analytics/domain/ledger.py:198-328 | In whole units, whole-ratio splits included, the ledger holds exactly the recorded shares of every ticker and no sale leaves a residue. |
| WholeUnitLedger.FailsExactlyOnOverdraw | portfolio_analytics/domain/ledger.py:186-294 | In whole units, whole-ratio splits included, a replay fails if and only if some sale or transfer out exceeds what the transactions before it add up to. |
| WholeUnitLedger.BuiltExactlyWhenCovered | portfolio_analytics/domain/ledger.py:186-195 | A ledger is built exactly when its history, in date order, never overdraws. |
| LedgerAccounting.LotsStayChronological | portfolio_analytics/domain/ledger.py:186-294 | Every ticker's open lots stay oldest first over any history in date order. |
| LedgerAccounting.OldestSharesGoFirst | portfolio_analytics/domain/ledger.py:297-328 | From chronological lots no share is closed while an older lot keeps one. |
| PortfolioLedger.BuildPortfolioLedger | api/services/analytics.py:392-433 | The grouping, replaying and merging loops compute the specified merged ledger and incomplete list. |
| PortfolioLedger.MergeIsTheSumOfItsGroups | api/services/analytics.py:410-433 | The merged ledger's lots, gains, flags and cash are the sums of its groups' replays, and lots and gains are in date order. |
| PortfolioLedger.MergeKeepsGroupOrder | api/services/analytics.py:410-433 | Lots opened and gains closed on one day come in the order in which their groups first appear, and within a group in its own. |
| PortfolioLedger.InterleavingDoesNotMatter | api/services/analytics.py:392-433 | Two transaction lists with the same (account, ticker) groups merge to the same content, however they interleave. |
| PortfolioLedger.MergeSplitsOverAccounts | api/services/analytics.py:392-433 | For disjoint account sets the union's lots, gains and flags are the multiset unions and its cash the sum. |
| PortfolioLedger.FailingGroupRemovesOnlyItself | api/services/analytics.py:416-426 | Dropping a group that cannot be replayed changes nothing but its own entry in the incomplete list. |
| PortfolioData.NormalizedOnceIntoBand | api/services/analytics.py:314-330 | A bond quantity is rescaled only into agreement with the cash, and a second pass never rescales again. |
| PortfolioData.TenantCurrencyBySymbol | api/services/analytics.py:507-538 | The two fill-first loops compute position-before-transaction currency precedence. |
| LinkCurrency.PositionGivesCurrency | api/services/analytics.py:507-538 | A symbol asked for and held in the accounts takes the currency of the first of its positions, dollars if blank. |
| LinkCurrency.TransactionGivesCurrency | api/services/analytics.py:507-538 | One that is not held takes that of the first of its transactions, and has none if and only if it has neither. |
| PortfolioData.EntryOfRow | api/services/analytics.py:286-345 | A ledger entry is the stored transaction under its account with its symbol upper-cased, and a hundredth of its quantity exactly when a trade is booked at face value. |
| Holdings.AssembleHoldings | api/services/analytics.py:889-949 | The fold over ledger and position rows gives one row per ticker, sorted by ticker, with summed quantity and basis, first currency, oldest snapshot date and summed broker value. |
| HoldingsMeaning.QuantityAndCost | api/services/analytics.py:889-949 | For any lots and position rows: quantity is what both hold, cost basis the lots' quantity times cost plus the positions' quantity times average cost, and average cost times quantity is the basis. |
| HoldingsMeaning.HeldExactly | api/services/analytics.py:889-949 | A ticker has a row if and only if its lots hold something or a position of positive quantity reports it. |
| HoldingsMeaning.BrokerFigures | api/services/analytics.py:905-949 | Broker value is the sum of the values reported, the snapshot date the oldest reported, the currency the first reported, else the account's own link's, else dollars. |
| HoldingsMeaning.OnePosition | api/services/analytics.py:905-949 | One position of q at c gives quantity q, cost basis q times c and average cost c. |
| HoldingsReaders.ReadHoldings | api/services/analytics.py:849-886 | The simple reader returns the specified holdings of a scope, sorted by ticker. |
| HoldingsReaders.ReadHoldingsByAccount | api/services/analytics.py:973-1039 | For every account the batched list equals what the simple reader returns for that account alone, currency precedence included, also for ids outside the portfolio. |
| HoldingsReaders.FillByAccount | api/services/analytics.py:1007-1027 | The shared currency loop over many accounts' rows does for each account what a loop over its own rows does. |
| HoldingsReaders.CurrencyOfOneSymbol | api/services/analytics.py:507-538 | Asking for more symbols does not change the answer for one of them. |
| HoldingsReaders.OneSourcePerAccount | api/services/analytics.py:686-716 | An account contributes through its ledger or through its broker positions, never both, and exactly by whether it is snapshot-sourced. |
| HoldingsConservation.ScopesAdd | api/services/analytics.py:849-949 | Quantity and cost basis of two disjoint sets of accounts together are the sums, for every ticker. |
| HoldingsConservation.ConsolidationConserves | api/services/analytics.py:849-949 | Whole-portfolio quantity and cost basis of every ticker are the sums over the accounts read one by one. |
| HoldingsConservation.SnapshotTransactionsNeverCount | api/services/analytics.py:686-716 | Deleting every transaction of the snapshot-sourced accounts changes no holdings in any scope. |
| AccountCash.LedgerCashByAccount | api/services/analytics.py:719-754 | Each ledger account's total is the cash of its own merged ledger; an incomplete group costs only itself. |
| AccountCash.CashByAccount | api/services/analytics.py:757-792 | Every account in scope, and no other, reports the custodian's balance if snapshot-sourced and its ledger's cash otherwise. |
| AccountCashMeaning.CashOfAccount | api/services/analytics.py:719-792 | An account whose broker reports snapshots, or that has positions, has the balance on its row; any other has the total its transactions moved, those of groups that cannot be replayed apart. |
| Valuation.Row.ApplyValuation | api/services/analytics.py:1049-1113 | From any fields, price and rate tables: the valuation raises exactly when it divides by a zero broker total, and the fields are exactly as specified whether it raises or not; nothing else of the row changes. |
| Valuation.ValuedInScale | api/services/analytics.py:1088-1106 | After valuation price times quantity is the stored value, and the value stands within a factor two of the broker's total. |
| Valuation.NothingIsFabricated | api/services/analytics.py:1071-1113 | Base figures exist exactly when a rate and a price do, and the percentage gain is the same in base as in native currency. |
| Valuation.PriceSource | api/services/analytics.py:1071-1106 | A close gives price, value and its own date; without one the broker's price and date stand; out of scale the broker's total does, at its date and as no close. |
| Valuation.InterruptedExactly | api/services/analytics.py:1071-1106 | A valuation raises if and only if positive shares at a price of positive worth meet a broker total of zero; rate, base cost, price and computed value are then in place, value and gains as before. |
| Valuation.BaseFigures | api/services/analytics.py:1056-1113 | Base cost, value and gain are the native ones at the currency's rate, and the percentage gain times cost is value less cost. |
| Valuation.RevaluingIsIdempotent | api/services/analytics.py:1049-1113 | Valuing again from the same prices and rates changes nothing, from any prior fields. |
| Valuation.SnapshotsAddUpExactly | api/services/analytics.py:1071-1106 | Two snapshot accounts are worth the same consolidated as apart if and only if the ticker has no cached close, or both are in scale with their totals, or one is (to the cent) and the whole is not, or neither is and the whole is not either or matches its total. |
| Valuation.MixedSourcesAddUpExactly | api/services/analytics.py:1071-1106 | A ledger part and a snapshot part add up if and only if the ticker has a cached close, the snapshot part is in scale with its total and all shares together are worth at most twice that total. |
| Valuation.NoCloseDilutes | api/services/analytics.py:1071-1113 | Without a cached close the ledger part has no value, the consolidated row has the snapshot part's at the total over all shares, and its gain is the snapshot part's less the ledger part's whole cost. |
| Valuation.ConsolidationCanChangeValue | api/services/analytics.py:1088-1106 | Two pairs of a ledger and a snapshot account at a close of 10: 100 apart and 10 consolidated, 190 and 100. |
| Valuation.TwoSnapshotsCanChangeValue | api/services/analytics.py:1088-1106 | Two snapshot accounts at a close of 10: 130 apart and 200 consolidated. |
| Valuation.NoCloseInventsALoss | api/services/analytics.py:1077-1113 | One snapshot share gains 5; with nine ledger shares and no close all ten are priced at 1 and lose 40. |
| ConsolidatedValue.ConsolidatedValueIsTheSumExactly | api/services/analytics.py:889-949 | The same condition on the rows the readers return, with or without a cached close, in scale or not, for any disjoint sets of ledger and snapshot accounts. |
| ConsolidatedValue.ConsolidatedSnapshotsAddUpExactly | api/services/analytics.py:889-949 | The condition for two snapshot parts on the rows the readers return, with or without a cached close, for any two disjoint sets of snapshot accounts. |
| ConsolidatedValue.ConsolidatedWithoutClose | api/services/analytics.py:849-949 | Without a cached close the readers' consolidated row carries the snapshot part's value over all shares and the ledger part's cost as a loss. |
| HoldingRows.HoldingsCache.ReadRows | api/services/analytics.py:840-846 | Every read returns fresh, distinct rows holding exactly what the uncached reader computes, and the cache keeps its own untouched. |
| HoldingRows.RunCallers | api/services/analytics.py:823-846 | Over any sequence of reads, valuations, labels, stamps and overwrites of rows handed out, every read returns the uncached rows of its key. |
| Realized.ReadRealized | api/services/analytics.py:1324-1373 | The reader merges stored and replayed lots, resolves currencies and converts at the close date as specified. |
| Realized.ReadSplit | api/services/analytics.py:1866-1871 | The two scoped reads give the specified split list. |
| RealizedMeaning.EveryLotAtItsClose | api/services/analytics.py:1324-1373 | Every realized lot is a stored one in its own currency or a replayed one in its ticker's, and carries that currency's rate on the day it was closed. |
| RealizedMeaning.LotsInCloseOrder | api/services/analytics.py:1324-1373 | Realized lots come in the order they were closed. |
| RealizedSplit.TaxSplitConservesNativeLots | api/services/analytics.py:1861-1871 | On native amounts the taxable and tax-advantaged reads union to the whole scope: nothing lost, nothing twice. |
| RealizedSplit.TaxSplitConservesBaseLotsExactly | api/services/analytics.py:1324-1373 | With currencies and rates the split unions to the whole if and only if every replayed ticker resolves alike in its part and in the whole. |
| RealizedSplit.OneCurrencyResolves | api/services/analytics.py:507-556 | When the accounts' links give a ticker one currency, that is what it resolves to: the check a caller can make. |
| RealizedCurrencies.OneCurrencyConservesBaseLotsExactly | api/services/analytics.py:1324-1373 | With one linked currency per ticker the split unions to the whole in base currency if and only if each replayed ticker is linked in its part, or nowhere, or in the currency it falls back to. |
| RealizedCurrencies.OneCurrencyConservesBaseLots | api/services/analytics.py:1861-1871 | On rows with upper-case, non-blank symbols, one linked currency per symbol in the replayed accounts makes the split union to the whole, base amounts included. |
| RealizedCurrencies.GainHasRow | api/services/analytics.py:286-433 | Every realized gain of the merged ledger is about the upper-cased symbol of a transaction of those accounts. |
| RealizedSplit.StoredAccountsAreNeverReplayed | api/services/analytics.py:1335-1346 | Deleting every transaction of the accounts with stored lots changes no realized lot. |
| RealizedCounterexample.TwoCurrenciesBreakTheBaseSplit | api/services/analytics.py:1861-1871 | Two accounts linked to a CAD and a USD listing of one ticker: the split and the whole differ, their native amounts do not. |
| PersonalReturnsBuild.BuildPersonalReturns | api/services/data_spine.py:264-351 | The loops return the specified scan's rows with each return rounded to ten places, the skip and portfolio counts, and the first and last dates, and refuse exactly when portfolios span currencies. |
| PersonalReturnsBuild.ActiveByTables | api/services/data_spine.py:298-326 | The test on the first, last and closed tables is exactly "seen by this date, and if closed, seen from it". |
| PersonalReturns.NettingASkippedDateIsSound | api/services/data_spine.py:311-341 | Deleting an interior skipped date and adding its flows to the next complete date leaves every emitted row unchanged. |
| PersonalReturns.TrailingSkippedDateIsIdle | api/services/data_spine.py:318-341 | A skipped interior date that no complete date follows has no bearing on the rows. |
| PersonalReturnsConservation.ReturnsAccountForEveryFlow | api/services/data_spine.py:318-341 | Over a stretch of complete dates with one set of portfolios, rows chain end to end and start total times return sums to the growth less every flow, each once. |
| PersonalReturnsRows.AwaitedExactly | api/services/data_spine.py:294-322 | A date waits for a portfolio from its first snapshot on, and past its last one exactly while that one has a value. |
| PersonalReturnsRows.OpeningIsNoGain | api/services/data_spine.py:323-333 | Dropping a portfolio that was not there at the start of a row from its end leaves the row as it was. |
| PersonalReturnsRows.ClosingIsNoLoss | api/services/data_spine.py:323-333 | Dropping one that is not there at the end from the start leaves the row as it was. |
| PersonalReturnsRows.EveryRowAccounts | api/services/data_spine.py:311-341 | Over any calendar and any portfolios: each row joins adjoining complete dates, its start total over the portfolios on both times its return is their growth less their own flows since the start, and it is marked estimated exactly when one of their snapshots is; all from the stored rows alone. |
| PersonalReturnsRows.EveryIntervalHasItsRow | api/services/data_spine.py:311-341 | No row is missing: any two adjoining complete dates whose common portfolios start above zero have theirs. |
| PersonalReturnsRows.SkippedAreIncomplete | api/services/data_spine.py:311-322 | The skip count is the number of dates on which some active portfolio has no snapshot. |
| PersonalReturnsRows.NewcomerAtFifty | api/services/data_spine.py:323-333 | A goes from 100 to 110 while B opens at 50: the return is a tenth. |
| AttributionWindow.CloseOnOrBefore | api/services/attribution.py:168-174 | The early-exit loop computes the specified close. |
| AttributionWindow.CloseOnIsLatest | api/services/attribution.py:168-174 | On an ordered series that close is the latest one not after the day, and is missing exactly when every bar is after it. |
| AttributionWindow.WindowReturnExactly | api/services/attribution.py:197-214 | Each failure by its cause; otherwise one plus the return times the latest close on the anchor is the latest close on the end. |
| AttributionWindow.CommonWindow | api/services/attribution.py:177-194 | The loops return latest first session and earliest last session, or nothing when they do not leave an interval. |
| AttributionWindow.CommonWindowIsWidest | api/services/attribution.py:177-214 | Every reference leg has a return over an interval if and only if the interval lies inside the common window. |
| AttributionWindow.NoWindowMeansNoInterval | api/services/attribution.py:177-194 | There is no window exactly when no interval of positive length gives every leg a return. |
| AttributionWindow.WiderWindowsFail | api/services/attribution.py:197-214 | Any earlier anchor leaves some leg with short history, any later end leaves some leg stale. |
| AttributionWindow.EarlierBarsDoNotMatter | api/services/attribution.py:400-409 | Reading each series from the requested start on changes no first session and no return over an interval that begins no earlier than the first bar read. |
| AttributionWindow.EarlierBarsKeepTheWindow | api/services/attribution.py:400-409 | Nor does it change the common window. |
| AttributionWindow.AdjoiningReturnsCompound | api/services/attribution.py:197-214 | Window returns over adjoining intervals compound to the return over the whole. |
| AttributionSectors.PortfolioSectorAggregates | api/services/attribution.py:217-247 | Weights sum to 1 over the sectors of the attributable holdings, weight times return sums to their value-weighted return, and coverage is their share of value. |
| AttributionSectors.WeightedReturnsAddUp | api/services/attribution.py:241-245 | Sector weights times sector returns add up to the population's own return. |
| AttributionSectors.Attribute | api/services/attribution.py:420-432 | The loop places every priced holding among the returns or in the left-out list with its reason, in order. |
| AttributionSectors.OutcomeExactly | api/services/attribution.py:420-432 | Why a holding has no return, each cause exactly, and otherwise that one plus its return times its latest close on the anchor is its latest close on the end. |
| AttributionSectors.CoverageIsWhatIsNotListed | api/services/attribution.py:420-434 | Coverage is 1 less the listed value over total value, and every holding is in the population or listed. |
| AttributionSectors.FullCoverage | api/services/attribution.py:420-434 | Coverage is 1 exactly when nothing is listed. |
| AttributionReconcile.WindowTwr | api/services/performance.py:1279-1288 | The running product over the flow-neutralised returns is the specified linked return. |
| AttributionReconcile.TwrOfOnePeriod | api/services/performance.py:1029-1039 | A return takes two snapshots, and over one period it is the growth the recorded flow does not explain. |
| AttributionReconcile.FlowNeutralizedReturns | api/services/performance.py:1029-1039 | The loop yields one return per period whose prior value is positive, in order. |
| AttributionReconcile.AdjoiningTwrCompounds | api/services/performance.py:1279-1288 | The observed return links over adjoining windows as the attributed legs' do. |
| AttributionReconcile.DepositsAreNotGrowth | api/services/performance.py:1029-1039 | A deposit recorded as its day's flow and invested like the rest changes no return, before or after it. |
| AttributionReconcile.WithoutFlowsItIsGrowth | api/services/performance.py:1279-1288 | Without flows the return is last value over first, however many snapshots lie between. |
| AttributionReconcile.Reconcile | api/services/attribution.py:294-340 | Available exactly when snapshots span the window with positive values and the benchmark has a return; the reasons are the first gap of the snapshots and the benchmark's own; each residual is what observed exceeds attributed by, the active one the portfolio's less the benchmark's. |
| CashToTargets.FillTargets | api/services/cash_to_targets.py:136-180 | The loop's lines and skips are the verdicts of one pass in list order, each target seeing what the ones before it left. |
| CashToTargets.BuildPlan | api/services/cash_to_targets.py:100-201 | Every cent of a whole-cent amount is in a line or reported left over, and left-over money comes with its reasons. |
| CashToTargets.LineTotalIsSpend | api/services/cash_to_targets.py:136-181 | The lines of a plan add up to what its verdicts spend. |
| CashToTargetsHeld.EveryTargetIsListed | api/services/cash_to_targets.py:136-180 | Every target is either a line or a skip with its reason, and nothing else is listed. |
| CashToTargetsHeld.ExistingExactly | api/services/cash_to_targets.py:109-141 | With distinct tickers a row of the (non-empty) symbol makes its market value what is held, or 0 when it has none; without such a row 0 is held. |
| CashToTargetsHeld.HeldRowStaysWithinTarget | api/services/cash_to_targets.py:136-180 | In whole cents: the market value on a held row plus what the plan buys of it stays within the target weight and the cap of today's value plus the cash. |
| CashToTargetsHeld.PlanKeepsLimits | api/services/cash_to_targets.py:136-180 | Every bought line of a whole-cent plan names its target, price, shares and cost, its weights before and after are what is held without and with it, and it passes neither target nor cap. |
| CashToTargetsHeld.ReasonsExactly | api/services/cash_to_targets.py:143-174 | Each reason for passing a target over, if and only if what is held, target, cap and cash in dollars say so. |
| CashToTargetsHeld.BoughtExactly | api/services/cash_to_targets.py:165-174 | A target with room is bought if and only if some number of shares makes a line that cash, target, cap and minimum line admit. |
| CashToTargetsHeld.HalfHeldBuysTheRest | api/services/cash_to_targets.py:136-180 | 500 of a basis of 1000 held, target 0.6, ten dollars a share: ten shares. |
| CashToTargetsOptimality.FractionalFillIsOptimal | api/services/cash_to_targets.py:11-24 | In the fractional relaxation list-order filling is feasible and no feasible allocation leaves a smaller total gap. |
| CashToTargetsOptimality.DeviationDropsBySpendOverBasis | api/services/cash_to_targets.py:11-24 | Every plan that passes no ceiling lowers the deviation by exactly spend over basis. |
| CashToTargetsOptimality.WholeSharePlanIsNearOptimal | api/services/cash_to_targets.py:136-180 | For every minimum line the whole-share plan's gap is within one share price and one minimum line per priced target of every feasible plan's, rounding apart. |
| CashToTargetsOptimality.OneShareEachInWholeCents | api/services/cash_to_targets.py:136-180 | In whole cents without a minimum line both the unspent cash and the excess gap are at most one share price per priced target. |
| CashToTargetsOptimality.SpendsAlmostAll | api/services/cash_to_targets.py:136-180 | For every minimum line the plan spends the amount or the headroom, less one share price and one minimum line per priced target. |
| CashToTargetsOptimality.NeverOverspends | api/services/cash_to_targets.py:136-180 | A whole-cent amount is never overspent, any other by half a cent at most. |
| CashToTargetsLimits.OptimalExactlyWhenSpent | api/services/cash_to_targets.py:16-24 | Against fractional allocations, at whole-cent prices: the plan's gap is the relaxation's optimum if and only if it spends the lesser of amount and headroom, and no allocation beats it if and only if it spends at least that. |
| CashToTargetsLimits.PlanIsFractionalExactly | api/services/cash_to_targets.py:136-180 | In whole cents the plan is the fractional plan, line by line, if and only if every entry of that plan is nothing or whole shares worth at least the minimum line. |
| CashToTargetsLimits.AmpleCashIsOptimalExactly | api/services/cash_to_targets.py:16-24 | Against fractional allocations, with cash for every room: no allocation beats the plan if and only if each room is a whole number of shares worth at least the minimum line. |
| CashToTargetsLimits.FittingPlanIsOptimal | api/services/cash_to_targets.py:16-24 | With any amount of cash nothing, fractional or whole, beats the plan when every entry of the fractional plan fits. |
| CashToTargetsWholeShares.PlanIsWholeShares | api/services/cash_to_targets.py:136-180 | In whole cents the plan is itself a whole-share plan within cash, price list, cap and minimum line. |
| CashToTargetsWholeShares.LineIsBestExactly | api/services/cash_to_targets.py:8-20 | For any cash left, the line bought is the best whole-share line for its target if and only if the next larger line is unaffordable, over the cap, or no closer. |
| CashToTargetsWholeShares.AmplePlanIsBestExactly | api/services/cash_to_targets.py:8-24 | With ample cash and any minimum line and cap, no whole-share plan leaves a smaller gap if and only if no target is better passed by its next line. |
| CashToTargetsWholeShares.HalfAShareDecides | api/services/cash_to_targets.py:16-20 | When one share is worth the minimum line, a target is better passed if and only if more than half a share's price is left of its room while the cap admits one more share. |
| CashToTargetsWholeShares.OneTargetIsBestExactly | api/services/cash_to_targets.py:8-20 | With one target and any amount of cash, no whole-share plan beats the plan if and only if the cash buys no improving next line. |
| CashToTargetsWholeShares.UnspentCashBeatsThePlan | api/services/cash_to_targets.py:8-24 | With any amount of cash, a line that the unspent cash could improve makes the plan lose to another whole-share plan. |
| CashToTargetsWholeShares.TrimmedPlansDecide | api/services/cash_to_targets.py:8-24 | For any cash, prices, cap and minimum line, no whole-share plan beats an allocation if and only if none of those does that pass no target by more than its first line past the room. |
| CashToTargetsWholeShares.DeviationOrdersAlike | api/services/cash_to_targets.py:16-17 | Comparing total gaps in dollars is comparing the total deviations of weights. |
| CashToTargetsWholeShares.PassingATargetCanBeBetter | api/services/cash_to_targets.py:16-20 | One target 70 short at 40 a share: the plan leaves 30, two shares leave 10. |
| CashToTargetsWholeShares.BestAlthoughFractionsBeatIt | api/services/cash_to_targets.py:16-24 | One target 70 short at 60 a share: the plan is beaten by a fractional allocation and by no whole-share plan. |
| CashToTargetsWholeShares.WholeSharesCanMissTheOptimum | api/services/cash_to_targets.py:11-24 | A book on which another plan in whole shares within the cash leaves a smaller gap. |
| CashToTargetsWholeShares.MinimumLineCanMissTheOptimum | api/services/cash_to_targets.py:11-24 | A book on which another plan in whole shares, with no line below the minimum, leaves a smaller gap. |
| CashToTargetsLimits.SubCentAmountCanOverspend | api/services/cash_to_targets.py:180-183 | An amount with a fraction of a cent for which the plan buys for more than the amount. |
| CashToTargetsRounding.OverspendsExactly | api/services/cash_to_targets.py:136-183 | No holdings, prices and configuration make the plan overspend an amount if and only if its fraction of a cent is below one half or it is half a cent itself. |
| NavRevisions.Store.CollectPending | api/db/models.py:568-585 | The two loops collect the changed rows' committed values, then the deleted rows'. |
| NavRevisions.Store.Number | api/db/models.py:588-615 | Counting on from one table read per scope gives the numbers that reading the table every time would. |
| NavRevisions.Store.Flush | api/db/models.py:568-617 | A flush appends the worklist to the log and leaves the live rows as changed. |
| NavRevisions.AppendKeepsNumbering | api/db/models.py:588-615 | Whatever one flush appends, every scope's numbers stay 1..n with no gap or repeat, in worklist order. |
| NavHistory.RevisionsReplayTheHistory | api/db/models.py:527-617 | For every run of updates, deletes and re-inserts a scope's revisions followed by its live row are the committed values with equal neighbours collapsed, numbered 1..n. |
| NavHistory.NothingServedIsLost | api/db/models.py:477-493 | Every valuation a scope ever served is, to stored precision, on a revision or on the live row. |
| NavPrecision.UnchangedExactly | api/db/models.py:521-585 | A flush sees no change if and only if nav, cost basis, external flow and close are each both absent or both nearest one multiple of 1e-10, and the provisional mark and the composition are equal. |
| NavPrecision.EveryServedNumberIsKept | api/db/models.py:477-493 | Every valuation a scope ever served is, number by number to 1e-10 and with equal marks, on a revision or on the live row. |
| NavPrecision.RestatementIsRecordedExactly | api/db/models.py:536-617 | In every reachable state, writing new values to a live row adds one revision with the old ones exactly when a tracked field has moved, and otherwise none. |
| NavPrecision.MovedFieldIsRecorded | api/db/models.py:527-617 | In particular when any of the numbers moves by more than 1e-10 or a mark changes. |
| NavPrecision.RemovalIsRecorded | api/db/models.py:568-617 | Deleting a live row always adds one revision with the values it had. |
| NavPrecision.RestatedNavStaysOnRecord | api/db/models.py:527-552 | A NAV of 100 restated to 105 stays on record as 100. |
| NavHistory.ReinsertedValueIsKeptTwice | api/db/models.py:568-617 | Deleting a row and adding it back unchanged keeps both records. |
| RankerTies.OrderFreeExactly | api/insights/ranker.py:133-152 | For every limit, all rearrangements of the candidates rank alike if and only if no two different ones share key and score, except behind enough better ones to fill the slate. |
| RankerTies.RoomForAllIsOrderFreeExactly | api/insights/ranker.py:133-152 | With a slot for every candidate, if and only if no two different ones share key and score. |
| RankerTies.SwappedTiesSwap | api/insights/ranker.py:133-152 | Of two tied candidates in reach of the slate, whichever was generated first takes the slot after everything ranked above both. |
| RankerTies.SlateDependsOnlyOnTheSet | api/insights/ranker.py:133-192 | With distinct facet keys ranking and selection depend only on the set of candidates. |
| RankerTies.RepeatedKeysFollowGenerationOrder | api/insights/ranker.py:133-152 | Two alerts about one position, scored alike: the one generated first comes first. |
| Ranker.ThresholdThenTruncate | api/insights/ranker.py:155-192 | Truncating and then thresholding equals thresholding and then truncating. |
| Ranker.SlateIsTheBest | api/insights/ranker.py:155-192 | A slate that is not the floor is exactly the best of the candidates that clear the threshold, best first, as many as fit. |
| Ranker.FloorExactlyWhenQuiet | api/insights/ranker.py:155-192 | The floor appears exactly when the limit is zero or nothing clears, provided it can be dated; otherwise the call fails. |
| Ranker.FloorIsDatedByTheBest | api/insights/ranker.py:178-192 | The floor scores nothing and carries the date asked for, or else that of a best-scoring candidate. |
| Ranker.ScoreTerms | api/insights/ranker.py:114-130 | Each input moves the score by its own weight, a breach adds its weight, having been shown takes the penalty off. |
| Ranker.ScoreRange | api/insights/ranker.py:114-130 | Valid observations score between the penalty below 0 and the sum of the weights. |
| Ranker.RephrasingKeepsTheOrder | api/insights/ranker.py:133-203 | Re-ranking rephrased candidates gives the same slate, rephrased. |
| Ranker.WithTextIsPhrase | api/insights/ranker.py:195-203 | Attaching text is that rephrasing, and blank text is refused. |

## Left out

* Routers, middleware, configuration, broker and S3 access, alerting, logging and SQL text: request plumbing. Tenant filters are not modelled; every read is one tenant's.
* diskcache and SQLAlchemy: an expired row is taken as missing, a lock release as deleting the row whoever added it, event hooks as firing where registered, and the session's view as changing only at those events. Whether the fingerprint detects every in-place edit is assumed.
* Floating point: amounts are exact reals, so NaN and float rounding are not captured. Quantities and prices come from decimal columns.
* Lots as shared objects: the source mutates lot objects in lists; here lots are values and the lists are reassigned, so aliasing of a lot between a group's ledger and the merged one is not captured.
* The order of the attribution's left-out list after its final sort by value.
* A row repeated in a currency query: DISTINCT is dropped, because a repeat never changes what the first row set. The order the database gives to symbols and currencies is a parameter, any total preorder.
* `account_performance`, `brinson_fachler`, `security_contributions`, price, sector and exchange-rate services: their results are inputs. `_observed_window_points` (which rows the reconciliation reads) is an input as well.
* `_record_input_revisions`: the same hook shape as the NAV one, without numbering.
* NAV revisions assume the unique constraint on live rows, scope columns that are not edited, JSON columns replaced rather than mutated, values held at stored precision, and one session numbering a scope at a time.
* The schema version and generation time of the personal-returns payload.
* Text: upper-casing covers ASCII, and stripping covers ASCII white space. Display texts of plans, gaps and skip reasons are enumerations.
* Entitlements, admission, crypto, calendar, events, account metadata, classification of security types: one branch or one short table each, so only easy members.
