# Futures/spot arbitrage: a verified model

This project models the decision, execution, accounting and storage logic of the futures/spot
arbitrage tools and proves properties of it in Dafny. `dafny verify dfyconfig.toml` checks everything.

- **Pair replay.** `Models`, `Ticks`, `Strategy`, `Scanner` hold the pricing, signals and risk checks in
  both forms (pricer and compiled scanner). `Replay` is the two-leg execution and the step-by-step loop as
  functions over an abstract execution engine (`Port`); `ScannedReplay` is the loop driven by the scanner
  that skips HOLD spans; `Backtester` is the object whose methods run both loops in place. `Exposure`,
  `FlattenColumn`, `FinalMarketRow`, `AmbiguousFeed`, `CoordinatedSession` and `SpotCooldown` prove what runs keep;
  `TradingRules`, `OrderPrices`, `ExecutionCash`, `ExecutionRows` and `EntrySpacing` say in terms of the market when
  it trades, what its orders cost and earn, and what its rows record.
- **Event conversion.** `Events`, `DepthBook`, `DepthAggregation`, `EventBuilder` turn quote rows into depth
  and trade events, by row and by column; `EventOrder` merges the two clocks; `ConverterAgreement`,
  `TradedVolume`, `RowBlocks`, `EventOrderProperties`, `EventClockOrder` and `BookReplay` prove what the streams mean.
- **Capital and carry.** `Capital`, `CapitalReplay`, `CapitalBudget` replay fills under one budget; `FifoPnl`
  relates their FIFO profit to the backtester's average-cost profit, `CapitalPrices` states the budget in prices
  and `CapitalRows` the daily rows; `PositionCarry`, `ContractExpiry`,
  `CarryChain` carry positions over dates; `ResultStore` and `ResumeRun` publish daily partitions and resume.
- **Scheduling.** `LongestFirst` is greedy placement and its bounds; `Sharding`, `ShardingProperties` and
  `ShardOrder` apply it to groups of pair runs.
- **Live orders.** `LiveOrders` holds the handler steps of one pair, each read or locked part on its own;
  `LiveProtocol` lets them interleave with each other and the broker; `FreshOrders` is about orders placed from the
  current position, `LiveRules` and `LivePrices` say what stops entries and what fills do to entry prices, and
  `LiveRuns` holds runs that go wrong.

Prices, cash and rates are reals; NaN is a value of `Num` or an absent `Option`; clocks and units are
integers. Methods that update state are proved equal to a function of the old state, and the properties
are proved of those functions for every engine, feed and configuration.

## Where the code does not do what one would expect

Each of these has a lemma with a concrete input or run and a lemma that says exactly when the expectation holds.

- The two-clock merge compares the exchange time of one head with the exchange time of the other. So the merged
  stream need not be ordered by "exchange time if EXCH, else local time", and a LOCAL-only row need not come after
  every exchange row sent up to its local time, although the stream always passes validation:
  `EventClockOrder.MergeNeedNotBeInClockOrder`. The two properties differ on ties
  (`EventClockOrder.ClockOrderDoesNotWait`), and each has its condition: `EventClockOrder.InClockOrderIff`,
  `EventClockOrder.LocalOnlyAfterAllSentIff`.
- A quote needs an uncrossed book, the scanner's snapshot only finite prices, and a scan that stops at a crossed book
  drops the markets it skipped. So the forced final market row can differ in both ways:
  `FinalMarketRow.CrossedLastBookDiffers`, `FinalMarketRow.CrossedWakeUpDiffers`, `FinalMarketRow.FinalRowAgreesIff`.
- The row converter remembers the raw level-1 price, the columnar one the best valid level, so they can take a later
  trade for opposite sides: `ConverterAgreement.UnquotedLevelOneDiffers`, `ConverterAgreement.ZeroAskDiffers`,
  `ConverterAgreement.AgreeWhereverIff`.
- A failed second-leg profit check stores its flatten fill in the second-fill column:
  `FlattenColumn.FlattenColumnMisleads`, `FlattenColumn.FlattenColumnMisleadsIff`.
- The flatten order and a second leg with an offset are rounded to the nearest tick after they are moved through the
  touch. At a price off the grid, or a bid below one tick, rounding can take back more than the move, and the order
  falls short of the book: `OrderPrices.OffGridPurchaseFallsShort`, `OrderPrices.ThroughCrossesIff`.
- Live: the legs can differ with nothing pending. When the second submission raises, its mark comes off and the next
  timeout takes the order for one whose first leg never filled; the same happens when the first leg fills after the
  timeout has read the leg role and before it releases the order; an unfilled FOK flatten order is taken for an unfilled
  first leg; and an order can fill after a timeout released it: `LiveRuns.FailedSubmissionThenTimeoutUnbalances`,
  `LiveRuns.FillDuringTimeoutUnbalances`, `LiveRuns.UnfilledFokFlattenUnbalances`, `LiveRuns.LateFillUnbalances`.
- Live: targets are read without the lock, before the order is installed under it. A fill in between makes them stale:
  the first fill alone can then release the order, or the callback of the earlier fill can submit the first leg twice:
  `LiveRuns.StaleTargetsUnbalance`, `LiveRuns.LateCallbackRepeatsFirstLeg`, `FreshOrders.EntryStaleIff`,
  `FreshOrders.ExitStaleIff`, `FreshOrders.QuietPlacingIsFresh`.
- Which steps do this, and only they, is said three times: for every run by the branch taken
  (`LiveProtocol.BalancedAtRestIff`), for runs without foreign fills by the broker orders
  (`LiveProtocol.OwnBalancedAtRestIff`), and over fresh orders by two steps (`FreshOrders.FreshBalancedAtRestIff`).
- Live: after a flatten, the pending order is released only if the pair was flat before it; otherwise it blocks the
  pair for good: `LiveRuns.FlattenOfHeldPairSticks`, `FreshOrders.FlattenReleasesIffWasFlat`,
  `FreshOrders.StuckForever`.
- Live: an entry that was being placed is installed although entries were disabled meanwhile:
  `LiveRuns.DisabledWhileReading`, `FreshOrders.DisabledForGood`.
- The two loops choose the futures tick schedule differently for clock values that read as seconds or milliseconds, and
  then the scanner-driven run can stop with its mismatch error: `AmbiguousFeed.AmbiguousClockMismatches`,
  `Ticks.SchedulesAgreeIff`.
- A contract symbol has one year digit, so its expiry depends on the reference date outside a window of ten
  years: `ContractExpiry.OldContractIsMisread`, `ContractExpiry.ExpiryYearIff`.

## Model

| member | source | states |
|---|---|---|
| ScannedReplay.ScannerRefinesPlainLoop | future_spot/arbitrage/hbt_backtest.py:228-350 | From any state, over any finite feed and configuration with a step clock outside the ambiguous timestamp windows, the scanner-driven loop never raises its mismatch error and ends with the plain loop's engine, step, position, order counter, trade and skip rows, and signal and periodic market rows. |
| ScannedReplay.ScannedRunEqualsPlainRun | future_spot/arbitrage/hbt_backtest.py:265-385 | When books are uncrossed and snapshots faithful, the two whole runs are equal, the forced final market row included. |
| ScannedReplay.SkippedStepHolds | future_spot/arbitrage/hbt_numba.py:205-390 | At every step the scanner skips, the plain loop decides HOLD and records nothing. |
| ScannedReplay.FeedsAreKept | future_spot/arbitrage/hbt_numba.py:205-390 | A feed once seen in a scan is not forgotten while the leg reports none. |
| AmbiguousFeed.AmbiguousClockMismatches | future_spot/arbitrage/hbt_backtest.py:265-350 | A one-step feed whose clock counts seconds, on which the scanner-driven run stops with its mismatch error. |
| FinalMarketRow.FinalRowAgreesIff | future_spot/arbitrage/hbt_backtest.py:265-385 | Over whole runs from any state, crossed books and dropped markets included: the scanner-driven and the plain run end with the same market rows exactly when the last step has a row anyway or the last scan leaves the market the plain loop remembers; everything else is equal. |
| FinalMarketRow.CrossedLastBookDiffers | future_spot/arbitrage/hbt_helpers.py:125-152 | A concrete one-step feed with a crossed future book on which the two runs record different market rows. |
| FinalMarketRow.CrossedWakeUpDiffers | future_spot/arbitrage/hbt_backtest.py:305-330 | A two-step feed whose second, crossed step is a periodic wake-up: the scanner-driven run drops the first step's market and records no final row, the plain run does. |
| Scanner.PricingAgrees | future_spot/arbitrage/hbt_numba.py:71-134 | On the same quotes and clock the compiled pricing equals the pricer's, value by value. |
| Scanner.SignalAgrees | future_spot/arbitrage/hbt_numba.py:136-202 | The compiled signal code is the stop-loss-aware engine's signal for every pair, position and pricing. |
| Ticks.LegTicksAgreeIff | future_spot/arbitrage/ticks.py:13-63 | Both engines use one tick at every price iff no negative size is configured and, for a future priced by the table, the clock is unambiguous. |
| Ticks.SchedulesAgreeIff | future_spot/arbitrage/ticks.py:150-163 | Reading the schedule date from the numeric timestamp and comparing nanoseconds agree exactly outside two windows of second and millisecond values. |
| TradingRules.TickIsRelative | future_spot/arbitrage/ticks.py:13-44 | From ten up a stock tick is between a thousandth and a two-hundredth of the price; the new futures schedule keeps it between a 2500th and a 500th. |
| Strategy.Decide | future_spot/arbitrage/strategy.py:122-290 | A decision to act always has a side for both legs, exits only an open position, never enters against the held direction, and under the pair limit enters only below it. |
| TradingRules.EntersWhereItPays | future_spot/arbitrage/strategy.py:71-188 | Without a position the strategy enters exactly where selling one leg and buying the other at their touches gains the threshold on the spot notional and, after costs, more than the minimum of ticks; long before short. |
| TradingRules.LeavesWhereCheapOrStopped | future_spot/arbitrage/strategy.py:122-188 | Holding a position it leaves exactly where closing at the touches is cheap, by threshold or ticks, or costs the entry basis down to the stop; otherwise it adds where its own direction pays, and never turns around. |
| TradingRules.RoundTripGain | future_spot/arbitrage/strategy.py:71-119 | Entering at one market and leaving at another gains exactly the entry percentage less the exit percentage, each on its spot notional. |
| TradingRules.MidBasisIs | future_spot/arbitrage/strategy.py:71-119 | The mid basis is the gap of the mid prices measured against the spot mid. |
| TradingRules.ExitQuantityIff | future_spot/arbitrage/strategy.py:191-289 | An exit closes n pairs exactly if n are open and n orders of each leg fit the size of the price that leg trades at. |
| TradingRules.EntryExecutedIff | future_spot/arbitrage/strategy.py:191-289 | An entry is executed exactly when no unmatched leg is open, it has waited the interval, the pair limit leaves room, and both legs find their configured minimum size on the side they trade with; short spot with permission only. |
| TradingRules.ExitExecutedIff | future_spot/arbitrage/strategy.py:191-289 | An exit is executed exactly when a pair can be closed and its estimated profit beats the configured one. |
| TradingRules.RecheckIff | future_spot/arbitrage/hbt_backtest.py:852-868 | The recheck of an entry passes exactly while the gain at the touches still covers its threshold. |
| TradingRules.SameInstant | future_spot/arbitrage/strategy.py:1408-1469 | Seconds, milliseconds and nanoseconds of one instant are read as one time. |
| OrderPrices.ExecutionSends | future_spot/arbitrage/hbt_backtest.py:519-850 | Whatever the engine answers, an execution sends the first leg at the touch of the market the signal came from (buys at the ask, sells at the bid), the second at the touch of the market decided on or through it by the configured ticks, and the flatten on the opposite side, under consecutive ids, with sides, quantities and times in force by leg; how many orders go out follows from the row it writes. |
| OrderPrices.ThroughCrossesIff | future_spot/arbitrage/hbt_backtest.py:810-850 | A price moved through the touch and rounded to the tick grid still crosses the book exactly when rounding takes back no more than the move and a sale is not lifted above a bid below one tick. |
| OrderPrices.HalfTickCrosses | future_spot/arbitrage/hbt_backtest.py:810-850 | Half a tick of offset is enough to cross, but for a sale into a bid below one tick. |
| OrderPrices.OffGridPurchaseFallsShort | future_spot/arbitrage/hbt_backtest.py:823-850 | Without an offset a flatten purchase against an ask of 100.04 goes in at 100.0 and does not cross. |
| ExecutionCash.ExitPnlIsCash | future_spot/arbitrage/hbt_helpers.py:197-224 | The realized profit of an exit is the net cash of opening at the entry prices and closing at the exit prices, commission on both and tax on the sale. |
| ExecutionCash.FlattenPnlIsCash | future_spot/arbitrage/hbt_backtest.py:935-946 | The realized profit of a flatten is the cash of the first leg and of the order that closed it. |
| ExecutionCash.EstimateIsTouchCash | future_spot/arbitrage/strategy.py:299-332 | The risk check estimates the cash of the pairs that would close now, each leg at its touch. |
| ExecutionCash.FirstLegFills | future_spot/arbitrage/hbt_backtest.py:519-600 | On an engine that fills an order at its own price exactly when it crosses the book, the first leg always fills, at the touch. |
| ExecutionCash.SecondLegFillsIff | future_spot/arbitrage/hbt_backtest.py:746-821 | There the second leg fills exactly when its moved and rounded price still crosses. |
| ExecutionCash.ImmediateCompletesIff | future_spot/arbitrage/hbt_backtest.py:519-706 | There an execution without delay or wait completes exactly when the recheck passes and the second leg crosses. |
| ExecutionCash.ExitRealizesEstimate | future_spot/arbitrage/hbt_backtest.py:519-706 | There an exit executed at the market it was decided at realizes, per pair, the profit the risk check estimated. |
| ExecutionRows.ExecutionDescribes | future_spot/arbitrage/hbt_backtest.py:1055-1098 | Every execution writes one row with its signal, its start, its end and the position after it; only a filled pair moves the position. |
| ExecutionRows.VisitRecords | future_spot/arbitrage/hbt_backtest.py:228-258 | A visit writes its market row before acting, for a signal or a periodic step; a skip row with the reason for a signal the risk check stops; an execution otherwise. |
| ExecutionRows.RunStopsAtBounds | future_spot/arbitrage/hbt_backtest.py:228-258 | A run takes at most its steps and trades and stops short of both only at the end of the data. |
| ExecutionRows.BetweenLegsWaits | future_spot/arbitrage/hbt_backtest.py:566-744 | Between the legs the whole delay passes, then the configured wait: ready exactly when the feeds it names arrived again since the delay, in time. |
| ExecutionRows.UnfilledIsCancelled | future_spot/arbitrage/hbt_backtest.py:770-808 | An unfilled order never rests at the engine after its submission, and no other order is touched. |
| ExecutionRows.FillReports | future_spot/arbitrage/hbt_backtest.py:770-808 | A fill reports a refused submission by its own code and an accepted one by the awaited response; units, price and stamps are those of the executed order, and none without one. |
| ExecutionRows.EntryAveragesIn | future_spot/arbitrage/hbt_backtest.py:870-908 | One more pair averages the entry gain percentage and both fill prices in with the units held and dates the entry by the first leg. |
| ExecutionRows.ExitKeepsTheRest | future_spot/arbitrage/hbt_backtest.py:910-925 | One pair less keeps basis, prices and entry time of the rest; a flat position keeps the time only. |
| EntrySpacing.RunSpacesEntries | future_spot/arbitrage/hbt_backtest.py:228-258 | Over a whole run on a nanosecond clock any two filled entries are signalled at least the configured interval apart, whatever exits come between. |
| Exposure.RunConservesExposure | future_spot/arbitrage/hbt_backtest.py:519-706 | Over a whole run, net exchange fills per leg equal the change of the tracked position plus exactly the first legs its rows left open, and the final position is matched and within max(initial, max_pairs) when limits are on. |
| Exposure.PlainLoopKeeps | future_spot/arbitrage/hbt_backtest.py:228-258 | The same from any state of a run: quantity is nonnegative, HOLD iff flat, both legs at the signed quantity. |
| Exposure.ScannedLoopKeeps | future_spot/arbitrage/hbt_backtest.py:265-350 | The scanner-driven run keeps the same. |
| Exposure.ExecuteAccounted | future_spot/arbitrage/hbt_backtest.py:519-706 | One execution, whatever the engine answers, moves the position by one matched unit or not at all and leaves nothing unexplained on the exchange. |
| Exposure.UpdateKeepsValid | future_spot/arbitrage/hbt_backtest.py:870-925 | A completed pair of fills moves both legs by one signed unit and keeps the position matched. |
| FlattenColumn.FlattenColumnMisleadsIff | future_spot/arbitrage/hbt_backtest.py:519-706 | For every row an execution writes with a filled first leg: the flatten column is empty while the exchange shows that leg closed, exactly when the profit check failed and its flatten order filled. |
| FlattenColumn.FlattenColumnMisleads | future_spot/arbitrage/hbt_backtest.py:637-660 | A two-step run whose one row has an empty flatten column and whose exchange ledger is flat on both legs. |
| Replay.VisitConsumes | future_spot/arbitrage/hbt_backtest.py:228-258 | No visit of the loop gives market data back, so every run ends. |
| Models.WeightedAverageTotal | future_spot/arbitrage/strategy.py:16-20 | Folding one more unit into an average adds exactly its value to the weighted total. |
| Backtester.HbtPairBacktester.RunPython | future_spot/arbitrage/hbt_backtest.py:228-258 | The loop over the object's fields ends in the state of the plain run. |
| Backtester.HbtPairBacktester.RunNumba | future_spot/arbitrage/hbt_backtest.py:265-350 | The scanner-driven loop ends in the state of the scanned run, or fails exactly when that does. |
| Backtester.HbtPairBacktester.ScanUntilWakeup | future_spot/arbitrage/hbt_numba.py:205-390 | The scanning loop stops where the scan function does, with its reason, step, code, snapshot and clock. |
| Backtester.HbtPairBacktester.ExecuteSignal | future_spot/arbitrage/hbt_backtest.py:519-706 | First leg, wait, recheck, second leg and flatten in place give the state of the execution function, for which exposure is conserved. |
| Backtester.HbtPairBacktester.SubmitRawLeg | future_spot/arbitrage/hbt_backtest.py:770-808 | One order is submitted under a new id; the fill and engine after it are the function's. |
| Backtester.HbtPairBacktester.WaitPostFirstFeed | future_spot/arbitrage/hbt_backtest.py:708-744 | The polling loop answers and advances the engine as the recursive wait does. |
| Backtester.HbtPairBacktester.UpdatePosition | future_spot/arbitrage/hbt_backtest.py:870-908 | The field updates give the position function's result. |
| Backtester.HbtPairBacktester.ReducePositionAfterExit | future_spot/arbitrage/hbt_backtest.py:910-925 | Likewise for the exit of one unit. |
| Backtester.HbtPairBacktester.FlattenFirstLeg | future_spot/arbitrage/hbt_backtest.py:823-850 | The flatten order, or none when it is switched off. |
| Backtester.HbtPairBacktester.AdvanceCoordinated | future_spot/arbitrage/hbt_backtest.py:102-135 | The in-place session advance equals the session function. |
| Backtester.HbtPairBacktester.ResolveCoordinated | future_spot/arbitrage/hbt_backtest.py:137-179 | The in-place session resolve equals the session function. |
| CoordinatedSession.UnblockedSessionIsVisit | future_spot/arbitrage/hbt_backtest.py:102-179 | Advancing a session and resolving its event unblocked is exactly one visit of the event-clock loop. |
| CoordinatedSession.ResolveClock | future_spot/arbitrage/hbt_backtest.py:137-179 | Resolving never turns the clock back, and a filled entry is stamped with its event's time. |
| CoordinatedSession.SessionEndsIff | future_spot/arbitrage/hbt_backtest.py:102-135 | A session exposes events exactly until a bound of the run is reached or the data ends, and trades nothing by exposing. |
| CoordinatedSession.BlockedIsSkipped | future_spot/arbitrage/hbt_backtest.py:137-179 | A blocked entry trades nothing and leaves one skip row that names the shared cooldown. |
| SpotCooldown.CooldownIsSeconds | future_spot/arbitrage/full_market_runner.py:2478-2490 | The cooldown is the configured seconds in nanoseconds, to the nearest one. |
| SpotCooldown.SharedCooldownHolds | future_spot/arbitrage/full_market_runner.py:2452-2517 | The coordinator resolves every event exactly once, in each session's order and globally in nondecreasing time; any two filled entries of the group are at least the cooldown apart; and a resolution is blocked exactly when it is an executable entry less than the cooldown after an earlier filled one. |
| SpotCooldown.RunSharedCooldownGroup | future_spot/arbitrage/full_market_runner.py:2452-2517 | The heap loop ends in the coordinated state, with its entries spaced and blocked exactly inside the cooldown. |
| DepthBook.SideBookQuotes | scripts/tw_stock_data_to_npz.py:574-641 | A side's book is strictly best first and quotes exactly the valid prices at their summed quantities. |
| DepthBook.BestFirstUnique | scripts/tw_stock_data_to_npz.py:597-641 | No other best-first list quotes the same levels. |
| DepthBook.LevelQtyAgreesIff | scripts/tw_stock_data_to_npz.py:582-595 | The two converters read a level alike unless an explicit NaN quantity stands at a valid price in price-only mode. |
| DepthBook.LevelQtyScales | scripts/tw_stock_data_to_npz.py:582-595 | A quantity is the cell's number, or the price-only one where there is none at a valid price, times the volume scale. |
| DepthAggregation.AggregateDepthSide | hftbacktest_slim/src/hftbacktest_slim/market_data/normalize.py:10-54 | The in-place aggregation and insertion sort leave the side's book in the work arrays. |
| EventBuilder.FillEventsFromColumns | scripts/tw_stock_data_to_npz.py:1138-1364 | The columnar loop writes the columnar conversion and for all inputs stays within rows * max(4, 2*levels+3) events. |
| EventBuilder.BuildEventsFromRows | scripts/tw_stock_data_to_npz.py:1471-1659 | The row loop appends the row conversion, or raises exactly where it does. |
| RowBlocks.ConversionIsBlocks | scripts/tw_stock_data_to_npz.py:1138-1659 | A conversion splits into consecutive blocks, one per row: every event carries that row's exchange and local time, and a trade comes first, from a tradable row, at its last price and on the configured side. |
| RowBlocks.SmallestLatencyIff | scripts/tw_stock_data_to_npz.py:662-669 | The latency the timestamp correction looks at is the smallest latency of the rows that emit anything. |
| RowBlocks.EmitsTheBest | scripts/tw_stock_data_to_npz.py:597-641 | A tradable row emits the best levels of a side, as many as are selected, and no level better than one left out. |
| ConverterAgreement.AgreeWhereverIff | scripts/tw_stock_data_to_npz.py:1138-1659 | The two converters emit the same events for the rows, cut anywhere and continued by any row, exactly when in each tradable row they emit the same levels and the raw level 1 acts like the best valid level in every later trade and marker. |
| ConverterAgreement.FlagsAgreeIff | scripts/tw_stock_data_to_npz.py:644-660 | Two remembered quotes infer the same side for a trade at every price exactly when their buys begin at the same threshold. |
| ConverterAgreement.ConvertersAgree | scripts/tw_stock_data_to_npz.py:1138-1364 | With no deeper source columns and a best valid level 1 in tradable rows, both converters emit the same events, trial rows and inferred trade sides included. |
| ConverterAgreement.UnquotedLevelOneDiffers | scripts/tw_stock_data_to_npz.py:1485-1652 | Two rows with an unquoted level 1 on which the converters disagree about a trade's side. |
| ConverterAgreement.ZeroAskDiffers | scripts/tw_stock_data_to_npz.py:1485-1652 | Two rows whose raw ask of zero makes the row converter alone take the next trade for a buy. |
| TradedVolume.VolumeConserved | scripts/tw_stock_data_to_npz.py:1227-1253 | For nondecreasing volume with valid prices, traded quantity plus the scaled volume of trial rows equals the scaled volume gained. |
| BookReplay.ReplayShowsLatest | scripts/tw_stock_data_to_npz.py:597-641 | After replaying the events of any rows, the levels of a side from its best to the book's worst price are exactly the latest book emitted for it. |
| BookReplay.BestOfShown | scripts/tw_stock_data_to_npz.py:755-793 | The best price of a side is that book's best. |
| BookReplay.TrialRowLocksBook | scripts/tw_stock_data_to_npz.py:1521-1569 | Right after a trial row with a valid marker both best prices are the marker, so no quote can be taken. |
| BookReplay.ReplayState.Apply | scripts/tw_stock_data_to_npz.py:766-793 | One event updates each side as the side function says and the best prices stay the maximum bid and minimum ask. |
| EventOrder.MergeEventOrder | scripts/tw_stock_data_to_npz.py:689-744 | The loop over the preallocated output writes the merge of the two orders within 2n records. |
| EventOrder.MergeSplits | scripts/tw_stock_data_to_npz.py:689-744 | The EXCH rows of the merge are exactly the data in exchange order, the LOCAL rows exactly the data in local order, at most 2n records in all. |
| EventOrder.SharedRowsHaveQuantities | scripts/tw_stock_data_to_npz.py:689-744 | A row without a quantity is never merged into one record for both clocks, its copies stay two. |
| EventOrderProperties.MergeOrdered | scripts/tw_stock_data_to_npz.py:746-752 | The merge of any data passes validation, and a LOCAL-only row comes after every exchange row at or before its own exchange time. |
| EventOrderProperties.FastPathEqualsMerge | scripts/tw_stock_data_to_npz.py:671-686 | On data ordered on both clocks the fast path gives exactly the merge. |
| EventOrderProperties.CorrectEventOrder | scripts/tw_stock_data_to_npz.py:671-686 | Either path returns the merge of the two stable sorts, which validation accepts. |
| EventOrderProperties.CorrectLocalTimestamp | scripts/tw_stock_data_to_npz.py:662-669 | If the smallest latency is negative, every local time moves by the one shift that makes the smallest latency the base latency; otherwise the data is untouched; nothing else changes. |
| EventClockOrder.LocalOnlyAfterAllSentIff | scripts/tw_stock_data_to_npz.py:689-752 | For any rows, repeated ones included: every LOCAL-only row of the merge comes after all exchange rows sent up to its local time iff no late arrival has a row to come that was sent by its local time. |
| EventClockOrder.InClockOrderIff | scripts/tw_stock_data_to_npz.py:689-752 | For any rows of nonnegative latency, repeated ones included: the merge is ordered by exchange time if EXCH, else local time, iff no late arrival has a row to come that was sent before its local time. |
| EventClockOrder.MergeNeedNotBeInClockOrder | scripts/tw_stock_data_to_npz.py:689-752 | Three rows whose merge is valid and has neither property. |
| EventClockOrder.ClockOrderDoesNotWait | scripts/tw_stock_data_to_npz.py:689-752 | Three rows whose merge is in clock order with a LOCAL-only row before an exchange row sent at its local time. |
| PositionCarry.CarryRoundTrip | future_spot/arbitrage/position_carry.py:37-96 | Summary row, snapshot, restored pair and initial position compose to the same position but for the time of its last entry; a flat position leaves no snapshot. |
| PositionCarry.CarryRoundTripIff | future_spot/arbitrage/position_carry.py:54-96 | An open position round-trips exactly when its basis is known and both entry prices are positive, and raises exactly when a price is not. |
| PositionCarry.SnapshotIff | future_spot/arbitrage/position_carry.py:54-96 | When a summary row is a position and which error it raises: whole quantity, a direction, both prices, in this order. |
| PositionCarry.SnapshotFields | future_spot/arbitrage/position_carry.py:54-96 | The snapshot has the row's date, pair, configuration, direction and prices, its quantity rounded, and its basis or the one its prices imply. |
| PositionCarry.RunKeepsCarriable | future_spot/arbitrage/hbt_backtest.py:870-925 | Whatever the engine answers, every position a run reaches is matched and has its basis and positive entry prices. |
| PositionCarry.NextDayStartsWhereRunEnded | future_spot/arbitrage/config.py:374-394 | The next day's run starts from the position this day's run ended with, but for the last entry time. |
| ContractExpiry.ThirdWednesday | future_spot/arbitrage/position_carry.py:121-123 | The third Wednesday of the month calendar is the one Wednesday from the 15th to the 21st. |
| ContractExpiry.WeekdaysFollow | future_spot/arbitrage/position_carry.py:121-123 | From each date to the next the weekday moves by one, through months and years of any length, and 1 January 2025 is a Wednesday. |
| ContractExpiry.ContractYearIff | future_spot/arbitrage/position_carry.py:114-119 | A contract of year Y is read as Y exactly for reference years Y-8 to Y+1. |
| ContractExpiry.ExpiryIsHolidayAdjustedThirdWednesday | future_spot/arbitrage/position_carry.py:99-131 | All reference dates of that window give one expiry: the third Wednesday, or the last listed trade date before it in its month. |
| ContractExpiry.ExpiryYearIff | future_spot/arbitrage/position_carry.py:99-131 | The expiry falls in the contract's year exactly inside the window. |
| ContractExpiry.OldContractIsMisread | future_spot/arbitrage/position_carry.py:114-119 | The January 2025 contract, seen from 2027, expires in 2035. |
| CarryChain.AugmentRecords | future_spot/arbitrage/full_market_runner.py:1392-1433 | The two loops build the augmented record list. |
| CarryChain.AugmentCounts | future_spot/arbitrage/full_market_runner.py:1392-1433 | Every carried key appears once if the day did not select it and as often as selected otherwise; no other key is added. |
| CarryChain.AugmentRestores | future_spot/arbitrage/full_market_runner.py:1392-1433 | Records of carried keys start from the carried position, dated by where it comes from; a record added for one has its configuration path and the day's run key; all others are the day's own. |
| CarryChain.AdvancePositionCarry | future_spot/arbitrage/full_market_runner.py:1436-1505 | The loop gives the next carry, the audit and the errors, or the first snapshot error. |
| CarryChain.AdvanceDecides | future_spot/arbitrage/full_market_runner.py:1436-1505 | For any records, several of one pair included: each decides its own audit row; a position is carried exactly when some record of its key carries it, as the last such record left it; and exactly the run keys of records open on or past expiry are reported. |
| CarryChain.StatusIff | future_spot/arbitrage/full_market_runner.py:1436-1505 | The five audit statuses by three facts that exclude each other's cases: whether the pair ran, is still open, and is on or past expiry. |
| CarryChain.NoPositionIsLost | future_spot/arbitrage/full_market_runner.py:1392-1505 | Each carried key has a record next day, all its records start from the carried position, and it is carried on exactly when not every one of them was closed, reported at expiry or explicitly excluded. |
| CarryChain.NoPositionIsEverLost | future_spot/arbitrage/full_market_runner.py:1392-1505 | The same over any number of dates. |
| CarryChain.NoPositionOutlivesItsContract | future_spot/arbitrage/full_market_runner.py:1464-1472 | No position is carried out of a date on or past its contract's expiry, the same expiry from every reference date of the window. |
| Capital.LimitsSplitBudget | future_spot/arbitrage/capital.py:38-60 | The two leg limits sum to the total capital, and the matched notional uses each exactly. |
| Capital.DayIsFirstInFirstOut | future_spot/arbitrage/capital.py:128-296 | Per pair and day, starting lots followed by accepted entries are the released lots followed by the ending lots: exits and discards release the oldest, and counts balance. |
| CapitalReplay.BuildCapitalConstraintOutputs | future_spot/arbitrage/capital.py:63-296 | The queues per pair, running counters and tallies give, event by event and date by date, the ledger over one list of open lots. |
| CapitalReplay.RowOfDate | future_spot/arbitrage/capital.py:270-290 | Each date's row is the tally of that date's events from the ledger the dates before it left. |
| CapitalBudget.BudgetHolds | future_spot/arbitrage/capital.py:128-296 | With nonnegative requirements, on any dates, used capital always equals the open lots' requirements and every event is within both leg limits and the total, up to 1e-9. |
| CapitalBudget.ReleaseKeepsSound | future_spot/arbitrage/capital.py:165-175 | A release gives back exactly what the lot required: the clip at zero never binds. |
| CapitalBudget.PeaksWithinLimits | future_spot/arbitrage/capital.py:244-248 | The reported peaks respect the limits and bound the total used at every fill of the day. |
| CapitalPrices.BudgetByPrices | future_spot/arbitrage/capital.py:310-333 | After any days, used spot capital is the sum over open lots of spot notional times the effective rate plus the entry fee, and used futures capital that of futures notional times its rate. |
| CapitalPrices.EntryAcceptedIff | future_spot/arbitrage/capital.py:193-235 | An entry is accepted exactly when those sums with its own notionals stay within both limits and the total, up to 1e-9; then one lot recording its prices and quantities is opened, otherwise nothing changes. |
| CapitalPrices.MatchedEntryAccepted | future_spot/arbitrage/capital.py:38-61 | From an empty ledger and without fees every entry of equal notionals up to the matched limit is accepted. |
| CapitalRows.DailyRowBalances | future_spot/arbitrage/capital.py:143-300 | The daily row counts the day's events by kind, adds up its exits, ends with the lots it opened less those released, and its peaks are the largest use after a fill, the opening one included. |
| FifoPnl.FifoMinusAverage | future_spot/arbitrage/capital.py:350-359 | For a long-only pair starting flat with every entry accepted, interleaved with any other pairs and carried over any dates, FIFO realized profit less average-cost realized profit is the open lots at cost less the average position at cost; the totals coincide when flat. |
| FifoPnl.AverageExit | future_spot/arbitrage/hbt_helpers.py:197-223 | An average-cost exit realizes the net proceeds less the unit cost of the average, fees and tax included. |
| FifoPnl.FifoExit | future_spot/arbitrage/capital.py:350-359 | A FIFO exit realizes the same net proceeds less the released lot's unit cost. |
| FifoPnl.EntryCost | future_spot/arbitrage/hbt_backtest.py:880-908 | Averaging in one more unit adds exactly that unit's cost to the position at cost. |
| ResultStore.DailyResultStore.Publish | scripts/daily_result_store.py:88-179 | Under any failure or crash of any file operation, only the requested date can change, to the complete new partition or, while replacing, to absent; a published result validates and matches; an existing different or unreadable partition is refused unchanged; without faults the new partition is in place. |
| ResultStore.DailyResultStore.MoveIn | scripts/daily_result_store.py:162-179 | The rename pair with its rollback has that effect. |
| ResultStore.DailyResultStore.ValidatedPrefix | scripts/daily_result_store.py:294-318 | The prefix returned is exactly the longest one of verified dates forming an unbroken carry chain with the expected identities. |
| ResultStore.CompleteValidates | scripts/daily_result_store.py:181-204 | A complete partition validates and matches its request. |
| ResultStore.ValidatesIff | scripts/daily_result_store.py:181-204 | A partition validates exactly when its manifest is readable, of this schema and date, complete and consistent, and every recorded table has a proper name and a file with the rows it was recorded with. |
| ResultStore.OnlyOriginalTablesValidate | scripts/daily_result_store.py:181-204 | A complete partition whose table files are altered validates exactly while every table still holds what was published. |
| ResultStore.MatchesIff | scripts/daily_result_store.py:109-116 | A stored date counts as the same publication exactly if identity, carry-in, carry-out and run keys are equal. |
| ResultStore.UnbrokenIff | scripts/daily_result_store.py:294-318 | The chain is unbroken exactly when every date validates, has the expected identity, and starts from the carry the one before ended with. |
| ResultStore.AbsentOldOrNew | scripts/daily_result_store.py:88-179 | After any sequence of publications, each crashing anywhere, a date is absent, unchanged, or holds a complete new partition. |
| ResultStore.CompletedDatesAreImmutable | scripts/daily_result_store.py:88-122 | Without replacement a stored date never changes. |
| ResumeRun.RunDates | future_spot/arbitrage/full_market_runner.py:997-1231 | A finished run has the records, carry and partitions of the uninterrupted run; without file faults it finishes exactly when each date is absent, already right, or readable and being rebuilt. |
| ResumeRun.CarryFollowsSummary | future_spot/arbitrage/full_market_runner.py:1032-1094 | The next date's carry is advanced from the table published as the summary, or from no rows without one. |
| ResumeRun.InterruptedRuns | future_spot/arbitrage/full_market_runner.py:1032-1094 | Any number of runs, each interrupted anywhere or failing, leave every date absent or with the partition of the uninterrupted run. |
| ResumeRun.ResumedRun | future_spot/arbitrage/full_market_runner.py:1032-1094 | Over such a store a run without file faults finishes with the records, carry and partitions of an uninterrupted run. |
| LongestFirst.GreedyListBound | future_spot/arbitrage/full_market_runner.py:2395-2402 | In any order, m times the heaviest machine is at most the total plus m-1 times the heaviest job. |
| LongestFirst.SomeMachineFits | future_spot/arbitrage/full_market_runner.py:2391-2402 | Jobs longer than a third of a feasible makespan leave room for the shortest on the least loaded machine, wherever the others are. |
| LongestFirst.GrahamBound | future_spot/arbitrage/full_market_runner.py:2391-2402 | Longest first, 3m times any machine is at most 4m-1 times the makespan of any assignment. |
| Sharding.BalancedBacktestShards | future_spot/arbitrage/full_market_runner.py:2369-2403 | Grouping, sorting and greedy placement in loops give the shard function. |
| ShardingProperties.ShardsPartition | future_spot/arbitrage/full_market_runner.py:2369-2403 | Every run is in the shards exactly as often as given, no shard is empty, and there are at most as many as workers allow. |
| ShardingProperties.GroupsStayTogether | future_spot/arbitrage/full_market_runner.py:2391-2403 | No two shards hold runs of one date and spot symbol. |
| ShardingProperties.ShardsBalanced | future_spot/arbitrage/full_market_runner.py:2369-2403 | m times any shard is at most the total weight plus m-1 times the heaviest group. |
| ShardingProperties.ShardsNearOptimal | future_spot/arbitrage/full_market_runner.py:2369-2403 | 3m times any shard is at most 4m-1 times the makespan of any placement of whole groups. |
| ShardOrder.GroupsStandInOrder | future_spot/arbitrage/full_market_runner.py:2391-2394 | Groups are placed heaviest first and among equals by the least run key, compared character by character. |
| ShardOrder.GroupsAreOfOneSpot | future_spot/arbitrage/full_market_runner.py:2385-2392 | Two runs are in one group exactly when they are of one date and one spot symbol. |
| ShardOrder.RunsStandInKeyOrder | future_spot/arbitrage/full_market_runner.py:2395-2400 | The runs of one group stand in the order of their run keys. |
| ShardOrder.PairRunWeighs | future_spot/arbitrage/full_market_runner.py:2383-2390 | A run weighs the event rows of its two legs; without any, the sizes of its two files, a missing or empty one counting one. |
| LiveOrders.LivePairProvider.BeginPairOrders | future_spot/arbitrage/providers.py:1366-1381 | Placing proceeds for exits, and for entries exactly when nothing blocks them. |
| LiveOrders.LivePairProvider.ReadDraft | future_spot/arbitrage/providers.py:1133-1178 | Each unlocked read takes one field of the live position, the exit quantity, the direction or a leg's units, into the draft. |
| LiveOrders.LivePairProvider.InstallPairOrder | future_spot/arbitrage/providers.py:1388-1402 | The locked part installs the order as drafted unless one is pending. |
| LiveOrders.LivePairProvider.KeepEntryBasis | future_spot/arbitrage/providers.py:1404-1407 | After the installation, and without the lock, an entry's basis is kept for the position it opens. |
| LiveOrders.LivePairProvider.NameFirstLeg | future_spot/arbitrage/providers.py:1413-1414 | The first leg is named after the installation, on that order only. |
| LiveOrders.LivePairProvider.UpdatePositionFromFill | future_spot/arbitrage/providers.py:881-1026 | A fill moves one leg and its average price, then reconciles and releases; what sequences of fills do to the price is LivePrices.EntryPriceIsAverage. |
| LiveOrders.LivePairProvider.ReconcilePositionFromLegs | future_spot/arbitrage/providers.py:1028-1055 | Direction, quantity and entry values follow from the legs. |
| LiveOrders.LivePairProvider.StartDeferredLeg | future_spot/arbitrage/providers.py:1580-1646 | The other leg starts exactly when it is not yet sent and this leg is at its target. |
| LiveOrders.LivePairProvider.HandleSecondLegFailure | future_spot/arbitrage/providers.py:838-879 | A failure is handled once, with its cooldown, and starts at most one flatten. |
| LiveOrders.LivePairProvider.HandleOrderReport | future_spot/arbitrage/providers.py:678-836 | No-fill, rejection and partial reports act as the report function says, by the leg they are for. |
| LiveOrders.LivePairProvider.BeginPendingOrderTimeout | future_spot/arbitrage/providers.py:1506-1521 | A timeout locks entries and reads, outside the lock, whether the second leg was sent. |
| LiveOrders.LivePairProvider.ReleaseTimedOutOrder | future_spot/arbitrage/providers.py:1534-1542 | A first-leg timeout drops its order, if still pending, and disables entries. |
| LivePrices.EntryPriceIsAverage | future_spot/arbitrage/providers.py:881-1026 | From zero units, over positively priced fills that only increase a leg, interleaved with any fills of the other: entry price times units is the sum of price times units of those fills. |
| LivePrices.ReducingKeepsEntryPrice | future_spot/arbitrage/providers.py:881-1055 | A fill against the units held leaves both entry prices alone; when it leaves the pair flat, all entry values are cleared. |
| LivePrices.OpeningKeepsBasis | future_spot/arbitrage/providers.py:1028-1055 | The fill that first matches the legs gives the position its order's basis and its own time. |
| LivePrices.StepCools | future_spot/arbitrage/providers.py:838-879 | The step in which a second leg fails blocks entries for at least the configured cooldown, and no step shortens one. |
| LivePrices.EntriesWaitOut | future_spot/arbitrage/providers.py:1445-1478 | On any run no entry begins before a cooldown has passed. |
| LiveRules.ReportActs | future_spot/arbitrage/providers.py:678-836 | Which reports of FOK orders stop and lock entries, drop the order or fail its second leg, and that all others change nothing. |
| LiveRules.StopsIff | future_spot/arbitrage/providers.py:1458-1463 | Entries are disabled exactly by a partial fill, a refusal that drops or fails the order, a first-leg timeout's release or another order's doing, and never enabled again. |
| LiveRules.LockedForGood | future_spot/arbitrage/providers.py:1464-1468 | A locked pair stays locked and begins no entry. |
| LiveRules.KeptBasisIsGain | future_spot/arbitrage/providers.py:1404-1407 | The basis kept for an entry is what it gains per share at the touches against its spot price. |
| LiveRules.EntryPlacesOneUnit | future_spot/arbitrage/providers.py:1366-1414 | An entry placed undisturbed asks each leg for one unit more of its direction, with opposite sides, the leg whose feed triggered it first. |
| LiveRules.OnlyEntriesCheckBasis | future_spot/arbitrage/providers.py:1648-1669 | A second leg is dropped for its adjusted basis only on an entry and under a positive threshold. |
| LiveRules.TimesOutOnlyUnhandled | future_spot/arbitrage/providers.py:1480-1505 | An order is timed out only while pending, its second leg not failed, and a limit set. |
| LiveRuns.StartIsGood | future_spot/arbitrage/providers.py:86-140 | A provider over a matched position with nothing pending starts good and fresh. |
| LiveProtocol.StepKeepsMarks | future_spot/arbitrage/providers.py:838-1086 | Every step, whatever it abandons, keeps the pending order the one placed last, its marks in step with its broker orders, and the quantity settled by the legs. |
| LiveProtocol.StepStaysSound | future_spot/arbitrage/providers.py:838-1086 | Every step but foreign fills and reports also keeps each leg at the units the order was installed at plus what its broker orders filled, the flatten taken back. |
| LiveProtocol.RunStaysMarked | future_spot/arbitrage/providers.py:838-1086 | On every run each placed order's second leg, repeated first leg and flatten are accepted at most once. |
| FreshOrders.SecondLegStartsAtTarget | future_spot/arbitrage/providers.py:1580-1646 | The second leg of a fresh order starts only from the filled first leg at its target, with no second order out. |
| FreshOrders.EntryStaleIff | future_spot/arbitrage/providers.py:1386-1403 | An entry is installed with stale targets exactly when a leg has moved since its units were read. |
| FreshOrders.ExitStaleIff | future_spot/arbitrage/providers.py:1156-1176 | An exit is stale exactly when a leg is not where it was read, the read raised to the exit quantity where it was smaller. |
| FreshOrders.QuietPlacingIsFresh | future_spot/arbitrage/providers.py:1366-1403 | If nothing fills between the start of placing and the installation, the order is fresh, entry or exit. |
| LiveProtocol.LegsStayWithinTheOrder | future_spot/arbitrage/providers.py:838-1086 | Along any run of own events without abandoning: no pending order means equal legs; a pending one legs that differ exactly when its broker orders left them open, by at most twice its quantity. |
| LiveProtocol.BalancedAtRestIff | future_spot/arbitrage/providers.py:1133-1646 | On every run, stale orders, repeated legs, partial and late fills and late reports included: the legs match at every moment without a pending order exactly when no step drops the order while they differ, no fill meets unequal targets, and no fill comes with nothing pending. |
| LiveProtocol.OwnBalancedAtRestIff | future_spot/arbitrage/providers.py:1133-1646 | On every run of own events the same, with the legs' difference given by which broker orders of the pending order have filled. |
| FreshOrders.FreshBalancedAtRestIff | future_spot/arbitrage/providers.py:1133-1646 | While no order is installed stale: exactly when no step is a first-leg timeout's release, or a FOK flatten's report, with the first leg filled and not flattened. |
| LiveRuns.FailedSubmissionThenTimeoutUnbalances | future_spot/arbitrage/providers.py:1603-1612 | A run from a flat pair in which the second submission raises and the timeout leaves the legs unequal with nothing pending. |
| LiveRuns.FillDuringTimeoutUnbalances | future_spot/arbitrage/providers.py:1506-1542 | A run in which the first leg fills, and its second leg starts, between the timeout's reading of the role and its release. |
| LiveRuns.LateFillUnbalances | future_spot/arbitrage/providers.py:1534-1542 | A run in which the first leg fills after the timeout's release. |
| LiveRuns.StaleTargetsUnbalance | future_spot/arbitrage/providers.py:1386-1403 | A run from one held pair in which an order installed with stale targets is released by its first fill, legs 3 and 2, entries enabled. |
| LiveRuns.LateCallbackRepeatsFirstLeg | future_spot/arbitrage/providers.py:1580-1600 | A run in which the callback of the previous order's last fill submits the new order's first leg a second time. |
| LiveRuns.DisabledWhileReading | future_spot/arbitrage/providers.py:1366-1403 | A run in which an entry being placed is installed after entries were disabled. |
| LiveRuns.UnfilledFokFlattenUnbalances | future_spot/arbitrage/providers.py:708-731 | A run in which a FOK flatten order's no-fill report does the same with entries still enabled. |
| FreshOrders.DisabledForGood | future_spot/arbitrage/providers.py:1445-1463 | Disabled entries stay disabled, and no entry is installed but one that was being placed. |
| FreshOrders.FlattenReleasesIffWasFlat | future_spot/arbitrage/providers.py:1057-1073 | The flatten's fill restores the legs and releases a fresh order exactly when the pair was flat before it; otherwise the pair is stuck. |
| LiveRuns.FlattenOfHeldPairSticks | future_spot/arbitrage/providers.py:1057-1086 | A run from a pair holding one unit that ends stuck. |
| FreshOrders.StuckForever | future_spot/arbitrage/providers.py:1057-1086 | A stuck pair's order stays pending and its position unchanged through any further own events. |

## Left out

- Execution engines: the matching engine, order queues and latencies are a port with assumptions stated where they are used (finite data, a clock that never goes back, orders stamped at request time, whole fills at positive prices, a log of its orders, an advance that takes the time asked, orders that rest until cancelled, or fills exactly across the book); their internals are not part of this model.
- Floating point: rounding, infinities and int64 overflow; nonpositive prices in a book, for which the tick tables raise.
- Reading and writing Parquet, CSV, NPZ and JSON, pandas and polars shaping, command lines, logging, process pools, reports and notifications.
- Latency rows, order-latency triples and extra columns of trade rows; they do not feed back into a run.
- Risk checks on portfolio totals and on trial-match marks, which the replay calls without totals and marks.
- An unknown feed-wait mode or strategy clock, which raises before a run.
- Grouping and sorting of trades by date, time and run key before the capital replay, the open-lot table of each date, and NaN prices in it; dates arrive in order.
- SpotCooldown.RunSharedCooldownGroup: sessions are values in a sequence rather than objects, so aliasing between sessions and the closing of engines are not captured.
- CarryChain.AugmentRecords: the sorted order in which held keys are visited is a parameter; the results hold for every order.
- CarryChain.AdvancePositionCarry: the summary is a map by run key, so duplicate summary rows are not modelled; dates are year, month, day rather than text, and symbols are already trimmed and in upper case.
- ResultStore.DailyResultStore.Publish: hashes tell all values apart; a table's byte count, the manifest's metadata and reading back written files are not modelled; temporary names are never reused.
- ResumeRun.RunDates: the day's records, identity, execution and carry are one deterministic function, so the compact market-data cache, whose first build changes the identity, is not modelled; reports and retained-row budgets neither.
- Sharding.BalancedBacktestShards: the worker processes that run the shards, their failures and cancellation.
- LiveOrders.LivePairProvider.InstallPairOrder: a pending order is a value with an identity number instead of a shared object; the order prices, the adjusted-basis formula and the broker's order keys are not modelled, and elapsed time is an event.
- LiveOrders.LivePairProvider.UpdatePositionFromFill: fills are whole pair units; a partial fill that is a fraction of a unit is not modelled.
- LiveProtocol.OwnBalancedAtRestIff: own events are whole fills and deaths of the pending order's broker orders; partial fills, fills and reports of orders no longer pending, fills of a second leg after it failed, and a submission that is accepted and still raises are foreign events, which LiveProtocol.BalancedAtRestIff allows.
- ConverterAgreement.AgreeWhereverIff: the counters of the conversion statistics are not modelled.
- The paper execution engine of the strategy module, live quotes, account queries and the reconstruction of carried records from cached results: easy members beside those above.
