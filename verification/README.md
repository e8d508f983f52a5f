# A-share backtester: a verified model

This project models the three stateful parts of the A-share backtesting application and proves what they are meant to guarantee.

**The daily backtest** (`Market`, `Conditions`, `Prefilter`, `ConditionLaws`, `Indicators`, `IndicatorLaws`, `Precomputed`, `Engine`, `FrameLaws`, `SellRules`, `BuyRules`, `DisabledNodes`, `Fills`, `Ledger`, `Discipline`, `NoLookahead`, `Marking`, `Holding`, `BacktestRun`). One step is one trading day: sell the positions that are due, scan for candidates, record the equity point, buy on the next trading day's open, remember the closes. `Engine` is this state machine on values; `BacktestRun` is the nested loops over mutable trade records, proved equal to it. Prices and cash are `real`, dates are `int`, a NaN cell is `Missing`. The modules named laws and rules say what each step answers in dates and in the fields of rows, without the functions they are about. Over whole runs: no data of a later day reaches an earlier equity point or sale, even through an indicator column; the ledger balances every day; slots, dates and holding periods are disciplined; every fill is one the day allowed; every position is marked at a real close.

**The saved strategies** (`StrategyNames`, `StrategyArray`, `SavedStrategyStore`, `StoreReports`, `StoreRun`, `StrategyFile`, `StrategyFileProgress`). `SavedStrategyStore` interleaves the synchronous segments of the front-end controller (loads with monotonic ids, a serialised mutation queue) with reads and writes of the disk in every order; `StoreReports` relates what callers are told to what is stored, and `StoreRun` drives the controller object itself through such a sequence. `StrategyFile` interleaves any number of upserts and deletes from threads of several processes under the file lock and the in-process mutex, with the content of each temporary file, an atomic rename, and crashes at any step.

**The AI chat sessions** (`AgentHistory`, `AgentSession`, `AgentRuns`, `AnthropicWire`, `SessionLocks`, `Insights`). `AgentRuns` interleaves repair, question, archive, model answers and tool results, and may stop after any step; `AnthropicWire` translates the histories it sends; `SessionLocks` is the reference-counted lock table with eviction, together with the life of each request and its worker; `Insights` is the sliding-window publisher.

Where the source updates state in place, the model has a class or a loop, proved against a function of the old state; the properties are proved about that function.

## Where the code does less than it promises

Each of these is modelled as the code has it, with a failing family and the exact condition under which the promise holds.

- The turnover evaluator reads a value above one as a percentage, the vectorised mask does not, so the prefilter can lose a candidate (`Prefilter.RescaledTurnoverIsLost`). It is exact for every strategy if and only if no eligible row of the day has a turnover above one.
- The precomputed N-day flow sum is missing over a gap, the scanned sum skips the gap. They agree if and only if a full window has no missing flow (`Precomputed.FlowSumVerdictsAgreeIffNoGap`).
- Repair collects answered ids over the whole prefix, so an unanswered call that reuses an id stays unanswered (`AgentHistory.ReusedIdIsNotRepaired`). Repair is complete if and only if every unanswered id is new.
- A disabled node counts as passed. Exit rules ignore their disabled members if and only if there are none (`DisabledNodes.ExitRulesIgnoreDisabledIffNone`); a group ignores them if and only if all its nodes must pass, or none is disabled, or, in a score group, their weights sum to zero (`DisabledNodes.GroupIgnoresDisabledIffInert`). With a disabled exit rule no unobstructed position stays past its third trading day (`Holding.ClosedWithinLimit`).

## Model

| member | source | states |
|---|---|---|
| Market.BeforeIsPrefix | backend/astock_backtester/conditions.py:503-520 | selecting the rows of a sorted frame before a date gives exactly a prefix of its days |
| Market.BeforeIgnoresLaterDays | backend/astock_backtester/conditions.py:503-520 | what lies before a date is the same in every longer frame |
| Conditions.EvaluateGroup | backend/astock_backtester/conditions.py:523-542 | the accumulating loop passes a group exactly when all, any, or a sufficient weight of its nodes pass, and returns that weight |
| ConditionLaws.NthLatestIsPlace | backend/astock_backtester/conditions.py:508-515 | the n-th row from the end of a symbol's history is the row with exactly n - 1 rows of the symbol between it and the date |
| ConditionLaws.LaggedNodeIsJudgedEarlier | backend/astock_backtester/conditions.py:503-520 | a lagged node passes if and only if the node without lag passes on an earlier row of the symbol with exactly lag - 1 of its rows dated strictly between |
| ConditionLaws.VerdictOnOwnCells | backend/astock_backtester/conditions.py:93-363 | for every condition that finds what it needs in the row, the verdict in the row's own cells and close: numbers only, bounds inclusive, levels strict, turnover above one as a percentage |
| ConditionLaws.VerdictOnHistory | backend/astock_backtester/conditions.py:101-363 | for the conditions that scan, the verdict in terms of rows told by dates: the sum or the number of positive days of the full window up to the row, every high or low of the window before it, the cross against the latest earlier row |
| ConditionLaws.MaskIsVerdict | backend/astock_backtester/conditions.py:366-458 | where the row holds the columns a condition may precompute, and a turnover of at most one, the mask keeps exactly the rows the evaluator accepts |
| ConditionLaws.ScoreIsPassingWeight | backend/astock_backtester/conditions.py:536-541 | the score of a group is the summed weight of its passing nodes |
| Conditions.CandidatePrefilterMask | backend/astock_backtester/engine.py:173-193 | the and-ed and or-ed masks keep a row exactly when every market filter mask and every entry group's mask holds there |
| Conditions.FoldNodeMasks | backend/astock_backtester/engine.py:161-193 | folding node masks over a group gives the conjunction, or the disjunction, over its nodes |
| Prefilter.VerdictImpliesMask | backend/astock_backtester/conditions.py:366-458 | for all 17 registered conditions the mask keeps every row on which the evaluator says yes, given a turnover of at most one |
| Prefilter.ShiftReadsPreviousTradingRow | backend/astock_backtester/conditions.py:301-322 | the grouped shift of the dead-cross mask and the evaluator's query for earlier dates find the same previous row |
| Prefilter.TurnoverMaskIsSafeExactlyUpToOne | backend/astock_backtester/conditions.py:251-261 | evaluator and mask agree under all bounds if and only if the turnover is missing or at most one; above one the mask even rejects what the evaluator accepts |
| Prefilter.EvaluateImpliesNodeMask | backend/astock_backtester/engine.py:161-170 | disabled and lagged nodes included, an accepted node is never masked out |
| Prefilter.CandidateSurvivesPrefilter | backend/astock_backtester/engine.py:173-193 | a row accepted by filters and groups (and, or, score) is kept by the prefilter |
| Prefilter.RescaledTurnoverIsLost | backend/astock_backtester/conditions.py:416-417 | for every eligible row with a turnover above one there is a strategy whose candidate the prefilter drops |
| Prefilter.PrefilterIsExactIffTurnoverPlain | backend/astock_backtester/engine.py:460-487 | scanning prefiltered rows equals scanning all rows, for every strategy, if and only if no eligible row has a turnover above one |
| Prefilter.PrefilterIsExactWithoutTurnover | backend/astock_backtester/engine.py:460-487 | a strategy with no enabled, unlagged turnover node outside score groups is prefiltered exactly on every frame |
| Prefilter.ScanMembersAreCandidates | backend/astock_backtester/engine.py:460-487 | every scanned row is a row of the day that is eligible and passes filters and groups |
| Indicators.ExponentialMeanPrefix | backend/astock_backtester/indicators.py:85-93 | the exponential mean of a cut series is the cut exponential mean |
| Indicators.RollingPrefix | backend/astock_backtester/indicators.py:10-15 | a rolling aggregate of a cut series is the cut rolling aggregate, for sums, means and extremes |
| Indicators.SeriesIsCausal | backend/astock_backtester/indicators.py:10-93 | cutting a symbol's history cuts each indicator column and changes no remaining value |
| Indicators.ColumnIsCausal | backend/astock_backtester/indicators.py:10-108 | no column, market heat included, has a value that depends on a later day |
| Indicators.EnrichmentIsCausal | backend/astock_backtester/backtest_runner.py:30-59 | adding the indicator columns and cutting off the future commute |
| IndicatorLaws.MeanInClosedForm | backend/astock_backtester/indicators.py:85-93 | an exponential mean with a = 2/(span+1) weighs the first value (1-a)^p and the m-th a(1-a)^(p-m) |
| IndicatorLaws.MacdInClosedForm | backend/astock_backtester/indicators.py:85-93 | difference line: 12-day less 26-day mean of the closes; signal line: 9-day mean of it; histogram: twice their difference; all in closed form |
| IndicatorLaws.FasterMeanIsHigher | backend/astock_backtester/indicators.py:85-93 | on values that never fall the faster mean lies between the slower one and the value |
| IndicatorLaws.DifIsNonNegativeOnRisingCloses | backend/astock_backtester/indicators.py:88-90 | so the difference line is not negative on closes that never fall |
| IndicatorLaws.MovingAverageLaw | backend/astock_backtester/indicators.py:10-15 | the average times its window is the sum of the last closes, and it is missing before the window is full |
| IndicatorLaws.PastReturnLaw | backend/astock_backtester/indicators.py:18-23 | the close is one plus the return times the close w rows earlier |
| IndicatorLaws.VolumeRatioLaw | backend/astock_backtester/indicators.py:26-37 | the ratio times the mean of the w previous volumes is the volume |
| IndicatorLaws.FlowColumnsLaw | backend/astock_backtester/indicators.py:40-62 | the flow columns hold the sum of a full window without gaps and the number of its positive days |
| IndicatorLaws.PriorLevelsLaw | backend/astock_backtester/indicators.py:65-82 | the prior levels are attained by one of the w rows before and exceeded by none |
| IndicatorLaws.MarketHeatLaw | backend/astock_backtester/indicators.py:96-108 | the heat times the number of rows counts the rows that closed above their symbol's latest earlier close |
| IndicatorLaws.ColumnReadsRowsUpToDate | backend/astock_backtester/indicators.py:6-15 | a column at a row is its symbol's series at the row, behind exactly the symbol's earlier rows in order of date |
| IndicatorLaws.EnrichedRow | backend/astock_backtester/backtest_runner.py:30-59 | enriching adds the asked columns to every row and changes nothing else |
| Precomputed.PositiveCountAgrees | backend/astock_backtester/indicators.py:52-62 | the positive-count column equals the evaluator's own scan, the too-short case included |
| Precomputed.PriorHighAgrees | backend/astock_backtester/indicators.py:65-82 | the shifted rolling maximum equals the scan of the rows before the date |
| Precomputed.PriorLowAgrees | backend/astock_backtester/indicators.py:65-82 | the shifted rolling minimum equals the scan of the rows before the date |
| Precomputed.FlowSumValue | backend/astock_backtester/indicators.py:40-49 | the flow-sum column is the scanned sum over a full window without gaps and missing otherwise |
| Precomputed.CountVerdictsAgree | backend/astock_backtester/conditions.py:193-230 | with and without its column, the positive-count condition gives one verdict |
| Precomputed.PriorExtremeVerdictsAgree | backend/astock_backtester/conditions.py:324-363 | with and without their columns, breakout and breakdown give one verdict |
| Precomputed.FlowSumVerdictsAgreeIffNoGap | backend/astock_backtester/conditions.py:101-164 | both flow-sum conditions agree under all bounds if and only if a full window has no missing flow |
| Engine.NextTradeIndexIsFirstLater | backend/astock_backtester/engine.py:196-200 | the next trade date is the immediately following trading day, and there is none after the last |
| FrameLaws.RestrictedRows | backend/astock_backtester/engine.py:563-567 | the backtest sees a row if and only if it lies in the period and its symbol in the pool |
| FrameLaws.RestrictedDays | backend/astock_backtester/engine.py:563-570 | it sees no empty day and none outside the period |
| FrameLaws.CandidatesInRowFields | backend/astock_backtester/engine.py:460-480 | a row is a candidate if and only if the prefilter keeps it, it trades, special treatment and listing age allow it, and all filters and groups pass |
| FrameLaws.GroupInNodes | backend/astock_backtester/conditions.py:530-542 | groups pass by all nodes, by some node, or by a score of at least the threshold |
| FrameLaws.KeptInNodes | backend/astock_backtester/engine.py:173-193 | the prefilter keeps a row if and only if all filter masks and, per group, all or some node masks do; empty and score groups keep every row |
| FrameLaws.NodeMaskInFields | backend/astock_backtester/engine.py:161-170 | a node's mask is its condition's unless the node is disabled or lagged |
| SellRules.LimitsInRowFields | backend/astock_backtester/engine.py:297-320 | an open is near a limit if and only if there is a positive previous close and the open is within 0.01% of 5%, 20% or 10% away from it, by treatment and board; never near both |
| SellRules.DaysHeldAreCounted | backend/astock_backtester/engine.py:634 | the held days are the number of trading days from purchase to today, both included |
| SellRules.DuePositionIsSoldIffNotBlocked | backend/astock_backtester/engine.py:602-673 | a due position stays untouched if and only if sales are blocked at the lower limit and the day opened there; otherwise it is closed that day, at the open or level its reason gives, less slippage, fee and tax |
| SellRules.OtherPositionIsKept | backend/astock_backtester/engine.py:675-683 | a position that is not due stays, and takes the day as its exit signal if and only if an exit rule passes |
| SellRules.UntradedPositionIsKept | backend/astock_backtester/engine.py:603-617 | nothing happens to a position up to its purchase date, without a row, or while suspended |
| SellRules.EveryRunSellsWhatIsDue | backend/astock_backtester/engine.py:601-684 | in every run a due position is open after the day's sales if and only if it was blocked; otherwise it is among the closed trades and its symbol is free |
| BuyRules.CandidateIsBoughtUnlessRefused | backend/astock_backtester/engine.py:725-785 | a candidate is passed over if and only if the book is full, the daily count is used up, the symbol is held, the next day has no row, the row is suspended or at the upper limit, or one lot exceeds the plan; otherwise exactly one trade is added, with the largest number of lots the plan pays for |
| BuyRules.RowDecides | backend/astock_backtester/engine.py:730-785 | with room for a candidate, its next-day row alone decides, and fixes price, shares and amounts |
| BuyRules.BuyingStartsFromEquityPoint | backend/astock_backtester/engine.py:718-721 | buying starts from the book and the equity of the day's equity point |
| BuyRules.EveryRunBuysUnlessRefused | backend/astock_backtester/engine.py:718-787 | in every run each ranked candidate is bought or refused by that rule, in turn |
| BuyRules.BuyingEndsTheDay | backend/astock_backtester/engine.py:718-787 | what buying ends with is the state after the day; a full book buys nothing |
| BuyRules.LastDayBuysNothing | backend/astock_backtester/engine.py:718 | nothing is bought on the last day |
| Fills.ExitFillsExactlyWhenRangeReachesLevel | backend/astock_backtester/engine.py:364-400 | an intraday exit happens exactly when the day's range reaches a level; its price traded that day, is at or beyond the level that fired, is the open if the open is beyond a level, and is the stop when both are reached from between |
| Fills.LotsAreMaximal | backend/astock_backtester/engine.py:760-768 | one more board lot would cost more than the planned amount |
| Fills.PlanIsLargestWithinLimits | backend/astock_backtester/engine.py:537-548 | an amount is within the plan if and only if it is within cash, within the cap and, with equal slots, within an equal share of cash per free slot |
| Fills.LimitsDoNotMeet | backend/astock_backtester/engine.py:297-320 | no open is near both price limits, so a day blocks buying or selling but not both |
| Fills.CostsOnlyCost | backend/astock_backtester/engine.py:323-353 | fees, tax and slippage never improve a round trip, and leave it unchanged exactly when all that apply are zero |
| Fills.EveryFillIsReal | backend/astock_backtester/engine.py:601-787 | in every run each position was bought at the open of the trading day right after a day with its symbol among the candidates, unsuspended and not limit-up blocked; each sale is on a later, unsuspended, unblocked day at a price inside that day's range |
| Ledger.LotsAreAffordable | backend/astock_backtester/engine.py:760-768 | shares are whole lots that cost at most the planned amount |
| Ledger.PurchaseIsSound | backend/astock_backtester/engine.py:537-548 | a purchase is a positive multiple of 100 shares, within its plan, within cash, and within `position_size_pct` of the equity it was sized on |
| Ledger.SellPhaseKeepsLedger | backend/astock_backtester/engine.py:601-682 | selling moves amounts between the open and closed sums and the cash without changing their balance |
| Ledger.BuyPhaseKeepsLedger | backend/astock_backtester/engine.py:718-787 | buying takes from cash what it adds to the open purchases and never overdraws |
| Ledger.LedgerBalancesOnEveryDay | backend/astock_backtester/engine.py:562-800 | on every day of every run cash is initial cash less open purchases plus closed sales less closed purchases, is not negative, and every trade is sound |
| Ledger.CurveHasOnePointPerDay | backend/astock_backtester/engine.py:684-716 | each trading day has exactly one equity point, taken after its sales and before its purchases |
| Ledger.EquityIsInitialCashPlusGains | backend/astock_backtester/engine.py:684-716 | every equity point is initial cash plus closed pnl plus shares times mark less purchases of the open positions, and splits into its cash and its market value |
| Ledger.FinalEquityIsExplainedByReturnedTrades | backend/astock_backtester/engine.py:793-800 | the final equity is explained by exactly the trades the run returns |
| Ledger.BacktestExplainsItself | backend/astock_backtester/engine.py:551-800 | a whole backtest returns one point per trading day of the period, and closed and open trades that explain the last one |
| Discipline.EveryRunIsDisciplined | backend/astock_backtester/engine.py:601-787 | in every run open positions stay within `max_positions`, purchases per signal day within `max_daily_buys`, the four dates of a trade are ordered, and holding periods of one symbol never overlap |
| Discipline.OpenSymbolsAreDistinct | backend/astock_backtester/engine.py:727-729 | two open positions never share a symbol |
| NoLookahead.EvaluationIsCausal | backend/astock_backtester/conditions.py:503-520 | a node's verdict on a row depends on nothing after the row's day |
| NoLookahead.CandidacyIsCausal | backend/astock_backtester/engine.py:141-158 | neither do filters and groups |
| NoLookahead.PrefilterIsCausal | backend/astock_backtester/engine.py:161-193 | neither do the masks |
| NoLookahead.ScanIsCausal | backend/astock_backtester/engine.py:460-487 | a day's candidates are the same in every longer frame |
| NoLookahead.SellDayIsCausal | backend/astock_backtester/engine.py:601-682 | a day's sales read data up to that day only |
| NoLookahead.StepIsCausal | backend/astock_backtester/engine.py:562-790 | a whole day reads at most the next trading day |
| NoLookahead.RunOnPrefix | backend/astock_backtester/engine.py:562-800 | curve and closed trades of a run on cut data are those of the full run after the same number of days |
| NoLookahead.LaterDaysOnlyExtend | backend/astock_backtester/engine.py:562-800 | later days only append to curve and closed trades, and what they append is dated later |
| NoLookahead.EarlierEndYieldsPrefix | backend/astock_backtester/engine.py:562-800 | an earlier `end_date` yields exactly a prefix of the equity curve and the same trades closed up to that day; all further points and sales are dated later |
| NoLookahead.LaterDataYieldsPrefix | backend/astock_backtester/engine.py:562-800 | data from a day on, its effect on indicator columns included, never changes the curve or the closed trades before that day; all further points and sales are dated on that day or later |
| Marking.LastClosesOfRun | backend/astock_backtester/engine.py:789-790 | the close table always holds each seen symbol's latest close and nothing else |
| Marking.PositionsAreMarkedAtLatestClose | backend/astock_backtester/engine.py:521-534 | each valued position is priced at its symbol's latest close on or after its buy date; the `buy_price` fallback is never used |
| Marking.EquityIsNonNegative | backend/astock_backtester/engine.py:684-716 | no equity point of any run is negative |
| Marking.DrawdownMatchesDefinition | backend/astock_backtester/engine.py:705-716 | the streamed drawdown is the fall from the maximum of initial cash and all equities so far |
| Marking.DrawdownInCurveFields | backend/astock_backtester/engine.py:705-716 | each drawdown times the highest of initial cash and equities so far is the equity less that peak |
| Marking.MaxDrawdown | backend/astock_backtester/engine.py:507-518 | the reported maximum drawdown is attained on the curve and is its minimum, zero for an empty curve |
| Marking.DrawdownLiesInRange | backend/astock_backtester/engine.py:705-716 | every drawdown of every run lies in [-1, 0] |
| Holding.HeldBetween | backend/astock_backtester/engine.py:602-682 | the inclusive count from one trading day to another is the difference of their positions plus one |
| Holding.OpenOnlyWhenObstructedOrNotDue | backend/astock_backtester/engine.py:602-682 | a position outlives its holding limit, a touched level or a pending signal only through a day that had no row for it, suspended it or blocked its sale |
| Holding.OpenIsBelowLimit | backend/astock_backtester/engine.py:602-682 | a position that no day obstructed is, if a sell phase leaves it open, below max(`fixed_holding_days`, 2) trade days, and below 3 with a disabled exit rule |
| Holding.ClosedWithinLimit | backend/astock_backtester/engine.py:602-682 | a trade that no day between purchase and sale obstructed closes no later than the day its inclusive count reaches max(`fixed_holding_days`, 2), and 3 with a disabled exit rule |
| Holding.DisabledRuleLeavesTwoDays | backend/astock_backtester/engine.py:602-682 | with a disabled exit rule no unobstructed position is open after the sell phase of its third trading day |
| DisabledNodes.AnyOfIgnoresDisabledIffNone | backend/astock_backtester/conditions.py:503-505 | where one passing node is enough, disabled nodes make no difference on any row if and only if there are none |
| DisabledNodes.ExitRulesIgnoreDisabledIffNone | backend/astock_backtester/conditions.py:503-505 | exit rules signal as without their disabled members on every row if and only if none is disabled, and on a given row if and only if none is disabled or an enabled one signals |
| DisabledNodes.ScoreWithDisabled | backend/astock_backtester/conditions.py:523-542 | on every row the score of a group is that of its enabled nodes plus the weights of all disabled ones |
| DisabledNodes.GroupIgnoresDisabledIffInert | backend/astock_backtester/conditions.py:523-542 | a group passes the same rows without its disabled nodes, for every threshold, if and only if it is an and group, or an or group without any, or a score group in which their weights sum to zero |
| BacktestRun.TradeRecord.ClosePosition | backend/astock_backtester/engine.py:336-353 | filling in the sell side in place turns the trade into the state machine's closed trade and returns its proceeds |
| BacktestRun.SellOne | backend/astock_backtester/engine.py:602-682 | one iteration over an open position does what the state machine's sell phase does to that trade |
| BacktestRun.SellAll | backend/astock_backtester/engine.py:601-682 | the loop refines the sell phase on every book of distinct records |
| BacktestRun.ScanEntryCandidates | backend/astock_backtester/engine.py:460-487 | the scanning loop returns the day's candidates in frame order |
| BacktestRun.MarkToMarket | backend/astock_backtester/engine.py:521-534 | the summing loop returns the market value of the book |
| BacktestRun.TryBuy | backend/astock_backtester/engine.py:732-787 | a candidate either leaves the book as it is or adds one open trade, paid from cash and added to market value and equity |
| BacktestRun.FullBookBuysNothing | backend/astock_backtester/engine.py:718-731 | leaving the loop once slots or the daily limit are used up skips no purchase |
| BacktestRun.BuyAll | backend/astock_backtester/engine.py:718-787 | the loop with its early exits refines the buy phase |
| BacktestRun.RecordCloses | backend/astock_backtester/engine.py:789-790 | the update loop yields the state machine's close table |
| BacktestRun.RunDay | backend/astock_backtester/engine.py:601-790 | the body of the outer loop is one step of the state machine, over records that stay distinct |
| BacktestRun.RunBacktest | backend/astock_backtester/engine.py:562-800 | the whole loop ends in the state of the state machine after all days |
| StrategyNames.DecimalIsInjective | frontend/src/savedStrategies.ts:131-141 | different numbers have different decimal texts |
| StrategyNames.SuffixesCount | frontend/src/savedStrategies.ts:131-141 | a base name and its first n suffixed names are n + 1 different names |
| StrategyNames.SearchIsBounded | frontend/src/savedStrategies.ts:131-141 | the search never passes number \|existing\| + 1 |
| StrategyNames.UniqueSavedStrategyName | frontend/src/savedStrategies.ts:131-141 | the loop stops, and returns an unused name: the base if it is free, else the first free number |
| StrategyNames.UniqueNameInFields | frontend/src/savedStrategies.ts:131-141 | a free base is taken as it is, else with the least number from two on that is free |
| StrategyNames.SuffixInFields | frontend/src/savedStrategies.ts:137-140 | the number stands behind the base in full-width parentheses |
| StrategyNames.NormalizedInFields | frontend/src/savedStrategies.ts:132 | the base is the name without outer white space, or the default where nothing else is left |
| StrategyNames.NumeralRoundTrip | frontend/src/savedStrategies.ts:137-140 | the numeral of a number reads back as it, without leading zeros |
| StrategyArray.UpsertInPlace | src-tauri/src/commands.rs:319-341 | the in-place edit replaces the first entry with the id, or inserts in front |
| StrategyArray.RetainOthers | src-tauri/src/commands.rs:343-359 | the retaining loop removes exactly the entries with the id and keeps the order |
| StrategyArray.UpsertedInPlaces | src-tauri/src/commands.rs:329-337 | a known id keeps its first place and all other entries theirs; a new preset stands in front |
| StrategyArray.WithoutOfConcat | src-tauri/src/commands.rs:353 | removal keeps the order of what is left |
| StrategyArray.UpsertKeepsIdsUnique | src-tauri/src/commands.rs:319-341 | ids that are distinct stay distinct after an upsert |
| StrategyArray.WithoutKeepsIdsUnique | src-tauri/src/commands.rs:343-359 | and after a delete |
| StrategyArray.DeleteUndoesUpsert | src-tauri/src/commands.rs:319-359 | deleting a new id directly after its upsert restores the list |
| StoreReports.NewLoadIsNewest | frontend/src/savedStrategyStore.ts:143-147 | in every run a load that is issued gets an id above every load in flight |
| StoreReports.OutdatedLoadChangesNothing | frontend/src/savedStrategyStore.ts:143-168 | a load once outdated, by a newer load or a mutation, changes nothing whenever it comes in, delivered or failed |
| StoreReports.CompletionOutdatesLoads | frontend/src/savedStrategyStore.ts:181-188 | a completed mutation shows its result, makes the store ready and outdates every load in flight |
| StoreReports.LoadingHasALoad | frontend/src/savedStrategyStore.ts:111-168 | the store is loading only before its first load or while the load that counts is in flight |
| StoreReports.LoadThatCountsAnswers | frontend/src/savedStrategyStore.ts:152-167 | the load that counts makes the store ready with the built-in presets and what it read, or failed with its list unchanged |
| StoreReports.IssuedLoadShows | frontend/src/savedStrategyStore.ts:111-151 | a reload shows loading and forgets the error, a refresh shows neither, and both keep the list |
| StoreReports.ErrorIffFailed | frontend/src/savedStrategyStore.ts:143-188 | in every run an error is shown exactly while the store has failed |
| StoreReports.RefusedIffNotReadyAtCheck | frontend/src/savedStrategyStore.ts:209-239 | in every run a mutation is refused as not ready if and only if the store is not ready at its check; otherwise it goes on to its backend call |
| StoreReports.QueueNeverSticks | frontend/src/savedStrategyStore.ts:170-202 | while a mutation waits or runs, some step is possible that needs no new event |
| StoreReports.AnythingMayHappen | frontend/src/savedStrategyStore.ts:111-253 | the model lets loads be asked for and mutations be submitted at any time, issued loads be read or fail, and backend calls succeed or be rejected |
| StoreReports.RemovedNameInFields | frontend/src/savedStrategyStore.ts:240-247 | a removal reports the name of the first preset shown under the id, or none |
| StoreRun.Perform | frontend/src/savedStrategyStore.ts:111-253 | the methods of the controller object carry out each event exactly as the protocol says |
| StoreRun.Play | frontend/src/savedStrategyStore.ts:111-253 | a new controller object driven through any possible sequence of events ends in the protocol's state |
| SavedStrategyStore.BrowserEditsTheStoredList | frontend/src/savedStrategies.ts:285-346 | the browser's edit of the shown list stores the same list as the same edit of the stored one |
| SavedStrategyStore.StepKeepsInvariant | frontend/src/savedStrategyStore.ts:111-253 | every step of every interleaving keeps: the installed or pending lists of current loads and mutations show the stored list |
| SavedStrategyStore.StoreAgreesWithDisk | frontend/src/savedStrategyStore.ts:143-253 | whenever the store is ready and no mutation lies between its disk write and its completion, the non-built-in part of the shown list is the stored list |
| SavedStrategyStore.NoEditIsLost | frontend/src/savedStrategyStore.ts:209-253 | over every interleaving the stored list is the initial one with all logged edits applied, also where the browser computes it from the list it shows |
| StoreReports.ReportedEditsAreStored | frontend/src/savedStrategyStore.ts:190-253 | over every interleaving a mutation is reported as done if and only if it is in the log, once and in order of submission; refused and rejected ones are not; each logged edit is what was submitted and reported; the disk is the initial list with the log applied; the pending counter is exact |
| StoreReports.SavedStaysUntilRemoved | frontend/src/savedStrategyStore.ts:209-226 | a save reported as done is on disk, with its strategy and date and under the reported name, made from its own, until a later mutation removes its id |
| StoreReports.RemovedStaysAway | frontend/src/savedStrategyStore.ts:229-253 | after a removal reported as done nothing is stored under the id unless a later mutation puts it back |
| StoreReports.LastEditDecides | frontend/src/savedStrategies.ts:301-334 | the last logged edit of an id decides what the disk holds for it |
| SavedStrategyStore.NamesStayUnique | frontend/src/savedStrategyStore.ts:209-226 | names that start distinct stay distinct over every run with one writer |
| StrategyFile.StrategyFile.Upsert | src-tauri/src/commands.rs:319-341 | a valid upsert on a readable file stores and returns the edited list; otherwise the file is untouched and the caller gets an error |
| StrategyFile.StrategyFile.Delete | src-tauri/src/commands.rs:343-359 | a delete writes only if it removes something, and returns the list without the id either way |
| StrategyFile.SameLengthMeansSame | src-tauri/src/commands.rs:353-357 | skipping the write when the length is unchanged is sound |
| StrategyFile.StepKeepsInvariant | src-tauri/src/commands.rs:211-359 | every step of every worker, and every crash, keeps the locks exclusive and the file the replay of the log |
| StrategyFile.EditsAreSerial | src-tauri/src/commands.rs:319-359 | concurrent edits equal the logged serial order; each successful caller got the list as it stood right after its own edit; failed edits took no part |
| StrategyFile.EachStepKeepsOrCommits | src-tauri/src/commands.rs:258-308 | every step leaves the file alone or replaces it by the complete result of one accepted request |
| StrategyFile.ReadersSeeCompleteFiles | src-tauri/src/commands.rs:258-308 | in every run, crashes included, the path holds the initial file or the complete array of the logged requests, never part of a temporary file; a readable file stays readable |
| StrategyFile.LeftoversAreFailures | src-tauri/src/commands.rs:281-307 | a temporary file is left behind only by a write that failed or crashed |
| StrategyFile.LogOnlyGrows | src-tauri/src/commands.rs:211-239 | what is in the serial order keeps its place |
| StrategyFile.FinishedEditsComeFirst | src-tauri/src/commands.rs:211-239 | an edit that succeeded before another one started comes before it in every later serial order |
| StrategyFile.UnreadableFileIsNeverTouched | src-tauri/src/commands.rs:100-112 | a file that does not parse or validate is never overwritten |
| StrategyFile.IdsStayUnique | src-tauri/src/commands.rs:319-359 | ids that start distinct stay distinct under any number of concurrent edits |
| StrategyFileProgress.AcceptsInFields | src-tauri/src/commands.rs:100-112 | a request is accepted if and only if the file is absent or an array of valid entries and the preset to store is valid |
| StrategyFileProgress.EffectInFields | src-tauri/src/commands.rs:319-359 | removing an unknown id leaves the file, even an absent one; every other accepted request stores the edited list |
| StrategyFileProgress.NoErrorWithoutCause | src-tauri/src/commands.rs:258-359 | over every behaviour without a failing disk write, on a readable file and with valid presets, every request that ends succeeds |
| StrategyFileProgress.AnythingMayFail | src-tauri/src/commands.rs:281-308 | the model lets a process crash at any time and a write fail until it is renamed |
| StrategyFileProgress.SomeWorkerGoesOn | src-tauri/src/commands.rs:211-239 | in every world in which a worker is not done, some worker can take a step: the two kinds of lock never block each other |
| StrategyFileProgress.StepsRunOut | src-tauri/src/commands.rs:258-359 | each step brings its worker nearer to its end and moves no other |
| AgentHistory.RepairIsCompleteIffUnansweredIdsFresh | backend/astock_backtester/ai/agent.py:205-247 | after repair every call is answered directly behind its message if and only if no unanswered call reuses an earlier id |
| AgentHistory.ReusedIdIsNotRepaired | backend/astock_backtester/ai/agent.py:229-233 | a concrete history with a reused id that repair leaves invalid |
| AgentHistory.RepairIsIdempotent | backend/astock_backtester/ai/agent.py:205-247 | repairing a repaired history changes nothing |
| AgentHistory.RepairKeepsMessages | backend/astock_backtester/ai/agent.py:205-247 | the original messages are a subsequence of the repaired ones |
| AgentHistory.RepairKeepsBelonging | backend/astock_backtester/ai/agent.py:205-247 | repair adds no result that belongs to no call, and hides none |
| AgentHistory.RepairLeavesAnsweredAlone | backend/astock_backtester/ai/agent.py:205-247 | a history without unanswered calls is not changed |
| AgentHistory.RepairedBlock | backend/astock_backtester/ai/agent.py:219-244 | each message with calls keeps its results, and the placeholders stand directly behind them |
| AgentHistory.PlaceholdersInOrder | backend/astock_backtester/ai/agent.py:232-244 | placeholders follow the order of the calls |
| AgentHistory.PlaceholderOfOne | backend/astock_backtester/ai/agent.py:232-244 | an unanswered call gets one result under its id that names its tool |
| AgentHistory.OnePlaceholderEach | backend/astock_backtester/ai/agent.py:232-244 | when the ids of a message's calls differ, each unanswered one gets exactly one placeholder |
| AgentSession.Session.RepairInterruptedTurn | backend/astock_backtester/ai/agent.py:205-247 | the index-driven scan leaves exactly the repaired history |
| AgentSession.ConcatSplits | backend/astock_backtester/ai/agent.py:273-316 | a history cut before a message that is no result is valid exactly when both parts are |
| AgentSession.FindCut | backend/astock_backtester/ai/agent.py:279-301 | the two overflow computations and the boundary scan find the specified cut |
| AgentSession.ArchiveMeetsBudgetsIffNewestFits | backend/astock_backtester/ai/agent.py:273-301 | with a user message newest, the window meets 24 messages and 36,000 characters if and only if that message fits; every cut is at a user message |
| AgentSession.ArchiveCutsNoMoreThanNeeded | backend/astock_backtester/ai/agent.py:279-301 | no earlier user message, and not the beginning, would have met both budgets |
| AgentSession.OverflowIsLeast | backend/astock_backtester/ai/agent.py:279-289 | the overflow is the least number of dropped messages that meets both budgets |
| AgentSession.CutIsNextUserOrOverflow | backend/astock_backtester/ai/agent.py:292-301 | the cut is the next user message from there on, else the overflow itself, and never everything |
| AgentSession.EntriesInOrder | backend/astock_backtester/ai/agent.py:304-310 | the archive gets one entry per dropped message, in order, with its role, its text and the names of its calls |
| AgentSession.Trimmed | backend/astock_backtester/ai/agent.py:311-315 | the archive holds at most 400 entries: all of them, or one note and the newest 399 |
| AgentSession.Session.ArchiveOverflow | backend/astock_backtester/ai/agent.py:273-316 | the window becomes a suffix and the dropped messages are the archive's new entries, in order |
| AgentRuns.StepKeepsInvariant | backend/astock_backtester/ai/agent.py:59-195 | each step of a run, and stopping after it, keeps the history sound and the archive within 400 entries, given that repair applies |
| AgentRuns.RunsMayStopAnywhere | backend/astock_backtester/ai/agent.py:59-195 | the model lets a run stop after every step, which changes no message |
| AgentRuns.EveryRequestIsValid | backend/astock_backtester/ai/agent.py:69-130 | every request of every sequence of runs, stopped anywhere, is protocol-valid and opens with a user message, if each repair finds only unanswered ids that are new |
| AgentRuns.EveryRequestOfASessionIsValid | backend/astock_backtester/ai/agent.py:69-130 | the same for every session from its creation |
| AgentRuns.UninterruptedOrFreshIdsSuffice | backend/astock_backtester/ai/agent.py:69-130 | from its creation every request of a session is valid if no run is stopped between a call and its result, whatever ids are used, or if every call has an id the history does not hold |
| AgentRuns.FreshIdsMakeRepairApply | backend/astock_backtester/ai/agent.py:205-247 | new ids for all calls make every repair of every sequence of runs complete |
| AgentRuns.EveryWindowMeetsBudgets | backend/astock_backtester/ai/agent.py:273-301 | over every sequence of runs whose questions fit the character budget, the window after each archiving has at most 24 messages and 36,000 characters (a question is at most 4,000 characters and an attached context cut to 3,000, so all questions fit) |
| AgentRuns.SuffixAtUserIsValid | backend/astock_backtester/ai/agent.py:292-303 | a cut at a user message splits no call from its results |
| AgentRuns.ExecuteToolCalls | backend/astock_backtester/ai/agent.py:133-195 | the loop appends one result per call, in order, until a tool raises |
| AgentRuns.Run | backend/astock_backtester/ai/agent.py:59-130 | one run performs exactly the steps of the state machine; its first request is an end of the repaired history with the question behind it, each further one adds a reply and its results, it asks again exactly while replies call tools that all return and the budget lasts, and it ends with the last reply or the closing answer |
| AgentRuns.Prepare | backend/astock_backtester/ai/agent.py:69-86 | repair, question, archive and summary in place leave the state the machine is in before the first model call |
| AgentRuns.Converse | backend/astock_backtester/ai/agent.py:89-130 | the loop of model calls performs the machine's rounds and sends its requests |
| AgentRuns.TurnIsTold | backend/astock_backtester/ai/agent.py:69-130 | the same of the steps themselves, and what was dropped from the window is in the archive unless it was summarised |
| AnthropicWire.TranslationGroupsBlocks | backend/astock_backtester/ai/llm_client.py:153-176 | roles alternate, the blocks of the translation are those of the history in order and under the same role, and it is their grouping by role |
| AnthropicWire.CanonicalIsGrouped | backend/astock_backtester/ai/llm_client.py:153-176 | a translation with alternating roles and no empty message is determined by its blocks |
| AnthropicWire.UseInFields | backend/astock_backtester/ai/llm_client.py:143-149 | a call is sent with its id, its name and its decoded arguments, an empty object where they do not decode |
| AnthropicWire.BlocksInFields | backend/astock_backtester/ai/llm_client.py:135-150 | the blocks of a result, a question and an answer in the fields of the message |
| AnthropicWire.BlocksStandInOrder | backend/astock_backtester/ai/llm_client.py:153-176 | the blocks of every message stand together under its role, between those of the messages before and after it |
| AnthropicWire.TranslateConcat | backend/astock_backtester/ai/llm_client.py:160-175 | translating a concatenation is joining the translations |
| AnthropicWire.TranslationKeepsPairing | backend/astock_backtester/ai/llm_client.py:135-176 | from every valid history each wire message holds results for exactly the calls of the one before it |
| AnthropicWire.CallsAreAnsweredByNextMessage | backend/astock_backtester/ai/llm_client.py:135-176 | a message with `tool_use` blocks is the assistant's, and the next is a user message with a `tool_result` for each of those ids and no other |
| AnthropicWire.EveryRequestIsPairedOnTheWire | backend/astock_backtester/ai/llm_client.py:153-176 | so is every request of every sequence of agent runs |
| AnthropicWire.QuestionComesFirst | backend/astock_backtester/ai/llm_client.py:135-150 | a history that opens with a non-empty user message is sent with that text first, as the user |
| AnthropicWire.AnthropicMessages | backend/astock_backtester/ai/llm_client.py:153-176 | the append-or-extend loop yields the translation, and the system parts that are not empty joined by blank lines |
| AnthropicWire.EntriesAreSplit | backend/astock_backtester/ai/llm_client.py:160-165 | messages and system parts keep their order and are told apart by their kind |
| AnthropicWire.PartsAreJoined | backend/astock_backtester/ai/llm_client.py:176 | system parts are joined by blank lines, and empty ones leave none behind |
| AnthropicWire.AnthropicContent | backend/astock_backtester/ai/llm_client.py:135-150 | the blocks of one message: a result, or its text and then its calls in order, with an empty object for arguments that do not decode |
| SessionLocks.EvictDropsOnlyIdle | backend/astock_backtester/ai/facade.py:236-243 | eviction removes no entry that is referenced and invents none |
| SessionLocks.EvictIsThorough | backend/astock_backtester/ai/facade.py:236-243 | eviction makes room for one entry, or leaves only referenced entries |
| SessionLocks.EvictTakesOldestIdle | backend/astock_backtester/ai/facade.py:236-243 | eviction takes idle entries from the oldest on and stops as soon as enough are gone |
| SessionLocks.LookupEvictsOnlyAtLimit | backend/astock_backtester/ai/facade.py:225-247 | a known key changes one count and nothing else; below 512 entries nothing is evicted, and at the limit no more than needed |
| SessionLocks.StepKeepsInvariant | backend/astock_backtester/ai/facade.py:225-374 | every lookup, acquisition, timeout, start, failure, close, worker end and reference drop keeps refs equal to outstanding users and each lock owned by at most one request |
| SessionLocks.InvariantHoldsInEveryRun | backend/astock_backtester/ai/facade.py:225-374 | so it holds in every interleaving of any number of requests |
| SessionLocks.LiveEntryIsUniqueAndInTable | backend/astock_backtester/ai/facade.py:44-66 | a key has at most one entry with positive refs, and a lookup finds it |
| SessionLocks.AtMostOneWorkerPerKey | backend/astock_backtester/ai/facade.py:249-374 | no two workers run under one lock key, whatever was evicted meanwhile |
| SessionLocks.OnlyHeldLocksAreReleased | backend/astock_backtester/ai/facade.py:272-283 | a release only ever unlocks a locked lock, by the request that holds it |
| SessionLocks.NothingIsLeaked | backend/astock_backtester/ai/facade.py:261-374 | once all requests are over, each acquired lock was released exactly once, none is locked and no reference is outstanding |
| SessionLocks.AnythingMayHappen | backend/astock_backtester/ai/facade.py:225-374 | the model lets requests look up, give up, take a free lock, fail, be closed and end in every order |
| SessionLocks.LockedLockHasOwner | backend/astock_backtester/ai/facade.py:261-374 | a locked lock has a request that owns it |
| SessionLocks.InsertionBoundsTable | backend/astock_backtester/ai/facade.py:225-247 | after an insertion the table has at most 512 entries or only referenced ones |
| SessionLocks.LockTable.SessionLock | backend/astock_backtester/ai/facade.py:225-247 | the lookup returns the key's entry with one more reference, or a new one after evicting idle entries, and changes no other entry |
| SessionLocks.LockTable.EvictIdle | backend/astock_backtester/ai/facade.py:236-243 | the scan removes the oldest idle entries and stops as soon as there is room |
| SessionLocks.LockTable.DropRef | backend/astock_backtester/ai/facade.py:261-270 | dropping takes one reference, never below zero, and leaves the lock alone |
| Insights.DropOldDropsExpired | backend/astock_backtester/ai/insights.py:165-169 | the popping loop removes only times over an hour old and stops at the first younger one |
| Insights.StepKeepsInvariant | backend/astock_backtester/ai/insights.py:165-214 | every attempt keeps the recorded times the recent part of the publications and the signatures the latest per subject |
| Insights.LimitsHoldInEveryRun | backend/astock_backtester/ai/insights.py:165-214 | with a fixed cap and a clock that never goes back, no closed 3600-second window holds more publications than the cap, and a subject recurs no sooner than 7200 seconds |
| Insights.PublishesIffWithinLimits | backend/astock_backtester/ai/insights.py:171-193 | an attempt with text is published if and only if the last hour holds fewer publications than the cap and its subject was not signed within 7200 seconds |
| Insights.InsightEngine.CapReached | backend/astock_backtester/ai/insights.py:165-169 | the check drops the expired times and reports whether the rest reach the cap |
| Insights.InsightEngine.PruneSignatures | backend/astock_backtester/ai/insights.py:211-214 | pruning keeps exactly the signatures inside the window |
| Insights.InsightEngine.MaybeGenerate | backend/astock_backtester/ai/insights.py:171-195 | one attempt publishes, and changes the state, exactly as the specification of an attempt says |

## Left out

- Candidate scoring and ranking (backend/astock_backtester/engine.py:203-275, 427-436): the ranking is an arbitrary function of the day's candidate rows, so all results hold for any ranking, the tie-break hash included.
- Float rounding, infinities and quotients by zero: prices and cash are exact reals; a quotient without a finite value reads as missing.
- Reason strings, observed values, blocked-trade records, daily match lists and progress events: output for people.
- Preflight and missing required columns: the source raises; here an absent column reads as missing. Unregistered condition ids and windows below one are not representable.
- Metrics other than the maximum drawdown.
- Sorting and grouping by pandas, and duplicate rows of one symbol and date: the model starts from the grouped frame.
- Coercion of parameters with `int()` and `float()`: the model takes them as numbers.
- A write that the backend rejects is assumed to leave the disk unchanged; `StrategyFile` proves this of the desktop backend.
- SavedStrategyStore.StoreAgreesWithDisk: one writer; a second process that edits the file between two loads is the subject of `StrategyFile` alone.
- SavedStrategyStore.NamesStayUnique: one writer, for the same reason; a new preset's random id is an input.
- Listeners, the cached snapshot object, error texts and the normalisation of unknown JSON in the front end.
- JSON parsing and the shape checks of src-tauri/src/commands.rs:116-202: whether an entry is valid is an arbitrary predicate, and a file is an array, garbage or absent.
- A loss of power, after which synced data may still be missing: a crash in `StrategyFile` ends a process.
- Mutex poisoning and failures to open or lock the lock file: the caller gets an error before any step of the model.
- AgentRuns.EveryRequestIsValid: assumes that each repair finds only unanswered calls with ids that are new in the current history; `AgentHistory.ReusedIdIsNotRepaired` shows why. The cut to the last 400 messages when a session is saved (backend/astock_backtester/ai/sessions.py:74-76) is not modelled, so histories are within that size.
- Consolidation of the archive: the model call may only empty the archive; when it is due and what the summary says are inputs. The display list, artifacts and prompts are left out.
- The JSON decoder of tool arguments is an arbitrary function that may fail.
- SessionLocks.AtMostOneWorkerPerKey: exclusion per lock key. A request for a session id that is not on disk holds the lock of the requested id while a new session is created (backend/astock_backtester/ai/facade.py:284-296).
- Insights.LimitsHoldInEveryRun: attempts come one after the other, and a publication's time is the clock reading at which it is recorded.
- The service, crawlers, user interface, condition parser, optimiser, memory and calendar tables: plumbing or data.
