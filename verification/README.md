# Verified model of the trading system's ledgers, statistics and control plane

This project models, in Dafny, the parts of the system whose correctness depends on more than one function, and
proves what they keep over whole runs. `dafny verify dfyconfig.toml` checks all of it.

Amounts are exact: `Decimal` and `float` are modelled by `real`, and a square root is any function that returns the
non-negative root. Objects whose methods update fields are classes; each method is proved equal to a function of the
old state, and the theorems are about that function and about runs of it. Runs are recursive on their last step, so
"every run" and "every reachable state" are statements about lists of calls. Time is an input.

| files | what they model |
|---|---|
| `Backtest`, `BacktestEngine`, `BacktestDecisions`, `BacktestLedgers`, `BacktestTiming` | the backtest event loop, its portfolio, its attribution ledger and its traces |
| `FactorDicts`, `Attribution` | ordered dictionaries of factors and the attribution of profit to them |
| `FillLedger`, `PortfolioManager`, `LedgerConservation`, `LedgerValuation` | the signed position ledger of live fills and the profit read back from it |
| `RealSums`, `InformationCoefficient`, `FactorWeights`, `LeastSquares`, `Drawdown` | weighted correlation, factor weights, regression, drawdown |
| `SystemModes`, `TradingGate`, `StateService`, `Recovery`, `Breakers` | the degradation control plane: modes, permissions, staged recovery, circuit breakers |
| `DbBuffer` | the write buffer and its write-ahead log across crashes |
| `PaperBroker` | order coroutines interleaved with submissions and cancellations |
| `AuditChain` | hash chains of audit events: appending against verifying |
| `GlobPermissions` | globs compiled to regular-expression text, and what the text matches |

In the backtest one symbol is traded and quantities are not negative. A strategy is an arbitrary function from
everything it has been shown so far to the signals it emits, so the backtest theorems hold for every deterministic
strategy. In the paper broker a coroutine step is atomic between two awaits; its random numbers, and whether the
callback raises, are inputs.

## Where the code and its documentation differ

The model follows the code; each point is a theorem or a concrete counterexample below.

- The portfolio is documented never to overdraw its cash. A purchase is checked before slippage and can overdraw it by
  up to the slippage (`BuyOverdraw`, `CashCanGoNegative`); a sale's commission is not checked at all (`SellOverdraw`,
  `SaleCanOverdraw`). `CashNonNegativeIff` says exactly which runs keep the promise.
- The attribution of a trade sums to its profit except when there is no factor to credit (`AttributionSumsIff`), and a
  factor called "total" loses its own figure in the summary (`SummaryMeans`, `SaleUnderTotalIsLost`);
  `AttributionIsProfit` gives the exact shortfall of both.
- Reported realised profit covers the newest hundred transactions only (`RealizedPnlUpToLimit`).
- A fill that names no strategy closes a strategy's position without crediting it
  (`StrategylessCloseLeavesTheStrategy`); by exactly how much the strategy's books are then apart is `RunDrifts`.
- The paper broker keeps one fill callback: a later subscriber replaces an earlier one, which from then on misses every
  fill (`SubscriberSeesAllIff`, `LaterSubscriberTakesOver`). A callback that raises on a partial fill ends the order's
  coroutine, and nothing else does before it is filled or cancelled (`DiedIff`); the order is then unfilled for good
  (`DeathIsFinal`, with the concrete run `RaisingCallbackStrands`).
- Maximum drawdown is compared with the running peak only, which on curves below zero can miss the largest fraction
  (`NegativeEquityBreaksTheMaximum`); `OnePassIsMaxIff` says on exactly which curves it does not.
- A breaker that is only unstable is documented not to change the mode; its event carries the trip reason and does
  (`UnstableEventKeepsModeIff`). Halt is documented to need a person; a recovered breaker ends it
  (`RecoveredEventEndsAnyMode`). A failure during recovery can open what the recovery stage denied
  (`FailuresRestrictIff`, `DegradedGrantsMoreThanRecovering`).
- A forced move to Recovering without a stage raises after the mode has changed (`StepConsistentIff`,
  `ForcedRecoveryStrands`), and an abort's own override holds up the next recovery (`AbortBlocksRestart`). A recovery
  completed while the override that forced it is still live is over without leaving Recovering (`FullRecovery`).
- Restoring the write-ahead log ignores the buffer's limits (`RestoreIgnoresLimits`). `LimitsHoldIff` says exactly when
  they hold in a run: when they did after start-up, or something was flushed since.
- Audit rows as the queries return them lack the name that the checksum asks for, and their timestamps are `datetime`
  values that JSON cannot encode. So the repository's own integrity check raises on every chain of such rows, and it
  would reject every chain that has a row even if it could encode them (`FetchedRowsVerifyIffNone`,
  `IntegrityCheckPassesIff`).
- A permission pattern also matches its resource followed by one newline, and `**` stops at newlines
  (`PatternMatchesIff`, `NewlinesBreakTheGlob`).
- The permission module's heading says that researchers and operators write nothing; the table grants both writes
  (`DefaultWrites`).

## Main results

| about | theorems |
|---|---|
| backtest decisions | `SignalFillsIff`, `StrategySees`, `TracesShowThePortfolio`, `WarmupIsNewest` |
| backtest money | `MoneyIsConserved`, `AttributionIsProfit`, `CashNonNegativeIff` |
| backtest time | `NoLookAhead`, `FillsFollowSignals` |
| attribution | `AttributionSumsIff` with `AttributionIsProportional`, which together fix every figure; `SummaryMeans` |
| live ledger | `SettlesByUnits`, `SplitFillAgrees`, `RecordKeepsBalanceIff`, `RunDrifts`, `TotalProfitIsValueLessCash`, `ContractsAreShares`, `QuotesRevalue` |
| statistics | `IcIsPearson`, `EwmaIcIsPearson`, `IcPerfectIffAffine`, `EwmaIcPerfectIffAffine`, `WeightsFromHistoryTotal`, `OlsIsLeastSquares`, `OnePassIsMaxIff` |
| modes and recovery | `RunConsistentIff`, `OnlyQueryingUntilStageCall`, `OverrideHoldsUntilExpiry`, `FailuresAllowIff`, `FailuresRestrictIff`, `FullRecovery`, `SupersededIdStaysDead` |
| breakers | `LevelClosedForm`, `EventsFormCycles` |
| write buffer | `HoldsAllIffFits`, `RestartRebuildsMemory`, `CrashesAreInvisible`, `LimitsHoldIff` |
| paper broker | `RunConsistent`, `OrdersAreSubmissions`, `CancelIsFinal`, `UncancelledOrderFills`, `DiedIff`, `SubscriberSeesAllIff` |
| audit log | `PersistedChainsIntact`, `ReportedIffTrue`, `HeadDeterminesChain`, `HeadVouchesForEvents`, `IntegrityCheckPassesIff` |
| permissions | `RegexTextByTokens`, `PatternMatchesIff`, `DefaultReads` |

The other rows below are the operations these are about, what follows from them, and their counterexamples; the single
steps they are built from are listed after the table.

## Model

| member | source | states |
|---|---|---|
| BacktestEngines.Run | backend/src/backtest/engine.py:46-335 | The whole run: the loop over bars, with its mutable portfolio, entry ledger and traces, computes exactly the step-by-step function that the theorems below are about, or raises when warm-up data is short. |
| BacktestEngines.BacktestRun.ProcessBar | backend/src/backtest/engine.py:124-255 | One pass of the loop's body: try the pending signal at the open, show the strategy the close, keep its first signal, record equity in the backtest phase. |
| BacktestEngines.BacktestRun.ExecutePendingSignal | backend/src/backtest/engine.py:127-223 | A pending signal is tried once, in the backtest phase only; a fill completes its trace, and the signal is cleared either way. |
| BacktestEngines.BacktestRun.ExecuteBuy | backend/src/backtest/engine.py:131-170 | Checks cash at the open, then moves portfolio, trades and entry ledger (average cost, averaged factor scores, commission) together; a refused purchase changes nothing. |
| BacktestEngines.BacktestRun.ExecuteSell | backend/src/backtest/engine.py:171-208 | Books the sale, attributes its profit after pro-rated entry commission, and closes the entry when nothing is left. |
| BacktestEngines.BacktestPortfolio.ApplyTrade | backend/src/backtest/portfolio.py:78-125 | Cash, quantity and average cost after a trade; nothing else changes. |
| BacktestEngines.AverageFactors | backend/src/backtest/engine.py:162-168 | The loop over a lot's scores averages each named factor by quantity and leaves the others. |
| BacktestEngines.AddUnrealized | backend/src/backtest/engine.py:286-310 | The final loop adds the attribution of the open profit to the summary, and to "total" where there is one. |
| BacktestDecisions.SignalFillsIff | backend/src/backtest/engine.py:127-223 | At every bar of every run a trade happens if and only if a signal is due - the first one of the last bar that emitted any, with only warm-up bars since -, the bar is in the backtest phase, and cash covers open times quantity and commission (a purchase, scale-ins included) or the shares are held (a sale). The trade then carries the signal's side, quantity, scores and time at the open worsened by the basis points, cash and shares move by exactly that, and at any other bar nothing moves. |
| BacktestDecisions.StrategySees | backend/src/backtest/engine.py:224-232 | The strategy is shown every bar once, in order, at its close, with the position as it stands after that bar's fill. |
| BacktestDecisions.TracesShowThePortfolio | backend/src/backtest/trace_builder.py:30-102 | Every trace of a run tells the first signal of its bar and the cash, position and equity at that bar. |
| BacktestDecisions.FirstSignalIsFirst | backend/src/backtest/engine.py:229-235 | The first signal bar is the first bar at which the strategy emitted anything. |
| BacktestDecisions.EquityRecorded | backend/src/backtest/engine.py:252-255 | The equity curve gets cash plus shares at the close of exactly the bars of the backtest phase, after their fills. |
| BacktestDecisions.WarmupIsNewest | backend/src/backtest/engine.py:60-122 | On data in order of time a run happens exactly when enough bars precede the start, and then on everything from the last needed warm-up bar on; otherwise the error tells both counts. |
| BacktestDecisions.ScoresAreAveraged | backend/src/backtest/engine.py:162-168 | Scaling in averages each score of the new lot by quantity, a new name counting as zero so far, and leaves the others. |
| BacktestLedgers.MoneyIsConserved | backend/src/backtest/engine.py:124-208 | After every bar of every run the portfolio and the entry ledger agree on quantity and on average cost of what is held; both agree with an independent replay of the trades; cash plus cost plus open commission is initial capital plus realised profit. |
| BacktestLedgers.AttributionIsProfit | backend/src/backtest/engine.py:280-319 | For every run: the final summary, without "total", sums to final equity less initial capital plus the entry commission on shares still held, less exactly the profit of shares bought without naming any factor (nothing when every purchase names one), less exactly what a factor called "total" was attributed (nothing when no purchase names it); and what "total" shows where present. |
| BacktestLedgers.EveryProfitIsCredited | backend/src/backtest/engine.py:178-208 | After every bar of every run the attributions of all trades sum to the realised profit of the independent replay, less that of sales made while no factor had been named. |
| BacktestLedgers.UnrealizedIsCredited | backend/src/backtest/engine.py:286-310 | Adding the open profit raises the sum over factors by exactly that profit, or by nothing when no factor was named, less what goes to a factor called "total", which "total" then counts twice. |
| BacktestLedgers.SaleUnderTotalIsLost | backend/src/backtest/attribution.py:165-182 | A single sale whose only factor is called "total": its whole profit is missing from the sum over the factors. |
| BacktestLedgers.BuyOverdraw | backend/src/backtest/portfolio.py:53-65 | Cash after a purchase is at least minus slippage times quantity, and is non-negative exactly when the same check at the fill price would have passed. |
| BacktestLedgers.CashCanGoNegative | backend/src/backtest/portfolio.py:11-14 | A concrete purchase that breaks the documented "cash >= 0". |
| BacktestLedgers.SellOverdraw | backend/src/backtest/portfolio.py:116-125 | Cash after a sale is non-negative exactly when cash and proceeds cover the commission, which nothing checks. |
| BacktestLedgers.SaleCanOverdraw | backend/src/backtest/portfolio.py:116-125 | A concrete purchase and sale without slippage after which cash is negative. |
| BacktestLedgers.CashNonNegativeIff | backend/src/backtest/portfolio.py:11-14 | The documented "cash >= 0" holds throughout a run if and only if capital is not negative and every trade of the run is paid for at its fill price. |
| BacktestLedgers.CashStaysNonNegative | backend/src/backtest/portfolio.py:11-14 | A corollary of `CashNonNegativeIff`: with zero slippage, non-negative capital and opens no lower than the commission per share, cash is non-negative throughout every run. |
| BacktestTiming.NoLookAhead | backend/src/backtest/engine.py:28-33 | For every strategy: two data sets that agree up to some bar after the warm-up give identical trades, traces and equity up to there, one equity point for each shared backtest bar. |
| BacktestTiming.LaterBarsChangeNothing | backend/src/backtest/engine.py:124-255 | The results of the data cut off at any point after the warm-up are an initial part of the results of all of it. |
| BacktestTiming.RunExtends | backend/src/backtest/engine.py:124-255 | Trades, traces, equity points and what the strategy has seen are only ever appended to. |
| BacktestTiming.FillsFollowSignals | backend/src/backtest/engine.py:116-223 | Every trade has its trace in the same position; the fill bar is the one right after the signal bar, or the first backtest bar for a signal of the warm-up, and never the signal bar itself. |
| BacktestTiming.EveryTradeIsTraced | backend/src/backtest/engine.py:210-251 | In every run there are as many completed traces as trades, and each tells its trade's side, quantity, price, commission and slippage. |
| Attribution.AttributionSumsIff | backend/src/backtest/attribution.py:35-100 | Attributions sum to the profit if and only if there is a factor or the profit is zero, whatever the weights, zero and negative totals included. |
| Attribution.AttributionIsProportional | backend/src/backtest/attribution.py:66-100 | For every trade the figures are those of its factors in order, in proportion to the given weights when those of the factors do not sum to zero, and all equal otherwise. |
| Attribution.SixtyForty | backend/src/backtest/attribution.py:59-66 | The documented example: 100 at weights 0.6 and 0.4 is 60 and 40. |
| Attribution.CalculateTradeAttribution | backend/src/backtest/attribution.py:66-100 | The loops, with the default weights written out as a dictionary, compute that attribution. |
| Attribution.CalculateSummary | backend/src/backtest/attribution.py:140-182 | The nested loop computes the per-factor sums and then sets "total". |
| Attribution.SummaryMeans | backend/src/backtest/attribution.py:165-182 | Each factor gets its total over the trades and "total" the grand total; what the factors lack without "total" is exactly what a factor of that name earned. |
| FillLedger.SettleBalances | backend/src/core/portfolio.py:182-291 | Through open, add, reduce, close and flip on either side, cost basis moves by the amount paid plus the profit realised, and quantity by the signed fill. |
| FillLedger.SplitFillAgrees | backend/src/core/portfolio.py:182-291 | Recording a fill in two parts at the same price gives the same position and total profit, even through a close and a reopening. |
| FillLedger.SettlesByUnits | backend/src/core/portfolio.py:182-291 | A fill of any size is as many fills of one unit, each of which either realises its own gain over an unchanged average cost or joins the average. |
| PortfolioManagement.PortfolioManager.RecordFill | backend/src/core/portfolio.py:138-307 | The eight branches write exactly the settlement of the fill to the two tables, or raise on an ambiguous lookup and change nothing. |
| LedgerConservation.RecordKeepsBalanceIff | backend/src/core/portfolio.py:138-307 | A balance - per account, symbol or strategy - survives one fill if and only if the fill is not estranged from it, that is, unless it names no strategy and settles against the row of one. |
| LedgerConservation.RunDrifts | backend/src/core/portfolio.py:182-305 | Over every run of fills and for every scope, cost basis, cash, profit and quantity balance but for exactly the sum of what estranged fills have moved. |
| LedgerConservation.ProfitConservedIff | backend/src/core/portfolio.py:182-305 | Conservation holds after a run if and only if what its estranged fills moved comes to nothing. |
| LedgerConservation.ProfitConserved | backend/src/core/portfolio.py:182-305 | Over every run of fills from empty tables, realised profit is cost basis held less net cash paid, and quantity held is the net signed fill: in every account and symbol whatever the fills, and in every strategy that no fill is estranged from. |
| LedgerConservation.TotalProfitIsValueLessCash | backend/src/core/portfolio.py:182-345 | For every run and scope, realised plus unrealised profit at any marks is market value less net cash paid, less exactly what estranged fills moved into the cost basis. |
| LedgerConservation.CalculateUnrealizedPnl | backend/src/core/portfolio.py:309-345 | The loop sums, over exactly the rows under the filter, the profit at the live quote or else the stored price. |
| LedgerConservation.RealizedPnlUpToLimit | backend/src/core/portfolio.py:347-366 | The reported realised profit is the ledger's, less that of all but the newest hundred transactions under the filter. |
| LedgerConservation.LimitHidesRealizedProfit | backend/src/db/repositories/portfolio_repo.py:252-272 | A run whose profit of one is reported as zero. |
| LedgerConservation.StrategylessCloseLeavesTheStrategy | backend/src/core/portfolio.py:182-187 | A run after which a strategy's own balance fails while the account's holds. |
| LedgerValuation.ContractsAreShares | backend/src/core/portfolio.py:182-307 | Every run of fills leaves the same average costs, realised profits and, with an option counted as a hundred shares, the same tables as the run of the shares its contracts stand for. |
| LedgerValuation.QuotesRevalue | backend/src/core/portfolio.py:324-345 | Unrealised profit without a quote store is the gain of the rows at their stored prices; a quote store adds, for exactly the rows it has a quote for, the move from stored price to quote. |
| RealSums.CauchySchwarz | backend/src/backtest/ic_weight_calculator.py:119-140 | The inequality behind both bounds, for every non-negative weighting of lists of any length. |
| InformationCoefficient.IcBounded | backend/src/backtest/ic_weight_calculator.py:87-140 | The coefficient exists exactly for equal lengths of at least three, with the error of each other case, and lies in [-1, 1]. |
| InformationCoefficient.IcIsPearson | backend/src/backtest/ic_weight_calculator.py:119-140 | For all data it is Pearson's coefficient in sums over the data alone: zero when a variance n*Sum(x*x) - Sum(x)*Sum(x) is, else of the covariance's sign with square C*C / (A*B). |
| InformationCoefficient.IcPerfectIffAffine | backend/src/backtest/ic_weight_calculator.py:119-140 | It is +1 or -1 if and only if the returns are an increasing or decreasing affine image of a factor that is not constant. |
| FactorWeights.EwmaWeightsAreDistribution | backend/src/backtest/ic_weight_calculator.py:427-441 | For every span of at least two the weights are positive, sum to one, and grow by a fixed ratio with recency. |
| FactorWeights.EwmaWeightsUnique | backend/src/backtest/ic_weight_calculator.py:427-441 | A list sums to one with neighbours in that ratio if and only if it is the calculator's. |
| FactorWeights.CalculateEwmaIcFromWindow | backend/src/backtest/ic_weight_calculator.py:418-458 | The loop that builds the weights, and the errors it raises, span one included. |
| FactorWeights.EwmaIcBounded | backend/src/backtest/ic_weight_calculator.py:418-458 | The weighted coefficient is raised exactly for unequal lengths or an effective span of one, with the error of each, and is otherwise in [-1, 1], zero on no data. |
| FactorWeights.EwmaIcIsPearson | backend/src/backtest/ic_weight_calculator.py:427-458 | For all data and spans it is Pearson's coefficient in weighted sums over the data alone, under the weights that sum to one with neighbours as (span - 1) to (span + 1). |
| FactorWeights.EwmaIcPerfectIffAffine | backend/src/backtest/ic_weight_calculator.py:442-458 | It is +1 or -1 exactly under affine dependence, whatever the span. |
| FactorWeights.WeightsFromIcCorrect | backend/src/backtest/ic_weight_calculator.py:220-252 | Weights exist exactly for a non-empty family; each is in [0, 1], they sum to one, and they are in proportion to the absolute coefficients, or equal when all are zero. |
| FactorWeights.CalculateWeightsFromHistory | backend/src/backtest/ic_weight_calculator.py:306-343 | The loop over factors, stopping at the first error, computes what the next two rows are about. |
| FactorWeights.IcFromHistoryIsRecentIc | backend/src/backtest/ic_weight_calculator.py:276-341 | Aligning, windowing and slicing come to the coefficient of the newest common points, or zero when they are fewer than three. |
| FactorWeights.WeightsFromHistoryTotal | backend/src/backtest/ic_weight_calculator.py:306-343 | For every non-empty family of histories of any lengths no error is reached, and the weights are those of the factors' recent coefficients. |
| LeastSquares.OlsIsLeastSquares | backend/src/backtest/math_utils.py:94-129 | For equal lengths of at least two the residuals sum to zero and are orthogonal to x, no line has a smaller error, and none as small unless x is constant; the line is then level. |
| LeastSquares.OlsReturnsIff | backend/src/backtest/math_utils.py:106-121 | The regression raises exactly when lengths differ, both are at least two and x is not constant; and what it returns for short or constant data. |
| LeastSquares.VarianceZeroIffConstant | backend/src/backtest/math_utils.py:51-66 | The zero-variance branch is taken exactly for constant data. |
| LeastSquares.SampleMoments | backend/src/backtest/math_utils.py:51-92 | Variance and covariance are the sample moments, n*(n - 1) times which is n*Sum(x*y) - Sum(x)*Sum(y). |
| Drawdown.ComputeMaxDrawdown | backend/src/backtest/metrics.py:126-144 | The loop finds the largest decline from the running peak. |
| Drawdown.WorstDeclineIsWorst | backend/src/backtest/metrics.py:136-143 | The largest fractional decline of a point from any earlier positive point is that from the running peak down to zero, and that from the lowest positive point below zero; the one-pass figure is never larger. |
| Drawdown.OnePassIsMaxIff | backend/src/backtest/metrics.py:130-144 | For every curve: the one-pass figure is the maximum over all pairs of an earlier positive and a later point if and only if some point is positive, and no point below zero is further down from the lowest positive point before it than some point is from its running peak. |
| Drawdown.OnePassIsMaxOverPairs | backend/src/backtest/metrics.py:130-144 | On curves that stay non-negative, and are positive somewhere, the two always agree; the maximum then lies in [0, 1], and below 1 on positive curves. |
| Drawdown.NegativeEquityBreaksTheMaximum | backend/src/backtest/metrics.py:136-143 | A curve that goes below zero on which the two differ. |
| TradingGates.TradingGate.UpdateMode | backend/src/degradation/trading_gate.py:144-163 | Rejects Recovering without a stage and changes nothing then; otherwise mode and stage are set, and a stage is kept only in Recovering. |
| TradingGates.TradingGate.CheckPermission | backend/src/degradation/trading_gate.py:190-230 | Read by action, both tables are thresholds: an action is allowed up to a last mode and from a first recovery stage on; a warning, a restriction and the local-only mark each appear for exactly one mode and action, and never on a denial. |
| TradingGates.SeverityShrinksPermissions | backend/src/degradation/trading_gate.py:67-112 | Outside Recovering a more severe mode never allows what a less severe one denies. |
| TradingGates.StagesGrow | backend/src/degradation/trading_gate.py:114-121 | Later stages allow more, always querying, never opening, sending or amending. |
| StateService.SystemStateService.Handle | backend/src/degradation/state_service.py:173-210 | An event's effect on mode, stage, gate, history and override in one: none under a live override or a forbidden transition. |
| StateService.SystemStateService.Force | backend/src/degradation/state_service.py:212-282 | A forced mode's effect, and each error with the state it leaves behind. |
| StateService.SystemStateService.UpdateStage | backend/src/degradation/state_service.py:284-309 | A stage is set in service and gate together, or refused outside Recovering. |
| StateService.SystemStateService.IsForceOverride | backend/src/degradation/state_service.py:148-166 | Reading the override drops it once its time has passed. |
| StateService.RunConsistentIff | backend/src/degradation/state_service.py:173-391 | Over every run from cold start: gate and service agree on mode and stage, a stage is present exactly in Recovering, a live override's mode is in force, and the history is a linked path of legal transitions - if and only if no call forces Recovering while no stage is set. |
| StateService.StepConsistentIff | backend/src/degradation/state_service.py:241-282 | One call breaks the agreement exactly when it forces Recovering without a stage. |
| StateService.RecoveryEntersAtFirstStage | backend/src/degradation/state_service.py:362-375 | An event enters Recovering at the first stage, with only querying allowed, and one that stays in Recovering keeps the stage. |
| StateService.OnlyQueryingUntilStageCall | backend/src/degradation/state_service.py:362-375 | From any consistent state not past the first stage, whatever events and forced modes follow: while the gate enforces Recovering only querying is allowed, until a stage is set. |
| StateService.ForceAcceptedIff | backend/src/degradation/state_service.py:212-282 | A mode is forced exactly when operator and reason are not blank, the time to live is positive and Recovering has a stage; which error is raised otherwise; and the whole state of an accepted one. |
| StateService.OverrideHoldsUntilExpiry | backend/src/degradation/state_service.py:148-282 | A forced mode stays in force in service and gate through all events and stages within its time to live, and the next event is taken if and only if that time has passed. |
| StateService.ForcedRecoveryStrands | backend/src/degradation/state_service.py:257-264 | The concrete run after which the service recovers while the gate still halts. |
| StateService.EventsFollowModeAfter | backend/src/degradation/state_service.py:173-210 | Without an override the mode follows the conflict rule alone, at whatever times the events come, and the history records exactly the events taken, in order. |
| StateService.FailuresReachMostSevere | backend/src/degradation/state_service.py:311-338 | Any list of failures ends in the most severe of the start mode and their targets. |
| StateService.FailureOrderIrrelevant | backend/src/degradation/state_service.py:311-338 | Only which failures occurred matters, neither order nor number. |
| StateService.LastRecoveryDecides | backend/src/degradation/state_service.py:311-338 | A recovery event wipes out everything before it: the end mode is decided by it and the failures since. |
| StateService.FailuresAllowIff | backend/src/degradation/state_service.py:48-71 | After any run of failures out of Normal: trading is allowed exactly when all reasons are of the three soft ones, cancelling and reducing exactly when none is of the five that halt or disconnect; when opening is restricted and data local. |
| StateService.RecoveriesAlwaysTaken | backend/src/degradation/state_service.py:48-71 | Reconnection and cold start always lead to Recovering and all-healthy to Normal, unless an override is live. |
| StateService.FailuresRestrictIff | backend/src/degradation/trading_gate.py:67-121 | From any consistent state without override, a run of failures only takes permissions away if and only if it starts outside Recovering, or is empty, or ends where only querying is left, or in safe mode from the last stage. |
| StateService.DegradedGrantsMoreThanRecovering | backend/src/degradation/models.py:38-45 | The concrete failure during recovery that opens trading. |
| Recovery.RecoveryOrchestrator.StartRecovery | backend/src/degradation/recovery.py:100-153 | A new run replaces any live one before the service is asked; the error it may raise and the state left. |
| Recovery.RecoveryOrchestrator.AdvanceStage | backend/src/degradation/recovery.py:155-194 | Stale id, failing check, next stage, or completion. |
| Recovery.RecoveryOrchestrator.AbortRecovery | backend/src/degradation/recovery.py:196-219 | Clears the run and forces safe mode as the system, or ignores a stale id. |
| Recovery.StartSucceedsIff | backend/src/degradation/recovery.py:114-153 | Starting succeeds exactly when already recovering or without a live override, and then orchestrator, service and gate agree on the first stage and the transition is recorded; otherwise they disagree. |
| Recovery.AdvancesReachNormal | backend/src/degradation/recovery.py:155-194 | Whatever stale and failing attempts are mixed in, the stage is the start stage plus the number of successes, all parties agreeing; the success after Ready ends the run, in Normal exactly unless an override is live at that moment. |
| Recovery.AdvanceAnswers | backend/src/degradation/recovery.py:155-194 | What an attempt returns or raises in any state, and that a raising one has moved the orchestrator a stage ahead of service and gate. |
| Recovery.FullRecovery | backend/src/degradation/recovery.py:114-194 | A started recovery is over exactly after at least four successes, and then in Normal exactly unless it began under an override of Recovering that is still live at the fourth success; until then opening, sending and amending stay denied. |
| Recovery.PermissionsGrowDuringRecovery | backend/src/degradation/recovery.py:155-194 | Further attempts never take a permission away while the run lasts, override or not. |
| Recovery.SupersededIdStaysDead | backend/src/degradation/recovery.py:221-238 | After any further calls by anyone, an id once superseded still changes nothing. |
| Recovery.AbortBlocksRestart | backend/src/degradation/recovery.py:196-219 | After an abort a new recovery starts exactly once the safe-mode time in whole seconds has passed, and the override is the system's; a minimum below one second makes the abort raise. |
| Breakers.CircuitBreaker.Failed | backend/src/degradation/breakers.py:119-156 | A failure's effect on the breaker and the event it emits. |
| Breakers.CircuitBreaker.Succeeded | backend/src/degradation/breakers.py:158-181 | A success resets everything and reports a recovery unless already healthy. |
| Breakers.LevelClosedForm | backend/src/degradation/breakers.py:119-226 | For non-decreasing times the whole state is a closed form of the reports: the level of the failures since the last success is none, one, or tripped exactly at the count or the time threshold. |
| Breakers.EventsFormCycles | backend/src/degradation/breakers.py:119-181 | Events always form repetitions of degraded, optional trip, recovered, and end in the breaker's level. |
| Breakers.UnstableEventKeepsModeIff | backend/src/degradation/breakers.py:228-346 | A merely unstable breaker leaves the mode alone exactly under an override or when the mode is already as severe as its trip; from Normal the transition is the one tabulated for the breaker. |
| Breakers.RecoveredEventEndsAnyMode | backend/src/degradation/breakers.py:254-346 | Recovery of any breaker ends every mode, Halt included, without an override: the broker's starts a recovery, any other returns to Normal. |
| DbBuffers.DBBuffer.AddEntry | backend/src/degradation/db_buffer.py:144-191 | Duplicate, the two refusals and the append, in memory and log together; when each happens is `AddAcceptedIff`. |
| DbBuffers.DBBuffer.FlushToDb | backend/src/degradation/db_buffer.py:193-224 | Empties memory and log when there is something to flush, and reports how much. |
| DbBuffers.DBBuffer.RestoreFromWal | backend/src/degradation/db_buffer.py:244-296 | The two loops restore the replay of the log, or nothing when reading a line raises. |
| DbBuffers.RestartRebuildsMemory | backend/src/degradation/db_buffer.py:271-296 | In every run of adds, flushes and crashes, from any log that can be read, restoring rebuilds the same entries in order, key set and byte count; keys are unique and bytes the sum of sizes. |
| DbBuffers.CrashesAreInvisible | backend/src/degradation/db_buffer.py:144-296 | A run ends exactly as it would have without its crashes. |
| DbBuffers.LimitsHoldIff | backend/src/degradation/db_buffer.py:144-296 | In every such run the limits hold if and only if they held after start-up or a flush has happened since; until then the store is exactly the restored one, every add being refused. |
| DbBuffers.ReplayIsValid | backend/src/degradation/db_buffer.py:277-291 | Whatever a log contains, what it restores has unique keys and consistent counts. |
| DbBuffers.AddHoldsKey | backend/src/degradation/db_buffer.py:156-191 | An add reports success exactly when its key is held afterwards, and loses nothing. |
| DbBuffers.AddAcceptedIff | backend/src/degradation/db_buffer.py:156-191 | An add succeeds if and only if its key is held already or both the entry and the byte limit leave room; only a new entry changes anything. |
| DbBuffers.HoldsAllIffFits | backend/src/degradation/db_buffer.py:144-296 | In every run with flushes and crashes the buffer holds exactly the first entry of every key offered since the last flush, in order, if and only if these fit the limits; a flush then counts them. |
| DbBuffers.RestoreIgnoresLimits | backend/src/degradation/db_buffer.py:271-296 | A log whose restoration exceeds the limits, the case that `LimitsHoldIff` has to except. |
| PaperBrokers.PaperBroker.SubmitOrder | backend/src/broker/paper_broker.py:52-64 | A new id with its order, status, quantity and coroutine. |
| PaperBrokers.PaperBroker.CancelOrder | backend/src/broker/paper_broker.py:66-76 | Unknown and filled orders are refused; any other is cancelled. |
| PaperBrokers.PaperBroker.SimulateFill | backend/src/broker/paper_broker.py:86-147 | One resumption of a coroutine, from one await to the next, to its return, or to an exception of the callback. |
| PaperBrokers.PaperBroker.EmitFill | backend/src/broker/paper_broker.py:101-147 | The body of the loop: one fill, its books, the callback, and the wait or the end after it. |
| PaperBrokers.RunConsistent | backend/src/broker/paper_broker.py:52-147 | Under every interleaving each order's filled quantity is the sum of its fills and never exceeds its size, Filled holds exactly at equality, Cancelled exactly for cancelled orders, and the n-th fill has id n and the symbol and side of its order. |
| PaperBrokers.FillIdsUnique | backend/src/broker/paper_broker.py:116-118 | No two fills of any run share an id. |
| PaperBrokers.OrdersAreSubmissions | backend/src/broker/paper_broker.py:52-64 | After every run the broker knows exactly the orders submitted, unchanged, numbered from one in order. |
| PaperBrokers.CancelSucceedsIff | backend/src/broker/paper_broker.py:66-76 | A cancellation is refused exactly for an unknown order or one whose fills add up to its size; otherwise it takes effect. |
| PaperBrokers.PartialFillIff | backend/src/broker/paper_broker.py:101-112 | A fill is partial exactly when the draw falls below a positive probability and more than one unit remains; its size is then any from one to all but one. |
| PaperBrokers.WholeFills | backend/src/broker/paper_broker.py:95-112 | An order on which no draw falls below the probability is filled at once or not at all, in every interleaving. |
| PaperBrokers.CancelIsFinal | backend/src/broker/paper_broker.py:66-99 | A cancelled order stays cancelled, and no fill of it is ever created again. |
| PaperBrokers.UncancelledOrderFills | backend/src/broker/paper_broker.py:95-147 | An order of size n that nobody cancels is, after n resumptions and whatever else runs in between, completely filled in at most n fills if and only if the callback raised on none of its partial fills. |
| PaperBrokers.DiedIff | backend/src/broker/paper_broker.py:86-147 | In every run the coroutines ended by an exception are exactly those of orders resumed, live and not cancelled, for a fill that left something remaining, on which a registered callback raised. |
| PaperBrokers.DeathIsFinal | backend/src/broker/paper_broker.py:86-147 | An order whose coroutine ended that way keeps its fills and is never filled, whatever is called next. |
| PaperBrokers.RaisingCallbackStrands | backend/src/broker/paper_broker.py:141-143 | A concrete run of three calls that ends that way, and stays so whatever is called next: one of two units filled, partly filled or cancelled for ever. |
| PaperBrokers.SubscriberHears | backend/src/broker/paper_broker.py:82-143 | In every run a subscriber receives exactly the fills created while its callback was the one registered last, in order. |
| PaperBrokers.SubscriberSeesAllIff | backend/src/broker/paper_broker.py:82-143 | It receives every fill if and only if every event that creates one finds it registered: none is created before it subscribes or while another has replaced it. |
| PaperBrokers.SoleSubscriberSeesAll | backend/src/broker/paper_broker.py:82-84 | A subscriber that comes first and is never replaced receives every fill. |
| PaperBrokers.LaterSubscriberTakesOver | backend/src/broker/paper_broker.py:82-84 | A run with two subscribers in which the first misses the second fill. |
| AuditChain.VerifyChain | backend/src/audit/integrity.py:126-193 | The loop reports exactly the errors of each row in order, and its verdict is exactly that every row carries its checksum and follows its predecessor; it raises if and only if a row holds a value that JSON cannot encode. |
| AuditChain.ReportedIffTrue | backend/src/audit/integrity.py:126-193 | Each of the four kinds of error is reported, with its ids and checksums, if and only if it is true of some row. |
| AuditChain.AuditRepository.PersistAuditEvent | backend/src/audit/repository.py:71-179 | Appends one linked row, moves the key's head to it, and returns its id and checksum. |
| AuditChain.AuditRepository.VerifyChainIntegrity | backend/src/audit/repository.py:299-382 | The verdict and the errors are those of the oldest rows of the chain, up to the limit, under the column names the query gives them; it raises if and only if one of them cannot be encoded. |
| AuditChain.PersistedChainsIntact | backend/src/audit/repository.py:93-179 | Whatever is persisted under whatever keys, with gaps in the sequence, every chain is valid and ends at its head. |
| AuditChain.CanonicalRowsVerify | backend/src/audit/integrity.py:76-105 | With values in the form the event was serialised in, rows can always be encoded, and verify exactly when they are valid. |
| AuditChain.ChainRecordsItsEvents | backend/src/audit/repository.py:118-158 | Each chain holds exactly the events persisted under its key, in order. |
| AuditChain.SequenceIdsAreDrawn | backend/src/audit/repository.py:93-117 | Over all chains together every row has the last sequence value drawn for it, those of rolled-back transactions being skipped. |
| AuditChain.PrefixValid | backend/src/audit/integrity.py:143-193 | Every prefix of a valid chain is valid. |
| AuditChain.HeadDeterminesChain | backend/src/audit/integrity.py:45-105 | With an injective hash, the last checksum of a valid chain determines its length and all covered content. |
| AuditChain.HeadVouchesForEvents | backend/src/audit/integrity.py:126-193 | Rows that verify and end at a recorded head say the same as the events persisted under that key in each of the eight fields that checksums cover. |
| AuditChain.UncoveredFieldsAreFree | backend/src/audit/config.py:96-110 | Validity depends on covered content, ids and checksums only. |
| AuditChain.FetchedRowsVerifyIffNone | backend/src/audit/integrity.py:89-95 | Rows with the event id under another name verify only when there are none. |
| AuditChain.IntegrityCheckPassesIff | backend/src/audit/repository.py:299-341 | Whatever was persisted, that verdict is true if and only if nothing was persisted under the key, or the limit is zero; and as events carry a `datetime`, the check raises everywhere else. |
| GlobPermissions.RegexTextByTokens | agents/permissions.py:75-95 | Escaping the whole pattern and rewriting the text twice gives the text of compiling it token by token. |
| GlobPermissions.PatternMatchesIff | agents/permissions.py:75-110 | For every pattern and resource: the regular expression matches exactly when the glob does with `**` kept off newlines, on the resource or on it without one final newline. |
| GlobPermissions.RegexMeansGlob | agents/permissions.py:75-125 | On resources without newlines it matches exactly when the glob does: `*` stops at slashes, `**` does not, all else is literal. |
| GlobPermissions.NewlinesBreakTheGlob | agents/permissions.py:95-110 | Concrete differences both ways. |
| GlobPermissions.AnyMatch | agents/permissions.py:97-125 | The early-return search finds a matching pattern if and only if there is one. |
| GlobPermissions.DefaultReads | agents/permissions.py:140-208 | For every resource: a role reads it if and only if it lies under one of the role's directories, directly in it or below it on one line. |
| GlobPermissions.DefaultWrites | agents/permissions.py:140-208 | For every resource: each role writes exactly its directories or its Redis keys; the one fixed key also with a newline after it. |

## Proof steps

The table leaves out the single steps of the results above, and smaller facts beside them.

- `BacktestLedgers`: `BuyBalances` and `SellBalances` (a trade keeps the balances of `MoneyIsConserved`), `FinalBalance`
  and `LastEquity` (the last bar, towards `AttributionIsProfit`), `StepCashIff` (one bar of `CashNonNegativeIff`).
- `BacktestTiming`: `FillKnowsOnlyTheOpen`, `TradeMatches` and `EquityPerBar` (what a fill reads, and what is left in the
  trace and in the equity curve).
- `FactorDicts`: `AddAllEffect` (accumulating one dictionary into another, towards `SummaryMeans`).
- `PortfolioManagement`: `CoverProfit`, `SellProfit` and `AddSettles` (the branches of `RecordFill`).
- `LedgerConservation`: `RecordDrifts` (one fill of `RunDrifts`).
- `LeastSquares`: `FitSatisfiesNormalEquations` and `NormalEquationsOptimal` (the two halves of `OlsIsLeastSquares`).
- `StateService`: `SeveredStays` (a gap in the history, towards `RunConsistentIff`), `ConsistentAllowsQuery` (every
  consistent state allows querying, and in Recovering exactly the stage's actions).
- `PaperBrokers`: `ResumeViews` (one resumption of `RunConsistent`).
- `AuditChain`: `ChecksumsAgree` (a row's checksum is its event's, where it can be computed).
- `GlobPermissions`: `PrefixPattern` (literal beginnings, towards `DefaultReads` and `DefaultWrites`).

## Left out

- Decimal rounding, float error and overflow: amounts are exact reals.
- SQL, Redis, the event bus, logging, UUIDs and wall-clock stamps: tables are sequences and maps, ids counters, time an input.
- Fields that no modelled step reads: option strikes and expiries, fill commissions of the live ledger, trace and trade ids, the list of entry trades, account snapshots.
- Metrics other than drawdown, benchmark comparison, walk-forward splits, option pricing: no exact theorem, or easy members.
- `_normalize_attribution` and `validate_attribution`: the first is not called, the second follows from the exact sum.
- `slippage_bps` of a trace: the rounded form of the slippage that is modelled.
- `calculate_ic_ir`, `calculate_ewma_ic` as a public entry and `calculate_weights_full_pipeline`: the last can slice its inputs to unequal lengths.
- Negative quantities in a signal, and signals for another symbol than the configured one.
- A quote of zero in the quote store is a quote here; `update_prices` and account synchronisation of the live ledger are not modelled.
- `effective_level` of a breaker and the alert routing: table look-ups.
- The READY stability wait: it reports success before the wait has passed, so there is nothing to keep.
- The trigger and operator of a recovery: they are recorded and not read; stage checks are inputs.
- A failing write-ahead log, a buffer without one, and a crash between the in-memory append and the log line: an add is atomic.
- Two first events of one audit chain persisted at the same time: there is no head row to lock yet, and each would start the chain; persisting is atomic here.
- An audit row without sequence id or checksum: every stored row has both.
- `validate_tool_call` and tool permissions: they combine the modelled resource checks with membership tests.
- BacktestEngines.Run: does not compute the result's metrics and benchmark comparison, because apart from drawdown, which has its own module, they are square roots and powers of returns with no exact theorem.
- PaperBrokers.PaperBroker.SimulateFill: does not compute the price of a fill, because it is random and no modelled property depends on it.
