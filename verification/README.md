# Trading research and execution, verified

A Dafny model of the parts of the trading platform whose correctness rests on state machines and
exact arithmetic, with proofs for all inputs and all runs.

* **Backtesting and paper trading.** Features, rules and levels of a strategy (`Signals.dfy`) and what
  they mean in prices (`SignalMeaning.dfy`, `RuleMeaning.dfy`); the simulator of one protected position
  with stop, trailing, break-even and equal-fraction targets (`Protection.dfy`), what one bar does
  (`ProtectionMeaning.dfy`) and what holds of every run (`ProtectionProofs.dfy`, `ProtectionBounds.dfy`,
  `ProtectionRuns.dfy`); windowed evaluation and folds (`Robustness.dfy`, `Folds.dfy`); ledger and
  account figures (`Accounting.dfy`) and which breaches of the loss policy are final
  (`LossPolicy.dfy`); forward paper sessions (`Monitoring.dfy`), what one observation records
  (`MonitoringIntents.dfy`) and whole sessions (`MonitoringRuns.dfy`).
* **From risk to the broker.** Policy limits, exposure and sizing (`Risk.dfy`, `RiskProofs.dfy`) and what
  they mean for the account (`RiskMeaning.dfy`); reservations (`Reservations.dfy`); the entry
  transaction and its interleavings (`Coordinator.dfy`, `CoordinatorRuns.dfy`), its orders, tickets and
  guard (`EntryOrders.dfy`); command lifecycle, dispatch and reconciliation (`Execution.dfy`); kill
  switches and the authority guard (`KillSwitches.dfy`); the bridge's leased command queue
  (`BridgeQueue.dfy`, `BridgeRuns.dfy`); workers, crashes and the bridge together (`Delivery.dfy`).
* **Research lanes.** The snapshot score (`Fingerprint.dfy`) and its criteria in prices
  (`FingerprintMeaning.dfy`), the lane loop (`Lanes.dfy`, `LaneRuns.dfy`), the ranking order
  (`Ranking.dfy`), the diversification pass, as a function (`Diversification.dfy`) and on shared objects
  (`LaneRecords.dfy`), and what agents and winners do to scores (`LaneMeaning.dfy`).

Decimals are reals, instants are integers in microseconds, dictionaries are maps or sequences in
insertion order. Loops and objects that the program updates in place are methods and classes here,
each proved equal to a function of its inputs or old state; the theorems are about those functions
and about every sequence of their steps. A database transaction is one atomic step, a row lock is
the rule that a second entry of the account waits. The broker adapter, research providers and
agents, the strategy setup, calendars, sessions and technical columns may answer anything.

## What the code does that one might not expect

* `reserve` subtracts the active reservations from a capacity that is already net of them
  (modules/trading/coordinator.py:295-296), so an entry that fits the policy can be refused:
  `CoordinatorRuns.ReservationsCountTwice` gives the exact condition, `FittingEntryIsRefused` an input.
* Queueing a plan twice, as two queue tasks that both read it READY do, returns the first command but
  stores the id of the new, unsaved one and a new authorization on the plan: `CoordinatorRuns.ReplayHappens`.
  The first command can then never be dispatched: `CoordinatorRuns.ReplayStrandsTheFirstCommand`.
* A first HARD constraint replaces a tighter SOFT one: `RiskProofs.FirstHardLimitCanLoosen`.
* Forty warm-up candles are not enough for structure windows above 39 or for any ATR period:
  `Robustness.WarmupSufficesExactly`.
* The daily part of the loss policy looks at final day totals, so a breach can be undone while its day
  lasts, and only then: `LossPolicy.BreachIsUndoneExactly`, with the witness `DailyBreachCanRecover`. The
  drawdown part latches.
* A partial-fill split does not compare its parts with the old amount: `Reservations.SplitRaisesExactly`. Its
  caller passes the plan's whole risk (apps/api/app/routes/trade_management.py:349-359), so a fill reported
  again raises the active sum: `Reservations.RepeatedFillAddsItsRemainder`.
* Reservations of working orders and open positions expire after their ten minutes like any other
  (modules/risk/reservations.py:224-240) and nothing prolongs them, so their risk leaves the active sum and a
  later fill report is refused: `Reservations.LiveRiskStaysCountedExactly`, `Reservations.LateReportIsRefused`.
* The ledger keeps the CREATED copy of a command; at-most-once holds along returned or persisted
  commands: `Execution.StaleCopyCallsAgain`.
* Leasing is documented as optimistic by version (modules/trading/execution_store.py:3-5), but the
  expected version comes from the record it is compared with, so the check cannot fail and lease tasks,
  which take no row lock, can both succeed or undo a later state. Exactly a copy read before does it:
  `Delivery.LeasedOnceExactly`, `Delivery.OutcomeStandsExactly`, with the runs `UnlockedWorkersBothLease` and
  `StaleLeaseUndoesOutcome`. Dispatch tasks lock the row, and no such lease adds an adapter call:
  `Delivery.CallsAreBounded`, `Delivery.CallsEndExactly`.
* A dispatch task that dies between its call and its commit is repeated; the bridge's idempotency key keeps
  that from creating or reviving a broker command: `Delivery.CrashCallsAgain`, `Delivery.DeliveredOnce`.
* A receipt settles its command unless it comes before it: `BridgeRuns.SettledIsNeverHandedOut` is exact,
  `EarlyReceiptDoesNotSettle` a run. A poll with a limit below one still hands out a command:
  `BridgeQueue.PollFillsItsLimit`.
* Repeated lanes are refused before a run is made (modules/research/matrix.py:28-30,
  apps/api/app/routes/research_matrix.py:51-69); `run_matrix` does not check. It answers a repeat twice,
  against the run model (modules/research/models.py:199-203), or, when an analyst sends it back, not at all:
  `LaneRuns.RepeatedLaneIsAnsweredTwiceOrNotAtAll`, exactly in `LaneRuns.OneResultPerLane`.
* Snapshots are validated outside any handler, so one malformed item, like a provider error with the status
  READY or no valid status, ends the whole run: `LaneRuns.RunFailsExactly`.
* A zero currency weight on a position with zero or unknown remaining loss multiplies zero by
  infinity, which raises: `Risk.AggregateExposure`.
* Windowed evaluations pass no calendar to the simulator, so the news state is unknown throughout
  (modules/backtesting/robustness.py:69-71).

## Model

| member | source | states |
|---|---|---|
| `Signals.PrefixAtr` | modules/strategies/signals.py:40-55 | The loop recomputes Wilder's ATR of the prefix; it is zero until `period` true ranges exist. |
| `Signals.StrategyFeatureSeries` | modules/strategies/signals.py:115-144 | The one-pass series with its running ATR equals, at every index, the features recomputed from that prefix, warm-up included. |
| `Signals.FeaturesAreCausal` | modules/strategies/signals.py:72-87 | Features at an index are the same for any two histories that agree up to that index. |
| `Signals.WilderStaysInEnvelope` | modules/strategies/signals.py:53-55 | The smoothed range never leaves the bounds of the true ranges it averages. |
| `SignalMeaning.PricesAreTheCandles` | modules/strategies/signals.py:56-69 | The price and volume features are the candle's own, and the momentum is the last move of the close. |
| `SignalMeaning.PriorLevelsAreExtremes` | modules/strategies/signals.py:37-59 | The prior levels are the attained extremes of the highs and lows of the candles before this one within the structure window; the first candle has only itself. |
| `SignalMeaning.AveragesAreMeans` | modules/strategies/signals.py:36-67 | The averages are the sums of closes over the last five candles and the structure window, divided by their counts. |
| `SignalMeaning.VolatilityIsMeanRange` | modules/strategies/signals.py:36-39 | Without a period the volatility is the mean range of the last five candles. |
| `SignalMeaning.AtrIsWilders` | modules/strategies/signals.py:40-55 | With a period it is zero up to the period, then the mean of the first true ranges, then moves one part in the period towards each new one. |
| `SignalMeaning.TrueRangeSpansTheGap` | modules/strategies/signals.py:44-52 | A true range is the candle's range stretched to the close before it. |
| `SignalMeaning.TrendIsTheNetMove` | modules/strategies/pair_profile.py:21-35 | The trend is ready from 21 candles on, and its direction is the sign of the last close less the first of the last 21. |
| `SignalMeaning.EfficiencyIsNetOverTravelled` | modules/strategies/pair_profile.py:22-32 | Efficiency times the distance travelled is the net move; it lies in [0, 1] and is 1 exactly for a stretch that moves one way. |
| `SignalMeaning.RelativeVolatilityMeans` | modules/strategies/pair_profile.py:26-34 | The relative volatility is the mean range of the last ten candles over that of up to thirty before them, or over itself. |
| `SignalMeaning.TechnicalColumnsWin` | modules/strategies/signals.py:72-88 | A technical column replaces the candle feature of its name; the other features are the candles'. |
| `RuleMeaning.ConditionHoldsExactly` | modules/strategies/signals.py:147-162 | A condition holds exactly when its feature and its right-hand side are known and their difference has the operator's sign. |
| `RuleMeaning.EntryMatchesExactly` | modules/strategies/signals.py:181-190 | An entry is admitted exactly with a known news state where one is asked for, a wanted regime, an entry condition, every entry, confirmation and filter condition, and not all of the invalidation. |
| `RuleMeaning.RegimeIsDecidedByThresholds` | modules/strategies/pair_profile.py:48-61 | A ready regime is trending from an efficiency of 0.35 on, bullish or bearish by the trend, and of high or low volatility from 1.5 on or up to 0.75. |
| `RuleMeaning.NewsIsDecidedByCode` | modules/strategies/pair_profile.py:39-47 | The news tag is the recorded state. |
| `RuleMeaning.RegimeMatchesExactly` | modules/strategies/pair_profile.py:68-90 | A wish is met when it is empty, or the regime is known and has every tag of one alternative. |
| `RuleMeaning.TagHoldsExactly` | modules/strategies/pair_profile.py:76-90 | A tag holds when it names one of the regime's tags; four short names stand for longer ones, and UNKNOWN never holds. |
| `RuleMeaning.EveryTagIsNeeded` | modules/strategies/pair_profile.py:76-90 | The tags of one alternative are all needed. |
| `Signals.StopLevelIsProtective` | modules/strategies/signals.py:193-218 | The rounded stop is on the loss side, on a tick, at a distance in [d, d + tick). |
| `Signals.TargetPaysItsMultiple` | modules/strategies/signals.py:193-218 | Each target is on a tick on the profit side and pays at least its R multiple of the distance to the rounded stop. |
| `Signals.SetSizeMeansStrictlyOrdered` | modules/strategies/signals.py:193-218 | The set-size check accepts exactly the target lists that rounding left strictly ordered in the trade's direction. |
| `Signals.ProtectionLevelsAreProtective` | modules/strategies/signals.py:193-218 | Levels are returned if and only if entry and volatility are positive and the rounded levels are positive, protective and strictly ordered; returned levels are tick multiples. |
| `RuleMeaning.LevelsAreMultiples` | modules/strategies/signals.py:193-218 | Accepted levels in numbers, for each side: the stop within a tick of its multiple of the volatility, each target within a tick of its multiple of the rounded stop's distance. |
| `Protection.CollectTargets` | modules/backtesting/protection.py:115-126 | The target loop takes exactly the consecutive targets the bar reaches, each its share, the last one the rest. |
| `Protection.ManageBar` | modules/backtesting/protection.py:87-147 | One bar of the inner loop equals the specification step: adverse fill first, then targets, then break-even and trailing moves. |
| `Protection.SimulateProtectedTrades` | modules/backtesting/protection.py:42-180 | The nested loops compute the same trades, costs and open position as the bar-by-bar fold that all theorems below are about. |
| `ProtectionMeaning.AdverseComesFirst` | modules/backtesting/protection.py:102-113 | On any bar an open at or beyond the stop takes the whole position at the open, else a signal does, else a touched stop takes it at the stop, each less slippage and whatever targets the bar reaches; a target is taken only on a bar with none of them. |
| `ProtectionMeaning.TargetsAreTakenInOrder` | modules/backtesting/protection.py:114-128 | Otherwise exactly the consecutive reached targets are taken in order for equal shares, and only a final bar closes the rest, at its close. |
| `ProtectionMeaning.StopIsTheTightest` | modules/backtesting/protection.py:141-146 | A position that stays open moves its stop to the tightest of the old stop, the entry under break-even once a target is hit, and the close less the risk under a trailing stop. |
| `ProtectionMeaning.BarRecordsItsExtremes` | modules/backtesting/protection.py:100-101 | A bar changes no term of the position and extends its excursions to the furthest prices against and for it. |
| `ProtectionMeaning.EntryPaysSlippage` | modules/backtesting/protection.py:67-87 | An entry happens exactly on an admitted bar with accepted levels, at the open plus slippage against the trade, whole and under those levels. |
| `ProtectionMeaning.StepRecords` | modules/backtesting/protection.py:87-167 | A managed position stays open or becomes the next trade, with its exits, its last bar, its fixed costs and its excursions; a flat bar changes nothing. |
| `ProtectionMeaning.DecisionsPrecedeTheBar` | modules/backtesting/protection.py:44-99 | Entry, exit signal, volatility and regime of a bar do not depend on its candle, only on those before it and on its instant. |
| `ProtectionMeaning.BarDecidesOnThePast` | modules/backtesting/protection.py:44-111 | They are decided by the last completed candle's features and the news state of the instant. |
| `ProtectionProofs.ManageKeepsOk` | modules/backtesting/protection.py:87-147 | Managing a bar conserves the position, keeps exits as a growing list and never loosens the stop; the final bar closes everything. |
| `ProtectionProofs.TargetsTakeEqualShares` | modules/backtesting/protection.py:115-126 | With k of n targets hit, exactly (n - k)/n of the position is left. |
| `ProtectionProofs.RunKeepsOk` | modules/backtesting/protection.py:42-180 | In every run each closed trade has positive exit fractions that sum to 1, profit equal to its exits less fixed costs, and positive risk; an open position holds exactly its remaining share. |
| `ProtectionProofs.SimulationConserves` | modules/backtesting/protection.py:42-180 | The same for a whole simulation, and closing at the end of history leaves nothing open. |
| `ProtectionProofs.AccountingIdentity` | modules/backtesting/protection.py:161-163 | Total profit equals the frictionless profit of the same raw fills minus the returned costs. |
| `ProtectionBounds.LossIsBounded` | modules/backtesting/protection.py:100-163 | On consistent candles a trade without a gapped stop loses at most risk, slippage, spread and commission, and every trade stays inside its recorded excursions less costs. |
| `ProtectionRuns.NoLookAhead` | modules/backtesting/protection.py:42-180 | Two runs that agree on the first n candles and their decisions have equal books after n candles; the shorter run's trades are a prefix of the longer run's. |
| `ProtectionRuns.TradesOnlyGrow` | modules/backtesting/protection.py:42-180 | Simulating further never rewrites or drops an earlier trade. |
| `ProtectionRuns.EntriesAreAllowed` | modules/backtesting/protection.py:44-66 | Every trade and the open position entered at a candle from index 2 on at which entries were allowed. |
| `ProtectionRuns.TradesDoNotOverlap` | modules/backtesting/protection.py:43-148 | Each trade exits before the next one enters, strictly, and nothing is dated after the last candle. |
| `ProtectionRuns.FixedCostsDoNotInterfere` | modules/backtesting/protection.py:129-163 | Changing spread and commission changes no entry, stop, target, exit or reason; each profit moves by exactly the cost difference. |
| `Robustness.WarmupIsEnough` | modules/backtesting/robustness.py:58-71 | Without ATR, technical columns and structure windows above 39, windowed evaluation equals full-history evaluation trade by trade. |
| `Robustness.LongWindowNeedsMore` | modules/backtesting/robustness.py:58-71 | For every structure window of 40 or more a strategy with entry and exit conditions and a concrete history trade with the full past and not in the window. |
| `Robustness.AtrNeedsMore` | modules/backtesting/robustness.py:58-71 | For every ATR period a strategy with entry and exit conditions and a concrete history trade with the full past and not in the window. |
| `Robustness.WarmupSufficesExactly` | modules/backtesting/robustness.py:58-71 | Forty warm-up candles are exact for every strategy the schema accepts, without technical columns, with the given window and ATR period if and only if the window is at most 39 and there is no ATR period. |
| `Folds.PartitionEntersWithin` | modules/backtesting/robustness.py:64-72 | A partition trades only on its own unblocked candles; warm-up candles never trade. |
| `Folds.EvaluationIsUnseen` | modules/backtesting/robustness.py:97-112 | No trade of the holdout or of a fold enters at or before the research cut. |
| `Folds.FoldsAreBalanced` | modules/backtesting/robustness.py:107-112 | The three folds are in order and their sizes differ by at most one. |
| `Folds.ForwardStartIsFirst` | modules/backtesting/robustness.py:99-106 | The forward start is the first index from which two fifths of the history are past and everything is unseen. |
| `Folds.FoldsTileTheForwardCandles` | modules/backtesting/robustness.py:99-112 | An unblocked candle may be entered in a fold exactly when it lies in it; from the forward start on each candle lies in exactly one fold, earlier ones in none, and none at or before the research cut. |
| `Folds.FoldsTradeInOrder` | modules/backtesting/robustness.py:106-112 | Every trade of an earlier fold enters before every trade of a later one. |
| `Accounting.DrawdownAndStreaks` | modules/backtesting/ledger.py:36-52 | The online loop returns the running-peak drawdown and the longest winning and losing runs of the non-zero results. |
| `Accounting.DrawdownIsLargestDrop` | modules/backtesting/ledger.py:41-44 | Running-peak drawdown is the largest drop of equity over all ordered pairs of points, the start included. |
| `Accounting.DrawdownOnlyGrows` | modules/backtesting/ledger.py:41-44 | A longer history never has a smaller drawdown. |
| `Accounting.WinnersAndLosersAddUp` | modules/backtesting/ledger.py:38-54 | Total profit is the winners' profit plus the losers' loss, and their counts add up to the non-zero results. |
| `Accounting.Metrics` | modules/backtesting/ledger.py:17-68 | Every figure of the ledger equals its definition on the list of trades. |
| `Accounting.FiguresMean` | modules/backtesting/ledger.py:36-68 | R multiples times risk are profits, and the chosen winners, losers and decided results are those above, below and away from zero, each as often as it occurs. |
| `Accounting.MeanTimesCount` | modules/backtesting/ledger.py:54-68 | Each mean of the ledger times its count is its sum. |
| `Accounting.DayOfExactly` | modules/backtesting/engine.py:89-90 | A day is a stretch of 24 hours. |
| `Accounting.EquityCompounds` | modules/backtesting/engine.py:78-83 | Equity after all trades is the product of one plus each trade's return. |
| `Accounting.AccountMetrics` | modules/backtesting/engine.py:66-102 | Refuses exactly the lists with a non-positive risk; otherwise net = gross profit - gross loss = sum over days, ending equity compounds, and the policy flag has its stated meaning. |
| `Accounting.DrawdownBreachLatches` | modules/backtesting/engine.py:91-93 | A drawdown breach fails the policy for every longer list of trades. |
| `LossPolicy.BreachIsUndoneExactly` | modules/backtesting/engine.py:66-93 | From any list of trades some later trades that close only on given days make the policy pass if and only if the drawdown is within its limit, every breached day is among those days and, where a day is breached, the account is not at zero and risks something. |
| `LossPolicy.BreachIsFinalAfterItsDay` | modules/backtesting/engine.py:85-93 | For trades in time order and an account that can still move, the policy can pass again from the last closing day on if and only if the drawdown holds and no earlier day is breached. |
| `LossPolicy.DailyBreachLatchesAfterItsDay` | modules/backtesting/engine.py:88-93 | A daily breach lasts once no further trade closes on that day. |
| `LossPolicy.DailyBreachCanRecover` | modules/backtesting/engine.py:88-93 | A witness: a concrete breach is undone by a later win of its day. |
| `Monitoring.DetectGap` | modules/strategies/monitoring.py:113-128 | The cursor loops report a gap exactly when an expected instant of an open session is missing between consecutive candles since the start. |
| `Monitoring.DecideEntry` | modules/strategies/monitoring.py:140-151 | The intent of the next bar is kept exactly when the account is flat, the setup signals, nothing is missing, the policy holds and the observation is in time. |
| `Monitoring.Observe` | modules/strategies/monitoring.py:30-220 | One paper observation persists exactly the specified evidence, or refuses the delivery. |
| `MonitoringIntents.IntentExactly` | modules/strategies/monitoring.py:72-182 | A new intent is recorded if and only if the delivery's own setup signals it in a free context, the evidence is complete and within its limits before and after, no position is open, the observation is in time and the entry precedes the cutoff; every other intent stays. |
| `MonitoringIntents.ContextExactly` | modules/strategies/monitoring.py:106-112 | The news state of the next bar is recorded once, by the first observation in time for it. |
| `MonitoringIntents.LatestExactly` | modules/strategies/monitoring.py:80-193 | What is reported: a signal exactly while one could be recorded but for its timing, and otherwise the position, the end of the window, the block or the delivery's own status. |
| `MonitoringIntents.FrozenExactly` | modules/strategies/monitoring.py:47-69 | A later observation freezes exactly the completed candles newer than the last frozen one; the first keeps the newest hundred. |
| `MonitoringIntents.RefusedExactly` | modules/strategies/monitoring.py:47-71 | A delivery is refused exactly with fewer than six completed candles, a malformed one, or too many to freeze. |
| `MonitoringRuns.ObserveExtends` | modules/strategies/monitoring.py:63-69 | One observation keeps the session invariant and only extends candles, past intents and contexts, trades and account results. |
| `MonitoringRuns.EvidenceOnlyGrows` | modules/strategies/monitoring.py:106-219 | Over any deliveries, repeated, overlapping or late, what was recorded earlier is a prefix of what is recorded later. |
| `MonitoringRuns.EveryTradeWasIntended` | modules/strategies/monitoring.py:140-151 | Every paper trade entered at an intent recorded for an instant at or after the session start, after its bar had opened and before it closed, within five minutes and a quarter of the timeframe. |
| `MonitoringRuns.DataCompleteMeansNoGap` | modules/strategies/monitoring.py:215 | The completeness flag holds exactly while no gap has been frozen. |
| `MonitoringRuns.DuplicateDeliveryIsIdempotent` | modules/strategies/monitoring.py:43-46 | A delivery with nothing new changes no candle, trade, result, position or flag. |
| `MonitoringRuns.HeldSessionsRecordNothing` | modules/strategies/monitoring.py:179-182 | No intent is recorded on or after an observation with missing data or a failed policy, nor while a position is open. |
| `MonitoringRuns.BreachEndsEntries` | modules/strategies/monitoring.py:81-84 | After a gap or a drawdown breach no further entry is ever recorded. |
| `Risk.LimitIsStrictest` | modules/policy/effective_limits.py:8-19 | The limit of a kind is a member of its list, hard if any member is hard, and no hard member (or no member at all) is tighter. |
| `Risk.StrictestApplicable` | modules/policy/effective_limits.py:8-19 | The grouping loops return that limit for exactly the kinds that occur. |
| `Risk.ComputeReservedRisk` | modules/risk/reserved_risk.py:6-16 | The clamped running total equals the recursive definition, and is undefined exactly when some position has no bounded loss. |
| `Risk.AggregateExposure` | modules/risk/exposure.py:9-28 | The accumulating loops give every group its sum, with zero remaining loss as infinite, and fail exactly on a zero weight times infinity. |
| `Risk.Evaluate` | modules/risk/engine.py:20-184 | The engine's steps, in order, equal the specification verdict that the sizing theorems are about. |
| `RiskProofs.SteppedSizeFits` | modules/risk/financial_math.py:23-26 | A stepped size fits the budget and one more step does not. |
| `RiskProofs.FittingSizeFits` | modules/risk/engine.py:82-102 | The sized risk with its financing fits every capacity; a reduced size is a step multiple that cannot grow by a step; it is positive exactly when one step fits. |
| `RiskProofs.AcceptedRiskIsSafe` | modules/risk/engine.py:60-122 | An accepted verdict's risk, financing included, fits drawdown, daily, portfolio, per-trade and every correlation capacity, and capped groups stay within their caps. |
| `RiskMeaning.AcceptedRiskFitsTheAccount` | modules/risk/engine.py:48-122 | In the account's own figures: an accepted risk fits the daily limit plus the day's result, open losses included and open profits not, and the drawdown limit less the fall of the equity; profits make no room beyond either limit. |
| `RiskMeaning.WorseAccountNeverLoosens` | modules/risk/drawdown.py:4-15 | A loss of the day, a lower floating result, a lower equity or a higher start never increases the granted size. |
| `RiskMeaning.AcceptedRiskIsPriced` | modules/risk/financial_math.py:29-50 | An accepted risk is the size times the distance to the stop at the multiplier, in ticks for a future, plus the financing. |
| `RiskMeaning.AuthorityIsExact` | modules/risk/engine.py:253-290 | A typed candidate has authority exactly with a listing, a unit, an effective specification of the current cut and, for a future, a contract and tick terms. |
| `RiskMeaning.AcceptedHasAuthority` | modules/risk/engine.py:20-116 | Acceptance needs the three account limits, authority, a bounded loss of every position and a free slot. |
| `RiskMeaning.ReservedRiskIsLargestTail` | modules/risk/reserved_risk.py:6-16 | The clamped running total is the largest net loss of any tail of the positions: a profit offsets only losses listed before it. |
| `RiskMeaning.OnePositionCarries` | modules/risk/exposure.py:14-22 | A position carries its loss in its category and underlying and its weighted loss in its currencies, infinitely much without a known, non-zero loss. |
| `RiskMeaning.ExposuresAddUp` | modules/risk/exposure.py:14-22 | Exposures of two lists of positions add up, group by group. |
| `RiskMeaning.VerdictReportsViolations` | modules/risk/engine.py:82-93 | An accepted verdict reports exactly the capped groups that the whole request would lift above their cap. |
| `RiskProofs.AcceptedSizeIsMaximal` | modules/risk/engine.py:97-122 | PASS grants the whole request; a reduced size is a whole number of steps and one more step breaks some capacity. |
| `RiskProofs.BlockedExactlyWhenNoStepFits` | modules/risk/engine.py:113-116 | With authority, bounded positions and a free slot, a candidate is blocked exactly when not even one step fits. |
| `RiskProofs.ReservationNeverLoosens` | modules/risk/engine.py:62-78 | Adding a non-negative reservation never increases the granted size. |
| `RiskProofs.PositionNeverLoosens` | modules/risk/engine.py:62-93 | Adding a position with non-negative or unbounded loss never increases the granted size. |
| `RiskProofs.LowerCapNeverLoosens` | modules/risk/engine.py:85-93 | Lowering a correlation cap never increases the granted size. |
| `RiskProofs.HardConstraintTightensExactly` | modules/policy/effective_limits.py:15-18 | A new hard constraint keeps or tightens its limit if and only if that limit was already hard or no tighter. |
| `RiskProofs.HardConstraintNeverLoosens` | modules/risk/engine.py:40-122 | Under that condition a hard constraint never increases the granted size. |
| `RiskProofs.FirstHardLimitCanLoosen` | modules/risk/engine.py:40-122 | Without it, it can: a hard limit of 50 replacing a soft one of 10 raises the granted size. |
| `RiskProofs.TicketRestatesApprovedRisk` | modules/trading/ticket.py:67-78 | The ticket's loss is the approved risk less financing, and within the hard per-trade limit. |
| `Reservations.ReservationStore.Reserve` | modules/risk/reservations.py:82-139 | Reserving returns the plan's existing row, or expires lapsed rows and adds one that fits; a refusal changes nothing. |
| `Reservations.ReservationStore.Transition` | modules/risk/reservations.py:154-190 | A live row moves to any state with an amount that may only shrink; a refusal changes nothing. |
| `Reservations.ReservationStore.SplitPartialFill` | modules/risk/reservations.py:192-222 | The row keeps the filled amount and the remainder becomes a new pending row. |
| `Reservations.ReservationStore.Expire` | modules/risk/reservations.py:224-240 | Exactly the live rows past their time expire. |
| `Reservations.ReserveExactly` | modules/risk/reservations.py:82-139 | Reserving succeeds exactly for a plan that holds this very amount, or for a new one whose positive amount fits with what is left after expiry. |
| `Reservations.TransitionExactly` | modules/risk/reservations.py:154-190 | A transition succeeds exactly for a live row of its owner and an amount that does not grow; it moves that row alone and keeps what the change leaves out. |
| `Reservations.SplitExactly` | modules/risk/reservations.py:192-222 | A split leaves the filled part on the row and the remainder on a new row of the same command and time, bound to no plan. |
| `Reservations.ExpireNeverRaises` | modules/risk/reservations.py:224-240 | Expiry raises no account's active sum. |
| `Reservations.TransitionNeverRaises` | modules/risk/reservations.py:154-190 | A transition raises no account's active sum. |
| `Reservations.SplitRaisesExactly` | modules/risk/reservations.py:192-222 | A split moves its account's active sum by what the parts differ from the old amount, so it raises it if and only if they exceed it; other accounts are untouched. |
| `Reservations.RepeatedFillAddsItsRemainder` | modules/risk/reservations.py:192-222 | A partial fill split by the whole reserved amount keeps the active sum; each further report of the same fill adds the remainder once more, for any number of reports. |
| `Reservations.LiveRiskStaysCountedExactly` | modules/risk/reservations.py:224-240 | Expiry takes risk of live orders and positions out of the active sum exactly when a row of theirs has lapsed. |
| `Reservations.ActiveSumCoversLiveRisk` | modules/risk/reservations.py:224-240 | While none has lapsed, the active sum after an expiry covers all risk of live orders and positions. |
| `Reservations.LateReportIsRefused` | modules/risk/reservations.py:154-240 | Nothing prolongs a reservation: whatever happens in between, an expiry past its time ends it, and every later transition or split of it is refused. |
| `Reservations.TerminalStaysTerminal` | modules/risk/reservations.py:176-177 | Over any operations a released or expired row is never revived or changed. |
| `Reservations.GrantFits` | modules/risk/reservations.py:117-139 | A new grant adds its positive amount and leaves the active sum within what was available. |
| `Coordinator.EntryCoordinator.PersistCommand` | modules/trading/execution_store.py:19-55 | A known id or key returns its row or refuses a different identity or payload; a new command is appended once. |
| `Coordinator.EntryCoordinator.Revalidate` | modules/trading/coordinator.py:199-290 | Terms, candidate, context and risk in order give the specified phase: stop, refuse, block or proceed. |
| `Coordinator.EntryCoordinator.Claim` | modules/trading/coordinator.py:291-333 | Reserve, authorize, mark pending and queue give the specified books, or fail. |
| `Coordinator.EntryCoordinator.AuthorizeAndQueueEntry` | modules/trading/coordinator.py:189-333 | The whole transaction has the specified effect; any failure rolls everything back. |
| `CoordinatorRuns.OnlyQueuedEntriesCommit` | modules/trading/coordinator.py:189-333 | Only a queued entry touches reservations or commands, a refusal touches nothing, and other plans are never touched. |
| `CoordinatorRuns.ProceedMeansAccepted` | modules/trading/coordinator.py:227-258 | A plan proceeds only with an accepted verdict on fresh evidence; a ticketed one also needs a verified currency and a hard, positive per-trade limit. |
| `CoordinatorRuns.QueuedEntryAgrees` | modules/trading/coordinator.py:291-333 | For a new plan and key, plan, reservation and command name each other, the reserved amount is the plan's risk, the command asks for the plan's order, and the authority guard accepts it. |
| `EntryOrders.QueuedOrderIsThePlans` | modules/trading/execution.py:190-225 | Field by field, the stored command of a new entry asks for the plan's side, instrument, prices, targets and venue at the approved size, with the first target as take profit and the approved risk as maximum loss exactly with a ticket. |
| `EntryOrders.ProceedRiskIsPriced` | modules/trading/coordinator.py:227-256 | The risk a plan proceeds with is its approved size times the distance from its entry to its stop at its terms, live ones with a ticket, plus its financing. |
| `EntryOrders.CandidateExactly` | modules/trading/coordinator.py:107-165 | A plan makes a candidate exactly with a specification, positive size, prices and step, a financing that is not negative, and a risk. |
| `EntryOrders.ProceedsExactly` | modules/trading/coordinator.py:199-290 | A plan proceeds exactly when it is not blocked, its snapshot is fresh, its terms fit, it makes a candidate, the engine accepts, and its ticket can be rebuilt. |
| `EntryOrders.PersistExactly` | modules/trading/execution_store.py:19-55 | A command is refused exactly for an id of another key or a key of another payload; a known one is the answer, by id before key. |
| `EntryOrders.AuthorizedExactly` | modules/trading/execution.py:135-188 | An entry is authorized exactly for a READY or AUTHORIZED plan, not expired or hard-blocked, with the permission and both switches off. |
| `EntryOrders.GuardAcceptsExactly` | modules/trading/authority.py:18-71 | The guard accepts a stored entry exactly when it is bound, in time, of an authorized plan, asks a ticketed plan's order field by field, later targets aside, and meets the permission, switches and epochs. |
| `EntryOrders.TicketExactly` | modules/trading/ticket.py:51-66 | A ticket is built exactly for an accepted size in the broker's bounds and on its step, a losing stop, winning targets, fractions in (0, 1] and terms that price it. |
| `EntryOrders.TicketStatesProfits` | modules/trading/ticket.py:67-95 | It states the profit of leaving whole at each target, and the first target is the broker's take profit. |
| `CoordinatorRuns.QueuedLossIsLimited` | modules/trading/coordinator.py:230-280 | A queued ticketed entry states its whole approved risk as maximum loss, within a hard positive per-trade limit; its ticket loses that less financing. |
| `CoordinatorRuns.ReservationsCountTwice` | modules/trading/coordinator.py:291-301 | A new entry that fits the policy is reserved if and only if it also fits with the reservations still live counted a second time, whatever has lapsed. |
| `CoordinatorRuns.QuietStoreCountsTwice` | modules/trading/coordinator.py:291-301 | With nothing lapsed: if and only if it fits with every active reservation counted twice. |
| `CoordinatorRuns.FittingEntryIsRefused` | modules/trading/coordinator.py:291-301 | A concrete entry that the policy has room for is refused. |
| `CoordinatorRuns.KeysStayUnique` | modules/trading/execution_store.py:26-46 | Command ids and idempotency keys stay unique and stored commands are never rewritten by queueing. |
| `CoordinatorRuns.ReplayNamesNoCommand` | modules/trading/coordinator.py:322-333 | The plan of a queued entry names a stored command if and only if its key was new; under a known key the first command stands. |
| `CoordinatorRuns.CommandIsBoundExactly` | modules/trading/coordinator.py:307-333 | With a fresh authorization, the stored command of a queued entry carries the plan authorization if and only if its key was new. |
| `CoordinatorRuns.ReplayStrandsTheFirstCommand` | modules/trading/coordinator.py:307-333 | After a replay under a known key the authority guard refuses the first command with this plan, whatever the permissions, the switches and the time. |
| `CoordinatorRuns.ReplayHappens` | modules/trading/coordinator.py:307-333 | Two queueings of a plan that both read READY, without a reservation or a command: the second enters too, stores no command, and leaves the plan naming one that does not exist and an authorization the stored command does not carry. |
| `CoordinatorRuns.AcceptedCommandIsReserved` | modules/trading/coordinator.py:291-333 | Whatever operations on other rows run in between, a queued entry that the guard accepts at some time still has its unlapsed pending reservation then. |
| `CoordinatorRuns.GrantsNeverOverCommit` | modules/trading/coordinator.py:227-301 | After any interleaving on an account, with any expiry, transition, split and grant to other accounts in between, open-position risk plus all active reservations is within the portfolio limit at every new grant. |
| `CoordinatorRuns.ReservationsStayWithinRoom` | modules/trading/coordinator.py:227-301 | Over any run an account's active reservations never exceed the largest room any entry read, or what it held at the start, by more than the excess of its splits. |
| `CoordinatorRuns.AccountStaysWithinLimit` | modules/trading/coordinator.py:227-301 | If the parts of every split fit the old amount and no entry reads more room than the limit leaves, open risk and active reservations stay within the limit in every reachable state. |
| `Execution.ExecutionLedger.Put` | modules/trading/execution.py:88-105 | One entry per key with its outbox event; a known key returns its command or refuses another payload. |
| `Execution.Dispatch` | modules/trading/execution.py:277-334 | Dispatch returns the specified command, calls the adapter once from a dispatchable state and never otherwise, and every call leaves one attempt. |
| `Execution.EnteredExactlyFrom` | modules/trading/execution.py:37-73 | The lifecycle read backwards: which states may precede each state, and none CREATED or SUPERSEDED. |
| `Execution.TerminalStatesExactly` | modules/trading/execution.py:37-65 | Exactly seven states have no successor. |
| `Execution.DispatchFollowsTheLifecycle` | modules/trading/execution.py:277-333 | Every state a dispatch walks through is a listed successor of the one before, whatever the adapter answers. |
| `Execution.AtMostOnceDispatch` | modules/trading/execution.py:37-73 | Along any chain of transitions, leases and dispatches the adapter is called at most once. |
| `Execution.NoWayBack` | modules/trading/execution.py:37-65 | Once dispatching, a command never returns to a state before dispatch. |
| `Execution.UncertainOnlyThroughReconciling` | modules/trading/execution.py:308-318 | After an adapter exception a command stays uncertain until it has been reconciling. |
| `Execution.StaleCopyCallsAgain` | modules/trading/execution.py:88-105 | Dispatching the returned command again makes no second call; dispatching one stored copy twice makes two calls if and only if its state can be dispatched. |
| `Execution.ReconciliationExactly` | modules/trading/reconciliation.py:61-151 | One order of the command's id or broker id is the match, several are ambiguous; without one the same holds of positions that agree in instrument and every requested field; without either the snapshot decides between no effect and unknown. |
| `Execution.RetryOnlyWithoutEffect` | modules/trading/reconciliation.py:61-151 | A retry is allowed if and only if the snapshot is authoritative and shows no such order and no such position. |
| `Execution.AnswersDecide` | modules/trading/execution.py:308-334 | After an answer no later chain calls the adapter or returns before the call; a rejection is final, any other answer leaves the command acknowledged with its certainty and order, a failure leaves it uncertain. |
| `Delivery.CallsAreBounded` | apps/worker/app/tasks/execution.py:52-130 | Over any interleaving of dispatch tasks, unlocked lease tasks and transitions the adapter is called once per task that crashed between its call and its commit, and at most once more. |
| `Delivery.CrashCallsAgain` | apps/worker/app/tasks/execution.py:97-125 | That bound is reached for every number of crashes: n crashes after the call and one surviving task make n + 1 calls. |
| `Delivery.CallsEndExactly` | apps/worker/app/tasks/execution.py:52-97 | No run calls the adapter again if and only if the stored row has left CREATED, VALIDATING, AUTHORIZED and QUEUED, whatever copies lease tasks hold. |
| `Delivery.UnlockedWorkersBothLease` | modules/trading/execution_store.py:58-83 | Any two lease tasks that both read a row waiting for its lease both lease it. |
| `Delivery.LeasedOnceExactly` | modules/trading/execution_store.py:58-83 | A command one worker has taken is never leased again, in any run, if and only if no task holds a copy it read while the command waited. |
| `Delivery.StaleLeaseUndoesOutcome` | modules/trading/execution_store.py:58-83 | A lease task that read before a dispatch takes any stored outcome back to DISPATCHING. |
| `Delivery.OutcomeStandsExactly` | modules/trading/execution_store.py:58-83 | A row that was sent stays sent in every run if and only if no lease task holds a copy that it can still lease. |
| `Delivery.LateReadersDoNotLease` | modules/trading/execution_store.py:66-68 | Once the row is dispatching or beyond and no task holds a copy from before, nobody leases it or calls the adapter, however many tasks read it. |
| `Delivery.WorkersFollowTheLifecycle` | apps/worker/app/tasks/execution.py:52-125 | Refinement: dispatch tasks that all live to commit, with transitions in between, take the stored row exactly where the command's own chain of leases and dispatches takes it, with the same calls. |
| `Delivery.DeliveredOnce` | bridges/mt5/commands.py:76-118 | Over any interleaving of tasks, crashes, leases, polls and receipts the bridge holds at most one command under the key, it is this command, and once a receipt settles it, it is never handed out again. |
| `KillSwitches.EpochCountsUpdates` | modules/trading/kill_switches.py:7-24 | The safety epoch counts accepted updates, and without one the record is unchanged. |
| `KillSwitches.UpdateAcceptedExactly` | modules/trading/kill_switches.py:7-24 | An update is accepted exactly with step-up, for an unchanged scope with its account, and with fresh health where it turns an active switch off. |
| `KillSwitches.AcceptedMeansSwitchesUntouched` | modules/trading/authority.py:65-71 | If the guard accepts a command, neither switch was updated since its authorization, not even on and off again, and both were and are inactive. |
| `KillSwitches.AnyUpdateRevokes` | modules/trading/authority.py:67-71 | One accepted update of either switch makes the guard refuse every earlier authorization. |
| `BridgeQueue.BridgeCommandQueue.Enqueue` | bridges/mt5/commands.py:76-84 | A known key returns its command or refuses another one; a new command takes its id's place in the queue. |
| `BridgeQueue.BridgeCommandQueue.Poll` | bridges/mt5/commands.py:86-106 | The loop leases exactly the first deliverable commands up to the limit and returns them in queue order. |
| `BridgeQueue.BridgeCommandQueue.Receive` | bridges/mt5/commands.py:108-118 | The first receipt of a command is recorded and settles it; later ones change nothing. |
| `BridgeQueue.PollFillsItsLimit` | bridges/mt5/commands.py:86-106 | A poll hands out as many deliverable commands as the limit allows, and one where the limit allows none. |
| `BridgeRuns.HandedOutExactly` | bridges/mt5/commands.py:86-106 | A poll hands out exactly the polled account's commands that wait or whose lease is over and that have fewer than its limit of them before them. |
| `BridgeRuns.PollLeasesExactly` | bridges/mt5/commands.py:86-106 | Those are leased from the whole second of the poll; every other command stays. |
| `BridgeRuns.EnqueueExactly` | bridges/mt5/commands.py:76-84 | A known key is refused exactly for another payload or action and otherwise changes nothing; a new one joins and leaves commands of other ids in place. |
| `BridgeRuns.KeysStayUnique` | bridges/mt5/commands.py:76-84 | Ids and idempotency keys in the queue stay unique over every run. |
| `BridgeRuns.FirstReceiptWins` | bridges/mt5/commands.py:108-112 | A command's first receipt is its receipt for good. |
| `BridgeRuns.SettledIsNeverHandedOut` | bridges/mt5/commands.py:76-118 | Along a run a command whose receipt says anything but QUEUED or LEASED is never handed out if and only if no command joins the queue under its id after that receipt. |
| `BridgeRuns.EarlyReceiptDoesNotSettle` | bridges/mt5/commands.py:108-118 | A witness: a command whose receipt came first is handed out all the same. |
| `BridgeRuns.RedeliveryWaits` | bridges/mt5/commands.py:76-118 | Whatever the clock does, a command is handed out again no earlier than the whole second of its delivery plus the lease, unless in between its first receipt says QUEUED or LEASED or a new command takes its id. |
| `BridgeRuns.LeaseEndsExactly` | bridges/mt5/commands.py:76-118 | A leased command can be handed out after one more event and before its lease is over if and only if that event is such a receipt or such a command. |
| `Fingerprint.ScoreIsBounded` | modules/research/features.py:59-118 | For every eligible snapshot all criteria lie in [0, 1], the trend criterion is 1 exactly for one-way moves, and the score lies in [0, 100]. |
| `FingerprintMeaning.EligibleExactly` | modules/research/features.py:36-79 | A snapshot is eligible exactly with twenty positive prices, an uncrossed fresh quote, fresh candles, a verified spread of at most half the mean move, and a move among the last twenty. |
| `FingerprintMeaning.MovementIsMeanPath` | modules/research/features.py:59-60 | The mean move is the distance the prices travel over the number of moves. |
| `FingerprintMeaning.TrendMeans` | modules/research/features.py:77-109 | The trend criterion times the distance travelled by the last twenty moves is their net move, whose sign is the direction. |
| `FingerprintMeaning.StructureMeans` | modules/research/features.py:93-95 | Structure is where the last price stands between the extremes of the last twenty, from the far side unless they rise. |
| `FingerprintMeaning.VolatilityMeans` | modules/research/features.py:81-84 | The relative volatility is the mean size of the last twenty rates over that of all; its suitability falls by half the distance from one. |
| `FingerprintMeaning.RatesMean` | modules/research/features.py:76 | A rate of return takes one price to the next. |
| `FingerprintMeaning.AlignmentMeans` | modules/research/features.py:85-90 | Alignment tells whether the last price is on the same side of its last five as of the last five of every fourth price. |
| `FingerprintMeaning.CostAndEventMean` | modules/research/features.py:61-99 | Cost is what half the mean move leaves after a verified spread, the event criterion what the risk leaves, and half where unknown. |
| `FingerprintMeaning.ScoreWeighs` | modules/research/features.py:111-118 | Trend, volatility and cost count twenty points each, structure and alignment fifteen, the event ten, nothing else any. |
| `Fingerprint.MovementMeansReturns` | modules/research/features.py:59-83 | Positive prices that move at all have a positive mean return, so the volatility ratio is defined. |
| `Lanes.BoundedAdjustments` | modules/research/workflow.py:63-77 | Numeric adjustments are kept within 10 points either way, the last entry of a listed instrument counts, anything else is dropped. |
| `Lanes.ApplyAdjustments` | modules/research/workflow.py:375-384 | Each named symbol moves by its adjustment and is held within 15 points of its base and in [0, 100]; unknown symbols are ignored. |
| `LaneMeaning.LastEntryCounts` | modules/research/workflow.py:63-77 | The last listed entry of an instrument is the one that counts. |
| `LaneMeaning.AdjustmentIsNearest` | modules/research/workflow.py:63-77 | A numeric adjustment counts as the nearest value within ten points; anything else is dropped. |
| `LaneMeaning.ScoreMovesByItsAdjustment` | modules/research/workflow.py:375-384 | A score moves by its adjustment, up for a positive and down for a negative one, to the nearest value within fifteen points of its base and within [0, 100]. |
| `LaneMeaning.ReviewAddsUp` | modules/research/workflow.py:344-408 | Each agreeing analyst adjusts what the ones before left. |
| `Lanes.ConsultAnalysts` | modules/research/workflow.py:344-408 | The first fault or reassessment ends the review; otherwise all adjustments are applied in order. |
| `Lanes.RunLanes` | modules/research/workflow.py:283-535 | The lane loop with all its exits equals the specification list of results. |
| `LaneRuns.ResultsFollowRequests` | modules/research/workflow.py:283-535 | Results follow the requested lanes in order, missing exactly the skipped ones. |
| `LaneRuns.OneResultPerLane` | modules/research/workflow.py:409-426 | There is exactly one result per requested lane, in order, if and only if no lane stands right behind an equal one and is sent back by its analysts; distinct lanes never do. |
| `LaneRuns.DistinctLanesGiveOneResultEach` | modules/research/workflow.py:283-535 | Distinct requested lanes never give two results for one lane. |
| `LaneRuns.RepeatedLaneIsAnsweredTwiceOrNotAtAll` | modules/research/workflow.py:409-426 | A repeated lane is answered twice, which the run model forbids, or, sent back by an analyst, gets no result of its own. |
| `LaneRuns.RunFailsExactly` | modules/research/workflow.py:301-313 | The run as a whole fails if and only if some delivery does not validate or some provider error claims the status READY or no valid status; agents never make it fail. |
| `LaneRuns.LaneScoresAreBounded` | modules/research/workflow.py:340-535 | For any agent replies every ready candidate's score is within 15 points of its measured base and in [0, 100], and every result is consistent. |
| `LaneMeaning.LastSnapshotCounts` | modules/research/workflow.py:314-324 | The criteria of a symbol are those of its last eligible snapshot. |
| `LaneMeaning.EligibleAreKept` | modules/research/workflow.py:319-325 | The lane ranks exactly the snapshots that pass the gates. |
| `LaneMeaning.CandidateShowsItsSnapshot` | modules/research/workflow.py:506-522 | A ready candidate shows its snapshot's names and underlying, its symbol's measured direction and its symbol's adjusted score. |
| `LaneRuns.ReviewPassesExactly` | modules/research/workflow.py:344-408 | A review passes exactly when every analyst answers and agrees, and breaks exactly when the first that does not agree is a fault. |
| `LaneRuns.StatusTellsTheExit` | modules/research/workflow.py:283-535 | With an eligible snapshot a lane is READY exactly when every analyst and the critic agree and UNAVAILABLE exactly when an agent that was asked failed to answer, whatever scores they propose; otherwise a delivered lane is NO_TRADE. |
| `Ranking.RankedIsInOrder` | modules/research/workflow.py:427-430 | Sorting by falling score and then name puts the entries in order and keeps every one of them. |
| `LaneMeaning.RankedFalls` | modules/research/workflow.py:427-430 | Ranked entries fall in score, and equal scores stand in the order of their names. |
| `LaneMeaning.LessExactly` | modules/research/workflow.py:427-430 | Names compare by their first difference, and a prefix comes first. |
| `LaneRecords.ResultRecord.Rerank` | modules/research/workflow.py:548-567 | The inner loops rewrite the candidate objects in place into the specified penalized, sorted and renumbered list; the same objects stay, and the candidate is the first of them. |
| `LaneRecords.ReadyOrder` | modules/research/workflow.py:540-547 | Ready results are visited by falling winner score, then lane name. |
| `LaneRecords.Diversify` | modules/research/workflow.py:536-576 | The pass visits each ready lane once and turns the result objects into those of the specified greedy pass, without two results sharing a candidate. |
| `LaneRecords.RunMatrix` | modules/research/workflow.py:277-577 | The lane loop followed by the pass: the result objects stand for the final results of the run, or the run fails. |
| `Ranking.RankedMaps` | modules/research/workflow.py:564 | Sorting commutes with any change of the sorted items. |
| `Diversification.PenaltyBounds` | modules/research/workflow.py:555-557 | A penalty lies in [0, 15] and is 0 exactly when neither the underlying nor an exposure is shared with the winners so far. |
| `LaneMeaning.PairsShareExactly` | modules/research/workflow.py:550-554 | Two forex pairs share an exposure exactly when both hold one currency the same way. |
| `LaneMeaning.PenaltyExactly` | modules/research/workflow.py:555-557 | Ten points for an underlying a winner has, five for each shared exposure, fifteen at most. |
| `LaneMeaning.PenalizedIsLowered` | modules/research/workflow.py:557-558 | A candidate is lowered by its penalty, to zero at the least, and keeps everything else. |
| `LaneMeaning.RerankedLowersByPenalty` | modules/research/workflow.py:548-567 | Re-ranking lowers each candidate by exactly its penalty, loses and invents none and ranks from one on. |
| `LaneMeaning.LanesFaceEarlierWinners` | modules/research/workflow.py:536-576 | The pass is greedy: each visited lane ends re-ranked against exactly the winners of the lanes visited before it. |
| `Diversification.MatrixIsConsistent` | modules/research/workflow.py:536-577 | After the pass every result is consistent, ready lists are sorted and ranked 1..k with the candidate first, only ready lanes changed, and no score fell by more than 15. |
| `Diversification.BestLaneIsUntouched` | modules/research/workflow.py:540-552 | The lane with the best winner keeps its list. |

## Left out

- The loop without trade rules in `PointInTimeBacktester.run`, its gates, `walk_forward` and `monte_carlo`: legacy trading and resampling.
- `return_statistics` and `profile_pair`: floating-point display figures; their drawdown is the one proved in `Accounting`.
- Technical columns: an arbitrary function of the prefix, so only their causality is assumed.
- Decimal rounding to 28 digits, NaN and infinity in prices, `round` to 4 or 6 digits: exact reals; exposure alone has an explicit infinity.
- Time zones, sessions, holidays and the economic calendar: functions of the instant.
- `build_strategy_setup` and the payload of the latest signal: an arbitrary status per delivery.
- Monitoring without paper trading, which persists no evidence.
- Descriptive fields of risk results, reasons and additional trade capacity: no decision reads them.
- Databases, sessions, locks, rollback, and JSON encoding of stored state: assumed atomic and lossless.
- Floating-point products in the fold limits: two fifths and thirds rounded down; the holdout start may be any index past the research cut.
- Transaction isolation: a transaction reads what others committed and its update overwrites the row it names.
- `ReservationBook` and the older proposal path: in-memory compatibility helpers.
- Digests, signatures and generated identifiers: opaque values, fresh where the code draws them.
- `authorize_and_queue_management`: the entry transaction without its risk half.
- Broker snapshot validation, live-term loading and context assembly: results that `Coordinator` takes as given.
- `AutonomousResearchWorkflow.run`, prompts, evidence texts and exclusions: no score or result depends on them.
- `weekend_close`: the close in force is an input of `Fingerprint`.
- `aggregate_status` and matrix normalization: table lookups.
