# ALM-Trading, verified

A Dafny model of the computational core of the ALM trading system: its market-data calendar and
resampler, its paper-trading book, its forward-observation loop, its research statistics and its
strategy registry. Each module follows one part of the program. Code that changes things in place is
a class or a method with a loop, proved against a function of the old state; what the system promises
is then proved about those functions, over every input and every run.

Instants are integers, in microseconds since 1970-01-01 UTC. Money, prices and statistics are reals.
`dafny verify dfyconfig.toml` checks the whole project.

| module | what it covers |
|---|---|
| `Prelude`, `Timeframes`, `Candles`, `Directions` | options, stable sorting, real and integer arithmetic; the calendar; candles; long and short |
| `FxCalendar`, `Gaps` | the FX week, the day-by-day count of open grid points, the gap report |
| `Slots`, `Bars`, `Resampler` | complete buckets, what a bar says about its rows, the resampling loop, layers and cut-offs |
| `PaperModels`, `PaperBook`, `PaperService` | the paper book: its values, its transitions, and the mutable objects that carry them out |
| `PaperLaws`, `PaperFills`, `PaperGuards`, `PaperJournals`, `PaperRuns` | what every run of the book keeps: limits, money, drawdown, journals |
| `PaperExamples` | three runs of the book that show where its accounts fall behind |
| `DcaLadder`, `StrategyBacktest` | the DCA simulator; the close-to-close backtest and its metrics |
| `Scheduling`, `TimeExit` | cycle identity, candle of a tick, the next checkpoint hour |
| `Lifecycle`, `ForwardOutcome`, `Ingestion` | one observation's life, its outcome, and the gate to the dataset |
| `DriverModel`, `DriverLaws`, `DriverLife`, `Driver` | the observation driver: one tick, all runs, stored observations, the mutable object |
| `DriverExamples` | runs of the driver that show what it does not promise |
| `Drawdown`, `TailLoss`, `Calibration`, `MultipleTesting` | the research statistics |
| `Registry` | strategies, champions and promotion |

## Where the code does less than one might expect

The model follows the code. Where a promise fails, the exact condition under which it holds is proved,
together with an input on which it fails.

- A candle off its own grid can close late and fall into a bucket that was already emitted, so an
  earlier `as_of` does not always give a prefix. It does exactly when no complete bucket is reopened
  (`Resampler.EarlierIsPrefix`, `Resampler.StrayTakesBarBack`), and always on the grid
  (`Resampler.AlignedEarlierIsPrefix`).
- After one of several open positions is closed, the equity leaves out the unrealized results of the
  others until the next mark (`PaperFills.EquityAfterClose`, `PaperExamples.CloseDropsTheOther`).
- The order of a DCA is charged to its position at the close only if the request names the position
  (`PaperFills.DcaIsChargedIffLabelled`, `PaperExamples.UnnamedDcaIsNotCharged`).
- An entry's slippage is paid twice, once in the fill price and once at the close
  (`PaperFills.RoundTripCost`, `PaperExamples.HalfIsPaidTwice`).
- `register` and `load` accept a ready-made champion, which can be a second one
  (`Registry.RegisterSoundIff`, `Registry.LoadSoundIff`, `Registry.TwoReadyMadeChampions`).
- A save that raises does so after memory has changed. A promotion leaves its strategy without a champion
  exactly when there was one and its save raises (`Registry.LeftWithoutChampionIff`,
  `Registry.NobodyIsChampion`); what stays true over every run does so all the same (`Registry.RunSound`).
- A mapping loses the approval when it is read back, so a registry survives a reload through mappings
  exactly when it holds no champion (`Registry.ReloadSoundIff`).
- The two corrections for multiple testing can disagree, and a further test can revive a hypothesis, if
  the level and p-values are negative, which nothing refuses (`MultipleTesting.SurvivorsAreDiscoveries`,
  `MultipleTesting.SurvivorIsMissed`, `MultipleTesting.RejectsExactlyTheLargestRank`,
  `MultipleTesting.TieIsRejectedToo`, `MultipleTesting.NeverRevivedIff`, `MultipleTesting.RevivedByOneMore`).
- Before 1970 the fraction of a second is dropped upwards, which puts a few instants in the next candle
  (`Scheduling.CandleIsFloorIff`, `Scheduling.TickBefore1970`).
- The names in a cycle id are joined without escaping (`Scheduling.SameCycleIff`,
  `Scheduling.SeparatorCollides`).
- A cycle can run twice over one stored observation: memory does not hold its id, which a restart that
  reloads no ids brings about, the lookup fails, and the second cycle saves. Unless it leaves the same
  record behind, this does harm in every case but one. A completed cycle rewrites an open observation and
  puts any later one back to OBSERVING, from HORIZON_REACHED, OUTCOME_CALCULATED and LABELED as from the
  terminal statuses; a halted one overwrites a terminal status with DATA_INVALID; and both can replace the
  subject and the feature version. Only a halted cycle that closes a live observation with the same subject
  and feature version stays on the path. Over every run, statuses move forward exactly when this never happens
  (`DriverLife.SymbolEvolvesIff`, `DriverLife.StepsEvolveIff`, `DriverExamples.FinishedIsOverwritten`).
- A cycle that ran runs again after a restart also without a repository, or when its save was lost
  (`DriverLaws.RunsAgainAfterRestartIff`).
- DATASET_READY does not mean that the dataset took the row (`DriverLife.ReadyAndTakenIff`,
  `DriverExamples.ReadyButRefused`), and an ingestor takes a row again after a restart if its repository
  cannot tell (`Ingestion.AcceptedAgainIff`, `Ingestion.AcceptedTwice`).
- An observation whose candles stop short of its deadline is never timed out
  (`DriverLife.ShortWindowStaysOpen`, `DriverExamples.OverdueAndOpen`).
- The order of the candles matters to an outcome exactly when several of them stand at the deadline
  with different closes (`ForwardOutcome.OrderNeverMattersIff`, `ForwardOutcome.OrderMatters`).
- A DCA ladder can be complete for good before it has reached its number of entries or its exposure: it
  takes a further entry exactly while one more distance beyond the last entry costs less than the drawdown
  limit, measured from the average (`DcaLadder.CanGrowIff`, `DcaLadder.CompleteForGoodIff`,
  `DcaLadder.CompleteWithoutReachingItsLimits`). It never does once the distance is worth the whole
  drawdown allowance (`DcaLadder.DistanceBeyondDrawdownStops`).

## Model

| member | source | states |
|---|---|---|
| FxCalendar.CountOpenIntervals | data_quality/market_data.py:103-127 | the day-by-day count terminates and equals the walk over every grid point from start before end that asks whether the market is open |
| FxCalendar.OpenPointsOfDay | data_quality/market_data.py:108-126 | within one UTC day the open grid points are one arithmetic progression, clipped to that day's hours |
| FxCalendar.OpenWindowIsMarketHours | data_quality/market_data.py:63-72 | the market is open at an instant exactly when it lies in the opening window of its weekday |
| FxCalendar.OpenPointsSplit | data_quality/market_data.py:103-127 | cutting the walk at any bound counts every grid point once, on one side or the other |
| Gaps.DetectMarketDataGaps | data_quality/market_data.py:75-100 | the report holds one gap for each neighbouring pair of the sorted candles of one series that lie more than a step apart |
| Gaps.NothingLost | data_quality/market_data.py:75-100 | for one series on one grid, the candles the gaps expect plus the distinct stamps seen in open hours are all open grid points from the first stamp to the last |
| Gaps.GapsCoverTheMissing | data_quality/market_data.py:75-100 | every grid point between the first and the last stamp is either stamped or covered by exactly one gap |
| Gaps.DetectGaps | data_quality/validator.py:81-90 | the loop of the plain detector reports one gap for each neighbouring pair of the sorted candles of one series that lie more than a step apart |
| Gaps.DetectorsAgree | data_quality/validator.py:81-90 | the plain gap detector reports the same gaps as the market-hours one |
| Gaps.PlainGapsCoverTheMissing | data_quality/validator.py:81-90 | what the plain detector reports of one series covers each missing grid point exactly once and no stamped one |
| Resampler.BucketStartIsFloor | data_sources/resampler.py:31-40 | zeroing calendar fields is rounding down to a multiple of the target interval, for every target and every instant |
| Resampler.GroupRows | data_sources/resampler.py:53-63 | a wrong timeframe anywhere refuses the input; otherwise the groups are the closed, elapsed rows, each in the bucket that contains it |
| Resampler.GroupDecides | data_sources/resampler.py:65-72 | the comparison of sorted stamps with the required ones decides whether every slot of the bucket holds exactly one candle and nothing lies between |
| Resampler.EmitBars | data_sources/resampler.py:64-94 | the loop over the groups emits, in increasing order, one bar for each complete bucket and nothing else |
| Resampler.Resample | data_sources/resampler.py:42-95 | unsupported conversions and wrong timeframes are errors; otherwise the output is, in increasing order, exactly one bar per complete bucket of closed rows elapsed by `as_of`, each with its origin |
| Resampler.ResampledIsUnique | data_sources/resampler.py:42-95 | that description determines the output |
| Resampler.FullHasClosed | data_sources/resampler.py:71-72 | a complete bucket of usable rows has closed by `as_of`: nothing looks past it |
| Resampler.BarsAreValid | data_sources/resampler.py:73-94 | rows with low <= open, close <= high give bars with the same |
| Bars.LayersCompose | data_sources/resampler.py:42-95 | bars of bars are bars of the rows: the same buckets and the same open, high, low, close, volumes and spread |
| Bars.FoldConcat | data_sources/resampler.py:73-94 | the figures of two stretches of rows join into the figures of both, missing volumes included |
| Resampler.TwoLayers | data_sources/resampler.py:42-95 | resampling twice gives the bars of resampling the first rows at once, for any two conversions that fit |
| Resampler.QuarterHoursToDay | data_sources/resampler.py:42-95 | M15 to H1 to H4 to D1 gives the bars of 16 and of 96 quarter hours |
| Resampler.EarlierIsPrefix | data_sources/resampler.py:54-72 | the output at an earlier `as_of` is a prefix of the later one exactly when no late candle falls into a bucket that the rows usable at the earlier moment complete |
| Resampler.AlignedEarlierIsPrefix | data_sources/resampler.py:54-72 | on the source grid it always is a prefix |
| Resampler.StrayTakesBarBack | data_sources/resampler.py:59-72 | quarter hours stamped at 0, 15 and 20 minutes have a half-hour bar at `as_of` 30 minutes and none without a cut-off, so the earlier output is no prefix |
| Resampler.SortedRowsFill | data_sources/resampler.py:65-70 | sorted rows of a bucket carry the required stamps exactly when they fill it, and then they are its slots in order |
| Drawdown.MaxDrawdown | research/metrics.py:105-114 | the loop that tracks the most negative distance from the peak returns the drawdown, and None for no returns |
| Drawdown.RunningDrawdown | backtest/strategy_engine.py:99-101 | the loop that tracks peak minus equity returns the same number, so the formulations agree |
| Drawdown.DropIsLargestFall | research/metrics.py:105-114 | the drawdown is the largest fall of cumulative equity from any moment to any later one, and is attained |
| Drawdown.AppendingNeverHeals | validation/quality.py:181-185 | appending returns never lowers it |
| Drawdown.DropIsZeroWhenNothingFalls | validation/dca_validation.py:124-128 | it is zero exactly when no return is negative |
| TailLoss.TailIsLeastMean | research/metrics.py:144-151 | the tail loss is at most the mean of any other selection of as many observations |
| TailLoss.TailIsAttained | research/metrics.py:144-151 | some selection of that many observations has it as its mean |
| TailLoss.TailsBetweenWorstAndMean | validation/dca_validation.py:39-45 | both tail formulas lie between the worst value and the mean, for every fraction and every list |
| TailLoss.LongerTailIsMilder | validation/dca_validation.py:39-45 | averaging over more of the worst values never gives a worse figure |
| Calibration.Calibrate | research/metrics.py:154-181 | Brier score, expected calibration error, occupied buckets and warning, as functions of the scored rows, for any number of bins; nothing for no scored row |
| Calibration.SumUp | research/metrics.py:163-178 | the loop over the bins adds up the weighted misses and lists the bins that hold a row |
| Calibration.BinsPartition | research/metrics.py:163-171 | every scored row is counted in exactly one bin |
| Calibration.HomeIsTheOnlyBin | research/metrics.py:163-171 | a confidence falls in one bin only, full confidence in the last one |
| Calibration.CalibrationInequalities | validation/quality.py:276-280 | the gap between mean confidence and accuracy is at most the expected calibration error, that is at most one, and its square is at most the Brier score |
| Calibration.BucketsAccountForAll | research/metrics.py:165-178 | the reported buckets account for every scored row, each with its mean confidence within its own bounds and its accuracy between zero and one |
| MultipleTesting.Threshold | research/multiple_testing.py:53-56 | the loop ends at the largest rank k whose sorted p-value is at most alpha k / m, with that value as the threshold |
| MultipleTesting.BenjaminiHochberg | research/multiple_testing.py:46-59 | the result is that of the largest passing rank of the p-values that are present: their number, the threshold and how many lie at or below it |
| MultipleTesting.RejectsExactlyTheLargestRank | research/multiple_testing.py:46-59 | comparing with the threshold rejects exactly k exactly when no value beyond rank k ties with it, which for a level that is not negative never happens |
| MultipleTesting.TieIsRejectedToo | research/multiple_testing.py:46-59 | two equal values at level -1: the largest passing rank is one and both are rejected |
| MultipleTesting.BonferroniWithinStepUp | research/multiple_testing.py:41-59 | a p-value that clears the Bonferroni level is within the step-up threshold exactly when it passes at a rank it holds, and for a level that is not negative it does |
| MultipleTesting.SurvivorsAreDiscoveries | research/multiple_testing.py:138-142 | the report discovers k hypotheses and every survivor of the ledger, although that corrects for the hypotheses without p-value too, exactly when nothing ties beyond rank k and each survivor passes the step-up test itself; a level or p-values that are not negative are enough |
| MultipleTesting.SurvivorIsMissed | research/multiple_testing.py:138-142 | at level -1 the values -0.6 and -0.55 both survive and the second is no discovery |
| MultipleTesting.NeverRevivedIff | research/multiple_testing.py:134-142 | no further recording revives a hypothesis exactly unless the level is negative and its p-value lies between the corrected level and zero |
| MultipleTesting.RevivedByOneMore | research/multiple_testing.py:134-142 | at level -1 a value of -0.5 survives once a second test is recorded |
| MultipleTesting.RepeatedIffFewerIds | research/multiple_testing.py:125-127 | there are fewer experiment ids than hypotheses exactly when an id repeats |
| MultipleTesting.ExperimentLedger.constructor | research/multiple_testing.py:93-100 | a ledger starts empty with its alpha and selection method |
| MultipleTesting.ExperimentLedger.Record | research/multiple_testing.py:102-113 | recording appends the hypothesis and keeps the ids consistent with the hypotheses |
| MultipleTesting.ExperimentLedger.RecordHoldoutUse | research/multiple_testing.py:115-118 | counts one more use of the holdout and returns the count |
| MultipleTesting.ExperimentLedger.Report | research/multiple_testing.py:144-167 | counts, corrected level, survivors and warnings, and the step-up result of the present p-values with its rank k; k hypotheses are discovered, every survivor among them, exactly when the two corrections agree on the input |
| Registry.StrategyRegistry.RegisterRecord | research/registry.py:145-151 | the new registry is the register step of the old one, errors included; a save that raises leaves the record registered |
| Registry.StrategyRegistry.MakeTransition | research/registry.py:153-165 | the same for a status change: unknown keys, forbidden edges and unapproved champions leave everything as it was, and a save that raises leaves the new status |
| Registry.StrategyRegistry.RejectRecord | research/registry.py:167-171 | the same for a rejection, which needs a reason |
| Registry.StrategyRegistry.PromoteRecord | research/registry.py:173-198 | the promotion step: the incumbents retire, each saved at once, then the record is promoted with the token and saved; it ends at the first save that raises, with memory as it is then |
| Registry.StrategyRegistry.RetireOthers | research/registry.py:182-190 | the loop retires the incumbents in order of registration, up to and including the first one whose save raises, and touches no other record |
| Registry.StrategyRegistry.Load | research/registry.py:248-272 | the records of the list are put in one after the other, those given as mappings without their approval, and the size of the registry is returned |
| Registry.StrategyRegistry.Champion | research/registry.py:211-216 | the first champion in order of registration, of one strategy or of any, and None exactly when there is none |
| Registry.ChampionsAfterPromotion | research/registry.py:173-198 | after a promotion that no retirement interrupts, even if its last save raises, the champions are the promoted record and those of other strategies |
| Registry.ChampionsAfterInterruption | research/registry.py:182-190 | if the save of an incumbent raises, nobody has been promoted, and only champions of the same strategy can be missing |
| Registry.LeftWithoutChampionIff | research/registry.py:173-198 | a promotion that is not refused leaves its strategy without a champion exactly when there was one and the first save raises |
| Registry.NobodyIsChampion | research/registry.py:173-198 | a champion, a validated second version and a promotion whose first save raises: the strategy has no champion |
| Registry.PromoteAlongEdges | research/registry.py:183-197 | every status that a promotion changes, retirements included, moves along an edge of the table, wherever a save raises |
| Registry.PromoteSound | research/registry.py:173-198 | a promotion keeps at most one champion per strategy, each approved, wherever a save raises |
| Registry.RegisterSoundIff | research/registry.py:145-151 | registering keeps one approved champion per strategy exactly when the record is no champion, or an approved one of a strategy without another |
| Registry.LoadSoundIff | research/registry.py:248-254 | the same for loading a stored record over its key |
| Registry.TwoReadyMadeChampions | research/registry.py:145-151 | two versions registered, or loaded, as approved champions are two champions of one strategy |
| Registry.ReloadSoundIff | research/registry.py:248-272 | reading a registry back from its own mappings keeps keys, order and records except the approvals, and is sound exactly when it holds no champion |
| Registry.RunSound | research/registry.py:145-197 | over every run that registers no ready-made champion, whichever saves raise, each strategy has at most one champion and each champion an approval |
| Registry.RunMovesForward | research/registry.py:30-43 | over every run, whichever saves raise, a status only moves forward in the table |
| Registry.FinalIsFinal | research/registry.py:30-43 | over every run a rejected or retired record is never touched |
| Registry.ChampionsWerePromoted | research/registry.py:173-197 | a champion that was not one before was promoted by name in the run, and carries that token |
| PaperLaws.EnterSound | paper/service.py:31-49 | an entry keeps every position open, within its size and DCA limits, and their number within the limit |
| PaperLaws.DcaSound | paper/service.py:54-85 | a DCA keeps the book sound and never meets an invalid transition |
| PaperLaws.CloseSound | paper/service.py:86-101 | a close keeps the book sound, its journals numbered and closed with the position, and never meets an invalid transition |
| PaperLaws.RunSound | paper/service.py:31-127 | over every run all positions are OPEN between calls, counts and quantities stay within their limits, and no call raises InvalidPositionTransition |
| PaperLaws.KillSwitchRefuses | paper/risk.py:14-19 | with the kill switch on, no entry and no DCA is accepted |
| PaperLaws.KillSwitchNeverGrows | paper/risk.py:14-19 | with the kill switch on, no operation raises the total quantity held or turns the switch off, except turning it off |
| PaperLaws.KillSwitchRunNeverGrows | paper/risk.py:14-19 | nor does any run of operations |
| PaperLaws.RunConserved | paper/models.py:20-24 | over every run the balance is the initial balance plus realized profit, which is the sum of the net results in closed journals |
| PaperRuns.ReachableBook | paper/service.py:25-127 | every book that a run reaches from a new account is within its limits, conserves money, covers its drawdown, numbers its DCA events, and, if DCA requests are labelled, equals its fills and charges |
| PaperRuns.ReachableStep | paper/service.py:102-108 | on every such book no operation meets an invalid transition |
| PaperGuards.RunPeaked | paper/models.py:20-24 | over every run peak and reported drawdown never fall, and the reported drawdown covers the present distance from the peak |
| PaperGuards.DrawdownLocksTheBook | paper/risk.py:28-44 | once the drawdown has reached its limit, no entry and no DCA is accepted after any run |
| PaperGuards.DailyLossFromFirstMark | paper/risk.py:20-24 | on every book a run reaches, the figures of the day are measured from the first mark of that day on the equity curve, and trading is paused exactly when the loss reaches the limit, whatever the sign of the equity |
| PaperGuards.FillsAreAdverse | paper/execution.py:30-33 | the fill differs from the reference price by the reported slippage, against the trader exactly when that slippage is not negative, as costs that are not negative make it; an exit order goes the other way |
| PaperGuards.EntryAcceptedIff | paper/service.py:31-49 | an entry is accepted exactly when the service runs, the switch is off, one more position fits, everything is within its limits and the order can be filled; otherwise the book is as it was |
| PaperGuards.DcaAcceptedIff | paper/service.py:54-85 | a DCA on a sound book is accepted exactly when the position exists, the switch is off, everything is within its limits and the order can be filled, whether or not the service runs; otherwise the book is as it was |
| PaperGuards.SidesASpreadApart | paper/execution.py:24-29 | buying and selling at one quote start a spread apart, the spread that the order reports and, for a two-sided quote, the gate sees |
| PaperGuards.SplittingCostsOneFee | paper/execution.py:29-33 | splitting an order fills at the same price and costs exactly one more flat fee |
| PaperJournals.RunLogged | paper/service.py:80-84 | over every run each open position has one DCA event per entry, numbered from one |
| PaperJournals.CloseWritesOwnJournal | paper/service.py:86-101 | a close writes its result and the whole DCA history of the trade into the trade's own journal, and touches no other |
| PaperJournals.RunKeepsClosed | paper/service.py:86-101 | over every run the journal of a closed trade is never rewritten |
| PaperFills.RunAccounted | paper/service.py:86-94 | over every run of well-labelled requests, each open position's quantity and cost are the sums of its fills, and the account's commission and slippage are those of the orders of closed positions |
| PaperExamples.UnnamedDcaIsNotCharged | paper/service.py:79-89 | from a new account, one entry and one DCA that names no position: the fill and the fee of the DCA are not those of the position |
| PaperFills.DcaKeepsFillsIffLabelled | paper/service.py:79-83 | a DCA keeps a position equal to its fills exactly when the request carries its id |
| PaperFills.DcaIsChargedIffLabelled | paper/service.py:86-89 | the order of a DCA counts at the close exactly when the request carries the position's id, or it costs nothing |
| PaperFills.CloseSettlesFills | paper/service.py:86-90 | closing pays what the position's own fills are worth at the price, less their commissions and slippage |
| PaperFills.EquityFromMarkOn | paper/service.py:50-53 | from any mark on, the equity is the balance plus the unrealized results of all open positions through every run of operations that cannot close a position |
| PaperFills.EquityAfterClose | paper/models.py:22-24 | after a close it is so exactly when the remaining unrealized results add up to zero |
| PaperExamples.CloseDropsTheOther | paper/models.py:22-24 | from a new account, two entries, a mark of the second and a close of the first: the equity has lost the gain of the second |
| PaperFills.RoundTripCost | paper/execution.py:24-34 | entering and closing at the reference price loses the commission and, for an ordinary order, the slippage twice |
| PaperExamples.HalfIsPaidTwice | paper/service.py:86-90 | from a new account, a unit entered at a reference of one with half a unit of slippage and closed at one loses a whole unit |
| PaperService.PaperAccount.Mark | paper/models.py:20-21 | the account becomes its marked value: equity, free margin, peak and drawdown |
| PaperService.PaperAccount.Realized | paper/models.py:22-24 | the account becomes its realized value, marked at zero |
| PaperService.PaperPosition.Add | paper/models.py:31 | the position becomes its averaged value with one more DCA entry |
| PaperService.PaperPosition.constructor | paper/models.py:29 | a new position is opened at its price, in WATCHING |
| PaperService.PaperPosition.Mark | paper/models.py:30 | the position becomes its marked value, and its profit is returned |
| PaperService.PaperPosition.MoveTo | paper/state_machine.py:3-8 | the state changes exactly along the transition table |
| PaperService.DailyRiskManager.Update | paper/risk.py:20-24 | the day's state becomes the updated one: a new day restarts from the current equity |
| PaperService.PaperTradingService.Enter | paper/service.py:31-49 | the whole service state is the entry step of the old one, refusals and their order included |
| PaperService.PaperTradingService.MarkOpen | paper/service.py:50-53 | the same for a mark |
| PaperService.PaperTradingService.Dca | paper/service.py:54-85 | the same for a DCA |
| PaperService.PaperTradingService.ClosePosition | paper/service.py:86-101 | the same for a close |
| PaperService.PaperTradingService.EvaluateExitOf | paper/service.py:110-127 | the same for an exit decision: hold, reduce, or close |
| DcaLadder.SimulatedPosition.Open | backtest/dca.py:49-61 | refuses exactly the sizes outside the limits, and notes a trade against the higher timeframe |
| DcaLadder.SimulatedPosition.ConsiderEntry | backtest/dca.py:63-78 | adds the entry exactly when it is accepted, and keeps the ladder |
| DcaLadder.SimulatedPosition.Mark | backtest/dca.py:90-96 | appends one evaluation; the worst drawdown seen stays the maximum over the evaluations |
| DcaLadder.SimulatedPosition.Close | backtest/dca.py:98-106 | marks once more, closes, and reports the sum of the legs' profits |
| DcaLadder.ClimbIsBounded | backtest/dca.py:63-78 | after any run of requests, entries and exposure are within limits, k entries lie at least k - 1 distances apart, and the average lies between the first and the last |
| DcaLadder.ClimbKeepsLadder | backtest/dca.py:63-78 | a run only appends entries and keeps the ladder |
| DcaLadder.LadderDepth | backtest/dca.py:63-78 | the first and the last of k entries lie at least k - 1 distances apart |
| DcaLadder.AverageWithinLadder | backtest/dca.py:38-41 | the average price lies between the first and the last entry |
| DcaLadder.PnlIsSumOfLegs | backtest/dca.py:80-83 | profit from the average price is the sum of the legs' profits |
| DcaLadder.CanGrowIff | backtest/dca.py:63-78 | a further entry at some price and size is accepted exactly when entries and exposure are below their limits and one more distance beyond the last entry still costs less than the drawdown limit; an average that is not positive costs nothing |
| DcaLadder.CompleteForGoodIff | backtest/dca.py:63-78 | no run of requests ever adds to the ladder exactly when there is no such room |
| DcaLadder.CompleteWithoutReachingItsLimits | backtest/dca.py:63-78 | a ladder of two entries that one request built, with an entry and exposure to spare, never takes a third |
| DcaLadder.DistanceBeyondDrawdownStops | backtest/dca.py:63-78 | in particular, when the distance is worth the whole drawdown allowance of the average price, no entry is accepted |
| StrategyBacktest.Simulate | backtest/strategy_engine.py:72-90 | the loop stops at the first event that looks ahead; otherwise its trades are those of one position at a time |
| StrategyBacktest.Run | backtest/strategy_engine.py:69-115 | the run is refused exactly when some event looks ahead; otherwise it gives the trades of the sorted events and their metrics, for any square-root function |
| StrategyBacktest.ExpectancySplits | backtest/strategy_engine.py:94-108 | the expectancy is win rate times average win plus loss rate times average loss, and the two rates leave room for break-even trades |
| StrategyBacktest.ProfitableIff | backtest/strategy_engine.py:94-108 | the expectancy is positive exactly when the profit factor is above one, or there are wins and no loss |
| StrategyBacktest.RatiosIff | backtest/strategy_engine.py:102-110 | the Sharpe ratio is missing exactly when all trades net the same, the Sortino ratio exactly when all losing trades do; where there is one, it is positive exactly when the expectancy is |
| StrategyBacktest.RunIsSequential | backtest/strategy_engine.py:71-87 | the trades are the pairs of an opening event and the first closing event after it; they follow each other in time and never overlap |
| StrategyBacktest.SimulationIsCausal | backtest/strategy_engine.py:66-88 | simulating with the events known by a moment gives exactly the trades closed by that moment |
| TimeExit.NextCheckpoint | observation/time_exit.py:83-91 | the loop finds, within 24 increments, the least whole hour strictly after the moment whose hour is divisible by the step, at most min(step, 24) hours away |
| Scheduling.CandleIsFloorIff | observation/driver.py:68-73 | the candle of a tick is the start of its interval, except exactly for the last fraction of a second of an interval before 1970, where it lies in the future |
| Scheduling.TickBefore1970 | observation/driver.py:68-73 | the last microsecond of 1969 belongs to the last minute before 1970 and is given the candle of 1970 |
| Scheduling.CandleContainsTick | observation/driver.py:68-73 | otherwise the candle is on the grid and contains the tick |
| Scheduling.SameCycleIff | observation/driver.py:57-73 | two ticks share a cycle id exactly when their joined names agree in capitals and their candles have the same number; unless a timeframe contains the separator and the two differ in length, that is the same symbol and timeframe |
| Scheduling.SeparatorCollides | observation/driver.py:57-65 | with a separator inside a name, two different pairs of symbol and timeframe share their cycles |
| ForwardOutcome.NeverEarlyNeverLate | observation/outcome.py:183-196 | an outcome exists only at or after the deadline, and is the same however late it is resolved |
| ForwardOutcome.OnlyTheWindowMatters | observation/outcome.py:188-196 | an outcome depends only on the candles after the entry and up to the deadline |
| ForwardOutcome.OutcomeIsOfTheDeadline | observation/outcome.py:188-203 | the future price is the close of a candle at the deadline, the holding time is the horizon, and every candle of the window counts once |
| ForwardOutcome.OrderNeverMattersIff | observation/outcome.py:188-206 | reordering the candles never changes the outcome exactly when all candles at the deadline agree on the close |
| ForwardOutcome.OrderMatters | observation/outcome.py:188-206 | two candles at the deadline with different closes give two outcomes in their two orders |
| ForwardOutcome.ReturnBetweenExcursions | observation/outcome.py:202-213 | with valid candles the return lies between the adverse and the favourable excursion |
| ForwardOutcome.SidesMirror | observation/outcome.py:203-216 | opposite sides mirror each other, and their nets add up to minus twice the cost |
| ForwardOutcome.NetIsNeverAboveGross | observation/outcome.py:151-216 | the net return is never above the gross one, whatever the signs of spread and configured costs, and the estimated cost is the difference |
| Lifecycle.ReachesIff | observation/lifecycle.py:50-65 | a status follows another along allowed transitions exactly when they are equal, or the earlier one is live and of lower rank |
| Lifecycle.AdvanceRises | observation/lifecycle.py:125-138 | an accepted step is a failure of a live observation or the next step of the path; it raises the rank and keeps the observation, and terminal statuses accept none |
| Ingestion.DatasetIngestor.SeenBefore | observation/ingestion.py:65-74 | memory first, then the repository, a failing lookup counting as unseen |
| Ingestion.DatasetIngestor.IngestRow | observation/ingestion.py:76-121 | result, memory and repository are the ingest step of the old ones: the refusals in order, and an exception that forgets the row |
| Ingestion.OncePerProcess | observation/ingestion.py:76-121 | within a process a row is accepted at most once, whatever the repository does |
| Ingestion.OnceAcrossRestarts | observation/ingestion.py:65-121 | across restarts too, as long as the repository answers and writes |
| Ingestion.AcceptedAgainIff | observation/ingestion.py:65-74 | after a restart an accepted row is accepted again exactly when there is no repository, its lookup fails, or it had no row to write to |
| Ingestion.AcceptedTwice | observation/ingestion.py:65-74 | a repository that never answers, a row, a restart and the row again: it is accepted twice |
| Ingestion.FailedWriteIsRetryable | observation/ingestion.py:108-116 | a failed write leaves no trace, and the row can be tried again |
| Driver.Walk | observation/driver.py:342-355 | the five steps to OBSERVING are all allowed |
| Driver.ObservationDriver.AlreadyExecuted | observation/driver.py:233-246 | memory first, then the repository; what the repository knows is remembered |
| Driver.ObservationDriver.RunCycle | observation/driver.py:306-339 | report, memory, store and counters of a cycle that raises, halts or completes |
| Driver.ObservationDriver.Record | observation/driver.py:342-355 | the observation under way is returned and saved, or its save is lost |
| Driver.ObservationDriver.RecordHalted | observation/driver.py:357-365 | the same for a halted cycle, closed as DATA_INVALID with its reasons |
| Driver.ObservationDriver.VisitSymbols | observation/driver.py:287-298 | the loop over the symbols is the fold of the symbol step, and appends one report each |
| Driver.ObservationDriver.SettleObservation | observation/driver.py:419-437 | the settle step, or a refused transition that has changed nothing |
| Driver.ObservationDriver.ResolvePending | observation/driver.py:376-401 | the loop over the due observations is the fold of the resolution step, exceptions closing their own observation only |
| Driver.ObservationDriver.Resolve | observation/driver.py:403-437 | the resolution step, or an exception that has changed nothing |
| Driver.ObservationDriver.RunOnce | observation/driver.py:274-304 | the whole driver after a tick is the tick step of the old one, and the reports are appended |
| Driver.ObservationDriver.RunUntilStopped | observation/driver.py:498-519 | the whole driver after the loop is the run of the old one |
| Driver.ObservationDriver.Start | observation/driver.py:482-486 | the driver runs, with the cycle ids that could be reloaded |
| Driver.ObservationDriver.UpdateDriverState | observation/driver.py:522-526 | degraded exactly while errors are pending, unless failed or stopping |
| DriverLaws.OncePerProcess | observation/driver.py:233-339 | in one process a cycle id is executed or halted at most once, whatever fails |
| DriverLaws.OnceAcrossRestarts | observation/driver.py:233-258 | across any number of restarts too, as long as the repository answers and keeps what it is given |
| DriverLaws.CycleRunsIff | observation/driver.py:233-339 | in any state the cycle of a symbol runs exactly when it does not raise, memory does not hold its id, and the repository is absent, fails to answer or does not hold it |
| DriverLaws.RunsAgainAfterRestartIff | observation/driver.py:233-258 | a cycle that ran runs again after a restart exactly when it does not raise and there is no repository, or its save was lost, or its id was not reloaded and the lookup fails |
| DriverLaws.CountersAddUp | observation/driver.py:280-339 | over every run, executed, duplicate and failed cycles add up to ticks times symbols, each counter counts its reports, the error counter is the current streak, and the last success is that of the last executed cycle |
| DriverLaws.StreakSince | observation/driver.py:312-337 | the streak is the number of FAILED reports after the last EXECUTED one |
| DriverLaws.RunForeverEnds | observation/driver.py:498-519 | the loop ticks until it is stopped, runs out of ticks, or a tick ends with too many errors; it ends FAILED exactly in the last case and STOPPED otherwise |
| DriverLife.ProcessEvolves | observation/driver.py:342-437 | in a process whose memory covers the repository, whatever else fails: stored statuses only move along allowed transitions with rising rank, terminal ones are never rewritten, and nothing passes its horizon before its deadline |
| DriverLife.HistoryEvolves | observation/driver.py:342-437 | the same over any number of processes, as long as no lookup fails |
| DriverLife.SuccessorsConnected | observation/lifecycle.py:58-65 | such a move is joined by allowed transitions |
| DriverLife.SymbolEvolvesIff | observation/driver.py:233-246 | on any state, the save of a cycle keeps every stored observation in place or moves it forward, exactly when it does not overwrite one harmfully |
| DriverLife.StepsEvolveIff | observation/driver.py:233-437 | over any run with restarts, and whatever fails, every save moves the stored observations forward exactly when no cycle overwrites one harmfully |
| DriverLife.NeverTooEarly | observation/driver.py:403-437 | over any run with restarts, harmful overwriting included, no stored observation is past its horizon before its deadline |
| DriverLife.FinishedIsReopenedIff | observation/driver.py:233-246 | a finished observation goes back to OBSERVING exactly when a cycle that completes runs and saves over it |
| DriverExamples.FinishedIsOverwritten | observation/driver.py:233-246 | from an empty repository, a cycle, the end of its observation, a restart that reloads nothing and a lookup that fails: the finished observation is back at OBSERVING, or DATA_INVALID if the second cycle halts, and the cycle has run twice |
| DriverLife.UnresolvedEndings | observation/driver.py:387-417 | which of CALCULATION_ERROR, HORIZON_REACHED, TIMEOUT or OBSERVING an unresolved observation ends in, each exactly under its condition |
| DriverLife.ResolutionIsCounted | observation/driver.py:419-424 | a resolution is counted exactly when there is an outcome, and as labelled exactly when it has a label |
| DriverLife.ShortWindowStaysOpen | observation/driver.py:408-417 | an observation whose candles stop short of the deadline stays open, however late it is |
| DriverExamples.OverdueAndOpen | observation/driver.py:408-417 | a single candle one minute short of the deadline: the observation is open however far past the grace it is |
| DriverLife.ReadyAndTakenIff | observation/driver.py:428-432 | of the observations that become DATASET_READY, the dataset took exactly those whose versions agree and that it had not seen |
| DriverExamples.ReadyButRefused | observation/driver.py:428-432 | an observation of another feature version becomes DATASET_READY, and the dataset is unchanged |

## Left out

- Floating point: prices, money and statistics are reals, and display rounding is dropped. NaN and
  infinities do not occur.
- Identifiers: a digest stands for the tuple it is taken of, and a random identifier for the next number.
  An observation is identified by its cycle, since symbol and horizon are fixed for a driver.
- Gaps.NothingLost: requires one series on one grid; in a mixed list the code compares only neighbours of the same series.
- FxCalendar.CountOpenIntervals: requires a positive step, as every timeframe has.
- PaperFills.RunAccounted: requires each DCA request to name its position; without it the property is false, see
  PaperFills.DcaKeepsFillsIffLabelled.
- Liveness of due observations: the code promises none, see `DriverLife.ShortWindowStaysOpen`.
- Square roots: the root that the ratios of the backtest take is a parameter.
- The order in which due observations come from the repository is left open: the results hold for every order.
- The paper service's persistence and `restore`, the descriptive contexts of its journals, order and event
  identifiers, update times and a position's own realized result.
- The registry's stored copies: only that a save may raise is modelled. Of a record, creation and update times
  and its context are left out; the other descriptive fields are one.
- The table of stored outcomes beside the observations; resolved outcomes are covered by `ForwardOutcome`.
- The labeling engine: a label is an answer of the environment.
- A cycle result that cannot be turned into an observation, which makes a tick raise.
- Threads, clocks and sleeping: the moment is an argument, a stop may come in any tick, and `run_forever` is
  given finitely many ticks.
- Alerts, health reports, logging, dashboards, routes and the live-environment lock.
- Position sizing, data-quality validation of single candles, freshness and the verdict functions: each is
  settled by reading it.
- Execution against MT5, the demo gates, the shadow recorder and the strategy engines are not part of this model.
- String parsing of timeframes and settings: enumerations and parameters.
- Dates beyond the range of the source's date type, whose arithmetic would raise.
