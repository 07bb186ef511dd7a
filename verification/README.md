# Verification of the pair-trading engine

This project models the trading logic of an ETH/BTC pair-trading engine in Dafny and proves what that
logic keeps, over every input, every answer of the exchange and every run.

The engine feeds a bar of two prices every 15 minutes into rolling indicators, which give a z-score
of the relative price and two volatilities. Detectors turn them into entry and exit signals. A state
machine (flat, pending entry, in position, cooldown) and a two-leg order protocol with rollback act on
the signals against an exchange. Before each bar the engine reconciles its position with the exposure
the exchange reports. A backtest runs the same indicators over recorded bars, offline replays study
entry rules, and bookkeeping code reconstructs trade cycles, fills the price store and rotates logs.

## How the model is built

- One module per source component. Objects that the program updates in place are classes with the
  same fields (`StateMachine`, `RollingWindow`, the calculators and detectors, `SignalPipeline`,
  `ExecutionEngine`, `StrategyEngine`, `BacktestEngine`, `PriceStore`, `FileLogger`); loops are loops.
  Each method is proved equal to a function of its inputs and the old state, and the theorems are
  proved about those functions: `Strategy` holds the functions of one live cycle, `Execution` those
  of the order protocol, `Backtest` those of a backtest bar.
- `Decimal` is `real`, time is whole seconds (milliseconds for candles and requests). `ln`, square
  root and the half-life power are a record of functions of which only the root's square and sign are
  used.
- The exchange (`Execution.Venue`) is a book of two signed exposures and resting orders plus a script
  of answers: a fill of any positive quantity, resting, a transient or a fatal error; it records all it is
  sent. A script is
  arbitrary, so every theorem holds for every behaviour; past its end the exchange answers with fatal
  errors. Market orders never rest. A paper exchange echoes the requested quantity. Orders carry the
  reduce-only flag with which closing orders are sent; an exchange honours it or does not.
- A run (`Runs`) is any sequence of cycles, each against an arbitrary exchange, and of restarts from
  the state last saved. The state is written after every cycle, also after a failed one, and the write
  succeeds, fails, or has nowhere to go; a process killed before it is a failed write and a restart.
  Restarts replay arbitrary price records. `Runner` is the loop that takes these steps.
- Live exchanges report positive fills whatever they are asked for, so the live theorems need nothing
  of the configured sizes. Paper trading echoes the order, so there an order for nothing would be filled
  for nothing; the paper theorems hold for settings that never order nothing: sizes below the minimum
  are skipped, or no minimum quantity rounds away. That condition is exact
  (`EngineInvariants.OrdersPositiveIff`, `PaperEntriesSoundIff`).
- The three gates on an entry (funding, regime, cost) are one arbitrary verdict per bar.

## Main results

- **Order protocol.** `PairProtocol.OpenPairOutcome` is the full outcome table of opening a pair.
  Rollback orders always sell (src/execution/mod.rs:33-39 with positive fill quantities), so a
  rollback restores a leg if and only if it was bought and the rollback reports its fill
  (`RollbackRestoresOnlyBuys`). Where the reduce-only flag is honoured a sold leg stays sold
  (`HonouredRollback`), where it is ignored it can double (`SoldLegRollbackDoubles`). Whatever is left
  over is flattened by the next reconciliation whose repair fills (`BookSafety.LeftoverIsFlattened`).
  A request fills if and only if the script lets it within its attempts (`Retries.FillsIff`), and the
  exchange records everything it is sent, so what is sent is a theorem too (`Requests.OpenSends`,
  `CloseSends`, `Retries.CallsWiden`).
- **What a trade books.** `Trades.EntryIsAsSignalled` and `ExitBooksItsGain` say what a bar orders, records
  and earns in terms of its signal, the exchange's reports and the bar's own prices;
  `Positions.RunNames` is the direction of every position of every run. In the backtest
  `BacktestCosts.RunBooksTrades` says the same of its trades, `CostsOnlyCost` that costs only cost, and
  `ParityPnl.PaperEarnsBacktest` that paper trading earns what the backtest says, up to rounding.
- **Never acting on a wrong book.** `BookSafety.CycleNeverActsOnWrongBook`, and over runs
  `Runs.RunNeverActsOnWrongBook`.
- **All runs.** `Runs.ReachableSound`, `NoTransitionRefused` and `CooldownOverRuns`. A restart keeps a
  cooldown if and only if a write has succeeded since the stop-loss (`CooldownNeedsSave`).
- **The ledger.** A failed bar drops the logs its reconciliation left it, and a failed write those of its
  bar: all logs are handed out if and only if neither happens (`Ledger.LogsHandedOutIff`, with the
  losing run `RepairLogIsLost`), and a bar fails exactly for the reasons of `BarFailsIff`. PnL is
  conserved: what the engine knows and what its restarts forgot make the PnL of all logs
  (`PnlConserved`).
- **Indicators.** Every output of every run is stated in terms of the prices fed
  (`PriceSeries.RunMeasuresPrices`) and every signal in terms of the scores
  (`SignalRuns.RunSignals`). No z-score exceeds sqrt(n_z - 1) (and the bound is reached), and an engine
  that restarted and replayed enough records decides like one that never stopped
  (`WarmStart.WarmUpEqualsNeverStopping`). `StartUp.Begin` is the whole start-up, from the backfill over
  the warm-up to its catch-up, and `StartUpHasScore` says exactly when the first run has a score.
- **Two engines.** `Parity.RunsAgree`: live engine on paper and backtest take the same trades. They part
  exactly where the live engine releases a cooldown, which the backtest never does
  (`ReleaseEndsAgreement`), and where a slippage of 100% or more leaves market sales without a price
  (`RunsAgreeIff`).
- **Replays.** The three loops are proved against one reference of trades determined by an entry rule,
  whose trades are well spaced, offered and complete (`Replay.ReplayExact`), and they agree
  (`ReplayParity.ReplaysAgree`).
- **Arithmetic and bookkeeping.** Price rounding and requoting, sizing, backtest accounting, maximum
  drawdown with its exact condition, cycle partition and conservation, paging with its exact
  condition, the pigeonhole behind the early return of the backfill, log rotation and redaction.

Files in order of dependence: Numbers, Trading, Bars, State, Indicators, Signals, ZScoreBound,
Pipeline, PriceSeries, SignalRuns, Restart, Pricing, Execution, PairProtocol, Retries, Sizing, Strategy,
Requests, EngineInvariants, BookSafety, Runs, Ledger, Accounts, Positions, Trades, WarmStart, StrategyEngine,
Runner, Backtest, BacktestAccounting, BacktestCosts, Parity, ParityPnl, Metrics, Replay, ReplaySummary,
ReplayLoops, ReplayParity, Cycles, CycleSummary, History, Backfill, StartUp, LogRotation, Redaction.
`dafny verify dfyconfig.toml` checks them all.

## Model

| member | source | states |
|---|---|---|
| `State.StateMachine.ForceFlat` | src/state/mod.rs:109-114 | drops position, pending entry and release time and nothing else |
| `State.StateMachine.SetCumulativeRealizedPnl` | src/state/mod.rs:116-118 | changes the cumulative PnL and nothing else |
| `State.StateMachine.Hydrate` | src/state/mod.rs:120-157 | accepts exactly the states whose status has its payload, and then takes the whole saved state; a refused state changes nothing |
| `State.StateMachine.Enter` | src/state/mod.rs:159-181 | refused unless flat and past any release time; a refusal changes nothing |
| `State.StateMachine.EnterPending` | src/state/mod.rs:183-201 | as Enter, judged at the submission time of the pending entry |
| `State.StateMachine.ConfirmPendingEntry` | src/state/mod.rs:203-214 | turns a pending entry, and only that, into the confirmed position |
| `State.StateMachine.Exit` | src/state/mod.rs:216-236 | a stop-loss starts a cooldown of the configured hours, every other reason makes the machine flat |
| `State.StateMachine.Update` | src/state/mod.rs:238-246 | releases a cooldown from its release time on and does nothing else |
| `State.RecoverState` | src/state/mod.rs:330-365 | crash recovery: expired cooldowns are released, a lost position makes the machine flat, a single leg is reported for repair |
| `State.RecoverThenUpdate` | src/state/mod.rs:238-246 | recovering before an update equals the update alone if and only if no position is lost and no pending order sits in an expired cooldown, so on every well-formed state |
| `State.WellFormedIsClosed` | src/state/mod.rs:109-246 | each status keeps exactly its payload under every transition and under recovery, recovered states always hydrate, and each transition succeeds from exactly its status |
| `Indicators.RollingWindow.PushValue` | src/indicators/mod.rs:41-46 | the window always holds the last n inputs |
| `Indicators.PushIsLastN` | src/indicators/mod.rs:41-46 | pushing onto the last n inputs gives the last n inputs of the longer history |
| `Indicators.RollingWindow.MeanValue` | src/indicators/mod.rs:60-69 | the accumulation loop computes the mean of the window |
| `Indicators.RollingWindow.StdValue` | src/indicators/mod.rs:71-81 | the accumulation loop computes the population standard deviation |
| `Indicators.QuantileIsRank` | src/indicators/mod.rs:83-96 | the quantile is the value of rank floor((n-1)p): a value of the window with at least that many others at or below it and all remaining ones at or above it |
| `Indicators.SortSorts` | src/indicators/mod.rs:83-96 | the sorted copy is ordered and a permutation of the window |
| `Indicators.ComputeEwmaStd` | src/indicators/mod.rs:126-141 | the recurrence loop computes the exponentially weighted standard deviation of the values |
| `Indicators.EwmaVarianceNonNegative` | src/indicators/mod.rs:126-141 | the recurrence never makes the variance negative, so its root exists for every input |
| `Indicators.EwmaIsWeighted` | src/indicators/mod.rs:126-141 | mean and variance of the recurrence are the weighted sums of the values and of the squared distances from the running mean, each one decay factor lighter than the next |
| `Indicators.SigmaFloorCalculator.Update` | src/indicators/mod.rs:186-206 | the sigma history is the last capacity values and the floor is computed from it, or from the window, by the configured mode |
| `Indicators.ZScoreCalculator.Update` | src/indicators/mod.rs:241-278 | one step of the score machine: window, sigma history and snapshot |
| `Indicators.VolatilityCalculator.Update` | src/indicators/mod.rs:312-344 | fails exactly on a non-positive price and then changes nothing; otherwise one step of both return windows |
| `PriceSeries.RunMeasuresPrices` | src/indicators/mod.rs:241-344 | in every run from fresh indicators, whatever prices were fed, an update at usable prices gives: for either coin its own volatility, present exactly when n_vol returns exist, as the population deviation of its last n_vol values of ln(p_k / p_(k-1)); and the score, present exactly when n_z ratios and the sigma floor exist, as the distance of the newest ln(eth) - ln(btc) from the mean of the last n_z, in units of the larger of their deviation and the floor, which is the constant, the quantile of the last deviations, or the larger of that and the weighted deviation |
| `PriceSeries.EntriesBetOnTheMean` | src/signals/mod.rs:92-116 | in every run an entry is short ETH exactly when the newest price ratio is at or above the mean of its window, and long ETH when it is below |
| `SignalRuns.RunSignals` | src/core/pipeline.rs:46-68 | in every run both signals are those the detectors, set to the configured thresholds, give for the scores of the run under the statuses and positions shown with them, so the trace theorems hold of the pipeline |
| `SignalRuns.RunThresholds` | src/signals/mod.rs:60-195 | in every run a position is left for a stop-loss exactly when its score is at least sl_z away, for take-profit only within tp_z, and an entry needs a flat status and a score below sl_z that is at least entry_z away or an enabled extreme |
| `ZScoreBound.CauchySchwarz` | src/indicators/mod.rs:71-81 | the squared sum of distances from any value is at most n times the sum of their squares |
| `ZScoreBound.NewestWithinBound` | src/indicators/mod.rs:241-278 | the newest value of a window lies within sqrt(n-1) population standard deviations of its mean |
| `ZScoreBound.BoundIsReached` | src/indicators/mod.rs:241-278 | that bound is sharp: after any k equal values any next value reaches it |
| `ZScoreBound.ZScoreBounded` | src/indicators/mod.rs:241-278 | every score emitted by an update, from any history and in every floor mode, satisfies z^2 <= n_z - 1 |
| `Pipeline.SignalPipeline.Update` | src/core/pipeline.rs:46-68 | advances the four components in order and equals one step of the pipeline function |
| `Pipeline.NewPipeline` | src/core/pipeline.rs:31-44 | a pipeline is built exactly for acceptable indicator settings, and starts fresh |
| `Pipeline.StepKeepsSound` | src/core/pipeline.rs:46-68 | windows stay within capacity, last prices usable; an update fails exactly on a non-positive price and then changes nothing |
| `Pipeline.RunKeepsSound` | src/core/pipeline.rs:46-68 | along every run windows stay within capacity and last prices usable |
| `Pipeline.RunFailsExactly` | src/core/pipeline.rs:46-68 | after every run an update fails exactly on a non-positive price, and then changes nothing |
| `Pipeline.RunScoresBounded` | src/signals/mod.rs:158-164 | in every run no stop-loss fires if sl_z^2 > n_z - 1, and no entry signal if entry_z^2 (and the extreme threshold, if enabled) exceeds n_z - 1 |
| `Pipeline.OutputExclusive` | src/core/pipeline.rs:46-68 | an entry signal needs a flat status, an exit signal a held position, so no bar gives both |
| `Signals.EntrySignalDetector.Update` | src/signals/mod.rs:44-116 | overwrites previous score, last status and recovery age and gives the signal of one detector step |
| `Signals.ExitSignalDetector.Evaluate` | src/signals/mod.rs:139-195 | updates the confirmation counter and gives the signal of one detector step |
| `Signals.RecoveryAgeIsTracePredicate` | src/signals/mod.rs:56-90 | the recovery age is k exactly when the last k updates were flat and in the entry zone and the one before them was a cooldown (up to the 32-bit saturation) |
| `Signals.EntrySignalIsTracePredicate` | src/signals/mod.rs:60-116 | an entry signal is given exactly on a crossing, an admissible stale cross or an allowed persistent extreme of the trace |
| `Signals.TakeProfitCounter` | src/signals/mod.rs:146-194 | with c confirmation bars the counter is the length of the current take-profit streak modulo c |
| `Signals.ExitSignalIsTracePredicate` | src/signals/mod.rs:146-194 | take-profit fires exactly at positive multiples of c, or on every bar of a streak when c is 0; stop-loss exactly beyond its threshold; time stop exactly on what is left |
| `Signals.SignalsExclusive` | src/signals/mod.rs:44-194 | the two detectors never signal on the same bar |
| `Restart.ConstFloorTransparent` | src/core/strategy.rs:326-375 | with a constant floor the last max(n_z, n_vol) prices are enough for that |
| `Restart.PushAgree` | src/indicators/mod.rs:41-46 | windows with different pasts become equal after capacity shared inputs |
| `Restart.RunShared` | src/core/pipeline.rs:46-68 | after j bars of the same prices two pipelines share what the last j bars determine |
| `Restart.DetectorsForget` | src/signals/mod.rs:44-194 | given the previous score, the entry detector remembers only the recovery age, if stale-cross recovery is on, and the exit detector only the count, if more than one bar confirms |
| `Restart.StatusResets` | src/signals/mod.rs:44-194 | any shared bar that is not flat makes the recovery ages of two pipelines agree, and any that is not in position their counts |
| `Restart.CountMatters` | src/signals/mod.rs:163-180 | otherwise the count matters: with two confirmation bars one counted bar decides the next |
| `Restart.RestartTransparent` | src/core/strategy.rs:326-375 | two pipelines with arbitrary different pasts that share their last Memory prices decide alike on the next bar, in every floor mode: the same score and volatilities, and each signal the same as far as its counter agrees |
| `Restart.TailsDecide` | src/core/pipeline.rs:46-68 | two pipelines fed from scratch by histories of any lengths decide alike once their last Memory prices are the same |
| `WarmStart.SignalsAreFed` | src/core/strategy.rs:326-375 | in every run of cycles, failures and restarts the indicators of the engine are exactly what the prices that reached them since the last start make of fresh ones |
| `WarmStart.EngineMeasuresPrices` | src/core/strategy.rs:377-431 | so in every run of the engine, whatever failed or restarted, the next usable bar is judged by the volatilities and the score of the prices fed since the last restart |
| `WarmStart.ReplayIsChronological` | src/core/strategy.rs:326-335 | a replay takes its records in the order of their times, every record once, those of one time in the order they came |
| `WarmStart.WarmUpEqualsNeverStopping` | src/main.rs:536-605 | an engine that crashed in any way, restarted and replayed records with the prices of the last live bars decides on the next bar like an engine that ran through those bars and never stopped: the same score and volatilities, and the same signals as far as the settings use no recovery age or confirmation count, or these agree |
| `WarmStart.StartUpScores` | src/main.rs:583-603 | after a start-up that replayed n usable records the next bar has a score if and only if n fills the score window and, without a constant floor, the sigma history; the max(n_z, n_vol, 384) records of a start-up always do with a constant floor, and otherwise exactly when the history is no longer than they leave room for |
| `Runner.Start` | src/main.rs:536-603 | a new process recovers and applies the saved state and replays the records, or reports the refused state or the failed replay |
| `StartUp.LoadsEveryBar` | src/storage/mod.rs:116-140 | a range of the price store that is complete on the grid is read as exactly one record per bar, in order |
| `StartUp.CatchUpIsOneReplay` | src/main.rs:600-630 | replaying the warm-up and then its catch-up equals one replay of all their records |
| `StartUp.Begin` | src/main.rs:536-633 | the whole start-up: restore, fill the store, replay it, and catch up with the bars that ended meanwhile; if it succeeds on a store of grid times and the catch-up is no longer than the warm-up, every bar from the first needed one to the first run was replayed exactly once |
| `StartUp.StartUpIsRestart` | src/main.rs:600-630 | such a start-up is a restart of the runs |
| `StartUp.StartUpHasScore` | src/main.rs:582-633 | after a start-up that succeeded the first run has a score if and only if the replayed bars fill the windows, and always with a constant floor |
| `Pricing.AlignIsGrid` | src/execution/mod.rs:785-824 | digit-count rounding equals rounding to the decimal grid of the price band |
| `Pricing.AlignFailsExactly` | src/execution/mod.rs:785-824 | rounding fails exactly for non-positive prices and for sells below the finest tick |
| `Pricing.AlignSideSafe` | src/execution/mod.rs:785-824 | a buy never rounds below and a sell never above the wanted price, by less than a tick, at most one part in ten thousand from price 1 up |
| `Pricing.AlignIdempotent` | src/execution/mod.rs:785-824 | an aligned price is a fixed point for either side |
| `Pricing.AlignMonotone` | src/execution/mod.rs:785-824 | rounding keeps the order of prices, also across bands of different precision |
| `Pricing.RequoteAggressive` | src/execution/mod.rs:1271-1299 | requotes move only in the aggressive direction and never beyond 120 basis points |
| `Pricing.AlignedRequoteAggressive` | src/execution/mod.rs:1271-1350 | after tick rounding the retried prices are still ordered and pass 120 basis points by less than a tick; the only price that cannot be sent is a sell requoted below the finest tick, and if a later retry can be sent an earlier one can |
| `PairProtocol.PlaceOnce` | src/execution/mod.rs:1413-1435 | a submitted order that fills moves its exposure by exactly the reported quantity, a resting one adds one new order, an error changes nothing |
| `PairProtocol.RetryReduces` | src/execution/mod.rs:1248-1260 | however often it is retried, a reduce-only order on an exchange that honours the flag fills only against the exposure and never beyond it |
| `PairProtocol.CancelOnceExact` | src/execution/mod.rs:980-1027 | a successful cancel removes exactly its order, an error changes nothing |
| `Execution.ExecutionEngine.RetryWith` | src/execution/mod.rs:1352-1375 | retries only transient errors, up to the configured attempts |
| `Execution.ExecutionEngine.RetryMarketWithRequote` | src/execution/mod.rs:1301-1350 | retries market orders with widened prices, at least four attempts |
| `Execution.ExecutionEngine.SubmitWithRetry` | src/execution/mod.rs:1238-1260 | market orders are requoted, others retried unchanged |
| `Execution.ExecutionEngine.FillWithRetry` | src/execution/mod.rs:1234-1260 | an order left resting where a fill was required is an error; whether it may only reduce goes with the order |
| `Execution.ExecutionEngine.CancelWithRetry` | src/execution/mod.rs:1262-1264 | a cancel is retried like any request |
| `Execution.ExecutionEngine.Open` | src/execution/mod.rs:1058-1156 | the two-leg open with its rollback and cancel branches, step by step |
| `Execution.ExecutionEngine.Close` | src/execution/mod.rs:1158-1193 | the two-leg close with its reopening order |
| `Execution.ExecutionEngine.Repair` | src/execution/mod.rs:1195-1228 | closes the one leg that is left |
| `PairProtocol.RetryExact` | src/execution/mod.rs:1301-1375 | a retried request changes the book by exactly its reported answer, in at most max(max_attempts, 4) calls |
| `PairProtocol.NoCallAfterFill` | src/execution/mod.rs:1301-1350 | the market retry loop makes no call after a fill |
| `Retries.FillsIff` | src/execution/mod.rs:1301-1375 | for every script of a live exchange: an order fills if and only if one of the first answers, up to max(max_attempts, 4) for a market order and max(max_attempts, 1) else, is a fill that is not refused and all before it are transient or, for a market order, mean no match (resting does); it makes exactly one call more than there are such answers, up to the limit, sends exactly the orders of those calls, and reports the last answer |
| `Retries.CallsWiden` | src/execution/mod.rs:1271-1299 | the k-th call of a market order sends that very order at the wanted price widened by 15 basis points per earlier call, at most by 120 |
| `Retries.UnsendableIsNotSent` | src/execution/mod.rs:1301-1313 | a market order without a positive price is an error and is never sent |
| `Retries.CancelsIff` | src/execution/mod.rs:1262-1375 | a cancellation succeeds if and only if the first answer that is not transient comes within max(max_attempts, 1) calls and is no error, and makes exactly those calls |
| `Requests.SubmitSends` | src/execution/mod.rs:1238-1375 | a request sends its order, at the prices of its calls, and nothing else; on paper once |
| `Requests.OpenSends` | src/execution/mod.rs:1058-1156 | opening a pair sends calls for the ETH leg, then unless that failed calls for the BTC leg, and then exactly what the outcome asks for: a reduce-only market sale of the fill of a leg that filled alone, the cancellation of one that rests alone, or nothing |
| `Requests.CloseSends` | src/execution/mod.rs:1158-1193 | closing a pair sends calls for the ETH leg, then unless that did not fill calls for the BTC leg, and if that did not fill a sale of what the first leg reported, of the same type and price and not reduce-only |
| `Requests.CancelsBoth` | src/core/strategy.rs:1288-1302 | giving up a pending entry asks to cancel its ETH order and then, whatever came of that, its BTC order; each leaves the book exactly if its own cancellation succeeds |
| `Requests.ExpiryCancelsBoth` | src/core/strategy.rs:377-431 | a pending entry is given up from its expiry time on and not before: both orders are off the book and the engine is flat, or the bar fails and the engine is unchanged |
| `PairProtocol.CancelExact` | src/execution/mod.rs:1262-1264 | a retried cancel removes exactly its order or changes nothing |
| `PairProtocol.OpenPairOutcome` | src/execution/mod.rs:1058-1156 | the outcome table of opening a pair for every script of answers: filled, resting, and each error with the exact book it leaves, down to the quantities the exchange reported for the leg and for its rollback |
| `PairProtocol.OpenErrorLeavesOneLeg` | src/execution/mod.rs:1058-1156 | from a flat book every unsuccessful open leaves at most one leg non-zero |
| `PairProtocol.RollbackRestoresOnlyBuys` | src/execution/mod.rs:1058-1156 | over every run of the open: the leg that was rolled back is restored if and only if it had been bought and the rollback reports its fill, and the other leg is untouched |
| `PairProtocol.HonouredRollback` | src/execution/mod.rs:1070-1135 | on an exchange that honours the reduce-only flag of the rollback a sold leg stays exactly as sold, and a bought one ends between flat and its fill, flat exactly when the rollback reports the whole fill |
| `PairProtocol.SoldLegRollbackDoubles` | src/execution/mod.rs:1070-1088 | on an exchange that ignores that flag, a concrete run in which the rollback of a sold leg doubles it |
| `PairProtocol.ClosePairOutcome` | src/execution/mod.rs:1158-1193 | success moves both legs by their fills and leaves no order behind; failure leaves the second leg alone and the first untouched, or exactly as the reports of its close and of the reopening sale say; only orders that can rest leave orders behind |
| `PairProtocol.ReopeningRestoresOnlyShorts` | src/execution/mod.rs:1158-1193 | when the second leg cannot be closed, the first is restored if and only if it was short and the reopening sale reports the closed quantity |
| `PairProtocol.RepairOutcome` | src/execution/mod.rs:1195-1228 | a repair that reports the whole leg leaves it at zero and nothing else changed; a failed repair changes nothing |
| `Sizing.WeightsShareRisk` | src/position/mod.rs:35-54 | weights lie strictly between 0 and 1, sum to 1 and give both legs the same risk |
| `Sizing.RoundQtyBounds` | src/position/mod.rs:143-157 | rounding down loses and rounding up gains less than one step, and rounding to the nearest moves by at most half of one |
| `Sizing.OrderNearWanted` | src/position/mod.rs:98-141 | in every rounding mode an unadjusted order is less than one step from the wanted quantity, and an adjusted one at or above the greater of the two minima by less than one step |
| `Sizing.ConversionMeetsMinima` | src/position/mod.rs:98-141 | every successful conversion is a whole number of steps that meets both minima, under either policy; the adjusting policy never fails on a positive price |
| `Sizing.FloorLosesLessThanStep` | src/position/mod.rs:98-141 | unadjusted floor-mode orders lose less than one step of the notional |
| `Sizing.LegsWithinCapital` | src/position/mod.rs:98-141 | two unadjusted floor-mode legs are together worth at most the capital they share and less than a step per leg below it |
| `EngineInvariants.PlanWithinCapital` | src/core/strategy.rs:498-737 | the legs of an entry plan that raises neither leg are together worth at most its capital, less than a step per leg below it, and so at most max_notional when one is set |
| `Sizing.UnrepresentableStepBreaksMinimum` | src/position/mod.rs:98-157 | with a step the quantity precision cannot represent an adjusted order can fall below its minimum |
| `Sizing.MinimaMetIff` | src/position/mod.rs:98-157 | the adjusting policy meets both minima at every price if and only if the precision can represent the step, when there is a minimum notional, or the minimum quantity is not rounded down, when there is none |
| `Sizing.NeverForNothingIff` | src/position/mod.rs:98-157 | for any notional no price gives an order for nothing if and only if sizes below the minimum are skipped or the minimum quantity does not round away |
| `Engine.SummarizeExchangeFills` | src/core/strategy.rs:1393-1436 | the loop over fills gives the summary of the totals |
| `Strategy.SummaryIsAverage` | src/core/strategy.rs:1393-1436 | each price of the summary is the size-weighted average of the fills of its coin, so it lies among their prices, or the fallback without a positive size, and the PnL is what all fills closed less their fees |
| `Engine.StrategyEngine.ApplyState` | src/core/strategy.rs:173-180 | takes over a saved state and its cumulative PnL, or refuses it unchanged |
| `Engine.StrategyEngine.BookPnl` | src/core/strategy.rs:1282-1286 | adds to the cumulative PnL of engine and state machine alike |
| `Engine.StrategyEngine.ExpirePendingEntry` | src/core/strategy.rs:383-397 | an expired pending entry is cancelled leg by leg and the machine made flat |
| `Engine.StrategyEngine.RepairLocalResidual` | src/core/strategy.rs:400-425 | the residual branch of the bar |
| `Engine.StrategyEngine.Enter` | src/core/strategy.rs:482-930 | verdict of the gates, capital, sizes, orders and their outcome, step by step |
| `Trades.EntryIsAsSignalled` | src/core/strategy.rs:480-929 | a bar that enters, or leaves an entry resting, has sent two orders on the sides of its signal, sized from notionals that make up the capital (fixed or a ratio of the equity, times the multiplier of the direction) by equal risk of the two volatilities, each priced from its own coin; a filled entry records the reported quantities, each leg at its reported price or its own bar price or the figures of the exchange, and a resting one waits for its two orders until its time is over |
| `Trades.PlanKinds` | src/core/strategy.rs:480-760 | an entry fails if and only if there is no capital within the limit or the gates fail, is skipped when a gate blocks it, and is always ordered when funded, passed and adjusted to the minima |
| `Trades.LimitPriceIs` | src/core/strategy.rs:1157-1177 | a market order is priced worse than its bar price by the slippage, a passive one better by its offset, a limit order exactly at it |
| `Engine.StrategyEngine.Exit` | src/core/strategy.rs:931-1064 | closing orders and their outcome, step by step |
| `Trades.ExitBooksItsGain` | src/core/strategy.rs:931-1064 | a bar that leaves a position has closed it by two reduce-only orders for the whole legs, each priced from its own coin, and raises the cumulative PnL by exactly the PnL of its one new log: that of the exchange fills of its orders if the lookup found some of both coins, else the sum over the legs of signed quantity times (its reported fill price, or its own bar price, less its entry price), less the funding due |
| `Trades.PlainExitGains` | src/core/strategy.rs:1581-1589 | so without funding rates and without exchange fills the cumulative PnL rises by what each leg gained from its entry price to its own exit price |
| `Trades.NoTradeNoPnl` | src/core/strategy.rs:377-1064 | a bar that neither takes nor leaves a position changes no PnL |
| `Accounts.FundingIsPaid` | src/funding/mod.rs:479-519 | funding is the number of intervals begun times what the bought leg pays and the sold one receives per interval, and never negative |
| `Accounts.HoursElapsed` | src/core/strategy.rs:970-976 | whole hours since the entry, and none before it |
| `Accounts.AccountOfPair` | src/core/strategy.rs:1319-1391 | the figures of a pair are those of the exchange fills of its two orders if and only if the lookup found some of both coins; otherwise the model figures stand |
| `Accounts.MatchingKeepsAll` | src/core/strategy.rs:1339-1391 | the fills of the orders are all fills with one of their ids, each as often as the lookup returned it |
| `Engine.StrategyEngine.ProcessBar` | src/core/strategy.rs:377-1064 | the whole bar as a function of engine state, exchange and bar, apart from its bar log |
| `Engine.StrategyEngine.ReconcileExchangePosition` | src/core/strategy.rs:182-324 | the whole reconciliation as a function of engine state, exchange and report |
| `Positions.ConfirmsAsReported` | src/core/strategy.rs:235-290 | a pending entry of which the exchange reports two legs is confirmed at the time of the report, with the reported quantities and notionals, each leg at its own reported entry price unless the exchange has fills of both orders, and in the direction of its legs; position, log and PnL say the same |
| `Positions.RunNames` | src/core/strategy.rs:1233-1280 | in every run, through filled and confirmed entries, failures and restarts, a position that is long ETH and short BTC is called LongEthShortBtc and the opposite ShortEthLongBtc, in the engine and in the saved state; if the exchange only ever reports opposed legs every position is one of the two |
| `Positions.RepairsAsReported` | src/core/strategy.rs:200-231 | a single leg is closed by a reduce-only market order for the whole of it at its entry price, and what it gained up to the reported price, or its own bar price, or the figures of the exchange are booked |
| `Positions.FlatReportDropsPosition` | src/core/strategy.rs:182-199 | a flat report makes the engine drop a position and changes nothing else: a pending entry, a cooldown and the PnL stay |
| `Engine.StrategyEngine.WarmUpWithRecords` | src/core/strategy.rs:326-375 | replays the records in order of time through machine and pipeline, stops at the first missing or unusable price, and sends nothing to the exchange |
| `Runner.LiveRunner.RunOnce` | src/runtime/mod.rs:319-372 | reconciles before the bar, writes the state after success and after failure, and fails on a failed write only after a success |
| `Runner.CycledIsNext` | src/runtime/mod.rs:319-372 | that cycle is the step of the runs and hands out their logs |
| `Runner.LiveRunner.RunLoop` | src/runtime/mod.rs:388-410 | the loop runs a cycle per tick until one reports an error or a shutdown is signalled, and its systems and logs are those of the run of those cycles |
| `EngineInvariants.RepairLocalUnreachable` | src/core/strategy.rs:400-425 | the residual branch of the bar is never taken from a sound engine |
| `EngineInvariants.OrdersPositive` | src/core/strategy.rs:664-780 | the orders of an entry plan are for the two legs on opposite sides, with positive quantities when sizes below the minimum are skipped or the minimum quantities do not round away |
| `EngineInvariants.OrdersPositiveIff` | src/core/strategy.rs:498-780 | for any funded entry the orders are positive at all prices if and only if that holds of the settings |
| `EngineInvariants.OrderForNothingOnPaper` | src/core/strategy.rs:664-890 | on paper an order for nothing is filled for nothing: a filled entry leaves a sound engine if and only if neither order is for nothing, and a single leg exactly when one is |
| `EngineInvariants.PaperEntriesSoundIff` | src/core/strategy.rs:498-890 | so on paper funded entries of limit orders leave the engine sound at all prices if and only if the settings meet the condition |
| `EngineInvariants.OpenExact` | src/execution/mod.rs:1058-1156 | opening moves the book exactly as it reports, on a live exchange for any orders and on a paper one for positive quantities |
| `EngineInvariants.CloseExact` | src/execution/mod.rs:1158-1193 | a successful close moves each leg by its reported fill |
| `EngineInvariants.EnterFilledKeeps` | src/core/strategy.rs:796-890 | a filled entry records a position whose signed legs are the fills, with PnL and log in step |
| `EngineInvariants.ExitClosedKeeps` | src/core/strategy.rs:952-1064 | a filled exit leaves no position; a stop-loss, and only that, starts the cooldown |
| `EngineInvariants.BarKeeps` | src/core/strategy.rs:377-1064 | every bar, whatever the exchange answers, keeps the engine sound, refuses no transition and changes the cumulative PnL by exactly the PnL of its logs |
| `EngineInvariants.ReconciliationKeeps` | src/core/strategy.rs:182-324 | every reconciliation does the same |
| `EngineInvariants.CycleKeeps` | src/runtime/mod.rs:319-364 | and so does every cycle, on any live exchange and on a paper one whose settings never order nothing |
| `BookSafety.ResidualBook` | src/core/strategy.rs:202-231 | after a residual reconciliation the engine is flat, and the book is flat exactly when the repair filled the whole leg |
| `BookSafety.ReconcileAgrees` | src/core/strategy.rs:182-324 | a reconciliation that succeeds on a faithful exposure leaves engine and book in agreement except exactly when it repaired a leg in part; without a single leg it sends nothing, and it fails exactly on a disagreement |
| `BookSafety.EntryAgrees` | src/core/strategy.rs:482-930 | an entry touches the exchange only from a flat book and leaves engine and book in agreement unless it ends in an error |
| `BookSafety.ExitAgrees` | src/core/strategy.rs:931-1064 | a successful exit leaves them in agreement exactly when both legs closed in full |
| `BookSafety.BarAgrees` | src/core/strategy.rs:377-1064 | the same for the whole bar |
| `BookSafety.CycleNeverActsOnWrongBook` | src/runtime/mod.rs:319-364 | a reconciled cycle whose repair (if any) fills in full starts its bar with local quantities equal to the exposure, sends an entry only from a flat book, and on any other mismatch ends with an error and unchanged exposures |
| `Runs.RunNeverActsOnWrongBook` | src/runtime/mod.rs:319-364 | and so does every such cycle of every run |
| `BookSafety.LeftoverIsFlattened` | src/core/strategy.rs:202-231 | what an unsuccessful open leaves behind is flattened by the next reconciliation whose repair fills |
| `Runs.ReachableSound` | src/runtime/mod.rs:319-372 | in every run of cycles against arbitrary exchanges, failed writes, crashes and restarts each status carries exactly its payload, engine and machine agree on the PnL, nothing waits to be reported and the saved state can be recovered |
| `Runs.NoTransitionRefused` | src/state/mod.rs:159-236 | in every run no enter, enter_pending, confirm_pending_entry or exit of the engine is refused |
| `Runs.RestartKeeps` | src/state/mod.rs:330-365 | recovery and hydration of a saved sound state always succeed and give the engine its cumulative PnL |
| `Runs.CooldownStarts` | src/state/mod.rs:216-236 | a cooldown starts only with a stop-loss exit, lasts the configured hours from that bar, and is on disk exactly if the write of that cycle succeeded or an older state cools until the same time |
| `Runs.RestartKeepsCooldownIff` | src/runtime/mod.rs:148-160 | a restart during a cooldown keeps it if and only if it was on disk or a write has succeeded since |
| `Runs.CooldownNeedsSave` | src/runtime/mod.rs:148-160 | so the first restart after a stop-loss keeps its cooldown if and only if a write has succeeded since the stop-loss |
| `Runs.ResidualRepairEndsCooldown` | src/core/strategy.rs:202-231 | a single leg seen during a cooldown ends it: a successful repair makes the machine flat, a failed one keeps the cooldown |
| `Runs.NoEntryBeforeRelease` | src/core/strategy.rs:470-480 | every cycle before the release, through restarts that find the cooldown on disk, leaves it in place, reports no event and sends nothing |
| `Runs.CooldownOverRuns` | src/state/mod.rs:216-246 | in any run from a fresh start, no cycle between a stop-loss at t and t + cooldown_hours trades, if a write succeeded before each restart, the clock is orderly and no single leg is seen |
| `Runs.UnsavedStopLossIsForgotten` | src/runtime/mod.rs:369-371 | why the state must be saved: a restart from a state saved before the stop-loss is free to trade after reconciliation |
| `Ledger.BarFailsIff` | src/core/strategy.rs:377-1064 | a bar fails exactly if an expired entry cannot be cancelled, a price is not positive, the plan of a signalled entry fails, its orders do other than for being too passive, or closing does; and one that succeeds writes a log exactly if a trade is filled |
| `Ledger.LogsHandedOutIff` | src/runtime/mod.rs:319-386 | all trade logs of a run are handed out if and only if in no cycle such a bar follows a reconciliation that left logs, or a write fails after logs or a filled trade |
| `Ledger.PnlIsBooked` | src/core/strategy.rs:1282-1286 | after every run the cumulative PnL of engine and machine is that of the booked logs, and the saved one that of those booked when it was written |
| `Ledger.PnlConserved` | src/main.rs:539-549 | over every run the PnL the engine knows and what its restarts forgot, at each the running PnL less the saved one, make the PnL of all logs |
| `Ledger.PnlIsLogged` | src/core/strategy.rs:1282-1286 | the ledger in one statement: engine PnL as that of the booked logs, and when nothing is lost or forgotten that of the logs handed out |
| `Ledger.CycleHandsOutAllOrNothing` | src/runtime/mod.rs:319-386 | a cycle hands out all the logs it produced or none of them, and none of some exactly when it loses them |
| `Ledger.RepairLogIsLost` | src/core/strategy.rs:381-382 | a run of two cycles that loses a log: a leg is repaired and 2 booked, the entry of the same bar asks for too much capital, and the log of the repair is never handed out |
| `Backtest.BacktestEngine.Run` | src/backtest/mod.rs:122-329 | the loop over bars gives the trades and the equity curve of the backtest function, or its error |
| `Backtest.BacktestEngine.ProcessBar` | src/backtest/mod.rs:147-318 | one bar of the loop |
| `Backtest.BacktestEngine.Enter` | src/backtest/mod.rs:158-240 | the entry part: sizes, transition and open trade |
| `BacktestAccounting.RunBalanced` | src/backtest/mod.rs:145-329 | on bars in time order the open trade is exactly the machine position, every equity point is the initial equity plus the PnL closed by then, trades are ordered and disjoint, and only the last can be a stop-loss |
| `BacktestAccounting.RunBooks` | src/backtest/mod.rs:145-329 | on bars with whatever times the same holds by position: point k of the curve is the initial equity plus the trades of the first k + 1 bars, with which the list of trades begins |
| `BacktestAccounting.StopLossIsFinal` | src/backtest/mod.rs:147-156 | after a stop-loss the backtest never trades again: its machine is never updated |
| `BacktestAccounting.GrossPnlNearMarkToMarket` | src/backtest/mod.rs:354-371 | gross trade PnL differs from the mark-to-market of the quantities by at most one step times the price move per leg |
| `BacktestCosts.RunBooksTrades` | src/backtest/mod.rs:145-408 | on every bar of every run: a trade opens at the prices of its bar in the direction of its signal, with notionals that share the capital by equal risk; it stays as it was opened; and when it closes its PnL is the signed sum of what its notionals gained since those prices, less notional times each included rate and less the included funding estimate; nothing else moves the equity |
| `BacktestCosts.NoMoveNoGain` | src/backtest/mod.rs:373-408 | a trade left at its entry prices loses exactly its costs and never gains |
| `BacktestCosts.CostsOnlyCost` | src/backtest/mod.rs:373-408 | with a fixed notional a run that includes more costs, or at higher rates, makes the same trades on the same bars, each with no more PnL, and its equity is at no point higher |
| `Parity.SameSizes` | src/backtest/mod.rs:158-225 | with equal capital backtest and live engine size an entry alike |
| `Parity.BarAgreeIff` | src/core/strategy.rs:377-1064 | on paper a bar that does not release the cooldown keeps live engine and backtest in agreement, that is both fail or both take the same action with the same signed quantities, if and only if the backtest does not trade by market where the slippage leaves a sale without a price; there the live bar fails |
| `Parity.BarAgree` | src/core/strategy.rs:377-1064 | so with limit orders or a slippage below 100% every such bar keeps them in agreement |
| `Parity.ReleaseEndsAgreement` | src/backtest/mod.rs:147-156 | they stay in agreement if and only if the bar does not release the live cooldown |
| `Parity.RunsAgreeIff` | src/backtest/mod.rs:122-329 | on every list of bars before the first release the live engine runs through exactly those on which the backtest neither fails nor makes such a trade, and takes the same entries and exits: bars, directions, signed quantities, reasons |
| `Parity.RunsAgree` | src/backtest/mod.rs:122-329 | so with usable prices the two take the same trades and fail on the same bar |
| `Parity.RunsAgreeThroughStopLoss` | src/backtest/mod.rs:122-329 | in particular up to and including the bar of the first stop-loss |
| `ParityPnl.BarEarnsAlike` | src/core/strategy.rs:931-1064 | a bar on which both agree changes the live PnL by the gain of the trade the backtest closes, up to the rounding gap of each order times its price move |
| `ParityPnl.GapBelowStep` | src/position/mod.rs:98-141 | in floor mode without adjustment that gap is less than one step |
| `ParityPnl.PaperEarnsBacktest` | src/backtest/mod.rs:122-408 | over every run before the first release of a cooldown the live engine on paper earns what the backtest without costs says, up to the sum of those gaps, and with costs at least that |
| `Metrics.MaxDrawdown` | src/backtest/mod.rs:565-577 | the one-pass loop computes the deepest fall from the running peak; it is the maximum over i <= j with e_i > 0 of (e_i - e_j) / e_i when equity never turns negative after a positive point, and at most 1 exactly then |
| `Metrics.OnePassIsQuadratic` | src/backtest/mod.rs:565-577 | the one-pass and the quadratic definition agree on every such curve, in particular on every non-negative one |
| `Metrics.WithinOneIffSolvent` | src/backtest/mod.rs:565-577 | the one-pass drawdown exceeds 1 exactly on curves that turn negative after a positive point |
| `Metrics.MaxDrawdownUnique` | src/backtest/mod.rs:565-577 | the quadratic definition determines one value |
| `Metrics.InsolventCurveDiffers` | src/backtest/mod.rs:565-577 | on the curve 1, 2, -1 the one-pass value is 3/2 and the quadratic one 2 |
| `Metrics.QuadraticIsDeeper` | src/backtest/mod.rs:565-577 | on every curve the quadratic value is the deeper of the falls from the highest and from the smallest positive point so far |
| `Metrics.OnePassIsQuadraticIff` | src/backtest/mod.rs:565-577 | on every curve the one-pass value is the quadratic one if and only if every fall below zero, from whatever point, is matched by one at least as deep from the peak of its moment |
| `Metrics.BreakdownMonthly` | src/backtest/mod.rs:759-770 | the rows are exactly the months with exits in ascending order, each with the PnL of its trades, and they add up to all of it |
| `Replay.IdleSpaced` | src/analysis/mod.rs:1477-1542 | trades of any entry rule never overlap, end at their first bar with an exit reason after 1 to 192 bars, and none enters within 96 bars after a stop-loss |
| `Replay.IdleOffered` | src/analysis/mod.rs:1577-1666 | every trade enters on a bar the rule offers |
| `Replay.IdleMissesNothing` | src/analysis/mod.rs:1477-1542 | a bar the rule offers starts a trade unless a trade or its stop-loss cooldown covers it, or a position entered after all trades is still open at the end |
| `Replay.ReplayExact` | src/analysis/mod.rs:1477-1760 | the three statements together, for every series and rule |
| `ReplayLoops.FilteredLoop` | src/analysis/mod.rs:1477-1542 | the filtered loop makes exactly the trades of its rule, at their prices, whenever no trade enters at a zero price |
| `ReplayLoops.StrategyLoop` | src/analysis/mod.rs:1577-1666 | the price-only loop does, with its recovery age |
| `ReplayLoops.CarryLoop` | src/analysis/mod.rs:1668-1760 | the funding-carry loop does, with carry added to each trade |
| `ReplayLoops.ReplayFilteredStrategy` | src/analysis/mod.rs:1477-1542 | the summary of the filtered trades |
| `ReplayLoops.ReplayStrategy` | src/analysis/mod.rs:1577-1666 | the summary of the price-only trades |
| `ReplayLoops.ReplayFundingCarryStrategy` | src/analysis/mod.rs:1668-1760 | the summary of the funding-carry trades |
| `ReplayLoops.RecoveryAgeIsTrace` | src/analysis/mod.rs:1617-1632 | the recovery age is k exactly when the last k bars were in the zone, the first of them was a logged or simulated release and no later one was |
| `ReplayLoops.OfferedEntry` | src/analysis/mod.rs:1617-1648 | crossing first, then recovery, computed from the previous score and the running age |
| `Replay.TradesEndAtThresholds` | src/analysis/mod.rs:1762-1778 | every trade bets against the score of its first bar, is held as long as the score stays between the thresholds and at most 192 bars, and its reason says how that ended |
| `ReplayLoops.NetIsHedged` | src/analysis/mod.rs:1563-1575 | a price move r of a leg is worth r of its weight, for the bought leg and against the sold one, both add up, and every trade pays 8.98 basis points |
| `ReplaySummary.SummarizeReplayTrades` | src/analysis/mod.rs:1845-1882 | every trade is counted once in every breakdown, wins, losses and even trades make the total, and no basis point is lost |
| `ReplayParity.SameSpans` | src/analysis/mod.rs:1477-1760 | without recovery, with every entry allowed and without the gate the three loops take the same bars, directions, sources and exit reasons |
| `ReplayParity.CarryIsFundingReceived` | src/analysis/mod.rs:1804-1828 | the carry of a trade is what a live position would pay in funding per interval, received instead, over its holding time |
| `ReplayParity.ReplaysAgree` | src/analysis/mod.rs:1477-1760 | the price-only and the filtered replay make the same trades at the same prices, and the carry total is larger by exactly the carry of the trades |
| `ReplayParity.EveryReplayWellSpaced` | src/analysis/mod.rs:1477-1760 | all three space their trades, whatever their configuration |
| `Cycles.BuildCycle` | src/analysis/mod.rs:921-974 | the accumulation loop computes kind, direction, PnL, fees and opened notional of the rows |
| `Cycles.ReconstructCycles` | src/analysis/mod.rs:895-919 | the loop gives a closed cycle for every round trip and an open one for the rest |
| `Cycles.SplitIsPartition` | src/analysis/mod.rs:895-919 | the row groups split the input in order; each closed one is back at zero in both coins at its last row and at no earlier one |
| `Cycles.PartitionUnique` | src/analysis/mod.rs:895-919 | no other split has that property |
| `Cycles.PairedTradesBoth` | src/analysis/mod.rs:949-962 | a cycle is paired exactly when its legs opposed each other after some row, and then it traded both coins |
| `Cycles.DirectionIsFirstOpposed` | src/analysis/mod.rs:976-984 | the direction of a cycle is that of its legs, bought less sold, when they first oppose each other |
| `Cycles.PositionIsBoughtLessSold` | src/analysis/mod.rs:319-329 | the running position of a coin is what was bought (opening long, closing short) less what was sold |
| `CycleSummary.CyclesConserve` | src/analysis/mod.rs:895-974 | rows, PnL, fees and opened notional are conserved; only the last cycle can be open, and one is exactly when the history ends with a position |
| `CycleSummary.BucketsFit` | src/analysis/mod.rs:350-371 | total = paired + single-leg + unclassified in every field, and the two directions make the paired bucket |
| `CycleSummary.BucketBalances` | src/analysis/mod.rs:772-788 | in every bucket cycles are won, lost or even, gross is net plus fees, and net is the won less the lost |
| `CycleSummary.NetIsCycleSum` | src/analysis/mod.rs:772-788 | the total bucket adds up all cycles |
| `CycleSummary.Add` | src/analysis/mod.rs:773-788 | one cycle is added to a bucket field by field |
| `CycleSummary.Finalize` | src/analysis/mod.rs:790-803 | the rates of a bucket, absent when their base is zero |
| `CycleSummary.RatesBalance` | src/analysis/mod.rs:790-804 | the rates of every bucket: the net edge and the fees are basis points of the opened notional and make up the gross edge, the win rate is a share of the cycles and the profit factor one of the losses, each present exactly if its base is positive |
| `CycleSummary.CyclesFollow` | src/analysis/mod.rs:895-974 | the cycles of a history in time order follow one another: each starts no later than it ends and ends no later than the next starts |
| `CycleSummary.SummarizeCycles` | src/analysis/mod.rs:350-371 | the loop fills every bucket with exactly its cycles |
| `Bars.GapWindowIsExact` | src/runtime/backfill.rs:31-45 | the replay window covers exactly the bars not yet warmed up and before the next run |
| `Bars.BarBeforeMeansMomentBefore` | src/data/mod.rs:879-885 | the bar of a moment precedes an aligned instant exactly when the moment does |
| `History.FetchHistory` | src/data/mod.rs:418-469 | the paging loop asks for every page once, returns exactly the candles each page keeps in ascending order, or the error of the first refused page |
| `History.PagesRoundUp` | src/data/mod.rs:418-469 | the number of requests is the number of bars divided by 5000, rounded up |
| `History.FetchesKept` | src/data/mod.rs:418-469 | from a server that holds candles a fetch returns exactly the held ones that some page keeps |
| `History.WholeRangeIff` | src/data/mod.rs:418-469 | it returns the whole held range if and only if no held candle lies in the gap between two pages |
| `History.SortedUnique` | src/data/mod.rs:418-469 | an ordered map is determined by what it holds, order included |
| `History.SortedRange` | src/data/mod.rs:418-469 | so the result is the sorted held range, however many pages it took |
| `History.GridIsNeverLost` | src/data/mod.rs:418-469 | candles on the 15-minute grid are never lost |
| `Backfill.SaveGrid` | src/runtime/backfill.rs:79-112 | the saving loop stores every grid point or stops at the first one that lacks a bar or a price |
| `Backfill.EnsurePriceHistory` | src/runtime/backfill.rs:47-115 | the early return, both fetches and the saving with the exact store each outcome leaves; success on a store of grid times means every needed bar is stored |
| `Backfill.CompleteIffEnoughOnGrid` | src/runtime/backfill.rs:58-66 | all needed grid points are stored if and only if the range stores as many grid times as are needed |
| `Backfill.EnoughRowsAreAll` | src/runtime/backfill.rs:63-66 | if only grid times are stored, enough rows are all rows |
| `Backfill.StrayRowHidesHole` | src/runtime/backfill.rs:63-66 | one record on the grid and any other before the next grid point are as many rows as two grid points need, and one of those is missing |
| `Backfill.ReadsBackEffective` | src/runtime/backfill.rs:88-130 | filling in the mid price of a stored record does not change the price read back |
| `LogRotation.NewFileLogger` | src/logging/mod.rs:558-566 | a logger exists exactly for settings that keep at least one rotated file |
| `LogRotation.FileLogger.WriteLine` | src/logging/mod.rs:568-582 | after any sequence of writes the files are the last ones of the greedy packing of all lines |
| `LogRotation.FileLogger.Rotate` | src/logging/mod.rs:584-600 | every file number grows by one and the last file falls out |
| `LogRotation.PackingKeepsLines` | src/logging/mod.rs:568-582 | packing loses no line and keeps the order |
| `LogRotation.PackingFits` | src/logging/mod.rs:568-582 | every file is within the limit or holds a single line |
| `LogRotation.FilesAreSuffix` | src/logging/mod.rs:568-600 | files are numbered without holes, at most max_files are rotated, each fits or holds one line, and read back they are a suffix of everything written, all of it if none was dropped |
| `Redaction.RedactWalletAddresses` | src/logging/mod.rs:505-534 | the scan masks every address and leaves text without one alone |
| `Redaction.RedactedHasNoAddress` | src/logging/mod.rs:505-534 | no wallet address survives redaction |
| `Redaction.RedactionIdempotent` | src/logging/mod.rs:505-534 | redacting twice is redacting once |

## Left out

- HTTP clients, JSON and CSV parsing, EIP-712 signing, rate limiting, nonces, request expiry
  (`expires_after`), retry delays and environment timeouts: foreign calls.
- SQLite: the price store is a map keyed by time, the state store a single saved state whose write
  succeeds or changes nothing.
- CLI, configuration loading, text formatting, CSV and JSON export, alert channels. Of configuration
  validation only the inequalities the proofs use are taken (src/config/mod.rs:651-903).
- Half-life estimates, Sharpe ratio and annualized return: floating point. Their gates are arbitrary
  verdicts.
- Rounding of `Decimal` division to 28 digits: exact reals instead.
- Funding controls and the cost gate as formulas; slippage, fee and entry-block fields of the logs.
- Error texts, except the two that steer the protocol (no immediate match, post-only would take).
- Closing on an exchange that ignores the reduce-only flag may fill more than the leg; theorems about
  closing hold for both kinds of exchange and state what a full fill achieves.
- Live price alignment is proved on its own and not composed into the book, which needs no prices.
- `PriceHistory` and `PriceHistorySet`: the same last-n buffers as `RollingWindow`.
- Row ages and file sizes as fixed-width integers: unbounded here, except the saturating 32-bit
  recovery age of the entry detector, which is modelled.
- The clock default of `build_cycle` for no rows: cycles are only built from rows.
- File system errors of the log writer, and logging on a directory that is not empty at the start.
- PairProtocol.RollbackRestoresOnlyBuys: exact restoration of a sold leg is not stated, because the
  code does not do it; nor does it cancel the other order in a mixed filled and resting outcome.
- Parity.RunsAgree: stated up to the first release of the live cooldown, because the backtest never
  releases it; the other half is `Parity.ReleaseEndsAgreement`.
- ReplayLoops.FilteredLoop: rows on which a trade enters at a zero price are excluded, because the
  program's division panics there. The same holds for the other two loops and for the three
  summaries.
- Metrics.BreakdownMonthly: the calendar is an arbitrary function from times to months.
- Engine.StrategyEngine.Enter: the funding, regime and cost gates are one arbitrary verdict, so nothing
  is said of when they block.
- Engine.StrategyEngine.ProcessBar: the gates are that verdict, and the bar log with its telemetry
  fields is not modelled.
- Runner.LiveRunner.RunLoop: ticks and shutdown signals come as a list, and fetching bars with its
  retries is not part of this model.
- WarmStart.WarmUpEqualsNeverStopping: signals are promised equal only as far as recovery age and
  confirmation count agree, which reach back further than any number of bars (`Restart.CountMatters`).
- StartUp.Begin: a store with times off the grid, or a catch-up longer than the warm-up, is replayed as it
  is; that every bar is replayed once is promised without these.
