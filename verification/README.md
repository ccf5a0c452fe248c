# Verified models of the hard parts of a trading-assistant server

The repository is a Go server that exposes a brokerage account as assistant tools: it backtests
strategies, analyses a portfolio, renders widgets, limits request rates, and restarts and shuts
itself down without dropping traffic. This project models the parts of it that are more than
plumbing and proves what they are for. `dafny verify dfyconfig.toml` checks everything.

Methods follow the Go code's loops, branches and state; each is proved against a specification,
and the lemmas say what follows from the specification over every input, every run or every
interleaving.

## Modules

| file | what it models |
|---|---|
| `Rounding`, `Sums`, `Sorting`, `Holdings`, `Wrappers`, `Text` | shared: two-decimal rounding, sums and Cauchy-Schwarz, `sort.Slice` by a key, a holding, `Option` and `Result`, the `strings`/`strconv` calls used |
| `Indicators`, `Signals`, `Simulation`, `Backtest`, `PriceSwings` | the backtest engine: SMA, RSI and Bollinger bands, four signal generators, the position machine, drawdown, the report, and backtests that show what rounding can do |
| `SignalTerms`, `TradeTerms` | what signals, trades and reports are in terms of prices, quantities and capital alone |
| `Handshake`, `RestartProtocol` | graceful restart: the byte-level ready handshake and the whole protocol with any number of forked children |
| `LimiterMap`, `RateLimit`, `TokenBucket`, `InterleavedAdmission`, `DroppedLimiters`, `StackedAdmission`, `StopProtocol`, `RateLimitEnv` | rate limiting: double-checked locking, admission through two layers in sequence and by interleaved threads, exactly which requests pass, what limiters dropped by a cleanup add, the stop protocol, reloadable per-tool caps |
| `Lifecycle`, `ShutdownProtocol` | ordered teardown: adapter, manager, and `Shutdown` under interleaving, with the call stack that a panic unwinds |
| `FakeClock` | the test clock and its one-slot tickers |
| `Concentration`, `TaxHarvest`, `SectorDonut` | portfolio arithmetic: Herfindahl index and top five, tax netting, sector breakdown |
| `ConcentrationTerms`, `TaxTerms`, `SectorTerms` | the three reports in terms of the holdings' prices and quantities alone |
| `InjectData` | escaping JSON for a script element and putting it into a template |

Protocols are state machines with a step for every atomic action, failure and timeout; a run is
any sequence of enabled steps. Objects the Go code mutates are classes; a function of their fields
gives the abstract value the lemmas are about.

## Conventions and assumptions

- Numbers are exact reals, and Go's `math.Round(x*100)/100` is modelled as it rounds: halves away
  from zero. Prices the code divides by are required positive, and so is the capital. The position
  size lies in (0, 100], to which the tool handler clamps it.
- `rate.Limiter` is a plain token bucket that starts full, and `ToolRateLimiter.SetLimits`
  replaces all caps. Neither package is in the repository.
- A restarted child writes its ready message only once it serves (the documented contract of
  `SignalReady`); only `SomebodyServes` uses this, as a condition on child steps.
- The square root, the symbol table of sectors, the percentage formatter and what `json.Marshal`
  returned are parameters.
- `sort.Slice` may leave ties in any order, and Go's map iteration may visit keys in any order;
  the contracts allow every outcome.

## What turned out differently from what the code or its comments say

- **RSI 0 means "not ready".** The RSI generator skips a bar whose index is 0, which is also a real
  reading. `Signals.RsiZeroSkipHidesBuy`: from period 2 on and for a threshold in [0, 100), a BUY is
  hidden exactly where the price falls without ever having moved before, and for any other threshold
  none is; `Signals.RsiPeriodOneNeverBuys`: with period 1 it hides all of them.
- **Drawdown above 100%.** Profits are rounded before they are booked. When prices are not whole
  paise, any start can book negative equity (`PriceSwings.RoundingCanOverdraw`), though only once the
  exact capital is below half a paisa per trade (`Backtest.OverdrawnOnlyWhenNearZero`). The reported
  value stays within 100% exactly when the booked curve never goes negative, as it never does on
  whole-paise prices.
- **Largest drop missed.** The drawdown loop measures from the running peak. On a curve that goes
  negative a pair of points can drop further (`PriceSwings.PeakLoopCanUnderstate`);
  `Backtest.PeakLoopIsPairMaximum` says exactly when the loop's value is the largest drop of all.
- **A gain counted as a loss.** A trade is counted as losing if and only if it gained less than half
  a paisa (`Backtest.LosingBelowHalfPaisa`), so a smaller gain is a loss in the statistics
  (`PriceSwings.GainCountedAsLoss`); not on whole-paise prices (`Backtest.ProfitSigns`).
- **Day 365.** A holding assumed held 365 days is neither long-term nor approaching
  (`TaxHarvest.HoldingPeriods`). The documented "-1" and "unknown" are never reported, and the
  authorised date the tool description mentions is not read.
- **Concentration labels.** Four holdings or fewer are always "concentrated" and six or fewer never
  "diversified", however evenly spread (`Concentration.LabelByCount`).
- **Strict JSON.** An escaped comment opener uses `\!`, which a script reads but JSON does not
  (`InjectData.CommentOpenerBreaksJson`); `InjectData.EscapedReadsTheSame` says exactly when the
  escaped text is still JSON. With the encoder in use the case cannot arise, since it writes every
  "<" as an escape (`InjectData.EncoderOutputStaysJson`); the replacements guard against a change of
  encoder.
- **Negative `Advance`.** The fake clock accepts it and moves back; `FakeClock.NegativeAdvance` says
  exactly when the grid of the tickers survives, and `FakeClock.SteppingBackBreaksGrid` shows two
  runs in which it does not.
- **Dropped limiters go on refilling.** A thread may still ask a limiter that a cleanup has removed.
  What such limiters admit is all that an interleaved run can have beyond the bound of a sequential
  one (`DroppedLimiters.ExcessIsStale`). At a zero rate or burst they never refill and the bound
  holds; at any other rate and burst some run goes beyond it, and these are the only two cases
  (`DroppedLimiters.WhenSequentialBoundHolds`).
- **"Drain complete" can come early.** The drain wait starts while another goroutine has yet to stop
  the server, so it can find no request in flight and say so while new ones are still accepted
  (`RestartProtocol.DrainReportedEarly`). The report is right for good exactly when the parent has
  stopped accepting by then (`RestartProtocol.DrainedForGood`).
- **Completed comment openers.** When the template stops in "<!-" right before the placeholder, a
  negative number completes a comment opener; `InjectData.InjectionOpensNothing` gives the exact
  condition for the page to hold no opener but the template's own.
- **Restart listener.** Its comment says it loops back after a failed restart; the code loops back
  after a successful one too, and the model does the same.

## Model

| member | source | states |
|---|---|---|
| Rounding.RoundHalfAwayIsNearest | mcp/analytics/backtest_tool.go:589-591 | the rounding step returns n if and only if n is the nearest integer, the one farther from zero on a tie |
| Rounding.Round2Error | mcp/analytics/backtest_tool.go:589-591 | rounding to two decimals moves a value by at most 0.005 |
| Rounding.Round2Fixed | mcp/analytics/analytics_tools.go:482-484 | rounding leaves a value alone if and only if it is a whole number of hundredths |
| Rounding.Round2Monotone | mcp/analytics/analytics_tools.go:482-484 | rounding keeps order |
| Indicators.ComputeSMA | mcp/analytics/indicators_tool.go:187-202 | the running-sum loop returns at every bar the mean of its window, zero before the first full one, nothing if there are too few prices |
| Indicators.ComputeRSI | mcp/analytics/indicators_tool.go:145-185 | the loop returns Wilder's index at every bar: plain mean first, then exponential smoothing |
| Indicators.StrengthIsGainShare | mcp/analytics/indicators_tool.go:145-185 | the index is the gains' share of all movement, within [0, 100], 0 only with losses alone and 100 only without losses |
| Indicators.ComputeBollingerBands | mcp/analytics/indicators_tool.go:221-245 | the nested loops return the window mean plus and minus the multiple of its standard deviation |
| Indicators.SmaPrefix | mcp/analytics/indicators_tool.go:187-202 | an average does not depend on later prices |
| Indicators.RsiPrefix | mcp/analytics/indicators_tool.go:145-185 | the index does not depend on later prices |
| Indicators.BandsPrefix | mcp/analytics/indicators_tool.go:221-245 | the bands do not depend on later prices |
| Signals.SignalsBreakout | mcp/analytics/backtest_tool.go:374-412 | each bar gets BUY, SELL or nothing as its close compares with every high and low of the two look-back windows |
| Signals.BreakoutConditionsExclusive | mcp/analytics/backtest_tool.go:374-412 | with both windows non-empty and low not above high, the BUY and the SELL condition never hold together |
| Signals.SignalsSMACrossover | mcp/analytics/backtest_tool.go:307-338 | a signal exactly where the short average crosses the long one between two bars, none of the four readings being the zero sentinel |
| Signals.SignalsRSIReversal | mcp/analytics/backtest_tool.go:341-371 | a signal exactly where the index crosses a threshold and the current reading is not the zero sentinel; a previous reading of 0 counts |
| Signals.RsiZeroSkipHidesBuy | mcp/analytics/backtest_tool.go:352-354 | for every threshold, the skip hides a BUY at a bar if and only if the threshold lies in [0, 100) and the price falls there without having moved before; it never hides a SELL |
| Signals.RsiPeriodOneNeverBuys | mcp/analytics/backtest_tool.go:341-371 | with period 1 no BUY is ever produced |
| Signals.SignalsMeanReversion | mcp/analytics/backtest_tool.go:415-444 | a signal exactly where the close crosses a band |
| Signals.GenerateSignals | mcp/analytics/backtest_tool.go:288-304 | dispatch gives the signals of the chosen strategy, and none for an unknown one |
| Signals.SignalsCausal | mcp/analytics/backtest_tool.go:288-444 | no lookahead: for every strategy the signals of the first k candles are the first k signals of the series |
| SignalTerms.CrossoverTerms | mcp/analytics/backtest_tool.go:307-338 | in prices alone: BUY exactly where the mean of the last short closes rises above that of the last long ones, SELL where it falls below, once both windows are full |
| SignalTerms.BreakoutTerms | mcp/analytics/backtest_tool.go:374-412 | in prices alone: BUY exactly where the close is above every high of the entry window, SELL where it is below every low of the exit window and there is no BUY |
| SignalTerms.WilderTerms | mcp/analytics/indicators_tool.go:145-185 | Wilder's recursion is a weighted sum of all rises and all falls so far, the first period alike and older moves fading by a constant factor per bar |
| SignalTerms.IndexTerms | mcp/analytics/indicators_tool.go:145-185 | the index is the share of the weighted rises in all weighted movement |
| SignalTerms.ReversalTerms | mcp/analytics/backtest_tool.go:341-371 | SELL exactly where a non-zero index rises above the threshold, BUY where it falls below the mirrored one and there is no SELL |
| SignalTerms.BandTerms | mcp/analytics/indicators_tool.go:221-245 | the bands are the mean plus and minus the multiple of the root of mean square less squared mean |
| SignalTerms.MeanReversionTerms | mcp/analytics/backtest_tool.go:415-444 | in prices alone: SELL exactly where the close rises above the upper band, BUY where it falls below the lower one and there is no SELL; with a non-negative band width a BUY is below the mean, a SELL above it |
| Simulation.SimulateTrades | mcp/analytics/backtest_tool.go:447-517 | the loop computes the replay of the position machine over all signals and the closing of what is left open |
| Simulation.TradesAreTheGreedyPairing | mcp/analytics/backtest_tool.go:447-517 | a trade list is the simulator's if and only if it is the greedy pairing: each entry the first affordable BUY after the last exit, each exit the first SELL after it, quantity from the exact capital of the moment |
| Simulation.TradesDisjoint | mcp/analytics/backtest_tool.go:447-517 | trades do not overlap, exits come strictly after entries, only the last trade can be a forced close |
| Simulation.ReplayContinues | mcp/analytics/backtest_tool.go:464-501 | a longer replay keeps all trades of a shorter one, and an open position becomes its next trade |
| Simulation.SimulationCausal | mcp/analytics/backtest_tool.go:447-517 | signal-closed trades on the first k bars begin those of the whole series; a forced close there is a later trade with the same entry |
| Simulation.Solvent | mcp/analytics/backtest_tool.go:464-514 | every entry costs at most the capital of its moment and capital stays positive after every trade |
| Simulation.DriftBounded | mcp/analytics/backtest_tool.go:216-220 | capital rebuilt from m rounded profits is within 0.005 m of the exact one |
| Simulation.PaiseNoDrift | mcp/analytics/backtest_tool.go:216-220 | with prices in whole paise there is no drift |
| TradeTerms.TradesFit | mcp/analytics/backtest_tool.go:464-514 | every trade enters on a BUY with the most whole shares that size percent of the capital left by the earlier profits pays for, and its prices, profit and return are within half a hundredth of quantity times price difference and of the price ratio |
| TradeTerms.BuysPassedOver | mcp/analytics/backtest_tool.go:464-472 | a BUY is passed over while flat only if size percent of the capital does not pay for one share |
| Backtest.ComputeMaxDrawdown | mcp/analytics/backtest_tool.go:520-540 | the running-peak loop returns the largest drop from a running peak; it dominates every pair ending at a non-negative point and is within [0, 100] if and only if the curve never goes negative |
| Backtest.MaxDrawdownStep | mcp/analytics/backtest_tool.go:528-538 | one turn of the loop keeps peak and maximum when the curve grows by a point |
| Backtest.PeakLoopIsPairMaximum | mcp/analytics/backtest_tool.go:520-540 | for every curve from a positive start, the loop's value is the maximum over all pairs if and only if the curve never goes negative, or that maximum is a drop from the start to a negative point before which there was no other positive level |
| PriceSwings.SwingTrades | mcp/analytics/backtest_tool.go:307-517 | on prices that swing between any positive levels the crossover of one and two bars trades once per round, one share from level to level, and the exact capital ends at the last level |
| PriceSwings.PeakLoopCanUnderstate | mcp/analytics/backtest_tool.go:307-540 | a backtest of a moving-average crossover whose booked curve goes negative and on which a pair drops further than the loop reports |
| PriceSwings.RoundingCanOverdraw | mcp/analytics/backtest_tool.go:307-514 | for every positive capital there are prices on which the backtest of a crossover keeps a positive exact capital and books a negative one |
| Backtest.OverdrawnOnlyWhenNearZero | mcp/analytics/backtest_tool.go:216-220 | after m trades, an exact capital of at least 0.005 m means a booked one that is not negative |
| Backtest.Tally | mcp/analytics/backtest_tool.go:216-237 | final capital, counts and summed returns of winning and other trades; the counts add up to all trades |
| Backtest.ProfitSigns | mcp/analytics/backtest_tool.go:226-236 | a winning trade's return is not negative; a trade is counted as losing if and only if it gained less than half a paisa; on whole-paise prices none so counted gained |
| Backtest.LosingBelowHalfPaisa | mcp/analytics/backtest_tool.go:226-236 | for every simulated trade, the booked profit is not positive if and only if the exact one is below half a paisa |
| PriceSwings.GainCountedAsLoss | mcp/analytics/backtest_tool.go:307-517 | a backtest of a crossover whose only trade gains, in profit and in return, and is counted as losing |
| Backtest.PaiseCurve | mcp/analytics/backtest_tool.go:520-540 | on whole-paise prices the booked equity curve is the exact one and positive throughout |
| Backtest.RunBacktest | mcp/analytics/backtest_tool.go:200-285 | every reported number from the trade list; final capital within 0.005 (n+1) of the exact one, rates within [0, 100], the log the last fifty trades, and on whole-paise prices exact capital and a drawdown of at most 100 |
| TradeTerms.AmountsReported | mcp/analytics/backtest_tool.go:216-285 | final capital is the initial one plus all booked profits; total and buy-and-hold return are percentages of initial capital and first close, within half a hundredth |
| TradeTerms.AveragesReported | mcp/analytics/backtest_tool.go:222-270 | winners are the trades of positive booked profit; win rate and average win and loss are within half a hundredth of what they are rates and means of, and within a hundredth of the means of the exact returns |
| TradeTerms.LogReported | mcp/analytics/backtest_tool.go:262-285 | the log is the last trades in order, at most fifty |
| TradeTerms.CurveTerms | mcp/analytics/backtest_tool.go:520-540 | every point of the curve that drawdown is measured on is the initial capital plus the profits booked so far |
| TradeTerms.DropTerms | mcp/analytics/backtest_tool.go:528-538 | a drop is the percentage of the level it falls from |
| Backtest.NoLookahead | mcp/analytics/backtest_tool.go:200-517 | end to end: for every strategy the signal-closed trades of a prefix of the candles begin those of the whole series |
| Handshake.Conn.Read | app/graceful_restart.go:192-198 | a read returns at most one chunk, consumes exactly what it returns and fails only on an exhausted stream |
| Handshake.ReadExactN | app/graceful_restart.go:192-198 | however the bytes are cut up the result is the first n of the stream, and nothing past them is consumed |
| Handshake.StreamTerms | app/graceful_restart.go:192-198 | the stream is what the chunks before the first end or deadline add up to, and that is what ends it |
| Handshake.Verdict | app/graceful_restart.go:121-137 | a child passes if and only if its stream starts with the ready message |
| Handshake.VerdictTerms | app/graceful_restart.go:121-137 | the first six bytes are "ready!" or are reported as they are; a shorter stream is reported by what ended it, as cut off if it had begun |
| Handshake.AskReady | app/graceful_restart.go:121-137 | deadline and write errors first, then the verdict on the stream alone; the probe is sent whole |
| Handshake.RespondReady | app/graceful_restart.go:143-159 | the child answers if and only if a probe's length arrived and it can write; otherwise it sends nothing |
| Handshake.FragmentationIrrelevant | app/graceful_restart.go:192-198 | cutting a chunk anywhere changes neither the stream nor what ends it |
| Handshake.Exchange | app/graceful_restart.go:121-159 | parent and child composed, with every deadline and write error: the child answers exactly a probe that was sent, and the parent accepts exactly if it asked and was answered, or the child's later bytes start with the ready message |
| Handshake.WaitForDrain | app/graceful_restart.go:206-228 | drained if and only if a zero was loaded before the deadline was seen or at it; a deadline is reported only with requests in flight |
| RestartProtocol.StepKeepsInv | app/graceful_restart_unix.go:73-173 | every step of parent, child, network, signal or failure keeps the protocol invariant |
| RestartProtocol.DrainOnlyAfterReady | app/graceful_restart_unix.go:96-173 | in every run the trigger fires only after some child's first six bytes were the ready message, the channel is closed or the process signalled at most once, and the parent accepts traffic until then |
| RestartProtocol.TriggerStopsTheParent | app/app.go:157-173 | in every run an injected channel is closed exactly once a trigger has fired, otherwise the process signals itself exactly if the first trigger could; the parent can then stop accepting, and it accepts until it does |
| RestartProtocol.BackToListening | app/graceful_restart_unix.go:73-173 | every failure of an attempt and the end of the drain wait lead back to listening and change nothing else |
| RestartProtocol.WrongBytesEndTheAttempt | app/graceful_restart.go:121-137 | six bytes that do not spell the message end the attempt |
| RestartProtocol.StopsAreRemembered | app/graceful_restart_unix.go:73-94 | a listener whose context is done starts nothing any more, and an unrelated stop is never forgotten |
| RestartProtocol.TriggerReadsReady | app/graceful_restart.go:248-265 | when the drain is triggered, exactly six bytes of that attempt's child were read and they spell the message |
| RestartProtocol.SomebodyServes | app/graceful_restart.go:139-178 | with children that keep the contract, at every moment the parent accepts or a child that announced itself serves, unless somebody else stopped the process |
| RestartProtocol.FailedRestartsHarmless | app/graceful_restart_unix.go:73-173 | any number of attempts in which no child announces itself leave the service untouched |
| RestartProtocol.VerdictIsFinal | app/graceful_restart.go:121-137 | what a child's first bytes decided, later bytes do not change |
| RestartProtocol.WaitDuringRun | app/graceful_restart.go:206-228 | the wait loop along any run: once the parent has stopped accepting, "drained" means nothing is in flight when it returns, whatever happened after the load that said so; going on means something is |
| RestartProtocol.DrainedForGood | app/graceful_restart_unix.go:151-172 | after a wait that reports a complete drain no request is ever in flight again if and only if the parent had stopped accepting by then |
| RestartProtocol.DrainReportedEarly | app/graceful_restart_unix.go:151-172 | a whole restart after which the drain is reported complete while the parent still accepts |
| LimiterMap.StepKeepsInv | app/ratelimit.go:29-53 | every atomic step of any thread keeps the locking and map invariant |
| LimiterMap.OneLimiterPerKeyAndEpoch | app/ratelimit.go:29-53 | in every interleaving two calls settle on the same limiter if and only if key and cleanup epoch of their deciding steps agree |
| LimiterMap.ReturnedAreDecisions | app/ratelimit.go:74-98 | what a call returns is such a decision for the key it asked for |
| LimiterMap.WriterExcludesAll | app/ratelimit.go:29-53 | a thread in the write section excludes every reader and writer |
| RateLimit.Limiter.Allow | app/ratelimit.go:253-274 | admits if and only if the refilled bucket holds a token, and then takes one |
| RateLimit.KeyedLimiters.GetLimiter | app/ratelimit.go:29-47 | returns the stored limiter, or stores a fresh full one and changes nothing else |
| RateLimit.KeyedLimiters.Cleanup | app/ratelimit.go:49-53 | drops every limiter |
| RateLimit.KeyedLimiters.Admit | app/ratelimit.go:253-274 | lookup and admission together are one step on the abstract map of buckets |
| RateLimit.ServeRequest | app/ratelimit.go:253-309 | the IP layer asks first; the user layer is asked only for an admitted request with an identity |
| RateLimit.AskWithinBudget | app/ratelimit.go:29-47 | one request keeps the budget: admissions so far plus tokens left are covered by fills and elapsed time |
| RateLimit.UserBound | app/ratelimit.go:289-309 | one identity passes at most (cleanups + 1) burst + rate elapsed times, whatever addresses it uses |
| RateLimit.AddressBound | app/ratelimit.go:253-274 | the same for one address |
| RateLimit.BoundAttained | app/ratelimit.go:185-225 | the bound is tight: for every k there is a run with k cleanups that passes (k + 1) burst requests |
| TokenBucket.AdmittedExactly | app/ratelimit.go:253-274 | a bucket admits an ask if and only if no window ending with it would then hold more than the burst and what the rate earns in its length |
| TokenBucket.WindowsBounded | app/ratelimit.go:253-274 | no window of a bucket's asks holds more admissions than that |
| TokenBucket.GateExactly | app/ratelimit.go:253-309 | a request passes both layers if and only if every window of its address since the last cleanup allows it and, if it has an identity, every window of that identity's requests that the address layer let through |
| InterleavedAdmission.StepKeepsInv | app/ratelimit.go:29-53 | every step of the map and every admission on a limiter it handed out keeps each limiter's budget and the split of a key's admissions by epoch |
| InterleavedAdmission.InterleavedBound | app/ratelimit.go:29-53 | in every interleaving with k cleanups a key is admitted at most (k + 1) (burst + rate elapsed) times, by limiters in the map and dropped ones together |
| DroppedLimiters.ExcessIsStale | app/ratelimit.go:29-53 | in every interleaving with k cleanups a key is admitted at most (k + 1) burst + rate elapsed times, plus what limiters dropped by a cleanup admitted |
| DroppedLimiters.StaleAskExceeds | app/ratelimit.go:29-53 | for every positive rate and burst a run with one cleanup and one stale admission that passes one request more than the sequential bound |
| DroppedLimiters.WhenSequentialBoundHolds | app/ratelimit.go:29-53 | the sequential bound holds for every key in every interleaving if and only if the rate or the burst is zero |
| StackedAdmission.StepKeepsInv | app/ratelimit.go:253-309 | every step of any request in either layer keeps the accounts: an identity got through exactly as often as its limiters admitted it, and what the limiters of an address admitted got through, waits for the identity layer or was refused there, the last only with an identity |
| StackedAdmission.LayersRun | app/ratelimit.go:253-309 | in every interleaving of requests each of the two layers sees a run of its own |
| StackedAdmission.AdmissionsAccounted | app/ratelimit.go:253-309 | in every run these accounts balance |
| StackedAdmission.RequestGoesOn | app/ratelimit.go:253-309 | a request starts with its address, goes on to its identity exactly if admitted and it has one, and is over after that |
| StackedAdmission.StackedUserBound | app/ratelimit.go:289-309 | in every interleaving one identity passes both layers at most (k + 1) burst + rate elapsed times plus stale admissions, whatever addresses its requests come from |
| StackedAdmission.StackedAddressBound | app/ratelimit.go:253-274 | the same for the requests of one address, with or without an identity |
| StopProtocol.StepKeepsInv | app/ratelimit.go:208-248 | every step of ticker, goroutine and callers keeps the stop invariant |
| StopProtocol.StopIsFinal | app/ratelimit.go:241-248 | the done channel is closed at most once; after any Stop has returned the goroutine is gone and no map is reset again |
| StopProtocol.SweepsAreWhole | app/ratelimit.go:208-225 | the six maps are reset in whole sweeps, never cut short by Stop |
| StopProtocol.TicksSweep | app/ratelimit.go:208-225 | in every run each tick taken resets all six maps, but for those still due in the current sweep, and a tick that came later is there to be taken |
| StopProtocol.StopGetsThrough | app/ratelimit.go:241-248 | once a caller waits for the exit the goroutine always has a step that brings it closer to being gone, and then the caller can return |
| StopProtocol.CallersGoOn | app/ratelimit.go:241-248 | a caller of Stop that waits for nobody has its next step: the first one closes the channel, later ones go on to wait |
| Text.AtoiOfItoa | app/ratelimit_reload.go:133-140 | parsing a printed number gives it back |
| Text.PlaceValue | app/ratelimit_reload.go:133-140 | digits have decimal place value |
| Text.AtoiExactly | app/ratelimit_reload.go:133-140 | digit strings with or without one sign are numbers exactly as far as they fit 64 bits |
| Text.OnlyDigitsAreNumbers | app/ratelimit_reload.go:133-140 | nothing else is a number |
| Text.TrimTrims | app/ratelimit_reload.go:116-145 | trimming removes outer space and leaves exactly trimmed strings alone |
| Text.TrimOfPadded | app/ratelimit_reload.go:116-145 | whatever spaces surround a trimmed text, trimming gives it back |
| Text.SplitOfJoin | app/ratelimit_reload.go:121-145 | splitting a join of separator-free parts gives the parts back |
| Text.CutAtFirst | app/ratelimit_reload.go:125-133 | a cut is at the first separator, and fails only without one |
| RateLimitEnv.ParseRateLimitEnv | app/ratelimit_reload.go:116-145 | the loop with its early exits computes the left-to-right meaning of the parts |
| RateLimitEnv.NoPair | app/ratelimit_reload.go:121-128 | a part of spaces says nothing, and one without "=" is an error under its trimmed text |
| RateLimitEnv.PairMeans | app/ratelimit_reload.go:121-143 | any other part is a pair around its first "=", padded anyhow: an empty name, a non-integer and a negative number are its errors, and anything else is a cap |
| RateLimitEnv.OneBadPairRejectsAll | app/ratelimit_reload.go:116-145 | a setting is accepted if and only if no part is a malformed pair |
| RateLimitEnv.BadPartRejects | app/ratelimit_reload.go:116-145 | the error reported is that of the first malformed pair |
| RateLimitEnv.LastOccurrenceWins | app/ratelimit_reload.go:116-145 | a tool named several times has its last limit |
| RateLimitEnv.OnlyNamedToolsPresent | app/ratelimit_reload.go:116-145 | a tool has a cap if and only if some part names it |
| RateLimitEnv.AcceptedIsCanonical | app/ratelimit_reload.go:116-145 | accepted names are trimmed, non-empty and free of separators, limits within 64 bits and not negative |
| RateLimitEnv.PrintParseRoundTrip | app/ratelimit_reload.go:116-145 | printing the caps of any accepted setting, keys in any order, and parsing again gives the same caps |
| RateLimitEnv.ReloadLoop | app/ratelimit_reload.go:81-107 | after any reloads the caps are those of the last non-empty accepted setting, or the startup caps |
| RateLimitEnv.SwapsExactly | app/ratelimit_reload.go:81-107 | a setting swaps the caps if and only if no part is malformed and some part names a tool |
| Lifecycle.LifecycleManager.Append | app/lifecycle.go:93-102 | registers a non-nil stop at the end, and nothing else |
| Lifecycle.LifecycleManager.RunOne | app/lifecycle.go:123-138 | runs the stop once and logs its error or panic; neither leaves |
| Lifecycle.LifecycleManager.Shutdown | app/lifecycle.go:112-121 | the first call runs every stop once in Append order, a later call nothing |
| Lifecycle.ComplaintsCounted | app/lifecycle.go:123-138 | the log has a line of its kind and name for each failing and each panicking stop, and no other |
| Lifecycle.FxLifecycleAdapter.Append | app/providers/lifecycle.go:111-150 | one hook: start it unless a start has failed, remember the first failure, register its stop under a counted name |
| Lifecycle.FxLifecycleAdapter.Err | app/providers/lifecycle.go:153-157 | reports the first failure |
| Lifecycle.WiringWithoutFailure | app/providers/lifecycle.go:111-150 | while no start fails, every non-nil stop is registered in order |
| Lifecycle.WiringAfterFailure | app/providers/lifecycle.go:111-157 | from the first failing start on the outcome is frozen: the stops are those of the hooks before it, nothing later starts, the error stays |
| Lifecycle.WiringUnmanaged | app/providers/lifecycle.go:111-150 | without a manager the same hooks start and the same failure is kept, but nothing is registered |
| Lifecycle.HookNamesUnique | app/providers/lifecycle.go:111-150 | registered names are unique within an adapter |
| Lifecycle.HookNameTerms | app/providers/lifecycle.go:111-150 | a registered name is the prefix, a dash and the number of the hook |
| Lifecycle.WireAndShutDown | app/providers/lifecycle.go:111-157 | adapter, manager and Shutdown together run exactly those stops, in order |
| Lifecycle.RegisterLifecycle | app/wire.go:846-923 | the eleven workers are registered in the documented order |
| ShutdownProtocol.StepKeepsInv | app/lifecycle.go:112-138 | every call, return, panic and unwound frame of any caller keeps the invariant on stack, snapshot, progress and log |
| ShutdownProtocol.PanicsStayInRunOne | app/lifecycle.go:123-138 | in every interleaving no caller dies of a panic: a panicking caller still has runOne with its recover on the stack, and the working caller always has a next step |
| ShutdownProtocol.WorkEnds | app/lifecycle.go:112-138 | every step of the working caller, panicking or not, brings it nearer to its return, six steps per stop |
| ShutdownProtocol.OthersDoNotDelay | app/lifecycle.go:112-138 | no other caller moves it or takes it further away, and once the snapshot is taken neither does a later registration |
| ShutdownProtocol.CallersGoOn | app/lifecycle.go:112-121 | the first caller in line does the work, and one that comes after it returns at once |
| ShutdownProtocol.StopsOnlyGrow | app/lifecycle.go:93-102 | in every run the registered stops are those from before and every one appended, in order |
| ShutdownProtocol.StopsRunOnceInOrder | app/lifecycle.go:112-138 | in every interleaving the stops entered are a prefix of the snapshot, all but the last have come back, the log has a line per failure and panic, and everything has run once any caller has returned |
| ShutdownProtocol.ShutdownIsComplete | app/lifecycle.go:112-138 | with registration done before, a returned caller knows every stop ran to its end once in order, whichever failed or panicked, with the log of the sequential Shutdown |
| ShutdownProtocol.WiredStopsRun | app/providers/lifecycle.go:111-157 | composed with the adapter, for every interleaving: what has run is exactly the stops of the hooks before the first failing start |
| ShutdownProtocol.EarlierStopsFinished | app/lifecycle.go:112-121 | when a stop has been entered, every stop registered before it has run to its end |
| ShutdownProtocol.DatabaseClosesAfterWriters | app/wire.go:846-923 | from what the registration leaves, in every run the alert database's stop is entered only after those of the audit store and the manager have run to their ends |
| FakeClock.FakeTicker.Deliver | testutil/clock.go:90-112 | the inner loop of Advance ends with the first grid point after now as boundary and the first undelivered tick in the slot |
| FakeClock.FakeTicker.Serve | testutil/clock.go:97-112 | one ticker's turn in Advance, a stopped one being passed over |
| FakeClock.FakeTicker.Stop | testutil/clock.go:136-148 | marks the ticker closed and changes nothing else |
| FakeClock.FakeClock.NewTicker | testutil/clock.go:64-85 | registers a ticker one interval ahead; a non-positive interval gives a dead one that is not registered |
| FakeClock.FakeClock.Advance | testutil/clock.go:90-112 | moves time and serves every live ticker, counting what was delivered |
| FakeClock.FakeClock.Set | testutil/clock.go:116-124 | advances to a later time and ignores an earlier one |
| FakeClock.RunKeepsGrid | testutil/clock.go:64-124 | after any run without negative Advance each live ticker has now < next <= now + interval with next on its own grid, and a buffered tick is a past point of it |
| FakeClock.EveryIntervalTicks | testutil/clock.go:64-112 | a consumer that keeps up receives exactly one tick per interval |
| FakeClock.FirstTick | testutil/clock.go:64-112 | from any state, a new ticker's channel holds its first tick as soon as its interval has passed, however far the clock goes, and nothing before |
| FakeClock.SetIsAdvance | testutil/clock.go:116-124 | setting a later time is advancing by the difference, any other time does nothing |
| FakeClock.StopSilences | testutil/clock.go:136-148 | whatever happens later, a stopped ticker gets no tick and does not move |
| FakeClock.NegativeAdvance | testutil/clock.go:90-112 | a step back keeps the grid if and only if no live ticker had passed a boundary, and no stopped one had buffered a tick, after the new time |
| FakeClock.GridHoldsThroughout | testutil/clock.go:64-124 | in any run the grid holds at every moment if and only if no operation stepped back past what a ticker had passed |
| FakeClock.SteppingBackBreaksGrid | testutil/clock.go:90-112 | two runs with a negative Advance after which the grid is broken |
| FakeClock.TicksConserved | testutil/clock.go:64-148 | over any run, ticks delivered are ticks received plus ticks still buffered |
| FakeClock.AdvancesCompose | testutil/clock.go:90-112 | Advance(a) then Advance(b) without a receive is Advance(a + b) in time, boundaries, slots and count |
| Sums.SquareOfSumBound | mcp/analytics/analytics_tools.go:277-279 | Cauchy-Schwarz: the squared sum is at most n times the sum of squares, with equality if and only if all are equal |
| Sums.SumSqBound | mcp/analytics/analytics_tools.go:277-279 | non-negative squares add up to at most the squared sum, with equality if and only if one element carries it |
| Sums.PrefixDominates | mcp/analytics/analytics_tools.go:264-289 | no k elements add up to more than the first k of a descending order |
| Sums.PrefixAboveAverage | mcp/analytics/analytics_tools.go:264-289 | the first k of a descending order are no less than k average elements |
| Sorting.SortDescending | mcp/analytics/analytics_tools.go:264-267 | a permutation in descending order of the key, ties in any order |
| Concentration.ComputePortfolioConcentration | mcp/analytics/analytics_tools.go:243-324 | the report in closed form of the holdings' values, hence independent of how ties are sorted; the empty report for a zero total |
| Concentration.Measure | mcp/analytics/analytics_tools.go:269-297 | the loop over ranked positions sums squared percentages, the first five percentages and entries, and the noise |
| Concentration.HhiTimesSquare | mcp/analytics/analytics_tools.go:277-279 | the index times the squared total is 10000 times the sum of squared values |
| Concentration.HhiBounds | mcp/analytics/analytics_tools.go:243-311 | the index of n holdings lies between 10000/n and 10000, the low end exactly for equal values, the high end exactly when one holding has everything |
| Concentration.LabelByCount | mcp/analytics/analytics_tools.go:304-311 | up to four holdings are always concentrated, up to six never diversified; exact limits for equal values |
| Concentration.TopFive | mcp/analytics/analytics_tools.go:281-289 | the reported combined percentage is at least that of any five holdings, at most 100, and 100 with at most five |
| Concentration.TopFiveAverage | mcp/analytics/analytics_tools.go:281-289 | with n >= 5 holdings it is at least 500/n up to half a hundredth |
| Concentration.NoiseSplits | mcp/analytics/analytics_tools.go:291-294 | noise and the rest make up all holdings in number and in value |
| Concentration.AtMostHundredKept | mcp/analytics/analytics_tools.go:291-294 | at most a hundred holdings are not noise |
| Concentration.ReportedScore | mcp/analytics/analytics_tools.go:304-324 | the rounded score keeps the bounds and the label knows the number of holdings |
| Concentration.ReportedNoise | mcp/analytics/analytics_tools.go:291-324 | reported noise is part of the reported total |
| ConcentrationTerms.ScoreTerms | mcp/analytics/analytics_tools.go:243-311 | in prices and quantities alone: the score is the sum of squared percentages, concentrated from 2500, moderate from 1500, diversified below |
| ConcentrationTerms.NoiseTerms | mcp/analytics/analytics_tools.go:291-324 | noise is exactly the holdings of less than a hundredth of the total, in number, value and percentage |
| ConcentrationTerms.TopTerms | mcp/analytics/analytics_tools.go:281-289 | the entries are the first five of the ranking with their values and percentages, and the combined percentage is theirs |
| ConcentrationTerms.NothingToReport | mcp/analytics/analytics_tools.go:256-265 | a portfolio that adds up to zero has the empty report |
| TaxHarvest.HoldingPeriods | mcp/tax_tools.go:184-204 | long-term if and only if more than 365 days, approaching if and only if 335 to 364, never unknown |
| TaxHarvest.GainsAndLosses | mcp/tax_tools.go:166-182 | gains and losses add up to current less invested value |
| TaxHarvest.Accumulate | mcp/tax_tools.go:166-271 | one turn of the loop: the holding's line, and what it adds to each total and to one pair of buckets |
| TaxHarvest.BucketsConserve | mcp/tax_tools.go:224-237 | the four buckets add up to current less invested value and one pair is empty |
| TaxHarvest.ComputeTaxHarvest | mcp/tax_tools.go:155-337 | the whole response in closed form: lines, summary, losing holdings by savings, holdings near the mark by days |
| TaxHarvest.NettedTax | mcp/tax_tools.go:273-285 | netted tax is, within 0.005 (n + 1), per-holding tax less savings and never below zero; for long-term less 12.5% of the exemption as well; the other period's tax is zero |
| TaxHarvest.FilterIsExact | mcp/tax_tools.go:287-307 | the filtering loops keep every entry that qualifies, as often as it occurs, and no other |
| TaxHarvest.BestCandidatesFirst | mcp/tax_tools.go:287-296 | no k harvestable holdings save more than the first k candidates |
| TaxHarvest.ApproachingAllOrNone | mcp/tax_tools.go:298-307 | every holding is listed as approaching or none is |
| TaxTerms.LinesFit | mcp/tax_tools.go:166-271 | in prices and quantities alone: each holding's line, harvestable exactly when it is worth less than it cost, with an eighth or a fifth of loss saved or of gain taxed |
| TaxTerms.CandidatesAreTheLosers | mcp/tax_tools.go:287-296 | the candidates are the lines of exactly the holdings with a loss, each as often as there are such holdings, and they are counted |
| TaxTerms.SummaryTerms | mcp/tax_tools.go:273-335 | the totals are the sums over the holdings; the tax is a fifth of a net short-term gain or an eighth of what a net long-term one has above 125000 |
| SectorDonut.Accumulate | mcp/plugin_widget_sector_donut.go:51-78 | the buckets mutated through the map hold the value of each held sector; holdings without positive value are skipped |
| SectorDonut.ListEntries | mcp/plugin_widget_sector_donut.go:80-92 | whatever the iteration order, every bucket is listed once with its value, percentage and flag |
| SectorDonut.InsertionSort | mcp/plugin_widget_sector_donut.go:94-99 | the in-place sort leaves a permutation, largest first |
| SectorDonut.ConcentrationWarning | mcp/plugin_widget_sector_donut.go:105-112 | the text of the first flagged entry, or nothing |
| SectorDonut.SectorDonutWidget | mcp/plugin_widget_sector_donut.go:51-113 | the whole widget: total, sectors largest first, warning |
| SectorDonut.SectorsConserve | mcp/plugin_widget_sector_donut.go:56-92 | sector values add up to the total |
| SectorDonut.PercentagesConserve | mcp/plugin_widget_sector_donut.go:80-92 | percentages add up to 100, every shown sector is positive, and nothing is shown exactly when nothing is held |
| SectorDonut.ExposedPrefix | mcp/plugin_widget_sector_donut.go:90-99 | the over-exposed sectors are a prefix of length at most three |
| SectorDonut.WarningNamesLargest | mcp/plugin_widget_sector_donut.go:105-112 | there is a warning if and only if some sector is above 30 percent, and it names a largest one |
| SectorTerms.SectorsShown | mcp/plugin_widget_sector_donut.go:51-92 | every sector that the table gives some holding of positive worth, by its normalised symbol, is shown exactly once and no other, with its worth, its percentage and the flag above thirty |
| SectorTerms.WarningTerms | mcp/plugin_widget_sector_donut.go:105-112 | the text names the first sector and its percentage, if that is above thirty |
| InjectData.ChainIsOnePass | mcp/ext_apps.go:348-356 | the four replacements in sequence are one left-to-right pass: no later one touches what an earlier one left |
| InjectData.EscapedIsHarmless | mcp/ext_apps.go:345-356 | for every input the result holds no "</", no "<!--", no U+2028 and no U+2029, and the input is unchanged if and only if it held none |
| InjectData.EscapeKeeps | mcp/ext_apps.go:348-356 | for every readable text, in or out of a string, decoding gives the same tokens before and after |
| InjectData.EscapedReadsTheSame | mcp/ext_apps.go:345-356 | a script reads from the escaped JSON what the encoder wrote; a strict JSON reader does too unless the text held a comment opener, and then rejects it |
| InjectData.EncoderOutputStaysJson | mcp/ext_apps.go:345-347 | a JSON text without "<", as the encoder in use writes it, reads the same as strict JSON after escaping |
| InjectData.CommentOpenerBreaksJson | mcp/ext_apps.go:348-349 | a JSON text that a script still reads after escaping and a strict reader rejects |
| InjectData.FirstIndexIsFirst | mcp/ext_apps.go:357-357 | the index is that of the first placeholder, and none means there is none |
| InjectData.ReplaceFirstReplaces | mcp/ext_apps.go:357-357 | only the first placeholder is replaced; a template without one is left alone |
| InjectData.PlaceholderReplaced | mcp/ext_apps.go:329-358 | a page with data is the template around its first quoted placeholder with the escaped data between |
| InjectData.InjectionOpensNothing | mcp/ext_apps.go:329-358 | in the finished page every "</" and "<!--" lies wholly in the template, before or after the data, if and only if the data does not complete a comment opener in which the template text before it stops |
| InjectData.NoDataIsNull | mcp/ext_apps.go:333-344 | missing or unencodable data becomes null |

## Left out

- Floating point: overflow, rounding error and NaN of IEEE-754 arithmetic; all arithmetic is over exact reals.
- Dates, reason strings, the notes and the exchange and ISIN fields of responses; they are copied through.
- The Sharpe ratio, EMA and MACD: no property beyond their formulas.
- Portfolio summary and position analysis (`computePortfolioSummary`, `computePositionAnalysis`): sums and top-N lists that would repeat the concentration results.
- The number of holdings per sector bucket: it is counted and never read.
- Go's memory model: shared maps and counters are modelled by atomic steps under their locks.
- Backtest.RunBacktest: does not model candles without a positive close or a capital or size outside the accepted range, for which the Go code divides by zero or trades nonsense.
- Signals.GenerateSignals: the conversion of the two numeric parameters to integers, and periods below one or negative entry look-backs, for which the Go loops index outside the series.
- SignalTerms.CrossoverTerms: is about positive closes; on others the Go code skips a zero average, which `Signals.SignalsSMACrossover` states.
- SignalTerms.MeanReversionTerms: is about positive closes, like the one above; `Signals.SignalsMeanReversion` covers all.
- A panic inside a start hook, which passes through the adapter.
- RestartProtocol.SomebodyServes: assumes children keep serving after they announced themselves; a crash after the handover is not modelled.
- RestartProtocol.DrainedForGood: the request counter is a step-driven number, although the shipped wiring never increments the one it passes to the drain wait.
- Liveness of the protocols: that a drain ends, a sweep happens or a lock is granted needs a fair scheduler.
- HTTP drain and scheduler stop before the worker teardown, and any claim that teardown is complete when the server's run function returns; the code does not wait for it.
- How the address of a client is read from its request headers: the layers take it as a string.
- RateLimit.UserBound: is about sequential runs; `StackedAdmission` has the bound for interleaved threads.
- DroppedLimiters.ExcessIsStale: time is read inside the atomic admission, so it does not run backwards between threads.
- RateLimitEnv.ReloadLoop: signals are taken one at a time, and a nil map is not distinguished from an empty one.
- The channel of a stopped or dead fake ticker, and use of the clock from several goroutines.
- InjectData.EscapedReadsTheSame: well-formedness is lexical (strings with their escapes, and the characters JSON allows outside them); the grammar of objects, arrays and numbers does not matter to escaping. Text is a sequence of code points, not of bytes.
- Routing, authentication, templates, stores, the broker API and everything else that is input and output.
