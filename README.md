# ATR-stop backtest and EMA-crossover signals, modelled in Dafny

This project models two pieces of a crypto strategy tool.

**The trade simulator and its summary** (`backtest` in `backtest.py`). For
every bar that carries a nonzero signal, except the last bar, the simulator
does the following:

- It enters at the next bar's open.
- It freezes a fixed stop at `entry - sig * sl_atr * atr` and a take-profit
  at `entry + sig * tp_atr * atr`, using the entry bar's `atr_14`.
- It walks forward bar by bar. On each bar it updates the running extreme
  (`max_high` for a long, `min_low` for a short) and recomputes the trailing
  stop from it.
- It tests the stop first and the target second. It exits on the first bar
  where either fires, otherwise at the last bar's close.

A trade's P&L is `(exit - entry) * sig`. The list of P&Ls reduces to:

- the trade count;
- the win rate (the share of P&Ls strictly above zero);
- the mean P&L;
- the drawdown of the cumulative P&L.

With no trades, the last three are NaN.

**The signal generator** (`generate_signals` in `signals.py`). A row is long
on a strict up-cross of EMA9 over EMA21 that has:

- volume above `vol_mult` times its rolling mean;
- an ATR above its rolling mean;
- a positive MACD histogram.

A row is short on the mirror image. Every other row is flat.

## Layout

- `values.dfy`: module `Values`. It defines NaN-aware float cells
  (`Num = Option<real>`, where `None` is NaN). Every comparison with NaN is
  false, and arithmetic propagates NaN. It also defines Python's built-in
  `max`/`min`, the `Signal` type, and sums over sequences.
- `performance.dfy`: module `Performance`, the aggregation tail of `backtest`
  (`Summarize`, plus the cumulative sum, win count and drawdown it uses).
- `backtest.dfy`: module `Backtest`, in three parts:
  - A specification made of functions. `StepExtreme` updates `max_high` or
    `min_low`, `TrailStop` is `trail_sl`, and the predicates `StopHit` and
    `TargetHit` are the stop test (`low <= trail_sl` / `high >= trail_sl`)
    and the target test (`high >= tp` / `low <= tp`). `Scan` is the forward
    scan of one trade, `OpenTrade` is one trade, and `Trades`/`AllTrades`
    are every trade in bar order.
  - A direct description of each trade's exit. `RunExtreme` is the running
    extreme, `StopAt` is the trailing stop on bar j, and `IsFirstExit` says
    which exit comes first.
  - The two loops of `backtest` as methods proved against these functions.
    `SimulateExit` is the inner `for j` loop with its `break`s. `Backtest` is
    the outer `for i` loop and the summary.
- `signals.dfy`: module `Signals`, with `generate_signals` as pure functions
  of the row index. It covers the shifted EMAs, the crossover masks, pandas'
  rolling mean (`VolMa` and `AtrMa` are `vol_ma` and `atr_ma`), the two
  filters, the combined masks `LongOk`/`ShortOk` (`long_ok`/`short_ok`) and
  the masked assignments.

### Behaviour worth noting

- **NaN ATR.** A zero ATR on the entry bar gives a zero-width band: the fixed
  stop and the take-profit both equal the entry price. A NaN ATR (the ATR
  warm-up) does not. It makes `fixed_sl`, `tp` and the trailing distance all
  NaN. Python's `max(fixed_sl, x)` then keeps the NaN, and every `<=`/`>=`
  against NaN is false. So the trade never exits early and always closes at
  the last bar's close. `Backtest.UndefinedAtrRunsToEnd` proves this.
- **Drawdown.** The code computes `(cum.max() - cum).max()`, the distance
  from the curve's GLOBAL maximum, which equals `max(cum) - min(cum)`.
  `Performance.Summarize` models the code. A running-maximum drawdown, which
  only counts a loss against a peak that came before it, is
  `Performance.PeakToTrough`; it is proved never to exceed the code's. On the
  curve `[-5, 10]` the running-maximum drawdown is 0 while the code reports
  15 (`GlobalMaximumDrawdownExample`).
- **No input errors.** The code raises nothing for short inputs. With fewer
  than two bars the outer loop does not run and the result is
  `(0, NaN, NaN, NaN)`. `Backtest.Backtest` therefore has no precondition.
- **Signal values.** The `else` branch of the inner loop treats any signal
  other than 1 as a short. The model's `Signal` type admits only -1, 0 and 1,
  so that branch only ever sees -1.

## Model

| member | source | states |
|---|---|---|
| Values.PyMax | backtest.py:45-46 | Python's `max(a, b)`: with both defined, the larger of the two; a NaN first argument stays NaN; a NaN second argument is dropped |
| Values.PyMin | backtest.py:55-56 | Python's `min(a, b)`: with both defined, the smaller of the two; a NaN first argument stays NaN; a NaN second argument is dropped |
| Backtest.EntryLevels | backtest.py:26-31 | a NaN ATR makes the fixed stop, the take-profit and the trailing distance all NaN; a defined ATR makes all three defined (their values are in `EntryLevelValues`) |
| Backtest.StepExtreme | backtest.py:44-55 | `max_high` after one more bar is the larger of the previous extreme and the bar's high, `min_low` the smaller of the previous extreme and the bar's low |
| Backtest.TrailStop | backtest.py:46-56 | with defined levels, a long's trailing stop is the larger of the fixed stop and the extreme minus the trailing distance, a short's the smaller of the fixed stop and the extreme plus it; a NaN fixed stop gives a NaN stop, a NaN distance leaves the fixed stop |
| Backtest.Scan | backtest.py:39-66 | the scan from bar j exits on a bar from j on (or at the last close, on the last bar), a target exit at tp; `ScanFindsFirstExit` pins it down as the first firing bar |
| Backtest.OpenTrade | backtest.py:26-69 | a trade for the signal on bar i enters at bar i+1's open and exits on a bar from i+1 to the last; its P&L is in `TradePnl`, its exit in `ScanFindsFirstExit` |
| Backtest.SimulateExit | backtest.py:26-66 | the inner loop (fixed stop and target, running extreme, trailing stop, stop before target, `break`, last-close fallback) returns exactly the exit price of the specified trade `OpenTrade(bars, i, cfg)` |
| Backtest.Backtest | backtest.py:19-83 | the whole backtest returns the summary of the P&Ls of all trades opened by nonzero signals on bars 0 .. n-2, in bar order, and its trade count equals the number of such signal bars |
| Backtest.ScanFindsFirstExit | backtest.py:39-66 | the scan exits on the first bar where the stop or the target fires; a stop exit is priced at that bar's trailing stop, a target exit at tp; if no bar fires, it exits at the last bar's close; no earlier bar fires |
| Backtest.StopWinsTie | backtest.py:48-53 | when the stop and the target both fire on a bar and nothing fired earlier, the trade closes on that bar at the trailing stop |
| Backtest.TrailingStopMonotone | backtest.py:44-56 | with a defined ATR, a long's trailing stop starts at or above the fixed stop and never falls; a short's starts at or below it and never rises |
| Backtest.RunExtremeIsExtreme | backtest.py:34-55 | `max_high` after a run of bars is the largest of the entry price and their highs, and `min_low` is the smallest of the entry price and their lows |
| Backtest.UndefinedAtrRunsToEnd | backtest.py:27-66 | a NaN ATR on the entry bar makes every stop and target test false, so the trade exits at the last close with P&L `(close - entry) * sig` |
| Backtest.StopLossBound | backtest.py:30-59 | with a defined ATR a, a stop exit loses at most `sl_atr * a` |
| Backtest.TakeProfitGain | backtest.py:31-62 | with a defined ATR a, a target exit gains exactly `tp_atr * a` |
| Backtest.TradePnl | backtest.py:69 | a long earns exit minus entry and a short earns entry minus exit, entering at the next bar's open |
| Backtest.EntryLevelValues | backtest.py:26-31 | with a defined ATR a, a long's levels are `entry - sl_atr*a` and `entry + tp_atr*a`, a short's are mirrored, and the trailing distance is `trail_atr*a` |
| Backtest.DefaultTrailDistance | backtest.py:7-31 | with the default `trail_atr = 1.0` and a defined ATR a, the trailing distance is a |
| Backtest.LevelsAroundEntry | backtest.py:30-31 | with positive ATR and multiples, the entry lies strictly between the fixed stop and the take-profit, on the side the signal says |
| Backtest.SignalIndices | backtest.py:21-24 | the bars the outer loop does not skip are all earlier than k and carry a nonzero signal |
| Backtest.SignalIndicesExact | backtest.py:21-24 | those bars are in strictly increasing order and include every nonzero signal before k |
| Backtest.SignalIndicesCount | backtest.py:21-24 | there are exactly as many of them as there are nonzero signals before k |
| Backtest.TradesFollowSignals | backtest.py:21-70 | every trade is opened by its own nonzero-signal bar, the trades are in bar order, no signal bar is skipped, and there is one trade per signal bar |
| Backtest.TradeCount | backtest.py:21-70 | the number of trades equals the number of nonzero signals on bars 0 .. n-2; a signal on the last bar opens none |
| Performance.Summarize | backtest.py:72-83 | no trades gives `(0, NaN, NaN, NaN)`; otherwise the count, a win rate in [0, 1] equal to the share of strictly positive P&Ls, the mean P&L, and a non-negative drawdown equal to the maximum minus the minimum of the cumulative curve |
| Performance.CountWins | backtest.py:78 | the win count is the number of positions with a strictly positive P&L |
| Performance.CumSum | backtest.py:81 | the cumulative curve has one entry per trade, starts at the first P&L, and each entry is the previous one plus the next P&L |
| Performance.CumSumIsPrefixSum | backtest.py:81 | entry k of the cumulative curve is the total P&L of the first k + 1 trades |
| Performance.Drawdown | backtest.py:82 | `(cum.max() - cum).max()` equals the maximum minus the minimum of the curve and is never negative |
| Performance.PeakToTrough | backtest.py:82 | the running-maximum drawdown lies between 0 and the code's drawdown |
| Performance.GlobalMaximumDrawdownExample | backtest.py:82 | on the curve [-5, 10] the code's drawdown is 15 while the running-maximum drawdown is 0 |
| Performance.AverageWithinRange | backtest.py:80 | the mean P&L lies between the worst and the best trade |
| Performance.AllWin | backtest.py:78 | the win count equals the trade count exactly when every P&L is strictly positive |
| Performance.WinRateExtremes | backtest.py:78-79 | the win rate is positive exactly when some trade wins, and 1 exactly when every trade wins |
| Performance.FiveTradeExample | backtest.py:76-83 | the P&Ls [10, -4, 6, -12, 3] give 5 trades, win rate 0.6, mean 0.6 and drawdown 12 |
| Signals.RollingMean | signals.py:48-52 | the rolling mean at row k is defined exactly when at least w rows exist and every cell of the w-row window ending at k is defined |
| Signals.RollingMeanBounds | signals.py:48-52 | a defined rolling mean lies within any bounds of its window's cells |
| Signals.UpCross | signals.py:38-40 | an up-cross at row k holds exactly when k > 0, EMA9 was at or below EMA21 on row k-1 and is strictly above it on row k |
| Signals.DownCross | signals.py:38-41 | a down-cross at row k holds exactly when k > 0, EMA9 was at or above EMA21 on row k-1 and is strictly below it on row k |
| Signals.SignalEma | signals.py:43-45 | `signal_ema` is 1 exactly on up-crosses and -1 exactly on down-crosses |
| Signals.VolOk | signals.py:48-49 | the volume filter never passes before `vol_window` rows exist |
| Signals.AtrOk | signals.py:52-53 | the ATR filter never passes before `atr_window` rows exist or on a row whose ATR is NaN |
| Signals.SignalAt | signals.py:56-63 | `signal` is 1 exactly where `long_ok` holds and -1 exactly where `short_ok` holds |
| Signals.SignalEmaMeaning | signals.py:38-45 | the up- and down-cross masks are disjoint, so `signal_ema` is 1 exactly on up-crosses, -1 exactly on down-crosses and 0 elsewhere |
| Signals.NoCrossWithoutHistory | signals.py:38-41 | row 0 (whose shifted values are NaN) and rows with equal EMAs never cross |
| Signals.VolFilterMeaning | signals.py:48-49 | the volume filter passes exactly when `vol_window` rows exist and the volume strictly exceeds `vol_mult` times its rolling mean |
| Signals.AtrFilterMeaning | signals.py:52-53 | the ATR filter passes exactly when `atr_window` rows exist, every ATR in the window is defined and the row's ATR strictly exceeds their mean |
| Signals.AssignmentOrderIrrelevant | signals.py:43-63 | the long and short masks are disjoint, so writing them in the other order gives the same `signal_ema` and `signal` |
| Signals.SignalMeaning | signals.py:56-63 | the signal is 1 exactly on an up-cross with both filters and a positive MACD histogram, -1 exactly on a down-cross with both filters and a negative one, and a nonzero signal equals `signal_ema` |
| Signals.FlatRows | signals.py:38-63 | row 0, a zero MACD histogram, the volume or ATR warm-up, and a NaN ATR in the ATR window all give signal 0 |
| Signals.GenerateSignals | signals.py:32-65 | the returned frame has one row per input row and carries each input row unchanged; on every row, `signal` is 1 exactly where `long_ok` holds and -1 exactly where `short_ok` holds, `signal_ema` is 1 exactly on up-crosses and -1 exactly on down-crosses, and `vol_ok`/`atr_ok` are the two filters; a nonzero signal agrees with `signal_ema` and row 0 is flat |
| Signals.DefaultWarmUp | signals.py:16-19 | with the default windows of 20 rows, rows 0 to 18 get signal 0 |
| Signals.CrossoverExample | signals.py:38-63 | on a two-row frame with windows of 2 and a confirmed up-cross on row 1, row 1 is long and row 0 is flat |

## Left out

- `main` in `backtest.py` (argument parsing, CSV reading, printing) is not modelled: it is I/O.
- `data_ingestion.py` (exchange client, downloads) and `indicators.py` (SMA, EMA, RSI, ATR) are not part of this model. `ema_9`, `ema_21`, `atr_14` and `volume` are input columns.
- `add_macd` (signals.py:5-14) is exponentially weighted float numerics. `macd_hist` is an input column.
- Floating-point rounding: prices and P&Ls are exact reals. NaN is modelled only where the code produces it: the ATR warm-up, the shifted first row, rolling-mean warm-up, and the empty summary. NaN in the OHLC, volume, EMA or MACD columns is not modelled.
- Signals.RollingMean: windows of 0 rows are excluded by a precondition (`ValidParams`); pandas' handling of a zero window is not modelled.
- The pandas DataFrame and its `.loc` lookups are sequences of records. The frame copy at signals.py:32 is value semantics: `GenerateSignals` returns new rows and cannot change its input.
- Backtest.SimulateExit: the inner loop is a method of its own rather than inlined in `Backtest`. Its state (`max_high`, `min_low`, `exit_price`, `trail_sl`) and its loop are kept as in the source, but it returns only the exit price. The P&L is computed by the caller, as in the source.
