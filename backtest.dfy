/** The trade simulator of backtest.py. For every bar that carries a nonzero
    signal (except the last bar) it enters at the next bar's open, freezes a
    fixed stop and a take-profit scaled by that bar's ATR, walks forward bar by
    bar with a trailing stop, checks the stop before the target and exits on the
    first bar where one of them fires, or at the last close. The resulting P&L
    list is summarised by `Performance.Summarize`. */
module Backtest {
  import opened Values
  import Performance

  /** One row of the input frame, restricted to the columns the backtest reads.
      `atr` is the `atr_14` column, NaN (`None`) during the ATR warm-up. */
  datatype Bar = Bar(open: real, high: real, low: real, close: real, atr: Num, signal: Signal)

  /** The ATR multiples `sl_atr`, `tp_atr` and `trail_atr`; `trail_atr` is 1.0
      when the caller leaves it out (`DefaultTrail`). */
  datatype Config = Config(slAtr: real, tpAtr: real, trailAtr: real)

  /** The configuration with the default trailing multiple. */
  function DefaultTrail(slAtr: real, tpAtr: real): Config
  {
    Config(slAtr, tpAtr, 1.0)
  }

  datatype Side = Long | Short

  /** Signal 1 trades long; any other nonzero signal takes the short branch. */
  function SideOf(sig: Signal): Side
    requires sig != 0
  {
    if sig == 1 then Long else Short
  }

  /** The levels frozen when a trade opens: the fixed stop, the take-profit and
      the trailing distance `trail_atr * atr`. All three are NaN when the entry
      bar's ATR is NaN. */
  datatype Levels = Levels(fixedSl: Num, tp: Num, gap: Num)

  /** `sig * mult * atr`, evaluated left to right; NaN when the ATR is NaN. */
  function AtrOffset(sig: Signal, mult: real, atr: Num): Num
  {
    Mul(Some(sig as real * mult), atr)
  }

  /** `fixed_sl = entry - sig * sl_atr * atr`, `tp = entry + sig * tp_atr * atr`. */
  function EntryLevels(entry: real, atr: Num, sig: Signal, cfg: Config): (lv: Levels)
    ensures atr.None? ==> lv == Levels(None, None, None)
    ensures atr.Some? ==> lv.fixedSl.Some? && lv.tp.Some? && lv.gap.Some?
  {
    Levels(Sub(Some(entry), AtrOffset(sig, cfg.slAtr, atr)),
           Add(Some(entry), AtrOffset(sig, cfg.tpAtr, atr)),
           Mul(Some(cfg.trailAtr), atr))
  }

  /** The favourable extreme after one more bar: `max_high` for a long,
      `min_low` for a short, each updated with Python's `max`/`min`. */
  function StepExtreme(side: Side, extreme: real, bar: Bar): (ext: real)
    ensures side == Long ==> ext >= extreme && ext >= bar.high && (ext == extreme || ext == bar.high)
    ensures side == Short ==> ext <= extreme && ext <= bar.low && (ext == extreme || ext == bar.low)
  {
    match side
    case Long => Max(extreme, bar.high)
    case Short => Min(extreme, bar.low)
  }

  /** The trailing stop for a given extreme:
      `max(fixed_sl, max_high - trail_atr * atr)` for a long,
      `min(fixed_sl, min_low + trail_atr * atr)` for a short. */
  function TrailStop(side: Side, lv: Levels, extreme: real): (stop: Num)
    ensures lv.fixedSl.None? ==> stop.None?
    ensures lv.fixedSl.Some? && lv.gap.None? ==> stop == lv.fixedSl
    ensures lv.fixedSl.Some? && lv.gap.Some? && side == Long ==>
              && stop.Some? && stop.value >= lv.fixedSl.value && stop.value >= extreme - lv.gap.value
              && (stop.value == lv.fixedSl.value || stop.value == extreme - lv.gap.value)
    ensures lv.fixedSl.Some? && lv.gap.Some? && side == Short ==>
              && stop.Some? && stop.value <= lv.fixedSl.value && stop.value <= extreme + lv.gap.value
              && (stop.value == lv.fixedSl.value || stop.value == extreme + lv.gap.value)
  {
    match side
    case Long => PyMax(lv.fixedSl, Sub(Some(extreme), lv.gap))
    case Short => PyMin(lv.fixedSl, Add(Some(extreme), lv.gap))
  }

  /** The stop condition on a bar: `low <= trail_sl` (long), `high >= trail_sl` (short). */
  predicate StopHit(side: Side, bar: Bar, stop: Num)
  {
    match side
    case Long => Le(Some(bar.low), stop)
    case Short => Ge(Some(bar.high), stop)
  }

  /** The target condition on a bar: `high >= tp` (long), `low <= tp` (short). */
  predicate TargetHit(side: Side, bar: Bar, tp: Num)
  {
    match side
    case Long => Ge(Some(bar.high), tp)
    case Short => Le(Some(bar.low), tp)
  }

  datatype ExitKind = StopLoss | TakeProfit | EndOfData

  /** How, on which bar and at what price a trade closed. */
  datatype Exit = Exit(kind: ExitKind, index: nat, price: real)

  /** The forward scan from bar j, given the extreme reached before bar j:
      update the extreme, recompute the trailing stop, test the stop, then the
      target; with no bars left, close at the last bar's close. */
  function Scan(bars: seq<Bar>, side: Side, lv: Levels, j: nat, extreme: real): (e: Exit)
    requires 0 < |bars| && j <= |bars|
    ensures e.index < |bars|
    ensures e.kind == EndOfData ==> e == Exit(EndOfData, |bars| - 1, bars[|bars| - 1].close)
    ensures e.kind != EndOfData ==> j <= e.index
    ensures e.kind == TakeProfit ==> lv.tp == Some(e.price)
    decreases |bars| - j
  {
    if j == |bars| then Exit(EndOfData, |bars| - 1, bars[|bars| - 1].close)
    else
      var ext := StepExtreme(side, extreme, bars[j]);
      var stop := TrailStop(side, lv, ext);
      if StopHit(side, bars[j], stop) then Exit(StopLoss, j, stop.value)
      else if TargetHit(side, bars[j], lv.tp) then Exit(TakeProfit, j, lv.tp.value)
      else Scan(bars, side, lv, j + 1, ext)
  }

  /** One step of the scan on bar j. */
  lemma ScanStep(bars: seq<Bar>, side: Side, lv: Levels, j: nat, extreme: real)
    requires j < |bars|
    ensures var ext := StepExtreme(side, extreme, bars[j]);
            var stop := TrailStop(side, lv, ext);
            Scan(bars, side, lv, j, extreme) ==
              if StopHit(side, bars[j], stop) then Exit(StopLoss, j, stop.value)
              else if TargetHit(side, bars[j], lv.tp) then Exit(TakeProfit, j, lv.tp.value)
              else Scan(bars, side, lv, j + 1, ext)
  {
  }

  /** One simulated position. */
  datatype Trade = Trade(signalIndex: nat, side: Side, entryPrice: real, levels: Levels, exit: Exit, pnl: real)

  /** The trade opened by the signal on bar i: entry at bar i + 1's open, levels
      from bar i + 1's ATR, scan from bar i + 1, `pnl = (exit - entry) * sig`. */
  function OpenTrade(bars: seq<Bar>, i: nat, cfg: Config): (t: Trade)
    requires i + 1 < |bars| && bars[i].signal != 0
    ensures t.signalIndex == i && t.entryPrice == bars[i + 1].open
    ensures i + 1 <= t.exit.index < |bars|
  {
    var sig := bars[i].signal;
    var entry := bars[i + 1].open;
    var lv := EntryLevels(entry, bars[i + 1].atr, sig, cfg);
    var exit := Scan(bars, SideOf(sig), lv, i + 1, entry);
    Trade(i, SideOf(sig), entry, lv, exit, (exit.price - entry) * sig as real)
  }

  /** The bars among 0 .. k - 1 whose signal is nonzero, in bar order: the
      iterations of the outer loop that do not `continue`. */
  function SignalIndices(bars: seq<Bar>, k: nat): (idx: seq<nat>)
    requires k <= |bars|
    ensures forall m :: 0 <= m < |idx| ==> idx[m] < k && bars[idx[m]].signal != 0
  {
    if k == 0 then []
    else if bars[k - 1].signal == 0 then SignalIndices(bars, k - 1)
    else SignalIndices(bars, k - 1) + [k - 1]
  }

  /** The trades opened by the signals on bars 0 .. k - 1, in bar order. */
  function Trades(bars: seq<Bar>, k: nat, cfg: Config): seq<Trade>
    requires k == 0 || k < |bars|
  {
    var idx := SignalIndices(bars, k);
    seq(|idx|, m requires 0 <= m < |idx| => OpenTrade(bars, idx[m], cfg))
  }

  /** Every trade of a backtest: signals on bars 0 .. n - 2 (a signal on the
      last bar has no next bar to enter on). */
  function AllTrades(bars: seq<Bar>, cfg: Config): seq<Trade>
  {
    if |bars| == 0 then [] else Trades(bars, |bars| - 1, cfg)
  }

  function Pnls(trades: seq<Trade>): seq<real>
  {
    seq(|trades|, m requires 0 <= m < |trades| => trades[m].pnl)
  }

  lemma PnlsSnoc(trades: seq<Trade>, t: Trade)
    ensures Pnls(trades + [t]) == Pnls(trades) + [t.pnl]
  {
  }

  /** The bars whose signal opens a trade. */
  ghost function SignalBars(bars: seq<Bar>): set<int>
  {
    set i | 0 <= i < |bars| - 1 && bars[i].signal != 0
  }

  // ---------------------------------------------------------------------
  // The per-bar quantities of a trade, defined directly from the bars.

  /** The extreme after bars start .. end - 1, starting from the entry price:
      for a long the highest of the entry and the highs, for a short the lowest
      of the entry and the lows. */
  function RunExtreme(bars: seq<Bar>, side: Side, entry: real, start: nat, end: nat): real
    requires start <= end <= |bars|
    decreases end - start
  {
    if end == start then entry
    else StepExtreme(side, RunExtreme(bars, side, entry, start, end - 1), bars[end - 1])
  }

  /** The running extreme is the extreme of the entry price and the bars seen:
      for a long the highest of them, for a short the lowest. */
  lemma {:induction false} RunExtremeIsExtreme(bars: seq<Bar>, side: Side, entry: real, start: nat, end: nat)
    requires start <= end <= |bars|
    ensures var r := RunExtreme(bars, side, entry, start, end);
            side == Long ==>
              && r >= entry && (forall k :: start <= k < end ==> bars[k].high <= r)
              && (r == entry || exists k :: start <= k < end && r == bars[k].high)
    ensures var r := RunExtreme(bars, side, entry, start, end);
            side == Short ==>
              && r <= entry && (forall k :: start <= k < end ==> r <= bars[k].low)
              && (r == entry || exists k :: start <= k < end && r == bars[k].low)
    decreases end - start
  {
    if end > start {
      RunExtremeIsExtreme(bars, side, entry, start, end - 1);
    }
  }

  /** The trailing stop in force on bar j of a trade that entered on bar start. */
  function StopAt(bars: seq<Bar>, side: Side, lv: Levels, entry: real, start: nat, j: nat): Num
    requires start <= j < |bars|
  {
    TrailStop(side, lv, RunExtreme(bars, side, entry, start, j + 1))
  }

  /** An exit condition fires on bar j. */
  predicate Fires(bars: seq<Bar>, side: Side, lv: Levels, entry: real, start: nat, j: nat)
    requires start <= j < |bars|
  {
    StopHit(side, bars[j], StopAt(bars, side, lv, entry, start, j)) || TargetHit(side, bars[j], lv.tp)
  }

  /** No exit condition fires on bars from .. to - 1. */
  predicate NoExitBetween(bars: seq<Bar>, side: Side, lv: Levels, entry: real, start: nat, from: nat, to: nat)
    requires start <= from && to <= |bars|
  {
    forall k :: from <= k < to ==> !Fires(bars, side, lv, entry, start, k)
  }

  /** `e` is the exit of a trade that entered on bar start, given that no
      condition fired before bar from: the first bar from `from` on where a
      condition fires, the stop winning a tie and pricing at the trailing stop,
      the target pricing at tp; or, if nothing fires, the last close. */
  ghost predicate IsFirstExit(bars: seq<Bar>, side: Side, lv: Levels, entry: real, start: nat, from: nat, e: Exit)
    requires 0 < |bars| && start <= from <= |bars|
  {
    && (e.kind == EndOfData ==>
          && e.index == |bars| - 1 && e.price == bars[|bars| - 1].close
          && NoExitBetween(bars, side, lv, entry, start, from, |bars|))
    && (e.kind != EndOfData ==>
          && from <= e.index < |bars|
          && Fires(bars, side, lv, entry, start, e.index)
          && NoExitBetween(bars, side, lv, entry, start, from, e.index)
          && (e.kind == StopLoss <==> StopHit(side, bars[e.index], StopAt(bars, side, lv, entry, start, e.index)))
          && (e.kind == StopLoss ==> StopAt(bars, side, lv, entry, start, e.index) == Some(e.price))
          && (e.kind == TakeProfit ==> lv.tp == Some(e.price)))
  }

  /** The scan from bar j, with the extreme reached on bars start .. j - 1,
      finds the first exit from bar j on. */
  lemma {:induction false} ScanFrom(bars: seq<Bar>, side: Side, lv: Levels, entry: real, start: nat, j: nat)
    requires 0 < |bars| && start <= j <= |bars|
    ensures IsFirstExit(bars, side, lv, entry, start, j,
                        Scan(bars, side, lv, j, RunExtreme(bars, side, entry, start, j)))
    decreases |bars| - j
  {
    if j < |bars| {
      var ext := StepExtreme(side, RunExtreme(bars, side, entry, start, j), bars[j]);
      assert ext == RunExtreme(bars, side, entry, start, j + 1);
      var stop := TrailStop(side, lv, ext);
      if !StopHit(side, bars[j], stop) && !TargetHit(side, bars[j], lv.tp) {
        ScanFrom(bars, side, lv, entry, start, j + 1);
      }
    }
  }

  /** The scan of a trade entering on bar start exits on the first bar where a
      condition fires, at the trailing stop if the stop fires there (even when
      the target fires on the same bar), at tp if only the target fires, and at
      the last close if no bar fires. */
  lemma ScanFindsFirstExit(bars: seq<Bar>, side: Side, lv: Levels, entry: real, start: nat)
    requires 0 < |bars| && start <= |bars|
    ensures IsFirstExit(bars, side, lv, entry, start, start, Scan(bars, side, lv, start, entry))
  {
    ScanFrom(bars, side, lv, entry, start, start);
  }

  /** Tie-break: when the stop and the target both fire on bar k, and nothing
      fired on an earlier bar, the trade closes on bar k at the trailing stop. */
  lemma StopWinsTie(bars: seq<Bar>, i: nat, cfg: Config, k: nat)
    requires i + 1 < |bars| && bars[i].signal != 0
    requires var t := OpenTrade(bars, i, cfg);
             && i + 1 <= k < |bars|
             && StopHit(t.side, bars[k], StopAt(bars, t.side, t.levels, t.entryPrice, i + 1, k))
             && TargetHit(t.side, bars[k], t.levels.tp)
             && NoExitBetween(bars, t.side, t.levels, t.entryPrice, i + 1, i + 1, k)
    ensures var t := OpenTrade(bars, i, cfg);
            && t.exit.kind == StopLoss && t.exit.index == k
            && Some(t.exit.price) == StopAt(bars, t.side, t.levels, t.entryPrice, i + 1, k)
  {
    var t := OpenTrade(bars, i, cfg);
    var e := t.exit;
    ScanFindsFirstExit(bars, t.side, t.levels, t.entryPrice, i + 1);
    assert Fires(bars, t.side, t.levels, t.entryPrice, i + 1, k);
  }

  /** With a defined ATR the trailing stop never loosens: for a long it starts
      at or above the fixed stop and never falls, for a short it starts at or
      below the fixed stop and never rises. */
  lemma {:induction false} TrailingStopMonotone(bars: seq<Bar>, side: Side, lv: Levels, entry: real,
                                                start: nat, j: nat, k: nat)
    requires lv.fixedSl.Some? && lv.gap.Some?
    requires start <= j <= k < |bars|
    ensures StopAt(bars, side, lv, entry, start, j).Some? && StopAt(bars, side, lv, entry, start, k).Some?
    ensures side == Long ==>
              lv.fixedSl.value <= StopAt(bars, side, lv, entry, start, j).value
                               <= StopAt(bars, side, lv, entry, start, k).value
    ensures side == Short ==>
              StopAt(bars, side, lv, entry, start, k).value
                <= StopAt(bars, side, lv, entry, start, j).value <= lv.fixedSl.value
    decreases k - j
  {
    if j < k {
      TrailingStopMonotone(bars, side, lv, entry, start, j + 1, k);
      var before := RunExtreme(bars, side, entry, start, j + 1);
      assert RunExtreme(bars, side, entry, start, j + 2) == StepExtreme(side, before, bars[j + 1]);
    }
  }

  /** A NaN ATR on the entry bar makes every stop and target comparison false,
      so the trade always runs to the last bar's close. */
  lemma UndefinedAtrRunsToEnd(bars: seq<Bar>, i: nat, cfg: Config)
    requires i + 1 < |bars| && bars[i].signal != 0 && bars[i + 1].atr.None?
    ensures OpenTrade(bars, i, cfg).exit == Exit(EndOfData, |bars| - 1, bars[|bars| - 1].close)
    ensures OpenTrade(bars, i, cfg).pnl == (bars[|bars| - 1].close - bars[i + 1].open) * bars[i].signal as real
  {
    var sig := bars[i].signal;
    var lv := EntryLevels(bars[i + 1].open, bars[i + 1].atr, sig, cfg);
    NaNScan(bars, SideOf(sig), lv, i + 1, bars[i + 1].open);
  }

  lemma {:induction false} NaNScan(bars: seq<Bar>, side: Side, lv: Levels, j: nat, extreme: real)
    requires 0 < |bars| && j <= |bars|
    requires lv.fixedSl.None? && lv.tp.None?
    ensures Scan(bars, side, lv, j, extreme) == Exit(EndOfData, |bars| - 1, bars[|bars| - 1].close)
    decreases |bars| - j
  {
    if j < |bars| {
      NaNScan(bars, side, lv, j + 1, StepExtreme(side, extreme, bars[j]));
    }
  }

  /** With a defined ATR a, a stop exit loses at most `sl_atr * a`: the
      trailing stop is never looser than the fixed stop. */
  lemma StopLossBound(bars: seq<Bar>, i: nat, cfg: Config)
    requires i + 1 < |bars| && bars[i].signal != 0 && bars[i + 1].atr.Some?
    ensures var t := OpenTrade(bars, i, cfg);
            t.exit.kind == StopLoss ==> t.pnl >= -(cfg.slAtr * bars[i + 1].atr.value)
  {
    var t := OpenTrade(bars, i, cfg);
    var lv := t.levels;
    TradePnl(bars, i, cfg);
    EntryLevelValues(t.entryPrice, bars[i + 1].atr.value, bars[i].signal, cfg);
    if t.exit.kind == StopLoss {
      ScanFindsFirstExit(bars, t.side, lv, t.entryPrice, i + 1);
      var k := t.exit.index;
      TrailingStopMonotone(bars, t.side, lv, t.entryPrice, i + 1, k, k);
    }
  }

  /** With a defined ATR a, a target exit gains exactly `tp_atr * a`. */
  lemma TakeProfitGain(bars: seq<Bar>, i: nat, cfg: Config)
    requires i + 1 < |bars| && bars[i].signal != 0 && bars[i + 1].atr.Some?
    ensures var t := OpenTrade(bars, i, cfg);
            t.exit.kind == TakeProfit ==> t.pnl == cfg.tpAtr * bars[i + 1].atr.value
  {
    var t := OpenTrade(bars, i, cfg);
    TradePnl(bars, i, cfg);
    EntryLevelValues(t.entryPrice, bars[i + 1].atr.value, bars[i].signal, cfg);
    if t.exit.kind == TakeProfit {
      ScanFindsFirstExit(bars, t.side, t.levels, t.entryPrice, i + 1);
    }
  }

  /** A long earns exit - entry, a short earns entry - exit. */
  lemma TradePnl(bars: seq<Bar>, i: nat, cfg: Config)
    requires i + 1 < |bars| && bars[i].signal != 0
    ensures var t := OpenTrade(bars, i, cfg);
            && t.entryPrice == bars[i + 1].open
            && (bars[i].signal == 1 ==> t.side == Long && t.pnl == t.exit.price - t.entryPrice)
            && (bars[i].signal == -1 ==> t.side == Short && t.pnl == t.entryPrice - t.exit.price)
  {
    var t := OpenTrade(bars, i, cfg);
    assert t.pnl == (t.exit.price - t.entryPrice) * bars[i].signal as real;
  }

  /** With a defined ATR a the frozen levels are, for a long,
      `entry - sl_atr * a` and `entry + tp_atr * a`, for a short
      `entry + sl_atr * a` and `entry - tp_atr * a`, and the trailing distance
      is `trail_atr * a` either way. */
  lemma EntryLevelValues(entry: real, a: real, sig: Signal, cfg: Config)
    requires sig != 0
    ensures var lv := EntryLevels(entry, Some(a), sig, cfg);
            && lv.fixedSl.Some? && lv.tp.Some? && lv.gap.Some?
            && lv.gap.value == cfg.trailAtr * a
            && (sig == 1 ==> lv.fixedSl.value == entry - cfg.slAtr * a && lv.tp.value == entry + cfg.tpAtr * a)
            && (sig == -1 ==> lv.fixedSl.value == entry + cfg.slAtr * a && lv.tp.value == entry - cfg.tpAtr * a)
  {
    if sig == 1 {
      assert sig as real * cfg.slAtr == cfg.slAtr && sig as real * cfg.tpAtr == cfg.tpAtr;
    } else {
      assert sig as real * cfg.slAtr == -cfg.slAtr && sig as real * cfg.tpAtr == -cfg.tpAtr;
    }
  }

  /** Under the default `trail_atr = 1.0` the trailing distance is the ATR itself. */
  lemma DefaultTrailDistance(entry: real, a: real, sig: Signal, slAtr: real, tpAtr: real)
    requires sig != 0
    ensures var lv := EntryLevels(entry, Some(a), sig, DefaultTrail(slAtr, tpAtr));
            lv.gap.Some? && lv.gap.value == a
  {
    EntryLevelValues(entry, a, sig, DefaultTrail(slAtr, tpAtr));
  }

  /** With positive ATR and positive `sl_atr`, `tp_atr`, the entry lies strictly
      between the fixed stop and the take-profit, on the side the signal says. */
  lemma LevelsAroundEntry(entry: real, a: real, sig: Signal, cfg: Config)
    requires sig != 0 && a > 0.0 && cfg.slAtr > 0.0 && cfg.tpAtr > 0.0
    ensures var lv := EntryLevels(entry, Some(a), sig, cfg);
            && lv.fixedSl.Some? && lv.tp.Some?
            && (sig == 1 ==> lv.fixedSl.value < entry < lv.tp.value)
            && (sig == -1 ==> lv.tp.value < entry < lv.fixedSl.value)
  {
    EntryLevelValues(entry, a, sig, cfg);
    assert cfg.slAtr * a > 0.0 && cfg.tpAtr * a > 0.0;
  }

  /** The bars before k whose signal is nonzero. */
  ghost function SignalsBefore(bars: seq<Bar>, k: nat): set<int>
    requires k <= |bars|
  {
    set i | 0 <= i < k && bars[i].signal != 0
  }

  /** The signal bars before k are listed in strictly increasing order and
      every nonzero signal among them is listed. */
  lemma {:induction false} SignalIndicesExact(bars: seq<Bar>, k: nat)
    requires k <= |bars|
    ensures var idx := SignalIndices(bars, k);
            && (forall m, m' :: 0 <= m < m' < |idx| ==> idx[m] < idx[m'])
            && (forall i :: 0 <= i < k && bars[i].signal != 0 ==> i in idx)
  {
    if k > 0 {
      SignalIndicesExact(bars, k - 1);
      var prev := SignalIndices(bars, k - 1);
      if bars[k - 1].signal != 0 {
        var idx := prev + [k - 1];
        forall i | 0 <= i < k && bars[i].signal != 0
          ensures i in idx
        {
          if i < k - 1 {
            assert i in prev;
          } else {
            assert idx[|prev|] == i;
          }
        }
      }
    }
  }

  /** There are as many listed signal bars before k as the set of them holds. */
  lemma {:induction false} SignalIndicesCount(bars: seq<Bar>, k: nat)
    requires k <= |bars|
    ensures |SignalIndices(bars, k)| == |SignalsBefore(bars, k)|
  {
    if k == 0 {
      assert SignalsBefore(bars, k) == {};
    } else {
      SignalIndicesCount(bars, k - 1);
      if bars[k - 1].signal != 0 {
        assert SignalsBefore(bars, k) == SignalsBefore(bars, k - 1) + {k - 1};
      } else {
        assert SignalsBefore(bars, k) == SignalsBefore(bars, k - 1);
      }
    }
  }

  /** The trades of signals on bars 0 .. k - 1 are one per nonzero signal, in
      bar order, each opened by its own signal bar, and no signal is skipped. */
  lemma TradesFollowSignals(bars: seq<Bar>, k: nat, cfg: Config)
    requires k == 0 || k < |bars|
    ensures var ts := Trades(bars, k, cfg);
            && (forall m :: 0 <= m < |ts| ==>
                  && ts[m].signalIndex < k && bars[ts[m].signalIndex].signal != 0
                  && ts[m] == OpenTrade(bars, ts[m].signalIndex, cfg))
            && (forall m, m' :: 0 <= m < m' < |ts| ==> ts[m].signalIndex < ts[m'].signalIndex)
            && (forall i :: 0 <= i < k && bars[i].signal != 0 ==>
                  exists m :: 0 <= m < |ts| && ts[m].signalIndex == i)
            && |ts| == |SignalsBefore(bars, k)|
  {
    var idx := SignalIndices(bars, k);
    var ts := Trades(bars, k, cfg);
    SignalIndicesExact(bars, k);
    SignalIndicesCount(bars, k);
    assert forall m :: 0 <= m < |ts| ==> ts[m].signalIndex == idx[m];
    forall i | 0 <= i < k && bars[i].signal != 0
      ensures exists m :: 0 <= m < |ts| && ts[m].signalIndex == i
    {
      var m :| 0 <= m < |idx| && idx[m] == i;
      assert ts[m].signalIndex == i;
    }
  }

  /** The outer loop's step: bar k adds its trade when its signal is nonzero. */
  lemma TradesStep(bars: seq<Bar>, k: nat, cfg: Config)
    requires k + 1 < |bars|
    ensures bars[k].signal == 0 ==> Trades(bars, k + 1, cfg) == Trades(bars, k, cfg)
    ensures bars[k].signal != 0 ==> Trades(bars, k + 1, cfg) == Trades(bars, k, cfg) + [OpenTrade(bars, k, cfg)]
  {
  }

  /** The backtest opens exactly one trade per nonzero signal on bars
      0 .. n - 2; a signal on the last bar opens none. */
  lemma TradeCount(bars: seq<Bar>, cfg: Config)
    ensures |AllTrades(bars, cfg)| == |SignalBars(bars)|
  {
    if |bars| == 0 {
      assert SignalBars(bars) == {};
    } else {
      TradesFollowSignals(bars, |bars| - 1, cfg);
      assert SignalBars(bars) == SignalsBefore(bars, |bars| - 1);
    }
  }

  // ---------------------------------------------------------------------
  // The imperative backtest.

  /** The inner `for j` loop of backtest.py for the signal on bar i: the exit
      price of the trade it opens. */
  method SimulateExit(bars: seq<Bar>, i: nat, cfg: Config) returns (exitPrice: real)
    requires i + 1 < |bars| && bars[i].signal != 0
    ensures exitPrice == OpenTrade(bars, i, cfg).exit.price
  {
    var n := |bars|;
    var sig := bars[i].signal;
    var entryPrice := bars[i + 1].open;
    var atr := bars[i + 1].atr;

    var fixedSl := Sub(Some(entryPrice), AtrOffset(sig, cfg.slAtr, atr));
    var tp := Add(Some(entryPrice), AtrOffset(sig, cfg.tpAtr, atr));

    var maxHigh := entryPrice;
    var minLow := entryPrice;
    var exit: Option<real> := None;  // Python's `exit_price = None`

    ghost var side := SideOf(sig);
    ghost var lv := EntryLevels(entryPrice, atr, sig, cfg);
    ghost var whole := Scan(bars, side, lv, i + 1, entryPrice);
    assert lv.fixedSl == fixedSl;
    assert lv.tp == tp;
    assert lv.gap == Mul(Some(cfg.trailAtr), atr);
    assert OpenTrade(bars, i, cfg).exit == whole;

    for j := i + 1 to n
      invariant exit.None?
      invariant sig == 1 ==> Scan(bars, side, lv, j, maxHigh) == whole
      invariant sig != 1 ==> Scan(bars, side, lv, j, minLow) == whole
    {
      ScanStep(bars, side, lv, j, if sig == 1 then maxHigh else minLow);
      var high := bars[j].high;
      var low := bars[j].low;
      if sig == 1 {
        maxHigh := Max(maxHigh, high);
        var trailSl := PyMax(fixedSl, Sub(Some(maxHigh), Mul(Some(cfg.trailAtr), atr)));
        if Le(Some(low), trailSl) {
          exit := trailSl;
          break;
        }
        if Ge(Some(high), tp) {
          exit := tp;
          break;
        }
      } else {
        minLow := Min(minLow, low);
        var trailSl := PyMin(fixedSl, Add(Some(minLow), Mul(Some(cfg.trailAtr), atr)));
        if Ge(Some(high), trailSl) {
          exit := trailSl;
          break;
        }
        if Le(Some(low), tp) {
          exit := tp;
          break;
        }
      }
    }

    if exit.None? {
      exitPrice := bars[n - 1].close;
    } else {
      exitPrice := exit.value;
    }
  }

  /** `backtest(df, sl_atr, tp_atr, trail_atr)`: simulate one trade per nonzero
      signal on bars 0 .. n - 2, collect their P&Ls and summarise them. */
  method Backtest(bars: seq<Bar>, cfg: Config) returns (summary: Performance.Summary)
    ensures summary == Performance.Summarize(Pnls(AllTrades(bars, cfg)))
    ensures summary.totalTrades == |SignalBars(bars)|
  {
    var pnls: seq<real> := [];
    var n := |bars|;
    var i := 0;
    while i + 1 < n
      invariant i == 0 || i < n
      invariant pnls == Pnls(Trades(bars, i, cfg))
    {
      TradesStep(bars, i, cfg);
      var sig := bars[i].signal;
      if sig == 0 {
        i := i + 1;
        continue;
      }
      var exitPrice := SimulateExit(bars, i, cfg);
      var pnl := (exitPrice - bars[i + 1].open) * sig as real;
      ghost var t := OpenTrade(bars, i, cfg);
      assert pnl == t.pnl;
      PnlsSnoc(Trades(bars, i, cfg), t);
      pnls := pnls + [pnl];
      i := i + 1;
    }
    assert pnls == Pnls(AllTrades(bars, cfg));
    summary := Performance.Summarize(pnls);
    TradeCount(bars, cfg);
  }
}
