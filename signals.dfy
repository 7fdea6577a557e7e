/** The signal generator of signals.py: a strict EMA9/EMA21 crossover,
    confirmed by a volume filter, an ATR filter and the sign of the MACD
    histogram, labels every row long (1), short (-1) or flat (0). Each row's
    labels depend only on that row, the previous row and the rolling windows
    ending at it. */
module Signals {
  import opened Values

  /** The input columns one row of the frame contributes. `atr14` is NaN
      (`None`) during the ATR warm-up; the EMAs and the MACD histogram are
      exponentially weighted without adjustment and so defined from row 0. */
  datatype Row = Row(ema9: real, ema21: real, volume: real, atr14: Num, macdHist: real)

  /** The keyword arguments `vol_window`, `vol_mult` and `atr_window`. */
  datatype Params = Params(volWindow: nat, volMult: real, atrWindow: nat)

  /** The defaults `vol_window=20`, `vol_mult=1.2`, `atr_window=20`. */
  const DefaultParams := Params(20, 1.2, 20)

  predicate ValidParams(p: Params)
  {
    p.volWindow >= 1 && p.atrWindow >= 1
  }

  /** One row of the returned frame: the input row, copied unchanged, and the
      added columns `signal_ema`, `vol_ok`, `atr_ok` and `signal`. */
  datatype Labeled = Labeled(row: Row, signalEma: Signal, volOk: bool, atrOk: bool, signal: Signal)

  // ---------------------------------------------------------------------
  // Rolling means.

  predicate AllDefined(xs: seq<Num>)
  {
    forall j :: 0 <= j < |xs| ==> xs[j].Some?
  }

  function Defined(xs: seq<Num>): (vs: seq<real>)
    requires AllDefined(xs)
    ensures |vs| == |xs|
    ensures forall j :: 0 <= j < |xs| ==> Some(vs[j]) == xs[j]
  {
    seq(|xs|, j requires 0 <= j < |xs| => xs[j].value)
  }

  /** pandas' `rolling(window=w).mean()` at row k, whose `min_periods`
      defaults to w: NaN while fewer than w rows exist and whenever a cell of
      the window (rows k + 1 - w .. k) is NaN, otherwise the window's mean. */
  function RollingMean(xs: seq<Num>, w: nat, k: nat): (r: Num)
    requires 1 <= w && k < |xs|
    ensures r.Some? <==> w <= k + 1 && forall j :: k + 1 - w <= j <= k ==> xs[j].Some?
  {
    if k + 1 < w then None
    else
      var window := xs[k + 1 - w..k + 1];
      assert forall j :: k + 1 - w <= j <= k ==> xs[j] == window[j - (k + 1 - w)];
      if AllDefined(window) then Some(Sum(Defined(window)) / w as real) else None
  }

  /** A defined rolling mean lies between any bounds of its window's cells;
      in particular a constant window has that constant as its mean. */
  lemma RollingMeanBounds(xs: seq<Num>, w: nat, k: nat, lo: real, hi: real)
    requires 1 <= w && w <= k + 1 && k < |xs|
    requires forall j :: k + 1 - w <= j <= k ==> xs[j].Some? && lo <= xs[j].value <= hi
    ensures RollingMean(xs, w, k).Some?
    ensures lo <= RollingMean(xs, w, k).value <= hi
  {
    var window := xs[k + 1 - w..k + 1];
    assert forall j :: 0 <= j < w ==> window[j] == xs[k + 1 - w + j];
    var vs := Defined(window);
    SumBounds(vs, lo, hi);
    MeanBetween(Sum(vs), w as real, lo, hi);
  }

  // ---------------------------------------------------------------------
  // The crossover.

  /** `ema_9.shift(1)` at row k: NaN on row 0. */
  function PrevEma9(rows: seq<Row>, k: nat): Num
    requires k < |rows|
  {
    if k == 0 then None else Some(rows[k - 1].ema9)
  }

  /** `ema_21.shift(1)` at row k: NaN on row 0. */
  function PrevEma21(rows: seq<Row>, k: nat): Num
    requires k < |rows|
  {
    if k == 0 then None else Some(rows[k - 1].ema21)
  }

  /** `up_cross`: EMA9 strictly above EMA21 now, and at or below it on the previous row. */
  predicate UpCross(rows: seq<Row>, k: nat)
    requires k < |rows|
    ensures UpCross(rows, k) <==>
              0 < k && rows[k - 1].ema9 <= rows[k - 1].ema21 && rows[k].ema9 > rows[k].ema21
  {
    rows[k].ema9 > rows[k].ema21 && Le(PrevEma9(rows, k), PrevEma21(rows, k))
  }

  /** `down_cross`: EMA9 strictly below EMA21 now, and at or above it on the previous row. */
  predicate DownCross(rows: seq<Row>, k: nat)
    requires k < |rows|
    ensures DownCross(rows, k) <==>
              0 < k && rows[k - 1].ema9 >= rows[k - 1].ema21 && rows[k].ema9 < rows[k].ema21
  {
    rows[k].ema9 < rows[k].ema21 && Ge(PrevEma9(rows, k), PrevEma21(rows, k))
  }

  /** `signal_ema`: 0, overwritten by 1 on up-crosses, then by -1 on down-crosses. */
  function SignalEma(rows: seq<Row>, k: nat): (s: Signal)
    requires k < |rows|
    ensures s == 1 <==> UpCross(rows, k)
    ensures s == -1 <==> DownCross(rows, k)
  {
    if DownCross(rows, k) then -1 else if UpCross(rows, k) then 1 else 0
  }

  /** The two crossover masks never both hold, so `signal_ema` is 1 exactly on
      up-crosses, -1 exactly on down-crosses and 0 elsewhere. */
  lemma SignalEmaMeaning(rows: seq<Row>, k: nat)
    requires k < |rows|
    ensures !(UpCross(rows, k) && DownCross(rows, k))
    ensures SignalEma(rows, k) == 1 <==> UpCross(rows, k)
    ensures SignalEma(rows, k) == -1 <==> DownCross(rows, k)
    ensures SignalEma(rows, k) == 0 <==> !UpCross(rows, k) && !DownCross(rows, k)
  {
  }

  /** A crossover needs the previous row and a strict inequality now: row 0
      and rows where the EMAs are equal never cross. */
  lemma NoCrossWithoutHistory(rows: seq<Row>, k: nat)
    requires k < |rows|
    requires k == 0 || rows[k].ema9 == rows[k].ema21
    ensures !UpCross(rows, k) && !DownCross(rows, k) && SignalEma(rows, k) == 0
  {
  }

  // ---------------------------------------------------------------------
  // The filters.

  function VolumeColumn(rows: seq<Row>): seq<Num>
  {
    seq(|rows|, k requires 0 <= k < |rows| => Some(rows[k].volume))
  }

  function AtrColumn(rows: seq<Row>): seq<Num>
  {
    seq(|rows|, k requires 0 <= k < |rows| => rows[k].atr14)
  }

  /** `vol_ma`: the rolling mean of volume over `vol_window` rows. */
  function VolMa(rows: seq<Row>, p: Params, k: nat): Num
    requires ValidParams(p) && k < |rows|
  {
    RollingMean(VolumeColumn(rows), p.volWindow, k)
  }

  /** `atr_ma`: the rolling mean of `atr_14` over `atr_window` rows. */
  function AtrMa(rows: seq<Row>, p: Params, k: nat): Num
    requires ValidParams(p) && k < |rows|
  {
    RollingMean(AtrColumn(rows), p.atrWindow, k)
  }

  /** `vol_ok = volume > vol_ma * vol_mult`. */
  predicate VolOk(rows: seq<Row>, p: Params, k: nat)
    requires ValidParams(p) && k < |rows|
    ensures VolOk(rows, p, k) ==> p.volWindow <= k + 1
  {
    Gt(Some(rows[k].volume), Mul(VolMa(rows, p, k), Some(p.volMult)))
  }

  /** `atr_ok = atr_14 > atr_ma`. */
  predicate AtrOk(rows: seq<Row>, p: Params, k: nat)
    requires ValidParams(p) && k < |rows|
    ensures AtrOk(rows, p, k) ==> p.atrWindow <= k + 1 && rows[k].atr14.Some?
  {
    Gt(rows[k].atr14, AtrMa(rows, p, k))
  }

  /** The volume filter passes exactly when the volume mean is defined (at
      least `vol_window` rows exist) and the volume STRICTLY exceeds
      `vol_mult` times it. */
  lemma VolFilterMeaning(rows: seq<Row>, p: Params, k: nat)
    requires ValidParams(p) && k < |rows|
    ensures VolMa(rows, p, k).Some? <==> p.volWindow <= k + 1
    ensures VolOk(rows, p, k) <==>
              p.volWindow <= k + 1 && rows[k].volume > VolMa(rows, p, k).value * p.volMult
  {
  }

  /** The ATR filter passes exactly when the row's ATR and the ATR mean over
      the last `atr_window` rows (all of whose ATRs must be defined) are
      defined and the ATR STRICTLY exceeds the mean. */
  lemma AtrFilterMeaning(rows: seq<Row>, p: Params, k: nat)
    requires ValidParams(p) && k < |rows|
    ensures AtrOk(rows, p, k) <==>
              && p.atrWindow <= k + 1
              && (forall j :: k + 1 - p.atrWindow <= j <= k ==> rows[j].atr14.Some?)
              && rows[k].atr14.value > AtrMa(rows, p, k).value
  {
    var col := AtrColumn(rows);
    assert forall j :: 0 <= j < |rows| ==> col[j] == rows[j].atr14;
  }

  // ---------------------------------------------------------------------
  // The combined signal.

  /** `long_ok`: an up-cross with both filters passing and a positive MACD histogram. */
  predicate LongOk(rows: seq<Row>, p: Params, k: nat)
    requires ValidParams(p) && k < |rows|
  {
    UpCross(rows, k) && VolOk(rows, p, k) && AtrOk(rows, p, k) && rows[k].macdHist > 0.0
  }

  /** `short_ok`: a down-cross with both filters passing and a negative MACD histogram. */
  predicate ShortOk(rows: seq<Row>, p: Params, k: nat)
    requires ValidParams(p) && k < |rows|
  {
    DownCross(rows, k) && VolOk(rows, p, k) && AtrOk(rows, p, k) && rows[k].macdHist < 0.0
  }

  /** `signal`: 0, overwritten by 1 where `long_ok`, then by -1 where `short_ok`. */
  function SignalAt(rows: seq<Row>, p: Params, k: nat): (s: Signal)
    requires ValidParams(p) && k < |rows|
    ensures s == 1 <==> LongOk(rows, p, k)
    ensures s == -1 <==> ShortOk(rows, p, k)
  {
    if ShortOk(rows, p, k) then -1 else if LongOk(rows, p, k) then 1 else 0
  }

  /** The same two assignments made in the other order: the long mask written last. */
  function SignalLongLast(rows: seq<Row>, p: Params, k: nat): Signal
    requires ValidParams(p) && k < |rows|
  {
    if LongOk(rows, p, k) then 1 else if ShortOk(rows, p, k) then -1 else 0
  }

  /** The order of the mask assignments does not matter: the long and short
      masks are disjoint, for `signal_ema` and for `signal` alike. */
  lemma AssignmentOrderIrrelevant(rows: seq<Row>, p: Params, k: nat)
    requires ValidParams(p) && k < |rows|
    ensures !(LongOk(rows, p, k) && ShortOk(rows, p, k))
    ensures SignalAt(rows, p, k) == SignalLongLast(rows, p, k)
    ensures SignalEma(rows, k) == (if UpCross(rows, k) then 1 else if DownCross(rows, k) then -1 else 0)
  {
    SignalEmaMeaning(rows, k);
  }

  /** The signal is long exactly on a confirmed up-cross with a positive MACD
      histogram, short exactly on a confirmed down-cross with a negative one,
      and a nonzero signal always agrees with `signal_ema`. */
  lemma SignalMeaning(rows: seq<Row>, p: Params, k: nat)
    requires ValidParams(p) && k < |rows|
    ensures SignalAt(rows, p, k) == 1 <==>
              UpCross(rows, k) && VolOk(rows, p, k) && AtrOk(rows, p, k) && rows[k].macdHist > 0.0
    ensures SignalAt(rows, p, k) == -1 <==>
              DownCross(rows, k) && VolOk(rows, p, k) && AtrOk(rows, p, k) && rows[k].macdHist < 0.0
    ensures SignalAt(rows, p, k) != 0 ==> SignalAt(rows, p, k) == SignalEma(rows, k)
  {
    SignalEmaMeaning(rows, k);
  }

  /** No signal on row 0, on a row with a zero MACD histogram, during the
      volume or ATR warm-up, or when any ATR of the ATR window is NaN. */
  lemma FlatRows(rows: seq<Row>, p: Params, k: nat)
    requires ValidParams(p) && k < |rows|
    requires || k == 0
             || rows[k].macdHist == 0.0
             || k + 1 < p.volWindow
             || k + 1 < p.atrWindow
             || (exists j :: k + 1 - p.atrWindow <= j <= k && 0 <= j && rows[j].atr14.None?)
    ensures SignalAt(rows, p, k) == 0
  {
    NoCrossWithoutHistory(rows, 0);
    VolFilterMeaning(rows, p, k);
    AtrFilterMeaning(rows, p, k);
  }

  /** `generate_signals(df, vol_window, vol_mult, atr_window)`: a copy of the
      frame with the crossover label, both filter flags and the signal added. */
  function GenerateSignals(rows: seq<Row>, p: Params): (out: seq<Labeled>)
    requires ValidParams(p)
    ensures |out| == |rows|
    ensures forall k :: 0 <= k < |rows| ==> out[k].row == rows[k]
    ensures forall k :: 0 <= k < |rows| ==>
              out[k].signal != 0 ==> out[k].signal == out[k].signalEma && out[k].volOk && out[k].atrOk
    ensures forall k :: 0 <= k < |rows| ==>
              && (out[k].signal == 1 ==> rows[k].macdHist > 0.0)
              && (out[k].signal == -1 ==> rows[k].macdHist < 0.0)
    ensures forall k :: 0 <= k < |rows| ==>
              && (out[k].signal == 1 <==> LongOk(rows, p, k))
              && (out[k].signal == -1 <==> ShortOk(rows, p, k))
              && (out[k].signalEma == 1 <==> UpCross(rows, k))
              && (out[k].signalEma == -1 <==> DownCross(rows, k))
              && out[k].volOk == VolOk(rows, p, k)
              && out[k].atrOk == AtrOk(rows, p, k)
    ensures |rows| > 0 ==> out[0].signalEma == 0 && out[0].signal == 0
  {
    forall k | 0 <= k < |rows|
      ensures SignalAt(rows, p, k) != 0 ==> SignalAt(rows, p, k) == SignalEma(rows, k)
    {
      SignalEmaMeaning(rows, k);
      SignalMeaning(rows, p, k);
    }
    seq(|rows|, k requires 0 <= k < |rows| =>
      Labeled(rows[k], SignalEma(rows, k), VolOk(rows, p, k), AtrOk(rows, p, k), SignalAt(rows, p, k)))
  }

  /** With the default windows of 20 rows, the first 19 rows are flat. */
  lemma DefaultWarmUp(rows: seq<Row>, k: nat)
    requires k < |rows| && k < 19
    ensures SignalAt(rows, DefaultParams, k) == 0
  {
    FlatRows(rows, DefaultParams, k);
  }

  /** Two rows with windows of 2: EMA9 crosses above EMA21 on row 1, volume 20
      beats 1.2 times the mean 15, ATR 2 beats the mean 1.5, and the MACD
      histogram is positive, so row 1 is long and row 0 is flat. */
  lemma CrossoverExample()
    ensures var rows := [Row(1.0, 2.0, 10.0, Some(1.0), 0.0), Row(3.0, 2.0, 20.0, Some(2.0), 0.5)];
            var out := GenerateSignals(rows, Params(2, 1.2, 2));
            out[0].signal == 0 && out[1].signalEma == 1 && out[1].signal == 1
  {
    var rows := [Row(1.0, 2.0, 10.0, Some(1.0), 0.0), Row(3.0, 2.0, 20.0, Some(2.0), 0.5)];
    var p := Params(2, 1.2, 2);
    var vols := VolumeColumn(rows);
    assert vols[0..2] == [Some(10.0), Some(20.0)];
    assert Defined(vols[0..2]) == [10.0, 20.0];
    assert VolMa(rows, p, 1) == Some(15.0);
    var atrs := AtrColumn(rows);
    assert atrs[0..2] == [Some(1.0), Some(2.0)];
    assert Defined(atrs[0..2]) == [1.0, 2.0];
    assert AtrMa(rows, p, 1) == Some(1.5);
    assert UpCross(rows, 1) && VolOk(rows, p, 1) && AtrOk(rows, p, 1);
    assert LongOk(rows, p, 1);
  }
}
