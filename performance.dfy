/** The aggregation tail of the backtest: it reduces the list of per-trade
    P&Ls, in the order the trades were opened, to the trade count, the win
    rate, the average P&L and the maximum drawdown of the cumulative P&L. */
module Performance {
  import opened Values

  /** The backtest's result tuple `(total, win_rate, avg_pnl, max_dd)`; the
      three statistics are NaN (`None`) when there were no trades. */
  datatype Summary = Summary(totalTrades: nat, winRate: Num, avgPnl: Num, maxDrawdown: Num)

  /** The positions of the winning trades: those with a strictly positive P&L. */
  ghost function WinIndices(pnls: seq<real>): set<int>
  {
    set k | 0 <= k < |pnls| && pnls[k] > 0.0
  }

  /** numpy's `(arr > 0).sum()`: the number of winning trades. */
  function CountWins(pnls: seq<real>): (wins: nat)
    ensures wins == |WinIndices(pnls)|
    ensures wins <= |pnls|
  {
    if pnls == [] then 0
    else
      var n := |pnls| - 1;
      var before := CountWins(pnls[..n]);
      assert WinIndices(pnls) == WinIndices(pnls[..n]) + (if pnls[n] > 0.0 then {n} else {});
      before + (if pnls[n] > 0.0 then 1 else 0)
  }

  /** numpy's `cumsum`: a running total, each entry the previous one plus the
      next P&L, so that entry k is the sum of the first k + 1 P&Ls. */
  function CumSum(pnls: seq<real>): (cum: seq<real>)
    ensures |cum| == |pnls|
    ensures pnls != [] ==> cum[0] == pnls[0]
    ensures forall k :: 0 < k < |pnls| ==> cum[k] == cum[k - 1] + pnls[k]
  {
    if pnls == [] then []
    else
      var n := |pnls| - 1;
      var cum := CumSum(pnls[..n]);
      cum + [(if n == 0 then 0.0 else cum[n - 1]) + pnls[n]]
  }

  /** Entry k of the cumulative curve is the total P&L of the first k + 1 trades. */
  lemma {:induction false} CumSumIsPrefixSum(pnls: seq<real>, k: nat)
    requires k < |pnls|
    ensures CumSum(pnls)[k] == Sum(pnls[..k + 1])
  {
    SumPrefix(pnls, k);
    if k == 0 {
      assert pnls[..0] == [];
    } else {
      CumSumIsPrefixSum(pnls, k - 1);
    }
  }

  /** numpy's `max` of a non-empty array. */
  function SeqMax(xs: seq<real>): (m: real)
    requires xs != []
    ensures m in xs
    ensures forall k :: 0 <= k < |xs| ==> xs[k] <= m
  {
    if |xs| == 1 then xs[0] else Max(xs[0], SeqMax(xs[1..]))
  }

  /** numpy's `min` of a non-empty array. */
  function SeqMin(xs: seq<real>): (m: real)
    requires xs != []
    ensures m in xs
    ensures forall k :: 0 <= k < |xs| ==> m <= xs[k]
  {
    if |xs| == 1 then xs[0] else Min(xs[0], SeqMin(xs[1..]))
  }

  /** The drawdown as the backtest computes it, `(cum.max() - cum).max()`:
      the largest distance below the curve's GLOBAL maximum, which is the
      distance between the curve's highest and lowest points. */
  function Drawdown(cum: seq<real>): (dd: real)
    requires cum != []
    ensures dd == SeqMax(cum) - SeqMin(cum)
    ensures dd >= 0.0
  {
    var top := SeqMax(cum);
    var gaps := seq(|cum|, k requires 0 <= k < |cum| => top - cum[k]);
    var bottom := SeqMin(cum);
    var lowest :| 0 <= lowest < |cum| && cum[lowest] == bottom;
    assert gaps[lowest] == top - bottom;
    SeqMax(gaps)
  }

  /** The peak-to-trough drawdown measured against the RUNNING maximum of the
      curve, max over k of (max(cum[0..k]) - cum[k]): a loss only counts
      against a peak that came before it. It never exceeds `Drawdown`. */
  function PeakToTrough(cum: seq<real>): (dd: real)
    requires cum != []
    ensures 0.0 <= dd <= Drawdown(cum)
  {
    var gaps := seq(|cum|, k requires 0 <= k < |cum| => SeqMax(cum[..k + 1]) - cum[k]);
    var dd := SeqMax(gaps);
    assert 0.0 <= dd <= SeqMax(cum) - SeqMin(cum) by {
      PrefixPeak(cum, 0);
      var k :| 0 <= k < |gaps| && gaps[k] == dd;
      PrefixPeak(cum, k);
    }
    dd
  }

  /** The running maximum at k lies between cum[k] and the global maximum. */
  lemma PrefixPeak(cum: seq<real>, k: nat)
    requires k < |cum|
    ensures cum[k] <= SeqMax(cum[..k + 1]) <= SeqMax(cum)
  {
    assert cum[..k + 1][k] == cum[k];
    var peak := SeqMax(cum[..k + 1]);
    var j :| 0 <= j <= k && cum[..k + 1][j] == peak;
    assert cum[j] == peak;
  }

  /** A ratio of counts w / n with w <= n lies in [0, 1], is positive exactly
      when w is, and is 1 exactly when w == n. */
  lemma Ratio(w: nat, n: nat)
    requires 0 < n && w <= n
    ensures 0.0 <= w as real / n as real <= 1.0
    ensures w as real / n as real > 0.0 <==> w > 0
    ensures w as real / n as real == 1.0 <==> w == n
  {
    var r := w as real / n as real;
    assert r * n as real == w as real;
  }

  /** The aggregation of backtest.py: `(0, NaN, NaN, NaN)` for no trades,
      otherwise count, win rate, mean P&L and drawdown of the cumulative P&L. */
  function Summarize(pnls: seq<real>): (s: Summary)
    ensures s.totalTrades == |pnls|
    ensures pnls == [] <==> s.winRate.None?
    ensures pnls == [] ==> s == Summary(0, None, None, None)
    ensures pnls != [] ==>
              && s.winRate == Some(|WinIndices(pnls)| as real / |pnls| as real)
              && 0.0 <= s.winRate.value <= 1.0
              && s.avgPnl == Some(Sum(pnls) / |pnls| as real)
              && s.maxDrawdown == Some(SeqMax(CumSum(pnls)) - SeqMin(CumSum(pnls)))
              && s.maxDrawdown.value >= 0.0
  {
    if pnls == [] then Summary(0, None, None, None)
    else
      var total := |pnls|;
      var wins := CountWins(pnls);
      var cum := CumSum(pnls);
      Ratio(wins, total);
      var avg := Sum(pnls) / total as real;
      Summary(total, Some(wins as real / total as real), Some(avg), Some(Drawdown(cum)))
  }

  /** The average P&L lies between the worst and the best trade. */
  lemma AverageWithinRange(pnls: seq<real>)
    requires pnls != []
    ensures SeqMin(pnls) <= Summarize(pnls).avgPnl.value <= SeqMax(pnls)
  {
    var n := |pnls| as real;
    var total := Sum(pnls);
    var lo, hi := SeqMin(pnls), SeqMax(pnls);
    SumBounds(pnls, lo, hi);
    MeanBetween(total, n, lo, hi);
  }

  /** Every trade wins exactly when the win count equals the trade count. */
  lemma {:induction false} AllWin(pnls: seq<real>)
    ensures CountWins(pnls) == |pnls| <==> forall k :: 0 <= k < |pnls| ==> pnls[k] > 0.0
  {
    if pnls != [] {
      var n := |pnls| - 1;
      AllWin(pnls[..n]);
      assert forall k :: 0 <= k < n ==> pnls[..n][k] == pnls[k];
    }
  }

  /** The win rate is positive exactly when some trade wins, and 1 exactly when
      every trade wins. */
  lemma WinRateExtremes(pnls: seq<real>)
    requires pnls != []
    ensures Summarize(pnls).winRate.value > 0.0 <==> exists k :: 0 <= k < |pnls| && pnls[k] > 0.0
    ensures Summarize(pnls).winRate.value == 1.0 <==> forall k :: 0 <= k < |pnls| ==> pnls[k] > 0.0
  {
    var wins := CountWins(pnls);
    Ratio(wins, |pnls|);
    AllWin(pnls);
    if exists k :: 0 <= k < |pnls| && pnls[k] > 0.0 {
      var k :| 0 <= k < |pnls| && pnls[k] > 0.0;
      assert k in WinIndices(pnls);
    }
  }

  /** The P&L list [10, -4, 6, -12, 3]: 5 trades, win rate 0.6,
      average 0.6, cumulative curve [10, 6, 12, 0, 3] and drawdown 12. */
  lemma FiveTradeExample()
    ensures Summarize([10.0, -4.0, 6.0, -12.0, 3.0]) == Summary(5, Some(0.6), Some(0.6), Some(12.0))
  {
    var pnls := [10.0, -4.0, 6.0, -12.0, 3.0];
    ExampleCurve(pnls);
    ExampleTotals(pnls);
    var s := Summarize(pnls);
    assert s == Summary(5, Some(3 as real / 5 as real), Some(3.0 / 5 as real), Some(12.0));
    ThreeFifths();
  }

  lemma ExampleCurve(pnls: seq<real>)
    requires pnls == [10.0, -4.0, 6.0, -12.0, 3.0]
    ensures CumSum(pnls) == [10.0, 6.0, 12.0, 0.0, 3.0]
    ensures Drawdown(CumSum(pnls)) == 12.0
  {
    var cum := CumSum(pnls);
    assert cum[0] == 10.0 && cum[1] == 6.0 && cum[2] == 12.0 && cum[3] == 0.0 && cum[4] == 3.0;
    assert cum == [10.0, 6.0, 12.0, 0.0, 3.0];
    assert SeqMax(cum) == 12.0;
    assert SeqMin(cum) == 0.0;
  }

  lemma ExampleTotals(pnls: seq<real>)
    requires pnls == [10.0, -4.0, 6.0, -12.0, 3.0]
    ensures Sum(pnls) == 3.0 && CountWins(pnls) == 3
  {
    ExampleCurve(pnls);
    CumSumIsPrefixSum(pnls, 4);
    assert pnls[..5] == pnls;
    assert WinIndices(pnls) == {0, 2, 4};
  }

  lemma ThreeFifths()
    ensures 3 as real / 5 as real == 0.6 && 3.0 / 5 as real == 0.6
  {
  }

  /** On the curve [-5, 10] the backtest reports a drawdown of 15 although the
      curve never falls below an earlier peak. */
  lemma GlobalMaximumDrawdownExample()
    ensures Drawdown([-5.0, 10.0]) == 15.0
    ensures PeakToTrough([-5.0, 10.0]) == 0.0
  {
    var cum := [-5.0, 10.0];
    assert cum[..1] == [-5.0] && cum[..2] == cum;
    var gaps := seq(|cum|, k requires 0 <= k < |cum| => SeqMax(cum[..k + 1]) - cum[k]);
    assert gaps == [0.0, 0.0];
  }
}
