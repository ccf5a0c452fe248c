/**
 * The indicator series the signal generators read: a running-sum moving average, Wilder's
 * relative-strength index and Bollinger bands.  Each loop is proved against a definition that
 * looks only at the prices up to its own bar; that makes every indicator prefix-causal.
 */
module Indicators {
  import opened Wrappers
  import opened Sums

  // ----- Simple moving average -----

  function Mean(sum: real, count: nat): real
    requires count >= 1
  {
    sum / count as real
  }

  // The sum of the `period` prices before bar i.
  function WindowSum(prices: seq<real>, period: nat, i: nat): real
    requires period <= i <= |prices|
  {
    Sum(prices[i - period..i])
  }

  // The mean of the `period` prices ending at bar i; bars before the first full window stay 0.
  function SmaAt(prices: seq<real>, period: nat, i: nat): (mean: real)
    requires period >= 1 && i < |prices|
    ensures i < period - 1 ==> mean == 0.0
  {
    if i < period - 1 then 0.0 else Mean(WindowSum(prices, period, i + 1), period)
  }

  lemma SmaIs(prices: seq<real>, period: nat, i: nat, sum: real)
    requires 1 <= period <= i + 1 <= |prices| && sum == WindowSum(prices, period, i + 1)
    ensures SmaAt(prices, period, i) == Mean(sum, period)
  {
  }

  lemma EmptySum(s: seq<real>)
    ensures s == [] ==> Sum(s) == 0.0
  {
  }

  // The sum of the first window.
  method FirstSum(prices: seq<real>, period: nat) returns (sum: real)
    requires period <= |prices|
    ensures sum == WindowSum(prices, period, period)
  {
    hide Sum;
    EmptySum(prices[0..0]);
    sum := 0.0;
    for i := 0 to period
      invariant sum == Sum(prices[0..i])
    {
      SumSliceGrows(prices, 0, i);
      sum := sum + prices[i];
    }
  }

  // The source keeps one running sum: add the entering price, subtract the leaving one.
  method ComputeSMA(prices: seq<real>, period: nat) returns (r: Option<seq<real>>)
    requires period >= 1
    ensures r.None? <==> |prices| < period
    ensures r.Some? ==> |r.value| == |prices|
    ensures r.Some? ==> forall i :: 0 <= i < |prices| ==> r.value[i] == SmaAt(prices, period, i)
  {
    hide Sum, SmaAt, Mean, WindowSum;
    if |prices| < period {
      return None;
    }
    var sma := new real[|prices|](_ => 0.0);
    var sum := FirstSum(prices, period);
    sma[period - 1] := Mean(sum, period);
    SmaIs(prices, period, period - 1, sum);
    for i := period to |prices|
      invariant sum == WindowSum(prices, period, i)
      invariant forall j :: 0 <= j < i ==> sma[j] == SmaAt(prices, period, j)
      invariant forall j :: i <= j < |prices| ==> sma[j] == 0.0
    {
      WindowSlides(prices, period, i);
      sum := sum + (prices[i] - prices[i - period]);
      sma[i] := Mean(sum, period);
    }
    return Some(sma[..]);
  }

  lemma WindowSlides(prices: seq<real>, period: nat, i: nat)
    requires 1 <= period <= i < |prices|
    ensures WindowSum(prices, period, i + 1) == WindowSum(prices, period, i) + (prices[i] - prices[i - period])
    ensures SmaAt(prices, period, i) == Mean(WindowSum(prices, period, i + 1), period)
  {
    hide Sum, Mean;
    SumSliceSlides(prices, i - period, i);
  }

  lemma SmaPrefix(prices: seq<real>, period: nat, k: nat, i: nat)
    requires period >= 1 && i < k <= |prices|
    ensures SmaAt(prices[..k], period, i) == SmaAt(prices, period, i)
  {
    if i >= period - 1 { assert prices[..k][i + 1 - period..i + 1] == prices[i + 1 - period..i + 1]; }
  }

  // ----- Relative-strength index -----

  function Gain(prices: seq<real>, i: nat): real
    requires 1 <= i < |prices|
  {
    if prices[i] - prices[i - 1] > 0.0 then prices[i] - prices[i - 1] else 0.0
  }

  function Loss(prices: seq<real>, i: nat): real
    requires 1 <= i < |prices|
  {
    if prices[i] - prices[i - 1] > 0.0 then 0.0 else prices[i - 1] - prices[i]
  }

  function SumMoves(prices: seq<real>, i: nat): (moves: (real, real))
    requires i < |prices|
    ensures moves.0 >= 0.0 && moves.1 >= 0.0
  {
    if i == 0 then (0.0, 0.0)
    else
      var (g, l) := SumMoves(prices, i - 1);
      (g + Gain(prices, i), l + Loss(prices, i))
  }

  function Smooth(avg: real, move: real, period: nat): (r: real)
    requires period >= 1
    ensures avg >= 0.0 && move >= 0.0 ==> r >= 0.0
  {
    assert avg >= 0.0 ==> avg * (period - 1) as real >= 0.0;
    (avg * (period - 1) as real + move) / period as real
  }

  // Wilder's smoothed average gain and loss at bar i: a plain mean at bar `period`, then an
  // exponential update per bar.
  function Averages(prices: seq<real>, period: nat, i: nat): (avg: (real, real))
    requires 1 <= period <= i < |prices|
    ensures avg.0 >= 0.0 && avg.1 >= 0.0
    decreases i
  {
    if i == period then
      var (g, l) := SumMoves(prices, i);
      (g / period as real, l / period as real)
    else
      var (g, l) := Averages(prices, period, i - 1);
      (Smooth(g, Gain(prices, i), period), Smooth(l, Loss(prices, i), period))
  }

  function Strength(avgGain: real, avgLoss: real): real
    requires avgGain >= 0.0 && avgLoss >= 0.0
  {
    if avgLoss == 0.0 then 100.0 else 100.0 - 100.0 / (1.0 + avgGain / avgLoss)
  }

  function RsiAt(prices: seq<real>, period: nat, i: nat): real
    requires period >= 1 && i < |prices|
  {
    if i < period then 0.0
    else var (g, l) := Averages(prices, period, i); Strength(g, l)
  }

  // The moves up to the first full period.
  method FirstMoves(prices: seq<real>, period: nat) returns (gains: real, losses: real)
    requires period < |prices|
    ensures (gains, losses) == SumMoves(prices, period)
  {
    gains, losses := 0.0, 0.0;
    for i := 1 to period + 1
      invariant (gains, losses) == SumMoves(prices, i - 1)
    {
      var change := prices[i] - prices[i - 1];
      if change > 0.0 {
        gains := gains + change;
      } else {
        losses := losses + -change;
      }
    }
  }

  lemma FirstAverages(prices: seq<real>, period: nat)
    requires 1 <= period < |prices|
    ensures Averages(prices, period, period)
              == (SumMoves(prices, period).0 / period as real, SumMoves(prices, period).1 / period as real)
  {
  }

  lemma NextAverages(prices: seq<real>, period: nat, i: nat)
    requires 1 <= period < i < |prices|
    ensures var (g, l) := Averages(prices, period, i - 1);
            Averages(prices, period, i) == (Smooth(g, Gain(prices, i), period), Smooth(l, Loss(prices, i), period))
  {
  }

  method ComputeRSI(prices: seq<real>, period: nat) returns (r: Option<seq<real>>)
    requires period >= 1
    ensures r.None? <==> |prices| < period + 1
    ensures r.Some? ==> |r.value| == |prices|
    ensures r.Some? ==> forall i :: 0 <= i < |prices| ==> r.value[i] == RsiAt(prices, period, i)
  {
    hide Smooth, Strength, SumMoves, Averages;
    if |prices| < period + 1 {
      return None;
    }
    var rsi := new real[|prices|](_ => 0.0);
    var avgGain, avgLoss := FirstMoves(prices, period);
    avgGain, avgLoss := avgGain / period as real, avgLoss / period as real;
    FirstAverages(prices, period);
    rsi[period] := Strength(avgGain, avgLoss);
    for i := period + 1 to |prices|
      invariant (avgGain, avgLoss) == Averages(prices, period, i - 1)
      invariant forall j :: 0 <= j < i ==> rsi[j] == RsiAt(prices, period, j)
      invariant forall j :: i <= j < |prices| ==> rsi[j] == 0.0
    {
      var change := prices[i] - prices[i - 1];
      var gain, loss := 0.0, 0.0;
      if change > 0.0 {
        gain := change;
      } else {
        loss := -change;
      }
      NextAverages(prices, period, i);
      avgGain := Smooth(avgGain, gain, period);
      avgLoss := Smooth(avgLoss, loss, period);
      rsi[i] := Strength(avgGain, avgLoss);
    }
    return Some(rsi[..]);
  }

  // The two-branch formula is the share of gains in all movement, and stays within [0, 100].
  lemma StrengthIsGainShare(g: real, l: real)
    requires g >= 0.0 && l >= 0.0
    ensures 0.0 <= Strength(g, l) <= 100.0
    ensures l > 0.0 ==> Strength(g, l) * (g + l) == 100.0 * g
    ensures Strength(g, l) == 0.0 <==> g == 0.0 && l > 0.0
    ensures Strength(g, l) == 100.0 <==> l == 0.0
  {
  }

  lemma {:induction false} SumMovesPrefix(prices: seq<real>, k: nat, i: nat)
    requires i < k <= |prices|
    ensures SumMoves(prices[..k], i) == SumMoves(prices, i)
  {
    if i > 0 { SumMovesPrefix(prices, k, i - 1); }
  }

  lemma {:induction false} AveragesPrefix(prices: seq<real>, period: nat, k: nat, i: nat)
    requires 1 <= period <= i < k <= |prices|
    ensures Averages(prices[..k], period, i) == Averages(prices, period, i)
    decreases i
  {
    if i == period { SumMovesPrefix(prices, k, i); } else { AveragesPrefix(prices, period, k, i - 1); }
  }

  lemma RsiPrefix(prices: seq<real>, period: nat, k: nat, i: nat)
    requires period >= 1 && i < k <= |prices|
    ensures RsiAt(prices[..k], period, i) == RsiAt(prices, period, i)
  {
    if i >= period { AveragesPrefix(prices, period, k, i); }
  }

  // ----- Bollinger bands -----

  // Half the distance between the bands at bar i: `mult` standard deviations of the window.  The
  // square root is a parameter: nothing below depends on which function it is.
  function Spread(sqrt: real -> real, prices: seq<real>, period: nat, mult: real, i: nat): real
    requires 1 <= period <= i + 1 <= |prices|
  {
    mult * sqrt(Mean(Gap(prices[i + 1 - period..i + 1], SmaAt(prices, period, i)), period))
  }

  function UpperAt(sqrt: real -> real, prices: seq<real>, period: nat, mult: real, i: nat): real
    requires period >= 1 && i < |prices|
  {
    if i < period - 1 then 0.0 else SmaAt(prices, period, i) + Spread(sqrt, prices, period, mult, i)
  }

  function LowerAt(sqrt: real -> real, prices: seq<real>, period: nat, mult: real, i: nat): real
    requires period >= 1 && i < |prices|
  {
    if i < period - 1 then 0.0 else SmaAt(prices, period, i) - Spread(sqrt, prices, period, mult, i)
  }

  lemma EmptyGap(s: seq<real>, mean: real)
    ensures s == [] ==> Gap(s, mean) == 0.0
  {
  }

  lemma GapSliceGrows(s: seq<real>, lo: nat, hi: nat, mean: real)
    requires lo <= hi < |s|
    ensures Gap(s[lo..hi + 1], mean) == Gap(s[lo..hi], mean) + Square(s[hi] - mean)
  {
    assert s[lo..hi + 1][..hi - lo] == s[lo..hi];
  }

  // The two inner loops over one window.
  method Window(sqrt: real -> real, prices: seq<real>, period: nat, mult: real, i: nat)
    returns (mean: real, half: real)
    requires 1 <= period <= i + 1 <= |prices|
    ensures mean == SmaAt(prices, period, i)
    ensures half == Spread(sqrt, prices, period, mult, i)
  {
    hide Sum, Gap, Square, Mean;
    var start := i + 1 - period;
    var sum := 0.0;
    EmptySum(prices[start..start]);
    for v := start to i + 1
      invariant sum == Sum(prices[start..v])
    {
      SumSliceGrows(prices, start, v);
      sum := sum + prices[v];
    }
    mean := Mean(sum, period);
    var sqSum := 0.0;
    EmptyGap(prices[start..start], mean);
    for v := start to i + 1
      invariant sqSum == Gap(prices[start..v], mean)
    {
      GapSliceGrows(prices, start, v, mean);
      sqSum := sqSum + Square(prices[v] - mean);
    }
    half := mult * sqrt(Mean(sqSum, period));
  }

  method ComputeBollingerBands(sqrt: real -> real, prices: seq<real>, period: nat, mult: real)
    returns (r: Option<(seq<real>, seq<real>)>)
    requires period >= 1
    ensures r.None? <==> |prices| < period
    ensures r.Some? ==> |r.value.0| == |r.value.1| == |prices|
    ensures r.Some? ==> forall i :: 0 <= i < |prices| ==> r.value.0[i] == UpperAt(sqrt, prices, period, mult, i)
    ensures r.Some? ==> forall i :: 0 <= i < |prices| ==> r.value.1[i] == LowerAt(sqrt, prices, period, mult, i)
  {
    hide Spread, SmaAt;
    if |prices| < period {
      return None;
    }
    var upper := new real[|prices|](_ => 0.0);
    var lower := new real[|prices|](_ => 0.0);
    for i := period - 1 to |prices|
      invariant forall j :: 0 <= j < i ==> upper[j] == UpperAt(sqrt, prices, period, mult, j)
      invariant forall j :: 0 <= j < i ==> lower[j] == LowerAt(sqrt, prices, period, mult, j)
    {
      var mean, half := Window(sqrt, prices, period, mult, i);
      upper[i] := mean + half;
      lower[i] := mean - half;
    }
    return Some((upper[..], lower[..]));
  }

  lemma BandsPrefix(sqrt: real -> real, prices: seq<real>, period: nat, mult: real, k: nat, i: nat)
    requires period >= 1 && i < k <= |prices|
    ensures UpperAt(sqrt, prices[..k], period, mult, i) == UpperAt(sqrt, prices, period, mult, i)
    ensures LowerAt(sqrt, prices[..k], period, mult, i) == LowerAt(sqrt, prices, period, mult, i)
  {
    SmaPrefix(prices, period, k, i);
    if i >= period - 1 {
      assert prices[..k][i + 1 - period..i + 1] == prices[i + 1 - period..i + 1];
    }
  }
}
