/**
 * The signals in terms of prices alone: for every strategy, the bars at which it buys and sells on
 * positive closes, with averages, Wilder's means and deviations written out as sums over windows.
 */
module SignalTerms {
  import opened Wrappers
  import opened Sums
  import opened Indicators
  import opened Signals

  ghost predicate AllPositive(closes: seq<real>) {
    forall i :: 0 <= i < |closes| ==> closes[i] > 0.0
  }

  // The `period` closes up to and with bar i, and their mean.
  function Window(closes: seq<real>, period: nat, i: nat): seq<real>
    requires 1 <= period <= i + 1 <= |closes|
  {
    closes[i + 1 - period..i + 1]
  }

  function Average(closes: seq<real>, period: nat, i: nat): real
    requires 1 <= period <= i + 1 <= |closes|
  {
    Sum(Window(closes, period, i)) / period as real
  }

  lemma {:induction false} SumPositive(s: seq<real>)
    requires s != [] && AllPositive(s)
    ensures Sum(s) > 0.0
  {
    if |s| > 1 { SumPositive(s[..|s| - 1]); }
  }

  lemma AverageTerms(closes: seq<real>, period: nat, i: nat)
    requires 1 <= period <= i + 1 <= |closes|
    ensures SmaAt(closes, period, i) == Average(closes, period, i)
    ensures AllPositive(closes) ==> Average(closes, period, i) > 0.0
  {
    if AllPositive(closes) { SumPositive(Window(closes, period, i)); }
  }

  // ----- Moving-average crossover -----

  // A BUY exactly where the short average rises above the long one, a SELL where it falls below it.
  lemma CrossoverTerms(sqrt: real -> real, candles: seq<Candle>, short: nat, long: nat, i: nat)
    requires short >= 1 && long >= 1 && i < |candles| && AllPositive(Closes(candles))
    ensures var closes, signal := Closes(candles), SignalsOf(sqrt, SMACrossover(short, long), candles)[i];
            if i < short || i < long then signal == None
            else
              && (signal == Some(Buy) <==>
                    && Average(closes, short, i - 1) <= Average(closes, long, i - 1)
                    && Average(closes, short, i) > Average(closes, long, i))
              && (signal == Some(Sell) <==>
                    && Average(closes, short, i - 1) >= Average(closes, long, i - 1)
                    && Average(closes, short, i) < Average(closes, long, i))
  {
    hide SmaAt, Average;
    var closes := Closes(candles);
    if i >= short && i >= long {
      AverageTerms(closes, short, i - 1);
      AverageTerms(closes, short, i);
      AverageTerms(closes, long, i - 1);
      AverageTerms(closes, long, i);
    } else if i >= long {
      NoAverageYet(closes, short, i - 1);
    }
  }

  lemma NoAverageYet(closes: seq<real>, period: nat, i: nat)
    requires period >= 1 && i < |closes| && i + 1 < period
    ensures SmaAt(closes, period, i) == 0.0
  {
  }

  // ----- Breakout -----

  // A BUY exactly where the close is above every high of the entry window, a SELL where it is below
  // every low of the exit window and there is no BUY.
  lemma BreakoutTerms(sqrt: real -> real, candles: seq<Candle>, entry: nat, exit: int, i: nat)
    requires i < |candles|
    ensures var signal := SignalsOf(sqrt, Breakout(entry, exit), candles)[i];
            && (signal == Some(Buy) <==>
                  && i >= entry && candles[i].close > 0.0
                  && forall j :: i - entry <= j < i ==> candles[i].close > candles[j].high)
            && (signal == Some(Sell) <==>
                  && signal != Some(Buy)
                  && i >= entry && i >= exit && candles[i].close < MAX_FLOAT64
                  && forall j :: i - exit <= j < i ==> candles[i].close < candles[j].low)
  {
    var closes, highs, lows := Closes(candles), Highs(candles), Lows(candles);
    assert SignalsOf(sqrt, Breakout(entry, exit), candles)[i] == BreakoutAt(closes, highs, lows, entry, exit, i);
    assert forall j :: 0 <= j < |candles| ==>
      closes[j] == candles[j].close && highs[j] == candles[j].high && lows[j] == candles[j].low;
  }

  // ----- Relative-strength index -----

  // The rises, or the falls, of the bars 1 to i.
  function Ups(closes: seq<real>, i: nat): (ups: seq<real>)
    requires i < |closes|
    ensures |ups| == i
  {
    seq(i, k requires 0 <= k < i => if closes[k + 1] > closes[k] then closes[k + 1] - closes[k] else 0.0)
  }

  function Downs(closes: seq<real>, i: nat): (downs: seq<real>)
    requires i < |closes|
    ensures |downs| == i
  {
    seq(i, k requires 0 <= k < i => if closes[k + 1] < closes[k] then closes[k] - closes[k + 1] else 0.0)
  }

  // How much less an older move counts after every further bar.
  function Factor(period: nat): real
    requires period >= 1
  {
    (period - 1) as real / period as real
  }

  function Decay(period: nat, n: nat): real
    requires period >= 1
  {
    if n == 0 then 1.0 else Decay(period, n - 1) * Factor(period)
  }

  // The weight of move j of n in Wilder's mean: the first `period` moves count alike, and every move
  // after them makes the older ones count less by a constant factor.
  function Weight(period: nat, n: nat, j: nat): real
    requires 1 <= j <= n && 1 <= period <= n
  {
    Decay(period, n - (if j > period then j else period)) / period as real
  }

  function Times(a: real, b: real): real { a * b }

  function Weighted(moves: seq<real>, period: nat): (terms: seq<real>)
    requires 1 <= period <= |moves|
    ensures |terms| == |moves|
  {
    seq(|moves|, k requires 0 <= k < |moves| => Times(Weight(period, |moves|, k + 1), moves[k]))
  }

  ghost predicate ScaledBy(s: seq<real>, t: seq<real>, f: real) {
    |s| == |t| && forall k :: 0 <= k < |s| ==> t[k] == Times(f, s[k])
  }

  lemma TimesAdd(f: real, a: real, b: real)
    ensures Times(f, a) + Times(f, b) == Times(f, a + b)
    ensures Times(f, 0.0) == 0.0
  {
  }

  lemma {:induction false} SumScaled(s: seq<real>, t: seq<real>, f: real)
    requires ScaledBy(s, t, f)
    ensures Sum(t) == Times(f, Sum(s))
  {
    hide Times;
    TimesAdd(f, 0.0, 0.0);
    if s != [] {
      SumScaled(s[..|s| - 1], t[..|t| - 1], f);
      TimesAdd(f, Sum(s[..|s| - 1]), s[|s| - 1]);
    }
  }

  lemma WeightAges(period: nat, n: nat, j: nat)
    requires 1 <= j <= n && 1 <= period <= n
    ensures Weight(period, n + 1, j) == Times(Factor(period), Weight(period, n, j))
  {
    var d := n - (if j > period then j else period);
    assert Decay(period, d + 1) == Decay(period, d) * Factor(period);
  }

  lemma FreshWeight(period: nat, n: nat, j: nat)
    requires 1 <= j <= n && 1 <= period <= n && (j == n || n == period)
    ensures Weight(period, n, j) == 1.0 / period as real
  {
  }

  lemma TimesTwice(f: real, w: real, x: real)
    ensures Times(Times(f, w), x) == Times(f, Times(w, x))
  {
  }

  lemma FirstWeighted(moves: seq<real>, period: nat)
    requires 1 <= period == |moves|
    ensures Sum(Weighted(moves, period)) == Times(1.0 / period as real, Sum(moves))
  {
    hide Sum, Weight, Times;
    forall j | 1 <= j <= period ensures Weight(period, period, j) == 1.0 / period as real {
      FreshWeight(period, period, j);
    }
    SumScaled(moves, Weighted(moves, period), 1.0 / period as real);
  }

  // One more move: the others age, and it counts for a period's share.
  lemma WeightedStep(moves: seq<real>, move: real, period: nat)
    requires 1 <= period <= |moves|
    ensures Sum(Weighted(moves + [move], period))
              == Times(Factor(period), Sum(Weighted(moves, period))) + Times(1.0 / period as real, move)
  {
    hide Sum, Weight, Times, Factor;
    var n, all := |moves|, Weighted(moves + [move], period);
    forall k | 0 <= k < n ensures all[k] == Times(Factor(period), Weighted(moves, period)[k]) {
      WeightAges(period, n, k + 1);
      TimesTwice(Factor(period), Weight(period, n, k + 1), moves[k]);
    }
    SumScaled(Weighted(moves, period), all[..n], Factor(period));
    FreshWeight(period, n + 1, n + 1);
    SumAppend(all[..n], all[n]);
    assert all == all[..n] + [all[n]];
  }

  lemma SmoothTerms(avg: real, move: real, period: nat)
    requires period >= 1
    ensures Smooth(avg, move, period) == Times(Factor(period), avg) + Times(1.0 / period as real, move)
  {
  }

  lemma PlainMean(sum: real, period: nat)
    requires period >= 1
    ensures sum / period as real == Times(1.0 / period as real, sum)
  {
  }

  lemma MovesStep(closes: seq<real>, i: nat)
    requires 1 <= i < |closes|
    ensures Ups(closes, i) == Ups(closes, i - 1) + [Gain(closes, i)]
    ensures Downs(closes, i) == Downs(closes, i - 1) + [Loss(closes, i)]
  {
  }

  lemma {:induction false} MovesAddUp(closes: seq<real>, i: nat)
    requires i < |closes|
    ensures SumMoves(closes, i) == (Sum(Ups(closes, i)), Sum(Downs(closes, i)))
  {
    hide Ups, Downs, Gain, Loss, Sum;
    if i == 0 {
      EmptySum(Ups(closes, 0));
      EmptySum(Downs(closes, 0));
    } else {
      MovesAddUp(closes, i - 1);
      MovesStep(closes, i);
      SumAppend(Ups(closes, i - 1), Gain(closes, i));
      SumAppend(Downs(closes, i - 1), Loss(closes, i));
    }
  }

  // Wilder's recursion is a weighted sum of all the moves so far.
  lemma {:induction false} WilderTerms(closes: seq<real>, period: nat, i: nat)
    requires 1 <= period <= i < |closes|
    ensures Averages(closes, period, i)
              == (Sum(Weighted(Ups(closes, i), period)), Sum(Weighted(Downs(closes, i), period)))
    decreases i
  {
    hide Sum, Ups, Downs, Weighted, Smooth, Factor, SumMoves, Times, Gain, Loss;
    if i == period {
      FirstAverages(closes, period);
      MovesAddUp(closes, i);
      FirstWeighted(Ups(closes, i), period);
      FirstWeighted(Downs(closes, i), period);
      PlainMean(Sum(Ups(closes, i)), period);
      PlainMean(Sum(Downs(closes, i)), period);
    } else {
      WilderTerms(closes, period, i - 1);
      var (g, l) := Averages(closes, period, i - 1);
      SmoothTerms(g, Gain(closes, i), period);
      SmoothTerms(l, Loss(closes, i), period);
      MovesStep(closes, i);
      WeightedStep(Ups(closes, i - 1), Gain(closes, i), period);
      WeightedStep(Downs(closes, i - 1), Loss(closes, i), period);
    }
  }

  // The index is the share of the rises in all weighted movement.
  lemma IndexTerms(closes: seq<real>, period: nat, i: nat)
    requires 1 <= period <= i < |closes|
    ensures var ups, downs := Sum(Weighted(Ups(closes, i), period)), Sum(Weighted(Downs(closes, i), period));
            && ups >= 0.0 && downs >= 0.0
            && (downs == 0.0 ==> RsiAt(closes, period, i) == 100.0)
            && (downs > 0.0 ==> RsiAt(closes, period, i) * (ups + downs) == 100.0 * ups)
  {
    hide Sum, Ups, Downs, Weighted, Averages, Strength;
    WilderTerms(closes, period, i);
    var (g, l) := Averages(closes, period, i);
    StrengthIsGainShare(g, l);
  }

  // A SELL exactly where a non-zero index rises above the threshold, a BUY where it falls below the
  // mirrored one and there is no SELL.
  lemma ReversalTerms(sqrt: real -> real, candles: seq<Candle>, period: nat, overbought: real, i: nat)
    requires period >= 1 && i < |candles|
    ensures var closes, signal := Closes(candles), SignalsOf(sqrt, RSIReversal(period, overbought), candles)[i];
            if i <= period then signal == None
            else
              var before, now := RsiAt(closes, period, i - 1), RsiAt(closes, period, i);
              && (signal == Some(Sell) <==> now != 0.0 && before <= overbought < now)
              && (signal == Some(Buy) <==>
                    signal != Some(Sell) && now != 0.0 && before >= 100.0 - overbought > now)
  {
    hide RsiAt;
    var closes := Closes(candles);
    assert SignalsOf(sqrt, RSIReversal(period, overbought), candles)[i]
        == RsiReversalAt(closes, period, overbought, i);
  }

  // ----- Mean reversion -----

  // The mean of the squares less the square of the mean.
  function Variance(closes: seq<real>, period: nat, i: nat): real
    requires 1 <= period <= i + 1 <= |closes|
  {
    SumSq(Window(closes, period, i)) / period as real - Square(Average(closes, period, i))
  }

  lemma VarianceArithmetic(gap: real, q: real, u: real, n: real, m: real)
    requires n > 0.0 && m == u / n && gap == q - 2.0 * (m * u) + n * Square(m)
    ensures gap / n == q / n - Square(m)
  {
    assert u == n * m;
    assert m * u == n * Square(m);
    assert gap == q - n * Square(m);
    assert (q / n - Square(m)) * n == q - n * Square(m);
  }

  lemma BandTerms(sqrt: real -> real, closes: seq<real>, period: nat, mult: real, i: nat)
    requires 1 <= period <= i + 1 <= |closes|
    ensures UpperAt(sqrt, closes, period, mult, i)
              == Average(closes, period, i) + mult * sqrt(Variance(closes, period, i))
    ensures LowerAt(sqrt, closes, period, mult, i)
              == Average(closes, period, i) - mult * sqrt(Variance(closes, period, i))
  {
    hide Square, Sum, SumSq, Gap;
    var w, m := Window(closes, period, i), Average(closes, period, i);
    AverageTerms(closes, period, i);
    GapExpands(w, m);
    VarianceArithmetic(Gap(w, m), SumSq(w), Sum(w), period as real, m);
  }

  // The bands around the mean of the last closes, `mult` deviations away.
  function Band(sqrt: real -> real, closes: seq<real>, period: nat, mult: real, i: nat): real
    requires 1 <= period <= i + 1 <= |closes|
  {
    mult * sqrt(Variance(closes, period, i))
  }

  ghost predicate FallsBelow(sqrt: real -> real, closes: seq<real>, period: nat, mult: real, i: nat)
    requires 1 <= period <= i < |closes|
  {
    && closes[i] < Average(closes, period, i) - Band(sqrt, closes, period, mult, i)
    && (i == period || closes[i - 1] >= Average(closes, period, i - 1) - Band(sqrt, closes, period, mult, i - 1))
  }

  ghost predicate RisesAbove(sqrt: real -> real, closes: seq<real>, period: nat, mult: real, i: nat)
    requires 1 <= period <= i < |closes|
  {
    && closes[i] > Average(closes, period, i) + Band(sqrt, closes, period, mult, i)
    && (i == period || closes[i - 1] <= Average(closes, period, i - 1) + Band(sqrt, closes, period, mult, i - 1))
  }

  lemma BothBandsZero(mean: real, half: real)
    ensures mean + half == 0.0 && mean - half == 0.0 ==> mean == 0.0
  {
  }

  // A SELL exactly where the close rises above the upper band, a BUY where it falls below the lower
  // one and there is no SELL; at the first bar any close outside counts.  With a non-negative
  // multiple a BUY is below the mean, a SELL above it, and the two exclude each other.
  lemma MeanReversionTerms(sqrt: real -> real, candles: seq<Candle>, period: nat, mult: real, i: nat)
    requires period >= 1 && i < |candles| && AllPositive(Closes(candles))
    ensures var closes, signal := Closes(candles), SignalsOf(sqrt, MeanReversion(period, mult), candles)[i];
            if i < period then signal == None
            else
              && (signal == Some(Sell) <==> RisesAbove(sqrt, closes, period, mult, i))
              && (signal == Some(Buy) <==>
                    FallsBelow(sqrt, closes, period, mult, i) && !RisesAbove(sqrt, closes, period, mult, i))
              && (Band(sqrt, closes, period, mult, i) >= 0.0 ==>
                    && (signal == Some(Buy) ==> closes[i] < Average(closes, period, i))
                    && (signal == Some(Sell) ==> closes[i] > Average(closes, period, i))
                    && !(FallsBelow(sqrt, closes, period, mult, i) && RisesAbove(sqrt, closes, period, mult, i)))
  {
    hide UpperAt, LowerAt, Average, Variance;
    var closes := Closes(candles);
    assert SignalsOf(sqrt, MeanReversion(period, mult), candles)[i] == MeanReversionAt(sqrt, closes, period, mult, i);
    if i >= period {
      BandTerms(sqrt, closes, period, mult, i - 1);
      BandTerms(sqrt, closes, period, mult, i);
      AverageTerms(closes, period, i);
      BothBandsZero(Average(closes, period, i), Band(sqrt, closes, period, mult, i));
    }
  }
}
