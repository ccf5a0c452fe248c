/**
 * The four signal generators.  Every method keeps the source's loops; what it returns is given,
 * bar by bar, by a function of the bars seen so far, from which prefix-causality follows.
 */
module Signals {
  import opened Wrappers
  import opened Indicators

  datatype Candle = Candle(close: real, high: real, low: real)

  datatype Action = Buy | Sell

  type Signal = Option<Action>

  // The strategy names the tool accepts, with param1 and param2 already converted.
  datatype Strategy =
    | SMACrossover(shortPeriod: nat, longPeriod: nat)
    | RSIReversal(period: nat, overbought: real)
    | Breakout(entryLookback: nat, exitLookback: int)
    | MeanReversion(bandPeriod: nat, stdDevMult: real)
    | UnknownStrategy
  {
    // The indicator code indexes bar period-1 and divides by the period.
    predicate Valid() {
      match this
      case SMACrossover(s, l) => s >= 1 && l >= 1
      case RSIReversal(p, _) => p >= 1
      case MeanReversion(p, _) => p >= 1
      case _ => true
    }
  }

  function Closes(candles: seq<Candle>): seq<real> {
    seq(|candles|, i requires 0 <= i < |candles| => candles[i].close)
  }

  function Highs(candles: seq<Candle>): seq<real> {
    seq(|candles|, i requires 0 <= i < |candles| => candles[i].high)
  }

  function Lows(candles: seq<Candle>): seq<real> {
    seq(|candles|, i requires 0 <= i < |candles| => candles[i].low)
  }

  // ----- Breakout -----

  function PowerOfTwo(n: nat): int {
    if n == 0 then 1 else 2 * PowerOfTwo(n - 1)
  }

  // math.MaxFloat64, the start value of the lowest-low scan: the largest 53-bit significand at the
  // largest exponent.
  const MAX_FLOAT64: real := ((PowerOfTwo(53) - 1) * PowerOfTwo(971)) as real

  // The close clears every high of the entry window.  The scan starts from 0, so it must also be
  // positive.
  ghost predicate BreaksAbove(closes: seq<real>, highs: seq<real>, lookback: nat, i: nat)
    requires lookback <= i < |closes| == |highs|
  {
    closes[i] > 0.0 && forall j :: i - lookback <= j < i ==> closes[i] > highs[j]
  }

  ghost predicate BreaksBelow(closes: seq<real>, lows: seq<real>, lookback: int, i: nat)
    requires lookback <= i < |closes| == |lows|
  {
    closes[i] < MAX_FLOAT64 && forall j :: i - lookback <= j < i ==> closes[i] < lows[j]
  }

  ghost function BreakoutAt(closes: seq<real>, highs: seq<real>, lows: seq<real>,
                            entry: nat, exit: int, i: nat): Signal
    requires i < |closes| == |highs| == |lows|
  {
    if i < entry then None
    else if BreaksAbove(closes, highs, entry, i) then Some(Buy)
    else if i >= exit && BreaksBelow(closes, lows, exit, i) then Some(Sell)
    else None
  }

  method SignalsBreakout(closes: seq<real>, highs: seq<real>, lows: seq<real>, entry: nat, exit: int)
    returns (signals: seq<Signal>)
    requires |closes| == |highs| == |lows|
    ensures |signals| == |closes|
    ensures forall i :: 0 <= i < |closes| ==> signals[i] == BreakoutAt(closes, highs, lows, entry, exit, i)
  {
    var n := |closes|;
    var out := new Signal[n](_ => None);
    var i := entry;
    while i < n
      invariant entry <= i
      invariant forall j :: 0 <= j < i && j < n ==> out[j] == BreakoutAt(closes, highs, lows, entry, exit, j)
      invariant forall j :: i <= j < n ==> out[j] == None
    {
      var highestHigh := 0.0;
      var j := i - entry;
      while j < i
        invariant i - entry <= j <= i
        invariant closes[i] > highestHigh <==>
                  closes[i] > 0.0 && forall w :: i - entry <= w < j ==> closes[i] > highs[w]
      {
        if highs[j] > highestHigh {
          highestHigh := highs[j];
        }
        j := j + 1;
      }
      if closes[i] > highestHigh {
        out[i] := Some(Buy);
      }
      if i >= exit {
        var lowestLow := MAX_FLOAT64;
        j := i - exit;
        while j < i
          invariant i - exit <= j
          invariant exit >= 0 ==> j <= i
          invariant closes[i] < lowestLow <==>
                    closes[i] < MAX_FLOAT64 && forall w :: i - exit <= w < j && w < i ==> closes[i] < lows[w]
        {
          if lows[j] < lowestLow {
            lowestLow := lows[j];
          }
          j := j + 1;
        }
        if closes[i] < lowestLow && out[i] == None {
          out[i] := Some(Sell);
        }
      }
      i := i + 1;
    }
    return out[..];
  }

  // With both windows non-empty and low <= high on every bar, the two conditions exclude each
  // other: both windows hold the bar just before.
  lemma BreakoutConditionsExclusive(candles: seq<Candle>, entry: nat, exit: int, i: nat)
    requires 1 <= entry <= i < |candles| && 1 <= exit <= i
    requires candles[i - 1].low <= candles[i - 1].high
    ensures !(BreaksAbove(Closes(candles), Highs(candles), entry, i) &&
              BreaksBelow(Closes(candles), Lows(candles), exit, i))
  {
    assert Highs(candles)[i - 1] == candles[i - 1].high;
    assert Lows(candles)[i - 1] == candles[i - 1].low;
  }

  // ----- Moving-average crossover -----

  function SmaCrossAt(closes: seq<real>, shortPeriod: nat, longPeriod: nat, i: nat): Signal
    requires shortPeriod >= 1 && longPeriod >= 1 && i < |closes|
  {
    if i < longPeriod then None
    else
      var s0, s1 := SmaAt(closes, shortPeriod, i - 1), SmaAt(closes, shortPeriod, i);
      var l0, l1 := SmaAt(closes, longPeriod, i - 1), SmaAt(closes, longPeriod, i);
      if s1 == 0.0 || l1 == 0.0 || s0 == 0.0 || l0 == 0.0 then None
      else if s0 <= l0 && s1 > l1 then Some(Buy)
      else if s0 >= l0 && s1 < l1 then Some(Sell)
      else None
  }

  method SignalsSMACrossover(closes: seq<real>, shortPeriod: nat, longPeriod: nat) returns (signals: seq<Signal>)
    requires shortPeriod >= 1 && longPeriod >= 1
    ensures |signals| == |closes|
    ensures forall i :: 0 <= i < |closes| ==> signals[i] == SmaCrossAt(closes, shortPeriod, longPeriod, i)
  {
    hide SmaAt;
    var n := |closes|;
    var out := new Signal[n](_ => None);
    var short := ComputeSMA(closes, shortPeriod);
    var long := ComputeSMA(closes, longPeriod);
    if short.None? || long.None? {
      return out[..];
    }
    for i := longPeriod to n
      invariant forall j :: 0 <= j < i ==> out[j] == SmaCrossAt(closes, shortPeriod, longPeriod, j)
      invariant forall j :: i <= j < n ==> out[j] == None
    {
      var s0, s1, l0, l1 := short.value[i - 1], short.value[i], long.value[i - 1], long.value[i];
      if s1 == 0.0 || l1 == 0.0 || s0 == 0.0 || l0 == 0.0 {
        continue;
      }
      if s0 <= l0 && s1 > l1 {
        out[i] := Some(Buy);
      }
      if s0 >= l0 && s1 < l1 {
        out[i] := Some(Sell);
      }
    }
    return out[..];
  }

  // ----- RSI reversal -----

  // What two successive readings mean by themselves.
  function RsiCross(r0: real, r1: real, overbought: real): Signal {
    if r1 > overbought && r0 <= overbought then Some(Sell)
    else if r1 < 100.0 - overbought && r0 >= 100.0 - overbought then Some(Buy)
    else None
  }

  function RsiReversalAt(closes: seq<real>, period: nat, overbought: real, i: nat): Signal
    requires period >= 1 && i < |closes|
  {
    if i < period + 1 || RsiAt(closes, period, i) == 0.0 then None
    else RsiCross(RsiAt(closes, period, i - 1), RsiAt(closes, period, i), overbought)
  }

  method SignalsRSIReversal(closes: seq<real>, period: nat, overbought: real) returns (signals: seq<Signal>)
    requires period >= 1
    ensures |signals| == |closes|
    ensures forall i :: 0 <= i < |closes| ==> signals[i] == RsiReversalAt(closes, period, overbought, i)
  {
    var n := |closes|;
    var out := new Signal[n](_ => None);
    var oversold := 100.0 - overbought;
    var rsi := ComputeRSI(closes, period);
    if rsi.None? {
      return out[..];
    }
    var i := period + 1;
    while i < n
      invariant period + 1 <= i
      invariant forall j :: 0 <= j < i && j < n ==> out[j] == RsiReversalAt(closes, period, overbought, j)
      invariant forall j :: i <= j < n ==> out[j] == None
    {
      var r0, r1 := rsi.value[i - 1], rsi.value[i];
      if r1 != 0.0 {
        if r1 < oversold && r0 >= oversold {
          out[i] := Some(Buy);
        }
        if r1 > overbought && r0 <= overbought {
          out[i] := Some(Sell);
        }
      }
      i := i + 1;
    }
    return out[..];
  }

  // The price has not moved at all up to bar i.
  ghost predicate NeverMoved(closes: seq<real>, i: nat)
    requires i < |closes|
  {
    forall j :: 1 <= j <= i ==> closes[j] == closes[j - 1]
  }

  lemma {:induction false} SumMovesZero(closes: seq<real>, i: nat)
    requires i < |closes|
    ensures SumMoves(closes, i) == (0.0, 0.0) <==> NeverMoved(closes, i)
  {
    if i > 0 {
      SumMovesZero(closes, i - 1);
      assert NeverMoved(closes, i) <==> NeverMoved(closes, i - 1) && closes[i] == closes[i - 1];
    }
  }

  lemma SmoothZero(avg: real, move: real, period: nat)
    requires period >= 2 && avg >= 0.0 && move >= 0.0
    ensures Smooth(avg, move, period) == 0.0 <==> avg == 0.0 && move == 0.0
  {
  }

  lemma {:induction false} AveragesZero(closes: seq<real>, period: nat, i: nat)
    requires 2 <= period <= i < |closes|
    ensures Averages(closes, period, i) == (0.0, 0.0) <==> NeverMoved(closes, i)
    decreases i
  {
    if i == period {
      var (g, l) := SumMoves(closes, i);
      assert (g / period as real) * period as real == g;
      assert (l / period as real) * period as real == l;
      SumMovesZero(closes, i);
    } else {
      var (g, l) := Averages(closes, period, i - 1);
      AveragesZero(closes, period, i - 1);
      SmoothZero(g, Gain(closes, i), period);
      SmoothZero(l, Loss(closes, i), period);
      assert NeverMoved(closes, i) <==> NeverMoved(closes, i - 1) && closes[i] == closes[i - 1];
    }
  }

  // From period 2 on, the index falls to 0 right after it was not 0 exactly when the price falls
  // for the first time, having never moved before.
  lemma RsiDropsToZero(closes: seq<real>, period: nat, i: nat)
    requires period >= 2 && period + 1 <= i < |closes|
    requires RsiAt(closes, period, i) == 0.0
    ensures RsiAt(closes, period, i - 1) == 0.0 || RsiAt(closes, period, i - 1) == 100.0
    ensures RsiAt(closes, period, i - 1) == 100.0 <==> NeverMoved(closes, i - 1)
    ensures NeverMoved(closes, i - 1) ==> closes[i] < closes[i - 1]
  {
    var (g0, l0) := Averages(closes, period, i - 1);
    var (g1, l1) := Averages(closes, period, i);
    StrengthIsGainShare(g0, l0);
    StrengthIsGainShare(g1, l1);
    SmoothZero(g0, Gain(closes, i), period);
    SmoothZero(l0, Loss(closes, i), period);
    AveragesZero(closes, period, i - 1);
  }

  lemma FirstFallIsZero(closes: seq<real>, period: nat, i: nat)
    requires period >= 2 && period + 1 <= i < |closes|
    requires NeverMoved(closes, i - 1) && closes[i] < closes[i - 1]
    ensures RsiAt(closes, period, i) == 0.0 && RsiAt(closes, period, i - 1) == 100.0
  {
    var (g1, l1) := Averages(closes, period, i);
    AveragesZero(closes, period, i - 1);
    SmoothZero(0.0, Gain(closes, i), period);
    SmoothZero(0.0, Loss(closes, i), period);
    StrengthIsGainShare(g1, l1);
  }

  // The skip of a zero reading loses a signal that the two readings stand for.
  ghost predicate SkipHides(closes: seq<real>, period: nat, overbought: real, i: nat, signal: Action)
    requires period >= 1 && i < |closes|
  {
    && period + 1 <= i && RsiAt(closes, period, i) == 0.0
    && RsiCross(RsiAt(closes, period, i - 1), RsiAt(closes, period, i), overbought) == Some(signal)
  }

  // The generator takes an index of 0 for "not ready yet" and skips the bar, although 0 is also a
  // genuine reading (losses only).  For every threshold, a BUY is hidden at bar i if and only if
  // the price falls at i without ever having moved before; a SELL never is.
  lemma RsiZeroSkipHidesBuy(closes: seq<real>, period: nat, overbought: real, i: nat)
    requires period >= 2 && i < |closes|
    ensures SkipHides(closes, period, overbought, i, Buy) <==>
              period + 1 <= i && 0.0 <= overbought < 100.0 && NeverMoved(closes, i - 1) && closes[i] < closes[i - 1]
    ensures !SkipHides(closes, period, overbought, i, Sell)
  {
    hide RsiAt, NeverMoved;
    if period + 1 <= i {
      if RsiAt(closes, period, i) == 0.0 {
        RsiDropsToZero(closes, period, i);
      }
      if NeverMoved(closes, i - 1) && closes[i] < closes[i - 1] {
        FirstFallIsZero(closes, period, i);
      }
    }
  }

  // With period 1 the index is only ever 0 or 100, so the skip removes every BUY.
  lemma RsiPeriodOneNeverBuys(closes: seq<real>, overbought: real, i: nat)
    requires i < |closes|
    ensures RsiReversalAt(closes, 1, overbought, i) != Some(Buy)
  {
    if i >= 2 {
      RsiPeriodOne(closes, i - 1);
      RsiPeriodOne(closes, i);
    }
  }

  lemma RsiPeriodOne(closes: seq<real>, i: nat)
    requires 1 <= i < |closes|
    ensures RsiAt(closes, 1, i) == if closes[i] < closes[i - 1] then 0.0 else 100.0
  {
    var (g, l) := Averages(closes, 1, i);
    assert SumMoves(closes, 0) == (0.0, 0.0);
    assert (g, l) == (Gain(closes, i), Loss(closes, i));
    StrengthIsGainShare(g, l);
  }

  // ----- Mean reversion -----

  // c: close, u: upper band, l: lower band; 0: previous bar, 1: this bar
  function BandCross(first: bool, c0: real, c1: real, u0: real, u1: real, l0: real, l1: real): Signal {
    if l1 == 0.0 && u1 == 0.0 then None
    else if c1 > u1 && (first || c0 <= u0) then Some(Sell)
    else if c1 < l1 && (first || c0 >= l0) then Some(Buy)
    else None
  }

  function MeanReversionAt(sqrt: real -> real, closes: seq<real>, period: nat, mult: real, i: nat): Signal
    requires period >= 1 && i < |closes|
  {
    if i < period then None
    else BandCross(i == period, closes[i - 1], closes[i],
                   UpperAt(sqrt, closes, period, mult, i - 1), UpperAt(sqrt, closes, period, mult, i),
                   LowerAt(sqrt, closes, period, mult, i - 1), LowerAt(sqrt, closes, period, mult, i))
  }

  method SignalsMeanReversion(sqrt: real -> real, closes: seq<real>, period: nat, mult: real)
    returns (signals: seq<Signal>)
    requires period >= 1
    ensures |signals| == |closes|
    ensures forall i :: 0 <= i < |closes| ==> signals[i] == MeanReversionAt(sqrt, closes, period, mult, i)
  {
    var bands := ComputeBollingerBands(sqrt, closes, period, mult);
    if bands.None? {
      return seq(|closes|, _ => None);
    }
    signals := BandSignals(closes, bands.value.0, bands.value.1, period);
  }

  // The generator's loop, over the two bands.
  method BandSignals(closes: seq<real>, upper: seq<real>, lower: seq<real>, period: nat)
    returns (signals: seq<Signal>)
    requires 1 <= period <= |closes| == |upper| == |lower|
    ensures |signals| == |closes|
    ensures forall i :: 0 <= i < period ==> signals[i] == None
    ensures forall i :: period <= i < |closes| ==>
      signals[i] == BandCross(i == period, closes[i - 1], closes[i], upper[i - 1], upper[i], lower[i - 1], lower[i])
  {
    var n := |closes|;
    var out := new Signal[n](_ => None);
    for i := period to n
      invariant forall j :: 0 <= j < period || i <= j < n ==> out[j] == None
      invariant forall j :: period <= j < i ==>
        out[j] == BandCross(j == period, closes[j - 1], closes[j], upper[j - 1], upper[j], lower[j - 1], lower[j])
    {
      if lower[i] == 0.0 && upper[i] == 0.0 {
        continue;
      }
      if closes[i] < lower[i] && (i == period || closes[i - 1] >= lower[i - 1]) {
        out[i] := Some(Buy);
      }
      if closes[i] > upper[i] && (i == period || closes[i - 1] <= upper[i - 1]) {
        out[i] := Some(Sell);
      }
    }
    return out[..];
  }

  // ----- Dispatch -----

  ghost function SignalAt(sqrt: real -> real, strategy: Strategy, candles: seq<Candle>, i: nat): Signal
    requires strategy.Valid() && i < |candles|
  {
    match strategy
    case SMACrossover(s, l) => SmaCrossAt(Closes(candles), s, l, i)
    case RSIReversal(p, ob) => RsiReversalAt(Closes(candles), p, ob, i)
    case Breakout(entry, exit) => BreakoutAt(Closes(candles), Highs(candles), Lows(candles), entry, exit, i)
    case MeanReversion(p, mult) => MeanReversionAt(sqrt, Closes(candles), p, mult, i)
    case UnknownStrategy => None
  }

  ghost function SignalsOf(sqrt: real -> real, strategy: Strategy, candles: seq<Candle>): seq<Signal>
    requires strategy.Valid()
  {
    seq(|candles|, i requires 0 <= i < |candles| => SignalAt(sqrt, strategy, candles, i))
  }

  method GenerateSignals(sqrt: real -> real, strategy: Strategy, candles: seq<Candle>)
    returns (signals: seq<Signal>)
    requires strategy.Valid()
    ensures signals == SignalsOf(sqrt, strategy, candles)
    ensures strategy.UnknownStrategy? ==> forall i :: 0 <= i < |signals| ==> signals[i] == None
  {
    match strategy {
      case SMACrossover(s, l) => signals := SignalsSMACrossover(Closes(candles), s, l);
      case RSIReversal(p, ob) => signals := SignalsRSIReversal(Closes(candles), p, ob);
      case Breakout(entry, exit) =>
        signals := SignalsBreakout(Closes(candles), Highs(candles), Lows(candles), entry, exit);
      case MeanReversion(p, mult) => signals := SignalsMeanReversion(sqrt, Closes(candles), p, mult);
      case UnknownStrategy => signals := seq(|candles|, _ => None);
    }
  }

  lemma BreakoutPrefix(closes: seq<real>, highs: seq<real>, lows: seq<real>, entry: nat, exit: int, k: nat, i: nat)
    requires i < k <= |closes| == |highs| == |lows|
    ensures BreakoutAt(closes[..k], highs[..k], lows[..k], entry, exit, i)
         == BreakoutAt(closes, highs, lows, entry, exit, i)
  {
  }

  // No lookahead: the signals of the first k candles are the first k signals of the whole series,
  // for every strategy.
  lemma SignalsCausal(sqrt: real -> real, strategy: Strategy, candles: seq<Candle>, k: nat)
    requires strategy.Valid() && k <= |candles|
    ensures SignalsOf(sqrt, strategy, candles[..k]) == SignalsOf(sqrt, strategy, candles)[..k]
  {
    hide SmaAt, RsiAt, RsiCross, UpperAt, LowerAt, BandCross, BreakoutAt;
    var cs, hs, ls := Closes(candles), Highs(candles), Lows(candles);
    assert Closes(candles[..k]) == cs[..k] && Highs(candles[..k]) == hs[..k] && Lows(candles[..k]) == ls[..k];
    forall i | 0 <= i < k
      ensures SignalAt(sqrt, strategy, candles[..k], i) == SignalAt(sqrt, strategy, candles, i)
    {
      match strategy {
        case SMACrossover(s, l) =>
          SmaPrefix(cs, s, k, i);
          SmaPrefix(cs, l, k, i);
          if i >= 1 {
            SmaPrefix(cs, s, k, i - 1);
            SmaPrefix(cs, l, k, i - 1);
          }
        case RSIReversal(p, ob) =>
          RsiPrefix(cs, p, k, i);
          if i >= 1 { RsiPrefix(cs, p, k, i - 1); }
        case Breakout(entry, exit) => BreakoutPrefix(cs, hs, ls, entry, exit, k, i);
        case MeanReversion(p, mult) =>
          BandsPrefix(sqrt, cs, p, mult, k, i);
          if i >= 1 { BandsPrefix(sqrt, cs, p, mult, k, i - 1); }
        case UnknownStrategy =>
      }
    }
  }
}
