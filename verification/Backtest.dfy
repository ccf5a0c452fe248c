/** The whole backtest: signals, trades, equity curve, drawdown and the reported statistics. */
module Backtest {
  import opened Wrappers
  import opened Rounding
  import opened Signals
  import opened Simulation

  // ----- Maximum drawdown -----

  // The start, then the booked capital after each trade.
  function EquityCurve(capital: real, trades: seq<Trade>): (curve: seq<real>)
    ensures |curve| == |trades| + 1
    ensures curve[|trades|] == BookedCapital(capital, trades)
  {
    if trades == [] then [capital]
    else EquityCurve(capital, trades[..|trades| - 1]) + [BookedCapital(capital, trades)]
  }

  function Drop(from: real, to: real): real
    requires from > 0.0
  {
    (from - to) / from * 100.0
  }

  lemma QuotientIs(x: real, y: real, q: real)
    requires y > 0.0 && q * y == x
    ensures x / y == q
  {
    var d := x / y;
    assert (d - q) * y == 0.0;
  }

  // From a higher level the drop to the same non-negative level is the larger share.
  lemma DropMonotone(low: real, high: real, to: real)
    requires 0.0 < low <= high && to >= 0.0
    ensures Drop(low, to) <= Drop(high, to)
  {
  }

  lemma DropRange(from: real, to: real)
    requires from > 0.0
    ensures Drop(from, to) <= 100.0 <==> to >= 0.0
    ensures Drop(from, to) >= 0.0 <==> to <= from
  {
  }

  // Point i is the highest of the curve so far when point j is reached.
  ghost predicate IsRunningPeak(curve: seq<real>, i: int, j: int) {
    0 <= i <= j < |curve| && curve[i] > 0.0 && forall k :: 0 <= k <= j ==> curve[k] <= curve[i]
  }

  // dd is the largest drop from a running peak, which fixes it on any curve.  It is also no less
  // than the drop between any pair i <= j that ends at a non-negative point, so on a curve that
  // never goes negative it is the maximum over all pairs; and it stays within 100% exactly on
  // such a curve.
  ghost predicate IsMaxDrawdown(curve: seq<real>, dd: real) {
    && (forall i, j :: IsRunningPeak(curve, i, j) ==> Drop(curve[i], curve[j]) <= dd)
    && (exists i, j :: IsRunningPeak(curve, i, j) && dd == Drop(curve[i], curve[j]))
    && (forall i, j :: 0 <= i <= j < |curve| && curve[i] > 0.0 && curve[j] >= 0.0 ==>
          Drop(curve[i], curve[j]) <= dd)
    && 0.0 <= dd
    && (dd <= 100.0 <==> forall j :: 0 <= j < |curve| ==> curve[j] >= 0.0)
  }

  ghost predicate IsPeak(curve: seq<real>, peak: real) {
    peak in curve && forall i :: 0 <= i < |curve| ==> curve[i] <= peak
  }

  lemma DropsDominated(curve: seq<real>, peak: real, dd: real, e: real)
    requires IsPeak(curve, peak) && peak > 0.0 && IsMaxDrawdown(curve, dd)
    ensures var top := if e > peak then e else peak;
            var longer, now := curve + [e], Drop(top, e);
            forall i, j :: 0 <= i <= j < |longer| && longer[i] > 0.0 && longer[j] >= 0.0 ==>
              Drop(longer[i], longer[j]) <= if now > dd then now else dd
  {
    hide Drop;
    var longer, top := curve + [e], if e > peak then e else peak;
    forall i, j | 0 <= i <= j < |longer| && longer[i] > 0.0 && longer[j] >= 0.0
      ensures Drop(longer[i], longer[j]) <= if Drop(top, e) > dd then Drop(top, e) else dd
    {
      if j < |curve| {
        assert longer[i] == curve[i] && longer[j] == curve[j];
      } else {
        assert i < |curve| ==> longer[i] == curve[i];
        DropMonotone(longer[i], top, e);
      }
    }
  }

  lemma PeakStep(curve: seq<real>, peak: real, e: real)
    requires IsPeak(curve, peak)
    ensures IsPeak(curve + [e], if e > peak then e else peak)
  {
  }

  // One more point adds one more running peak, the new top, and keeps the others.
  lemma RunningPeakStep(curve: seq<real>, top: real, e: real)
    requires IsPeak(curve + [e], top) && top > 0.0
    ensures forall i, j :: IsRunningPeak(curve, i, j) ==> IsRunningPeak(curve + [e], i, j)
    ensures forall i, j :: IsRunningPeak(curve + [e], i, j) && j < |curve| ==> IsRunningPeak(curve, i, j)
    ensures forall i :: IsRunningPeak(curve + [e], i, |curve|) ==> (curve + [e])[i] == top
    ensures exists i :: IsRunningPeak(curve + [e], i, |curve|)
  {
    var longer := curve + [e];
    assert forall k :: 0 <= k < |curve| ==> longer[k] == curve[k];
    var p :| 0 <= p < |longer| && longer[p] == top;
    assert IsRunningPeak(longer, p, |curve|);
  }

  lemma PeakDrops(curve: seq<real>, peak: real, dd: real, e: real)
    requires IsPeak(curve, peak) && peak > 0.0 && IsMaxDrawdown(curve, dd)
    ensures var top := if e > peak then e else peak;
            var longer, now := curve + [e], Drop(top, e);
            var worst := if now > dd then now else dd;
            && (forall i, j :: IsRunningPeak(longer, i, j) ==> Drop(longer[i], longer[j]) <= worst)
            && (exists i, j :: IsRunningPeak(longer, i, j) && worst == Drop(longer[i], longer[j]))
  {
    hide Drop;
    var longer, top := curve + [e], if e > peak then e else peak;
    PeakStep(curve, peak, e);
    RunningPeakStep(curve, top, e);
    forall i, j | IsRunningPeak(longer, i, j)
      ensures Drop(longer[i], longer[j]) <= if Drop(top, e) > dd then Drop(top, e) else dd
    {
      RunningPeakBounds(longer, i, j);
      if j < |curve| {
        assert longer[i] == curve[i] && longer[j] == curve[j];
      }
    }
    var p :| IsRunningPeak(longer, p, |curve|);
    RunningPeakBounds(longer, p, |curve|);
    assert Drop(longer[p], longer[|curve|]) == Drop(top, e);
    var i, j :| IsRunningPeak(curve, i, j) && dd == Drop(curve[i], curve[j]);
    RunningPeakBounds(curve, i, j);
    assert longer[i] == curve[i] && longer[j] == curve[j] && IsRunningPeak(longer, i, j);
  }

  lemma RunningPeakBounds(curve: seq<real>, i: int, j: int)
    requires IsRunningPeak(curve, i, j)
    ensures 0 <= i <= j < |curve| && curve[i] > 0.0
  {
  }

  lemma MaxDrawdownStep(curve: seq<real>, peak: real, dd: real, e: real)
    requires IsPeak(curve, peak) && peak > 0.0 && IsMaxDrawdown(curve, dd)
    ensures var top := if e > peak then e else peak;
            var now := Drop(top, e);
            && IsPeak(curve + [e], top)
            && IsMaxDrawdown(curve + [e], if now > dd then now else dd)
  {
    hide Drop;
    PeakStep(curve, peak, e);
    DropRange(if e > peak then e else peak, e);
    DropsDominated(curve, peak, dd, e);
    PeakDrops(curve, peak, dd, e);
    var longer := curve + [e];
    assert longer[|curve|] == e && forall j :: 0 <= j < |curve| ==> curve[j] == longer[j];
  }

  lemma MaxDrawdownStart(capital: real)
    requires capital > 0.0
    ensures IsPeak([capital], capital) && IsMaxDrawdown([capital], 0.0)
  {
  }

  lemma CurveStart(capital: real)
    ensures EquityCurve(capital, []) == [capital] && BookedCapital(capital, []) == capital
  {
  }

  lemma CurveStep(capital: real, trades: seq<Trade>, k: nat)
    requires k < |trades|
    ensures BookedCapital(capital, trades[..k + 1]) == BookedCapital(capital, trades[..k]) + trades[k].pnl
    ensures EquityCurve(capital, trades[..k + 1])
              == EquityCurve(capital, trades[..k]) + [BookedCapital(capital, trades[..k + 1])]
  {
    assert trades[..k + 1][..k] == trades[..k];
  }

  method ComputeMaxDrawdown(trades: seq<Trade>, initialCapital: real) returns (maxDD: real)
    requires initialCapital > 0.0
    ensures IsMaxDrawdown(EquityCurve(initialCapital, trades), maxDD)
  {
    hide IsMaxDrawdown, IsPeak, IsRunningPeak, EquityCurve;
    MaxDrawdownStart(initialCapital);
    CurveStart(initialCapital);
    if |trades| == 0 {
      return 0.0;
    }
    var equity := initialCapital;
    var peak := equity;
    maxDD := 0.0;
    assert trades[..0] == [];
    for k := 0 to |trades|
      invariant equity == BookedCapital(initialCapital, trades[..k])
      invariant peak > 0.0 && IsPeak(EquityCurve(initialCapital, trades[..k]), peak)
      invariant IsMaxDrawdown(EquityCurve(initialCapital, trades[..k]), maxDD)
    {
      CurveStep(initialCapital, trades, k);
      equity := equity + trades[k].pnl;
      MaxDrawdownStep(EquityCurve(initialCapital, trades[..k]), peak, maxDD, equity);
      if equity > peak {
        peak := equity;
      }
      var dd := Drop(peak, equity);
      if dd > maxDD {
        maxDD := dd;
      }
    }
    assert trades[..|trades|] == trades;
  }

  // ----- When the loop finds the largest drop of all -----

  ghost predicate NeverNegative(curve: seq<real>) {
    forall j :: 0 <= j < |curve| ==> curve[j] >= 0.0
  }

  ghost predicate IsPair(curve: seq<real>, i: int, j: int) {
    0 <= i <= j < |curve| && curve[i] > 0.0
  }

  // The drop from i to j is the largest of all pairs.
  ghost predicate IsWorstPair(curve: seq<real>, i: int, j: int) {
    IsPair(curve, i, j) && forall p, q :: IsPair(curve, p, q) ==> Drop(curve[p], curve[q]) <= Drop(curve[i], curve[j])
  }

  ghost predicate IsPairMaximum(curve: seq<real>, dd: real) {
    exists i, j :: IsWorstPair(curve, i, j) && dd == Drop(curve[i], curve[j])
  }

  // Up to j the curve was never above zero at another level than its start.
  ghost predicate OnlyStartLevel(curve: seq<real>, j: int) {
    forall k :: 0 <= k <= j && k < |curve| && curve[k] > 0.0 ==> curve[k] == curve[0]
  }

  // To a negative level the drop is larger from the lower of two levels.
  lemma DropBelowZero(low: real, high: real, to: real)
    requires 0.0 < low < high && to < 0.0
    ensures Drop(high, to) < Drop(low, to)
  {
    var x, y := (0.0 - to) / low, (0.0 - to) / high;
    assert x * low == 0.0 - to == y * high;
    LargerShare(x, y, low, high);
    QuotientIs(low - to, low, 1.0 + x);
    QuotientIs(high - to, high, 1.0 + y);
  }

  lemma LargerShare(x: real, y: real, low: real, high: real)
    requires 0.0 < low < high && x * low == y * high > 0.0
    ensures x > y
  {
    assert y > 0.0;
    assert y * (high - low) > 0.0;
    assert (x - y) * low == y * (high - low);
  }

  // The loop's value is the maximum over all pairs if and only if the curve never goes negative,
  // or that maximum is a drop from the start to a negative point before which the curve was at no
  // other positive level.
  lemma PeakLoopIsPairMaximum(curve: seq<real>, dd: real)
    requires curve != [] && curve[0] > 0.0 && IsMaxDrawdown(curve, dd)
    ensures IsPairMaximum(curve, dd) <==>
              || NeverNegative(curve)
              || exists j :: IsWorstPair(curve, 0, j) && curve[j] < 0.0 && OnlyStartLevel(curve, j)
  {
    hide Drop;
    var i, j :| IsRunningPeak(curve, i, j) && dd == Drop(curve[i], curve[j]);
    assert IsPair(curve, i, j);
    if NeverNegative(curve) {
      assert IsWorstPair(curve, i, j);
    } else if IsPairMaximum(curve, dd) {
      DropRange(curve[i], curve[j]);
      LevelsAgree(curve, dd, i, j);
    }
    if q :| IsWorstPair(curve, 0, q) && curve[q] < 0.0 && OnlyStartLevel(curve, q) {
      assert IsRunningPeak(curve, 0, q);
      assert dd == Drop(curve[0], curve[q]);
    }
  }

  lemma LevelsAgree(curve: seq<real>, dd: real, i: int, j: int)
    requires curve != [] && curve[0] > 0.0
    requires IsRunningPeak(curve, i, j) && curve[j] < 0.0 && dd == Drop(curve[i], curve[j])
    requires IsPairMaximum(curve, dd)
    ensures IsWorstPair(curve, 0, j) && OnlyStartLevel(curve, j)
  {
    hide Drop;
    var p, q :| IsWorstPair(curve, p, q) && dd == Drop(curve[p], curve[q]);
    forall k | 0 <= k <= j && curve[k] > 0.0 ensures curve[k] == curve[i] {
      assert IsPair(curve, k, j);
      if curve[k] < curve[i] {
        DropBelowZero(curve[k], curve[i], curve[j]);
      }
    }
    assert curve[0] == curve[i];
  }

  // ----- What rounding can do to a run -----

  lemma BookedAsNothing(profit: real)
    ensures Round2(profit) <= 0.0 <==> profit < 0.005
  {
    RoundHalfAwayIsNearest(100.0 * profit, RoundHalfAway(100.0 * profit));
  }

  // Booked capital can only be negative while the exact one is below half a paisa per trade.
  lemma OverdrawnOnlyWhenNearZero(closes: seq<real>, signals: seq<Signal>, capital: real, pct: real, m: nat)
    requires |signals| <= |closes| && Positive(closes)
    requires m <= |TradesOf(closes, signals, capital, pct)|
    ensures var ts := TradesOf(closes, signals, capital, pct)[..m];
            ExactCapital(closes, capital, ts) >= 0.005 * m as real ==> BookedCapital(capital, ts) >= 0.0
  {
    hide TradesOf, ExactCapital, BookedCapital;
    DriftBounded(closes, signals, capital, pct, m);
  }

  // ----- Reported statistics -----

  datatype Report = Report(finalCapital: real, totalReturn: real, maxDrawdown: real, winRate: real,
                           totalTrades: nat, winningTrades: nat, losingTrades: nat,
                           avgWin: real, avgLoss: real, buyAndHold: real, tradeLog: seq<Trade>)

  ghost function TradesFor(
    sqrt: real -> real, strategy: Strategy, candles: seq<Candle>, capital: real, pct: real): seq<Trade>
    requires strategy.Valid() && Positive(Closes(candles))
  {
    TradesOf(Closes(candles), SignalsOf(sqrt, strategy, candles), capital, pct)
  }

  function Winners(trades: seq<Trade>): nat {
    if trades == [] then 0
    else Winners(trades[..|trades| - 1]) + if trades[|trades| - 1].pnl > 0.0 then 1 else 0
  }

  // Returns of the winning and of the other trades, added up.
  function WinningPct(trades: seq<Trade>): real {
    if trades == [] then 0.0
    else
      var t := trades[|trades| - 1];
      WinningPct(trades[..|trades| - 1]) + if t.pnl > 0.0 then t.pnlPct else 0.0
  }

  function LosingPct(trades: seq<Trade>): real {
    if trades == [] then 0.0
    else
      var t := trades[|trades| - 1];
      LosingPct(trades[..|trades| - 1]) + if t.pnl > 0.0 then 0.0 else t.pnlPct
  }

  lemma {:induction false} PctSigns(trades: seq<Trade>)
    ensures (forall t :: t in trades && t.pnl > 0.0 ==> t.pnlPct >= 0.0) ==> WinningPct(trades) >= 0.0
    ensures (forall t :: t in trades && t.pnl <= 0.0 ==> t.pnlPct <= 0.0) ==> LosingPct(trades) <= 0.0
  {
    if trades != [] {
      PctSigns(trades[..|trades| - 1]);
      assert trades[|trades| - 1] in trades;
    }
  }

  // The source's accumulation loops over the trade list.
  method Tally(trades: seq<Trade>, initialCapital: real)
    returns (finalCapital: real, wins: nat, losses: nat, winPct: real, lossPct: real)
    ensures finalCapital == BookedCapital(initialCapital, trades)
    ensures wins == Winners(trades) && wins + losses == |trades|
    ensures winPct == WinningPct(trades) && lossPct == LosingPct(trades)
  {
    finalCapital, wins, losses, winPct, lossPct := initialCapital, 0, 0, 0.0, 0.0;
    for i := 0 to |trades|
      invariant finalCapital == BookedCapital(initialCapital, trades[..i])
    {
      assert trades[..i + 1][..i] == trades[..i];
      finalCapital := finalCapital + trades[i].pnl;
    }
    assert trades[..|trades|] == trades;
    for i := 0 to |trades|
      invariant wins == Winners(trades[..i]) && wins + losses == i
      invariant winPct == WinningPct(trades[..i]) && lossPct == LosingPct(trades[..i])
    {
      assert trades[..i + 1][..i] == trades[..i];
      if trades[i].pnl > 0.0 {
        wins, winPct := wins + 1, winPct + trades[i].pnlPct;
      } else {
        losses, lossPct := losses + 1, lossPct + trades[i].pnlPct;
      }
    }
  }

  // Profit and return of a trade have compatible signs once rounded; on whole-paise prices a
  // trade counted as losing did not gain.
  lemma ProfitSigns(closes: seq<real>, signals: seq<Signal>, capital: real, pct: real)
    requires |signals| <= |closes| && Positive(closes)
    ensures forall t :: t in TradesOf(closes, signals, capital, pct) && t.pnl > 0.0 ==> t.pnlPct >= 0.0
    ensures forall t :: t in TradesOf(closes, signals, capital, pct) ==> (t.pnl <= 0.0 <==> ExactPnL(closes, t) < 0.005)
    ensures WholePaise(closes) ==>
              forall t :: t in TradesOf(closes, signals, capital, pct) && t.pnl <= 0.0 ==> t.pnlPct <= 0.0
  {
    hide TradesOf, ExactPnL;
    var ts := TradesOf(closes, signals, capital, pct);
    TradesPaired(closes, signals, capital, pct);
    forall m | 0 <= m < |ts|
      ensures ts[m].pnl > 0.0 ==> ts[m].pnlPct >= 0.0
      ensures ts[m].pnl <= 0.0 <==> ExactPnL(closes, ts[m]) < 0.005
      ensures WholePaise(closes) && ts[m].pnl <= 0.0 ==> ts[m].pnlPct <= 0.0
    {
      assert PairedAt(closes, signals, capital, pct, ts, m);
      SignsAgree(closes, ts[m].entryBar, ts[m].exitBar, ts[m].quantity, ts[m].forced);
      LosingBelowHalfPaisa(closes, signals, capital, pct, m);
    }
  }

  lemma SignsAgree(closes: seq<real>, entryBar: nat, exitBar: nat, qty: int, forced: bool)
    requires entryBar < |closes| && exitBar < |closes| && Positive(closes) && qty > 0
    ensures var t := MakeTrade(closes, entryBar, exitBar, qty, forced);
            && (t.pnl > 0.0 ==> t.pnlPct >= 0.0)
            && (WholePaise(closes) && t.pnl <= 0.0 ==> t.pnlPct <= 0.0)
  {
    var entry, exit := closes[entryBar], closes[exitBar];
    var profit, change := PnL(closes, entryBar, exitBar, qty), ReturnPct(entry, exit);
    var q := (exit - entry) / entry;
    assert q * entry == exit - entry;
    assert exit >= entry ==> q >= 0.0 && profit >= 0.0;
    assert exit <= entry ==> q <= 0.0 && profit <= 0.0;
    assert exit > entry ==> profit > 0.0;
    Round2Sign(profit);
    Round2Sign(change);
    if WholePaise(closes) { PaisePnL(closes, entryBar, exitBar, qty); }
  }

  // The exact threshold: a trade is counted as losing if and only if it gained less than half a
  // paisa, so a gain is counted as a loss exactly when it is below that.
  lemma LosingBelowHalfPaisa(closes: seq<real>, signals: seq<Signal>, capital: real, pct: real, m: nat)
    requires |signals| <= |closes| && Positive(closes)
    requires m < |TradesOf(closes, signals, capital, pct)|
    ensures var t := TradesOf(closes, signals, capital, pct)[m];
            t.pnl <= 0.0 <==> ExactPnL(closes, t) < 0.005
  {
    hide TradesOf;
    TradesPaired(closes, signals, capital, pct);
    assert PairedAt(closes, signals, capital, pct, TradesOf(closes, signals, capital, pct), m);
    BookedAsNothing(ExactPnL(closes, TradesOf(closes, signals, capital, pct)[m]));
  }

  lemma {:induction false} CurvePoint(capital: real, trades: seq<Trade>, j: nat)
    requires j <= |trades|
    ensures EquityCurve(capital, trades)[j] == BookedCapital(capital, trades[..j])
  {
    if j == |trades| {
      assert trades[..j] == trades;
    } else {
      CurvePoint(capital, trades[..|trades| - 1], j);
      assert trades[..|trades| - 1][..j] == trades[..j];
    }
  }

  // On whole-paise prices the booked equity curve is the exact one, and positive throughout.
  lemma PaiseCurve(closes: seq<real>, signals: seq<Signal>, capital: real, pct: real)
    requires |signals| <= |closes| && Positive(closes) && WholePaise(closes)
    requires capital > 0.0 && 0.0 < pct <= 100.0
    ensures var ts := TradesOf(closes, signals, capital, pct);
            && BookedCapital(capital, ts) == ExactCapital(closes, capital, ts) > 0.0
            && forall j :: 0 <= j <= |ts| ==>
                 EquityCurve(capital, ts)[j] == ExactCapital(closes, capital, ts[..j]) > 0.0
  {
    hide TradesOf, BookedCapital, ExactCapital;
    var ts := TradesOf(closes, signals, capital, pct);
    forall j | 0 <= j <= |ts|
      ensures EquityCurve(capital, ts)[j] == ExactCapital(closes, capital, ts[..j]) > 0.0
    {
      PaiseNoDrift(closes, signals, capital, pct, j);
      Solvent(closes, signals, capital, pct, j);
      CurvePoint(capital, ts, j);
    }
    assert ts[..|ts|] == ts;
  }

  function Ratio(x: real, n: nat): real {
    if n > 0 then x / n as real else 0.0
  }

  lemma RateRounded(wins: nat, n: nat)
    requires wins <= n
    ensures 0.0 <= Round2(Ratio(wins as real, n) * 100.0) <= 100.0
  {
  }

  lemma AverageSign(x: real, n: nat)
    ensures x >= 0.0 ==> Round2(Ratio(x, n)) >= 0.0
    ensures x <= 0.0 ==> Round2(Ratio(x, n)) <= 0.0
  {
  }

  lemma FinalCapitalClose(closes: seq<real>, signals: seq<Signal>, capital: real, pct: real)
    requires |signals| <= |closes| && Positive(closes)
    ensures var ts := TradesOf(closes, signals, capital, pct);
            var slack := 0.005 * (|ts| + 1) as real;
            -slack <= Round2(BookedCapital(capital, ts)) - ExactCapital(closes, capital, ts) <= slack
  {
    hide TradesOf, ExactCapital;
    var ts := TradesOf(closes, signals, capital, pct);
    DriftBounded(closes, signals, capital, pct, |ts|);
    assert ts[..|ts|] == ts;
    Round2Error(BookedCapital(capital, ts));
  }

  lemma DrawdownRounded(closes: seq<real>, signals: seq<Signal>, capital: real, pct: real, dd: real)
    requires |signals| <= |closes| && Positive(closes) && capital > 0.0 && 0.0 < pct <= 100.0
    requires IsMaxDrawdown(EquityCurve(capital, TradesOf(closes, signals, capital, pct)), dd)
    ensures Round2(dd) >= 0.0
    ensures var ts := TradesOf(closes, signals, capital, pct);
            WholePaise(closes) ==>
              && Round2(dd) <= 100.0
              && Round2(BookedCapital(capital, ts)) == Round2(ExactCapital(closes, capital, ts)) >= 0.0
  {
    hide TradesOf, BookedCapital, ExactCapital, EquityCurve, Drop;
    Round2Sign(dd);
    if WholePaise(closes) {
      PaiseCurve(closes, signals, capital, pct);
      Round2Sign(BookedCapital(capital, TradesOf(closes, signals, capital, pct)));
      Round2Monotone(dd, 100.0);
      Round2Fixed(100.0);
    }
  }

  // What the reported figures are computed from.
  ghost predicate ReportOf(r: Report, closes: seq<real>, capital: real, trades: seq<Trade>)
    requires closes != [] && closes[0] > 0.0 && capital > 0.0
  {
    && r.finalCapital == Round2(BookedCapital(capital, trades))
    && r.totalReturn == Round2(ReturnPct(capital, BookedCapital(capital, trades)))
    && r.buyAndHold == Round2(ReturnPct(closes[0], closes[|closes| - 1]))
    && r.totalTrades == |trades| == r.winningTrades + r.losingTrades
    && r.winningTrades == Winners(trades)
    && r.winRate == Round2(Ratio(Winners(trades) as real, |trades|) * 100.0)
    && r.avgWin == Round2(Ratio(WinningPct(trades), Winners(trades)))
    && r.avgLoss == Round2(Ratio(LosingPct(trades), r.losingTrades))
    && r.tradeLog == (if |trades| > 50 then trades[|trades| - 50..] else trades)
    && exists dd :: IsMaxDrawdown(EquityCurve(capital, trades), dd) && r.maxDrawdown == Round2(dd)
  }

  method RunBacktest(sqrt: real -> real, strategy: Strategy, candles: seq<Candle>, initialCapital: real, pct: real)
    returns (r: Report)
    requires strategy.Valid() && |candles| > 0 && Positive(Closes(candles))
    requires initialCapital > 0.0 && 0.0 < pct <= 100.0
    ensures ReportOf(r, Closes(candles), initialCapital, TradesFor(sqrt, strategy, candles, initialCapital, pct))
    ensures var trades := TradesFor(sqrt, strategy, candles, initialCapital, pct);
            var closes := Closes(candles);
            && 0.0 <= r.winRate <= 100.0
            && r.avgWin >= 0.0
            && r.maxDrawdown >= 0.0
            && -0.005 * (|trades| + 1) as real
               <= r.finalCapital - ExactCapital(closes, initialCapital, trades)
               <= 0.005 * (|trades| + 1) as real
            && (WholePaise(closes) ==>
                  && r.finalCapital == Round2(ExactCapital(closes, initialCapital, trades)) >= 0.0
                  && r.maxDrawdown <= 100.0
                  && r.avgLoss <= 0.0)
  {
    hide ReturnPct, Round2, Ratio, IsMaxDrawdown, EquityCurve, BookedCapital, ExactCapital, TradesOf, WholePaise;
    hide Winners, WinningPct, LosingPct;
    var closes := Closes(candles);
    var signals := GenerateSignals(sqrt, strategy, candles);
    var trades := SimulateTrades(closes, signals, initialCapital, pct);
    var finalCapital, wins, losses, winPct, lossPct := Tally(trades, initialCapital);
    var totalReturn := ReturnPct(initialCapital, finalCapital);
    var buyAndHold := ReturnPct(closes[0], closes[|closes| - 1]);
    var winRate := Ratio(wins as real, |trades|) * 100.0;
    var avgWin := Ratio(winPct, wins);
    var avgLoss := Ratio(lossPct, losses);
    var maxDD := ComputeMaxDrawdown(trades, initialCapital);
    var tradeLog := if |trades| > 50 then trades[|trades| - 50..] else trades;
    r := Report(Round2(finalCapital), Round2(totalReturn), Round2(maxDD), Round2(winRate), |trades|, wins, losses,
                Round2(avgWin), Round2(avgLoss), Round2(buyAndHold), tradeLog);

    ProfitSigns(closes, signals, initialCapital, pct);
    PctSigns(trades);
    RateRounded(wins, |trades|);
    AverageSign(winPct, wins);
    AverageSign(lossPct, losses);
    FinalCapitalClose(closes, signals, initialCapital, pct);
    DrawdownRounded(closes, signals, initialCapital, pct, maxDD);
  }

  // No lookahead, end to end: for every strategy the signal-closed trades of a backtest over the
  // first k candles begin those over all candles, and only a forced close can differ.
  lemma NoLookahead(sqrt: real -> real, strategy: Strategy, candles: seq<Candle>, capital: real, pct: real, k: nat)
    requires strategy.Valid() && k <= |candles| && Positive(Closes(candles))
    ensures Positive(Closes(candles[..k]))
    ensures var early, late := TradesFor(sqrt, strategy, candles[..k], capital, pct),
                               TradesFor(sqrt, strategy, candles, capital, pct);
            && SignalClosed(early) <= SignalClosed(late)
            && (SignalClosed(early) != early ==>
                  && |early| <= |late|
                  && late[|early| - 1].entryBar == early[|early| - 1].entryBar
                  && late[|early| - 1].entryPrice == early[|early| - 1].entryPrice
                  && late[|early| - 1].quantity == early[|early| - 1].quantity)
  {
    assert Closes(candles[..k]) == Closes(candles)[..k];
    SignalsCausal(sqrt, strategy, candles, k);
    SimulationCausal(Closes(candles), SignalsOf(sqrt, strategy, candles), capital, pct, k);
  }
}
