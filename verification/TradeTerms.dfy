/**
 * Trades and reports in terms of prices, quantities and capital alone: what each figure is, within
 * the half hundredth that its own rounding costs.
 */
module TradeTerms {
  import opened Wrappers
  import opened Rounding
  import opened Sums
  import opened Signals
  import opened Simulation
  import opened Backtest

  // ----- Position size -----

  lemma ScaleNonNegative(a: real, f: real)
    requires f > 0.0
    ensures a >= 0.0 ==> a * f >= 0.0
    ensures a > 0.0 ==> a * f > 0.0
  {
  }

  lemma KeepsOrder(a: real, b: real, f: real)
    requires f > 0.0
    ensures a <= b ==> a * f <= b * f
    ensures a < b ==> a * f < b * f
  {
    ScaleNonNegative(b - a, f);
    assert (b - a) * f == b * f - a * f;
  }

  lemma QuotientTimes(amount: real, price: real)
    requires price > 0.0
    ensures (amount / price) * price == amount
  {
  }

  lemma TruncateBounds(x: real)
    ensures Truncate(x) > 0 ==> Truncate(x) as real <= x < Truncate(x) as real + 1.0
    ensures Truncate(x) <= 0 ==> x < 1.0
  {
  }

  lemma BoundTimes(x: real, bound: real, price: real, amount: real)
    requires price > 0.0 && x * price == amount
    ensures bound <= x ==> bound * price <= amount
    ensures x < bound ==> amount < bound * price
  {
    KeepsOrder(bound, x, price);
    KeepsOrder(x, bound, price);
  }

  lemma QuotientBounds(x: real, q: real, price: real, amount: real)
    requires price > 0.0 && x * price == amount
    ensures q <= x < q + 1.0 ==> q * price <= amount < (q + 1.0) * price
    ensures x < 1.0 ==> amount < price
  {
    BoundTimes(x, q, price, amount);
    BoundTimes(x, q + 1.0, price, amount);
    BoundTimes(x, 1.0, price, amount);
  }

  lemma WholeSharesBounds(amount: real, price: real)
    requires price > 0.0
    ensures var q := WholeShares(amount, price);
            && (q > 0 ==> q as real * price <= amount < (q as real + 1.0) * price)
            && (q <= 0 ==> amount < price)
  {
    hide Truncate;
    QuotientTimes(amount, price);
    TruncateBounds(amount / price);
    QuotientBounds(amount / price, WholeShares(amount, price) as real, price, amount);
  }

  lemma SizeOf(capital: real, pct: real, price: real)
    requires price > 0.0
    ensures var q := Shares(capital, pct, price);
            && (q > 0 ==> q as real * price <= capital * pct / 100.0 < (q as real + 1.0) * price)
            && (q <= 0 ==> capital * pct / 100.0 < price)
  {
    hide WholeShares;
    WholeSharesBounds(Allocated(capital, pct), price);
  }

  // ----- Rounded figures -----

  lemma ReturnTimes(from: real, to: real)
    requires from > 0.0
    ensures ReturnPct(from, to) * from == 100.0 * to - 100.0 * from
  {
    QuotientTimes(to - from, from);
  }

  // A product that the solver may treat as a name.
  function Times(a: real, b: real): real { a * b }

  lemma TimesApart(from: real, x: real, p: real)
    ensures Times(from, 100.0 + x) == 100.0 * from + Times(p, from) + Times(x - p, from)
  {
  }

  lemma TimesNear(from: real, e: real)
    requires from > 0.0 && -0.005 <= e <= 0.005
    ensures -0.005 * from <= Times(e, from) <= 0.005 * from
  {
    KeepsOrder(-0.005, e, from);
    KeepsOrder(e, 0.005, from);
  }

  lemma ErrorTimes(from: real, to: real, x: real, p: real)
    requires from > 0.0 && Near(x, p, 1.0) && Times(p, from) == 100.0 * to - 100.0 * from
    ensures Near(Times(from, 100.0 + x), 100.0 * to, from)
  {
    hide Times;
    TimesNear(from, x - p);
    TimesApart(from, x, p);
  }

  lemma PercentError(from: real, to: real, x: real)
    requires from > 0.0 && x == Round2(ReturnPct(from, to))
    ensures Near(from * (100.0 + x), 100.0 * to, from)
  {
    hide Round2, ReturnPct;
    Round2Error(ReturnPct(from, to));
    ReturnTimes(from, to);
    ErrorTimes(from, to, x, ReturnPct(from, to));
  }

  // A trade entered with capital c on a BUY: the most whole shares that the allocation pays for, and
  // prices, profit and return as booked.
  ghost predicate TradeFits(closes: seq<real>, signals: seq<Signal>, c: real, pct: real, t: Trade) {
    && t.entryBar < |signals| && t.entryBar < |closes| && t.exitBar < |closes|
    && signals[t.entryBar] == Some(Buy) && t.quantity >= 1
    && var entry, exit, q := closes[t.entryBar], closes[t.exitBar], t.quantity as real;
       && q * entry <= c * pct / 100.0 < (q + 1.0) * entry
       && Near(t.entryPrice, entry, 1.0) && Near(t.exitPrice, exit, 1.0)
       && Near(t.pnl, q * (exit - entry), 1.0)
       && Near(entry * (100.0 + t.pnlPct), 100.0 * exit, entry)
  }

  // The exact profit of a trade at these closes.
  ghost function ProfitAt(closes: seq<real>): Trade -> real {
    (t: Trade) => if t.entryBar < |closes| && t.exitBar < |closes|
         then t.quantity as real * (closes[t.exitBar] - closes[t.entryBar]) else 0.0
  }

  lemma MadeTradeFits(closes: seq<real>, signals: seq<Signal>, c: real, pct: real,
                      entryBar: nat, exitBar: nat, forced: bool)
    requires |signals| <= |closes| && Positive(closes) && entryBar < |signals| && exitBar < |closes|
    requires signals[entryBar] == Some(Buy) && Shares(c, pct, closes[entryBar]) > 0
    ensures TradeFits(closes, signals, c, pct,
                      MakeTrade(closes, entryBar, exitBar, Shares(c, pct, closes[entryBar]), forced))
  {
    hide Shares, Round2, ReturnPct;
    var entry, exit, q := closes[entryBar], closes[exitBar], Shares(c, pct, closes[entryBar]);
    SizeOf(c, pct, entry);
    Round2Error(entry);
    Round2Error(exit);
    Round2Error(PnL(closes, entryBar, exitBar, q));
    PercentError(entry, exit, Round2(ReturnPct(entry, exit)));
  }

  lemma {:induction false} CapitalAddsUp(closes: seq<real>, capital: real, trades: seq<Trade>)
    ensures ExactCapital(closes, capital, trades) == capital + Sum(Map(ProfitAt(closes), trades))
  {
    hide Sum;
    if trades == [] {
      NothingAdds(ProfitAt(closes));
    } else {
      var front, t := trades[..|trades| - 1], trades[|trades| - 1];
      assert trades == front + [t];
      CapitalAddsUp(closes, capital, front);
      SumMapAppend(ProfitAt(closes), front, t);
    }
  }

  lemma NothingAdds(f: Trade -> real)
    ensures Sum(Map(f, [])) == 0.0
  {
  }

  // Every trade fits the capital that the profits of the trades before it have left.
  lemma TradesFit(closes: seq<real>, signals: seq<Signal>, capital: real, pct: real, m: nat)
    requires |signals| <= |closes| && Positive(closes)
    requires m < |TradesOf(closes, signals, capital, pct)|
    ensures var ts := TradesOf(closes, signals, capital, pct);
            TradeFits(closes, signals, capital + Sum(Map(ProfitAt(closes), ts[..m])), pct, ts[m])
  {
    hide TradesOf, TradeFits, Shares, MakeTrade, ExactCapital, Sum;
    var ts := TradesOf(closes, signals, capital, pct);
    TradesPaired(closes, signals, capital, pct);
    assert PairedAt(closes, signals, capital, pct, ts, m);
    CapitalAddsUp(closes, capital, ts[..m]);
    MadeTradeFits(closes, signals, ExactCapital(closes, capital, ts[..m]), pct,
                  ts[m].entryBar, ts[m].exitBar, ts[m].forced);
  }

  // A BUY is passed over while no position is open only if the allocation does not pay for one share.
  lemma BuysPassedOver(closes: seq<real>, signals: seq<Signal>, capital: real, pct: real, m: nat, i: nat)
    requires |signals| <= |closes| && Positive(closes) && i < |signals| && signals[i] == Some(Buy)
    requires var ts := TradesOf(closes, signals, capital, pct);
             && m <= |ts|
             && (m > 0 ==> !ts[m - 1].forced && ts[m - 1].exitBar < i)
             && (m < |ts| ==> i < ts[m].entryBar)
    ensures var ts := TradesOf(closes, signals, capital, pct);
            (capital + Sum(Map(ProfitAt(closes), ts[..m]))) * pct / 100.0 < closes[i]
  {
    hide TradesOf, Shares, MakeTrade, ExactCapital, Sum;
    var ts := TradesOf(closes, signals, capital, pct);
    TradesPaired(closes, signals, capital, pct);
    var cash := ExactCapital(closes, capital, ts[..m]);
    CapitalAddsUp(closes, capital, ts[..m]);
    SizeOf(cash, pct, closes[i]);
    assert m < |ts| ==> PairedAt(closes, signals, capital, pct, ts, m);
    assert m == |ts| ==> ts[..m] == ts;
    assert !Enterable(closes, signals, cash, pct, i);
  }

  // ----- The report -----

  function BookedProfit(t: Trade): real { t.pnl }

  function WonPct(t: Trade): real { if t.pnl > 0.0 then t.pnlPct else 0.0 }

  function LostPct(t: Trade): real { if t.pnl > 0.0 then 0.0 else t.pnlPct }

  // The exact return in percent of a trade at these closes.
  ghost function ReturnAt(closes: seq<real>, t: Trade): real {
    if t.entryBar < |closes| && t.exitBar < |closes| && closes[t.entryBar] > 0.0
    then (closes[t.exitBar] - closes[t.entryBar]) / closes[t.entryBar] * 100.0 else 0.0
  }

  ghost function WonReturn(closes: seq<real>): Trade -> real {
    (t: Trade) => if t.pnl > 0.0 then ReturnAt(closes, t) else 0.0
  }

  ghost function LostReturn(closes: seq<real>): Trade -> real {
    (t: Trade) => if t.pnl > 0.0 then 0.0 else ReturnAt(closes, t)
  }

  ghost function Won(trades: seq<Trade>): set<nat> {
    set k: nat | k < |trades| && trades[k].pnl > 0.0
  }

  lemma {:induction false} BookedAddsUp(capital: real, trades: seq<Trade>)
    ensures BookedCapital(capital, trades) == capital + Sum(Map(BookedProfit, trades))
  {
    hide Sum;
    if trades == [] {
      NothingAdds(BookedProfit);
    } else {
      var front, t := trades[..|trades| - 1], trades[|trades| - 1];
      assert trades == front + [t];
      BookedAddsUp(capital, front);
      SumMapAppend(BookedProfit, front, t);
    }
  }

  lemma {:induction false} WinnersCounted(trades: seq<Trade>)
    ensures Winners(trades) == |Won(trades)|
  {
    if trades == [] {
      assert Won(trades) == {};
    } else {
      var n := |trades| - 1;
      WinnersCounted(trades[..n]);
      assert Won(trades) == Won(trades[..n]) + if trades[n].pnl > 0.0 then {n} else {};
    }
  }

  lemma {:induction false} PctsAddUp(trades: seq<Trade>)
    ensures WinningPct(trades) == Sum(Map(WonPct, trades))
    ensures LosingPct(trades) == Sum(Map(LostPct, trades))
  {
    hide Sum;
    if trades == [] {
      NothingAdds(WonPct);
      NothingAdds(LostPct);
    } else {
      var front, t := trades[..|trades| - 1], trades[|trades| - 1];
      assert trades == front + [t];
      PctsAddUp(front);
      SumMapAppend(WonPct, front, t);
      SumMapAppend(LostPct, front, t);
    }
  }

  // Each return in the list is rounded once, so the sums differ by half a hundredth per trade.
  lemma {:induction false} ReturnsNear(closes: seq<real>, trades: seq<Trade>)
    requires forall k :: 0 <= k < |trades| ==> Near(trades[k].pnlPct, ReturnAt(closes, trades[k]), 1.0)
    ensures Near(WinningPct(trades), Sum(Map(WonReturn(closes), trades)), Winners(trades) as real)
    ensures Near(LosingPct(trades), Sum(Map(LostReturn(closes), trades)), (|trades| - Winners(trades)) as real)
  {
    hide Sum, ReturnAt;
    if trades == [] {
      NothingAdds(WonReturn(closes));
      NothingAdds(LostReturn(closes));
    } else {
      var front, t := trades[..|trades| - 1], trades[|trades| - 1];
      assert trades == front + [t];
      assert forall k :: 0 <= k < |front| ==> front[k] == trades[k];
      ReturnsNear(closes, front);
      SumMapAppend(WonReturn(closes), front, t);
      SumMapAppend(LostReturn(closes), front, t);
    }
  }

  lemma TradeReturnNear(closes: seq<real>, signals: seq<Signal>, capital: real, pct: real, k: nat)
    requires |signals| <= |closes| && Positive(closes) && k < |TradesOf(closes, signals, capital, pct)|
    ensures var t := TradesOf(closes, signals, capital, pct)[k];
            Near(t.pnlPct, ReturnAt(closes, t), 1.0)
  {
    hide TradesOf, Shares, Round2, PnL;
    var t := TradesOf(closes, signals, capital, pct)[k];
    TradesPaired(closes, signals, capital, pct);
    assert PairedAt(closes, signals, capital, pct, TradesOf(closes, signals, capital, pct), k);
    Round2Error(ReturnPct(closes[t.entryBar], closes[t.exitBar]));
  }

  // A rounded mean, times what it is a mean of.
  lemma MeanNear(x: real, n: nat, mean: real)
    requires mean == Round2(Ratio(x, n)) && (n == 0 ==> x == 0.0)
    ensures Near(Times(mean, n as real), x, n as real)
    ensures n == 0 ==> mean == 0.0
  {
    hide Round2;
    Round2Error(Ratio(x, n));
    if n == 0 {
      Round2Fixed(0.0);
    } else {
      MeanTimes(mean, Ratio(x, n), x, n as real);
    }
  }

  lemma MeanTimes(mean: real, q: real, x: real, n: real)
    requires n > 0.0 && q == x / n && Near(mean, q, 1.0)
    ensures Near(Times(mean, n), x, n)
  {
    QuotientTimes(x, n);
    TimesNear(n, mean - q);
    assert Times(mean, n) == Times(q, n) + Times(mean - q, n);
  }

  lemma RateNear(wins: nat, n: nat, rate: real)
    requires wins <= n && rate == Round2(Ratio(wins as real, n) * 100.0)
    ensures Near(Times(rate, n as real), 100.0 * wins as real, n as real)
    ensures n == 0 ==> rate == 0.0
  {
    hide Round2;
    Round2Error(Ratio(wins as real, n) * 100.0);
    if n == 0 {
      Round2Fixed(0.0);
    } else {
      RatioPercent(wins as real, n);
      MeanTimes(rate, Ratio(wins as real, n) * 100.0, 100.0 * wins as real, n as real);
    }
  }

  lemma RatioPercent(x: real, n: nat)
    requires n > 0
    ensures Ratio(x, n) * 100.0 == 100.0 * x / n as real
  {
  }

  lemma RateFits(wins: nat, n: nat, rate: real)
    requires wins <= n && rate == Round2(Ratio(wins as real, n) * 100.0)
    ensures RateFitsCounts(rate, wins, n)
  {
    hide Round2, Ratio;
    RateNear(wins, n, rate);
    assert Times(rate, n as real) == rate * n as real;
  }

  // Every trade of the list, before the report sums them up.
  lemma ListNear(closes: seq<real>, signals: seq<Signal>, capital: real, pct: real)
    requires |signals| <= |closes| && Positive(closes)
    ensures var ts := TradesOf(closes, signals, capital, pct);
            && Near(WinningPct(ts), Sum(Map(WonReturn(closes), ts)), |Won(ts)| as real)
            && Near(LosingPct(ts), Sum(Map(LostReturn(closes), ts)), (|ts| - |Won(ts)|) as real)
  {
    hide TradesOf, Sum, ReturnAt, WonReturn, LostReturn, Won, Winners;
    var ts := TradesOf(closes, signals, capital, pct);
    forall k | 0 <= k < |ts| ensures Near(ts[k].pnlPct, ReturnAt(closes, ts[k]), 1.0) {
      TradeReturnNear(closes, signals, capital, pct, k);
    }
    ReturnsNear(closes, ts);
    WinnersCounted(ts);
  }

  // Amounts: final capital is what the booked profits leave, and the total and the buy-and-hold
  // return are percentages of the initial capital and of the first close.
  ghost predicate AmountsFit(r: Report, closes: seq<real>, capital: real, trades: seq<Trade>)
    requires closes != []
  {
    var booked := capital + Sum(Map(BookedProfit, trades));
    && Near(r.finalCapital, booked, 1.0)
    && Near(capital * (100.0 + r.totalReturn), 100.0 * booked, capital)
    && Near(closes[0] * (100.0 + r.buyAndHold), 100.0 * closes[|closes| - 1], closes[0])
  }

  // An average of n listed figures: within half a hundredth of their mean, and within a hundredth of
  // the mean of the exact ones.
  ghost predicate AverageFits(avg: real, n: nat, listed: real, exact: real) {
    && Near(avg * n as real, listed, n as real)
    && Near(avg * n as real, exact, 2.0 * n as real)
    && (n == 0 ==> avg == 0.0)
  }

  ghost predicate RateFitsCounts(rate: real, wins: nat, n: nat) {
    Near(rate * n as real, 100.0 * wins as real, n as real) && (n == 0 ==> rate == 0.0)
  }

  // Counts and averages: a trade wins if its booked profit is positive.
  ghost predicate AveragesFit(r: Report, closes: seq<real>, trades: seq<Trade>) {
    var n, w := |trades|, |Won(trades)|;
    && r.totalTrades == n && r.winningTrades == w && r.losingTrades == n - w
    && RateFitsCounts(r.winRate, w, n)
    && AverageFits(r.avgWin, w, Sum(Map(WonPct, trades)), Sum(Map(WonReturn(closes), trades)))
    && AverageFits(r.avgLoss, r.losingTrades, Sum(Map(LostPct, trades)), Sum(Map(LostReturn(closes), trades)))
  }

  lemma RoundedMeanFits(avg: real, n: nat, listed: real, exact: real)
    requires avg == Round2(Ratio(listed, n)) && (n == 0 ==> listed == 0.0) && Near(listed, exact, n as real)
    ensures AverageFits(avg, n, listed, exact)
  {
    hide Round2, Ratio;
    MeanNear(listed, n, avg);
    assert Times(avg, n as real) == avg * n as real;
  }

  // The log holds the last trades in order, at most fifty of them.
  ghost predicate LogFits(r: Report, trades: seq<Trade>) {
    var n, k := |trades|, |r.tradeLog|;
    && k == (if n < 50 then n else 50)
    && forall i :: 0 <= i < k ==> r.tradeLog[i] == trades[n - k + i]
  }

  lemma LogReported(r: Report, closes: seq<real>, capital: real, trades: seq<Trade>)
    requires closes != [] && closes[0] > 0.0 && capital > 0.0 && ReportOf(r, closes, capital, trades)
    ensures LogFits(r, trades)
  {
    hide Round2, ReturnPct, BookedCapital, IsMaxDrawdown, Winners, Ratio, EquityCurve, WinningPct, LosingPct;
  }

  lemma AmountsReported(r: Report, closes: seq<real>, capital: real, trades: seq<Trade>)
    requires closes != [] && closes[0] > 0.0 && capital > 0.0 && ReportOf(r, closes, capital, trades)
    ensures AmountsFit(r, closes, capital, trades)
  {
    hide Round2, ReturnPct, Sum, BookedCapital, IsMaxDrawdown, Winners, Ratio, EquityCurve, WinningPct, LosingPct;
    BookedAddsUp(capital, trades);
    Round2Error(BookedCapital(capital, trades));
    PercentError(capital, BookedCapital(capital, trades), r.totalReturn);
    PercentError(closes[0], closes[|closes| - 1], r.buyAndHold);
  }

  lemma AveragesReported(r: Report, closes: seq<real>, signals: seq<Signal>, capital: real, pct: real)
    requires |signals| <= |closes| && Positive(closes) && closes != [] && capital > 0.0
    requires ReportOf(r, closes, capital, TradesOf(closes, signals, capital, pct))
    ensures AveragesFit(r, closes, TradesOf(closes, signals, capital, pct))
  {
    hide Round2, ReturnPct, Sum, BookedCapital, IsMaxDrawdown, Ratio, EquityCurve, TradesOf, Won, Times, Near;
    hide AverageFits, RateFitsCounts, WonReturn, LostReturn;
    hide Winners, WinningPct, LosingPct;
    var ts := TradesOf(closes, signals, capital, pct);
    WinnersCounted(ts);
    PctsAddUp(ts);
    NoneToAdd(ts);
    ListNear(closes, signals, capital, pct);
    RateFits(|Won(ts)|, |ts|, r.winRate);
    RoundedMeanFits(r.avgWin, Winners(ts), WinningPct(ts), Sum(Map(WonReturn(closes), ts)));
    RoundedMeanFits(r.avgLoss, r.losingTrades, LosingPct(ts), Sum(Map(LostReturn(closes), ts)));
  }

  lemma {:induction false} NoneToAdd(trades: seq<Trade>)
    ensures Winners(trades) <= |trades|
    ensures Winners(trades) == 0 ==> WinningPct(trades) == 0.0
    ensures Winners(trades) == |trades| ==> LosingPct(trades) == 0.0
  {
    if trades != [] {
      NoneToAdd(trades[..|trades| - 1]);
    }
  }

  // The curve the drawdown is measured on, point by point, and what a drop is.
  lemma CurveTerms(capital: real, trades: seq<Trade>, k: nat)
    requires k <= |trades|
    ensures EquityCurve(capital, trades)[k] == capital + Sum(Map(BookedProfit, trades[..k]))
  {
    CurvePoint(capital, trades, k);
    BookedAddsUp(capital, trades[..k]);
  }

  lemma DropTerms(from: real, to: real)
    requires from > 0.0
    ensures from * Drop(from, to) == 100.0 * (from - to)
  {
    QuotientTimes(from - to, from);
  }
}
