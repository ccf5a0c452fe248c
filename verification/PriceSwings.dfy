/**
 * Backtests on prices that swing between chosen levels: the crossover of the one-bar and the two-bar
 * average buys one share at each level and sells it at the next.  They show what booking rounded
 * profits can do.
 */
module PriceSwings {
  import opened Wrappers
  import opened Rounding
  import opened Sums
  import opened Indicators
  import opened Signals
  import opened Simulation
  import opened Backtest

  const Crossover := SMACrossover(1, 2)

  // The crossover of one and two bars is a turn of the price.
  function Turn(a: real, b: real, c: real): Signal {
    if b <= a && c > b then Some(Buy)
    else if b >= a && c < b then Some(Sell)
    else None
  }

  lemma SumOfTwo(a: real, b: real)
    ensures Sum([a]) == a && Sum([a, b]) == a + b
  {
    assert [a, b][..1] == [a] && [a][..0] == [];
  }

  lemma ShortAverages(closes: seq<real>, i: nat)
    requires 1 <= i < |closes|
    ensures SmaAt(closes, 1, i) == closes[i]
    ensures SmaAt(closes, 2, i) == (closes[i - 1] + closes[i]) / 2.0
  {
    SumOfTwo(closes[i], 0.0);
    SumOfTwo(closes[i - 1], closes[i]);
    assert closes[i..i + 1] == [closes[i]];
    assert closes[i - 1..i + 1] == [closes[i - 1], closes[i]];
    hide Sum;
    assert WindowSum(closes, 1, i + 1) == closes[i];
    assert WindowSum(closes, 2, i + 1) == closes[i - 1] + closes[i];
  }

  lemma CrossingIsTurn(closes: seq<real>, i: nat)
    requires 2 <= i < |closes| && Positive(closes)
    ensures SmaCrossAt(closes, 1, 2, i) == Turn(closes[i - 2], closes[i - 1], closes[i])
  {
    hide SmaAt;
    ShortAverages(closes, i - 1);
    ShortAverages(closes, i);
  }

  // ----- The prices -----

  // Each round dips to half its level, comes back, peaks and falls to the next level; in the end
  // the price stands still.
  function PriceAt(levels: seq<real>, i: nat): real
    requires levels != []
  {
    var n, k := |levels| - 1, i / 4;
    if k >= n then levels[n]
    else if i % 4 == 1 then levels[k] / 2.0
    else if i % 4 == 3 then levels[k] + levels[k + 1]
    else levels[k]
  }

  function Prices(levels: seq<real>): (closes: seq<real>)
    requires levels != []
    ensures |closes| == 4 * |levels| + 46
  {
    seq(4 * |levels| + 46, i requires i >= 0 => PriceAt(levels, i))
  }

  function Candles(levels: seq<real>): seq<Candle>
    requires levels != []
  {
    seq(4 * |levels| + 46, i requires i >= 0 =>
      Candle(PriceAt(levels, i), PriceAt(levels, i), PriceAt(levels, i)))
  }

  lemma PricesPositive(levels: seq<real>)
    requires levels != [] && Positive(levels)
    ensures Positive(Prices(levels)) && Closes(Candles(levels)) == Prices(levels)
  {
  }

  function SignalIn(rounds: nat, i: nat): Signal {
    if i % 4 == 2 && i < 4 * rounds then Some(Buy)
    else if i % 4 == 0 && 0 < i <= 4 * rounds then Some(Sell)
    else None
  }

  lemma TurnOfPrices(levels: seq<real>, i: nat)
    requires levels != [] && Positive(levels) && i >= 2
    ensures Turn(PriceAt(levels, i - 2), PriceAt(levels, i - 1), PriceAt(levels, i)) == SignalIn(|levels| - 1, i)
  {
    var k, n := i / 4, |levels| - 1;
    assert i == 4 * k + i % 4;
    if i % 4 >= 2 {
      assert (i - 1) / 4 == k && (i - 2) / 4 == k;
    } else if i % 4 == 1 {
      assert (i - 1) / 4 == k && (i - 2) / 4 == k - 1 && (i - 2) % 4 == 3;
    } else {
      assert (i - 1) / 4 == k - 1 && (i - 2) / 4 == k - 1;
    }
  }

  lemma SwingSignals(sqrt: real -> real, levels: seq<real>, i: nat)
    requires levels != [] && Positive(levels) && i < |Prices(levels)|
    ensures SignalsOf(sqrt, Crossover, Candles(levels))[i] == SignalIn(|levels| - 1, i)
  {
    hide SmaCrossAt, Turn, PriceAt;
    PricesPositive(levels);
    if i >= 2 {
      CrossingIsTurn(Prices(levels), i);
      TurnOfPrices(levels, i);
    } else {
      NoSignalYet(Prices(levels), i);
    }
  }

  lemma NoSignalYet(closes: seq<real>, i: nat)
    requires i < 2 && i < |closes|
    ensures SmaCrossAt(closes, 1, 2, i) == None
  {
  }

  // ----- The trades -----

  function RoundTrades(levels: seq<real>, n: nat): (trades: seq<Trade>)
    requires n < |levels| && Positive(Prices(levels))
    ensures |trades| == n
  {
    if n == 0 then []
    else RoundTrades(levels, n - 1) + [MakeTrade(Prices(levels), 4 * n - 2, 4 * n, 1, false)]
  }

  lemma OneShare(price: real)
    requires price > 0.0
    ensures Shares(price, 100.0, price) == 1
  {
    assert price * 100.0 / 100.0 == price;
    QuotientIs(price, price, 1.0);
  }

  lemma ReplayNext(closes: seq<real>, signals: seq<Signal>, capital: real, k: nat, book: Book)
    requires k < |signals| <= |closes| && Positive(closes) && (book.position.Open? ==> book.position.bar < |closes|)
    requires Replay(closes, signals, capital, 100.0, k) == book
    ensures Replay(closes, signals, capital, 100.0, k + 1) == Step(closes, 100.0, book, k, signals[k])
  {
  }

  lemma FlatStart(closes: seq<real>, signals: seq<Signal>, capital: real)
    requires |signals| <= |closes| && Positive(closes)
    ensures Replay(closes, signals, capital, 100.0, 0) == Book(capital, Position.Flat, [])
  {
  }

  // Nothing happens without a signal; a BUY at the capital takes one share, and a SELL closes it.
  lemma Steps(closes: seq<real>, i: nat, j: nat, capital: real, trades: seq<Trade>)
    requires i < |closes| && j < |closes| && Positive(closes)
    ensures Step(closes, 100.0, Book(capital, Position.Flat, trades), i, None) == Book(capital, Position.Flat, trades)
    ensures Step(closes, 100.0, Book(capital, Open(i, 1), trades), j, None) == Book(capital, Open(i, 1), trades)
    ensures capital == closes[i] ==>
              && Step(closes, 100.0, Book(capital, Position.Flat, trades), i, Some(Buy))
                 == Book(capital, Open(i, 1), trades)
              && Step(closes, 100.0, Book(capital, Open(i, 1), trades), j, Some(Sell))
                 == Book(closes[j], Position.Flat, trades + [MakeTrade(closes, i, j, 1, false)])
  {
    hide Shares, MakeTrade;
    OneShare(closes[i]);
  }

  // After k rounds the capital stands at level k.
  ghost predicate AfterRounds(levels: seq<real>, signals: seq<Signal>, k: nat, i: nat)
    requires k < |levels| && Positive(Prices(levels)) && |signals| == |Prices(levels)| && i <= |signals|
  {
    Replay(Prices(levels), signals, levels[0], 100.0, i) == Book(levels[k], Position.Flat, RoundTrades(levels, k))
  }

  ghost predicate AreSwingSignals(levels: seq<real>, signals: seq<Signal>)
    requires levels != []
  {
    |signals| == |Prices(levels)| && forall i :: 0 <= i < |signals| ==> signals[i] == SignalIn(|levels| - 1, i)
  }

  lemma OneRound(levels: seq<real>, signals: seq<Signal>, k: nat)
    requires k + 1 < |levels| && Positive(Prices(levels)) && AreSwingSignals(levels, signals)
    requires AfterRounds(levels, signals, k, 4 * k + 1)
    ensures AfterRounds(levels, signals, k + 1, 4 * k + 5)
  {
    hide Replay, Step, MakeTrade, Prices;
    var closes, b, ts, capital := Prices(levels), 4 * k + 2, RoundTrades(levels, k), levels[0];
    RoundPrices(levels, k);
    Steps(closes, b - 1, b, levels[k], ts);
    Steps(closes, b, b + 1, levels[k], ts);
    Steps(closes, b, b + 2, levels[k], ts);
    ReplayNext(closes, signals, capital, b - 1, Book(levels[k], Position.Flat, ts));
    ReplayNext(closes, signals, capital, b, Book(levels[k], Position.Flat, ts));
    ReplayNext(closes, signals, capital, b + 1, Book(levels[k], Open(b, 1), ts));
    ReplayNext(closes, signals, capital, b + 2, Book(levels[k], Open(b, 1), ts));
  }

  lemma RoundPrices(levels: seq<real>, k: nat)
    requires k + 1 < |levels|
    ensures |Prices(levels)| >= 4 * k + 5
    ensures Prices(levels)[4 * k + 2] == levels[k] && Prices(levels)[4 * k + 4] == levels[k + 1]
  {
    assert (4 * k + 2) / 4 == k && (4 * k + 4) / 4 == k + 1;
  }

  lemma {:induction false} AllRounds(levels: seq<real>, signals: seq<Signal>, k: nat)
    requires k < |levels| && Positive(Prices(levels)) && AreSwingSignals(levels, signals)
    ensures AfterRounds(levels, signals, k, 4 * k + 1)
  {
    hide Replay, Step, AfterRounds, Prices;
    if k == 0 {
      BeforeRounds(levels, signals);
    } else {
      AllRounds(levels, signals, k - 1);
      OneRound(levels, signals, k - 1);
    }
  }

  lemma BeforeRounds(levels: seq<real>, signals: seq<Signal>)
    requires levels != [] && Positive(Prices(levels)) && AreSwingSignals(levels, signals)
    ensures AfterRounds(levels, signals, 0, 1)
  {
    hide Replay, Step, Prices;
    FlatStart(Prices(levels), signals, levels[0]);
    Steps(Prices(levels), 0, 0, levels[0], []);
    ReplayNext(Prices(levels), signals, levels[0], 0, Book(levels[0], Position.Flat, []));
  }

  // The price stands still after the last round.
  lemma {:induction false} StandStill(levels: seq<real>, signals: seq<Signal>, i: nat)
    requires levels != [] && Positive(Prices(levels)) && AreSwingSignals(levels, signals)
    requires 4 * |levels| - 3 <= i <= |signals|
    ensures AfterRounds(levels, signals, |levels| - 1, i)
  {
    hide Replay, Step, Prices;
    var n := |levels| - 1;
    if i == 4 * n + 1 {
      AllRounds(levels, signals, n);
    } else {
      StandStill(levels, signals, i - 1);
      Steps(Prices(levels), i - 1, i - 1, levels[n], RoundTrades(levels, n));
      ReplayNext(Prices(levels), signals, levels[0], i - 1, Book(levels[n], Position.Flat, RoundTrades(levels, n)));
    }
  }

  ghost function TradesAt(sqrt: real -> real, levels: seq<real>): seq<Trade>
    requires levels != [] && Positive(levels)
  {
    PricesPositive(levels);
    TradesFor(sqrt, Crossover, Candles(levels), levels[0], 100.0)
  }

  // The backtest trades once per round, and its exact capital ends at the last level.
  lemma SwingTrades(sqrt: real -> real, levels: seq<real>)
    requires levels != [] && Positive(levels)
    ensures Positive(Prices(levels))
    ensures TradesAt(sqrt, levels) == RoundTrades(levels, |levels| - 1)
    ensures ExactCapital(Prices(levels), levels[0], TradesAt(sqrt, levels)) == levels[|levels| - 1]
  {
    hide Prices, RoundTrades, Candles, PriceAt, ExactCapital, SignalAt;
    PricesPositive(levels);
    var signals, n := SignalsOf(sqrt, Crossover, Candles(levels)), |levels| - 1;
    SwingCount(levels);
    forall i | 0 <= i < |signals| ensures signals[i] == SignalIn(n, i) {
      SwingSignals(sqrt, levels, i);
    }
    StandStill(levels, signals, |signals|);
    ReplayKeepsInv(Prices(levels), signals, levels[0], 100.0, |signals|);
  }

  lemma SwingCount(levels: seq<real>)
    requires levels != []
    ensures |Candles(levels)| == |Prices(levels)| >= 50
  {
  }

  lemma BookedRound(levels: seq<real>, n: nat)
    requires 0 < n < |levels| && Positive(Prices(levels))
    ensures var ts := RoundTrades(levels, n);
            && ts[..n - 1] == RoundTrades(levels, n - 1)
            && ts[n - 1].pnl == Round2(levels[n] - levels[n - 1])
            && BookedCapital(levels[0], ts) == BookedCapital(levels[0], RoundTrades(levels, n - 1)) + ts[n - 1].pnl
  {
    hide Round2, Prices;
    RoundPrices(levels, n - 1);
  }

  // ----- What rounding can do -----

  function GainThenRuin(): seq<real> { [0.016, 10.016, 0.0005] }

  // A backtest whose booked curve dips below zero and on which the loop misses the largest drop: it
  // reports the one from the peak.
  lemma PeakLoopCanUnderstate(sqrt: real -> real)
    ensures Positive(GainThenRuin())
    ensures var curve := EquityCurve(0.016, TradesAt(sqrt, GainThenRuin()));
            && curve == [0.016, 10.016, -0.004]
            && IsMaxDrawdown(curve, Drop(curve[1], curve[2]))
            && Drop(curve[0], curve[2]) > Drop(curve[1], curve[2])
            && !IsPairMaximum(curve, Drop(curve[1], curve[2]))
  {
    var levels := GainThenRuin();
    hide TradesFor, TradesAt, RoundTrades, Round2, EquityCurve, IsMaxDrawdown, IsPairMaximum, Drop, Prices;
    SwingTrades(sqrt, levels);
    BookedRound(levels, 1);
    BookedRound(levels, 2);
    BookedTwice(0.016, RoundTrades(levels, 2));
    BookedProfits();
    DipsBelowZero();
  }

  lemma BookedProfits()
    ensures Round2(10.016 - 0.016) == 10.0 && Round2(0.0005 - 10.016) == -10.02
  {
    RoundHalfAwayIsNearest(1000.0, 1000);
    RoundHalfAwayIsNearest(-1001.55, -1002);
  }

  lemma BookedTwice(capital: real, ts: seq<Trade>)
    requires |ts| == 2
    ensures EquityCurve(capital, ts) == [capital, capital + ts[0].pnl, capital + ts[0].pnl + ts[1].pnl]
  {
    CurveStart(capital);
    CurveStep(capital, ts, 0);
    CurveStep(capital, ts, 1);
    assert ts[..0] == [] && ts[..2] == ts;
  }

  lemma DropToSame(level: real)
    requires level > 0.0
    ensures Drop(level, level) == 0.0
  {
  }

  lemma DipsBelowZero()
    ensures var curve := [0.016, 10.016, -0.004];
            && IsMaxDrawdown(curve, Drop(curve[1], curve[2]))
            && Drop(curve[0], curve[2]) > Drop(curve[1], curve[2])
            && !IsPairMaximum(curve, Drop(curve[1], curve[2]))
  {
    hide Drop, IsMaxDrawdown, IsPeak, IsPairMaximum;
    var curve := [0.016, 10.016, -0.004];
    MaxDrawdownStart(0.016);
    MaxDrawdownStep([0.016], 0.016, 0.0, 10.016);
    DropToSame(10.016);
    assert [0.016] + [10.016] == [0.016, 10.016];
    MaxDrawdownStep([0.016, 10.016], 10.016, 0.0, -0.004);
    DropRange(10.016, -0.004);
    assert [0.016, 10.016] + [-0.004] == curve;
    DropBelowZero(0.016, 10.016, -0.004);
    BetterPair(curve, 1, 2, 0, 2);
  }

  lemma BetterPair(curve: seq<real>, i: int, j: int, p: int, q: int)
    requires IsPair(curve, i, j) && IsPair(curve, p, q) && Drop(curve[p], curve[q]) > Drop(curve[i], curve[j])
    ensures !IsPairMaximum(curve, Drop(curve[i], curve[j]))
  {
    hide Drop;
  }

  // Exact capital never reaches zero, but profits are rounded before they are booked.  Whatever
  // the start, prices that are not whole paise can book a negative equity: two gains of 0.4 paise
  // are booked as nothing, and then nearly the whole capital is lost.
  lemma RoundingCanOverdraw(sqrt: real -> real, capital: real)
    requires capital > 0.0
    ensures Positive(TwoSmallGains(capital)) && Positive(Prices(TwoSmallGains(capital)))
    ensures var ts := TradesAt(sqrt, TwoSmallGains(capital));
            && |ts| == 3
            && ExactCapital(Prices(TwoSmallGains(capital)), capital, ts) > 0.0
            && BookedCapital(capital, ts) < 0.0
  {
    hide TradesFor, TradesAt, RoundTrades, Round2, ExactCapital, Prices;
    var levels := TwoSmallGains(capital);
    SwingTrades(sqrt, levels);
    BookedRound(levels, 1);
    BookedRound(levels, 2);
    BookedRound(levels, 3);
    BookedAsNothing(0.004);
    Round2Sign(0.004);
    Round2Error(0.002 - (capital + 0.008));
    NoRounds(levels);
  }

  function TwoSmallGains(capital: real): seq<real> { [capital, capital + 0.004, capital + 0.008, 0.002] }

  lemma NoRounds(levels: seq<real>)
    requires levels != [] && Positive(Prices(levels))
    ensures RoundTrades(levels, 0) == []
  {
  }

  // One share bought at 1.00 and sold at 1.004 gains, and is counted as a loss.
  lemma GainCountedAsLoss(sqrt: real -> real)
    ensures Positive([1.0, 1.004]) && Positive(Prices([1.0, 1.004]))
    ensures var ts := TradesAt(sqrt, [1.0, 1.004]);
            && |ts| == 1
            && ExactPnL(Prices([1.0, 1.004]), ts[0]) > 0.0 && ts[0].pnlPct > 0.0
            && ts[0].pnl <= 0.0 && Winners(ts) == 0
  {
    hide TradesFor, TradesAt, RoundTrades, MakeTrade, ExactPnL, Winners, Prices;
    SwingTrades(sqrt, [1.0, 1.004]);
    RoundPrices([1.0, 1.004], 0);
    SmallGain(Prices([1.0, 1.004]));
    OneTrade([1.0, 1.004]);
  }

  lemma OneTrade(levels: seq<real>)
    requires |levels| > 1 && Positive(Prices(levels))
    ensures RoundTrades(levels, 1) == [MakeTrade(Prices(levels), 2, 4, 1, false)]
  {
    hide MakeTrade, Prices;
    NoRounds(levels);
  }

  lemma SmallGain(closes: seq<real>)
    requires |closes| > 4 && Positive(closes) && closes[2] == 1.0 && closes[4] == 1.004
    ensures var t := MakeTrade(closes, 2, 4, 1, false);
            t.pnl <= 0.0 && t.pnlPct > 0.0 && ExactPnL(closes, t) > 0.0 && Winners([t]) == 0
  {
  }
}
