/**
 * The trade simulator: one long position at a time, entered on BUY with the whole shares the
 * allocation buys, left on SELL, force-closed at the last candle.  Dates are bar numbers.
 */
module Simulation {
  import opened Wrappers
  import opened Rounding
  import opened Signals

  datatype Trade = Trade(entryBar: nat, exitBar: nat, entryPrice: real, exitPrice: real,
                         quantity: int, pnl: real, pnlPct: real, forced: bool)

  datatype Position = Flat | Open(bar: nat, qty: int)

  datatype Book = Book(capital: real, position: Position, trades: seq<Trade>)

  ghost predicate Positive(closes: seq<real>) {
    forall i :: 0 <= i < |closes| ==> closes[i] > 0.0
  }

  // Go's float-to-int conversion truncates toward zero.
  function Truncate(x: real): int {
    if x >= 0.0 then x.Floor else -(-x).Floor
  }

  function Allocated(capital: real, pct: real): real { capital * pct / 100.0 }

  function WholeShares(amount: real, price: real): int
    requires price > 0.0
  {
    Truncate(amount / price)
  }

  function Shares(capital: real, pct: real, price: real): int
    requires price > 0.0
  {
    WholeShares(Allocated(capital, pct), price)
  }

  function Profit(qty: int, entry: real, exit: real): real { qty as real * (exit - entry) }

  function PnL(closes: seq<real>, entryBar: nat, exitBar: nat, qty: int): real
    requires entryBar < |closes| && exitBar < |closes|
  {
    Profit(qty, closes[entryBar], closes[exitBar])
  }

  function ReturnPct(entry: real, exit: real): real
    requires entry > 0.0
  {
    (exit - entry) / entry * 100.0
  }

  function MakeTrade(closes: seq<real>, entryBar: nat, exitBar: nat, qty: int, forced: bool): Trade
    requires entryBar < |closes| && exitBar < |closes| && closes[entryBar] > 0.0
  {
    var entry, exit := closes[entryBar], closes[exitBar];
    Trade(entryBar, exitBar, Round2(entry), Round2(exit), qty,
          Round2(PnL(closes, entryBar, exitBar, qty)),
          Round2(ReturnPct(entry, exit)), forced)
  }

  // ----- What the loop computes -----

  function Step(closes: seq<real>, pct: real, book: Book, i: nat, signal: Signal): Book
    requires i < |closes| && Positive(closes)
    requires book.position.Open? ==> book.position.bar < |closes|
  {
    match (signal, book.position)
    case (Some(Buy), Flat) =>
      var qty := Shares(book.capital, pct, closes[i]);
      if qty <= 0 then book else book.(position := Open(i, qty))
    case (Some(Sell), Open(bar, qty)) =>
      Book(book.capital + PnL(closes, bar, i, qty), Flat, book.trades + [MakeTrade(closes, bar, i, qty, false)])
    case _ => book
  }

  function Replay(closes: seq<real>, signals: seq<Signal>, capital: real, pct: real, k: nat): (book: Book)
    requires k <= |signals| <= |closes| && Positive(closes)
    ensures book.position.Open? ==> book.position.bar < k
  {
    if k == 0 then Book(capital, Flat, [])
    else Step(closes, pct, Replay(closes, signals, capital, pct, k - 1), k - 1, signals[k - 1])
  }

  function Settle(closes: seq<real>, book: Book): seq<Trade>
    requires Positive(closes)
    requires book.position.Open? ==> book.position.bar < |closes|
  {
    match book.position
    case Flat => book.trades
    case Open(bar, qty) => book.trades + [MakeTrade(closes, bar, |closes| - 1, qty, true)]
  }

  function TradesOf(closes: seq<real>, signals: seq<Signal>, capital: real, pct: real): seq<Trade>
    requires |signals| <= |closes| && Positive(closes)
  {
    Settle(closes, Replay(closes, signals, capital, pct, |signals|))
  }

  method SimulateTrades(closes: seq<real>, signals: seq<Signal>, initialCapital: real, pct: real)
    returns (trades: seq<Trade>)
    requires |signals| <= |closes| && Positive(closes)
    ensures trades == TradesOf(closes, signals, initialCapital, pct)
  {
    hide Allocated, WholeShares, Profit, MakeTrade;
    trades := [];
    var capital := initialCapital;
    var inPosition := false;
    var entryPrice, entryBar, qty := 0.0, 0, 0;
    for i := 0 to |signals|
      invariant inPosition ==> entryBar < i && entryPrice == closes[entryBar]
      invariant Book(capital, if inPosition then Open(entryBar, qty) else Flat, trades)
             == Replay(closes, signals, initialCapital, pct, i)
    {
      if signals[i].None? {
        continue;
      }
      var price := closes[i];
      if signals[i].value.Buy? && !inPosition {
        var allocatedCapital := Allocated(capital, pct);
        var whole := WholeShares(allocatedCapital, price);
        if whole <= 0 {
          continue;
        }
        qty, entryPrice, entryBar, inPosition := whole, price, i, true;
      } else if signals[i].value.Sell? && inPosition {
        var pnl := Profit(qty, entryPrice, price);
        capital := capital + pnl;
        trades := trades + [MakeTrade(closes, entryBar, i, qty, false)];
        inPosition := false;
      }
    }
    if inPosition && |closes| > 0 {
      trades := trades + [MakeTrade(closes, entryBar, |closes| - 1, qty, true)];
    }
  }

  // ----- The trade list is the greedy pairing of the signals -----

  ghost function ExactPnL(closes: seq<real>, t: Trade): real {
    if t.entryBar < |closes| && t.exitBar < |closes| then PnL(closes, t.entryBar, t.exitBar, t.quantity) else 0.0
  }

  // Capital after the given trades, from unrounded profits.
  ghost function ExactCapital(closes: seq<real>, capital: real, trades: seq<Trade>): real {
    if trades == [] then capital
    else ExactCapital(closes, capital, trades[..|trades| - 1]) + ExactPnL(closes, trades[|trades| - 1])
  }

  // A BUY that the capital can act on.
  ghost predicate Enterable(closes: seq<real>, signals: seq<Signal>, capital: real, pct: real, i: nat)
    requires |signals| <= |closes| && Positive(closes)
  {
    i < |signals| && signals[i] == Some(Buy) && Shares(capital, pct, closes[i]) > 0
  }

  ghost function SearchFrom(trades: seq<Trade>, m: nat): nat
    requires m <= |trades|
  {
    if m == 0 then 0 else trades[m - 1].exitBar + 1
  }

  // Trade m enters on the first actionable BUY after the trade before it, for the shares its
  // capital buys, and leaves on the first SELL after that; the forced one never meets a SELL.
  ghost predicate PairedAt(closes: seq<real>, signals: seq<Signal>, capital: real, pct: real,
                           trades: seq<Trade>, m: nat)
    requires |signals| <= |closes| && Positive(closes)
  {
    m < |trades| &&
    var t, from, cash := trades[m], SearchFrom(trades, m), ExactCapital(closes, capital, trades[..m]);
    && from <= t.entryBar < |signals|
    && t.exitBar < |closes|
    && Enterable(closes, signals, cash, pct, t.entryBar)
    && (forall i :: from <= i < t.entryBar ==> !Enterable(closes, signals, cash, pct, i))
    && (if t.forced then
          && m + 1 == |trades|
          && t.exitBar == |closes| - 1
          && (forall i :: t.entryBar < i < |signals| ==> signals[i] != Some(Sell))
        else
          && t.entryBar < t.exitBar < |signals|
          && signals[t.exitBar] == Some(Sell)
          && (forall i :: t.entryBar < i < t.exitBar ==> signals[i] != Some(Sell)))
    && t == MakeTrade(closes, t.entryBar, t.exitBar, Shares(cash, pct, closes[t.entryBar]), t.forced)
  }

  ghost predicate GreedyPairing(closes: seq<real>, signals: seq<Signal>, capital: real, pct: real, trades: seq<Trade>)
    requires |signals| <= |closes| && Positive(closes)
  {
    && (forall m :: 0 <= m < |trades| ==> PairedAt(closes, signals, capital, pct, trades, m))
    && (trades == [] || !trades[|trades| - 1].forced ==>
          forall i :: SearchFrom(trades, |trades|) <= i < |signals| ==>
            !Enterable(closes, signals, ExactCapital(closes, capital, trades), pct, i))
  }

  ghost predicate BookInv(closes: seq<real>, signals: seq<Signal>, capital: real, pct: real, book: Book, k: nat)
    requires k <= |signals| <= |closes| && Positive(closes)
  {
    var ts, from := book.trades, SearchFrom(book.trades, |book.trades|);
    && (forall m :: 0 <= m < |ts| ==> PairedAt(closes, signals, capital, pct, ts, m) && !ts[m].forced)
    && from <= k
    && book.capital == ExactCapital(closes, capital, ts)
    && match book.position
       case Flat => forall i :: from <= i < k ==> !Enterable(closes, signals, book.capital, pct, i)
       case Open(bar, qty) =>
         && from <= bar < k
         && Enterable(closes, signals, book.capital, pct, bar)
         && qty == Shares(book.capital, pct, closes[bar])
         && (forall i :: from <= i < bar ==> !Enterable(closes, signals, book.capital, pct, i))
         && (forall i :: bar < i < k ==> signals[i] != Some(Sell))
  }

  lemma PairedExtend(closes: seq<real>, signals: seq<Signal>, capital: real, pct: real, ts: seq<Trade>, t: Trade)
    requires |signals| <= |closes| && Positive(closes)
    requires forall m :: 0 <= m < |ts| ==> PairedAt(closes, signals, capital, pct, ts, m) && !ts[m].forced
    ensures forall m :: 0 <= m < |ts| ==> PairedAt(closes, signals, capital, pct, ts + [t], m)
    ensures (ts + [t])[..|ts|] == ts
    ensures ExactCapital(closes, capital, ts + [t]) == ExactCapital(closes, capital, ts) + ExactPnL(closes, t)
  {
    var us := ts + [t];
    assert us[..|us| - 1] == ts;
    forall m | 0 <= m < |ts| ensures PairedAt(closes, signals, capital, pct, us, m) {
      assert PairedAt(closes, signals, capital, pct, ts, m) && !ts[m].forced;
      assert us[..m] == ts[..m];
    }
  }

  // Closing an open position, by a SELL or at the end, makes one more paired trade.
  lemma CloseIsPaired(closes: seq<real>, signals: seq<Signal>, capital: real, pct: real,
                      book: Book, k: nat, exitBar: nat, forced: bool)
    requires k <= |signals| <= |closes| && Positive(closes)
    requires BookInv(closes, signals, capital, pct, book, k) && book.position.Open?
    requires exitBar < |closes|
    requires forced ==> exitBar == |closes| - 1 && k == |signals|
    requires !forced ==> exitBar == k < |signals| && signals[k] == Some(Sell)
    ensures PairedAt(closes, signals, capital, pct,
              book.trades + [MakeTrade(closes, book.position.bar, exitBar, book.position.qty, forced)], |book.trades|)
  {
    hide Shares, PnL, ReturnPct, Round2, Enterable;
    var ts := book.trades;
    var us := ts + [MakeTrade(closes, book.position.bar, exitBar, book.position.qty, forced)];
    assert us[..|ts|] == ts;
    assert SearchFrom(us, |ts|) == SearchFrom(ts, |ts|);
  }

  lemma SellKeepsInv(closes: seq<real>, signals: seq<Signal>, capital: real, pct: real, book: Book, k: nat)
    requires k < |signals| <= |closes| && Positive(closes)
    requires BookInv(closes, signals, capital, pct, book, k)
    requires signals[k] == Some(Sell) && book.position.Open?
    ensures BookInv(closes, signals, capital, pct, Step(closes, pct, book, k, signals[k]), k + 1)
  {
    hide Shares, PnL, ReturnPct, Round2, Enterable, PairedAt, ExactCapital;
    CloseIsPaired(closes, signals, capital, pct, book, k, k, false);
    PairedExtend(closes, signals, capital, pct, book.trades,
                 MakeTrade(closes, book.position.bar, k, book.position.qty, false));
  }

  lemma OtherKeepsInv(closes: seq<real>, signals: seq<Signal>, capital: real, pct: real, book: Book, k: nat)
    requires k < |signals| <= |closes| && Positive(closes)
    requires BookInv(closes, signals, capital, pct, book, k)
    requires !(signals[k] == Some(Sell) && book.position.Open?)
    ensures BookInv(closes, signals, capital, pct, Step(closes, pct, book, k, signals[k]), k + 1)
  {
    hide Shares, PnL, MakeTrade, PairedAt;
  }

  lemma StartInv(closes: seq<real>, signals: seq<Signal>, capital: real, pct: real)
    requires |signals| <= |closes| && Positive(closes)
    ensures BookInv(closes, signals, capital, pct, Book(capital, Flat, []), 0)
  {
  }

  lemma {:induction false} ReplayKeepsInv(closes: seq<real>, signals: seq<Signal>, capital: real, pct: real, k: nat)
    requires k <= |signals| <= |closes| && Positive(closes)
    ensures BookInv(closes, signals, capital, pct, Replay(closes, signals, capital, pct, k), k)
  {
    hide BookInv, Step, PairedAt;
    if k == 0 {
      StartInv(closes, signals, capital, pct);
    } else {
      ReplayKeepsInv(closes, signals, capital, pct, k - 1);
      var book := Replay(closes, signals, capital, pct, k - 1);
      if signals[k - 1] == Some(Sell) && book.position.Open? {
        SellKeepsInv(closes, signals, capital, pct, book, k - 1);
      } else {
        OtherKeepsInv(closes, signals, capital, pct, book, k - 1);
      }
    }
  }

  // Any two greedy pairings agree on their first m trades.
  lemma {:induction false} PairingsAgree(closes: seq<real>, signals: seq<Signal>, capital: real, pct: real,
                                         ts: seq<Trade>, us: seq<Trade>, m: nat)
    requires |signals| <= |closes| && Positive(closes)
    requires GreedyPairing(closes, signals, capital, pct, ts)
    requires GreedyPairing(closes, signals, capital, pct, us)
    requires m <= |ts| && m <= |us|
    ensures ts[..m] == us[..m]
  {
    if m > 0 {
      PairingsAgree(closes, signals, capital, pct, ts, us, m - 1);
      var t, u := ts[m - 1], us[m - 1];
      assert m >= 2 ==> ts[m - 2] == ts[..m - 1][m - 2] == us[..m - 1][m - 2] == us[m - 2];
      assert PairedAt(closes, signals, capital, pct, ts, m - 1);
      assert PairedAt(closes, signals, capital, pct, us, m - 1);
      var cash := ExactCapital(closes, capital, ts[..m - 1]);
      assert t.entryBar == u.entryBar by {
        assert Enterable(closes, signals, cash, pct, t.entryBar);
        assert Enterable(closes, signals, cash, pct, u.entryBar);
      }
      assert t == u;
      assert ts[..m] == ts[..m - 1] + [t];
      assert us[..m] == us[..m - 1] + [u];
    }
  }

  lemma PairingNotLonger(closes: seq<real>, signals: seq<Signal>, capital: real, pct: real,
                         ts: seq<Trade>, us: seq<Trade>)
    requires |signals| <= |closes| && Positive(closes)
    requires GreedyPairing(closes, signals, capital, pct, ts)
    requires GreedyPairing(closes, signals, capital, pct, us)
    ensures |us| <= |ts|
  {
    hide Shares, MakeTrade, PnL;
    var m := if |ts| < |us| then |ts| else |us|;
    PairingsAgree(closes, signals, capital, pct, ts, us, m);
    assert ts[..|ts|] == ts;
    assert m > 0 ==> ts[m - 1] == ts[..m][m - 1] == us[m - 1];
    assert PairedAt(closes, signals, capital, pct, us, |ts|) || |us| <= |ts|;
    assert m > 0 ==> PairedAt(closes, signals, capital, pct, us, m - 1);
  }

  // The simulator's trades are the one and only greedy pairing of the signals.
  lemma TradesAreTheGreedyPairing(closes: seq<real>, signals: seq<Signal>, capital: real, pct: real, trades: seq<Trade>)
    requires |signals| <= |closes| && Positive(closes)
    ensures trades == TradesOf(closes, signals, capital, pct)
       <==> GreedyPairing(closes, signals, capital, pct, trades)
  {
    var us := TradesOf(closes, signals, capital, pct);
    TradesPaired(closes, signals, capital, pct);
    if GreedyPairing(closes, signals, capital, pct, trades) {
      hide GreedyPairing, Settle, TradesOf;
      PairingNotLonger(closes, signals, capital, pct, trades, us);
      PairingNotLonger(closes, signals, capital, pct, us, trades);
      PairingsAgree(closes, signals, capital, pct, trades, us, |us|);
      assert trades[..|us|] == trades && us[..|us|] == us;
    }
  }

  lemma TradesPaired(closes: seq<real>, signals: seq<Signal>, capital: real, pct: real)
    requires |signals| <= |closes| && Positive(closes)
    ensures GreedyPairing(closes, signals, capital, pct, TradesOf(closes, signals, capital, pct))
  {
    hide Shares, PnL, ReturnPct, Round2, Enterable, Replay, PairedAt;
    ReplayKeepsInv(closes, signals, capital, pct, |signals|);
    var book := Replay(closes, signals, capital, pct, |signals|);
    if book.position.Open? {
      CloseIsPaired(closes, signals, capital, pct, book, |signals|, |closes| - 1, true);
      PairedExtend(closes, signals, capital, pct, book.trades,
                   MakeTrade(closes, book.position.bar, |closes| - 1, book.position.qty, true));
    }
  }

  // Consequences: trades never overlap, only the last may be forced, exits follow entries.
  lemma {:induction false} TradesDisjoint(
    closes: seq<real>, signals: seq<Signal>, capital: real, pct: real, a: nat, b: nat)
    requires |signals| <= |closes| && Positive(closes)
    requires a < b < |TradesOf(closes, signals, capital, pct)|
    ensures var ts := TradesOf(closes, signals, capital, pct);
            !ts[a].forced && ts[a].entryBar < ts[a].exitBar < ts[b].entryBar
    decreases b
  {
    hide Shares, PnL, MakeTrade, Enterable, TradesOf;
    var ts := TradesOf(closes, signals, capital, pct);
    TradesPaired(closes, signals, capital, pct);
    assert PairedAt(closes, signals, capital, pct, ts, a);
    assert PairedAt(closes, signals, capital, pct, ts, b);
    if a < b - 1 {
      TradesDisjoint(closes, signals, capital, pct, a, b - 1);
      assert PairedAt(closes, signals, capital, pct, ts, b - 1);
    }
  }

  // ----- No lookahead -----

  lemma StepPrefix(closes: seq<real>, pct: real, book: Book, k: nat, i: nat, signal: Signal)
    requires i < k <= |closes| && Positive(closes)
    requires book.position.Open? ==> book.position.bar < k
    ensures Step(closes[..k], pct, book, i, signal) == Step(closes, pct, book, i, signal)
  {
    hide Shares, PnL, MakeTrade;
    assert closes[..k][i] == closes[i];
    if signal == Some(Sell) && book.position.Open? {
      CloseOnPrefix(closes, k, book.position.bar, i, book.position.qty);
    }
  }

  lemma CloseOnPrefix(closes: seq<real>, k: nat, bar: nat, i: nat, qty: int)
    requires i < k <= |closes| && bar < k && Positive(closes)
    ensures PnL(closes[..k], bar, i, qty) == PnL(closes, bar, i, qty)
    ensures MakeTrade(closes[..k], bar, i, qty, false) == MakeTrade(closes, bar, i, qty, false)
  {
    hide Round2;
    assert closes[..k][i] == closes[i] && closes[..k][bar] == closes[bar];
  }

  lemma {:induction false} ReplayPrefix(
    closes: seq<real>, signals: seq<Signal>, capital: real, pct: real, k: nat, j: nat)
    requires j <= k <= |signals| <= |closes| && Positive(closes)
    ensures Replay(closes[..k], signals[..k], capital, pct, j) == Replay(closes, signals, capital, pct, j)
  {
    hide Shares, PnL, Round2, ReturnPct, Step;
    if j > 0 {
      ReplayPrefix(closes, signals, capital, pct, k, j - 1);
      StepPrefix(closes, pct, Replay(closes, signals, capital, pct, j - 1), k, j - 1, signals[j - 1]);
    }
  }

  ghost function SignalClosed(trades: seq<Trade>): seq<Trade> {
    if trades != [] && trades[|trades| - 1].forced then trades[..|trades| - 1] else trades
  }

  // What later bars can do to the book of bar j: add trades; an open position stays as entered
  // until it becomes the next trade.
  ghost predicate Continues(closes: seq<real>, early: Book, late: Book)
    requires Positive(closes)
    requires early.position.Open? ==> early.position.bar < |closes|
  {
    && early.trades <= late.trades
    && (early.position.Open? && late.trades == early.trades ==> late.position == early.position)
    && (early.position.Open? && late.trades != early.trades ==>
          && |early.trades| < |late.trades|
          && var t := late.trades[|early.trades|];
             t.entryBar == early.position.bar && t.quantity == early.position.qty
             && t.entryPrice == Round2(closes[t.entryBar]))
  }

  lemma {:induction false} ReplayContinues(
    closes: seq<real>, signals: seq<Signal>, capital: real, pct: real, j: nat, k: nat)
    requires j <= k <= |signals| <= |closes| && Positive(closes)
    ensures Continues(closes, Replay(closes, signals, capital, pct, j), Replay(closes, signals, capital, pct, k))
    decreases k
  {
    if j < k { ReplayContinues(closes, signals, capital, pct, j, k - 1); }
  }

  lemma SignalClosedIsReplay(closes: seq<real>, signals: seq<Signal>, capital: real, pct: real)
    requires |signals| <= |closes| && Positive(closes)
    ensures SignalClosed(TradesOf(closes, signals, capital, pct))
         == Replay(closes, signals, capital, pct, |signals|).trades
  {
    ReplayKeepsInv(closes, signals, capital, pct, |signals|);
    var book := Replay(closes, signals, capital, pct, |signals|);
    if book.position.Open? {
      assert TradesOf(closes, signals, capital, pct)[..|book.trades|] == book.trades;
    }
  }

  // The signal-closed trades of the first k bars begin those of the whole series, and a position
  // the prefix had to force-close is, in the whole series, the next trade with the same entry.
  lemma SimulationCausal(closes: seq<real>, signals: seq<Signal>, capital: real, pct: real, k: nat)
    requires k <= |signals| <= |closes| && Positive(closes)
    ensures var early := TradesOf(closes[..k], signals[..k], capital, pct);
            var late := TradesOf(closes, signals, capital, pct);
            && SignalClosed(early) <= SignalClosed(late)
            && (SignalClosed(early) != early ==>
                  && |early| <= |late|
                  && late[|early| - 1].entryBar == early[|early| - 1].entryBar
                  && late[|early| - 1].entryPrice == early[|early| - 1].entryPrice
                  && late[|early| - 1].quantity == early[|early| - 1].quantity)
  {
    ReplayPrefix(closes, signals, capital, pct, k, k);
    SignalClosedIsReplay(closes[..k], signals[..k], capital, pct);
    SignalClosedIsReplay(closes, signals, capital, pct);
    ReplayContinues(closes, signals, capital, pct, k, |signals|);
  }

  // ----- Solvency -----

  lemma SharesAffordable(capital: real, pct: real, price: real)
    requires capital > 0.0 && 0.0 < pct <= 100.0 && price > 0.0
    ensures Shares(capital, pct, price) >= 0
    ensures Shares(capital, pct, price) as real * price <= capital
  {
  }

  lemma PnLKeepsSolvent(closes: seq<real>, entryBar: nat, exitBar: nat, qty: int, capital: real)
    requires entryBar < |closes| && exitBar < |closes| && Positive(closes)
    requires qty > 0 && qty as real * closes[entryBar] <= capital
    ensures capital + PnL(closes, entryBar, exitBar, qty) > 0.0
  {
  }

  // With positive prices and capital and a size in (0, 100], every entry is covered by the capital
  // of its moment and capital stays positive after every trade, the forced one included.
  lemma {:induction false} Solvent(closes: seq<real>, signals: seq<Signal>, capital: real, pct: real, m: nat)
    requires |signals| <= |closes| && Positive(closes)
    requires capital > 0.0 && 0.0 < pct <= 100.0
    requires m <= |TradesOf(closes, signals, capital, pct)|
    ensures var ts := TradesOf(closes, signals, capital, pct);
            && ExactCapital(closes, capital, ts[..m]) > 0.0
            && (m < |ts| ==>
                  && ts[m].entryBar < |closes|
                  && ts[m].quantity > 0
                  && ts[m].quantity as real * closes[ts[m].entryBar] <= ExactCapital(closes, capital, ts[..m]))
  {
    hide Shares, PnL, TradesOf, ExactCapital, ExactPnL, MakeTrade;
    var ts := TradesOf(closes, signals, capital, pct);
    if m == 0 {
      ExactStart(closes, capital, ts);
    } else {
      Solvent(closes, signals, capital, pct, m - 1);
      TradesPaired(closes, signals, capital, pct);
      assert PairedAt(closes, signals, capital, pct, ts, m - 1);
      ExactNext(closes, capital, ts, m - 1);
      var t := ts[m - 1];
      PnLKeepsSolvent(closes, t.entryBar, t.exitBar, t.quantity, ExactCapital(closes, capital, ts[..m - 1]));
    }
    if m < |ts| {
      EntryAffordable(closes, signals, capital, pct, m);
    }
  }

  lemma EntryAffordable(closes: seq<real>, signals: seq<Signal>, capital: real, pct: real, m: nat)
    requires |signals| <= |closes| && Positive(closes) && 0.0 < pct <= 100.0
    requires m < |TradesOf(closes, signals, capital, pct)|
    requires ExactCapital(closes, capital, TradesOf(closes, signals, capital, pct)[..m]) > 0.0
    ensures var t := TradesOf(closes, signals, capital, pct)[m];
            && t.entryBar < |closes| && t.quantity > 0
            && t.quantity as real * closes[t.entryBar]
               <= ExactCapital(closes, capital, TradesOf(closes, signals, capital, pct)[..m])
  {
    hide Shares, PnL, TradesOf, ExactCapital, Round2, ReturnPct;
    var ts := TradesOf(closes, signals, capital, pct);
    TradesPaired(closes, signals, capital, pct);
    assert PairedAt(closes, signals, capital, pct, ts, m);
    SharesAffordable(ExactCapital(closes, capital, ts[..m]), pct, closes[ts[m].entryBar]);
  }

  lemma ExactStart(closes: seq<real>, capital: real, ts: seq<Trade>)
    ensures ExactCapital(closes, capital, ts[..0]) == capital
  {
  }

  lemma ExactNext(closes: seq<real>, capital: real, ts: seq<Trade>, m: nat)
    requires m < |ts| && ts[m].entryBar < |closes| && ts[m].exitBar < |closes|
    ensures ExactCapital(closes, capital, ts[..m + 1])
              == ExactCapital(closes, capital, ts[..m]) + PnL(closes, ts[m].entryBar, ts[m].exitBar, ts[m].quantity)
  {
    assert ts[..m + 1][..m] == ts[..m];
  }

  // ----- Rounding drift -----

  // Capital rebuilt from the rounded profits in the trade list.
  function BookedCapital(capital: real, trades: seq<Trade>): real {
    if trades == [] then capital
    else BookedCapital(capital, trades[..|trades| - 1]) + trades[|trades| - 1].pnl
  }

  lemma {:induction false} DriftBounded(closes: seq<real>, signals: seq<Signal>, capital: real, pct: real, m: nat)
    requires |signals| <= |closes| && Positive(closes)
    requires m <= |TradesOf(closes, signals, capital, pct)|
    ensures var ts := TradesOf(closes, signals, capital, pct)[..m];
            -0.005 * m as real <= BookedCapital(capital, ts) - ExactCapital(closes, capital, ts) <= 0.005 * m as real
  {
    var ts := TradesOf(closes, signals, capital, pct);
    if m > 0 {
      DriftBounded(closes, signals, capital, pct, m - 1);
      TradesPaired(closes, signals, capital, pct);
      assert PairedAt(closes, signals, capital, pct, ts, m - 1);
      assert ts[..m][..m - 1] == ts[..m - 1];
      Round2Error(ExactPnL(closes, ts[m - 1]));
    }
  }

  // Prices quoted in whole paise make every profit a whole number of paise, so nothing drifts.
  ghost predicate WholePaise(closes: seq<real>) {
    forall i :: 0 <= i < |closes| ==> IsHundredths(closes[i])
  }

  lemma PaisePnL(closes: seq<real>, entryBar: nat, exitBar: nat, qty: int)
    requires entryBar < |closes| && exitBar < |closes| && WholePaise(closes)
    ensures Round2(PnL(closes, entryBar, exitBar, qty)) == PnL(closes, entryBar, exitBar, qty)
  {
    var a, b := (100.0 * closes[entryBar]).Floor, (100.0 * closes[exitBar]).Floor;
    var whole := qty * (b - a);
    assert IsHundredths(closes[entryBar]) && IsHundredths(closes[exitBar]);
    assert closes[exitBar] - closes[entryBar] == (b - a) as real / 100.0;
    assert qty as real * ((b - a) as real / 100.0) == whole as real / 100.0 by {
      assert qty as real * (b - a) as real == whole as real;
    }
    HundredthsOf(PnL(closes, entryBar, exitBar, qty), whole);
    Round2Fixed(PnL(closes, entryBar, exitBar, qty));
  }

  lemma {:induction false} PaiseNoDrift(closes: seq<real>, signals: seq<Signal>, capital: real, pct: real, m: nat)
    requires |signals| <= |closes| && Positive(closes) && WholePaise(closes)
    requires m <= |TradesOf(closes, signals, capital, pct)|
    ensures var ts := TradesOf(closes, signals, capital, pct)[..m];
            BookedCapital(capital, ts) == ExactCapital(closes, capital, ts)
  {
    var ts := TradesOf(closes, signals, capital, pct);
    if m > 0 {
      PaiseNoDrift(closes, signals, capital, pct, m - 1);
      TradesPaired(closes, signals, capital, pct);
      assert PairedAt(closes, signals, capital, pct, ts, m - 1);
      assert ts[..m][..m - 1] == ts[..m - 1];
      PaisePnL(closes, ts[m - 1].entryBar, ts[m - 1].exitBar, ts[m - 1].quantity);
    }
  }
}
