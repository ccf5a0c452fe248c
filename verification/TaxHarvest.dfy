/** Tax-loss analysis: gain and loss buckets, netted tax estimates, harvest candidates. */
module TaxHarvest {
  import opened Holdings
  import opened Rounding
  import opened Sums
  import opened Sorting

  const LTCG_RATE := 0.125
  const LTCG_EXEMPTION := 125000.0
  const STCG_RATE := 0.2
  const APPROACHING_DAYS := 30

  datatype Entry = Entry(
    symbol: string,
    quantity: int,
    averagePrice: real,
    lastPrice: real,
    investedValue: real,
    currentValue: real,
    unrealizedPnl: real,
    unrealizedPct: real,
    holdingDays: int,
    holdingPeriod: string,
    taxRate: real,
    estimatedTax: real,
    harvestable: bool,
    taxSavings: real,
    approaching: bool)

  datatype Summary = Summary(
    holdingsCount: nat,
    totalInvested: real,
    totalCurrent: real,
    totalPnl: real,
    totalGain: real,
    totalLoss: real,
    ltcgGains: real,
    ltcgLosses: real,
    ltcgTax: real,
    stcgGains: real,
    stcgLosses: real,
    stcgTax: real,
    totalHarvestable: real,
    totalTaxSavings: real,
    harvestCount: nat,
    approachingCount: nat,
    assumedDays: int)

  datatype Response = Response(
    summary: Summary,
    candidates: seq<Entry>,
    approaching: seq<Entry>,
    allHoldings: seq<Entry>)

  // ----- One holding -----

  function Pnl(h: Holding): real { CurrentValue(h) - InvestedValue(h) }

  function DaysHeld(assumeDays: int): int { if assumeDays > 0 then assumeDays else 0 }

  predicate IsLongTerm(days: int) { days > 365 }

  predicate IsApproaching(days: int) {
    !IsLongTerm(days) && days >= 0 && 365 - days <= APPROACHING_DAYS && 365 - days > 0
  }

  function Rate(longTerm: bool): real { if longTerm then LTCG_RATE else STCG_RATE }

  function EstimatedTax(pnl: real, rate: real): real {
    if pnl > 0.0 then Round2(pnl * rate) else 0.0
  }

  function TaxSavings(pnl: real, rate: real): real {
    if pnl < 0.0 then Round2((0.0 - pnl) * rate) else 0.0
  }

  function EntryOf(h: Holding, assumeDays: int): Entry {
    var days, pnl := DaysHeld(assumeDays), Pnl(h);
    var rate := Rate(IsLongTerm(days));
    Entry(
      h.symbol, h.quantity, Round2(h.averagePrice), Round2(h.lastPrice),
      Round2(InvestedValue(h)), Round2(CurrentValue(h)), Round2(pnl),
      if InvestedValue(h) != 0.0 then Round2(pnl / InvestedValue(h) * 100.0) else 0.0,
      days, if IsLongTerm(days) then "LTCG" else "STCG", rate,
      EstimatedTax(pnl, rate), pnl < 0.0, TaxSavings(pnl, rate), IsApproaching(days))
  }

  // The assumed period decides everything: more than 365 days is long term, 335 to 364 is
  // approaching, and 365 itself is neither.  "Unknown" is never reported.
  lemma HoldingPeriods(h: Holding, assumeDays: int)
    ensures EntryOf(h, assumeDays).holdingPeriod == "LTCG" <==> assumeDays > 365
    ensures EntryOf(h, assumeDays).approaching <==> 335 <= assumeDays < 365
    ensures EntryOf(h, assumeDays).holdingPeriod in {"LTCG", "STCG"}
    ensures EntryOf(h, assumeDays).holdingDays >= 0
  {
  }

  // ----- Gains and losses -----

  function GainOf(h: Holding): real { if Pnl(h) >= 0.0 then Pnl(h) else 0.0 }

  function LossOf(h: Holding): real { if Pnl(h) >= 0.0 then 0.0 else Pnl(h) }

  ghost function Total(f: Holding -> real, holdings: seq<Holding>): real { Sum(Map(f, holdings)) }

  // Gains and losses add up to current value less invested value.
  lemma {:induction false} GainsAndLosses(holdings: seq<Holding>)
    ensures Total(GainOf, holdings) + Total(LossOf, holdings) == Total(Pnl, holdings)
    ensures Total(Pnl, holdings) == Total(CurrentValue, holdings) - Total(InvestedValue, holdings)
    ensures Total(GainOf, holdings) >= 0.0 >= Total(LossOf, holdings)
  {
    hide Sum, CurrentValue, InvestedValue;
    if holdings == [] {
      NoTotal(GainOf);
      NoTotal(LossOf);
      NoTotal(Pnl);
      NoTotal(CurrentValue);
      NoTotal(InvestedValue);
    } else {
      var front, last := holdings[..|holdings| - 1], holdings[|holdings| - 1];
      assert holdings == front + [last];
      GainsAndLosses(front);
      SumMapAppend(GainOf, front, last);
      SumMapAppend(LossOf, front, last);
      SumMapAppend(Pnl, front, last);
      SumMapAppend(CurrentValue, front, last);
      SumMapAppend(InvestedValue, front, last);
    }
  }

  lemma NoTotal(f: Holding -> real)
    ensures Total(f, []) == 0.0
  {
  }

  // ----- Filtering -----

  function Filter<T>(keep: T -> bool, s: seq<T>): (r: seq<T>)
    ensures |r| <= |s|
  {
    if s == [] then []
    else
      Filter(keep, s[..|s| - 1]) + if keep(s[|s| - 1]) then [s[|s| - 1]] else []
  }

  // Nothing that should be kept is dropped, nothing else is kept, and nothing is repeated.
  lemma {:induction false} FilterIsExact<T>(keep: T -> bool, s: seq<T>, x: T)
    ensures multiset(Filter(keep, s))[x] == if keep(x) then multiset(s)[x] else 0
  {
    if s != [] {
      FilterIsExact(keep, s[..|s| - 1], x);
      assert s == s[..|s| - 1] + [s[|s| - 1]];
    }
  }

  method Select<T>(keep: T -> bool, s: seq<T>) returns (r: seq<T>)
    ensures r == Filter(keep, s)
  {
    r := [];
    for i := 0 to |s|
      invariant r == Filter(keep, s[..i])
    {
      assert s[..i + 1][..i] == s[..i];
      if keep(s[i]) {
        r := r + [s[i]];
      }
    }
    assert s[..|s|] == s;
  }

  function Harvestable(e: Entry): bool { e.harvestable }

  function Approaching(e: Entry): bool { e.approaching }

  function SavingsOf(e: Entry): real { e.taxSavings }

  function EstimateOf(e: Entry): real { e.estimatedTax }

  function DaysOf(e: Entry): real { e.holdingDays as real }

  // ----- The summary -----

  function LtcgTax(net: real): real {
    if net > LTCG_EXEMPTION then Round2((net - LTCG_EXEMPTION) * LTCG_RATE) else 0.0
  }

  function StcgTax(net: real): real {
    if net > 0.0 then Round2(net * STCG_RATE) else 0.0
  }

  ghost predicate EntriesFor(entries: seq<Entry>, holdings: seq<Holding>, assumeDays: int) {
    |entries| == |holdings| && forall i :: 0 <= i < |holdings| ==> entries[i] == EntryOf(holdings[i], assumeDays)
  }

  // Unrounded running totals.
  datatype Tally = Tally(
    invested: real,
    current: real,
    gain: real,
    loss: real,
    ltcgGains: real,
    ltcgLosses: real,
    stcgGains: real,
    stcgLosses: real,
    harvestable: real,
    savings: real,
    harvestCount: nat,
    approachingCount: nat)

  // The totals after these holdings: the pair of buckets of the other period stays empty, and the
  // harvestable total is the total loss.
  ghost predicate Tallied(t: Tally, holdings: seq<Holding>, entries: seq<Entry>, assumeDays: int) {
    var gain, loss := Total(GainOf, holdings), Total(LossOf, holdings);
    && t.invested == Total(InvestedValue, holdings)
    && t.current == Total(CurrentValue, holdings)
    && t.gain == gain
    && t.loss == loss == t.harvestable
    && (if assumeDays > 365
        then t.ltcgGains == gain && t.ltcgLosses == loss && t.stcgGains == 0.0 && t.stcgLosses == 0.0
        else t.stcgGains == gain && t.stcgLosses == loss && t.ltcgGains == 0.0 && t.ltcgLosses == 0.0)
    && t.savings == Sum(Map(SavingsOf, entries))
    && t.harvestCount == |Filter(Harvestable, entries)|
    && t.approachingCount == |Filter(Approaching, entries)|
  }

  // The four buckets of a tally add up to current value less invested value.
  lemma BucketsConserve(t: Tally, holdings: seq<Holding>, entries: seq<Entry>, assumeDays: int)
    requires Tallied(t, holdings, entries, assumeDays)
    ensures t.ltcgGains + t.ltcgLosses + t.stcgGains + t.stcgLosses == t.current - t.invested
    ensures t.stcgLosses <= 0.0 <= t.stcgGains && t.ltcgLosses <= 0.0 <= t.ltcgGains
    ensures (t.ltcgGains == 0.0 && t.ltcgLosses == 0.0) || (t.stcgGains == 0.0 && t.stcgLosses == 0.0)
  {
    GainsAndLosses(holdings);
  }

  // What one holding adds to the totals.
  ghost predicate Counts(t: Tally, r: Tally, h: Holding, e: Entry, assumeDays: int) {
    && r.invested == t.invested + InvestedValue(h)
    && r.current == t.current + CurrentValue(h)
    && r.gain == t.gain + GainOf(h)
    && r.loss == t.loss + LossOf(h)
    && r.harvestable == t.harvestable + LossOf(h)
    && (if assumeDays > 365
        then
          && r.ltcgGains == t.ltcgGains + GainOf(h) && r.ltcgLosses == t.ltcgLosses + LossOf(h)
          && r.stcgGains == t.stcgGains && r.stcgLosses == t.stcgLosses
        else
          && r.stcgGains == t.stcgGains + GainOf(h) && r.stcgLosses == t.stcgLosses + LossOf(h)
          && r.ltcgGains == t.ltcgGains && r.ltcgLosses == t.ltcgLosses)
    && r.savings == t.savings + e.taxSavings
    && r.harvestCount == t.harvestCount + (if e.harvestable then 1 else 0)
    && r.approachingCount == t.approachingCount + (if e.approaching then 1 else 0)
  }

  // One turn of the accumulating loop.
  method Accumulate(t: Tally, h: Holding, assumeDays: int) returns (r: Tally, e: Entry)
    ensures e == EntryOf(h, assumeDays)
    ensures Counts(t, r, h, e, assumeDays)
  {
    hide Round2, CurrentValue, InvestedValue;
    var invested, current := InvestedValue(h), CurrentValue(h);
    var pnl := current - invested;
    var pnlPct := 0.0;
    if invested != 0.0 {
      pnlPct := Round2(pnl / invested * 100.0);
    }
    r := t.(invested := t.invested + invested, current := t.current + current);
    if pnl >= 0.0 {
      r := r.(gain := r.gain + pnl);
    } else {
      r := r.(loss := r.loss + pnl);
    }
    var days := 0;
    if assumeDays > 0 {
      days := assumeDays;
    }
    var longTerm := days > 365;
    var period := if longTerm then "LTCG" else "STCG";
    var approaching := !longTerm && days >= 0 && 365 - days <= APPROACHING_DAYS && 365 - days > 0;
    var rate := if longTerm then LTCG_RATE else STCG_RATE;
    var estimatedTax := 0.0;
    if pnl > 0.0 {
      estimatedTax := Round2(pnl * rate);
    }
    var harvestable, savings := pnl < 0.0, 0.0;
    if harvestable {
      savings := Round2((0.0 - pnl) * rate);
    }
    if longTerm {
      if pnl >= 0.0 {
        r := r.(ltcgGains := r.ltcgGains + pnl);
      } else {
        r := r.(ltcgLosses := r.ltcgLosses + pnl);
      }
    } else {
      if pnl >= 0.0 {
        r := r.(stcgGains := r.stcgGains + pnl);
      } else {
        r := r.(stcgLosses := r.stcgLosses + pnl);
      }
    }
    if harvestable {
      r := r.(harvestable := r.harvestable + pnl,
              savings := r.savings + savings,
              harvestCount := r.harvestCount + 1);
    }
    if approaching {
      r := r.(approachingCount := r.approachingCount + 1);
    }
    e := Entry(
      h.symbol, h.quantity, Round2(h.averagePrice), Round2(h.lastPrice), Round2(invested), Round2(current),
      Round2(pnl), pnlPct, days, period, rate, estimatedTax, harvestable, savings, approaching);
  }

  lemma TalliedStep(
    t: Tally, r: Tally, holdings: seq<Holding>, h: Holding, entries: seq<Entry>, e: Entry, assumeDays: int)
    requires Tallied(t, holdings, entries, assumeDays)
    requires Counts(t, r, h, e, assumeDays)
    ensures Tallied(r, holdings + [h], entries + [e], assumeDays)
  {
    hide Sum, CurrentValue, InvestedValue, GainOf, LossOf;
    SumMapAppend(InvestedValue, holdings, h);
    SumMapAppend(CurrentValue, holdings, h);
    SumMapAppend(GainOf, holdings, h);
    SumMapAppend(LossOf, holdings, h);
    SumMapAppend(SavingsOf, entries, e);
    assert (entries + [e])[..|entries|] == entries;
  }

  // What the lists of the response hold: every holding's line, the losing ones by savings, and
  // those close to the long-term mark by days held.
  ghost predicate ListsFor(r: Response, holdings: seq<Holding>, assumeDays: int) {
    && EntriesFor(r.allHoldings, holdings, assumeDays)
    && multiset(r.candidates) == multiset(Filter(Harvestable, r.allHoldings))
    && Descending(Map(SavingsOf, r.candidates))
    && multiset(r.approaching) == multiset(Filter(Approaching, r.allHoldings))
    && Descending(Map(DaysOf, r.approaching))
  }

  ghost predicate SummaryFor(s: Summary, holdings: seq<Holding>, entries: seq<Entry>, assumeDays: int) {
    var gain, loss := Total(GainOf, holdings), Total(LossOf, holdings);
    var longTerm := assumeDays > 365;
    && s.holdingsCount == |holdings|
    && s.totalInvested == Round2(Total(InvestedValue, holdings))
    && s.totalCurrent == Round2(Total(CurrentValue, holdings))
    && s.totalPnl == Round2(Total(Pnl, holdings))
    && s.totalGain == Round2(gain)
    && s.totalLoss == s.totalHarvestable == Round2(loss)
    && s.ltcgGains == Round2(if longTerm then gain else 0.0)
    && s.ltcgLosses == Round2(if longTerm then loss else 0.0)
    && s.stcgGains == Round2(if longTerm then 0.0 else gain)
    && s.stcgLosses == Round2(if longTerm then 0.0 else loss)
    && s.ltcgTax == LtcgTax(if longTerm then Total(Pnl, holdings) else 0.0)
    && s.stcgTax == StcgTax(if longTerm then 0.0 else Total(Pnl, holdings))
    && s.totalTaxSavings == Round2(Sum(Map(SavingsOf, entries)))
    && s.harvestCount == |Filter(Harvestable, entries)|
    && s.approachingCount == |Filter(Approaching, entries)|
    && s.assumedDays == assumeDays
  }

  ghost predicate Describes(r: Response, holdings: seq<Holding>, assumeDays: int) {
    ListsFor(r, holdings, assumeDays) && SummaryFor(r.summary, holdings, r.allHoldings, assumeDays)
  }

  method TallyHoldings(holdings: seq<Holding>, assumeDays: int) returns (t: Tally, entries: seq<Entry>)
    ensures EntriesFor(entries, holdings, assumeDays)
    ensures Tallied(t, holdings, entries, assumeDays)
  {
    hide Tallied, EntryOf;
    t, entries := Tally(0.0, 0.0, 0.0, 0.0, 0.0, 0.0, 0.0, 0.0, 0.0, 0.0, 0, 0), [];
    NothingTallied(t, assumeDays);
    for i := 0 to |holdings|
      invariant EntriesFor(entries, holdings[..i], assumeDays)
      invariant Tallied(t, holdings[..i], entries, assumeDays)
    {
      var next, e := Accumulate(t, holdings[i], assumeDays);
      TalliedStep(t, next, holdings[..i], holdings[i], entries, e, assumeDays);
      assert holdings[..i + 1] == holdings[..i] + [holdings[i]];
      t, entries := next, entries + [e];
    }
    assert holdings[..|holdings|] == holdings;
  }

  // The totals, rounded, with the tax on each net gain.
  method Summarise(t: Tally, holdings: seq<Holding>, entries: seq<Entry>, assumeDays: int) returns (s: Summary)
    requires Tallied(t, holdings, entries, assumeDays)
    ensures SummaryFor(s, holdings, entries, assumeDays)
  {
    hide Total, Round2, Sum;
    GainsAndLosses(holdings);
    var netLtcg := t.ltcgGains + t.ltcgLosses;
    var ltcgTax := 0.0;
    if netLtcg > LTCG_EXEMPTION {
      ltcgTax := Round2((netLtcg - LTCG_EXEMPTION) * LTCG_RATE);
    }
    var netStcg := t.stcgGains + t.stcgLosses;
    var stcgTax := 0.0;
    if netStcg > 0.0 {
      stcgTax := Round2(netStcg * STCG_RATE);
    }
    s := Summary(
      |holdings|, Round2(t.invested), Round2(t.current), Round2(t.current - t.invested),
      Round2(t.gain), Round2(t.loss), Round2(t.ltcgGains), Round2(t.ltcgLosses), ltcgTax,
      Round2(t.stcgGains), Round2(t.stcgLosses), stcgTax, Round2(t.harvestable), Round2(t.savings),
      t.harvestCount, t.approachingCount, assumeDays);
  }

  method ComputeTaxHarvest(holdings: seq<Holding>, assumeDays: int) returns (r: Response)
    ensures Describes(r, holdings, assumeDays)
  {
    hide Tallied, EntriesFor, SummaryFor, Filter, Map;
    var t, entries := TallyHoldings(holdings, assumeDays);
    var summary := Summarise(t, holdings, entries, assumeDays);
    var candidates := Select(Harvestable, entries);
    candidates := SortDescending(SavingsOf, candidates);
    var approaching := Select(Approaching, entries);
    approaching := SortDescending(DaysOf, approaching);
    r := Response(summary, candidates, approaching, entries);
  }

  lemma NothingTallied(t: Tally, assumeDays: int)
    requires t == Tally(0.0, 0.0, 0.0, 0.0, 0.0, 0.0, 0.0, 0.0, 0.0, 0.0, 0, 0)
    ensures Tallied(t, [], [], assumeDays)
  {
  }

  // ----- Netted tax against per-holding figures -----

  function Max(x: real, y: real): real { if x >= y then x else y }

  // What the per-holding lines add up to: estimated tax less potential savings.
  ghost function LineTotal(entries: seq<Entry>): real {
    Sum(Map(EstimateOf, entries)) - Sum(Map(SavingsOf, entries))
  }

  lemma LineError(pnl: real, rate: real)
    requires rate > 0.0
    ensures -0.005 <= EstimatedTax(pnl, rate) - TaxSavings(pnl, rate) - rate * pnl <= 0.005
  {
  }

  lemma ErrorArithmetic(rate: real, lines: real, pnls: real, line: real, pnl: real, n: real)
    requires -0.005 * n <= lines - rate * pnls <= 0.005 * n
    requires -0.005 <= line - rate * pnl <= 0.005
    ensures -0.005 * (n + 1.0) <= (lines + line) - rate * (pnls + pnl) <= 0.005 * (n + 1.0)
  {
  }

  lemma LineTotalAppend(entries: seq<Entry>, e: Entry)
    ensures LineTotal(entries + [e]) == LineTotal(entries) + (e.estimatedTax - e.taxSavings)
  {
    SumMapAppend(EstimateOf, entries, e);
    SumMapAppend(SavingsOf, entries, e);
  }

  lemma {:induction false} LineTotalError(entries: seq<Entry>, holdings: seq<Holding>, assumeDays: int)
    requires EntriesFor(entries, holdings, assumeDays)
    ensures -0.005 * |holdings| as real
              <= LineTotal(entries) - Rate(assumeDays > 365) * Total(Pnl, holdings)
              <= 0.005 * |holdings| as real
  {
    hide Sum, Round2, Pnl, EstimatedTax, TaxSavings, Rate, LineTotal, Map;
    var rate := Rate(assumeDays > 365);
    if holdings == [] {
      NoTotal(Pnl);
      NoLines();
      assert entries == [] && rate * 0.0 == 0.0;
    } else {
      var n := |holdings| - 1;
      var front, h, lines, e := holdings[..n], holdings[n], entries[..n], entries[n];
      assert holdings == front + [h] && entries == lines + [e];
      LineTotalError(lines, front, assumeDays);
      SumMapAppend(Pnl, front, h);
      LineTotalAppend(lines, e);
      RatePositive(assumeDays > 365);
      LineError(Pnl(h), rate);
      ErrorArithmetic(rate, LineTotal(lines), Total(Pnl, front), e.estimatedTax - e.taxSavings, Pnl(h), n as real);
      assert |holdings| as real == n as real + 1.0;
    }
  }

  lemma NoLines()
    ensures LineTotal([]) == 0.0
  {
  }

  lemma RatePositive(longTerm: bool)
    ensures Rate(longTerm) > 0.0
  {
  }

  // The netted short-term tax is the per-holding estimates less the savings, never below zero, and
  // the long-term one the same after the exemption's worth of tax; each rounding adds half a paisa.
  lemma NettedTax(r: Response, holdings: seq<Holding>, assumeDays: int)
    requires Describes(r, holdings, assumeDays)
    ensures assumeDays <= 365 ==> r.summary.ltcgTax == 0.0
    ensures assumeDays <= 365 ==>
              -0.005 * (|holdings| + 1) as real
                <= r.summary.stcgTax - Max(0.0, LineTotal(r.allHoldings))
                <= 0.005 * (|holdings| + 1) as real
    ensures assumeDays > 365 ==> r.summary.stcgTax == 0.0
    ensures assumeDays > 365 ==>
              -0.005 * (|holdings| + 1) as real
                <= r.summary.ltcgTax - Max(0.0, LineTotal(r.allHoldings) - LTCG_RATE * LTCG_EXEMPTION)
                <= 0.005 * (|holdings| + 1) as real
  {
    hide Sum, Round2, Total, LineTotal, EntriesFor, Filter, Map;
    var net := Total(Pnl, holdings);
    LineTotalError(r.allHoldings, holdings, assumeDays);
    Round2Error(net * STCG_RATE);
    Round2Error((net - LTCG_EXEMPTION) * LTCG_RATE);
  }

  // No k harvestable holdings save more than the first k candidates.
  lemma BestCandidatesFirst(r: Response, holdings: seq<Holding>, assumeDays: int, picked: seq<Entry>)
    requires ListsFor(r, holdings, assumeDays)
    requires multiset(picked) <= multiset(Filter(Harvestable, r.allHoldings))
    ensures |picked| <= |r.candidates|
    ensures Sum(Map(SavingsOf, picked)) <= Sum(Map(SavingsOf, r.candidates[..|picked|]))
  {
    hide Sum, Filter, EntriesFor;
    MapPicked(SavingsOf, picked, r.candidates);
    PrefixDominates(Map(SavingsOf, r.candidates), Map(SavingsOf, picked));
    assert Map(SavingsOf, r.candidates[..|picked|]) == Map(SavingsOf, r.candidates)[..|picked|];
  }

  lemma {:induction false} FilterAll<T>(keep: T -> bool, s: seq<T>)
    ensures (forall i :: 0 <= i < |s| ==> keep(s[i])) ==> Filter(keep, s) == s
    ensures (forall i :: 0 <= i < |s| ==> !keep(s[i])) ==> Filter(keep, s) == []
  {
    if s != [] {
      FilterAll(keep, s[..|s| - 1]);
    }
  }

  // Every holding is approaching the long-term mark or none is.
  lemma ApproachingAllOrNone(r: Response, holdings: seq<Holding>, assumeDays: int)
    requires Describes(r, holdings, assumeDays)
    ensures r.summary.approachingCount == |r.approaching|
    ensures |r.approaching| == if 335 <= assumeDays < 365 then |holdings| else 0
  {
    hide Sum, Filter, Total, Map, Round2, EntryOf;
    forall i | 0 <= i < |holdings|
      ensures Approaching(r.allHoldings[i]) <==> 335 <= assumeDays < 365
    {
      HoldingPeriods(holdings[i], assumeDays);
    }
    FilterAll(Approaching, r.allHoldings);
    assert |multiset(r.approaching)| == |multiset(Filter(Approaching, r.allHoldings))|;
  }
}
