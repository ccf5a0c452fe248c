/**
 * The tax report in terms of the holdings' prices and quantities alone: every line, who is a
 * harvest candidate, the totals and the two netted taxes.
 */
module TaxTerms {
  import opened Holdings
  import opened Rounding
  import opened Sums
  import opened TaxHarvest

  function Cost(h: Holding): real { h.averagePrice * h.quantity as real }

  function Worth(h: Holding): real { h.lastPrice * h.quantity as real }

  // A holding worth less than it cost has a loss that saves tax at the rate of its period; any other
  // has a gain taxed at that rate.
  ghost predicate LineFits(e: Entry, h: Holding, assumeDays: int) {
    var cost, worth, rate := Cost(h), Worth(h), if assumeDays > 365 then 0.125 else 0.2;
    && e.symbol == h.symbol && e.quantity == h.quantity
    && Near(e.averagePrice, h.averagePrice, 1.0) && Near(e.lastPrice, h.lastPrice, 1.0)
    && Near(e.investedValue, cost, 1.0) && Near(e.currentValue, worth, 1.0)
    && Near(e.unrealizedPnl, worth - cost, 1.0)
    && (if cost == 0.0 then e.unrealizedPct == 0.0 else Near(e.unrealizedPct, (worth - cost) / cost * 100.0, 1.0))
    && e.holdingDays == (if assumeDays > 0 then assumeDays else 0)
    && e.taxRate == rate
    && (e.harvestable <==> worth < cost)
    && (if worth < cost then e.estimatedTax == 0.0 && Near(e.taxSavings, rate * (cost - worth), 1.0)
        else e.taxSavings == 0.0 && Near(e.estimatedTax, rate * (worth - cost), 1.0))
  }

  lemma TaxedAmounts(worth: real, cost: real, rate: real)
    ensures Near(Round2((worth - cost) * rate), rate * (worth - cost), 1.0)
    ensures Near(Round2((0.0 - (worth - cost)) * rate), rate * (cost - worth), 1.0)
  {
    hide Round2;
    Round2Error((worth - cost) * rate);
    Round2Error((0.0 - (worth - cost)) * rate);
  }

  lemma SameFigures(h: Holding)
    ensures CurrentValue(h) == Worth(h) && InvestedValue(h) == Cost(h)
  {
  }

  lemma LineTerms(h: Holding, assumeDays: int)
    ensures LineFits(EntryOf(h, assumeDays), h, assumeDays)
  {
    hide Round2, CurrentValue, InvestedValue, Cost, Worth;
    SameFigures(h);
    var cost, worth := Cost(h), Worth(h);
    Round2Error(h.averagePrice);
    Round2Error(h.lastPrice);
    Round2Error(cost);
    Round2Error(worth);
    Round2Error(worth - cost);
    TaxedAmounts(worth, cost, 0.125);
    TaxedAmounts(worth, cost, 0.2);
    if cost != 0.0 {
      Round2Error((worth - cost) / cost * 100.0);
    }
  }

  // Every holding has its line.
  lemma LinesFit(r: Response, holdings: seq<Holding>, assumeDays: int)
    requires Describes(r, holdings, assumeDays)
    ensures |r.allHoldings| == |holdings|
    ensures forall i :: 0 <= i < |holdings| ==> LineFits(r.allHoldings[i], holdings[i], assumeDays)
  {
    hide LineFits, EntryOf, SummaryFor;
    forall i | 0 <= i < |holdings| ensures LineFits(r.allHoldings[i], holdings[i], assumeDays) {
      LineTerms(holdings[i], assumeDays);
    }
  }

  // The holdings worth less than they cost.
  ghost function Losers(holdings: seq<Holding>): set<nat> {
    set i: nat | i < |holdings| && Worth(holdings[i]) < Cost(holdings[i])
  }

  // Those of them that have this line.
  ghost function LosersWith(entries: seq<Entry>, holdings: seq<Holding>, x: Entry): set<nat>
    requires |entries| == |holdings|
  {
    set i: nat | i < |holdings| && Worth(holdings[i]) < Cost(holdings[i]) && entries[i] == x
  }

  ghost predicate FlagsFit(entries: seq<Entry>, holdings: seq<Holding>) {
    && |entries| == |holdings|
    && forall i :: 0 <= i < |holdings| ==> (entries[i].harvestable <==> Worth(holdings[i]) < Cost(holdings[i]))
  }

  ghost function Places(p: Entry -> bool, s: seq<Entry>): set<nat> {
    set i: nat | i < |s| && p(s[i])
  }

  lemma PlacesStep(p: Entry -> bool, s: seq<Entry>)
    requires s != []
    ensures |Places(p, s)| == |Places(p, s[..|s| - 1])| + if p(s[|s| - 1]) then 1 else 0
  {
    var n := |s| - 1;
    assert Places(p, s) == Places(p, s[..n]) + if p(s[n]) then {n} else {};
  }

  lemma NoPlaces(p: Entry -> bool)
    ensures Places(p, []) == {}
  {
  }

  lemma {:induction false} FilterCounts(keep: Entry -> bool, both: Entry -> bool, s: seq<Entry>, x: Entry)
    requires forall y :: both(y) <==> keep(y) && y == x
    ensures multiset(Filter(keep, s))[x] == |Places(both, s)|
    ensures |Filter(keep, s)| == |Places(keep, s)|
  {
    hide Places;
    if s == [] {
      NoPlaces(keep);
      NoPlaces(both);
    } else {
      FilterCounts(keep, both, s[..|s| - 1], x);
      PlacesStep(keep, s);
      PlacesStep(both, s);
    }
  }

  lemma FilteredAreLosers(entries: seq<Entry>, holdings: seq<Holding>, x: Entry)
    requires FlagsFit(entries, holdings)
    ensures multiset(Filter(Harvestable, entries))[x] == |LosersWith(entries, holdings, x)|
    ensures |Filter(Harvestable, entries)| == |Losers(holdings)|
  {
    hide Cost, Worth, Filter;
    var both := (e: Entry) => e.harvestable && e == x;
    FilterCounts(Harvestable, both, entries, x);
    assert Places(Harvestable, entries) == Losers(holdings);
    assert Places(both, entries) == LosersWith(entries, holdings, x);
  }

  // The candidates are the lines of exactly the holdings with a loss, each as often as there are such
  // holdings, and they are counted.
  lemma CandidatesAreTheLosers(r: Response, holdings: seq<Holding>, assumeDays: int, x: Entry)
    requires Describes(r, holdings, assumeDays)
    ensures |r.allHoldings| == |holdings|
    ensures multiset(r.candidates)[x] == |LosersWith(r.allHoldings, holdings, x)|
    ensures |r.candidates| == r.summary.harvestCount == |Losers(holdings)|
  {
    hide LineFits, Filter, EntryOf, Cost, Worth, Losers, LosersWith, Sum, Map, Round2;
    LinesFit(r, holdings, assumeDays);
    forall i | 0 <= i < |holdings|
      ensures r.allHoldings[i].harvestable <==> Worth(holdings[i]) < Cost(holdings[i])
    {
      FlagFits(r.allHoldings[i], holdings[i], assumeDays);
    }
    FilteredAreLosers(r.allHoldings, holdings, x);
    assert |multiset(r.candidates)| == |multiset(Filter(Harvestable, r.allHoldings))|;
  }

  lemma FlagFits(e: Entry, h: Holding, assumeDays: int)
    requires LineFits(e, h, assumeDays)
    ensures e.harvestable <==> Worth(h) < Cost(h)
  {
  }

  // ----- Totals -----

  function Rise(h: Holding): real { if Worth(h) >= Cost(h) then Worth(h) - Cost(h) else 0.0 }

  function Fall(h: Holding): real { if Worth(h) < Cost(h) then Worth(h) - Cost(h) else 0.0 }

  // All of the gains and losses belong to the one assumed period.
  ghost predicate TotalsFit(s: Summary, holdings: seq<Holding>, assumeDays: int) {
    var cost, worth := Sum(Map(Cost, holdings)), Sum(Map(Worth, holdings));
    var gains, losses := Sum(Map(Rise, holdings)), Sum(Map(Fall, holdings));
    && s.holdingsCount == |holdings| && s.assumedDays == assumeDays
    && Near(s.totalInvested, cost, 1.0) && Near(s.totalCurrent, worth, 1.0) && Near(s.totalPnl, worth - cost, 1.0)
    && Near(s.totalGain, gains, 1.0) && Near(s.totalLoss, losses, 1.0) && Near(s.totalHarvestable, losses, 1.0)
    && (if assumeDays > 365
        then
          && Near(s.ltcgGains, gains, 1.0) && Near(s.ltcgLosses, losses, 1.0)
          && s.stcgGains == 0.0 && s.stcgLosses == 0.0
        else
          && Near(s.stcgGains, gains, 1.0) && Near(s.stcgLosses, losses, 1.0)
          && s.ltcgGains == 0.0 && s.ltcgLosses == 0.0)
  }

  // Twenty percent of a net short-term gain, or an eighth of what a net long-term one has above the
  // exemption.
  ghost predicate TaxesFit(s: Summary, holdings: seq<Holding>, assumeDays: int) {
    var net := Sum(Map(Worth, holdings)) - Sum(Map(Cost, holdings));
    if assumeDays > 365
    then s.stcgTax == 0.0 && Near(s.ltcgTax, 0.125 * Max(0.0, net - 125000.0), 1.0)
    else s.ltcgTax == 0.0 && Near(s.stcgTax, 0.2 * Max(0.0, net), 1.0)
  }

  lemma SameTotals(holdings: seq<Holding>)
    ensures Total(InvestedValue, holdings) == Sum(Map(Cost, holdings))
    ensures Total(CurrentValue, holdings) == Sum(Map(Worth, holdings))
    ensures Total(GainOf, holdings) == Sum(Map(Rise, holdings))
    ensures Total(LossOf, holdings) == Sum(Map(Fall, holdings))
  {
    assert Map(InvestedValue, holdings) == Map(Cost, holdings);
    assert Map(CurrentValue, holdings) == Map(Worth, holdings);
    assert Map(GainOf, holdings) == Map(Rise, holdings);
    assert Map(LossOf, holdings) == Map(Fall, holdings);
  }

  lemma SummaryTerms(r: Response, holdings: seq<Holding>, assumeDays: int)
    requires Describes(r, holdings, assumeDays)
    ensures TotalsFit(r.summary, holdings, assumeDays)
    ensures TaxesFit(r.summary, holdings, assumeDays)
    ensures Near(r.summary.totalTaxSavings, Sum(Map(SavingsOf, r.allHoldings)), 1.0)
  {
    hide Round2, Sum, Total, Map, ListsFor, Filter;
    SameTotals(holdings);
    GainsAndLosses(holdings);
    var net := Total(Pnl, holdings);
    Round2Error(Total(InvestedValue, holdings));
    Round2Error(Total(CurrentValue, holdings));
    Round2Error(net);
    Round2Error(Total(GainOf, holdings));
    Round2Error(Total(LossOf, holdings));
    Round2Error(Sum(Map(SavingsOf, r.allHoldings)));
    Round2Error(net * 0.2);
    Round2Error((net - 125000.0) * 0.125);
    Round2Zero();
  }

  lemma Round2Zero()
    ensures Round2(0.0) == 0.0
  {
  }
}
