/** The concentration report in terms of the holdings' prices and quantities alone. */
module ConcentrationTerms {
  import opened Holdings
  import opened Rounding
  import opened Sums
  import opened Concentration

  function Worth(h: Holding): real { h.lastPrice * h.quantity as real }

  ghost function Total(holdings: seq<Holding>): real { Sum(Map(Worth, holdings)) }

  // The holdings of less than a hundredth of the total.
  ghost function Small(holdings: seq<Holding>, total: real): set<nat> {
    set i: nat | i < |holdings| && 100.0 * Worth(holdings[i]) < total
  }

  function Percent(value: real, total: real): real
    requires total > 0.0
  {
    100.0 * value / total
  }

  ghost function SquaredPercent(total: real): Holding -> real
    requires total > 0.0
  {
    (h: Holding) => Percent(Worth(h), total) * Percent(Worth(h), total)
  }

  ghost function SmallWorth(total: real): Holding -> real {
    (h: Holding) => if 100.0 * Worth(h) < total then Worth(h) else 0.0
  }

  lemma SameValues(holdings: seq<Holding>)
    ensures Values(holdings) == Map(Worth, holdings) && Sum(Values(holdings)) == Total(holdings)
  {
    assert Values(holdings) == Map(Worth, holdings);
  }

  // The score is the sum of the squared percentages, and its label goes by two limits.
  ghost predicate ScoreFits(r: Report, holdings: seq<Holding>)
    requires Total(holdings) > 0.0
  {
    var total := Total(holdings);
    && Near(r.hhiScore, Sum(Map(SquaredPercent(total), holdings)), 1.0)
    && (r.concentration == "concentrated" <==> r.hhiScore >= 2500.0)
    && (r.concentration == "moderate" <==> 1500.0 <= r.hhiScore < 2500.0)
    && (r.concentration == "diversified" <==> r.hhiScore < 1500.0)
  }

  ghost predicate NoiseFits(r: Report, holdings: seq<Holding>)
    requires Total(holdings) > 0.0
  {
    var total := Total(holdings);
    var small := Sum(Map(SmallWorth(total), holdings));
    && r.noisePositions == |Small(holdings, total)|
    && Near(r.noisePositionsValue, small, 1.0)
    && Near(r.noisePositionsPct, Percent(small, total), 1.0)
  }

  // A ranking of the holdings by worth: each with its symbol, as often as it is held, largest first.
  ghost predicate IsRanking(ranked: seq<Position>, holdings: seq<Holding>) {
    && multiset(ranked)
       == multiset(seq(|holdings|, i requires 0 <= i < |holdings| => Position(holdings[i].symbol, Worth(holdings[i]))))
    && forall i, j :: 0 <= i < j < |ranked| ==> ranked[i].value >= ranked[j].value
  }

  lemma SameWorth(h: Holding)
    ensures CurrentValue(h) == Worth(h)
  {
  }

  lemma RankingTerms(ranked: seq<Position>, holdings: seq<Holding>)
    requires Ranks(ranked, holdings)
    ensures IsRanking(ranked, holdings)
  {
    var held := seq(|holdings|, i requires 0 <= i < |holdings| => Position(holdings[i].symbol, Worth(holdings[i])));
    forall i | 0 <= i < |holdings| ensures Positions(holdings)[i] == held[i] {
      SameWorth(holdings[i]);
    }
    assert Positions(holdings) == held;
    forall i, j | 0 <= i < j < |ranked| ensures ranked[i].value >= ranked[j].value {
      assert Map(ValueOf, ranked)[i] >= Map(ValueOf, ranked)[j];
    }
  }

  // The first five of the ranking, each with its value and percentage, and their sum.
  ghost predicate TopFits(r: Report, holdings: seq<Holding>, ranked: seq<Position>)
    requires Total(holdings) > 0.0
  {
    var total, n := Total(holdings), if |holdings| < 5 then |holdings| else 5;
    && |ranked| == |holdings| && |r.top5| == n
    && (forall i :: 0 <= i < n ==>
          && r.top5[i].symbol == ranked[i].symbol
          && Near(r.top5[i].value, ranked[i].value, 1.0)
          && Near(r.top5[i].pct, Percent(ranked[i].value, total), 1.0))
    && Near(r.top5CombinedPct, Percent(Sum(Map(ValueOf, ranked[..n])), total), 1.0)
  }

  // A portfolio that adds up to nothing has the empty report, whatever it holds.
  lemma NothingToReport(r: Report, holdings: seq<Holding>, ranked: seq<Position>)
    requires Describes(r, holdings, ranked) && Total(holdings) == 0.0
    ensures r.holdingsCount == |holdings| && r.concentration == "empty" && r.top5 == []
    ensures r.totalValue == 0.0 && r.hhiScore == 0.0 && r.top5CombinedPct == 0.0
    ensures r.noisePositions == 0 && r.noisePositionsValue == 0.0 && r.noisePositionsPct == 0.0
  {
    hide Sum, Values, Map;
    SameValues(holdings);
  }

  lemma PercentIs(value: real, total: real)
    requires total > 0.0
    ensures Pct(value, total) == Percent(value, total)
  {
  }

  lemma {:induction false} SquaresAddUp(holdings: seq<Holding>, total: real)
    requires total > 0.0
    ensures Hhi(Map(Worth, holdings), total) == Sum(Map(SquaredPercent(total), holdings))
  {
    hide Hhi, Pct, Percent, Sum, Worth;
    if holdings == [] {
      HhiOfNone(total);
      NothingSquared(total);
    } else {
      var front, h := holdings[..|holdings| - 1], holdings[|holdings| - 1];
      assert holdings == front + [h];
      assert Map(Worth, holdings) == Map(Worth, front) + [Worth(h)];
      SquaresAddUp(front, total);
      HhiAppend(Map(Worth, front), Worth(h), total);
      PercentIs(Worth(h), total);
      SumMapAppend(SquaredPercent(total), front, h);
    }
  }

  lemma NothingSquared(total: real)
    requires total > 0.0
    ensures Sum(Map(SquaredPercent(total), [])) == 0.0
  {
  }

  lemma ScoreTerms(r: Report, holdings: seq<Holding>, ranked: seq<Position>)
    requires Describes(r, holdings, ranked) && Total(holdings) > 0.0
    ensures ScoreFits(r, holdings)
  {
    hide Hhi, Round2, NoiseCount, NoiseValue, Pct, Percent, TopEntries, TopValue, Values, Sum, Map, SquaredPercent;
    SameValues(holdings);
    SquaresAddUp(holdings, Total(holdings));
    Round2Error(Hhi(Values(holdings), Total(holdings)));
  }

  lemma NoiseIsSmall(total: real, v: real)
    requires total > 0.0
    ensures Pct(v, total) < 1.0 <==> 100.0 * v < total
  {
  }

  lemma SmallStep(front: seq<Holding>, h: Holding, total: real)
    requires total > 0.0
    ensures |Small(front + [h], total)| == |Small(front, total)| + if Pct(Worth(h), total) < 1.0 then 1 else 0
    ensures SmallWorth(total)(h) == if Pct(Worth(h), total) < 1.0 then Worth(h) else 0.0
  {
    NoiseIsSmall(total, Worth(h));
    hide Worth, Pct;
    assert Small(front + [h], total) == Small(front, total) + if 100.0 * Worth(h) < total then {|front|} else {};
  }

  lemma NoiseStep(values: seq<real>, v: real, total: real)
    requires total > 0.0
    ensures NoiseCount(values + [v], total) == NoiseCount(values, total) + if Pct(v, total) < 1.0 then 1.0 else 0.0
    ensures NoiseValue(values + [v], total) == NoiseValue(values, total) + if Pct(v, total) < 1.0 then v else 0.0
  {
    hide NoiseCount, NoiseValue, Pct;
    NoiseAppend(values, v, total);
  }

  lemma {:induction false} SmallCounted(holdings: seq<Holding>, total: real)
    requires total > 0.0
    ensures NoiseCount(Map(Worth, holdings), total) == |Small(holdings, total)| as real
    ensures NoiseValue(Map(Worth, holdings), total) == Sum(Map(SmallWorth(total), holdings))
  {
    hide NoiseCount, NoiseValue, Sum, Worth, Pct, Small, SmallWorth;
    if holdings == [] {
      NoiseOfNone(total);
      NoSmall(total);
    } else {
      var front, h := holdings[..|holdings| - 1], holdings[|holdings| - 1];
      assert holdings == front + [h];
      assert Map(Worth, holdings) == Map(Worth, front) + [Worth(h)];
      SmallCounted(front, total);
      NoiseStep(Map(Worth, front), Worth(h), total);
      SmallStep(front, h, total);
      SumMapAppend(SmallWorth(total), front, h);
    }
  }

  lemma NoSmall(total: real)
    ensures Small([], total) == {} && Sum(Map(SmallWorth(total), [])) == 0.0
  {
  }

  lemma NoiseTerms(r: Report, holdings: seq<Holding>, ranked: seq<Position>)
    requires Describes(r, holdings, ranked) && Total(holdings) > 0.0
    ensures NoiseFits(r, holdings)
  {
    hide Hhi, Round2, NoiseCount, NoiseValue, TopEntries, TopValue, Values, Sum, Map, Label, SmallWorth;
    var total := Total(holdings);
    SameValues(holdings);
    SmallCounted(holdings, total);
    Round2Error(NoiseValue(Values(holdings), total));
    PercentIs(NoiseValue(Values(holdings), total), total);
    Round2Error(Pct(NoiseValue(Values(holdings), total), total));
  }

  lemma {:induction false} TopEntry(ranked: seq<Position>, total: real, i: nat)
    requires total > 0.0 && i < |ranked|
    ensures TopEntries(ranked, total)[i]
              == Entry(ranked[i].symbol, Round2(ranked[i].value), Round2(Pct(ranked[i].value, total)))
  {
    if i < |ranked| - 1 { TopEntry(ranked[..|ranked| - 1], total, i); }
  }

  lemma TopEntriesFit(ranked: seq<Position>, total: real, i: nat)
    requires total > 0.0 && i < |ranked|
    ensures var e := TopEntries(ranked, total)[i];
            && e.symbol == ranked[i].symbol && Near(e.value, ranked[i].value, 1.0)
            && Near(e.pct, Percent(ranked[i].value, total), 1.0)
  {
    hide Round2, TopEntries, Percent, Pct;
    TopEntry(ranked, total, i);
    Round2Error(ranked[i].value);
    PercentIs(ranked[i].value, total);
    Round2Error(Pct(ranked[i].value, total));
  }

  lemma TopTerms(r: Report, holdings: seq<Holding>, ranked: seq<Position>)
    requires Ranks(ranked, holdings) && Describes(r, holdings, ranked) && Total(holdings) > 0.0
    ensures IsRanking(ranked, holdings) && TopFits(r, holdings, ranked)
  {
    hide IsRanking, Hhi, Round2, NoiseCount, NoiseValue, TopEntries, Values, Sum, Map, Label, Percent, Pct;
    var total, n := Total(holdings), Min(5, |ranked|);
    RankingTerms(ranked, holdings);
    SameValues(holdings);
    assert |multiset(ranked)| == |multiset(Positions(holdings))|;
    forall i | 0 <= i < n
      ensures r.top5[i].symbol == ranked[i].symbol && Near(r.top5[i].value, ranked[i].value, 1.0)
      ensures Near(r.top5[i].pct, Percent(ranked[i].value, total), 1.0)
    {
      TopEntriesFit(ranked[..n], total, i);
    }
    PercentIs(TopValue(ranked), total);
    Round2Error(Pct(TopValue(ranked), total));
  }
}
