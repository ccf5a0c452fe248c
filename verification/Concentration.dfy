/** Portfolio concentration: Herfindahl index, combined share of the largest five, noise positions. */
module Concentration {
  import opened Holdings
  import opened Rounding
  import opened Sums
  import opened Sorting

  datatype Position = Position(symbol: string, value: real)

  datatype Entry = Entry(symbol: string, value: real, pct: real)

  datatype Report = Report(
    holdingsCount: nat,
    totalValue: real,
    hhiScore: real,
    concentration: string,
    top5CombinedPct: real,
    top5: seq<Entry>,
    noisePositions: nat,
    noisePositionsValue: real,
    noisePositionsPct: real)

  function ValueOf(p: Position): real { p.value }

  function Values(holdings: seq<Holding>): seq<real> { Map(CurrentValue, holdings) }

  function Pct(value: real, total: real): real
    requires total != 0.0
  {
    value / total * 100.0
  }

  // ----- The Herfindahl index -----

  // Sum of squared percentages; a zero total has no percentages.
  ghost function Hhi(values: seq<real>, total: real): real
    requires total != 0.0
  {
    if values == [] then 0.0
    else Hhi(values[..|values| - 1], total) + Square(Pct(values[|values| - 1], total))
  }

  lemma PctArithmetic(value: real, total: real)
    requires total != 0.0
    ensures Square(Pct(value, total)) * Square(total) == 10000.0 * Square(value)
  {
  }

  lemma {:induction false} HhiTimesSquare(values: seq<real>, total: real)
    requires total != 0.0
    ensures Hhi(values, total) * Square(total) == 10000.0 * SumSq(values)
  {
    hide Square, Pct;
    if values != [] {
      HhiTimesSquare(values[..|values| - 1], total);
      PctArithmetic(values[|values| - 1], total);
    }
  }

  // Only the multiset of values matters.
  lemma HhiPermuted(a: seq<real>, b: seq<real>, total: real)
    requires total != 0.0 && multiset(a) == multiset(b)
    ensures Hhi(a, total) == Hhi(b, total)
  {
    hide Square, Hhi, SumSq;
    HhiTimesSquare(a, total);
    HhiTimesSquare(b, total);
    SquaresPermuted(a, b);
    SquareZero(total);
    CancelFactor(Hhi(a, total), Hhi(b, total), Square(total));
  }

  lemma CancelFactor(a: real, b: real, f: real)
    requires f > 0.0
    ensures a * f <= b * f <==> a <= b
    ensures a * f == b * f <==> a == b
  {
  }

  // With non-negative values and a positive total the index of n holdings lies between 10000/n and
  // 10000: the low end exactly for equal values, the high end exactly when one holding has it all.
  lemma HhiBounds(values: seq<real>)
    requires NonNegative(values) && Sum(values) > 0.0
    ensures values != []
    ensures 10000.0 <= |values| as real * Hhi(values, Sum(values))
    ensures 10000.0 == |values| as real * Hhi(values, Sum(values)) <==> AllEqual(values)
    ensures Hhi(values, Sum(values)) <= 10000.0
    ensures Hhi(values, Sum(values)) == 10000.0 <==> OneCarriesAll(values)
  {
    hide Square, Hhi, SumSq, OneCarriesAll, AllEqual;
    var total, n := Sum(values), |values| as real;
    var h, f := Hhi(values, total), Square(total);
    SquareZero(total);
    HhiTimesSquare(values, total);
    SquareOfSumBound(values);
    SumSqBound(values);
    assert h * f == 10000.0 * SumSq(values);
    CancelFactor(h, 10000.0, f);
    ScaledBound(n, h, f, SumSq(values));
  }

  lemma ScaledBound(n: real, h: real, f: real, q: real)
    requires f > 0.0 && h * f == 10000.0 * q && f <= n * q
    ensures 10000.0 <= n * h
    ensures 10000.0 == n * h <==> f == n * q
  {
  }

  // The label of a rounded score.
  function Label(score: real): string {
    if score >= 2500.0 then "concentrated" else if score >= 1500.0 then "moderate" else "diversified"
  }

  lemma LabelOfCount(n: nat, h: real)
    requires n > 0 && 10000.0 <= n as real * h
    ensures n <= 4 ==> Label(Round2(h)) == "concentrated"
    ensures n <= 6 ==> Label(Round2(h)) != "diversified"
    ensures 10000.0 == n as real * h ==> (Label(Round2(h)) == "concentrated" <==> n <= 4)
    ensures 10000.0 == n as real * h ==> (Label(Round2(h)) == "diversified" <==> n >= 7)
  {
    hide Round2;
    Round2Error(h);
    Round2At(2500);
    Round2At(1500);
    CountArithmetic(n, h);
    if h >= 2500.0 { Round2Monotone(2500.0, h); }
    if h >= 1500.0 { Round2Monotone(1500.0, h); }
  }

  // What the label can say about n holdings: up to four are always concentrated and up to six
  // never diversified, and for equal values these are the exact limits.
  lemma LabelByCount(values: seq<real>)
    requires NonNegative(values) && Sum(values) > 0.0
    ensures |values| <= 4 ==> Label(Round2(Hhi(values, Sum(values)))) == "concentrated"
    ensures |values| <= 6 ==> Label(Round2(Hhi(values, Sum(values)))) != "diversified"
    ensures AllEqual(values) ==>
              (Label(Round2(Hhi(values, Sum(values)))) == "concentrated" <==> |values| <= 4)
    ensures AllEqual(values) ==>
              (Label(Round2(Hhi(values, Sum(values)))) == "diversified" <==> |values| >= 7)
  {
    hide Sum, Hhi, Round2, AllEqual, OneCarriesAll, Label, NonNegative;
    HhiBounds(values);
    LabelOfCount(|values|, Hhi(values, Sum(values)));
  }

  lemma Round2At(n: int)
    ensures Round2(n as real) == n as real
  {
    HundredthsOf(n as real, 100 * n);
    Round2Fixed(n as real);
  }

  lemma CountArithmetic(n: nat, h: real)
    requires n > 0 && 10000.0 <= n as real * h
    ensures n <= 4 ==> h >= 2500.0
    ensures n <= 6 ==> h >= 1600.0
    ensures n >= 5 && 10000.0 == n as real * h ==> h <= 2000.0
    ensures n >= 7 && 10000.0 == n as real * h ==> h <= 1430.0
  {
    if n <= 4 { AtMostShare(n as real, h, 4.0, 2500.0); }
    if n <= 6 { AtMostShare(n as real, h, 6.0, 1600.0); }
    if 10000.0 == n as real * h {
      if n >= 5 { AtLeastShare(n as real, h, 5.0, 2000.0); }
      if n >= 7 { AtLeastShare(n as real, h, 7.0, 1430.0); }
    }
  }

  lemma AtMostShare(m: real, h: real, count: real, bound: real)
    requires 0.0 < m <= count && 10000.0 <= m * h && count * bound <= 10000.0 && bound > 0.0
    ensures h >= bound
  {
    assert (count - m) * bound >= 0.0;
    assert (count - m) * bound == count * bound - m * bound;
    assert m * (h - bound) == m * h - m * bound;
    assert h < bound ==> m * (h - bound) < 0.0;
  }

  lemma AtLeastShare(m: real, h: real, count: real, bound: real)
    requires 0.0 < count <= m && 10000.0 == m * h && count * bound >= 10000.0 && bound > 0.0
    ensures h <= bound
  {
    assert (m - count) * bound >= 0.0;
    assert (m - count) * bound == m * bound - count * bound;
    assert m * (h - bound) == m * h - m * bound;
    assert h > bound ==> m * (h - bound) > 0.0;
  }

  // ----- Largest five and noise -----

  function Min(a: nat, b: nat): nat { if a <= b then a else b }

  function TopEntries(ranked: seq<Position>, total: real): (entries: seq<Entry>)
    requires total != 0.0
    ensures |entries| == |ranked|
  {
    if ranked == [] then []
    else
      var p := ranked[|ranked| - 1];
      TopEntries(ranked[..|ranked| - 1], total)
      + [Entry(p.symbol, Round2(p.value), Round2(Pct(p.value, total)))]
  }

  predicate IsNoise(value: real, total: real)
    requires total != 0.0
  {
    Pct(value, total) < 1.0
  }

  ghost function NoiseFlag(total: real): real -> real
    requires total != 0.0
  {
    v => if IsNoise(v, total) then 1.0 else 0.0
  }

  ghost function NoisePart(total: real): real -> real
    requires total != 0.0
  {
    v => if IsNoise(v, total) then v else 0.0
  }

  ghost function NoiseCount(values: seq<real>, total: real): real
    requires total != 0.0
  {
    Sum(Map(NoiseFlag(total), values))
  }

  ghost function NoiseValue(values: seq<real>, total: real): real
    requires total != 0.0
  {
    Sum(Map(NoisePart(total), values))
  }

  lemma NoiseAppend(values: seq<real>, v: real, total: real)
    requires total != 0.0
    ensures NoiseCount(values + [v], total) == NoiseCount(values, total) + NoiseFlag(total)(v)
    ensures NoiseValue(values + [v], total) == NoiseValue(values, total) + NoisePart(total)(v)
  {
    SumMapAppend(NoiseFlag(total), values, v);
    SumMapAppend(NoisePart(total), values, v);
  }

  lemma NoisePermuted(a: seq<real>, b: seq<real>, total: real)
    requires total != 0.0 && multiset(a) == multiset(b)
    ensures NoiseCount(a, total) == NoiseCount(b, total)
    ensures NoiseValue(a, total) == NoiseValue(b, total)
  {
    SumMapPermuted(NoiseFlag(total), a, b);
    SumMapPermuted(NoisePart(total), a, b);
  }

  // The values that are not noise, in order.
  ghost function Kept(values: seq<real>, total: real): seq<real>
    requires total != 0.0
  {
    if values == [] then []
    else
      Kept(values[..|values| - 1], total)
      + if IsNoise(values[|values| - 1], total) then [] else [values[|values| - 1]]
  }

  lemma NoiseOfNone(total: real)
    requires total != 0.0
    ensures NoiseCount([], total) == NoiseValue([], total) == Sum([]) == 0.0
  {
  }

  lemma NotNoise(value: real, total: real)
    requires total > 0.0
    ensures IsNoise(value, total) <==> value < total / 100.0
  {
  }

  // Noise and the rest make up the whole, in number and in value, and with a positive total
  // every kept value is at least a hundredth of it.
  lemma {:induction false} NoiseSplits(values: seq<real>, total: real)
    requires total > 0.0
    ensures NoiseCount(values, total) + |Kept(values, total)| as real == |values| as real
    ensures NoiseValue(values, total) + Sum(Kept(values, total)) == Sum(values)
    ensures forall i :: 0 <= i < |Kept(values, total)| ==> Kept(values, total)[i] >= total / 100.0
    ensures NonNegative(values) ==> NoiseValue(values, total) >= 0.0
  {
    hide NoiseCount, NoiseValue, IsNoise, Sum;
    if values == [] {
      NoiseOfNone(total);
    } else {
      var front, last := values[..|values| - 1], values[|values| - 1];
      assert values == front + [last];
      NoiseSplits(front, total);
      NoiseAppend(front, last, total);
      SumAppend(Kept(front, total), last);
      SumAppend(front, last);
      NotNoise(last, total);
      assert NonNegative(values) ==> NonNegative(front);
      assert Kept(front, total) + [] == Kept(front, total);
    }
  }

  // At most a hundred holdings escape being noise.
  lemma AtMostHundredKept(values: seq<real>)
    requires NonNegative(values) && Sum(values) > 0.0
    ensures |values| as real - NoiseCount(values, Sum(values)) <= 100.0
  {
    hide NoiseCount, NoiseValue, Kept, Sum;
    var total := Sum(values);
    var kept, hundredth := Kept(values, total), total / 100.0;
    NoiseSplits(values, total);
    SumAtLeast(kept, hundredth);
    HundredArithmetic(|kept| as real, hundredth);
  }

  lemma HundredArithmetic(n: real, hundredth: real)
    requires hundredth > 0.0 && n * hundredth <= 100.0 * hundredth
    ensures n <= 100.0
  {
  }

  // ----- The report -----

  function Positions(holdings: seq<Holding>): (positions: seq<Position>)
    ensures |positions| == |holdings|
    ensures Map(ValueOf, positions) == Values(holdings)
  {
    seq(|holdings|, i requires 0 <= i < |holdings| => Position(holdings[i].symbol, CurrentValue(holdings[i])))
  }

  // A largest-first order of the holdings.
  ghost predicate Ranks(ranked: seq<Position>, holdings: seq<Holding>) {
    multiset(ranked) == multiset(Positions(holdings)) && Descending(Map(ValueOf, ranked))
  }

  function EmptyReport(count: nat): Report {
    Report(count, 0.0, 0.0, "empty", 0.0, [], 0, 0.0, 0.0)
  }

  // The combined value of the first five, or of all if there are fewer.
  ghost function TopValue(ranked: seq<Position>): real {
    Sum(Map(ValueOf, ranked[..Min(5, |ranked|)]))
  }

  ghost predicate Describes(r: Report, holdings: seq<Holding>, ranked: seq<Position>) {
    var values := Values(holdings);
    var total := Sum(values);
    if total == 0.0 then r == EmptyReport(|holdings|)
    else
      && r.holdingsCount == |holdings|
      && r.totalValue == Round2(total)
      && r.hhiScore == Round2(Hhi(values, total))
      && r.concentration == Label(r.hhiScore)
      && r.top5 == TopEntries(ranked[..Min(5, |ranked|)], total)
      && r.top5CombinedPct == Round2(Pct(TopValue(ranked), total))
      && r.noisePositions as real == NoiseCount(values, total)
      && r.noisePositionsValue == Round2(NoiseValue(values, total))
      && r.noisePositionsPct == Round2(Pct(NoiseValue(values, total), total))
  }

  lemma PctAdds(a: real, b: real, total: real)
    requires total != 0.0
    ensures Pct(a + b, total) == Pct(a, total) + Pct(b, total)
  {
  }

  // The loop that values the holdings.
  method ValuePositions(holdings: seq<Holding>) returns (positions: seq<Position>, totalValue: real)
    ensures positions == Positions(holdings)
    ensures totalValue == Sum(Values(holdings))
  {
    hide Sum;
    positions, totalValue := [], 0.0;
    NoValue();
    for i := 0 to |holdings|
      invariant positions == Positions(holdings[..i])
      invariant totalValue == Sum(Values(holdings[..i]))
    {
      var value := CurrentValue(holdings[i]);
      totalValue := totalValue + value;
      positions := positions + [Position(holdings[i].symbol, value)];
      assert holdings[..i + 1] == holdings[..i] + [holdings[i]];
      SumMapAppend(CurrentValue, holdings[..i], holdings[i]);
    }
    assert holdings[..|holdings|] == holdings;
  }

  lemma TopEntriesAppend(ranked: seq<Position>, p: Position, total: real)
    requires total != 0.0
    ensures TopEntries(ranked + [p], total)
              == TopEntries(ranked, total) + [Entry(p.symbol, Round2(p.value), Round2(Pct(p.value, total)))]
  {
    assert (ranked + [p])[..|ranked|] == ranked;
  }

  // The loop over the ranked positions.
  method Measure(ranked: seq<Position>, totalValue: real)
    returns (hhi: real, top5CombinedPct: real, top5: seq<Entry>, noiseCount: nat, noiseValue: real)
    requires totalValue != 0.0
    ensures hhi == Hhi(Map(ValueOf, ranked), totalValue)
    ensures top5 == TopEntries(ranked[..Min(5, |ranked|)], totalValue)
    ensures top5CombinedPct == Pct(TopValue(ranked), totalValue)
    ensures noiseCount as real == NoiseCount(Map(ValueOf, ranked), totalValue)
    ensures noiseValue == NoiseValue(Map(ValueOf, ranked), totalValue)
  {
    hide Sum, Hhi, NoiseCount, NoiseValue, Square, Pct, TopEntries, Round2;
    ghost var values := Map(ValueOf, ranked);
    hhi, top5CombinedPct, top5, noiseCount, noiseValue := 0.0, 0.0, [], 0, 0.0;
    NoiseOfNone(totalValue);
    HhiOfNone(totalValue);
    assert TopEntries([], totalValue) == [];
    for i := 0 to |ranked|
      invariant hhi == Hhi(values[..i], totalValue)
      invariant noiseCount as real == NoiseCount(values[..i], totalValue)
      invariant noiseValue == NoiseValue(values[..i], totalValue)
      invariant top5 == TopEntries(ranked[..Min(5, i)], totalValue)
      invariant top5CombinedPct == Pct(Sum(values[..Min(5, i)]), totalValue)
    {
      var p := ranked[i];
      var pct := Pct(p.value, totalValue);
      assert values[..i + 1] == values[..i] + [p.value];
      HhiAppend(values[..i], p.value, totalValue);
      NoiseAppend(values[..i], p.value, totalValue);
      hhi := hhi + pct * pct;
      if i < 5 {
        top5 := top5 + [Entry(p.symbol, Round2(p.value), Round2(pct))];
        assert ranked[..i + 1] == ranked[..i] + [p];
        TopEntriesAppend(ranked[..i], p, totalValue);
        SumAppend(values[..i], p.value);
        PctAdds(Sum(values[..i]), p.value, totalValue);
        top5CombinedPct := top5CombinedPct + pct;
      }
      if pct < 1.0 {
        noiseCount := noiseCount + 1;
        noiseValue := noiseValue + p.value;
      }
    }
    assert values[..|ranked|] == values;
    assert values[..Min(5, |ranked|)] == Map(ValueOf, ranked[..Min(5, |ranked|)]);
  }

  // The report is about the holdings, not about the order the sort happened to leave ties in.
  method ComputePortfolioConcentration(holdings: seq<Holding>) returns (r: Report)
    ensures exists ranked :: Ranks(ranked, holdings) && Describes(r, holdings, ranked)
  {
    hide Sum, Hhi, NoiseCount, NoiseValue, TopValue, TopEntries, Square, Pct, Round2, Label;
    var positions, totalValue := ValuePositions(holdings);
    var ranked := SortDescending(ValueOf, positions);
    if totalValue == 0.0 {
      r := EmptyReport(|holdings|);
      assert Ranks(ranked, holdings) && Describes(r, holdings, ranked);
      return;
    }
    var hhi, top5CombinedPct, top5, noiseCount, noiseValue := Measure(ranked, totalValue);
    var hhiRounded := Round2(hhi);
    r := Report(
      |holdings|, Round2(totalValue), hhiRounded, Label(hhiRounded), Round2(top5CombinedPct), top5,
      noiseCount, Round2(noiseValue), Round2(Pct(noiseValue, totalValue)));
    MapPermuted(ValueOf, ranked, positions);
    HhiPermuted(Map(ValueOf, ranked), Values(holdings), totalValue);
    NoisePermuted(Map(ValueOf, ranked), Values(holdings), totalValue);
    assert Ranks(ranked, holdings) && Describes(r, holdings, ranked);
  }

  lemma NoValue()
    ensures Sum(Values([])) == 0.0
  {
  }

  lemma HhiOfNone(total: real)
    requires total != 0.0
    ensures Hhi([], total) == 0.0 && Pct(Sum([]), total) == 0.0
  {
  }

  lemma HhiAppend(values: seq<real>, v: real, total: real)
    requires total != 0.0
    ensures Hhi(values + [v], total) == Hhi(values, total) + Pct(v, total) * Pct(v, total)
  {
  }

  // ----- What a report says about a portfolio of non-negative values -----

  lemma PctOrder(a: real, b: real, total: real)
    requires total > 0.0
    ensures a <= b ==> Pct(a, total) <= Pct(b, total)
    ensures Pct(total, total) == 100.0
  {
  }

  lemma ProductOrder(n: real, a: real, b: real)
    requires n >= 0.0 && a <= b
    ensures n * a <= n * b
  {
  }

  lemma LargestFive(values: seq<real>, sorted: seq<real>, picked: seq<real>)
    requires multiset(sorted) == multiset(values) && Descending(sorted) && NonNegative(values)
    requires multiset(picked) <= multiset(values) && |picked| <= 5
    ensures Sum(picked) <= Sum(sorted[..Min(5, |sorted|)]) <= Sum(sorted)
    ensures |sorted| <= 5 ==> Sum(sorted[..Min(5, |sorted|)]) == Sum(sorted)
  {
    hide Sum;
    PermutedNonNegative(sorted, values);
    assert sorted[..|sorted|] == sorted;
    PrefixDominates(sorted, picked);
    PrefixSumsGrow(sorted, |picked|, Min(5, |sorted|));
    PrefixSumsGrow(sorted, Min(5, |sorted|), |sorted|);
  }

  lemma RankedValues(holdings: seq<Holding>, ranked: seq<Position>)
    requires Ranks(ranked, holdings)
    ensures multiset(Map(ValueOf, ranked)) == multiset(Values(holdings))
    ensures |ranked| == |holdings| && Sum(Map(ValueOf, ranked)) == Sum(Values(holdings))
    ensures TopValue(ranked) == Sum(Map(ValueOf, ranked)[..Min(5, |ranked|)])
  {
    hide Sum;
    MapPermuted(ValueOf, ranked, Positions(holdings));
    SumPermuted(Map(ValueOf, ranked), Values(holdings));
    assert |multiset(ranked)| == |multiset(Positions(holdings))|;
    assert Map(ValueOf, ranked[..Min(5, |ranked|)]) == Map(ValueOf, ranked)[..Min(5, |ranked|)];
  }

  // The combined percentage is at least that of any five holdings, at most 100, and all of it when
  // there are at most five.
  lemma TopFive(r: Report, holdings: seq<Holding>, ranked: seq<Position>, picked: seq<real>)
    requires Ranks(ranked, holdings) && Describes(r, holdings, ranked)
    requires NonNegative(Values(holdings)) && Sum(Values(holdings)) > 0.0
    requires multiset(picked) <= multiset(Values(holdings)) && |picked| <= 5
    ensures Round2(Pct(Sum(picked), Sum(Values(holdings)))) <= r.top5CombinedPct <= 100.0
    ensures |holdings| <= 5 ==> r.top5CombinedPct == 100.0
  {
    hide Sum, Hhi, NoiseCount, NoiseValue, Pct, Round2, Label, Values, TopValue, TopEntries, NonNegative;
    var total, top := Sum(Values(holdings)), TopValue(ranked);
    RankedValues(holdings, ranked);
    LargestFive(Values(holdings), Map(ValueOf, ranked), picked);
    PctOrder(Sum(picked), top, total);
    PctOrder(top, total, total);
    Round2Monotone(Pct(Sum(picked), total), Pct(top, total));
    Round2Monotone(Pct(top, total), 100.0);
    Round2At(100);
  }

  // With at least five holdings it is no less, up to rounding, than that of five average ones.
  lemma TopFiveAverage(r: Report, holdings: seq<Holding>, ranked: seq<Position>)
    requires Ranks(ranked, holdings) && Describes(r, holdings, ranked)
    requires Sum(Values(holdings)) > 0.0 && |holdings| >= 5
    ensures |holdings| as real * (r.top5CombinedPct + 0.005) >= 500.0
  {
    hide Sum, Hhi, NoiseCount, NoiseValue, Pct, Round2, Label, Values, TopValue, TopEntries;
    var total, top := Sum(Values(holdings)), TopValue(ranked);
    RankedValues(holdings, ranked);
    PrefixAboveAverage(Map(ValueOf, ranked), 5);
    Round2Error(Pct(top, total));
    FiveAverages(|holdings| as real, top, total, r.top5CombinedPct);
  }

  lemma PermutedNonNegative(a: seq<real>, b: seq<real>)
    requires multiset(a) == multiset(b) && NonNegative(b)
    ensures NonNegative(a)
  {
    forall i | 0 <= i < |a| ensures a[i] >= 0.0 {
      assert a[i] in multiset(b);
    }
  }

  lemma FiveAverages(n: real, top: real, total: real, rounded: real)
    requires total > 0.0 && n > 0.0 && n * top >= 5.0 * total
    requires Pct(top, total) <= rounded + 0.005
    ensures n * (rounded + 0.005) >= 500.0
  {
    var p := Pct(top, total);
    assert p * total == 100.0 * top;
    Scale(n, p, total, top);
    CancelFactor(500.0, n * p, total);
    ProductOrder(n, p, rounded + 0.005);
  }

  lemma Scale(n: real, p: real, total: real, top: real)
    requires p * total == 100.0 * top
    ensures (n * p) * total == 100.0 * (n * top)
  {
  }

  lemma RoundedBound(n: real, h: real, score: real)
    requires 10000.0 <= n * h && n >= 0.0 && h <= score + 0.005
    ensures 10000.0 <= n * (score + 0.005)
  {
    ProductOrder(n, h, score + 0.005);
  }

  // The reported score keeps the bounds of the index, and the label knows the number of holdings.
  lemma ReportedScore(r: Report, holdings: seq<Holding>, ranked: seq<Position>)
    requires Describes(r, holdings, ranked)
    requires NonNegative(Values(holdings)) && Sum(Values(holdings)) > 0.0
    ensures 10000.0 <= |holdings| as real * (r.hhiScore + 0.005) && r.hhiScore <= 10000.0
    ensures |holdings| <= 4 ==> r.concentration == "concentrated"
    ensures |holdings| <= 6 ==> r.concentration != "diversified"
  {
    hide Sum, Hhi, NoiseCount, NoiseValue, Pct, Round2, Label, OneCarriesAll, AllEqual, TopEntries, TopValue;
    var h := Hhi(Values(holdings), Sum(Values(holdings)));
    HhiBounds(Values(holdings));
    LabelByCount(Values(holdings));
    Round2Error(h);
    Round2Monotone(h, 10000.0);
    Round2At(10000);
    RoundedBound(|holdings| as real, h, r.hhiScore);
  }

  // At most a hundred holdings are not noise, and noise is part of the total.
  lemma ReportedNoise(r: Report, holdings: seq<Holding>, ranked: seq<Position>)
    requires Describes(r, holdings, ranked)
    requires NonNegative(Values(holdings)) && Sum(Values(holdings)) > 0.0
    ensures |holdings| <= r.noisePositions + 100
    ensures 0.0 <= r.noisePositionsValue <= r.totalValue && r.noisePositionsPct <= 100.0
  {
    hide Sum, Hhi, NoiseCount, NoiseValue, Pct, Round2, Label, Kept, TopEntries, TopValue;
    var values := Values(holdings);
    var total := Sum(values);
    AtMostHundredKept(values);
    NoiseSplits(values, total);
    KeptNonNegative(Kept(values, total), total);
    Round2Monotone(NoiseValue(values, total), total);
    Round2Monotone(0.0, NoiseValue(values, total));
    Round2At(0);
    Round2At(100);
    PctOrder(NoiseValue(values, total), total, total);
    Round2Monotone(Pct(NoiseValue(values, total), total), 100.0);
  }

  lemma KeptNonNegative(kept: seq<real>, total: real)
    requires total > 0.0 && forall i :: 0 <= i < |kept| ==> kept[i] >= total / 100.0
    ensures Sum(kept) >= 0.0
  {
  }
}
