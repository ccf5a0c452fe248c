/** Sector exposure widget: value per sector, largest first, with a warning above 30 percent. */
module SectorDonut {
  import opened Holdings
  import opened Sums

  const EXPOSURE_LIMIT := 30.0

  datatype Entry = Entry(sector: string, value: real, pct: real, overExposed: bool)

  datatype Widget = Widget(totalValue: real, sectors: seq<Entry>, holdingCount: nat, warning: string)

  // The symbol table and its normalisation belong to another package.
  datatype Classifier = Classifier(normalize: string -> string, sectors: map<string, string>)

  function SectorOf(c: Classifier, h: Holding): string {
    var symbol := c.normalize(h.symbol);
    if symbol in c.sectors then c.sectors[symbol] else "Unmapped"
  }

  // Only positive values enter the widget.
  function PositiveValue(h: Holding): real { if CurrentValue(h) <= 0.0 then 0.0 else CurrentValue(h) }

  function PartOf(c: Classifier, sector: string, h: Holding): real {
    if SectorOf(c, h) == sector then PositiveValue(h) else 0.0
  }

  function SectorPart(c: Classifier, sector: string): Holding -> real {
    h => PartOf(c, sector, h)
  }

  ghost function SectorValue(c: Classifier, holdings: seq<Holding>, sector: string): real {
    Sum(Map(SectorPart(c, sector), holdings))
  }

  ghost function TotalValue(holdings: seq<Holding>): real { Sum(Map(PositiveValue, holdings)) }

  ghost function HeldSectors(c: Classifier, holdings: seq<Holding>): set<string> {
    set i | 0 <= i < |holdings| && CurrentValue(holdings[i]) > 0.0 :: SectorOf(c, holdings[i])
  }

  function Share(value: real, total: real): real {
    if total > 0.0 then value / total * 100.0 else 0.0
  }

  function EntryOf(sector: string, value: real, total: real): Entry {
    Entry(sector, value, Share(value, total), Share(value, total) > EXPOSURE_LIMIT)
  }

  ghost function EntryFor(c: Classifier, holdings: seq<Holding>, sector: string): Entry {
    EntryOf(sector, SectorValue(c, holdings, sector), TotalValue(holdings))
  }

  // ----- Accumulation -----

  class Bucket {
    var value: real

    constructor ()
      ensures value == 0.0
    {
      value := 0.0;
    }
  }

  // No two sectors share a bucket.
  ghost predicate Separate(buckets: map<string, Bucket>) {
    forall s, t :: s in buckets && t in buckets && s != t ==> buckets[s] != buckets[t]
  }

  ghost predicate Holds(buckets: map<string, Bucket>, c: Classifier, holdings: seq<Holding>)
    reads buckets.Values
  {
    && buckets.Keys == HeldSectors(c, holdings)
    && forall s :: s in buckets ==> buckets[s].value == SectorValue(c, holdings, s)
  }

  lemma SectorStep(c: Classifier, holdings: seq<Holding>, h: Holding, sector: string)
    ensures SectorValue(c, holdings + [h], sector)
              == SectorValue(c, holdings, sector) + PartOf(c, sector, h)
    ensures TotalValue(holdings + [h]) == TotalValue(holdings) + PositiveValue(h)
  {
    SumMapAppend(SectorPart(c, sector), holdings, h);
    SumMapAppend(PositiveValue, holdings, h);
  }

  lemma HeldStep(c: Classifier, holdings: seq<Holding>, h: Holding)
    ensures HeldSectors(c, holdings + [h])
              == HeldSectors(c, holdings) + if CurrentValue(h) > 0.0 then {SectorOf(c, h)} else {}
  {
    var all := holdings + [h];
    forall s | s in HeldSectors(c, holdings) + if CurrentValue(h) > 0.0 then {SectorOf(c, h)} else {}
      ensures s in HeldSectors(c, all)
    {
      if s in HeldSectors(c, holdings) {
        var i :| 0 <= i < |holdings| && CurrentValue(holdings[i]) > 0.0 && SectorOf(c, holdings[i]) == s;
        assert all[i] == holdings[i];
      } else {
        assert all[|holdings|] == h;
      }
    }
  }

  // A sector nobody holds has no value.
  lemma {:induction false} NotHeld(c: Classifier, holdings: seq<Holding>, sector: string)
    requires sector !in HeldSectors(c, holdings)
    ensures SectorValue(c, holdings, sector) == 0.0
  {
    if holdings != [] {
      var front, h := holdings[..|holdings| - 1], holdings[|holdings| - 1];
      assert holdings == front + [h];
      HeldStep(c, front, h);
      NotHeld(c, front, sector);
      SectorStep(c, front, h, sector);
    }
  }

  method Accumulate(c: Classifier, holdings: seq<Holding>) returns (buckets: map<string, Bucket>, total: real)
    ensures (forall s :: s in buckets ==> fresh(buckets[s])) && Separate(buckets)
    ensures Holds(buckets, c, holdings)
    ensures total == TotalValue(holdings)
  {
    hide Sum, SectorValue, TotalValue, HeldSectors, SectorOf, CurrentValue;
    buckets, total := map[], 0.0;
    NothingHeld(c);
    for i := 0 to |holdings|
      invariant (forall s :: s in buckets ==> fresh(buckets[s])) && Separate(buckets)
      invariant Holds(buckets, c, holdings[..i])
      invariant total == TotalValue(holdings[..i])
    {
      var h := holdings[i];
      var value := CurrentValue(h);
      assert holdings[..i + 1] == holdings[..i] + [h];
      HeldStep(c, holdings[..i], h);
      forall s ensures SectorValue(c, holdings[..i + 1], s) == SectorValue(c, holdings[..i], s) + PartOf(c, s, h)
      {
        SectorStep(c, holdings[..i], h, s);
      }
      SectorStep(c, holdings[..i], h, "");
      if value <= 0.0 {
        continue;
      }
      var sector := SectorOf(c, h);
      if sector !in buckets {
        NotHeld(c, holdings[..i], sector);
        var b := new Bucket();
        buckets := buckets[sector := b];
      }
      buckets[sector].value := buckets[sector].value + value;
      total := total + value;
    }
    assert holdings[..|holdings|] == holdings;
  }

  lemma NothingHeld(c: Classifier)
    ensures HeldSectors(c, []) == {} && TotalValue([]) == 0.0
  {
  }

  // ----- Listing and sorting -----

  ghost function Shown(c: Classifier, holdings: seq<Holding>, sectors: set<string>): set<Entry> {
    set s | s in sectors :: EntryFor(c, holdings, s)
  }

  lemma ShownStep(c: Classifier, holdings: seq<Holding>, sectors: set<string>, s: string)
    requires s !in sectors
    ensures multiset(Shown(c, holdings, sectors + {s}))
              == multiset(Shown(c, holdings, sectors)) + multiset{EntryFor(c, holdings, s)}
  {
  }

  // Map iteration visits the buckets in no particular order.
  method ListEntries(
    buckets: map<string, Bucket>, total: real, ghost c: Classifier, ghost holdings: seq<Holding>)
    returns (entries: seq<Entry>)
    requires Holds(buckets, c, holdings) && total == TotalValue(holdings)
    ensures multiset(entries) == multiset(Shown(c, holdings, HeldSectors(c, holdings)))
  {
    hide SectorValue, TotalValue, HeldSectors, Share, Shown;
    entries := [];
    var left := buckets.Keys;
    ghost var done := {};
    NothingShown(c, holdings);
    while left != {}
      invariant done + left == buckets.Keys && done !! left
      invariant multiset(entries) == multiset(Shown(c, holdings, done))
    {
      var s :| s in left;
      entries := entries + [EntryOf(s, buckets[s].value, total)];
      ShownStep(c, holdings, done, s);
      left, done := left - {s}, done + {s};
    }
    assert done == buckets.Keys;
  }

  lemma NothingShown(c: Classifier, holdings: seq<Holding>)
    ensures Shown(c, holdings, {}) == {}
  {
  }

  function EntryValue(e: Entry): real { e.value }

  ghost predicate Permutation(s: seq<Entry>, t: seq<Entry>) {
    multiset(s) == multiset(t)
  }

  lemma SwapPermutes(s: seq<Entry>, t: seq<Entry>, j: nat, origin: seq<Entry>)
    requires 0 < j < |s| == |t| && t == s[j - 1 := s[j]][j := s[j - 1]] && Permutation(s, origin)
    ensures Permutation(t, origin)
  {
  }

  // Sorted up to entry i, but for the entry at j, which is larger than those it has passed.
  ghost predicate SortedBut(s: seq<Entry>, i: nat, j: nat) {
    j <= i < |s| && forall p, q :: 0 <= p < q <= i && q != j ==> s[p].value >= s[q].value
  }

  lemma StartSinking(s: seq<Entry>, i: nat)
    requires i < |s| && Descending(Map(EntryValue, s[..i]))
    ensures SortedBut(s, i, i)
  {
    assert forall p :: 0 <= p < i ==> s[p] == s[..i][p];
  }

  lemma SinkOne(s: seq<Entry>, t: seq<Entry>, i: nat, j: nat)
    requires SortedBut(s, i, j) && j > 0 && s[j - 1].value < s[j].value
    requires t == s[j - 1 := s[j]][j := s[j - 1]]
    ensures SortedBut(t, i, j - 1)
  {
  }

  lemma StopSinking(s: seq<Entry>, i: nat, j: nat)
    requires SortedBut(s, i, j) && (j == 0 || s[j - 1].value >= s[j].value)
    ensures Descending(Map(EntryValue, s[..i + 1]))
  {
    forall p, q | 0 <= p < q <= i ensures s[p].value >= s[q].value {
      assert q == j && p < j - 1 ==> s[p].value >= s[j - 1].value;
    }
  }

  // The inner loop: entry i sinks to its place among those before it.
  method Insert(entries: array<Entry>, i: nat, ghost origin: seq<Entry>)
    requires i < entries.Length && Permutation(entries[..], origin)
    requires Descending(Map(EntryValue, entries[..i]))
    modifies entries
    ensures Permutation(entries[..], origin)
    ensures Descending(Map(EntryValue, entries[..i + 1]))
  {
    hide Permutation, SortedBut, Descending, Map;
    var j := i;
    assert entries[..][..i] == entries[..i];
    StartSinking(entries[..], i);
    while j > 0 && entries[j - 1].value < entries[j].value
      invariant 0 <= j <= i
      invariant Permutation(entries[..], origin)
      invariant SortedBut(entries[..], i, j)
    {
      ghost var was := entries[..];
      entries[j - 1], entries[j] := entries[j], entries[j - 1];
      SwapPermutes(was, entries[..], j, origin);
      SinkOne(was, entries[..], i, j);
      j := j - 1;
    }
    StopSinking(entries[..], i, j);
    assert entries[..][..i + 1] == entries[..i + 1];
  }

  method InsertionSort(entries: array<Entry>)
    modifies entries
    ensures multiset(entries[..]) == multiset(old(entries[..]))
    ensures Descending(Map(EntryValue, entries[..]))
  {
    var i := 1;
    while i < entries.Length
      invariant 1 <= i && (i <= entries.Length || entries.Length == 0)
      invariant Permutation(entries[..], old(entries[..]))
      invariant i <= entries.Length ==> Descending(Map(EntryValue, entries[..i]))
    {
      Insert(entries, i, old(entries[..]));
      i := i + 1;
    }
    assert entries.Length > 0 ==> entries[..i] == entries[..];
  }

  // ----- The widget -----

  function WarningText(e: Entry, formatPct: real -> string): string {
    e.sector + " exposure is " + formatPct(e.pct) + " (> 30% threshold)"
  }

  method ConcentrationWarning(entries: seq<Entry>, formatPct: real -> string) returns (warning: string)
    ensures (forall i :: 0 <= i < |entries| ==> !entries[i].overExposed) ==> warning == ""
    ensures forall k :: 0 <= k < |entries| && entries[k].overExposed
              && (forall i :: 0 <= i < k ==> !entries[i].overExposed)
              ==> warning == WarningText(entries[k], formatPct)
  {
    for i := 0 to |entries|
      invariant forall k :: 0 <= k < i ==> !entries[k].overExposed
    {
      if entries[i].overExposed {
        return WarningText(entries[i], formatPct);
      }
    }
    return "";
  }

  // Every held sector once, with its value, largest first.
  ghost predicate Breaks(entries: seq<Entry>, c: Classifier, holdings: seq<Holding>) {
    && multiset(entries) == multiset(Shown(c, holdings, HeldSectors(c, holdings)))
    && Descending(Map(EntryValue, entries))
  }

  method SectorDonutWidget(c: Classifier, holdings: seq<Holding>, formatPct: real -> string)
    returns (w: Widget)
    ensures w.totalValue == TotalValue(holdings) && w.holdingCount == |holdings|
    ensures Breaks(w.sectors, c, holdings)
    ensures w.warning
              == if w.sectors != [] && w.sectors[0].pct > EXPOSURE_LIMIT
                 then WarningText(w.sectors[0], formatPct) else ""
  {
    hide SectorValue, TotalValue, HeldSectors, Share;
    var buckets, total := Accumulate(c, holdings);
    var listed := ListEntries(buckets, total, c, holdings);
    var entries := new Entry[|listed|](i requires 0 <= i < |listed| => listed[i]);
    assert entries[..] == listed;
    InsertionSort(entries);
    var sorted := entries[..];
    var warning := ConcentrationWarning(sorted, formatPct);
    w := Widget(total, sorted, |holdings|, warning);
    ExposedFirst(sorted, c, holdings);
  }

  lemma EntryIs(entries: seq<Entry>, c: Classifier, holdings: seq<Holding>, i: nat)
    requires Breaks(entries, c, holdings) && i < |entries|
    ensures entries[i] == EntryFor(c, holdings, entries[i].sector)
    ensures entries[i].sector in HeldSectors(c, holdings)
  {
    hide SectorValue, TotalValue, HeldSectors, Share;
    assert entries[i] in multiset(entries);
    assert entries[i] in Shown(c, holdings, HeldSectors(c, holdings));
  }

  lemma ShareMonotone(a: real, b: real, total: real)
    requires a <= b
    ensures Share(a, total) <= Share(b, total)
  {
  }

  // Percentages follow the values, so an exposed sector has only exposed ones before it.
  lemma ExposedFirst(entries: seq<Entry>, c: Classifier, holdings: seq<Holding>)
    requires Breaks(entries, c, holdings)
    ensures forall i, j :: 0 <= i < j < |entries| ==> entries[i].pct >= entries[j].pct
    ensures forall i, j :: 0 <= i < j < |entries| && entries[j].overExposed ==> entries[i].overExposed
    ensures forall i :: 0 <= i < |entries| ==> entries[i].overExposed == (entries[i].pct > EXPOSURE_LIMIT)
  {
    hide SectorValue, TotalValue, HeldSectors, Share;
    forall i: nat, j: nat | i <= j < |entries|
      ensures entries[i].pct >= entries[j].pct
      ensures entries[i].overExposed == (entries[i].pct > EXPOSURE_LIMIT)
      ensures entries[j].overExposed == (entries[j].pct > EXPOSURE_LIMIT)
    {
      EntryIs(entries, c, holdings, i);
      EntryIs(entries, c, holdings, j);
      ShareMonotone(entries[j].value, entries[i].value, TotalValue(holdings));
    }
  }

  // ----- Conservation -----

  function EntryPct(e: Entry): real { e.pct }

  ghost function SectorNames(entries: seq<Entry>): (names: seq<string>)
    ensures |names| == |entries|
    ensures forall i :: 0 <= i < |entries| ==> names[i] == entries[i].sector
  {
    seq(|entries|, i requires 0 <= i < |entries| => entries[i].sector)
  }

  ghost predicate Distinct(names: seq<string>) {
    forall i, j :: 0 <= i < j < |names| ==> names[i] != names[j]
  }

  lemma TwiceInMultiset<T>(s: seq<T>, i: nat, j: nat)
    requires i < j < |s| && s[i] == s[j]
    ensures multiset(s)[s[i]] >= 2
  {
    assert s == s[..j] + s[j..];
    assert s[i] in s[..j] && s[i] in s[j..];
  }

  lemma NamesDistinct(entries: seq<Entry>, c: Classifier, holdings: seq<Holding>)
    requires Breaks(entries, c, holdings)
    ensures Distinct(SectorNames(entries))
    ensures forall s :: s in HeldSectors(c, holdings) ==> s in SectorNames(entries)
  {
    hide EntryFor, HeldSectors;
    forall i: nat, j: nat | i < j < |entries| ensures entries[i].sector != entries[j].sector {
      EntryIs(entries, c, holdings, i);
      EntryIs(entries, c, holdings, j);
      if entries[i].sector == entries[j].sector {
        TwiceInMultiset(entries, i, j);
        assert false;
      }
    }
    forall s | s in HeldSectors(c, holdings) ensures s in SectorNames(entries) {
      assert EntryFor(c, holdings, s) in Shown(c, holdings, HeldSectors(c, holdings));
      assert EntryFor(c, holdings, s) in multiset(entries);
      var i :| 0 <= i < |entries| && entries[i] == EntryFor(c, holdings, s);
      NameOfEntry(c, holdings, s);
      assert SectorNames(entries)[i] == s;
    }
  }

  lemma NameOfEntry(c: Classifier, holdings: seq<Holding>, s: string)
    ensures EntryFor(c, holdings, s).sector == s
    ensures EntryFor(c, holdings, s).value == SectorValue(c, holdings, s)
  {
  }

  ghost function ValueIn(c: Classifier, holdings: seq<Holding>): string -> real {
    s => SectorValue(c, holdings, s)
  }

  ghost function PartIn(c: Classifier, h: Holding): string -> real {
    s => PartOf(c, s, h)
  }

  // A holding counts in its own sector and nowhere else.
  lemma OnePart(c: Classifier, h: Holding, names: seq<string>)
    requires Distinct(names) && (CurrentValue(h) > 0.0 ==> SectorOf(c, h) in names)
    ensures Sum(Map(PartIn(c, h), names)) == PositiveValue(h)
  {
    hide SectorOf, Sum, CurrentValue;
    var parts := Map(PartIn(c, h), names);
    forall i | 0 <= i < |names|
      ensures parts[i] == if SectorOf(c, h) == names[i] then PositiveValue(h) else 0.0
    {
      assert parts[i] == PartOf(c, names[i], h);
    }
    if SectorOf(c, h) in names {
      var k :| 0 <= k < |names| && names[k] == SectorOf(c, h);
      SumWithout(parts, k);
      SumNonNegative(Without(parts, k));
    } else {
      SumNonNegative(parts);
    }
  }

  lemma {:induction false} SectorsCover(c: Classifier, holdings: seq<Holding>, names: seq<string>)
    requires Distinct(names) && forall s :: s in HeldSectors(c, holdings) ==> s in names
    ensures Sum(Map(ValueIn(c, holdings), names)) == TotalValue(holdings)
  {
    hide Distinct, SectorPart, HeldSectors, SectorOf, Sum, PositiveValue;
    if holdings == [] {
      NothingHeld(c);
      NoSectorValue(c, names);
    } else {
      var front, h := holdings[..|holdings| - 1], holdings[|holdings| - 1];
      assert holdings == front + [h];
      HeldStep(c, front, h);
      SectorsCover(c, front, names);
      OnePart(c, h, names);
      forall s ensures ValueIn(c, holdings)(s) == ValueIn(c, front)(s) + PartIn(c, h)(s) {
        SectorStep(c, front, h, s);
      }
      SectorStep(c, front, h, "");
      SumMapAdd(ValueIn(c, front), PartIn(c, h), ValueIn(c, holdings), names);
    }
  }

  lemma NoSectorValue(c: Classifier, names: seq<string>)
    ensures Sum(Map(ValueIn(c, []), names)) == 0.0
  {
    SumNonNegative(Map(ValueIn(c, []), names));
  }

  // The sector values add up to the total.
  lemma SectorsConserve(entries: seq<Entry>, c: Classifier, holdings: seq<Holding>)
    requires Breaks(entries, c, holdings)
    ensures Sum(Map(EntryValue, entries)) == TotalValue(holdings)
  {
    hide Sum, TotalValue, SectorValue, HeldSectors, Share, Shown;
    NamesDistinct(entries, c, holdings);
    SectorsCover(c, holdings, SectorNames(entries));
    forall i: nat | i < |entries| ensures entries[i].value == ValueIn(c, holdings)(SectorNames(entries)[i]) {
      EntryIs(entries, c, holdings, i);
      NameOfEntry(c, holdings, entries[i].sector);
    }
    assert Map(EntryValue, entries) == Map(ValueIn(c, holdings), SectorNames(entries));
  }

  // A sector that is held has a positive value, and so has the whole portfolio.
  lemma HeldIsPositive(c: Classifier, holdings: seq<Holding>, s: string)
    requires s in HeldSectors(c, holdings)
    ensures SectorValue(c, holdings, s) > 0.0 && TotalValue(holdings) > 0.0
  {
    hide Sum, SectorOf, CurrentValue;
    var i :| 0 <= i < |holdings| && CurrentValue(holdings[i]) > 0.0 && SectorOf(c, holdings[i]) == s;
    var parts, all := Map(SectorPart(c, s), holdings), Map(PositiveValue, holdings);
    SumWithout(parts, i);
    SumNonNegative(Without(parts, i));
    SumWithout(all, i);
    SumNonNegative(Without(all, i));
  }

  lemma {:induction false} SharesAdd(entries: seq<Entry>, total: real)
    requires total > 0.0 && forall i :: 0 <= i < |entries| ==> entries[i].pct == Share(entries[i].value, total)
    ensures Sum(Map(EntryPct, entries)) == Share(Sum(Map(EntryValue, entries)), total)
  {
    hide Sum, Share;
    if entries == [] {
      NoShare(total);
    } else {
      var front, e := entries[..|entries| - 1], entries[|entries| - 1];
      assert entries == front + [e];
      SharesAdd(front, total);
      SumMapAppend(EntryPct, front, e);
      SumMapAppend(EntryValue, front, e);
      ShareAdds(Sum(Map(EntryValue, front)), e.value, total);
    }
  }

  lemma NoShare(total: real)
    ensures Sum(Map(EntryPct, [])) == Share(Sum(Map(EntryValue, [])), total) == 0.0
  {
  }

  lemma ShareAdds(a: real, b: real, total: real)
    requires total > 0.0
    ensures Share(a + b, total) == Share(a, total) + Share(b, total)
  {
  }

  lemma ShareOfPart(value: real, total: real)
    requires total > 0.0
    ensures value > 0.0 ==> Share(value, total) > 0.0
    ensures Share(total, total) == 100.0
  {
  }

  // The percentages add up to 100, or there is nothing to show.
  lemma PercentagesConserve(entries: seq<Entry>, c: Classifier, holdings: seq<Holding>)
    requires Breaks(entries, c, holdings)
    ensures entries != [] <==> TotalValue(holdings) > 0.0
    ensures entries != [] ==> Sum(Map(EntryPct, entries)) == 100.0
    ensures forall i :: 0 <= i < |entries| ==> entries[i].value > 0.0 && entries[i].pct > 0.0
  {
    hide Sum, TotalValue, SectorValue, HeldSectors, Share, Shown;
    var total := TotalValue(holdings);
    SectorsConserve(entries, c, holdings);
    forall i: nat | i < |entries|
      ensures entries[i].value > 0.0 && total > 0.0
      ensures entries[i].pct == Share(entries[i].value, total) > 0.0
    {
      EntryIs(entries, c, holdings, i);
      NameOfEntry(c, holdings, entries[i].sector);
      HeldIsPositive(c, holdings, entries[i].sector);
      ShareOfPart(entries[i].value, total);
    }
    if entries == [] {
      NoShare(total);
      SumNonNegative(Map(EntryValue, entries));
    } else {
      assert entries[0].value > 0.0;
      SharesAdd(entries, total);
      ShareOfPart(total, total);
    }
  }

  ghost predicate ExposedUpTo(entries: seq<Entry>, k: nat) {
    k <= |entries| && forall i :: 0 <= i < |entries| ==> (entries[i].overExposed <==> i < k)
  }

  // The over-exposed sectors are a prefix of at most three.
  lemma ExposedPrefix(entries: seq<Entry>, c: Classifier, holdings: seq<Holding>)
    requires Breaks(entries, c, holdings)
    ensures exists k: nat :: k <= 3 && ExposedUpTo(entries, k)
  {
    hide Breaks, Sum;
    ExposedFirst(entries, c, holdings);
    PercentagesConserve(entries, c, holdings);
    if |entries| > 3 {
      var pcts := Map(EntryPct, entries);
      PrefixSumsGrow(pcts, 4, |pcts|);
      assert pcts[..|pcts|] == pcts;
      if entries[3].overExposed {
        SumAtLeast(pcts[..4], EXPOSURE_LIMIT);
        assert false;
      }
    }
    var k: nat := 0;
    while k < |entries| && entries[k].overExposed
      invariant k <= |entries| && k <= 3
      invariant forall i :: 0 <= i < k ==> entries[i].overExposed
    {
      k := k + 1;
    }
    assert ExposedUpTo(entries, k);
  }

  lemma FirstIsLargest(entries: seq<Entry>, c: Classifier, holdings: seq<Holding>, s: string)
    requires Breaks(entries, c, holdings) && s in HeldSectors(c, holdings)
    ensures entries != [] && SectorValue(c, holdings, s) <= entries[0].value
    ensures Share(SectorValue(c, holdings, s), TotalValue(holdings)) <= entries[0].pct
  {
    hide SectorValue, TotalValue, HeldSectors, Share, Shown;
    NamesDistinct(entries, c, holdings);
    ExposedFirst(entries, c, holdings);
    var i: nat :| i < |entries| && SectorNames(entries)[i] == s;
    EntryIs(entries, c, holdings, i);
  }

  // There is a warning exactly when some sector is above the limit, and it names a largest one.
  lemma WarningNamesLargest(w: Widget, c: Classifier, holdings: seq<Holding>, formatPct: real -> string)
    requires Breaks(w.sectors, c, holdings)
    requires w.warning
               == if w.sectors != [] && w.sectors[0].pct > EXPOSURE_LIMIT
                  then WarningText(w.sectors[0], formatPct) else ""
    ensures w.warning != "" <==>
              exists s :: s in HeldSectors(c, holdings)
                && Share(SectorValue(c, holdings, s), TotalValue(holdings)) > EXPOSURE_LIMIT
    ensures w.warning != "" ==>
              && w.sectors != [] && w.warning == WarningText(w.sectors[0], formatPct)
              && forall s :: s in HeldSectors(c, holdings) ==> SectorValue(c, holdings, s) <= w.sectors[0].value
  {
    hide SectorValue, TotalValue, HeldSectors, Share, Shown, Breaks;
    forall s | s in HeldSectors(c, holdings)
      ensures w.sectors != [] && SectorValue(c, holdings, s) <= w.sectors[0].value
      ensures Share(SectorValue(c, holdings, s), TotalValue(holdings)) <= w.sectors[0].pct
    {
      FirstIsLargest(w.sectors, c, holdings, s);
    }
    if w.sectors != [] {
      EntryIs(w.sectors, c, holdings, 0);
    }
  }
}
