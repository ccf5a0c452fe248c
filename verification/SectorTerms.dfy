/**
 * The sector widget in terms of the holdings alone: which sectors are shown, and what each one's
 * value, percentage and flag are.
 */
module SectorTerms {
  import opened Holdings
  import opened Sums
  import opened SectorDonut

  function Worth(h: Holding): real { h.lastPrice * h.quantity as real }

  // The holding counts for the sector its normalised symbol has in the table, or for "Unmapped".
  predicate Belongs(c: Classifier, h: Holding, sector: string) {
    var symbol := c.normalize(h.symbol);
    && Worth(h) > 0.0
    && if symbol in c.sectors then c.sectors[symbol] == sector else sector == "Unmapped"
  }

  function WorthIn(c: Classifier, sector: string): Holding -> real {
    (h: Holding) => if Belongs(c, h, sector) then Worth(h) else 0.0
  }

  function PositiveWorth(h: Holding): real { if Worth(h) > 0.0 then Worth(h) else 0.0 }

  lemma PartTerms(c: Classifier, h: Holding, sector: string)
    ensures PartOf(c, sector, h) == WorthIn(c, sector)(h) && PositiveValue(h) == PositiveWorth(h)
  {
  }

  lemma SectorValueTerms(c: Classifier, holdings: seq<Holding>, sector: string)
    ensures SectorValue(c, holdings, sector) == Sum(Map(WorthIn(c, sector), holdings))
    ensures TotalValue(holdings) == Sum(Map(PositiveWorth, holdings))
  {
    hide Sum, PartOf, WorthIn, PositiveValue, PositiveWorth;
    forall i | 0 <= i < |holdings|
      ensures Map(SectorPart(c, sector), holdings)[i] == Map(WorthIn(c, sector), holdings)[i]
      ensures Map(PositiveValue, holdings)[i] == Map(PositiveWorth, holdings)[i]
    {
      PartTerms(c, holdings[i], sector);
    }
    assert Map(SectorPart(c, sector), holdings) == Map(WorthIn(c, sector), holdings);
    assert Map(PositiveValue, holdings) == Map(PositiveWorth, holdings);
  }

  ghost predicate SomeBelong(c: Classifier, holdings: seq<Holding>, sector: string) {
    exists i :: 0 <= i < |holdings| && Belongs(c, holdings[i], sector)
  }

  ghost predicate IsShown(entries: seq<Entry>, sector: string) {
    exists i :: 0 <= i < |entries| && entries[i].sector == sector
  }

  lemma HeldTerms(c: Classifier, holdings: seq<Holding>, sector: string)
    ensures sector in HeldSectors(c, holdings) <==> SomeBelong(c, holdings, sector)
  {
    if sector in HeldSectors(c, holdings) {
      var i :| 0 <= i < |holdings| && CurrentValue(holdings[i]) > 0.0 && SectorOf(c, holdings[i]) == sector;
      assert Belongs(c, holdings[i], sector);
    }
    if i :| 0 <= i < |holdings| && Belongs(c, holdings[i], sector) {
      assert SectorOf(c, holdings[i]) == sector;
    }
  }

  ghost predicate EntryFits(e: Entry, c: Classifier, holdings: seq<Holding>) {
    var total := Sum(Map(PositiveWorth, holdings));
    && e.value == Sum(Map(WorthIn(c, e.sector), holdings))
    && e.pct * total == 100.0 * e.value
    && (e.overExposed <==> 100.0 * e.value > 30.0 * total)
  }

  lemma ShareTerms(value: real, total: real)
    requires total > 0.0
    ensures Share(value, total) * total == 100.0 * value
    ensures Share(value, total) > 30.0 <==> 100.0 * value > 30.0 * total
  {
    var q := value / total;
    assert q * total == value;
    assert q > 0.3 ==> (q - 0.3) * total > 0.0;
    assert q <= 0.3 ==> (0.3 - q) * total >= 0.0;
  }

  lemma ShownTerms(entries: seq<Entry>, c: Classifier, holdings: seq<Holding>, s: string)
    requires Breaks(entries, c, holdings)
    ensures IsShown(entries, s) <==> SomeBelong(c, holdings, s)
  {
    hide Sum, HeldSectors, Shown, Breaks, SomeBelong;
    HeldTerms(c, holdings, s);
    NamesDistinct(entries, c, holdings);
    if i: nat :| i < |entries| && entries[i].sector == s {
      EntryIs(entries, c, holdings, i);
    }
    if s in HeldSectors(c, holdings) {
      var i :| 0 <= i < |entries| && SectorNames(entries)[i] == s;
      assert entries[i].sector == s;
    }
  }

  lemma EntryTerms(entries: seq<Entry>, c: Classifier, holdings: seq<Holding>, i: nat)
    requires Breaks(entries, c, holdings) && i < |entries|
    ensures EntryFits(entries[i], c, holdings)
  {
    hide Sum, SectorValue, TotalValue, HeldSectors, Share, Shown, Breaks;
    PercentagesConserve(entries, c, holdings);
    EntryIs(entries, c, holdings, i);
    SectorValueTerms(c, holdings, entries[i].sector);
    ShareTerms(entries[i].value, TotalValue(holdings));
  }

  // Every sector that some holding of positive worth belongs to is shown exactly once, and no other,
  // with the worth it holds and its percentage of all of it.
  lemma SectorsShown(entries: seq<Entry>, c: Classifier, holdings: seq<Holding>)
    requires Breaks(entries, c, holdings)
    ensures forall i, j :: 0 <= i < j < |entries| ==> entries[i].sector != entries[j].sector
    ensures forall s :: IsShown(entries, s) <==> SomeBelong(c, holdings, s)
    ensures forall i :: 0 <= i < |entries| ==> EntryFits(entries[i], c, holdings)
  {
    hide Breaks, IsShown, SomeBelong, EntryFits;
    NamesDistinct(entries, c, holdings);
    forall i: nat, j: nat | i < j < |entries| ensures entries[i].sector != entries[j].sector {
      assert SectorNames(entries)[i] != SectorNames(entries)[j];
    }
    forall s ensures IsShown(entries, s) <==> SomeBelong(c, holdings, s) {
      ShownTerms(entries, c, holdings, s);
    }
    forall i: nat | i < |entries| ensures EntryFits(entries[i], c, holdings) {
      EntryTerms(entries, c, holdings, i);
    }
  }

  // The warning is about the first and largest sector, by name and percentage, if that is above
  // thirty percent.
  lemma WarningTerms(w: Widget, c: Classifier, holdings: seq<Holding>, formatPct: real -> string)
    requires Breaks(w.sectors, c, holdings)
    requires w.warning
               == if w.sectors != [] && w.sectors[0].pct > EXPOSURE_LIMIT
                  then WarningText(w.sectors[0], formatPct) else ""
    ensures w.warning
              == if w.sectors != [] && w.sectors[0].pct > 30.0
                 then w.sectors[0].sector + " exposure is " + formatPct(w.sectors[0].pct) + " (> 30% threshold)" else ""
  {
  }
}
