/** The dashboard object: the commune catalog, the synthesized history, the
    current commune table and the micro-region table, built once when the
    dashboard starts, plus the affordability columns that the
    affordability tab adds to the current table. */
module Dashboard {
  import opened Seqs
  import opened Catalog
  import opened PriceHistory
  import opened Regions
  import opened Analysis
  import opened Affordability

  class ReunionHousingDashboard {
    var communesData: seq<Commune>
    var historicalData: seq<HistoricalPoint>
    var currentData: seq<Commune>
    var microregionData: seq<RegionSummary>

    // Columns of the current table that exist once the affordability tab
    // has run; empty before.
    var flatPrice: seq<int>
    var flatRent: seq<real>
    var savingYears: seq<real>

    /** The tables are consistent with one another: the current table is
        the catalog, the micro-region table summarizes it, and the
        affordability columns, when present, run alongside it. */
    ghost predicate Valid()
      reads this
    {
      && currentData == communesData
      && microregionData == Summaries(communesData)
      && ((flatPrice == [] && flatRent == [] && savingYears == [])
          || AffordabilityColumnsOf(currentData, flatPrice, flatRent, savingYears))
    }

    /** Builds the tables from a commune table, for the given list of months
        and one row of noise draws per month; the dashboard itself starts
        from `CommunesData()`. */
    constructor (cs: seq<Commune>, months: seq<Month>, noise: seq<seq<real>>)
      requires NoiseShape(months, cs, noise)
      ensures Valid()
      ensures communesData == cs
      ensures historicalData == History(months, cs, noise)
      ensures flatPrice == [] && flatRent == [] && savingYears == []
    {
      var history := SynthesizeHistory(months, cs, noise);
      var summaries := InitializeMicroregionData(cs);
      communesData := cs;
      historicalData := history;
      currentData := cs;
      microregionData := summaries;
      flatPrice := [];
      flatRent := [];
      savingYears := [];
    }

    /** Adds the price and rent of a 70 m² flat and the years of saving it
        takes to every row of the current table, leaving the tables
        themselves as they were. */
    method AddAffordabilityColumns()
      requires Valid()
      modifies this
      ensures Valid()
      ensures AffordabilityColumnsOf(currentData, flatPrice, flatRent, savingYears)
      ensures communesData == old(communesData) && currentData == old(currentData)
      ensures historicalData == old(historicalData) && microregionData == old(microregionData)
    {
      var rows := currentData;
      var prices := seq(|rows|, i requires 0 <= i < |rows| => FlatPrice(rows[i]));
      var rents := seq(|rows|, i requires 0 <= i < |rows| => FlatRent(rows[i]));
      var years := seq(|rows|, i requires 0 <= i < |rows| => SavingYears(rows[i]));
      assert AffordabilityColumnsOf(rows, prices, rents, years);
      flatPrice, flatRent, savingYears := prices, rents, years;
    }

    /** The key-metrics banner, read from the current table. */
    method KeyFigures() returns (m: KeyMetrics)
      requires Valid() && currentData != []
      ensures m == GlobalMetrics(currentData)
      ensures m.totalPopulation == SumInt(microregionData, SummaryPopulation)
      ensures m.totalPermits == SumInt(microregionData, SummaryPermits)
    {
      DistinctRegionsListsRegions(currentData);
      SummariesPartition(currentData, DistinctRegions(currentData));
      m := GlobalMetrics(currentData);
    }

    /** The commune table of the analysis tab: the current rows that pass
        the region and size filters, sorted on the chosen column. */
    method CommunesAnalysis(region: RegionChoice, size: SizeChoice, key: SortKey)
      returns (rows: seq<Commune>)
      ensures multiset(rows) == multiset(Selected(currentData, region, size))
      ensures SortedDesc(rows, KeyFn(key))
    {
      rows := FilterAndSort(currentData, region, size, key);
    }
  }

  /** The three affordability columns hold, row by row, the derived values
      of the commune in that row. */
  ghost predicate AffordabilityColumnsOf(cs: seq<Commune>, flatPrice: seq<int>, flatRent: seq<real>, savingYears: seq<real>)
  {
    && |flatPrice| == |cs| && |flatRent| == |cs| && |savingYears| == |cs|
    && forall i :: 0 <= i < |cs| ==>
         && flatPrice[i] == FlatPrice(cs[i])
         && flatRent[i] == FlatRent(cs[i])
         && savingYears[i] == SavingYears(cs[i])
  }
}
