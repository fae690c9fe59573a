/** The micro-region table: one summary row per distinct region of the
    communes, with population and permit totals, mean price, mean price
    change, mean vacancy and the number of communes; and the island-wide
    key metrics shown at the top of the dashboard. */
module Regions {
  import opened Seqs
  import opened Catalog

  datatype RegionSummary = RegionSummary(
    region: Region,
    population: int,
    meanPrice: real,
    meanPriceChange: real,
    permits: int,
    meanVacancy: real,
    communeCount: nat)

  /** The island-wide figures: mean price, mean price change, mean rent,
      total population and total permits. */
  datatype KeyMetrics = KeyMetrics(
    meanPrice: real,
    meanPriceChange: real,
    meanRent: real,
    totalPopulation: int,
    totalPermits: int)

  // Columns of the commune table, as functions that sums and means take.
  function PopulationOf(c: Commune): int { c.population }
  function PermitsOf(c: Commune): int { c.permits }
  function OneOf(c: Commune): int { 1 }
  function PriceOf(c: Commune): real { c.price as real }
  function PriceChangeOf(c: Commune): real { c.priceChange }
  function VacancyOf(c: Commune): real { c.vacancy }
  function RentOf(c: Commune): real { c.rent }

  // Columns of the summary table.
  function SummaryPopulation(s: RegionSummary): int { s.population }
  function SummaryPermits(s: RegionSummary): int { s.permits }
  function SummaryCount(s: RegionSummary): int { s.communeCount }

  /** Arithmetic mean of a column over a non-empty group. */
  function Mean(cs: seq<Commune>, f: Commune -> real): (m: real)
    requires cs != []
  {
    SumReal(cs, f) / |cs| as real
  }

  /** Smallest value of a column over a non-empty group. */
  function MinOf(cs: seq<Commune>, f: Commune -> real): (m: real)
    requires cs != []
    ensures forall c :: c in cs ==> m <= f(c)
    ensures exists c :: c in cs && f(c) == m
  {
    if |cs| == 1 then f(cs[0])
    else
      var rest := MinOf(cs[1..], f);
      assert forall c :: c in cs ==> c == cs[0] || c in cs[1..];
      if f(cs[0]) <= rest then f(cs[0]) else rest
  }

  /** Largest value of a column over a non-empty group. */
  function MaxOf(cs: seq<Commune>, f: Commune -> real): (m: real)
    requires cs != []
    ensures forall c :: c in cs ==> f(c) <= m
    ensures exists c :: c in cs && f(c) == m
  {
    if |cs| == 1 then f(cs[0])
    else
      var rest := MaxOf(cs[1..], f);
      assert forall c :: c in cs ==> c == cs[0] || c in cs[1..];
      if f(cs[0]) >= rest then f(cs[0]) else rest
  }

  /** A mean lies between the smallest and the largest value averaged. */
  lemma MeanWithinRange(cs: seq<Commune>, f: Commune -> real)
    requires cs != []
    ensures MinOf(cs, f) <= Mean(cs, f) <= MaxOf(cs, f)
  {
    MeanBetween(cs, f, MinOf(cs, f), MaxOf(cs, f));
  }

  /** Bounds on every value of a group bound its mean. */
  lemma MeanBetween(cs: seq<Commune>, f: Commune -> real, lo: real, hi: real)
    requires cs != []
    requires forall c :: c in cs ==> lo <= f(c) <= hi
    ensures lo <= Mean(cs, f) <= hi
  {
    SumRealBounds(cs, f, lo, hi);
    DivideBounds(SumReal(cs, f), |cs| as real, lo, hi);
  }

  lemma DivideBounds(s: real, n: real, lo: real, hi: real)
    requires n > 0.0 && n * lo <= s <= n * hi
    ensures lo <= s / n <= hi
  {
    var q := s / n;
    assert (q - lo) * n == s - n * lo >= 0.0;
    assert (hi - q) * n == n * hi - s >= 0.0;
  }

  /** The distinct regions of the communes, in order of first appearance.
      The source takes them from a Python set, whose order is arbitrary, so
      the properties of the table below are stated for every listing of
      the regions (`ListsRegionsOf`), of which this is one. */
  function DistinctRegions(cs: seq<Commune>): (rs: seq<Region>)
    ensures Distinct(rs)
    ensures forall r :: r in rs <==> exists c :: c in cs && c.region == r
  {
    if cs == [] then []
    else
      var init := cs[..|cs| - 1];
      var rest := DistinctRegions(init);
      var r := cs[|cs| - 1].region;
      assert forall c :: c in cs <==> c in init || c == cs[|cs| - 1];
      if r in rest then rest else rest + [r]
  }

  ghost predicate Distinct(rs: seq<Region>)
  {
    forall i, j :: 0 <= i < j < |rs| ==> rs[i] != rs[j]
  }

  /** `regs` lists the regions that have communes, each once, in any order:
      an order the source's loop over a set of regions may take. */
  ghost predicate ListsRegionsOf(cs: seq<Commune>, regs: seq<Region>)
  {
    && Distinct(regs)
    && forall r :: r in regs <==> OfRegion(cs, r) != []
  }

  /** The summary row of region `r`: filter the communes of `r`, then sum
      and average their columns. */
  function Summarize(cs: seq<Commune>, r: Region): (s: RegionSummary)
    requires OfRegion(cs, r) != []
  {
    var group := OfRegion(cs, r);
    RegionSummary(
      r,
      SumInt(group, PopulationOf),
      Mean(group, PriceOf),
      Mean(group, PriceChangeOf),
      SumInt(group, PermitsOf),
      Mean(group, VacancyOf),
      |group|)
  }

  /** One summary per listed region, in the listed order. */
  function SummariesFor(cs: seq<Commune>, regs: seq<Region>): (ss: seq<RegionSummary>)
    requires forall r :: r in regs ==> OfRegion(cs, r) != []
    ensures |ss| == |regs|
    ensures forall i :: 0 <= i < |regs| ==> ss[i].region == regs[i]
  {
    if regs == [] then []
    else [Summarize(cs, regs[0])] + SummariesFor(cs, regs[1..])
  }

  lemma RegionOfCommuneIsPresent(cs: seq<Commune>, r: Region)
    requires r in DistinctRegions(cs)
    ensures OfRegion(cs, r) != []
  {
    var c :| c in cs && c.region == r;
    assert c in OfRegion(cs, r);
  }

  /** Regions in order of first appearance are one such listing. */
  lemma DistinctRegionsListsRegions(cs: seq<Commune>)
    ensures ListsRegionsOf(cs, DistinctRegions(cs))
  {
    forall r ensures r in DistinctRegions(cs) <==> OfRegion(cs, r) != [] {
      if r in DistinctRegions(cs) {
        RegionOfCommuneIsPresent(cs, r);
      }
      if OfRegion(cs, r) != [] {
        var c := OfRegion(cs, r)[0];
        assert c in OfRegion(cs, r);
      }
    }
  }

  /** Every commune's region is listed. */
  lemma CommuneRegionsListed(cs: seq<Commune>, regs: seq<Region>)
    requires ListsRegionsOf(cs, regs)
    ensures forall c :: c in cs ==> c.region in regs
  {
    forall c | c in cs ensures c.region in regs {
      assert c in OfRegion(cs, c.region);
    }
  }

  /** The micro-region table. */
  function Summaries(cs: seq<Commune>): (ss: seq<RegionSummary>)
  {
    var regs := DistinctRegions(cs);
    forall r | r in regs ensures OfRegion(cs, r) != [] {
      RegionOfCommuneIsPresent(cs, r);
    }
    SummariesFor(cs, regs)
  }

  /** Builds the table with the source's loop over the distinct regions,
      appending one summary row per region. */
  method InitializeMicroregionData(cs: seq<Commune>) returns (data: seq<RegionSummary>)
    ensures data == Summaries(cs)
  {
    var regs := DistinctRegions(cs);
    forall r | r in regs ensures OfRegion(cs, r) != [] {
      RegionOfCommuneIsPresent(cs, r);
    }
    data := [];
    var i := 0;
    while i < |regs|
      invariant 0 <= i <= |regs|
      invariant data + SummariesFor(cs, regs[i..]) == Summaries(cs)
    {
      assert regs[i..][1..] == regs[i + 1..];
      data := data + [Summarize(cs, regs[i])];
      i := i + 1;
    }
  }

  /** The island-wide figures of the key-metrics banner. */
  function GlobalMetrics(cs: seq<Commune>): (m: KeyMetrics)
    requires cs != []
  {
    KeyMetrics(
      Mean(cs, PriceOf),
      Mean(cs, PriceChangeOf),
      Mean(cs, RentOf),
      SumInt(cs, PopulationOf),
      SumInt(cs, PermitsOf))
  }

  // ---------------------------------------------------------------------
  // The summaries partition the communes.

  /** Sum of a column over the groups of the listed regions. */
  function SumOverRegions(cs: seq<Commune>, regs: seq<Region>, f: Commune -> int): (total: int)
  {
    if regs == [] then 0 else SumInt(OfRegion(cs, regs[0]), f) + SumOverRegions(cs, regs[1..], f)
  }

  lemma {:induction false} SumOverNoCommunes(regs: seq<Region>, f: Commune -> int)
    ensures SumOverRegions([], regs, f) == 0
  {
    if regs != [] {
      SumOverNoCommunes(regs[1..], f);
    }
  }

  /** Taking the first commune out of every group takes its value out of
      exactly the group of its own region, if that region is listed. */
  lemma {:induction false} SumOverRegionsPeel(cs: seq<Commune>, regs: seq<Region>, f: Commune -> int)
    requires cs != [] && Distinct(regs)
    ensures SumOverRegions(cs, regs, f)
         == SumOverRegions(cs[1..], regs, f) + (if cs[0].region in regs then f(cs[0]) else 0)
  {
    if regs != [] {
      SumOverRegionsPeel(cs, regs[1..], f);
      assert cs[0].region == regs[0] ==> cs[0].region !in regs[1..];
      assert cs[0].region in regs <==> cs[0].region == regs[0] || cs[0].region in regs[1..];
    }
  }

  /** For any listing of regions that names each region once and names
      every commune's region, the group totals add up to the overall total. */
  lemma {:induction false} PartitionSum(cs: seq<Commune>, regs: seq<Region>, f: Commune -> int)
    requires Distinct(regs)
    requires forall c :: c in cs ==> c.region in regs
    ensures SumOverRegions(cs, regs, f) == SumInt(cs, f)
  {
    if cs == [] {
      SumOverNoCommunes(regs, f);
    } else {
      PartitionSum(cs[1..], regs, f);
      SumOverRegionsPeel(cs, regs, f);
    }
  }

  lemma {:induction false} SumOfOnes(cs: seq<Commune>)
    ensures SumInt(cs, OneOf) == |cs|
  {
    if cs != [] {
      SumOfOnes(cs[1..]);
    }
  }

  /** Summing a summary column over the table is summing the matching
      commune column group by group. */
  lemma {:induction false} SummaryColumns(cs: seq<Commune>, regs: seq<Region>)
    requires forall r :: r in regs ==> OfRegion(cs, r) != []
    ensures SumInt(SummariesFor(cs, regs), SummaryPopulation) == SumOverRegions(cs, regs, PopulationOf)
    ensures SumInt(SummariesFor(cs, regs), SummaryPermits) == SumOverRegions(cs, regs, PermitsOf)
    ensures SumInt(SummariesFor(cs, regs), SummaryCount) == SumOverRegions(cs, regs, OneOf)
  {
    if regs != [] {
      SummaryColumns(cs, regs[1..]);
      SumOfOnes(OfRegion(cs, regs[0]));
      assert SummariesFor(cs, regs)[1..] == SummariesFor(cs, regs[1..]);
    }
  }

  /** The micro-region table partitions the communes, whatever the order of
      its rows: its commune counts add up to the number of communes, and
      its population and permit totals add up to the island-wide totals of
      the key-metrics banner. */
  lemma SummariesPartition(cs: seq<Commune>, regs: seq<Region>)
    requires ListsRegionsOf(cs, regs)
    ensures SumInt(SummariesFor(cs, regs), SummaryCount) == |cs|
    ensures SumInt(SummariesFor(cs, regs), SummaryPopulation) == SumInt(cs, PopulationOf)
    ensures SumInt(SummariesFor(cs, regs), SummaryPermits) == SumInt(cs, PermitsOf)
    ensures cs != [] ==>
      && SumInt(SummariesFor(cs, regs), SummaryPopulation) == GlobalMetrics(cs).totalPopulation
      && SumInt(SummariesFor(cs, regs), SummaryPermits) == GlobalMetrics(cs).totalPermits
  {
    CommuneRegionsListed(cs, regs);
    SummaryColumns(cs, regs);
    PartitionSum(cs, regs, PopulationOf);
    PartitionSum(cs, regs, PermitsOf);
    PartitionSum(cs, regs, OneOf);
    SumOfOnes(cs);
  }

  /** Whatever the order of the rows, each row counts its region's communes
      (at least one) and states their means, each between the smallest and
      largest value of its column. */
  lemma SummaryRows(cs: seq<Commune>, regs: seq<Region>, i: nat)
    requires ListsRegionsOf(cs, regs)
    requires i < |regs|
    ensures var s := SummariesFor(cs, regs)[i];
      var group := OfRegion(cs, s.region);
      && group != []
      && s.communeCount == |group| >= 1
      && MinOf(group, PriceOf) <= s.meanPrice <= MaxOf(group, PriceOf)
      && MinOf(group, PriceChangeOf) <= s.meanPriceChange <= MaxOf(group, PriceChangeOf)
      && MinOf(group, VacancyOf) <= s.meanVacancy <= MaxOf(group, VacancyOf)
  {
    SummaryRowIs(cs, regs, i);
    var group := OfRegion(cs, regs[i]);
    MeanWithinRange(group, PriceOf);
    MeanWithinRange(group, PriceChangeOf);
    MeanWithinRange(group, VacancyOf);
  }

  lemma {:induction false} SummaryRowIs(cs: seq<Commune>, regs: seq<Region>, i: nat)
    requires forall r :: r in regs ==> OfRegion(cs, r) != []
    requires i < |regs|
    ensures SummariesFor(cs, regs)[i] == Summarize(cs, regs[i])
  {
    if i > 0 {
      SummaryRowIs(cs, regs[1..], i - 1);
    }
  }

  /** The region column of the table. */
  function RowRegions(ss: seq<RegionSummary>): (rs: seq<Region>)
  {
    seq(|ss|, i requires 0 <= i < |ss| => ss[i].region)
  }

  /** The rows of the model's own table list the regions, so every lemma
      above applies to it: they name distinct regions, and a region has a
      row exactly when some commune lies in it. */
  lemma SummaryRegions(cs: seq<Commune>)
    ensures ListsRegionsOf(cs, RowRegions(Summaries(cs)))
    ensures forall r :: r in RowRegions(Summaries(cs)) <==> exists c :: c in cs && c.region == r
  {
    assert RowRegions(Summaries(cs)) == DistinctRegions(cs);
    DistinctRegionsListsRegions(cs);
  }

  /** When every region has communes the table has one row per region,
      five in all, whatever their order. */
  lemma FiveRows(cs: seq<Commune>, regs: seq<Region>)
    requires ListsRegionsOf(cs, regs)
    requires forall r :: OfRegion(cs, r) != []
    ensures |SummariesFor(cs, regs)| == 5
  {
    AllRegionsDistinct(regs);
  }

  /** On the dashboard's own catalog the table has five rows, in whatever
      order: Nord 3 communes, Ouest 7, Sud 7, Est 4 and Cirques 2. */
  lemma CatalogSummaries(regs: seq<Region>)
    requires ListsRegionsOf(CommunesData(), regs)
    ensures |SummariesFor(CommunesData(), regs)| == 5
    ensures forall i :: 0 <= i < 5 ==>
      SummariesFor(CommunesData(), regs)[i].communeCount == CatalogCount(SummariesFor(CommunesData(), regs)[i].region)
  {
    var cs := CommunesData();
    forall r ensures OfRegion(cs, r) != [] {
      CatalogRegionCount(r);
    }
    FiveRows(cs, regs);
    forall i | 0 <= i < 5
      ensures SummariesFor(cs, regs)[i].communeCount == CatalogCount(SummariesFor(cs, regs)[i].region)
    {
      SummaryRows(cs, regs, i);
      CatalogRegionCount(regs[i]);
    }
  }

  /** A repetition-free list that names all five regions has five entries. */
  lemma AllRegionsDistinct(regs: seq<Region>)
    requires Distinct(regs)
    requires forall r :: r in regs
    ensures |regs| == 5
  {
    var all := {Nord, Sud, Ouest, Est, Cirques};
    forall r: Region ensures r in all {
      match r
      case Nord =>
      case Sud =>
      case Ouest =>
      case Est =>
      case Cirques =>
    }
    DistinctCard(regs);
    assert (set r | r in regs) == all;
  }

  lemma {:induction false} DistinctCard(regs: seq<Region>)
    requires Distinct(regs)
    ensures |set r | r in regs| == |regs|
  {
    if regs != [] {
      DistinctCard(regs[1..]);
      assert (set r | r in regs) == (set r | r in regs[1..]) + {regs[0]};
      assert regs[0] !in regs[1..];
    }
  }
}
