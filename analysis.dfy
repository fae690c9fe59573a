/** The commune comparison tab: an optional micro-region filter, a size
    filter on the population, and a descending sort on one chosen column;
    and the two top-ten rankings of the performance tab. */
module Analysis {
  import opened Seqs
  import opened Catalog

  /** The micro-region selector: every region, or a single one. */
  datatype RegionChoice = AllRegions | OnlyRegion(region: Region)

  /** The size selector: every commune, large (more than 50 000
      inhabitants), medium (20 000 to 50 000 inclusive) or small (fewer than
      20 000). */
  datatype SizeChoice = AllSizes | Large | Medium | Small

  /** The column the table is sorted on, in decreasing order. */
  datatype SortKey = ByPrice | ByPriceChange | ByPopulation | ByPermits

  predicate InRegion(choice: RegionChoice, c: Commune)
  {
    choice.AllRegions? || c.region == choice.region
  }

  predicate InSize(choice: SizeChoice, population: int)
  {
    match choice
    case AllSizes => true
    case Large => population > 50000
    case Medium => 20000 <= population <= 50000
    case Small => population < 20000
  }

  /** A commune is listed when it passes both selectors. */
  predicate Qualifies(c: Commune, region: RegionChoice, size: SizeChoice)
  {
    InRegion(region, c) && InSize(size, c.population)
  }

  /** The value a commune is ranked by. */
  function SortValue(key: SortKey, c: Commune): (v: real)
  {
    match key
    case ByPrice => c.price as real
    case ByPriceChange => c.priceChange
    case ByPopulation => c.population as real
    case ByPermits => c.permits as real
  }

  function KeyFn(key: SortKey): (f: Commune -> real)
  {
    c => SortValue(key, c)
  }

  /** The communes the selectors let through, in their original order. */
  function Selected(data: seq<Commune>, region: RegionChoice, size: SizeChoice): (rows: seq<Commune>)
  {
    Filter(data, c => Qualifies(c, region, size))
  }

  /** The selection keeps the original order and drops nothing that
      qualifies: it is a subsequence of the table holding every qualifying
      row exactly as often as the table does, and nothing else. */
  lemma SelectedIsQualifyingSubsequence(data: seq<Commune>, region: RegionChoice, size: SizeChoice)
    ensures IsSubsequence(Selected(data, region, size), data)
    ensures forall c :: c in Selected(data, region, size) <==> c in data && Qualifies(c, region, size)
    ensures forall c :: multiset(Selected(data, region, size))[c]
                     == if Qualifies(c, region, size) then multiset(data)[c] else 0
  {
    var p := (c: Commune) => Qualifies(c, region, size);
    FilterIsSubsequence(data, p);
    forall c ensures multiset(Selected(data, region, size))[c]
                  == if Qualifies(c, region, size) then multiset(data)[c] else 0 {
      FilterCounts(data, p, c);
    }
  }

  /** The filter-and-sort chain of the comparison tab, reassigning the
      working table at each step as the source does. The result lists
      exactly the qualifying communes, each as often as the catalog does,
      in non-increasing order of the chosen column (equal values in no
      promised order). */
  method FilterAndSort(data: seq<Commune>, region: RegionChoice, size: SizeChoice, key: SortKey)
    returns (rows: seq<Commune>)
    ensures multiset(rows) == multiset(Selected(data, region, size))
    ensures SortedDesc(rows, KeyFn(key))
  {
    var byRegion := (c: Commune) => InRegion(region, c);
    var bySize := (c: Commune) => InSize(size, c.population);
    var both := (c: Commune) => Qualifies(c, region, size);
    rows := data;
    if region != AllRegions {
      rows := Filter(rows, byRegion);
    } else {
      FilterKeepsAll(data, byRegion);
    }
    assert rows == Filter(data, byRegion);
    if size != AllSizes {
      rows := Filter(rows, bySize);
    } else {
      FilterKeepsAll(rows, bySize);
    }
    assert rows == Filter(Filter(data, byRegion), bySize);
    FilterTwice(data, byRegion, bySize, both);
    rows := SortDesc(rows, KeyFn(key));
  }

  /** Every commune falls in exactly one of the three size brackets, so the
      three bracket selections together hold the whole table. */
  lemma BracketsPartition(data: seq<Commune>, region: RegionChoice)
    ensures forall p: int ::
      && !(InSize(Large, p) && InSize(Medium, p))
      && !(InSize(Large, p) && InSize(Small, p))
      && !(InSize(Medium, p) && InSize(Small, p))
    ensures forall c: Commune :: Qualifies(c, region, Large) || Qualifies(c, region, Medium)
                              || Qualifies(c, region, Small) || !InRegion(region, c)
    ensures |Selected(data, region, Large)| + |Selected(data, region, Medium)|
          + |Selected(data, region, Small)| == |Selected(data, region, AllSizes)|
  {
    var sel := Selected(data, region, AllSizes);
    var large := (c: Commune) => Qualifies(c, region, Large);
    var medium := (c: Commune) => Qualifies(c, region, Medium);
    var small := (c: Commune) => Qualifies(c, region, Small);
    var all := (c: Commune) => Qualifies(c, region, AllSizes);
    var l := (c: Commune) => InSize(Large, c.population);
    var m := (c: Commune) => InSize(Medium, c.population);
    var s := (c: Commune) => InSize(Small, c.population);
    FilterSplitThree(sel, l, m, s);
    FilterTwice(data, all, l, large);
    FilterTwice(data, all, m, medium);
    FilterTwice(data, all, s, small);
  }

  /** Large communes from index `k` on, counted one record at a time. */
  function CountLargeFrom(cs: seq<Commune>, k: nat): (n: nat)
    decreases |cs| - k
  {
    if k >= |cs| then 0
    else (if cs[k].population > 50000 then 1 else 0) + CountLargeFrom(cs, k + 1)
  }

  lemma {:induction false} CountLargeFromIsLength(cs: seq<Commune>, k: nat)
    requires k <= |cs|
    ensures |Selected(cs[k..], AllRegions, Large)| == CountLargeFrom(cs, k)
    decreases |cs| - k
  {
    if k < |cs| {
      CountLargeFromIsLength(cs, k + 1);
      assert cs[k..][1..] == cs[k + 1..];
    }
  }

  /** On the catalog the large-commune selection holds six communes
      (Saint-Denis, Saint-Paul, Saint-Pierre, Le Tampon, Saint-André and
      Saint-Louis). */
  lemma CatalogLargeCommunes()
    ensures |Selected(CommunesData(), AllRegions, Large)| == 6
  {
    var c := CommunesData();
    assert CountLargeFrom(c, 22) == 0;
    assert CountLargeFrom(c, 21) == 0;
    assert CountLargeFrom(c, 20) == 0;
    assert CountLargeFrom(c, 19) == 0;
    assert CountLargeFrom(c, 18) == 0;
    assert CountLargeFrom(c, 17) == 0;
    assert CountLargeFrom(c, 16) == 0;
    assert CountLargeFrom(c, 15) == 0;
    assert CountLargeFrom(c, 14) == 0;
    assert CountLargeFrom(c, 13) == 0;
    assert CountLargeFrom(c, 12) == 0;
    assert CountLargeFrom(c, 11) == 0;
    assert CountLargeFrom(c, 10) == 0;
    assert CountLargeFrom(c, 9) == 0;
    assert CountLargeFrom(c, 8) == 0;
    assert CountLargeFrom(c, 7) == 0;
    assert CountLargeFrom(c, 6) == 0;
    assert CountLargeFrom(c, 5) == 1;
    assert CountLargeFrom(c, 4) == 2;
    assert CountLargeFrom(c, 3) == 3;
    assert CountLargeFrom(c, 2) == 4;
    assert CountLargeFrom(c, 1) == 5;
    assert CountLargeFrom(c, 0) == 6;
    CountLargeFromIsLength(c, 0);
    assert c[0..] == c;
  }

  /** The top-ten rankings of the performance tab (pandas `nlargest(10,
      column)`): the largest one-year price changes, and the largest permit
      counts. */
  function TopTen(data: seq<Commune>, key: SortKey): (top: seq<Commune>)
  {
    TopN(data, 10, KeyFn(key))
  }

  /** A ranking lists ten communes (all of them when there are fewer),
      largest first, each as often as the table has it at most, and no
      commune left out ranks above one listed. */
  lemma TopTenRanking(data: seq<Commune>, key: SortKey)
    ensures |TopTen(data, key)| == if |data| < 10 then |data| else 10
    ensures multiset(TopTen(data, key)) <= multiset(data)
    ensures forall i, j :: 0 <= i < j < |TopTen(data, key)| ==>
      SortValue(key, TopTen(data, key)[i]) >= SortValue(key, TopTen(data, key)[j])
    ensures forall x, y ::
      (x in TopTen(data, key) && y in multiset(data) - multiset(TopTen(data, key)))
      ==> SortValue(key, y) <= SortValue(key, x)
  {
    var top := TopTen(data, key);
    assert SortedDesc(top, KeyFn(key));
    forall x, y | x in top && y in multiset(data) - multiset(top)
      ensures SortValue(key, y) <= SortValue(key, x)
    {
      TopNKeepsLargest(data, 10, KeyFn(key), x, y);
    }
  }
}
