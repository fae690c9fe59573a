# Réunion housing dashboard — verified model of its computational core

`Dashboard.py` is a Streamlit dashboard of the housing market of the
communes of La Réunion. Most of the file is page layout and chart calls. This project models the computation under
the layout, in Dafny:

- **the commune catalog**: 23 records with name, micro-region (Nord, Sud,
  Ouest, Est, Cirques), population, price per m², one-year price change,
  rent per m², vacancy rate and building permits (`catalog.dfy`);
- **the synthetic price history**: one point per (month, commune), months
  outer, built by a nested loop with a 5 % yearly trend (`history.dfy`);
- **the micro-region table**: one row per distinct region with totals and
  means, built by a loop over the regions, and the island-wide key
  figures (`regions.dfy`);
- **the commune comparison**: the region and population-size filters, the
  descending sort, and the top-ten rankings (`analysis.dfy`);
- **the two classifiers**: the map marker colour by price and the
  rise/fall/flat class of the price change (`classifiers.dfy`);
- **the affordability tab**: the 70 m² flat price and years of saving,
  and the loan simulator with its fixed-rate instalment (`affordability.dfy`);
- **the dashboard object**: its tables as fields of a class, built by the
  constructor, with the affordability columns added in place
  (`dashboard.dfy`).

`seqs.dfy` holds the sequence operations these share: mask filtering,
column sums and a descending sort.

Numbers are modelled as mathematical integers and reals, not IEEE floats.
The noise of the history is an input: one row of draws per month, one
draw per commune. The list of months is an input too. The source loops
over the regions of a Python `set`, whose order is arbitrary. The model's
own table takes them in order of first appearance. The partition, row,
row-count and catalog lemmas of the region table are stated for every
repetition-free listing of the regions that have communes
(`Regions.ListsRegionsOf`), and first appearance is proved to be one.

The catalog in the code defines 23 communes, 6 of them above 50 000
inhabitants (Saint-Denis, Saint-Paul, Saint-Pierre, Le Tampon,
Saint-André, Saint-Louis); the model proves both counts on that catalog.

## Model

| member | source | states |
|---|---|---|
| Catalog.OfRegion | Dashboard.py:478 | a record is among the communes of a region exactly when it is in the catalog with that region; there are never more of them than catalog records |
| Catalog.OfRegionInOrder | Dashboard.py:478 | the communes of a region keep their catalog order, and each record of the region is kept exactly as often as the catalog lists it, others not at all |
| Catalog.CatalogRegionCount | Dashboard.py:88-436 | on the catalog, Nord has 3 communes, Ouest 7, Sud 7, Est 4 and Cirques 2 |
| PriceHistory.SynthesizeHistory | Dashboard.py:438-466 | the nested month/commune loop builds exactly the history function `History` |
| PriceHistory.HistoryLength | Dashboard.py:443-464 | the history has one point per (month, commune) pair: months × communes points |
| PriceHistory.HistoryIndex | Dashboard.py:443-464 | months are the outer loop and communes the inner one: the point for month i and commune j sits at index i·|communes| + j |
| PriceHistory.HistoryAt | Dashboard.py:446-463 | that point carries the month, the commune's name and region; price = price·0.7·trend·noise, rent = rent·0.8·trend, permits = permits·0.7·(1 + 0.1·years) |
| PriceHistory.NoiseOnlyMovesPrice | Dashboard.py:453-463 | two histories with different noise agree on every field except the price |
| PriceHistory.TrendAtLeastOne | Dashboard.py:449-450 | from January 2018 on, elapsed years are non-negative and the trend factor is at least 1 |
| PriceHistory.TrendMonotone | Dashboard.py:449-450 | a later month never has a smaller elapsed time or trend factor |
| Regions.MinOf | Dashboard.py:481-484 | the minimum of a column is at most every value in the group and is attained |
| Regions.MaxOf | Dashboard.py:481-484 | the maximum of a column is at least every value in the group and is attained |
| Regions.MeanWithinRange | Dashboard.py:481-484 | a mean over a non-empty group lies between the column's minimum and maximum |
| Regions.DistinctRegions | Dashboard.py:474 | the region list has no repetition and holds exactly the regions that have communes |
| Regions.DistinctRegionsListsRegions | Dashboard.py:474 | first appearance is one of the orders `list(set(…))` may produce: each region that has communes, once |
| Regions.InitializeMicroregionData | Dashboard.py:472-496 | the loop over the regions builds exactly the table function `Summaries` |
| Regions.SummariesPartition | Dashboard.py:477-494 | for every order of the regions, the rows' commune counts sum to the number of communes, and their populations and permits sum to the catalog totals, which are the key-metrics totals |
| Regions.SummaryRows | Dashboard.py:478-493 | for every order of the regions, every row counts its region's communes (at least one), and its mean price, mean price change and mean vacancy lie between that region's minimum and maximum |
| Regions.SummaryRegions | Dashboard.py:474-478 | the model's own table is one such listing: rows name distinct regions, and a region has a row exactly when some commune lies in it |
| Regions.FiveRows | Dashboard.py:474-478 | for every order of the regions, when every region has communes the table has five rows |
| Regions.CatalogSummaries | Dashboard.py:472-496 | on the catalog, for every order of the regions, the table has five rows and each row's count is Nord 3, Ouest 7, Sud 7, Est 4 or Cirques 2 |
| Analysis.SelectedIsQualifyingSubsequence | Dashboard.py:731-740 | the filtered table is a subsequence of the table; it holds a commune exactly when the commune passes both selectors, as often as the table holds it |
| Analysis.FilterAndSort | Dashboard.py:731-750 | the filter-and-sort chain returns a permutation of the qualifying communes, in non-increasing order of the chosen column |
| Analysis.BracketsPartition | Dashboard.py:734-740 | no population falls in two size brackets, every commune of the region falls in one, and the three bracket selections together are as long as the unfiltered selection |
| Analysis.CatalogLargeCommunes | Dashboard.py:734-735 | on the catalog, the "more than 50 000" bracket holds exactly 6 communes |
| Analysis.TopTenRanking | Dashboard.py:790 | `nlargest(10, …)` lists min(10, n) communes, largest first, drawn from the table, and no commune left out ranks above one listed |
| Seqs.Filter | Dashboard.py:731-740 | a mask filter keeps exactly the elements that pass, never more than the input |
| Seqs.FilterIsSubsequence | Dashboard.py:731-740 | a mask filter keeps the original order |
| Seqs.FilterCounts | Dashboard.py:731-740 | a mask filter keeps each passing element as often as it occurs and drops the rest |
| Seqs.FilterTwice | Dashboard.py:732-740 | filtering by region and then by size is filtering once by both |
| Seqs.FilterSplitThree | Dashboard.py:734-740 | three exclusive, covering predicates split a sequence into parts whose lengths add up to the whole |
| Seqs.SortDesc | Dashboard.py:743-750 | `sort_values(…, ascending=False)` returns a permutation in non-increasing order |
| Seqs.InsertKeepsSorted | Dashboard.py:743-750 | inserting into a descending list keeps it descending |
| Seqs.TopN | Dashboard.py:790 | `nlargest` returns min(n, length) rows, sorted descending, drawn from the input |
| Seqs.TopNKeepsLargest | Dashboard.py:802 | no row left out of `nlargest` has a larger key than a row kept |
| Seqs.SumRealBounds | Dashboard.py:481-484 | bounds on every value bound a column sum |
| Classifiers.PriceColour | Dashboard.py:569-576 | red exactly above 2800 €/m², orange in (2300, 2800], green in (1800, 2300], blue at or below 1800 |
| Classifiers.PriceColourMonotone | Dashboard.py:569-576 | a dearer commune never gets a cheaper colour |
| Classifiers.ClassifyChange | Dashboard.py:754-760 | positive exactly for a rise, negative exactly for a fall, neutral exactly for no change |
| Classifiers.ClassifyChangeMonotone | Dashboard.py:754-760 | a larger change never gets a lower class, and negating a change negates its class |
| Affordability.FlatColumnsFollowPrice | Dashboard.py:1009-1011 | the 70 m² price and the years of saving order communes as the price per m² does; one year of 2000 € a month pays 24000 € |
| Affordability.PowAboveOne | Dashboard.py:1063 | (1 + r)^n is at least 1, and above 1 for n ≥ 1, when r > 0 |
| Affordability.PrincipalSign | Dashboard.py:1056-1057 | the amount borrowed plus the down payment is the total price; it is negative exactly when the down payment exceeds the price (there is no guard) |
| Affordability.PaymentFactor | Dashboard.py:1060-1065 | the per-euro instalment is 1/n at a zero rate and exceeds the monthly rate at a positive one |
| Affordability.MonthlyPayment | Dashboard.py:1060-1065 | the instalment fails exactly for zero months; at a rate of zero or below, n instalments repay exactly the principal |
| Affordability.AnnuityDenominatorPositive | Dashboard.py:1062-1063 | for a positive rate and n ≥ 1 the annuity denominator (1 + r)^n − 1 is positive |
| Affordability.FactorForm | Dashboard.py:1062-1065 | the instalment is the principal times a factor that depends on the rate and term only |
| Affordability.PaymentIsLinear | Dashboard.py:1062-1065 | the instalment is linear in the principal |
| Affordability.PaymentAboveInterest | Dashboard.py:1062-1063 | at a positive rate, an instalment on a positive loan exceeds the first month's interest |
| Affordability.GrowthBelowLinear | Dashboard.py:1063 | (1 + r)^n − 1 < n·r·(1 + r)^n for r > 0 and n ≥ 1 |
| Affordability.InterestCostsSomething | Dashboard.py:1062-1065 | at a positive rate, the n instalments repay more than the principal |
| Affordability.Lookup | Dashboard.py:1055 | finds the first row with the chosen name, and fails exactly when no row has it |
| Affordability.Simulate | Dashboard.py:1054-1077 | the simulator fails exactly for a zero-year loan or an unknown commune; otherwise total = price × surface, principal + down payment = total, the instalment is the annuity instalment of the principal at the monthly rate over years × 12 months (an even split at a zero rate), debt ratio = instalment / 2000 × 100 and saving time × 12 × monthly saving = down payment |
| Affordability.SimulatedLoanCostsInterest | Dashboard.py:1060-1065 | at any positive rate, a simulated positive loan's instalments over the term repay more than the amount borrowed, and each exceeds the first month's interest |
| Affordability.SaintDenisDefaults | Dashboard.py:1043-1057 | with the default inputs on Saint-Denis, the total is 224000 €, the loan 204000 € and the saving time 5/3 years |
| Dashboard.ReunionHousingDashboard.constructor | Dashboard.py:82-86 | built from a commune table (the source's `__init__` is the call with `CommunesData()`), the dashboard holds that table as catalog and current table, its history for the given months and noise, and its region table, consistent with one another, and no affordability columns |
| Dashboard.ReunionHousingDashboard.AddAffordabilityColumns | Dashboard.py:1009-1011 | adds, row by row, the 70 m² price, the 70 m² rent and the years of saving, and changes no other table |
| Dashboard.ReunionHousingDashboard.KeyFigures | Dashboard.py:516-534 | the key figures are the catalog means and totals, and the totals agree with the sums over the region table |
| Dashboard.ReunionHousingDashboard.CommunesAnalysis | Dashboard.py:731-750 | the comparison table is a descending permutation of the current rows that pass the selectors |

## Left out

- Page setup, CSS, markdown, tabs, widgets and the sidebar: layout with no effect on the data.
- Plotly and Folium charts and maps, including the chart-only group-by means (`Dashboard.py:603-606`, `619-622`, `674`, `693`) and the `nlargest(15, …)` chart inputs of the affordability tab.
- The random deltas shown beside the key figures (`np.random.uniform`): randomness, display only.
- The generation of the month list with `pd.date_range(…, datetime.now())`: wall-clock dependent; the months are an input.
- The random draw of the noise (`np.random.normal(1, 0.02)`): the draws are an input.
- The catalog fields used only for display (map, charts, comparison rows and commune card): area, social-housing share, latitude, longitude and description.
- IEEE floating point, rounding and the string formatting of results; `**` on floats is a recursive power over reals.
- The order of the rows of the micro-region table: Python's `set` order is arbitrary, so which order the source produces is not modelled. The dashboard object stores the first-appearance table; the partition, row, row-count and catalog lemmas hold for every repetition-free listing of the regions.
- The relative order of rows with equal sort keys in `sort_values` and `nlargest`: nothing is promised about ties.
- Analysis.TopTenRanking: states that the listed rows are drawn from the table (multiset inclusion), not which of several tied rows `nlargest` keeps.
- Affordability.MonthlyPayment: the concrete instalment for the default inputs (about 1131 € on Saint-Denis) is not computed; 240 unfoldings of the power are out of the verifier's reach.
- The `mean` of an empty column in pandas (NaN): the key figures require a non-empty table, which the catalog is.
- The widget bounds of the simulator inputs (surface 30–120, term 15–25 years, rate 1–5 %, saving 100–3000): the model takes any surface, down payment and rate, and any term of zero or more years; the saving must be positive because the source divides by it.
