/** The synthetic monthly price history: for every month from January 2018
    on and every commune, one point whose price, rent and permit count
    follow a 5 % yearly trend back-projected from today's values. The
    monthly Gaussian noise on the price is an input stream, consumed in the
    order the points are produced. */
module PriceHistory {
  import opened Catalog

  /** A calendar month; `month` runs from 1 to 12. */
  datatype Month = Month(year: int, month: int)

  predicate ValidMonth(m: Month)
  {
    1 <= m.month <= 12
  }

  /** One synthesized observation of one commune in one month. */
  datatype HistoricalPoint = HistoricalPoint(
    date: Month,
    commune: string,
    region: Region,
    price: real,
    rent: real,
    permits: real)

  /** Years elapsed since January 2018, in twelfths of a year. */
  function YearsPassed(m: Month): (years: real)
  {
    (m.year - 2018) as real + (m.month - 1) as real / 12.0
  }

  /** The multiplicative drift: 5 % per elapsed year. */
  function Trend(m: Month): (factor: real)
  {
    1.0 + YearsPassed(m) * 0.05
  }

  /** The point of commune `c` in month `m`, given the noise draw for it. */
  function PointFor(m: Month, c: Commune, noise: real): (p: HistoricalPoint)
  {
    HistoricalPoint(
      m, c.name, c.region,
      c.price as real * 0.7 * Trend(m) * noise,
      c.rent * 0.8 * Trend(m),
      c.permits as real * 0.7 * (1.0 + YearsPassed(m) * 0.1))
  }

  /** The points of one month, communes in catalog order, the `j`-th
      commune taking the `j`-th noise draw of that month. */
  function MonthPoints(m: Month, cs: seq<Commune>, draws: seq<real>): (points: seq<HistoricalPoint>)
    requires |draws| == |cs|
  {
    seq(|cs|, j requires 0 <= j < |cs| => PointFor(m, cs[j], draws[j]))
  }

  /** One row of `|cs|` draws per month. */
  ghost predicate NoiseShape(months: seq<Month>, cs: seq<Commune>, noise: seq<seq<real>>)
  {
    |noise| == |months| && forall i :: 0 <= i < |noise| ==> |noise[i]| == |cs|
  }

  /** The whole history: months outer, communes inner. */
  function History(months: seq<Month>, cs: seq<Commune>, noise: seq<seq<real>>): (points: seq<HistoricalPoint>)
    requires NoiseShape(months, cs, noise)
    decreases |months|
  {
    if months == [] then []
    else
      var n := |months| - 1;
      History(months[..n], cs, noise[..n]) + MonthPoints(months[n], cs, noise[n])
  }

  lemma MonthPointsSnoc(m: Month, cs: seq<Commune>, draws: seq<real>, c: Commune, x: real)
    requires |draws| == |cs|
    ensures MonthPoints(m, cs + [c], draws + [x]) == MonthPoints(m, cs, draws) + [PointFor(m, c, x)]
  {
  }

  /** Builds the history with the source's nested loop, appending one point
      per (month, commune) pair. */
  method SynthesizeHistory(months: seq<Month>, cs: seq<Commune>, noise: seq<seq<real>>)
    returns (points: seq<HistoricalPoint>)
    requires NoiseShape(months, cs, noise)
    ensures points == History(months, cs, noise)
  {
    points := [];
    var i := 0;
    while i < |months|
      invariant 0 <= i <= |months|
      invariant points == History(months[..i], cs, noise[..i])
    {
      ghost var before := points;
      var j := 0;
      while j < |cs|
        invariant 0 <= j <= |cs|
        invariant points == before + MonthPoints(months[i], cs[..j], noise[i][..j])
      {
        MonthPointsSnoc(months[i], cs[..j], noise[i][..j], cs[j], noise[i][j]);
        assert cs[..j + 1] == cs[..j] + [cs[j]];
        assert noise[i][..j + 1] == noise[i][..j] + [noise[i][j]];
        points := points + [PointFor(months[i], cs[j], noise[i][j])];
        j := j + 1;
      }
      assert cs[..j] == cs && noise[i][..j] == noise[i];
      assert months[..i + 1][..i] == months[..i];
      assert noise[..i + 1][..i] == noise[..i];
      i := i + 1;
    }
    assert months[..i] == months && noise[..i] == noise;
  }

  /** The history holds exactly one point per (month, commune) pair. */
  lemma {:induction false} HistoryLength(months: seq<Month>, cs: seq<Commune>, noise: seq<seq<real>>)
    requires NoiseShape(months, cs, noise)
    ensures |History(months, cs, noise)| == |months| * |cs|
    decreases |months|
  {
    if months != [] {
      var n := |months| - 1;
      HistoryLength(months[..n], cs, noise[..n]);
      assert |months| * |cs| == n * |cs| + |cs|;
    }
  }

  /** Months are the outer loop and communes the inner one: the point of
      the `i`-th month and `j`-th commune sits at index `i * |cs| + j`. */
  lemma {:induction false} HistoryIndex(months: seq<Month>, cs: seq<Commune>, noise: seq<seq<real>>, i: nat, j: nat)
    requires NoiseShape(months, cs, noise)
    requires i < |months| && j < |cs|
    ensures i * |cs| + j < |History(months, cs, noise)|
    ensures History(months, cs, noise)[i * |cs| + j] == PointFor(months[i], cs[j], noise[i][j])
    decreases |months|
  {
    var n := |months| - 1;
    var prefix := History(months[..n], cs, noise[..n]);
    HistoryLength(months[..n], cs, noise[..n]);
    HistoryLength(months, cs, noise);
    if i == n {
      assert History(months, cs, noise)[i * |cs| + j] == MonthPoints(months[n], cs, noise[n])[j];
    } else {
      HistoryIndex(months[..n], cs, noise[..n], i, j);
      assert i * |cs| + j < n * |cs| by {
        MulLeq(i + 1, n, |cs|);
      }
      assert History(months, cs, noise)[i * |cs| + j] == prefix[i * |cs| + j];
    }
  }

  /** The point of the `i`-th month and `j`-th commune carries that
      commune's name and region and applies the trend formulas to its
      current price, rent and permit count; only the price uses the noise. */
  lemma HistoryAt(months: seq<Month>, cs: seq<Commune>, noise: seq<seq<real>>, i: nat, j: nat)
    requires NoiseShape(months, cs, noise)
    requires i < |months| && j < |cs|
    ensures i * |cs| + j < |History(months, cs, noise)|
    ensures var p := History(months, cs, noise)[i * |cs| + j];
      && p.date == months[i]
      && p.commune == cs[j].name
      && p.region == cs[j].region
      && p.price == cs[j].price as real * 0.7 * Trend(months[i]) * noise[i][j]
      && p.rent == cs[j].rent * 0.8 * Trend(months[i])
      && p.permits == cs[j].permits as real * 0.7 * (1.0 + YearsPassed(months[i]) * 0.1)
  {
    HistoryIndex(months, cs, noise, i, j);
  }

  lemma MulLeq(a: nat, b: nat, c: nat)
    requires a <= b
    ensures a * c <= b * c
  {
  }

  /** Only the price depends on the noise: two histories over the same
      months and communes agree everywhere except, possibly, on the price. */
  lemma {:induction false} NoiseOnlyMovesPrice(months: seq<Month>, cs: seq<Commune>, n1: seq<seq<real>>, n2: seq<seq<real>>)
    requires NoiseShape(months, cs, n1) && NoiseShape(months, cs, n2)
    ensures |History(months, cs, n1)| == |History(months, cs, n2)|
    ensures forall k :: 0 <= k < |History(months, cs, n1)| ==>
      var p, q := History(months, cs, n1)[k], History(months, cs, n2)[k];
      p.date == q.date && p.commune == q.commune && p.region == q.region
      && p.rent == q.rent && p.permits == q.permits
    decreases |months|
  {
    if months != [] {
      var n := |months| - 1;
      NoiseOnlyMovesPrice(months[..n], cs, n1[..n], n2[..n]);
      var h1, h2 := History(months, cs, n1), History(months, cs, n2);
      var p1, p2 := History(months[..n], cs, n1[..n]), History(months[..n], cs, n2[..n]);
      var m1, m2 := MonthPoints(months[n], cs, n1[n]), MonthPoints(months[n], cs, n2[n]);
      assert h1 == p1 + m1 && h2 == p2 + m2;
      forall k | 0 <= k < |h1|
        ensures h1[k].date == h2[k].date && h1[k].commune == h2[k].commune
        ensures h1[k].region == h2[k].region && h1[k].rent == h2[k].rent
        ensures h1[k].permits == h2[k].permits
      {
        if k < |p1| {
          assert h1[k] == p1[k] && h2[k] == p2[k];
        } else {
          assert h1[k] == m1[k - |p1|] && h2[k] == m2[k - |p1|];
        }
      }
    }
  }

  /** `a` is not later than `b`. */
  predicate NotLater(a: Month, b: Month)
  {
    a.year < b.year || (a.year == b.year && a.month <= b.month)
  }

  /** From January 2018 on, no time has gone backwards: the elapsed time is
      non-negative and the trend factor is at least 1. */
  lemma TrendAtLeastOne(m: Month)
    requires ValidMonth(m) && m.year >= 2018
    ensures YearsPassed(m) >= 0.0
    ensures Trend(m) >= 1.0
  {
  }

  /** The trend never decreases from one month to a later one. */
  lemma TrendMonotone(a: Month, b: Month)
    requires ValidMonth(a) && ValidMonth(b) && NotLater(a, b)
    ensures YearsPassed(a) <= YearsPassed(b)
    ensures Trend(a) <= Trend(b)
  {
    if a.year < b.year {
      assert (a.month - 1) as real / 12.0 < 1.0;
      assert (a.year - 2018) as real + 1.0 <= (b.year - 2018) as real;
    }
  }
}
