/** The dashboard: sales totals for today, this month and this year, folded
    on the client from every sale row, and the bar chart built around the
    monthly figure. The three boundaries are given as ISO-8601 text (`today`
    as a date, the other two as timestamps); dates are compared as strings. */
module Dashboard {
  import opened Wrappers
  import Text
  import LexOrder

  /** A sale row: its timestamp text and its total in cents. */
  datatype Sale = Sale(saleDate: string, totalAmount: int)

  datatype Stats = Stats(daily: int, monthly: int, yearly: int)

  const Zero: Stats := Stats(0, 0, 0)

  /** The boundaries the totals are measured from. */
  datatype Period = Period(today: string, startOfMonth: string, startOfYear: string)

  /** `sale_date.split('T')[0]`: the date part of the timestamp. */
  function DayOf(s: Sale): string {
    Text.FirstSegment(s.saleDate, 'T')
  }

  predicate OnDay(s: Sale, p: Period) {
    DayOf(s) == p.today
  }

  /** `sale_date >= startOfMonth`. */
  predicate InMonth(s: Sale, p: Period) {
    LexOrder.LexLeq(p.startOfMonth, s.saleDate)
  }

  /** `sale_date >= startOfYear`. */
  predicate InYear(s: Sale, p: Period) {
    LexOrder.LexLeq(p.startOfYear, s.saleDate)
  }

  datatype Bucket = Day | Month | Year

  predicate InBucket(s: Sale, p: Period, b: Bucket) {
    match b
    case Day => OnDay(s, p)
    case Month => InMonth(s, p)
    case Year => InYear(s, p)
  }

  /** The reference definition: the sum of the amounts of the sales that fall
      in the bucket. */
  function BucketSum(sales: seq<Sale>, p: Period, b: Bucket): int {
    if |sales| == 0 then 0
    else BucketSum(sales[..|sales| - 1], p, b)
         + (if InBucket(sales[|sales| - 1], p, b) then sales[|sales| - 1].totalAmount else 0)
  }

  /** The `forEach` loop of `fetchStats`: one pass over the rows, each adding
      its amount to every bucket it falls in. */
  method FoldStats(sales: seq<Sale>, p: Period) returns (stats: Stats)
    ensures stats.daily == BucketSum(sales, p, Day)
    ensures stats.monthly == BucketSum(sales, p, Month)
    ensures stats.yearly == BucketSum(sales, p, Year)
  {
    var d, m, y := 0, 0, 0;
    var i := 0;
    while i < |sales|
      invariant 0 <= i <= |sales|
      invariant d == BucketSum(sales[..i], p, Day)
      invariant m == BucketSum(sales[..i], p, Month)
      invariant y == BucketSum(sales[..i], p, Year)
    {
      var sale := sales[i];
      assert sales[..i + 1][..i] == sales[..i];
      if DayOf(sale) == p.today {
        d := d + sale.totalAmount;
      }
      if LexOrder.LexLeq(p.startOfMonth, sale.saleDate) {
        m := m + sale.totalAmount;
      }
      if LexOrder.LexLeq(p.startOfYear, sale.saleDate) {
        y := y + sale.totalAmount;
      }
      i := i + 1;
    }
    assert sales[..i] == sales;
    stats := Stats(d, m, y);
  }

  /** `fetchStats`: the stats after the fetch. `rows` is how the query went:
      its data (null data leaves the stats alone), or an error, which is
      logged and leaves the stats alone too. */
  method FetchStats(current: Stats, p: Period, rows: Result<Option<seq<Sale>>, string>) returns (stats: Stats)
    ensures rows.Failure? ==> stats == current
    ensures rows.Success? && rows.value.None? ==> stats == current
    ensures rows.Success? && rows.value.Some? ==>
      stats == Stats(BucketSum(rows.value.value, p, Day),
                     BucketSum(rows.value.value, p, Month),
                     BucketSum(rows.value.value, p, Year))
  {
    stats := current;
    if rows.Success? && rows.value.Some? {
      stats := FoldStats(rows.value.value, p);
    }
  }

  lemma {:induction false} BucketSumAppend(a: seq<Sale>, b: seq<Sale>, p: Period, k: Bucket)
    ensures BucketSum(a + b, p, k) == BucketSum(a, p, k) + BucketSum(b, p, k)
    decreases |b|
  {
    if |b| == 0 {
      assert a + b == a;
    } else {
      assert (a + b)[..|a + b| - 1] == a + b[..|b| - 1];
      BucketSumAppend(a, b[..|b| - 1], p, k);
    }
  }

  /** Each sale counts once toward a bucket, with its whole amount, or not at all. */
  lemma SingleSaleContribution(s: Sale, p: Period, k: Bucket)
    ensures BucketSum([s], p, k) == (if InBucket(s, p, k) then s.totalAmount else 0)
  {
    assert [s][..0] == [];
  }

  /** Adding a sale to the data adds its amount to exactly the buckets it falls in. */
  lemma OneMoreSale(sales: seq<Sale>, s: Sale, p: Period, k: Bucket)
    ensures BucketSum(sales + [s], p, k) == BucketSum(sales, p, k) + (if InBucket(s, p, k) then s.totalAmount else 0)
  {
    BucketSumAppend(sales, [s], p, k);
    SingleSaleContribution(s, p, k);
  }

  /** The totals do not depend on the order of the rows. */
  lemma BucketSumSwap(a: seq<Sale>, b: seq<Sale>, p: Period, k: Bucket)
    ensures BucketSum(a + b, p, k) == BucketSum(b + a, p, k)
  {
    BucketSumAppend(a, b, p, k);
    BucketSumAppend(b, a, p, k);
  }

  /** With no sales all three totals are zero. */
  lemma NoSalesNoTotals(p: Period)
    ensures BucketSum([], p, Day) == 0 && BucketSum([], p, Month) == 0 && BucketSum([], p, Year) == 0
  {
  }

  /** When the year starts no later than the month and no amount is negative,
      the month's total never exceeds the year's: every sale counted for the
      month is counted for the year. */
  lemma {:induction false} MonthlyAtMostYearly(sales: seq<Sale>, p: Period)
    requires LexOrder.LexLeq(p.startOfYear, p.startOfMonth)
    requires forall i | 0 <= i < |sales| :: sales[i].totalAmount >= 0
    ensures BucketSum(sales, p, Month) <= BucketSum(sales, p, Year)
    decreases |sales|
  {
    if |sales| > 0 {
      var last := sales[|sales| - 1];
      MonthlyAtMostYearly(sales[..|sales| - 1], p);
      if InMonth(last, p) {
        LexOrder.LexLeqTransitive(p.startOfYear, p.startOfMonth, last.saleDate);
      }
    }
  }

  /** A sale counted for today starts with today's date text. */
  lemma DailySalesStartWithToday(s: Sale, p: Period)
    requires OnDay(s, p)
    ensures |p.today| <= |s.saleDate| && s.saleDate[..|p.today|] == p.today
    ensures 'T' !in p.today
  {
  }

  datatype ChartPoint = ChartPoint(name: string, sales: int)

  /** The five months the chart shows with fixed values (the source's whole
      amounts, written in cents). */
  const FixedMonths: seq<ChartPoint> := [
    ChartPoint("Jan", 400000), ChartPoint("Feb", 300000), ChartPoint("Mar", 200000),
    ChartPoint("Apr", 278000), ChartPoint("May", 189000)]

  /** The revenue chart: the fixed months, then a live June point. */
  function ChartData(stats: Stats): (r: seq<ChartPoint>)
    ensures |r| == 6
    ensures r[..5] == FixedMonths
    ensures r[5] == ChartPoint("Jun", stats.monthly)
  {
    FixedMonths + [ChartPoint("Jun", stats.monthly)]
  }

  /** Two charts differ at most in their last point, and that point differs
      exactly when the monthly totals do. */
  lemma ChartOnlyJuneMoves(a: Stats, b: Stats)
    ensures ChartData(a)[..5] == ChartData(b)[..5]
    ensures ChartData(a) == ChartData(b) <==> a.monthly == b.monthly
  {
    if ChartData(a) == ChartData(b) {
      assert ChartData(a)[5] == ChartData(b)[5];
    }
  }
}
