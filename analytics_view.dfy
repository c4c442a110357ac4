/**
 * The analytics endpoint: transactions grouped by period, an expense
 * breakdown by category, a cumulative net-worth series over the periods in
 * sorted order, and the overall totals.
 */
module AnalyticsView {
  import opened Wrappers
  import opened Models
  import opened Grouping
  import StrOrder

  const Unknown := "Unknown"

  /** The Persian "Other", used for expenses without a category. */
  const OtherFa := "سایر"

  /** `s[:n]`: the first `n` characters, or all of `s` when it is shorter. */
  function Take(s: string, n: nat): (r: string)
    ensures |r| == if |s| <= n then |s| else n
    ensures r <= s
  {
    if |s| <= n then s else s[..n]
  }

  /**
   * The bucket a transaction dated `date` falls in for the requested period
   * ("daily", "weekly", "yearly"; anything else groups by month).
   */
  function PeriodKey(date: string, period: string): (key: string)
    ensures key != ""
    ensures period != "weekly" ==> key == Unknown || key <= date
    ensures period == "weekly" ==> key == Unknown || (|key| >= 2 && key[..|key| - 2] <= date)
  {
    if date == "" then Unknown
    else if period == "daily" then date
    else if period == "weekly" then Take(date, 7) + "-W"
    else if period == "yearly" then (if |date| >= 4 then date[..4] else Unknown)
    else if |date| >= 7 then date[..7] else Unknown
  }

  /**
   * What a bucket key looks like: "Unknown" for an undated row; otherwise the
   * date itself (daily), its first seven characters followed by "-W"
   * (weekly), its first four characters (yearly) or its first seven (any
   * other period), the last two only when the date is that long and
   * "Unknown" when it is shorter.
   */
  lemma PeriodKeyShape(date: string, period: string)
    ensures var key := PeriodKey(date, period);
      && (date == "" ==> key == Unknown)
      && (period == "weekly" && date != "" ==>
            |key| >= 2 && key[|key| - 2..] == "-W" && key[..|key| - 2] == Take(date, 7))
      && (period != "weekly" && key != Unknown ==> key <= date)
      && (period == "daily" && date != "" ==> key == date)
      && (period == "yearly" && key != Unknown ==> |key| == 4)
      && (period != "daily" && period != "weekly" && period != "yearly" && key != Unknown ==> |key| == 7)
      && (period == "yearly" && date != "" ==>
            (|date| >= 4 ==> key == date[..4]) && (|date| < 4 ==> key == Unknown))
      && (period != "daily" && period != "weekly" && period != "yearly" && date != "" ==>
            (|date| >= 7 ==> key == date[..7]) && (|date| < 7 ==> key == Unknown))
  {
  }

  function KeyOf(period: string): Transaction -> string {
    (t: Transaction) => PeriodKey(t.date, period)
  }

  /** One entry of `period_data`. */
  datatype PeriodTotals = PeriodTotals(period: string, income: int, expense: int)

  /** The entry for bucket `k`: INCOME rows count as income, every other row as expense. */
  function Bucket(txs: seq<Transaction>, period: string, k: string): PeriodTotals {
    PeriodTotals(k, Total(txs, KeyOf(period), IncomeAmount, k), Total(txs, KeyOf(period), NonIncomeAmount, k))
  }

  /** What bucket `k` adds to the net worth. */
  function BucketNet(txs: seq<Transaction>, period: string): string -> int {
    (k: string) => Bucket(txs, period, k).income - Bucket(txs, period, k).expense
  }

  /** The category key of the breakdown: the category's Persian name, or "سایر". */
  function FaNameKey(t: Transaction): string {
    if t.category.Some? then t.category.value.nameFa else OtherFa
  }

  datatype CategoryValue = CategoryValue(name: string, value: int)
  datatype NetWorthPoint = NetWorthPoint(period: string, value: int)
  datatype ReportTotals = ReportTotals(income: int, expense: int, balance: int)
  datatype AnalyticsReport = AnalyticsReport(
    periodData: seq<PeriodTotals>,
    categories: seq<CategoryValue>,
    netWorth: seq<NetWorthPoint>,
    totals: ReportTotals)

  /**
   * The first loop: fills `period_data`, one entry per bucket in order of
   * first appearance; an INCOME row adds to the income of its bucket, any
   * other row to the expense (each row adds its income share and its expense
   * share, one of which is zero).
   */
  method GroupByPeriod(txs: seq<Transaction>, period: string) returns (order: seq<string>, data: map<string, PeriodTotals>)
    ensures order == Keys(txs, KeyOf(period))
    ensures forall k :: k in data <==> k in order
    ensures forall k :: k in data ==> data[k] == Bucket(txs, period, k)
  {
    var income, expense;
    order, income, expense := AccumulatePair(txs, KeyOf(period), IncomeAmount, NonIncomeAmount);
    data := map k | k in income :: PeriodTotals(k, income[k], expense[k]);
  }

  function IncomeIn(data: map<string, PeriodTotals>): string -> int {
    (k: string) => if k in data then data[k].income else 0
  }

  function ExpenseIn(data: map<string, PeriodTotals>): string -> int {
    (k: string) => if k in data then data[k].expense else 0
  }

  /**
   * The net-worth loop: a running total of income minus expense over `keys`,
   * reading each key's entry from `data`. `net` is what each entry nets to.
   */
  method NetWorthSeries(keys: seq<string>, data: map<string, PeriodTotals>, ghost net: string -> int)
    returns (series: seq<NetWorthPoint>)
    requires forall k :: k in keys ==> k in data && data[k].income - data[k].expense == net(k)
    ensures |series| == |keys|
    ensures forall i :: 0 <= i < |keys| ==> series[i] == NetWorthPoint(keys[i], Sum(keys[..i + 1], net))
    ensures |series| > 0 ==> series[|series| - 1].value == Sum(keys, net)
  {
    series := [];
    var cumulative := 0;
    for i := 0 to |keys|
      invariant |series| == i
      invariant cumulative == Sum(keys[..i], net)
      invariant forall j :: 0 <= j < i ==> series[j] == NetWorthPoint(keys[j], Sum(keys[..j + 1], net))
    {
      var d := data[keys[i]];
      assert keys[..i + 1][..i] == keys[..i];
      cumulative := cumulative + (d.income - d.expense);
      series := series + [NetWorthPoint(keys[i], cumulative)];
    }
    assert keys[..|keys|] == keys;
  }

  /** The bucket totals add up to the totals over all transactions. */
  lemma BucketsPartition(txs: seq<Transaction>, period: string)
    ensures Sum(Keys(txs, KeyOf(period)), TotalOf(txs, KeyOf(period), IncomeAmount)) == Sum(txs, IncomeAmount)
    ensures Sum(Keys(txs, KeyOf(period)), TotalOf(txs, KeyOf(period), NonIncomeAmount)) == Sum(txs, NonIncomeAmount)
  {
    PartitionSum(txs, KeyOf(period), IncomeAmount);
    PartitionSum(txs, KeyOf(period), NonIncomeAmount);
  }

  /** The totals read back from the filled dictionary are the totals over all transactions. */
  lemma DictionaryTotals(txs: seq<Transaction>, period: string, order: seq<string>, data: map<string, PeriodTotals>)
    requires order == Keys(txs, KeyOf(period))
    requires forall k :: k in data <==> k in order
    requires forall k :: k in data ==> data[k] == Bucket(txs, period, k)
    ensures Sum(order, IncomeIn(data)) == Sum(txs, IncomeAmount)
    ensures Sum(order, ExpenseIn(data)) == Sum(txs, NonIncomeAmount)
  {
    BucketsPartition(txs, period);
    SumCongruent(order, IncomeIn(data), TotalOf(txs, KeyOf(period), IncomeAmount));
    SumCongruent(order, ExpenseIn(data), TotalOf(txs, KeyOf(period), NonIncomeAmount));
  }

  /** Summed over all buckets, the net of each bucket is the balance. */
  lemma NetOverAllBuckets(txs: seq<Transaction>, period: string)
    ensures Sum(Keys(txs, KeyOf(period)), BucketNet(txs, period)) == Sum(txs, IncomeAmount) - Sum(txs, NonIncomeAmount)
  {
    var order := Keys(txs, KeyOf(period));
    SumDifference(order, BucketNet(txs, period), TotalOf(txs, KeyOf(period), IncomeAmount),
                  TotalOf(txs, KeyOf(period), NonIncomeAmount));
    BucketsPartition(txs, period);
  }

  /**
   * The net-worth series: the buckets in sorted order, each with the running
   * total of income minus expense up to and including it. The last point
   * holds the net of all buckets.
   */
  method NetWorth(txs: seq<Transaction>, period: string, order: seq<string>, data: map<string, PeriodTotals>)
    returns (netWorth: seq<NetWorthPoint>)
    requires forall k :: k in data <==> k in order
    requires forall k :: k in data ==> data[k] == Bucket(txs, period, k)
    requires order == Keys(txs, KeyOf(period))
    ensures IsNetWorthSeries(txs, period, netWorth)
    ensures |netWorth| > 0 ==> netWorth[|netWorth| - 1].value == Sum(order, BucketNet(txs, period))
  {
    var sortedKeys := StrOrder.Sorted(order);
    SortedKeysFilled(txs, period, order, data, sortedKeys);
    netWorth := NetWorthSeries(sortedKeys, data, BucketNet(txs, period));
    SumPermutation(sortedKeys, order, BucketNet(txs, period));
  }

  /** Sorting the keys keeps every one of them in the filled dictionary, holding its bucket's net. */
  lemma SortedKeysFilled(txs: seq<Transaction>, period: string, order: seq<string>, data: map<string, PeriodTotals>,
                         sortedKeys: seq<string>)
    requires forall k :: k in data <==> k in order
    requires forall k :: k in data ==> data[k] == Bucket(txs, period, k)
    requires sortedKeys == StrOrder.Sorted(order)
    ensures forall k :: k in sortedKeys ==>
      k in data && data[k].income - data[k].expense == BucketNet(txs, period)(k)
  {
    assert forall k :: k in sortedKeys ==> k in multiset(order);
  }

  /**
   * `period_data` as returned: one entry per bucket, in order of first
   * appearance, each with the bucket's totals.
   */
  predicate IsPeriodData(txs: seq<Transaction>, period: string, periodData: seq<PeriodTotals>) {
    var keys := Keys(txs, KeyOf(period));
    |periodData| == |keys| &&
    forall i :: 0 <= i < |keys| ==> periodData[i] == Bucket(txs, period, keys[i])
  }

  /**
   * `categories` as returned: one entry per Persian category name of the
   * EXPENSE rows, in order of first appearance, with that name's total.
   */
  predicate IsBreakdown(txs: seq<Transaction>, categories: seq<CategoryValue>) {
    var spent := OfKind(txs, Expense);
    var names := Keys(spent, FaNameKey);
    |categories| == |names| &&
    forall i :: 0 <= i < |names| ==>
      categories[i] == CategoryValue(names[i], Total(spent, FaNameKey, Amount, names[i]))
  }

  /**
   * `netWorth` as returned: the buckets in sorted order, each with the
   * running total of income minus expense up to and including it.
   */
  predicate IsNetWorthSeries(txs: seq<Transaction>, period: string, netWorth: seq<NetWorthPoint>) {
    var sortedKeys := StrOrder.Sorted(Keys(txs, KeyOf(period)));
    |netWorth| == |sortedKeys| &&
    forall i :: 0 <= i < |sortedKeys| ==>
      netWorth[i] == NetWorthPoint(sortedKeys[i], Sum(sortedKeys[..i + 1], BucketNet(txs, period)))
  }

  /** The category loop: EXPENSE rows summed by the Persian name of their category. */
  method CategoryBreakdown(txs: seq<Transaction>) returns (categories: seq<CategoryValue>)
    ensures IsBreakdown(txs, categories)
  {
    var names, totals := Accumulate(OfKind(txs, Expense), FaNameKey, Amount);
    categories := seq(|names|, i requires 0 <= i < |names| => CategoryValue(names[i], totals[names[i]]));
  }

  /** `list(period_data.values())`: the dictionary's values in insertion order. */
  method PeriodValues(txs: seq<Transaction>, period: string, order: seq<string>, data: map<string, PeriodTotals>)
    returns (periodData: seq<PeriodTotals>)
    requires order == Keys(txs, KeyOf(period))
    requires forall k :: k in data <==> k in order
    requires forall k :: k in data ==> data[k] == Bucket(txs, period, k)
    ensures IsPeriodData(txs, period, periodData)
  {
    periodData := seq(|order|, i requires 0 <= i < |order| => data[order[i]]);
  }

  /**
   * Everything the endpoint derives from `period_data`: its entries, the
   * net-worth series and the totals. The last net-worth point is the
   * balance.
   */
  method PeriodReport(txs: seq<Transaction>, period: string)
    returns (periodData: seq<PeriodTotals>, netWorth: seq<NetWorthPoint>, totals: ReportTotals)
    ensures IsPeriodData(txs, period, periodData)
    ensures IsNetWorthSeries(txs, period, netWorth)
    ensures totals.income == Sum(txs, IncomeAmount) && totals.expense == Sum(txs, NonIncomeAmount)
    ensures totals.balance == totals.income - totals.expense
    ensures |netWorth| > 0 ==> netWorth[|netWorth| - 1].value == totals.balance
  {
    var order, data := GroupByPeriod(txs, period);
    periodData := PeriodValues(txs, period, order, data);
    netWorth := NetWorth(txs, period, order, data);
    NetOverAllBuckets(txs, period);
    var income := Sum(order, IncomeIn(data));
    var expense := Sum(order, ExpenseIn(data));
    DictionaryTotals(txs, period, order, data);
    totals := ReportTotals(income, expense, income - expense);
  }

  /** `analytics_data`: the whole report for one user's transactions. */
  method AnalyticsData(txs: seq<Transaction>, period: string) returns (report: AnalyticsReport)
    ensures IsPeriodData(txs, period, report.periodData)
    ensures IsBreakdown(txs, report.categories)
    ensures IsNetWorthSeries(txs, period, report.netWorth)
    ensures report.totals.income == Sum(txs, IncomeAmount)
    ensures report.totals.expense == Sum(txs, NonIncomeAmount)
    ensures report.totals.balance == report.totals.income - report.totals.expense
    ensures |report.netWorth| > 0 ==> report.netWorth[|report.netWorth| - 1].value == report.totals.balance
  {
    var periodData, netWorth, totals := PeriodReport(txs, period);
    var categories := CategoryBreakdown(txs);
    report := AnalyticsReport(periodData, categories, netWorth, totals);
  }

  /**
   * The net-worth series runs over every bucket once, in strictly ascending
   * order of the bucket names.
   */
  lemma NetWorthPeriods(txs: seq<Transaction>, period: string)
    ensures var keys := Keys(txs, KeyOf(period)); var sortedKeys := StrOrder.Sorted(keys);
      && multiset(sortedKeys) == multiset(keys)
      && StrOrder.StrictlyAscending(sortedKeys)
  {
    StrOrder.SortedAscending(Keys(txs, KeyOf(period)));
  }

  /**
   * With dates of at least seven characters, the weekly buckets are the
   * monthly buckets under another name: two dates share a weekly key exactly
   * when they share a monthly one.
   */
  lemma WeeklyIsMonthly(d1: string, d2: string)
    requires |d1| >= 7 && |d2| >= 7
    ensures PeriodKey(d1, "weekly") == PeriodKey(d2, "weekly") <==> PeriodKey(d1, "monthly") == PeriodKey(d2, "monthly")
  {
    var w1, w2 := PeriodKey(d1, "weekly"), PeriodKey(d2, "weekly");
    if w1 == w2 {
      assert w1[..7] == d1[..7] && w2[..7] == d2[..7];
    }
  }

  /** Dates long enough for a month share a year when they share a month. */
  lemma MonthWithinYear(d1: string, d2: string)
    requires |d1| >= 7 && |d2| >= 7
    requires PeriodKey(d1, "monthly") == PeriodKey(d2, "monthly")
    ensures PeriodKey(d1, "yearly") == PeriodKey(d2, "yearly")
  {
    assert d1[..4] == d1[..7][..4] && d2[..4] == d2[..7][..4];
  }

  /** Short dates break that nesting: both fall in the monthly "Unknown" bucket but in different years. */
  lemma ShortDatesSplitYears()
    ensures PeriodKey("1402", "monthly") == PeriodKey("1403", "monthly") == Unknown
    ensures PeriodKey("1402", "yearly") != PeriodKey("1403", "yearly")
  {
    assert PeriodKey("1402", "yearly") == "1402";
    assert PeriodKey("1403", "yearly") == "1403";
  }

  /** The category breakdown adds up to the EXPENSE rows' total. */
  lemma {:induction false} CategoriesPartitionExpenses(txs: seq<Transaction>)
    ensures Sum(Keys(OfKind(txs, Expense), FaNameKey), TotalOf(OfKind(txs, Expense), FaNameKey, Amount))
      == Sum(txs, ExpenseAmount)
  {
    PartitionSum(OfKind(txs, Expense), FaNameKey, Amount);
    ExpenseRows(txs);
  }

  /** When every row is INCOME or EXPENSE, "not income" and "expense" agree, so the breakdown matches the expense total. */
  lemma {:induction false} WellTypedExpenses(txs: seq<Transaction>)
    requires WellTyped(txs)
    ensures Sum(txs, NonIncomeAmount) == Sum(txs, ExpenseAmount)
  {
    SumCongruent(txs, NonIncomeAmount, ExpenseAmount);
  }

  /** A row of another type (an import may store any text) counts as expense in the totals but not in the breakdown. */
  lemma OtherTypeCountsOnlyInTotals()
    ensures var txs := [Transaction("x", 5, "expense", "1403/01/01", None)];
      Sum(txs, NonIncomeAmount) == 5 && Sum(txs, ExpenseAmount) == 0
  {
    var txs := [Transaction("x", 5, "expense", "1403/01/01", None)];
    assert txs[..0] == [];
  }
}
