/**
 * The dashboard: income, expense and balance totals, the five newest
 * transactions, an advert chosen by the category with the most spending, and
 * a chart of the running balance over all transactions, sampled after each
 * of the ten newest.
 *
 * A user's transactions arrive in the model's default order, newest first.
 */
module DashboardView {
  import opened Wrappers
  import opened Models
  import opened Grouping
  import PersianTags

  /** The eight categories every installation starts with: name, Persian name, icon. */
  const DefaultCategories: seq<(string, string, string)> := [
    ("Food", "خوراکی", "bi-cup-hot"),
    ("Transport", "حمل و نقل", "bi-car-front"),
    ("Shopping", "خرید", "bi-bag"),
    ("Housing", "مسکن", "bi-house"),
    ("Salary", "حقوق", "bi-briefcase"),
    ("Health", "سلامت", "bi-heart-pulse"),
    ("Income", "درآمد", "bi-wallet2"),
    ("Other", "سایر", "bi-three-dots")]

  /** The seeded categories carry the icon and Persian name the template filters give their names. */
  lemma DefaultsAgreeWithFilters()
    ensures forall i :: 0 <= i < |DefaultCategories| ==>
      var (name, nameFa, icon) := DefaultCategories[i];
      PersianTags.CategoryIcon(name) == icon && PersianTags.CategoryNameFa(name) == nameFa
  {
  }

  datatype Advert = Advert(title: string, desc: string, icon: string, gradient: string)

  /** The adverts shown for five spending categories. */
  const Adverts: map<string, Advert> := map[
    "Food" := Advert("تخفیف ویژه سفارش غذا", "چون اهل دل هستی! ۳۰٪ تخفیف روی سفارش بعدی.", "🍔", "from-orange-400 to-red-500"),
    "Transport" := Advert("بیمه بدنه خودرو", "هزینه‌های ماشینت زیاده؟ با بیمه خیال خودت رو راحت کن.", "🚗", "from-blue-400 to-indigo-600"),
    "Shopping" := Advert("حراج فصل دیجی‌کالا", "لباس‌های جدید با ۵۰٪ تخفیف!", "🛍️", "from-pink-400 to-rose-600"),
    "Housing" := Advert("وام تعمیرات مسکن", "با سود ۴٪ برای تعمیرات خانه وام بگیر.", "🏠", "from-emerald-400 to-teal-600"),
    "Health" := Advert("بیمه تکمیلی سلامت", "هزینه‌های درمان بالاست. بیمه تکمیلی رو جدی بگیر.", "💊", "from-cyan-400 to-blue-500")]

  /** The advert for any other category. */
  const DefaultAdvert := Advert("سرمایه‌گذاری در بورس", "پول‌هات رو بیکار نذار!", "📈", "from-violet-400 to-purple-600")

  /** `ads.get(top, default)`; the fallback differs from all five, so it shows exactly for unlisted names. */
  function AdvertFor(top: string): (ad: Advert)
    ensures top in Adverts ==> ad == Adverts[top]
    ensures ad == DefaultAdvert <==> top !in Adverts
  {
    if top in Adverts then Adverts[top] else DefaultAdvert
  }

  /** The category key of the spending tally: the category's name, or "Other". */
  function NameKey(t: Transaction): string {
    if t.category.Some? then t.category.value.name else "Other"
  }

  /**
   * `max(category_totals, key=category_totals.get)`: a category whose
   * EXPENSE total no other exceeds, every category the tally met before it
   * falling strictly short of it.
   */
  predicate IsTopCategory(txs: seq<Transaction>, top: string) {
    var spent := OfKind(txs, Expense);
    IsFirstMax(Keys(spent, NameKey), TotalOf(spent, NameKey, Amount), top)
  }

  /** At most one category is the top one. */
  lemma TopCategoryUnique(txs: seq<Transaction>, a: string, b: string)
    requires IsTopCategory(txs, a) && IsTopCategory(txs, b)
    ensures a == b
  {
    var spent := OfKind(txs, Expense);
    FirstMaxUnique(Keys(spent, NameKey), TotalOf(spent, NameKey, Amount), a, b);
  }

  /** The targeted-advert block: the top category of the EXPENSE rows, if there are any. */
  method TopCategory(txs: seq<Transaction>) returns (top: Option<string>)
    ensures top.None? <==> OfKind(txs, Expense) == []
    ensures top.Some? ==> IsTopCategory(txs, top.value)
  {
    var spent := OfKind(txs, Expense);
    if spent == [] {
      return None;
    }
    var names, totals := Accumulate(spent, NameKey, Amount);
    assert NameKey(spent[0]) in names;
    var best := FirstMax(names, totals);
    FirstMaxFound(names, totals, TotalOf(spent, NameKey, Amount), best);
    top := Some(names[best]);
  }

  /** `targeted_ad`: the advert for the top category, none when there is no expense. */
  method TargetedAdvert(txs: seq<Transaction>) returns (ad: Option<Advert>)
    ensures ad.None? <==> OfKind(txs, Expense) == []
    ensures ad.Some? ==> exists top :: IsTopCategory(txs, top) && ad.value == AdvertFor(top)
  {
    var top := TopCategory(txs);
    if top.Some? {
      ad := Some(AdvertFor(top.value));
    } else {
      ad := None;
    }
  }

  /** The chart loop: the balance after each transaction, oldest first. */
  method RunningBalance(txs: seq<Transaction>) returns (chart: seq<int>)
    ensures |chart| == |txs|
    ensures forall j :: 0 <= j < |chart| ==> chart[j] == Sum(txs[|txs| - 1 - j..], SignedAmount)
  {
    chart := [];
    var running := 0;
    var i := |txs|;
    while i > 0
      invariant 0 <= i <= |txs|
      invariant |chart| == |txs| - i
      invariant running == Sum(txs[i..], SignedAmount)
      invariant forall j :: 0 <= j < |chart| ==> chart[j] == Sum(txs[|txs| - 1 - j..], SignedAmount)
    {
      i := i - 1;
      assert txs[i..] == [txs[i]] + txs[i + 1..];
      SumAppend([txs[i]], txs[i + 1..], SignedAmount);
      assert [txs[i]][..0] == [];
      running := running + SignedAmount(txs[i]);
      chart := chart + [running];
    }
  }

  /** `s[-n:]`: the last `n` elements, or all of `s` when it is shorter. */
  function Last<T>(s: seq<T>, n: nat): (r: seq<T>)
    ensures |r| == Min(n, |s|)
    ensures forall j :: 0 <= j < |r| ==> r[j] == s[|s| - |r| + j]
  {
    s[|s| - Min(n, |s|)..]
  }

  datatype DashboardContext = DashboardContext(
    balance: int,
    totalIncome: int,
    totalExpense: int,
    recent: seq<Transaction>,
    targetedAd: Option<Advert>,
    chartData: seq<int>)

  /** When every row is INCOME or EXPENSE, the running balance over all rows is the balance. */
  lemma {:induction false} SignedSum(txs: seq<Transaction>)
    requires WellTyped(txs)
    ensures Sum(txs, SignedAmount) == Sum(txs, IncomeAmount) - Sum(txs, ExpenseAmount)
  {
    SumDifference(txs, SignedAmount, IncomeAmount, ExpenseAmount);
  }

  /** A row of another type lowers the chart but not the balance. */
  lemma OtherTypeLowersOnlyTheChart()
    ensures var txs := [Transaction("x", 5, "expense", "1403/01/01", None)];
      Sum(txs, SignedAmount) == -5 && Sum(txs, IncomeAmount) - Sum(txs, ExpenseAmount) == 0
  {
    var txs := [Transaction("x", 5, "expense", "1403/01/01", None)];
    assert txs[..0] == [];
  }

  /**
   * `chart_data`: the running balance over all transactions, sampled after
   * each of the ten newest. Its last point is the balance when every row is INCOME or
   * EXPENSE.
   */
  method ChartData(txs: seq<Transaction>) returns (chartData: seq<int>)
    ensures |chartData| == Min(10, |txs|)
    ensures forall j :: 0 <= j < |chartData| ==> chartData[j] == Sum(txs[|chartData| - 1 - j..], SignedAmount)
    ensures WellTyped(txs) && |chartData| > 0 ==>
      chartData[|chartData| - 1] == Sum(txs, IncomeAmount) - Sum(txs, ExpenseAmount)
  {
    var chart := RunningBalance(txs);
    chartData := Last(chart, 10);
    if WellTyped(txs) && |chartData| > 0 {
      SignedSum(txs);
      assert txs[0..] == txs;
    }
  }

  /** The two `aggregate(Sum('amount'))` queries, over the INCOME and the EXPENSE rows. */
  method Totals(txs: seq<Transaction>) returns (totalIncome: int, totalExpense: int)
    ensures totalIncome == Sum(txs, IncomeAmount) && totalExpense == Sum(txs, ExpenseAmount)
  {
    totalIncome := Sum(OfKind(txs, Income), Amount);
    totalExpense := Sum(OfKind(txs, Expense), Amount);
    IncomeRows(txs);
    ExpenseRows(txs);
  }

  /** `dashboard`: the context the page is rendered from. */
  method Dashboard(txs: seq<Transaction>) returns (ctx: DashboardContext)
    ensures ctx.totalIncome == Sum(txs, IncomeAmount)
    ensures ctx.totalExpense == Sum(txs, ExpenseAmount)
    ensures ctx.balance == ctx.totalIncome - ctx.totalExpense
    ensures ctx.recent == txs[..Min(5, |txs|)]
    ensures ctx.targetedAd.None? <==> OfKind(txs, Expense) == []
    ensures ctx.targetedAd.Some? ==> exists top :: IsTopCategory(txs, top) && ctx.targetedAd.value == AdvertFor(top)
    ensures |ctx.chartData| == Min(10, |txs|)
    ensures forall j :: 0 <= j < |ctx.chartData| ==>
      ctx.chartData[j] == Sum(txs[|ctx.chartData| - 1 - j..], SignedAmount)
    ensures WellTyped(txs) && |ctx.chartData| > 0 ==> ctx.chartData[|ctx.chartData| - 1] == ctx.balance
  {
    var totalIncome, totalExpense := Totals(txs);
    var targetedAd := TargetedAdvert(txs);

    var chartData := ChartData(txs);
    ctx := DashboardContext(totalIncome - totalExpense, totalIncome, totalExpense,
                            txs[..Min(5, |txs|)], targetedAd, chartData);
  }
}
