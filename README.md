# KifPool core, modelled in Dafny

KifPool is a personal finance tracker for Persian-speaking users. Users record
INCOME and EXPENSE transactions, file them under categories, set a spending
limit per category and save towards goals. This project models the arithmetic
behind those pages and proves properties of it. The pages covered are:

- the **dashboard**: totals, the five newest transactions, an advert chosen
  from the category with the most spending, and a running-balance chart;
- the **analytics endpoint**: per-period buckets, an expense breakdown by
  Persian category name, a cumulative net-worth series over the sorted
  periods, and overall totals;
- the **budget tracker**: how much of each category's limit is spent, with
  the "over" and "near" flags;
- **goal deposits**, and the goal's progress and remaining amount;
- the **template filters** that print numbers in Persian digits with thousands
  separators and map category names to icons and Persian names;
- the browser-side digit converter `toPersianNumber`.

Modules:

| module | file | what it holds |
|---|---|---|
| `Wrappers` | wrappers.dfy | `Option` |
| `PyInt` | py_int.dfy | Python's `int()` on text, `str()` of an integer, and `int(a / b * 100)` truncated toward zero |
| `StrOrder` | str_order.dfy | Python's code-point order on `str`, and `sorted()` |
| `Grouping` | grouping.dfy | sums, per-key totals, and a dictionary filled in insertion order (`d[k] = d.get(k, 0) + w`) |
| `Models` | models.dfy | `Category`, `Transaction`, `Budget` and the `Goal` class |
| `PersianTags` | persian_tags.dfy | the four template filters |
| `MainJs` | main_js.dfy | `toPersianNumber` |
| `AnalyticsView`, `DashboardView`, `BudgetView`, `GoalView` | *_view.dfy | the four views of core/views.py |

Conventions:

- Amounts are `int`, because every monetary field is a decimal with no
  fractional digits.
- A user's transactions are passed as a sequence in the model's default
  order, newest first (`ordering = ['-created_at']`). The dashboard chart,
  which the source orders by `created_at`, therefore walks that sequence
  from the end.
- A Python dictionary filled in a loop is modelled as the sequence of its
  keys in insertion order plus a map. `Grouping.Keys` gives that order and
  `Grouping.Total` gives each key's total.
- The database queries (`filter`, `aggregate(Sum(...))`, `first()`) become
  functions over the sequence, such as `Models.OfKind` and
  `BudgetView.FindBudget`.

Percentages (`Goal.progress` and the budget percentage) are computed in
`Decimal` and then truncated by `int()`. The model uses the exact quotient
truncated toward zero (`PyInt.TruncDiv`). The two agree whenever the
percentage is below 10^11 in size:

- The divisor t (a goal's target or a budget's limit) is a stored value of at
  most 15 digits. If the exact percentage 100·c/t is not an integer, it lies
  at least 1/t > 10^-15 from the nearest integer. The dividend c needs no
  bound: it may be a sum over many rows, or a saved amount that is never
  capped.
- `c / t` and the product with 100 are each rounded to 28 significant
  digits. Together the two roundings move the value by less than 10^-26 of
  its size, which is below 10^-15 while the percentage is below 10^11 in
  size. Truncation then gives the same integer.
- When 100·c/t is an integer k in that range, c/t = k/100 fits in 28 digits
  and the Decimal computation is exact.
- At 100 percent and above, both values are capped to 100 and raise the same
  flags, so only a negative percentage of 10^11 or more in size could differ.

## Model

| member | source | states |
|---|---|---|
| Models.ShownName | core/models.py:23-24 | the Persian name when it is not blank, else the name |
| Models.Label | core/models.py:21-24 | `Category.__str__`: the shown name for a top-level category; for a subcategory the parent's shown name, " » ", then its own, so the label always ends with its own shown name |
| Models.LabelSeparator | core/models.py:21-24 | when no name contains "»", the label contains it exactly when the category has a parent |
| Models.OfKind | core/views.py:66-67 | `filter(type=kind)`: every kept row has the type, each row of the type is kept, and nothing is added |
| Models.OfKindCount | core/views.py:66-67 | each row of the type is kept as many times as it occurs, and no other row is kept |
| Models.OfKindPrefix | core/views.py:66-67 | the query's order is kept: the rows kept from a prefix are a prefix of the rows kept |
| Models.RowsOfKind | core/views.py:66-67 | summing the amounts of the rows of one type is summing every row's share of that type |
| Models.IncomeRows | core/views.py:66 | the aggregate over INCOME rows is the sum of the income shares |
| Models.ExpenseRows | core/views.py:67 | the aggregate over EXPENSE rows is the sum of the expense shares |
| Models.Goal.constructor | core/models.py:76-84 | a new goal has nothing saved yet and the default icon "bi-trophy" |
| Models.Goal.Progress | core/models.py:94-98 | at most 100; 0 when the target is not positive; 100 exactly when the saved amount reaches the target; below that, and for a negative saved amount, the whole percentage truncated toward zero |
| Models.Goal.Remaining | core/models.py:100-102 | never negative; 0 exactly when the saved amount reaches the target; otherwise saved + remaining = target |
| Models.CompleteIffNothingRemains | core/models.py:94-102 | for a positive target, nothing remains exactly when progress shows 100 |
| PyInt.TruncDiv | core/views.py:292 | `int()` of a quotient truncates toward zero, for both signs |
| PyInt.TruncPercent | core/views.py:292 | the truncated percentage reaches 100 exactly when c ≥ t, and reaches 80 exactly when 100·c ≥ 80·t; it is not positive when c < 0 |
| PyInt.DecimalString | core/templatetags/persian_tags.py:22 | `str(n)`: "-" then the digits of −n for a negative n, the digits of n otherwise |
| PyInt.DecimalStringShape | core/templatetags/persian_tags.py:22 | `str(n)` is non-empty, starts with "-" exactly for a negative n, and is otherwise decimal digits without a leading zero |
| PyInt.ParseInt | core/templatetags/persian_tags.py:22 | `int()` on text: blank text is refused; a bare digit run reads as its value |
| PyInt.ParseDecimalString | core/templatetags/persian_tags.py:22 | `int(str(n)) == n` |
| PyInt.ParsedCharacters | core/templatetags/persian_tags.py:22 | text `int()` accepts holds only blanks, a sign, digits and underscores |
| StrOrder.Sorted | core/views.py:255 | `sorted()` returns a permutation of its input |
| StrOrder.Less | core/views.py:255 | Python's `<` on `str`: the first differing code point decides, and a proper prefix comes first |
| StrOrder.SortedAscending | core/views.py:255 | `sorted()` of distinct strings is strictly ascending in code-point order |
| StrOrder.AscendingListingUnique | core/views.py:255 | two strictly ascending listings of the same strings are equal, so the sorted order is determined |
| StrOrder.LessTransitive | core/views.py:255 | code-point string order is transitive |
| StrOrder.LessTotal | core/views.py:255 | any two different strings are ordered one way or the other |
| Grouping.Keys | core/views.py:238-239 | dictionary keys: distinct, one for every row, none without a row |
| Grouping.KeysPrefix | core/views.py:238-239 | insertion order: the keys of a prefix of the rows are a prefix of the keys |
| Grouping.PartitionSum | core/views.py:238-244 | the per-key totals over all keys add up to the total over all rows |
| Grouping.ExactlyOneBucket | core/views.py:238-244 | each row's amount goes into the total of its own key and no other: a key's total is what the rows before and after it give, plus the row's amount exactly when the key is its own |
| Grouping.SumPermutation | core/views.py:255-258 | the total over a sequence does not depend on its order |
| Grouping.Accumulate | core/views.py:85-88 | the `d[k] = d.get(k, 0) + w` loop: keys in first-appearance order, each holding its key's total |
| Grouping.AccumulatePair | core/views.py:224-244 | the same loop, filling two totals per key |
| Grouping.FirstMax | core/views.py:91 | `max(d, key=d.get)`: a key whose value no other exceeds, with every earlier key strictly below it |
| Grouping.FirstMaxUnique | core/views.py:91 | at most one key satisfies that |
| Grouping.FirstMaxFound | core/views.py:91 | the key found by the loop is that key |
| PersianTags.Localise | core/templatetags/persian_tags.py:9-15 | each ASCII digit becomes the Persian digit of the same value and nothing else changes; the result holds no ASCII digit |
| PersianTags.PersianNumber | core/templatetags/persian_tags.py:7-15 | the ten `replace` calls on `str(value)` give `Localise(str(value))` |
| PersianTags.Str | core/templatetags/persian_tags.py:12 | `str(value)` for an integer, text or `None` |
| PersianTags.IntOf | core/templatetags/persian_tags.py:22 | `int(value)`: `None` is refused, and an integer or text reads as `int(str(value))`, so an integer reads back as itself |
| PersianTags.Grouped | core/templatetags/persian_tags.py:22 | `'{:,}'.format(n)`: "-" for a negative n, then the digits of its size in groups of three joined by commas |
| PersianTags.LeadingGroup | core/templatetags/persian_tags.py:22 | in a grouped rendering the leading group has one to three digits and holds no comma |
| PersianTags.LocaliseIdempotent | core/templatetags/persian_tags.py:7-15 | applying the filter twice is applying it once |
| PersianTags.DelocaliseLocalise | core/templatetags/persian_tags.py:7-15 | on text without Persian digits the filter can be undone |
| PersianTags.FormatAmount | core/templatetags/persian_tags.py:19-25 | a value `int()` refuses comes back unchanged; an integer comes back as text |
| PersianTags.GroupThousandsShape | core/templatetags/persian_tags.py:22 | `'{:,}'` puts a comma before every group of three digits counted from the right, and nowhere else |
| PersianTags.FormatAmountShape | core/templatetags/persian_tags.py:19-25 | output: a "-" first exactly for a negative integer, then thousands groups of Persian digits |
| PersianTags.FormatAmountRoundTrip | core/templatetags/persian_tags.py:19-25 | removing the commas and undoing the digits gives back `str(n)` |
| PersianTags.ParseLocalised | core/templatetags/persian_tags.py:22 | `int()` reads Persian digits, so an integer printed in Persian digits parses back to itself |
| PersianTags.CommaDefeatsParse | core/templatetags/persian_tags.py:21-25 | `int()` refuses any text holding a comma |
| PersianTags.SmallAmountReadsBack | core/templatetags/persian_tags.py:19-25 | below a thousand in size the formatted text holds no comma, and `int()` reads it back as the same integer |
| PersianTags.LargeAmountRefused | core/templatetags/persian_tags.py:19-25 | from a thousand in size up the formatted text holds a comma, so `int()` refuses it |
| PersianTags.FormatAmountIdempotent | core/templatetags/persian_tags.py:19-25 | formatting a formatted amount changes nothing |
| PersianTags.CategoryIcon | core/templatetags/persian_tags.py:29-41 | the table's icon for the eight default names; "bi-tag" exactly for every other name |
| PersianTags.CategoryNameFa | core/templatetags/persian_tags.py:45-57 | the table's Persian name for the eight default names, which is not itself a key; any other name unchanged |
| PersianTags.CategoryNameFaIdempotent | core/templatetags/persian_tags.py:45-57 | applying the filter twice is applying it once |
| PersianTags.TablesAgree | core/templatetags/persian_tags.py:31-56 | both tables cover the same eight names |
| PersianTags.DigitTables | core/templatetags/persian_tags.py:9-10 | position d of each digit table holds the digit of value d |
| MainJs.ToPersianNumber | static/js/main.js:9-12 | each ASCII digit becomes the Persian digit of the same value and nothing else changes |
| MainJs.ToPersianNumberIdempotent | static/js/main.js:9-12 | converting twice is converting once |
| MainJs.AgreesWithFilter | static/js/main.js:9-12 | on the same text, the browser converter and the `persian_number` filter agree |
| AnalyticsView.Take | core/views.py:232-236 | `s[:n]` has length min(n, len(s)) and is a prefix of `s` |
| AnalyticsView.PeriodKey | core/views.py:226-236 | the bucket key is never empty; for every period but weekly it is "Unknown" or a prefix of the date; a weekly key is "Unknown" or a prefix of the date followed by two more characters |
| AnalyticsView.PeriodKeyShape | core/views.py:226-236 | "Unknown" for an empty date; otherwise the whole date (daily) or the first 7 characters plus "-W" (weekly); yearly the first 4 characters when the date has at least 4 and "Unknown" when shorter; any other period the first 7 when the date has at least 7 and "Unknown" when shorter |
| AnalyticsView.GroupByPeriod | core/views.py:224-244 | buckets in first-appearance order; each bucket's income is the total of its INCOME rows and its expense the total of all its other rows |
| AnalyticsView.NetWorthSeries | core/views.py:253-259 | point i carries the i-th period and the running total, up to and including it, of what each period's entry nets; the last point holds the net over all periods |
| AnalyticsView.SortedKeysFilled | core/views.py:255-257 | every sorted period is a key of the filled dictionary, and its entry nets to its bucket's income minus expense |
| AnalyticsView.BucketsPartition | core/views.py:238-244 | bucket incomes and bucket expenses add up to the totals over all rows |
| AnalyticsView.DictionaryTotals | core/views.py:262-263 | the report totals are the income and non-income totals over all rows |
| AnalyticsView.NetOverAllBuckets | core/views.py:256-258 | the net over all buckets is income minus expense over all rows |
| AnalyticsView.NetWorth | core/views.py:253-259 | one point per bucket, in sorted order, each with its running total; the last point holds the net over all buckets |
| AnalyticsView.NetWorthPeriods | core/views.py:255 | the series covers each bucket exactly once, in strictly ascending order |
| AnalyticsView.PeriodValues | core/views.py:267 | `list(period_data.values())`: one entry per bucket in first-appearance order, each with the bucket's totals |
| AnalyticsView.PeriodReport | core/views.py:223-272 | the bucket entries, the net-worth series, and totals that are the income and non-income totals over all rows, with balance = income − expense equal to the last net-worth point |
| AnalyticsView.CategoryBreakdown | core/views.py:247-250 | one entry per Persian category name of the EXPENSE rows, in first-appearance order, with the total of that name |
| AnalyticsView.FaNameKey | core/views.py:249 | the breakdown key: the category's Persian name, or "سایر" without a category |
| AnalyticsView.CategoriesPartitionExpenses | core/views.py:247-250 | the breakdown adds up to the total of the EXPENSE rows |
| AnalyticsView.AnalyticsData | core/views.py:217-274 | the whole report: the buckets, the breakdown, the totals with balance = income − expense, and a net-worth series whose last point equals the balance |
| AnalyticsView.WeeklyIsMonthly | core/views.py:230-236 | for dates of at least 7 characters, two dates share a weekly bucket exactly when they share a monthly one |
| AnalyticsView.MonthWithinYear | core/views.py:233-236 | dates long enough for a month that share a month also share a year |
| AnalyticsView.ShortDatesSplitYears | core/views.py:233-236 | example: two 4-character dates fall in one monthly "Unknown" bucket but in different yearly buckets |
| AnalyticsView.WellTypedExpenses | core/views.py:241-244 | when every row is INCOME or EXPENSE, "not income" and "expense" totals agree |
| AnalyticsView.OtherTypeCountsOnlyInTotals | core/views.py:241-250 | example: a row of another type counts as expense in the totals but not in the breakdown |
| DashboardView.DefaultsAgreeWithFilters | core/views.py:19-28 | every seeded category has the icon and Persian name the template filters give its name |
| DashboardView.AdvertFor | core/views.py:92-99 | the listed advert for the five listed categories; the fallback advert exactly for every other name |
| DashboardView.TopCategoryUnique | core/views.py:85-91 | at most one category is the top spending category |
| DashboardView.NameKey | core/views.py:87 | the spending-tally key: the category's name, or "Other" without a category |
| DashboardView.TopCategory | core/views.py:82-91 | none exactly when there are no EXPENSE rows; otherwise the top spending category by name ("Other" when uncategorised) |
| DashboardView.TargetedAdvert | core/views.py:81-99 | none exactly when there are no EXPENSE rows; otherwise the advert of the top spending category |
| DashboardView.RunningBalance | core/views.py:101-109 | point j is the balance after the j+1 oldest transactions, with INCOME added and every other row subtracted |
| DashboardView.Last | core/views.py:118 | `s[-n:]`: the last min(n, len(s)) elements |
| DashboardView.ChartData | core/views.py:101-118 | the running balance over all transactions, sampled after each of the ten newest (`chart_data[-10:]`); when every row is INCOME or EXPENSE its last point is the balance |
| DashboardView.SignedSum | core/views.py:66-68 | when every row is INCOME or EXPENSE, the running balance over all rows equals income minus expense |
| DashboardView.OtherTypeLowersOnlyTheChart | core/views.py:66-68 | example: a row of another type lowers the chart but not the balance |
| DashboardView.Totals | core/views.py:66-67 | the two aggregates are the income total and the expense total over all rows |
| DashboardView.Dashboard | core/views.py:58-122 | income and expense totals over the rows of each type, balance = income − expense, the five newest transactions, the targeted advert and the chart |
| BudgetView.FindBudget | core/views.py:289 | the first budget set for the category; none exactly when no budget names it |
| BudgetView.SpentOn | core/views.py:290 | the EXPENSE spending in a category is that category's total when EXPENSE rows are tallied by category |
| BudgetView.RowFor | core/views.py:289-301 | the row for a category: the first budget set for it (`FindBudget`), its EXPENSE spending, the budget's limit or 0 without one, and the percent and both flags exactly as `BudgetStatus` gives them for that spending and limit (0 and no flag without a budget) |
| BudgetView.SpentIsCategoryTotal | core/views.py:285-290 | a category's spending is its total when EXPENSE rows are tallied by category |
| BudgetView.CategoryLinesPartitionExpenses | core/views.py:285-290 | the category totals, with the uncategorised rows, add up to the EXPENSE total |
| BudgetView.BudgetStatus | core/views.py:291-301 | 0 and no flag without a positive limit; percent capped at 100; over budget exactly when spent ≥ limit; near budget exactly when 80% ≤ spent/limit < 100%; never both; for spending from 0 to the limit and for negative spending, the percentage truncated toward zero |
| BudgetView.UnbudgetedRow | core/views.py:289-292 | a category without a budget shows limit 0, 0 percent and no flag, whatever was spent |
| BudgetView.BudgetData | core/views.py:287-302 | one row per category, in order, each with its budget, spending, limit, percent and flags |
| GoalView.DepositGoal | core/views.py:373-384 | nothing changes unless the request is a POST with a non-empty amount; text that does not parse is rejected and changes nothing; otherwise the saved amount grows by exactly the amount and the target is kept; a deposit covering what remained brings progress to 100 |
| GoalView.HasAmount | core/views.py:378-379 | `if amount:`: a value was posted and it is not empty |

The budget percentage is capped at 100 but has no lower bound, so a negative
spending total (amounts are not validated) shows a negative percentage;
`BudgetView.BudgetStatus` states this.

## Left out

- Floating point: the dashboard and the analytics endpoint add `float(amount)`. The model adds exact integers, which agree while every sum stays below 2^53.
- The database and the ORM: users, authentication, ownership filters and saving are not modelled. Each view receives the user's rows as parameters.
- Categories: the query for the categories a user sees (defaults plus their own) is a parameter. The seeding loop of `get_or_create_default_categories` is covered only by `DashboardView.DefaultsAgreeWithFilters`.
- DashboardView.Dashboard: the AI analysis text, which is a call to an external language-model service, is left out. The `categories` entry of the context is also left out, because it is a plain query.
- DashboardView.Dashboard: ties between equal `created_at` timestamps are not modelled. The rows are assumed to arrive in one fixed order.
- Rendering of templates, `JsonResponse`, `json.dumps`, messages and redirects is left out.
- BudgetView.BudgetData: `current_month` is computed from the clock but never used, so spending is all-time, as in the source. The clock call is left out.
- GoalView.DepositGoal: the amount is read with the grammar `int()` accepts, so the model rejects what the source adds: `Decimal(amount)` accepts a fraction such as "1.5" or an exponent such as "1e3" and adds it to the goal, while the model returns `Rejected` for both. "NaN" and "Infinity" are rejected by the model as well.
- GoalView.DepositGoal: the failing parse is an exception in the source (an error page). It is modelled as `Rejected`.
- GoalView.DepositGoal: the 15-digit column limit on the saved amount is not enforced.
- Decimal rounding: a negative percentage of 10^11 or more in size (a negative spending total or saved amount that large) is taken as the exact truncated quotient, which the source's 28-digit Decimal arithmetic may miss by one.
- PersianTags.Str: `str()` is modelled for integers, text and `None` only. Other Python values are not modelled.
- PersianTags.FormatAmount: `int()` of a float, a Decimal or a bool is not modelled.
- PyInt.ParseInt: blanks are the ASCII blanks. Digits are ASCII, Arabic-Indic and Extended Arabic-Indic (Persian). Python's other Unicode digits and spaces are not modelled.
- MainJs.ToPersianNumber: the argument is taken as the text `toString()` produces. `toString()` itself is not modelled. `formatAmount` and the rest of main.js are not part of this model.
- CSV import and export, the AI service modules, forms, the admin site and the other views are not part of this model.
