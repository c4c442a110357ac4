/**
 * The budget tracker: for every category, the budget set for it (if any),
 * what has been spent in it, and how far the spending has come towards the
 * limit, with the "over budget" and "near budget" flags.
 */
module BudgetView {
  import opened Wrappers
  import opened Models
  import opened Grouping
  import PyInt

  /** `budgets.filter(category=c).first()`: the first budget, in primary-key order, set for `c`. */
  function FindBudget(budgets: seq<Budget>, c: Category): (r: Option<Budget>)
    ensures r.None? <==> forall i :: 0 <= i < |budgets| ==> budgets[i].category.id != c.id
    ensures r.Some? ==> r.value.category.id == c.id
    ensures r.Some? ==>
      exists i :: 0 <= i < |budgets| && budgets[i] == r.value &&
        (forall j :: 0 <= j < i ==> budgets[j].category.id != c.id)
  {
    if budgets == [] then None
    else if budgets[0].category.id == c.id then Some(budgets[0])
    else
      var r := FindBudget(budgets[1..], c);
      assert forall i :: 0 <= i < |budgets| - 1 ==> budgets[1..][i] == budgets[i + 1];
      r
  }

  /** The category a row is charged to, by primary key. */
  function CategoryId(t: Transaction): Option<int> {
    if t.category.Some? then Some(t.category.value.id) else None
  }

  /** The amount of a row as spending in category `c`. */
  function SpendIn(c: Category): Transaction -> int {
    (t: Transaction) => if CategoryId(t) == Some(c.id) then t.amount else 0
  }

  /** `transactions.filter(category=c).aggregate(Sum('amount'))['amount__sum'] or 0` over the EXPENSE rows. */
  function SpentOn(txs: seq<Transaction>, c: Category): (r: int)
    ensures r == Total(OfKind(txs, Expense), CategoryId, Amount, Some(c.id))
  {
    SpentIsCategoryTotal(OfKind(txs, Expense), c);
    Sum(OfKind(txs, Expense), SpendIn(c))
  }

  /** The spending in a category is that category's bucket when EXPENSE rows are tallied by category. */
  lemma {:induction false} SpentIsCategoryTotal(spent: seq<Transaction>, c: Category)
    ensures Sum(spent, SpendIn(c)) == Total(spent, CategoryId, Amount, Some(c.id))
  {
    if spent != [] {
      SpentIsCategoryTotal(spent[..|spent| - 1], c);
    }
  }

  /**
   * Every EXPENSE row is charged to exactly one category line or to none:
   * the lines of all categories that occur, plus the uncategorised rows,
   * add up to the expense total.
   */
  lemma CategoryLinesPartitionExpenses(txs: seq<Transaction>)
    ensures var spent := OfKind(txs, Expense);
      Sum(Keys(spent, CategoryId), TotalOf(spent, CategoryId, Amount)) == Sum(txs, ExpenseAmount)
  {
    PartitionSum(OfKind(txs, Expense), CategoryId, Amount);
    ExpenseRows(txs);
  }

  /** The shown percentage (capped at 100) and the two flags of one budget line. */
  datatype Status = Status(percent: int, overBudget: bool, nearBudget: bool)

  /**
   * `int(spent / limit * 100)` when a positive limit is set, 0 otherwise;
   * over budget from 100 percent on, near budget from 80 percent up to 100.
   */
  function BudgetStatus(spent: int, limit: int): (st: Status)
    ensures st.percent <= 100
    ensures limit <= 0 ==> st == Status(0, false, false)
    ensures limit > 0 ==> (st.overBudget <==> spent >= limit)
    ensures limit > 0 ==> (st.nearBudget <==> 80 * limit <= 100 * spent && spent < limit)
    ensures !(st.overBudget && st.nearBudget)
    ensures st.overBudget ==> st.percent == 100
    ensures limit > 0 && 0 <= spent < limit ==>
      0 <= st.percent < 100 && st.percent * limit <= spent * 100 < (st.percent + 1) * limit
    ensures spent < 0 ==> st.percent <= 0 && !st.overBudget && !st.nearBudget
    ensures limit > 0 && spent < 0 ==> -st.percent * limit <= -spent * 100 < (-st.percent + 1) * limit
  {
    var raw := if limit > 0 then PyInt.TruncDiv(spent * 100, limit) else 0;
    if limit > 0 then
      PyInt.TruncPercent(spent, limit);
      Status(Min(raw, 100), raw >= 100, 80 <= raw < 100)
    else Status(0, false, false)
  }

  /** One entry of `budget_data`. */
  datatype BudgetRow = BudgetRow(
    category: Category,
    budget: Option<Budget>,
    spent: int,
    limit: int,
    percent: int,
    overBudget: bool,
    nearBudget: bool)

  /** The entry for category `c`; a category without a budget has limit 0. */
  function RowFor(c: Category, budgets: seq<Budget>, txs: seq<Transaction>): (row: BudgetRow)
    ensures row.category == c && row.spent == SpentOn(txs, c)
    ensures row.budget == FindBudget(budgets, c)
    ensures Status(row.percent, row.overBudget, row.nearBudget) == BudgetStatus(row.spent, row.limit)
    ensures row.budget.Some? ==> row.budget.value.category.id == c.id && row.limit == row.budget.value.limit
    ensures row.budget.None? ==> row.limit == 0 && row.percent == 0 && !row.overBudget && !row.nearBudget
    ensures row.limit > 0 ==> (row.overBudget <==> row.spent >= row.limit)
    ensures row.limit > 0 ==> (row.nearBudget <==> 80 * row.limit <= 100 * row.spent && row.spent < row.limit)
    ensures row.percent <= 100
  {
    var b := FindBudget(budgets, c);
    var spent := SpentOn(txs, c);
    var limit := if b.Some? then b.value.limit else 0;
    var st := BudgetStatus(spent, limit);
    BudgetRow(c, b, spent, limit, st.percent, st.overBudget, st.nearBudget)
  }

  /** A category nobody set a budget for shows 0 percent and raises no flag, whatever was spent. */
  lemma UnbudgetedRow(c: Category, budgets: seq<Budget>, txs: seq<Transaction>)
    requires forall i :: 0 <= i < |budgets| ==> budgets[i].category.id != c.id
    ensures var row := RowFor(c, budgets, txs);
      row.budget.None? && row.limit == 0 && row.percent == 0 && !row.overBudget && !row.nearBudget
  {
  }

  /** `budget`: one row per category, in the order the categories are listed. */
  method BudgetData(categories: seq<Category>, budgets: seq<Budget>, txs: seq<Transaction>)
    returns (rows: seq<BudgetRow>)
    ensures |rows| == |categories|
    ensures forall i :: 0 <= i < |rows| ==> rows[i] == RowFor(categories[i], budgets, txs)
  {
    rows := [];
    for i := 0 to |categories|
      invariant |rows| == i
      invariant forall j :: 0 <= j < i ==> rows[j] == RowFor(categories[j], budgets, txs)
    {
      var c := categories[i];
      var budget := FindBudget(budgets, c);
      var spent := SpentOn(txs, c);
      var limit := if budget.Some? then budget.value.limit else 0;
      var st := BudgetStatus(spent, limit);
      rows := rows + [BudgetRow(c, budget, spent, limit, st.percent, st.overBudget, st.nearBudget)];
    }
  }
}
