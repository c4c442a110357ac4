/**
 * The records of the finance tracker (core/models.py): categories,
 * transactions, budgets and savings goals. Monetary fields are decimals with
 * no fractional digits, so amounts are integers here.
 */
module Models {
  import opened Wrappers
  import PyInt
  import opened Grouping

  /** The two transaction types. */
  const Income := "INCOME"
  const Expense := "EXPENSE"

  /** A category; `parent` allows one level of nesting, `id` is its primary key. */
  datatype Category = Category(
    id: int,
    name: string,
    nameFa: string,
    icon: string,
    color: string,
    parent: Option<Category>,
    isDefault: bool)

  /** A transaction; `kind` is the `type` column, `date` free text such as "1403/05/12". */
  datatype Transaction = Transaction(
    title: string,
    amount: int,
    kind: string,
    date: string,
    category: Option<Category>)

  /** A spending ceiling for one category. */
  datatype Budget = Budget(category: Category, limit: int, period: string)

  /** `name_fa or name`: the Persian name unless it is blank. */
  function ShownName(c: Category): (r: string)
    ensures c.nameFa != "" ==> r == c.nameFa
    ensures c.nameFa == "" ==> r == c.name
  {
    if c.nameFa != "" then c.nameFa else c.name
  }

  /** `Category.__str__`: "parent » child" for a subcategory, the shown name otherwise. */
  function Label(c: Category): (r: string)
    ensures |r| >= |ShownName(c)| && r[|r| - |ShownName(c)|..] == ShownName(c)
    ensures c.parent.None? ==> r == ShownName(c)
    ensures c.parent.Some? ==>
      var p := ShownName(c.parent.value);
      |r| == |p| + 3 + |ShownName(c)| && r[..|p| + 3] == p + " » "
  {
    match c.parent
    case None => ShownName(c)
    case Some(p) => ShownName(p) + " » " + ShownName(c)
  }

  /**
   * When no name contains the separator, the label holds it exactly when the
   * category has a parent, and splitting there gives back both shown names.
   */
  lemma LabelSeparator(c: Category)
    requires '»' !in c.name && '»' !in c.nameFa
    requires c.parent.Some? ==> '»' !in c.parent.value.name && '»' !in c.parent.value.nameFa
    ensures '»' in Label(c) <==> c.parent.Some?
  {
    var own := ShownName(c);
    if c.parent.Some? {
      var p := ShownName(c.parent.value);
      assert Label(c)[|p| + 1] == '»';
    }
  }

  /** The amount as an income (INCOME rows only). */
  function IncomeAmount(t: Transaction): int {
    if t.kind == Income then t.amount else 0
  }

  /** The amount as an expense, counting only rows typed EXPENSE. */
  function ExpenseAmount(t: Transaction): int {
    if t.kind == Expense then t.amount else 0
  }

  /** The amount as an expense, counting every row not typed INCOME. */
  function NonIncomeAmount(t: Transaction): int {
    if t.kind != Income then t.amount else 0
  }

  /** The effect of a transaction on the balance. */
  function SignedAmount(t: Transaction): int {
    if t.kind == Income then t.amount else -t.amount
  }

  function Amount(t: Transaction): int {
    t.amount
  }

  /** `transactions.filter(type=kind)`, keeping the order of the query. */
  function OfKind(txs: seq<Transaction>, kind: string): (r: seq<Transaction>)
    ensures |r| <= |txs|
    ensures forall i :: 0 <= i < |r| ==> r[i].kind == kind && r[i] in txs
    ensures forall i :: 0 <= i < |txs| && txs[i].kind == kind ==> txs[i] in r
  {
    if txs == [] then []
    else
      var p := txs[..|txs| - 1];
      var t := txs[|txs| - 1];
      assert forall i :: 0 <= i < |p| ==> p[i] == txs[i];
      OfKind(p, kind) + (if t.kind == kind then [t] else [])
  }

  /** Filtering keeps every row of the type as often as it occurs, and no other row. */
  lemma {:induction false} OfKindCount(txs: seq<Transaction>, kind: string)
    ensures forall t :: multiset(OfKind(txs, kind))[t] == if t.kind == kind then multiset(txs)[t] else 0
  {
    if txs != [] {
      var p := txs[..|txs| - 1];
      OfKindCount(p, kind);
      assert txs == p + [txs[|txs| - 1]];
    }
  }

  /** Filtering keeps the query's order: the rows kept from a prefix are a prefix of the rows kept. */
  lemma {:induction false} OfKindPrefix(txs: seq<Transaction>, i: int, kind: string)
    requires 0 <= i <= |txs|
    ensures OfKind(txs[..i], kind) <= OfKind(txs, kind)
  {
    if i < |txs| {
      var p := txs[..|txs| - 1];
      OfKindPrefix(p, i, kind);
      assert p[..i] == txs[..i];
    } else {
      assert txs[..i] == txs;
    }
  }

  /**
   * Summing the amounts of the rows of one type (`filter(type=kind)` then
   * `aggregate(Sum('amount'))`) is summing every row's share of that type.
   */
  lemma {:induction false} RowsOfKind(txs: seq<Transaction>, kind: string, share: Transaction -> int)
    requires forall t :: share(t) == if t.kind == kind then t.amount else 0
    ensures Sum(OfKind(txs, kind), Amount) == Sum(txs, share)
  {
    if txs != [] {
      var p := txs[..|txs| - 1];
      var t := txs[|txs| - 1];
      RowsOfKind(p, kind, share);
      SumAppend(OfKind(p, kind), if t.kind == kind then [t] else [], Amount);
      assert Sum([t], Amount) == t.amount by { assert [t][..0] == []; }
    }
  }

  lemma IncomeRows(txs: seq<Transaction>)
    ensures Sum(OfKind(txs, Income), Amount) == Sum(txs, IncomeAmount)
  {
    RowsOfKind(txs, Income, IncomeAmount);
  }

  lemma ExpenseRows(txs: seq<Transaction>)
    ensures Sum(OfKind(txs, Expense), Amount) == Sum(txs, ExpenseAmount)
  {
    RowsOfKind(txs, Expense, ExpenseAmount);
  }

  /** Whether every row carries one of the two declared types. */
  predicate WellTyped(txs: seq<Transaction>) {
    forall i :: 0 <= i < |txs| ==> txs[i].kind == Income || txs[i].kind == Expense
  }

  function Min(a: int, b: int): int {
    if a <= b then a else b
  }

  /** A savings goal; deposits change `currentAmount` in place. */
  class Goal {
    var title: string
    var targetAmount: int
    var currentAmount: int
    var deadline: string
    var icon: string

    constructor (title: string, targetAmount: int, deadline: string)
      ensures this.title == title && this.targetAmount == targetAmount && this.deadline == deadline
      ensures currentAmount == 0 && icon == "bi-trophy"
    {
      this.title := title;
      this.targetAmount := targetAmount;
      this.currentAmount := 0;
      this.deadline := deadline;
      this.icon := "bi-trophy";
    }

    /** `Goal.progress`: the saved share of the target in whole percent, capped at 100. */
    function Progress(): (p: int)
      reads this
      ensures p <= 100
      ensures targetAmount <= 0 ==> p == 0
      ensures targetAmount > 0 ==> (p == 100 <==> currentAmount >= targetAmount)
      ensures 0 <= currentAmount < targetAmount ==>
        0 <= p < 100 && p * targetAmount <= currentAmount * 100 < (p + 1) * targetAmount
      ensures targetAmount > 0 && currentAmount < 0 ==>
        p <= 0 && -p * targetAmount <= -currentAmount * 100 < (-p + 1) * targetAmount
    {
      if targetAmount > 0 then
        PyInt.TruncPercent(currentAmount, targetAmount);
        Min(PyInt.TruncDiv(currentAmount * 100, targetAmount), 100)
      else 0
    }

    /** `Goal.remaining`: what is still missing, never negative. */
    function Remaining(): (r: int)
      reads this
      ensures r >= 0
      ensures r == 0 <==> currentAmount >= targetAmount
      ensures currentAmount <= targetAmount ==> currentAmount + r == targetAmount
    {
      if targetAmount - currentAmount > 0 then targetAmount - currentAmount else 0
    }
  }

  /** For a positive target, nothing remains exactly when progress shows 100. */
  lemma CompleteIffNothingRemains(g: Goal)
    requires g.targetAmount > 0
    ensures g.Remaining() == 0 <==> g.Progress() == 100
  {
  }
}
