/**
 * Depositing into a savings goal: the posted amount, when there is one, is
 * parsed and added to the goal's saved amount in place.
 */
module GoalView {
  import opened Wrappers
  import opened Models
  import PyInt

  /**
   * What a deposit request came to: nothing (not a POST, or no amount), the
   * amount added, or an amount the parser refused (the request then fails
   * with an error and the goal is not saved).
   */
  datatype DepositOutcome = Ignored | Deposited(amount: int) | Rejected

  /** Whether the request carries an amount at all (`if amount:` on the posted value). */
  predicate HasAmount(amount: Option<string>) {
    amount.Some? && amount.value != ""
  }

  /** `deposit_goal` on an already fetched goal. */
  method DepositGoal(goal: Goal, isPost: bool, amount: Option<string>) returns (outcome: DepositOutcome)
    modifies goal`currentAmount
    ensures outcome.Ignored? <==> !isPost || !HasAmount(amount)
    ensures outcome.Rejected? <==> isPost && HasAmount(amount) && PyInt.ParseInt(amount.value).None?
    ensures outcome.Deposited? ==>
      isPost && HasAmount(amount) && PyInt.ParseInt(amount.value) == Some(outcome.amount)
    ensures outcome.Deposited? ==> goal.currentAmount == old(goal.currentAmount) + outcome.amount
    ensures !outcome.Deposited? ==> goal.currentAmount == old(goal.currentAmount)
    ensures goal.targetAmount == old(goal.targetAmount)
    ensures outcome.Deposited? && goal.targetAmount > 0 && outcome.amount >= old(goal.Remaining()) ==>
      goal.Progress() == 100
  {
    if !isPost || !HasAmount(amount) {
      return Ignored;
    }
    var parsed := PyInt.ParseInt(amount.value);
    if parsed.None? {
      return Rejected;
    }
    goal.currentAmount := goal.currentAmount + parsed.value;
    outcome := Deposited(parsed.value);
  }
}
