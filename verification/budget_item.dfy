/**
 * The budget line card of `src/components/BudgetItem.tsx`: the variance badge
 * and the status colour. The same variance rule drives the "Budget Variance"
 * card of the budget chart.
 */
module BudgetItemView {
  import opened Wrappers
  import opened Types

  /**
   * A variance as displayed: a sign (`isPositive`, "under budget") and a
   * magnitude. Amounts are in cents; the two-decimal formatting is not modelled.
   */
  datatype Variance = Variance(isPositive: bool, magnitude: nat)

  /**
   * `getVariance`: estimated minus actual, shown as its absolute value with
   * the sign as a flag; an exact match counts as positive.
   */
  function VarianceOf(estimated: int, actual: int): (v: Variance)
    ensures v.isPositive <==> estimated >= actual
    ensures v.magnitude == if estimated >= actual then estimated - actual else actual - estimated
  {
    var d := estimated - actual;
    Variance(d >= 0, if d >= 0 then d else -d)
  }

  /** The signed difference the badge stands for. */
  function Signed(v: Variance): int {
    if v.isPositive then v.magnitude else -(v.magnitude as int)
  }

  /**
   * The badge loses nothing: sign and magnitude give back the difference, and
   * two pairs of amounts show the same badge exactly when they differ by the
   * same amount.
   */
  lemma VarianceRoundTrip(estimated: int, actual: int, estimated': int, actual': int)
    ensures Signed(VarianceOf(estimated, actual)) == estimated - actual
    ensures VarianceOf(estimated, actual) == VarianceOf(estimated', actual')
      <==> estimated - actual == estimated' - actual'
  {
    var v, v' := VarianceOf(estimated, actual), VarianceOf(estimated', actual');
    if v == v' {
      assert Signed(v) == Signed(v');
    }
  }

  /** The colour class of the status badge, switched on the status text. */
  function StatusColour(status: string): (c: string)
    ensures status == "Completed" ==> c == "bg-green-200 text-green-700"
    ensures status == "In Progress" ==> c == "bg-blue-200 text-blue-700"
    ensures status == "Planned" ==> c == "bg-gray-200 text-gray-700"
    ensures status != "Completed" && status != "In Progress" && status != "Planned" ==> c == ""
  {
    if status == "Completed" then "bg-green-200 text-green-700"
    else if status == "In Progress" then "bg-blue-200 text-blue-700"
    else if status == "Planned" then "bg-gray-200 text-gray-700"
    else ""
  }

  /**
   * Every budget status has its own non-empty colour class, and a text that
   * names no budget status gets the empty class.
   */
  lemma StatusColoursDistinct(a: BudgetStatus, b: BudgetStatus, s: string)
    ensures StatusColour(BudgetStatusLabel(a)) != ""
    ensures StatusColour(BudgetStatusLabel(a)) == StatusColour(BudgetStatusLabel(b)) <==> a == b
    ensures ParseBudgetStatus(s).None? <==> StatusColour(s) == ""
  {
    if ParseBudgetStatus(s).Some? {
      assert BudgetStatusLabel(ParseBudgetStatus(s).value) == s;
    }
  }
}
