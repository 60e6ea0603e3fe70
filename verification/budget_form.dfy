/**
 * The budget line dialog of `src/components/BudgetForm.tsx`: the category
 * select with its custom-category mode, the reset and prefill when it opens,
 * amount entry, and the payload it submits. It checks nothing.
 */
module BudgetForm {
  import opened Wrappers
  import opened Numbers
  import opened Types

  /** The categories the select offers, besides "+ Custom Category" (value "custom"). */
  const Categories: seq<string> := ["Venue", "Catering", "Marketing", "Equipment", "Transportation",
                                    "Accommodation", "Speakers", "Entertainment", "Staff", "Miscellaneous"]

  /** The dialog's state; amounts are whole cents. */
  datatype FormState = FormState(
    category: string,
    description: string,
    estimatedAmount: int,
    actualAmount: int,
    status: BudgetStatus,
    customCategory: string,
    isCustomCategory: bool)

  /** The dialog with nothing in it. */
  const Blank := FormState("", "", 0, 0, BudgetStatus.Planned, "", false)

  /**
   * The effect that runs when the dialog opens: with an item, its fields, and
   * custom mode exactly when its category is not one of the suggested ones
   * (the custom text is then that category, and otherwise stays as it was);
   * without one, the blank dialog.
   */
  function Open(st: FormState, item: Option<BudgetItem>): (r: FormState)
    ensures item.None? ==> r == Blank
    ensures item.Some? ==> r.category == item.value.category && r.description == item.value.description
    ensures item.Some? ==> r.estimatedAmount == item.value.estimatedAmount && r.actualAmount == item.value.actualAmount
    ensures item.Some? ==> r.status == item.value.status
    ensures item.Some? ==> (r.isCustomCategory <==> item.value.category !in Categories)
    ensures item.Some? && item.value.category !in Categories ==> r.customCategory == item.value.category
    ensures item.Some? && item.value.category in Categories ==> r.customCategory == st.customCategory
  {
    match item
    case None => Blank
    case Some(it) =>
      var custom := it.category !in Categories;
      FormState(it.category, it.description, it.estimatedAmount, it.actualAmount, it.status,
                if custom then it.category else st.customCategory, custom)
  }

  /** Picking an entry of the category select; "custom" is the "+ Custom Category" entry. */
  function SelectCategory(st: FormState, value: string): (r: FormState)
    ensures r.category == value
    ensures r.description == st.description && r.status == st.status
    ensures r.estimatedAmount == st.estimatedAmount && r.actualAmount == st.actualAmount
    ensures r.customCategory == st.customCategory && r.isCustomCategory == st.isCustomCategory
  {
    st.(category := value)
  }

  /** Typing in the custom-category box: the text is kept and custom mode is (or stays) on. */
  function TypeCustomCategory(st: FormState, text: string): (r: FormState)
    ensures r.customCategory == text && r.isCustomCategory
    ensures r.category == st.category && r.description == st.description && r.status == st.status
  {
    st.(customCategory := text, isCustomCategory := true)
  }

  /** The "Select Existing" button: back to the select, keeping what was typed. */
  function SelectExisting(st: FormState): (r: FormState)
    ensures !r.isCustomCategory && r.customCategory == st.customCategory && r.category == st.category
  {
    st.(isCustomCategory := false)
  }

  /** An amount box's text, read with `parseFloat(..) || 0`: unparsable text becomes 0. */
  function AmountOf(text: string, parseAmount: string -> Num): (n: int)
    ensures parseAmount(text).NaN? ==> n == 0
    ensures parseAmount(text).Finite? ==> n == parseAmount(text).value
  {
    OrZero(parseAmount(text))
  }

  /** An amount shown in its field and read back unchanged keeps its value. */
  lemma AmountOfShown(x: int, showAmount: int -> string, parseAmount: string -> Num)
    requires parseAmount(showAmount(x)) == Finite(x)
    ensures AmountOf(showAmount(x), parseAmount) == x
  {
  }

  /** The category that goes out: the custom text in custom mode, the selected entry otherwise. */
  function FinalCategory(st: FormState): (c: string)
    ensures st.isCustomCategory ==> c == st.customCategory
    ensures !st.isCustomCategory ==> c == st.category
  {
    if st.isCustomCategory then st.customCategory else st.category
  }

  /** `handleSubmit`: the category, description, both amounts and status, and no id. */
  function Submit(st: FormState): (d: BudgetDraft)
    ensures d.category == FinalCategory(st) && d.description == st.description
    ensures d.estimatedAmount == st.estimatedAmount && d.actualAmount == st.actualAmount
    ensures d.status == st.status
  {
    BudgetDraft(FinalCategory(st), st.description, st.estimatedAmount, st.actualAmount, st.status)
  }

  /** Choosing "+ Custom Category" and submitting without typing sends the category "custom". */
  lemma CustomWithoutTyping(st: FormState)
    ensures Submit(SelectCategory(Open(st, None), "custom")).category == "custom"
  {
  }

  /**
   * Opening an item and submitting it unchanged gives the item back, whether
   * its category is a suggested one or a custom one.
   */
  lemma EditRoundTrip(st: FormState, item: BudgetItem)
    ensures Submit(Open(st, Some(item))) ==
      BudgetDraft(item.category, item.description, item.estimatedAmount, item.actualAmount, item.status)
  {
  }

  /**
   * In custom mode the selected entry plays no part: the typed text goes out,
   * whatever the category field still holds. The page hides the select in
   * custom mode, so there the field holds "custom" or an item's own category;
   * once "Select Existing" turns custom mode off, the entry picked next goes out.
   */
  lemma CustomModeOverridesSelect(st: FormState, value: string, text: string)
    ensures Submit(SelectCategory(TypeCustomCategory(st, text), value)).category == text
    ensures Submit(SelectExisting(SelectCategory(TypeCustomCategory(st, text), value))).category == value
    ensures Submit(SelectCategory(SelectExisting(TypeCustomCategory(st, text)), value)).category == value
  {
  }
}
