/**
 * The per-chat conversation state that aiogram's `FSMContext` keeps: the
 * current state and the data the handlers store with `update_data`.
 */
module Fsm {
  import opened Wrappers
  import opened Calendar

  /** The states of the bot's `StatesGroup` classes that the modelled handlers use. */
  datatype FsmState =
    | Idle
    | WaitingForExpenseInput
    | WaitingForNewCategory
    | WaitingForEditCategory
    | WaitingForCustomPeriod
    | CustomPeriodInput
    | ChoosingType
    | WaitingForDeleteId
    | WaitingForDeleteConfirmation

  class Session {
    var state: FsmState
    /** `old_category`, stored when a category is picked for renaming. */
    var oldCategory: Option<string>
    /** `expense_ids`, stored before the deletion is confirmed; empty when absent. */
    var expenseIds: seq<int>
    /** `expense_id` of the single-record deletion flow. */
    var expenseId: Option<int>
    /** `period`, the key of the chosen statistics period. */
    var period: Option<string>
    /** `custom_period`, the (start, end) pair of a custom statistics range. */
    var customPeriod: Option<(Date, Date)>

    predicate Cleared()
      reads this
    {
      state == Idle && oldCategory == None && expenseIds == [] && expenseId == None
      && period == None && customPeriod == None
    }

    constructor ()
      ensures Cleared()
    {
      state := Idle;
      oldCategory := None;
      expenseIds := [];
      expenseId := None;
      period := None;
      customPeriod := None;
    }

    /** `state.clear()`: forgets the state and all stored data. */
    method Clear()
      modifies this
      ensures Cleared()
    {
      state := Idle;
      oldCategory := None;
      expenseIds := [];
      expenseId := None;
      period := None;
      customPeriod := None;
    }
  }
}
