/**
 * Which handler answers a callback of the category screens. The bot
 * includes its routers in the order of `all_routers`, and aiogram offers
 * an update to each router in turn; the first handler whose filters
 * accept it answers.
 */
module Routing {
  import opened Wrappers
  import opened Fsm

  /** The routers the bot defines. */
  datatype Router = Start | Stats | Expense | User | ExpenseDelete | ExpenseHistory | Categories

  /** `all_routers` as written: the category router is not among them. */
  const AllRouters: seq<Router> := [Start, Stats, Expense, User, ExpenseDelete, ExpenseHistory]

  /** The list the category screens call for: the category router included after the others. */
  const IntendedRouters: seq<Router> := AllRouters + [Categories]

  /**
   * The callbacks the category screens send: the "📊 Категории" button of
   * the settings menu (`categories`), the buttons of the categories menu
   * (`add_category`, `delete_category`, `edit_category`) and the
   * `confirm_delete:`, `do_delete:` and `edit_select:` buttons of the
   * delete and edit lists, each carrying a category.
   */
  datatype CategoryCallback =
    | CategoriesMenu
    | AddCategory
    | DeleteMenu
    | EditMenu
    | ConfirmDelete(category: string)
    | DoDelete(category: string)
    | EditSelect(category: string)

  /**
   * Whether `router` has a handler whose filters accept the callback in
   * `state`. Only `prompt_new_category` of the expense router matches one
   * of these callbacks, and the confirmation handler of the deletion
   * router takes every callback while a deletion waits to be confirmed;
   * the other routers filter on payloads of their own.
   */
  predicate Handles(router: Router, c: CategoryCallback, state: FsmState)
  {
    match router
    case Expense => c == AddCategory
    case ExpenseDelete => state == WaitingForDeleteConfirmation
    case Categories => true
    case _ => false
  }

  /** The router that answers: the first of `routers` with a handler for the callback. */
  function Dispatch(routers: seq<Router>, c: CategoryCallback, state: FsmState): Option<Router>
  {
    DispatchFrom(routers, 0, c, state)
  }

  function DispatchFrom(routers: seq<Router>, i: nat, c: CategoryCallback, state: FsmState): Option<Router>
    requires i <= |routers|
    decreases |routers| - i
  {
    if i == |routers| then None
    else if Handles(routers[i], c, state) then Some(routers[i])
    else DispatchFrom(routers, i + 1, c, state)
  }

  /**
   * A router answers exactly when some router of the list has a handler,
   * and the one that answers has one while no router before it has.
   */
  lemma DispatchIsFirst(routers: seq<Router>, c: CategoryCallback, state: FsmState)
    ensures Dispatch(routers, c, state).Some? <==> exists i :: 0 <= i < |routers| && Handles(routers[i], c, state)
    ensures Dispatch(routers, c, state).Some? ==>
      exists i :: 0 <= i < |routers| && routers[i] == Dispatch(routers, c, state).value && Handles(routers[i], c, state)
        && forall j :: 0 <= j < i ==> !Handles(routers[j], c, state)
  {
    DispatchFromIsFirst(routers, 0, c, state);
  }

  lemma {:induction false} DispatchFromIsFirst(routers: seq<Router>, i: nat, c: CategoryCallback, state: FsmState)
    requires i <= |routers|
    ensures DispatchFrom(routers, i, c, state).Some? <==> exists k :: i <= k < |routers| && Handles(routers[k], c, state)
    ensures DispatchFrom(routers, i, c, state).Some? ==>
      exists k :: i <= k < |routers| && routers[k] == DispatchFrom(routers, i, c, state).value && Handles(routers[k], c, state)
        && forall j :: i <= j < k ==> !Handles(routers[j], c, state)
    decreases |routers| - i
  {
    if i < |routers| && !Handles(routers[i], c, state) {
      DispatchFromIsFirst(routers, i + 1, c, state);
    }
  }

  /**
   * As written, no category screen is ever shown: outside a pending
   * deletion, `add_category` reaches `prompt_new_category` of the expense
   * router and every other category callback, "📊 Категории" included,
   * reaches no handler at all.
   */
  lemma CategoryScreensUnreachable(c: CategoryCallback, state: FsmState)
    requires state != WaitingForDeleteConfirmation
    ensures Dispatch(AllRouters, c, state) == if c == AddCategory then Some(Expense) else None
  {
    var rs := AllRouters;
    assert DispatchFrom(rs, 0, c, state) == DispatchFrom(rs, 2, c, state);
    if c != AddCategory {
      assert DispatchFrom(rs, 2, c, state) == DispatchFrom(rs, 4, c, state);
      assert DispatchFrom(rs, 4, c, state) == DispatchFrom(rs, 6, c, state);
    }
  }

  /** The button of the settings menu finds no handler in the bot as written. */
  lemma CategoriesButtonUnanswered(state: FsmState)
    requires state != WaitingForDeleteConfirmation
    ensures Dispatch(AllRouters, CategoriesMenu, state) == None
  {
    CategoryScreensUnreachable(CategoriesMenu, state);
  }

  /**
   * With the category router included, every category callback is
   * answered, and by the category router except `add_category`, which
   * the expense router, coming first, still takes.
   */
  lemma CategoryScreensReachable(c: CategoryCallback, state: FsmState)
    requires state != WaitingForDeleteConfirmation
    ensures Dispatch(IntendedRouters, c, state) == if c == AddCategory then Some(Expense) else Some(Categories)
  {
    var rs := IntendedRouters;
    assert rs == [Start, Stats, Expense, User, ExpenseDelete, ExpenseHistory, Categories];
    assert DispatchFrom(rs, 0, c, state) == DispatchFrom(rs, 2, c, state);
    if c != AddCategory {
      assert DispatchFrom(rs, 2, c, state) == DispatchFrom(rs, 4, c, state);
      assert DispatchFrom(rs, 4, c, state) == DispatchFrom(rs, 6, c, state);
    }
  }
}
