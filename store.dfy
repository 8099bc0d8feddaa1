/**
 * The two tables the bot keeps in PostgreSQL, `expenses` and
 * `user_categories`, held in memory, and the SQL statements the handlers
 * run against them. Each statement is a function on the table contents;
 * the `Database` class holds the tables and applies the statements in place.
 */
module Store {
  import opened Wrappers
  import opened Calendar

  /**
   * A row of `expenses`. `amount` is in kopecks. `id` is the SERIAL key;
   * it also stands in for `created_at`, which the database fills with the
   * insertion time and which therefore grows with the key.
   */
  datatype Expense = Expense(id: int, userId: int, category: string, amount: int, date: Date, time: Option<Time>)

  /** A row of `user_categories`. */
  datatype CategoryRow = CategoryRow(userId: int, category: string)

  /** `category VARCHAR(50)`. */
  const CategoryWidth := 50

  /** `amount DECIMAL(10, 2)`: at most eight integer digits, so less than 10^10 kopecks in magnitude. */
  const AmountBound := 10_000_000_000

  /** Whether PostgreSQL accepts the values into an `expenses` row. */
  predicate Storable(category: string, amount: int)
  {
    |category| <= CategoryWidth && -AmountBound < amount < AmountBound
  }

  predicate UniqueIds(es: seq<Expense>)
  {
    forall i, j :: 0 <= i < j < |es| ==> es[i].id != es[j].id
  }

  /** `SELECT category FROM user_categories WHERE user_id = $1`, in table order. */
  function RegistryNames(rows: seq<CategoryRow>, user: int): (names: seq<string>)
    ensures |names| <= |rows|
    ensures forall c :: c in names <==> CategoryRow(user, c) in rows
  {
    if rows == [] then []
    else (if rows[0].userId == user then [rows[0].category] else []) + RegistryNames(rows[1..], user)
  }

  /** `SELECT DISTINCT category FROM expenses WHERE user_id = $1`. */
  function UsedCategories(es: seq<Expense>, user: int): (used: set<string>)
    ensures forall c :: c in used <==> exists i :: 0 <= i < |es| && es[i].userId == user && es[i].category == c
  {
    set i | 0 <= i < |es| && es[i].userId == user :: es[i].category
  }

  /** The rows of one user, in table order. */
  function RowsOf(es: seq<Expense>, user: int): (r: seq<Expense>)
    ensures |r| <= |es|
    ensures forall e :: e in r <==> e in es && e.userId == user
  {
    if es == [] then []
    else (if es[0].userId == user then [es[0]] else []) + RowsOf(es[1..], user)
  }

  /** `DELETE FROM user_categories WHERE user_id = $1 AND category = $2`. */
  function DeleteRegistryRows(rows: seq<CategoryRow>, user: int, cat: string): (r: seq<CategoryRow>)
    ensures |r| <= |rows|
    ensures forall x :: x in r <==> x in rows && x != CategoryRow(user, cat)
  {
    if rows == [] then []
    else (if rows[0] == CategoryRow(user, cat) then [] else [rows[0]]) + DeleteRegistryRows(rows[1..], user, cat)
  }

  /**
   * `UPDATE user_categories SET category = $1 WHERE user_id = $2 AND category = $3`;
   * a missing `$3` (SQL NULL) matches no row.
   */
  function RenameRegistryRows(rows: seq<CategoryRow>, user: int, from: Option<string>, to: string): (r: seq<CategoryRow>)
    ensures |r| == |rows|
    ensures forall i :: 0 <= i < |rows| ==>
      r[i] == if from == Some(rows[i].category) && rows[i].userId == user then CategoryRow(user, to) else rows[i]
  {
    if rows == [] then []
    else
      [if from == Some(rows[0].category) && rows[0].userId == user then CategoryRow(user, to) else rows[0]]
      + RenameRegistryRows(rows[1..], user, from, to)
  }

  /** Whether `UPDATE expenses ... WHERE user_id = $2 AND category = $3` touches `e`. */
  predicate Labelled(e: Expense, user: int, from: Option<string>)
  {
    e.userId == user && from == Some(e.category)
  }

  /** `UPDATE expenses SET category = $1 WHERE user_id = $2 AND category = $3`. */
  function RelabelExpenses(es: seq<Expense>, user: int, from: Option<string>, to: string): (r: seq<Expense>)
    ensures |r| == |es|
    ensures forall i :: 0 <= i < |es| ==>
      r[i] == if Labelled(es[i], user, from) then es[i].(category := to) else es[i]
  {
    if es == [] then []
    else
      [if Labelled(es[0], user, from) then es[0].(category := to) else es[0]]
      + RelabelExpenses(es[1..], user, from, to)
  }

  /** `DELETE FROM expenses WHERE id = ANY($1) AND user_id = $2`. */
  function DeleteExpenseRows(es: seq<Expense>, user: int, ids: set<int>): (r: seq<Expense>)
    ensures |r| <= |es|
    ensures forall e :: e in r <==> e in es && !(e.userId == user && e.id in ids)
  {
    if es == [] then []
    else (if es[0].userId == user && es[0].id in ids then [] else [es[0]]) + DeleteExpenseRows(es[1..], user, ids)
  }

  /** `SELECT ... FROM expenses WHERE id = ANY($1) AND user_id = $2`: how many rows it returns. */
  function CountOwned(es: seq<Expense>, user: int, ids: set<int>): (n: nat)
    ensures n <= |es|
  {
    if es == [] then 0
    else (if es[0].userId == user && es[0].id in ids then 1 else 0) + CountOwned(es[1..], user, ids)
  }

  function TotalAmount(es: seq<Expense>): int
  {
    if es == [] then 0 else es[0].amount + TotalAmount(es[1..])
  }

  // ---------------------------------------------------------------------
  // What the statements promise
  // ---------------------------------------------------------------------

  /** After relabelling, none of the user's rows keeps the old label (unless it is also the new one). */
  lemma RelabelClearsLabel(es: seq<Expense>, user: int, from: string, to: string)
    requires from != to
    ensures forall e :: e in RelabelExpenses(es, user, Some(from), to) ==> !(e.userId == user && e.category == from)
  {
    var r := RelabelExpenses(es, user, Some(from), to);
    forall e | e in r
      ensures !(e.userId == user && e.category == from)
    {
      var i :| 0 <= i < |r| && r[i] == e;
      assert r[i] == if Labelled(es[i], user, Some(from)) then es[i].(category := to) else es[i];
    }
  }

  /** Relabelling leaves every other user's rows, in order, exactly as they were. */
  lemma {:induction false} RelabelOthersUntouched(es: seq<Expense>, user: int, from: Option<string>, to: string, other: int)
    requires other != user
    ensures RowsOf(RelabelExpenses(es, user, from, to), other) == RowsOf(es, other)
  {
    if es != [] {
      RelabelOthersUntouched(es[1..], user, from, to, other);
      assert RelabelExpenses(es, user, from, to)[1..] == RelabelExpenses(es[1..], user, from, to);
    }
  }

  /** Relabelling keeps the number of the user's rows and the sum of all amounts. */
  lemma {:induction false} RelabelKeepsCountAndTotal(es: seq<Expense>, user: int, from: Option<string>, to: string)
    ensures |RowsOf(RelabelExpenses(es, user, from, to), user)| == |RowsOf(es, user)|
    ensures TotalAmount(RelabelExpenses(es, user, from, to)) == TotalAmount(es)
  {
    if es != [] {
      var r := RelabelExpenses(es, user, from, to);
      var t := RelabelExpenses(es[1..], user, from, to);
      RelabelKeepsCountAndTotal(es[1..], user, from, to);
      assert r == [r[0]] + t;
      assert es == [es[0]] + es[1..];
      ConsCountAndTotal(r[0], t, user);
      ConsCountAndTotal(es[0], es[1..], user);
    }
  }

  lemma ConsCountAndTotal(h: Expense, t: seq<Expense>, user: int)
    ensures |RowsOf([h] + t, user)| == (if h.userId == user then 1 else 0) + |RowsOf(t, user)|
    ensures TotalAmount([h] + t) == h.amount + TotalAmount(t)
  {
    assert ([h] + t)[1..] == t;
  }

  /** Relabelling changes no key, so keys stay unique. */
  lemma RelabelKeepsIds(es: seq<Expense>, user: int, from: Option<string>, to: string)
    requires UniqueIds(es)
    ensures UniqueIds(RelabelExpenses(es, user, from, to))
  {
    var r := RelabelExpenses(es, user, from, to);
    forall i, j | 0 <= i < j < |r|
      ensures r[i].id != r[j].id
    {
      assert r[i].id == es[i].id && r[j].id == es[j].id;
    }
  }

  lemma {:induction false} DeleteKeepsIds(es: seq<Expense>, user: int, ids: set<int>)
    requires UniqueIds(es)
    ensures UniqueIds(DeleteExpenseRows(es, user, ids))
  {
    if es != [] {
      var e, rest := es[0], es[1..];
      assert es == [e] + rest;
      UniqueTail(e, rest);
      DeleteKeepsIds(rest, user, ids);
      if !(e.userId == user && e.id in ids) {
        ConsUnique(e, DeleteExpenseRows(rest, user, ids));
      }
    }
  }

  lemma UniqueTail(e: Expense, rest: seq<Expense>)
    requires UniqueIds([e] + rest)
    ensures UniqueIds(rest) && forall r :: r in rest ==> r.id != e.id
  {
    var es := [e] + rest;
    forall i, j | 0 <= i < j < |rest|
      ensures rest[i].id != rest[j].id
    {
      assert rest[i] == es[i + 1] && rest[j] == es[j + 1];
    }
    forall r | r in rest
      ensures r.id != e.id
    {
      var j :| 0 <= j < |rest| && rest[j] == r;
      assert es[j + 1] == r && es[0] == e;
    }
  }

  lemma ConsUnique(e: Expense, rest: seq<Expense>)
    requires UniqueIds(rest) && forall r :: r in rest ==> r.id != e.id
    ensures UniqueIds([e] + rest)
  {
    var es := [e] + rest;
    forall i, j | 0 <= i < j < |es|
      ensures es[i].id != es[j].id
    {
      assert es[j] == rest[j - 1];
      if i > 0 {
        assert es[i] == rest[i - 1];
      }
    }
  }

  /** The number of rows the DELETE removes is the number of rows the ownership SELECT finds. */
  lemma {:induction false} DeleteCount(es: seq<Expense>, user: int, ids: set<int>)
    ensures |es| - |DeleteExpenseRows(es, user, ids)| == CountOwned(es, user, ids)
  {
    if es != [] {
      DeleteCount(es[1..], user, ids);
    }
  }

  // ---------------------------------------------------------------------
  // The database
  // ---------------------------------------------------------------------

  class Database {
    var expenses: seq<Expense>
    var registry: seq<CategoryRow>
    /** The next value of the `id` sequence. */
    var nextId: int

    ghost predicate Valid()
      reads this
    {
      nextId >= 1 && UniqueIds(expenses) && forall i :: 0 <= i < |expenses| ==> 1 <= expenses[i].id < nextId
    }

    constructor ()
      ensures Valid() && expenses == [] && registry == [] && nextId == 1
    {
      expenses := [];
      registry := [];
      nextId := 1;
    }

    /**
     * `INSERT INTO expenses (user_id, category, amount, date[, time]) VALUES (...)`.
     * PostgreSQL refuses a category wider than the column and an amount
     * outside `DECIMAL(10, 2)`; the row then is not added.
     */
    method InsertExpense(user: int, category: string, amount: int, date: Date, time: Option<Time>) returns (ok: bool)
      requires Valid()
      modifies this
      ensures Valid()
      ensures ok <==> Storable(category, amount)
      ensures ok ==> expenses == old(expenses) + [Expense(old(nextId), user, category, amount, date, time)] && nextId == old(nextId) + 1
      ensures !ok ==> expenses == old(expenses) && nextId == old(nextId)
      ensures registry == old(registry)
    {
      ok := Storable(category, amount);
      if ok {
        expenses := expenses + [Expense(nextId, user, category, amount, date, time)];
        nextId := nextId + 1;
      }
    }

    /** `INSERT INTO user_categories (user_id, category) VALUES ($1, $2)`. */
    method InsertCategory(user: int, cat: string)
      requires Valid()
      modifies this
      ensures Valid()
      ensures registry == old(registry) + [CategoryRow(user, cat)]
      ensures expenses == old(expenses) && nextId == old(nextId)
    {
      registry := registry + [CategoryRow(user, cat)];
    }

    /** `DELETE FROM user_categories WHERE user_id = $1 AND category = $2`. */
    method DeleteCategory(user: int, cat: string)
      requires Valid()
      modifies this
      ensures Valid()
      ensures registry == DeleteRegistryRows(old(registry), user, cat)
      ensures expenses == old(expenses) && nextId == old(nextId)
    {
      registry := DeleteRegistryRows(registry, user, cat);
    }

    /** `UPDATE user_categories SET category = $1 WHERE user_id = $2 AND category = $3`. */
    method RenameCategory(user: int, from: Option<string>, to: string)
      requires Valid()
      modifies this
      ensures Valid()
      ensures registry == RenameRegistryRows(old(registry), user, from, to)
      ensures expenses == old(expenses) && nextId == old(nextId)
    {
      registry := RenameRegistryRows(registry, user, from, to);
    }

    /**
     * `UPDATE expenses SET category = $1 WHERE user_id = $2 AND category = $3`.
     * When a row would take a label wider than the column, PostgreSQL
     * refuses the whole statement and nothing changes.
     */
    method RelabelCategory(user: int, from: Option<string>, to: string) returns (ok: bool)
      requires Valid()
      modifies this
      ensures Valid()
      ensures ok <==> |to| <= CategoryWidth || forall e :: e in old(expenses) ==> !Labelled(e, user, from)
      ensures expenses == if ok then RelabelExpenses(old(expenses), user, from, to) else old(expenses)
      ensures registry == old(registry) && nextId == old(nextId)
    {
      ok := |to| <= CategoryWidth || forall e :: e in expenses ==> !Labelled(e, user, from);
      if ok {
        RelabelKeepsIds(expenses, user, from, to);
        expenses := RelabelExpenses(expenses, user, from, to);
      }
    }

    /** `DELETE FROM expenses WHERE id = ANY($1) AND user_id = $2`; `count` is the number in the "DELETE n" status. */
    method DeleteExpenses(user: int, ids: set<int>) returns (count: nat)
      requires Valid()
      modifies this
      ensures Valid()
      ensures expenses == DeleteExpenseRows(old(expenses), user, ids)
      ensures count == CountOwned(old(expenses), user, ids)
      ensures registry == old(registry) && nextId == old(nextId)
    {
      DeleteCount(expenses, user, ids);
      DeleteKeepsIds(expenses, user, ids);
      count := |expenses| - |DeleteExpenseRows(expenses, user, ids)|;
      expenses := DeleteExpenseRows(expenses, user, ids);
    }
  }
}
