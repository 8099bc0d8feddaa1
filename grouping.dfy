/**
 * `GROUP BY category` with `COUNT(*)` and `SUM(amount)`, then `ORDER BY
 * total DESC`, as the statistics queries run them over a set of rows.
 */
module Grouping {
  import opened Store

  /** A row of `GROUP BY category`: `COUNT(*)` and `SUM(amount)`. */
  datatype CategoryStat = CategoryStat(category: string, count: nat, total: int)

  /** `SUM(amount)` over the rows of one category, counted from the end. */
  function SumIn(rows: seq<Expense>, cat: string): int
  {
    if rows == [] then 0
    else SumIn(rows[..|rows| - 1], cat) + (if rows[|rows| - 1].category == cat then rows[|rows| - 1].amount else 0)
  }

  /** `COUNT(*)` over the rows of one category. */
  function CountIn(rows: seq<Expense>, cat: string): nat
  {
    if rows == [] then 0
    else CountIn(rows[..|rows| - 1], cat) + (if rows[|rows| - 1].category == cat then 1 else 0)
  }

  /** The sum of the group totals, front to back. */
  function StatsTotal(g: seq<CategoryStat>): int
  {
    if g == [] then 0 else g[0].total + StatsTotal(g[1..])
  }

  /** Where the group of `cat` sits, or -1. */
  function GroupIndex(g: seq<CategoryStat>, cat: string): (i: int)
    ensures -1 <= i < |g|
    ensures i >= 0 ==> g[i].category == cat
    ensures i < 0 ==> forall j :: 0 <= j < |g| ==> g[j].category != cat
  {
    if g == [] then -1
    else if g[|g| - 1].category == cat then |g| - 1
    else GroupIndex(g[..|g| - 1], cat)
  }

  /** One more row folded into the groups. */
  function AddRow(g: seq<CategoryStat>, e: Expense): (r: seq<CategoryStat>)
  {
    if GroupIndex(g, e.category) < 0 then g + [CategoryStat(e.category, 1, e.amount)]
    else Bump(g, GroupIndex(g, e.category), e)
  }

  /** The group at `i` counts one more row of amount `e.amount`. */
  function Bump(g: seq<CategoryStat>, i: int, e: Expense): (r: seq<CategoryStat>)
    requires 0 <= i < |g|
  {
    g[i := CategoryStat(g[i].category, g[i].count + 1, g[i].total + e.amount)]
  }

  /** `GROUP BY category` over `rows`, groups in order of first appearance. */
  function Grouped(rows: seq<Expense>): seq<CategoryStat>
  {
    if rows == [] then [] else AddRow(Grouped(rows[..|rows| - 1]), rows[|rows| - 1])
  }

  /** No two groups share a category. */
  predicate DistinctGroups(g: seq<CategoryStat>)
  {
    forall i, j :: 0 <= i < j < |g| ==> g[i].category != g[j].category
  }

  /** Each group holds its category's count (at least one row) and sum. */
  predicate CountedGroups(g: seq<CategoryStat>, rows: seq<Expense>)
  {
    forall i :: 0 <= i < |g| ==>
      && g[i].count == CountIn(rows, g[i].category) && g[i].count >= 1
      && g[i].total == SumIn(rows, g[i].category)
  }

  /** Every row's category has a group. */
  predicate CoveringGroups(g: seq<CategoryStat>, rows: seq<Expense>)
  {
    forall e :: e in rows ==> exists i :: 0 <= i < |g| && g[i].category == e.category
  }

  /** What `g` must be to be the grouping of `rows`. */
  predicate GroupsOf(g: seq<CategoryStat>, rows: seq<Expense>)
  {
    DistinctGroups(g) && CountedGroups(g, rows) && CoveringGroups(g, rows) && StatsTotal(g) == TotalAmount(rows)
  }

  lemma {:induction false} StatsTotalSnoc(g: seq<CategoryStat>, x: CategoryStat)
    ensures StatsTotal(g + [x]) == StatsTotal(g) + x.total
  {
    if g != [] {
      assert (g + [x])[1..] == g[1..] + [x];
      StatsTotalSnoc(g[1..], x);
    }
  }

  lemma {:induction false} StatsTotalUpdate(g: seq<CategoryStat>, i: int, x: CategoryStat)
    requires 0 <= i < |g|
    ensures StatsTotal(g[i := x]) == StatsTotal(g) - g[i].total + x.total
  {
    if i > 0 {
      assert g[i := x][1..] == g[1..][i - 1 := x];
      StatsTotalUpdate(g[1..], i - 1, x);
    }
  }

  lemma {:induction false} TotalAmountSnoc(rows: seq<Expense>, e: Expense)
    ensures TotalAmount(rows + [e]) == TotalAmount(rows) + e.amount
  {
    if rows != [] {
      assert (rows + [e])[1..] == rows[1..] + [e];
      TotalAmountSnoc(rows[1..], e);
    }
  }

  /** Folding a row into the groups of `rows` gives the groups of `rows + [e]`. */
  lemma AddRowGroups(g: seq<CategoryStat>, rows: seq<Expense>, e: Expense)
    requires GroupsOf(g, rows)
    ensures GroupsOf(AddRow(g, e), rows + [e])
  {
    TotalAmountSnoc(rows, e);
    AddRowDistinct(g, e);
    AddRowCounted(g, rows, e);
    AddRowCovering(g, rows, e);
    AddRowTotal(g, e);
  }

  lemma BumpShape(g: seq<CategoryStat>, i: int, e: Expense)
    requires 0 <= i < |g|
    ensures |Bump(g, i, e)| == |g|
    ensures Bump(g, i, e)[i] == CategoryStat(g[i].category, g[i].count + 1, g[i].total + e.amount)
    ensures forall k :: 0 <= k < |g| && k != i ==> Bump(g, i, e)[k] == g[k]
  {
  }

  lemma AddRowDistinct(g: seq<CategoryStat>, e: Expense)
    requires DistinctGroups(g)
    ensures DistinctGroups(AddRow(g, e))
  {
    var i := GroupIndex(g, e.category);
    if i >= 0 {
      BumpShape(g, i, e);
      var g' := Bump(g, i, e);
      assert forall k :: 0 <= k < |g'| ==> g'[k].category == g[k].category;
    }
  }

  lemma AddRowTotal(g: seq<CategoryStat>, e: Expense)
    ensures StatsTotal(AddRow(g, e)) == StatsTotal(g) + e.amount
  {
    var i := GroupIndex(g, e.category);
    if i < 0 {
      StatsTotalSnoc(g, CategoryStat(e.category, 1, e.amount));
    } else {
      StatsTotalUpdate(g, i, CategoryStat(g[i].category, g[i].count + 1, g[i].total + e.amount));
    }
  }

  lemma AddRowCovering(g: seq<CategoryStat>, rows: seq<Expense>, e: Expense)
    requires CoveringGroups(g, rows)
    ensures CoveringGroups(AddRow(g, e), rows + [e])
  {
    var i := GroupIndex(g, e.category);
    var g' := AddRow(g, e);
    if i >= 0 {
      BumpShape(g, i, e);
    }
    assert forall k :: 0 <= k < |g| ==> g'[k].category == g[k].category;
    forall y | y in rows + [e]
      ensures exists j :: 0 <= j < |g'| && g'[j].category == y.category
    {
      if y == e {
        if i < 0 {
          assert g'[|g|].category == e.category;
        } else {
          assert g'[i].category == e.category;
        }
      } else {
        assert y in rows;
        var j :| 0 <= j < |g| && g[j].category == y.category;
        assert g'[j].category == y.category;
      }
    }
  }

  lemma AddRowCounted(g: seq<CategoryStat>, rows: seq<Expense>, e: Expense)
    requires DistinctGroups(g) && CountedGroups(g, rows) && CoveringGroups(g, rows)
    ensures CountedGroups(AddRow(g, e), rows + [e])
  {
    var i := GroupIndex(g, e.category);
    var g' := AddRow(g, e);
    if i < 0 {
      forall k | 0 <= k < |rows|
        ensures rows[k].category != e.category
      {
        assert rows[k] in rows;
      }
      NoRowsOfCategory(rows, e.category);
      forall k | 0 <= k < |g'|
        ensures g'[k].count == CountIn(rows + [e], g'[k].category) && g'[k].count >= 1
        ensures g'[k].total == SumIn(rows + [e], g'[k].category)
      {
        CountsSnoc(rows, e, g'[k].category);
      }
    } else {
      BumpShape(g, i, e);
      forall k | 0 <= k < |g'|
        ensures g'[k].count == CountIn(rows + [e], g'[k].category) && g'[k].count >= 1
        ensures g'[k].total == SumIn(rows + [e], g'[k].category)
      {
        CountsSnoc(rows, e, g'[k].category);
        if k != i {
          assert g'[k] == g[k];
          assert g[k].category != g[i].category;
        }
      }
    }
  }

  lemma CountsSnoc(rows: seq<Expense>, e: Expense, cat: string)
    ensures CountIn(rows + [e], cat) == CountIn(rows, cat) + (if e.category == cat then 1 else 0)
    ensures SumIn(rows + [e], cat) == SumIn(rows, cat) + (if e.category == cat then e.amount else 0)
  {
    assert (rows + [e])[..|rows|] == rows;
  }

  /** A category no row carries counts 0 rows and sums to 0. */
  lemma {:induction false} NoRowsOfCategory(rows: seq<Expense>, cat: string)
    requires forall k :: 0 <= k < |rows| ==> rows[k].category != cat
    ensures CountIn(rows, cat) == 0 && SumIn(rows, cat) == 0
  {
    if rows != [] {
      NoRowsOfCategory(rows[..|rows| - 1], cat);
    }
  }

  /** `GROUP BY category`: one group per category present, with its count and sum; the sums add up to the total. */
  lemma {:induction false} GroupedMeaning(rows: seq<Expense>)
    ensures GroupsOf(Grouped(rows), rows)
  {
    if rows != [] {
      var init, last := rows[..|rows| - 1], rows[|rows| - 1];
      assert rows == init + [last];
      GroupedMeaning(init);
      AddRowGroups(Grouped(init), init, last);
      assert Grouped(rows) == AddRow(Grouped(init), last);
    }
  }

  /** `ORDER BY total DESC`. */
  predicate Descending(g: seq<CategoryStat>)
  {
    forall i, j :: 0 <= i < j < |g| ==> g[i].total >= g[j].total
  }

  function InsertByTotal(x: CategoryStat, s: seq<CategoryStat>): (r: seq<CategoryStat>)
    ensures multiset(r) == multiset(s) + multiset{x}
  {
    if s == [] then [x]
    else if x.total >= s[0].total then [x] + s
    else
      assert s == [s[0]] + s[1..];
      [s[0]] + InsertByTotal(x, s[1..])
  }

  lemma InsertMembers(x: CategoryStat, s: seq<CategoryStat>)
    ensures forall y :: y in InsertByTotal(x, s) <==> y == x || y in s
  {
    var r := InsertByTotal(x, s);
    assert forall y :: y in r <==> y in multiset(r);
    assert forall y :: y in s <==> y in multiset(s);
  }

  /** Inserting keeps the groups in descending order. */
  lemma {:induction false} InsertKeepsOrder(x: CategoryStat, s: seq<CategoryStat>)
    requires Descending(s)
    ensures Descending(InsertByTotal(x, s))
  {
    if s != [] && x.total < s[0].total {
      var rest := InsertByTotal(x, s[1..]);
      InsertKeepsOrder(x, s[1..]);
      InsertMembers(x, s[1..]);
      ConsDescending(s[0], rest);
      assert InsertByTotal(x, s) == [s[0]] + rest;
    } else if s != [] {
      ConsDescending(x, s);
    }
  }

  /** A head no smaller than any element of a descending tail keeps it descending. */
  lemma ConsDescending(h: CategoryStat, t: seq<CategoryStat>)
    requires Descending(t)
    requires forall y :: y in t ==> y.total <= h.total
    ensures Descending([h] + t)
  {
    var r := [h] + t;
    forall i, j | 0 <= i < j < |r|
      ensures r[i].total >= r[j].total
    {
      assert r[j] == t[j - 1] && t[j - 1] in t;
      if i > 0 {
        assert r[i] == t[i - 1];
      }
    }
  }

  /** Inserting adds the group's sum to the sum of sums. */
  lemma {:induction false} InsertTotal(x: CategoryStat, s: seq<CategoryStat>)
    ensures StatsTotal(InsertByTotal(x, s)) == StatsTotal(s) + x.total
  {
    if s != [] && x.total < s[0].total {
      InsertTotal(x, s[1..]);
      assert InsertByTotal(x, s)[1..] == InsertByTotal(x, s[1..]);
    }
  }

  /** The groups in descending order of their sums (ties in no particular order). */
  function SortByTotal(g: seq<CategoryStat>): (r: seq<CategoryStat>)
    ensures Descending(r)
    ensures multiset(r) == multiset(g)
    ensures StatsTotal(r) == StatsTotal(g)
  {
    if g == [] then []
    else
      assert g == [g[0]] + g[1..];
      InsertKeepsOrder(g[0], SortByTotal(g[1..]));
      InsertTotal(g[0], SortByTotal(g[1..]));
      InsertByTotal(g[0], SortByTotal(g[1..]))
  }

  /** The grouping the statistics queries return: groups sorted by descending sum. */
  function GroupBy(rows: seq<Expense>): seq<CategoryStat>
  {
    SortByTotal(Grouped(rows))
  }

  /**
   * What the per-category listing shows: each category of a selected row
   * once, with its count and sum, in descending order of sum; the sums add
   * up to the `COALESCE(SUM(amount), 0)` total, and with no rows there is
   * no line and the total is 0.
   */
  lemma GroupByMeaning(rows: seq<Expense>)
    ensures var b := GroupBy(rows);
      && Descending(b)
      && StatsTotal(b) == TotalAmount(rows)
      && (forall x :: x in b ==> x.count == CountIn(rows, x.category) && x.count >= 1 && x.total == SumIn(rows, x.category))
      && (forall e :: e in rows ==> exists x :: x in b && x.category == e.category)
      && (rows == [] <==> b == [])
  {
    GroupedMeaning(rows);
    PermutedGroups(GroupBy(rows), Grouped(rows), rows);
  }

  /** Any reordering of the grouping of `rows` lists the same groups. */
  lemma PermutedGroups(b: seq<CategoryStat>, g: seq<CategoryStat>, rows: seq<Expense>)
    requires multiset(b) == multiset(g) && GroupsOf(g, rows)
    ensures forall x :: x in b ==> x.count == CountIn(rows, x.category) && x.count >= 1 && x.total == SumIn(rows, x.category)
    ensures forall e :: e in rows ==> exists x :: x in b && x.category == e.category
    ensures rows == [] <==> b == []
  {
    assert forall x :: x in b <==> x in g by {
      assert forall x :: x in b <==> x in multiset(b);
      assert forall x :: x in g <==> x in multiset(g);
    }
    forall e | e in rows
      ensures exists x :: x in b && x.category == e.category
    {
      var j :| 0 <= j < |g| && g[j].category == e.category;
      assert g[j] in b;
    }
    assert |b| == |g| by {
      assert |multiset(b)| == |multiset(g)|;
    }
  }

  /** No category is listed twice. */
  lemma GroupByDistinct(rows: seq<Expense>)
    ensures var b := GroupBy(rows);
      forall i, j :: 0 <= i < j < |b| ==> b[i].category != b[j].category
  {
    GroupedMeaning(rows);
    PermutedDistinct(GroupBy(rows), Grouped(rows));
  }

  /** A reordering of groups with distinct categories still has distinct categories. */
  lemma PermutedDistinct(b: seq<CategoryStat>, g: seq<CategoryStat>)
    requires multiset(b) == multiset(g) && DistinctGroups(g)
    ensures DistinctGroups(b)
  {
    forall i, j | 0 <= i < j < |b|
      ensures b[i].category != b[j].category
    {
      if b[i].category == b[j].category {
        assert b[i] in multiset(g) && b[j] in multiset(g);
        var p :| 0 <= p < |g| && g[p] == b[i];
        var q :| 0 <= q < |g| && g[q] == b[j];
        assert p == q;
        assert b[i] == b[j];
        MultisetTwice(b, i, j);
        DistinctMultiplicity(g, p);
        assert false;
      }
    }
  }

  /** An element at two places of a sequence occurs at least twice in it. */
  lemma MultisetTwice<T>(s: seq<T>, i: int, j: int)
    requires 0 <= i < j < |s| && s[i] == s[j]
    ensures multiset(s)[s[i]] >= 2
  {
    assert s == s[..i] + [s[i]] + s[i + 1..j] + [s[j]] + s[j + 1..];
  }

  /** In a grouping each group occurs once. */
  lemma DistinctMultiplicity(g: seq<CategoryStat>, p: int)
    requires 0 <= p < |g|
    requires forall i, j :: 0 <= i < j < |g| ==> g[i].category != g[j].category
    ensures multiset(g)[g[p]] == 1
  {
    assert g == g[..p] + [g[p]] + g[p + 1..];
    NotIn(g[..p], g[p]);
    NotIn(g[p + 1..], g[p]);
  }

  lemma NotIn(s: seq<CategoryStat>, x: CategoryStat)
    requires forall k :: 0 <= k < |s| ==> s[k].category != x.category
    ensures multiset(s)[x] == 0
  {
  }
}
