/**
 * The expense history views: the recency order every listing uses, pages
 * of five rows with back and forward buttons, the period bounds, the
 * search filter and the callback payloads that carry a page number.
 */
module ExpenseHistory {
  import opened Wrappers
  import opened Text
  import opened Numbers
  import opened Calendar
  import opened Store
  import opened Fsm

  // ---------------------------------------------------------------------
  // Pages
  // ---------------------------------------------------------------------

  /** `EXPENSES_PER_PAGE`. */
  const PerPage := 5

  /**
   * `max((n - 1) // EXPENSES_PER_PAGE + 1, 1)`. Python's `//` rounds down,
   * as Dafny's `/` does for a positive divisor: the number of pages of five
   * needed for `n` rows, and one page when there are none.
   */
  function TotalPages(n: nat): (p: int)
    ensures p >= 1
    ensures n == 0 ==> p == 1
    ensures n >= 1 ==> (p - 1) * PerPage < n <= p * PerPage
  {
    var q := (n - 1) / PerPage + 1;
    if q > 1 then q else 1
  }

  /** `(page - 1) * EXPENSES_PER_PAGE`. */
  function PageOffset(page: int): int
  {
    (page - 1) * PerPage
  }

  /**
   * `LIMIT 5 OFFSET (page - 1) * 5` on an ordered result. PostgreSQL
   * refuses a negative offset, which a page below 1 gives.
   */
  function PageSlice<T>(rows: seq<T>, page: int): (r: Option<seq<T>>)
    ensures r.None? <==> page < 1
    ensures r.Some? ==> |r.value| <= PerPage
    ensures r.Some? ==> |r.value| == (if |rows| <= PageOffset(page) then 0 else Min(PerPage, |rows| - PageOffset(page)))
    ensures r.Some? ==> forall k :: 0 <= k < |r.value| ==> r.value[k] == rows[PageOffset(page) + k]
  {
    var off := PageOffset(page);
    if off < 0 then None
    else if |rows| <= off then Some([])
    else Some(rows[off..Min(off + PerPage, |rows|)])
  }

  function Min(a: int, b: int): int { if a <= b then a else b }

  /** Row `i` of a listing is shown on page `i // 5 + 1`, at place `i % 5`, and that page exists. */
  lemma PageOfRow<T>(rows: seq<T>, i: int)
    requires 0 <= i < |rows|
    ensures var p := i / PerPage + 1;
      && 1 <= p <= TotalPages(|rows|)
      && PageSlice(rows, p).Some?
      && i % PerPage < |PageSlice(rows, p).value|
      && PageSlice(rows, p).value[i % PerPage] == rows[i]
  {
    var p := i / PerPage + 1;
    assert PageOffset(p) + i % PerPage == i;
  }

  /**
   * The forward button appears exactly when the next page holds a row,
   * and the back button exactly when the previous page is a page.
   */
  lemma NavigationButtons<T>(rows: seq<T>, page: int)
    requires page >= 1
    ensures page < TotalPages(|rows|) <==> PageSlice(rows, page + 1).value != []
    ensures page > 1 <==> PageSlice(rows, page - 1).Some?
  {
    var n := |rows|;
    var off := PageOffset(page + 1);
    assert off == page * PerPage;
    if n >= 1 {
      var t := TotalPages(n);
      assert page < t <==> page * PerPage < n by {
        if page < t {
          assert page * PerPage <= (t - 1) * PerPage;
        }
        if page * PerPage < n {
          assert page * PerPage < t * PerPage;
        }
      }
    }
  }

  /** Twelve rows make three pages, of five, five and two rows. */
  lemma TwelveRowsExample<T>(rows: seq<T>)
    requires |rows| == 12
    ensures TotalPages(12) == 3
    ensures |PageSlice(rows, 1).value| == 5 && |PageSlice(rows, 2).value| == 5 && |PageSlice(rows, 3).value| == 2
    ensures PageSlice(rows, 4).value == []
  {
  }

  // ---------------------------------------------------------------------
  // Recency order
  // ---------------------------------------------------------------------

  /** Python's `a < b` on times. */
  predicate TimeBefore(a: Time, b: Time)
  {
    a.hour < b.hour || (a.hour == b.hour && a.minute < b.minute)
  }

  /**
   * `ORDER BY date DESC, (time IS NULL), time DESC, created_at DESC`: `a`
   * is listed before `b`. `false` sorts before `true`, so rows with a time
   * come before rows without one on the same date; `created_at` grows with
   * the key.
   */
  predicate RowBefore(a: Expense, b: Expense)
    ensures a.date != b.date ==> (RowBefore(a, b) <==> DateBefore(b.date, a.date))
    ensures a.date == b.date && a.time.Some? && b.time.None? ==> RowBefore(a, b)
    ensures a.date == b.date && a.time.None? && b.time.Some? ==> !RowBefore(a, b)
    ensures a.date == b.date && a.time.Some? && b.time.Some? && a.time != b.time ==>
      (RowBefore(a, b) <==> TimeBefore(b.time.value, a.time.value))
    ensures a.date == b.date && a.time == b.time ==> (RowBefore(a, b) <==> a.id > b.id)
  {
    DateBefore(b.date, a.date)
    || (a.date == b.date
        && ((a.time.Some? && b.time.None?)
            || (a.time.Some? && b.time.Some? && TimeBefore(b.time.value, a.time.value))
            || (a.time == b.time && a.id > b.id)))
  }

  /** The order never puts a row before itself and never both ways round. */
  lemma RowBeforeAsymmetric(a: Expense, b: Expense)
    ensures !(RowBefore(a, b) && RowBefore(b, a))
  {
  }

  /** Two rows with different keys are always ordered one way or the other. */
  lemma RowBeforeTotal(a: Expense, b: Expense)
    requires a.id != b.id
    ensures RowBefore(a, b) || RowBefore(b, a)
  {
  }

  /** "Not listed before" is transitive. */
  lemma NotBeforeTransitive(a: Expense, b: Expense, c: Expense)
    requires !RowBefore(b, a) && !RowBefore(c, b)
    ensures !RowBefore(c, a)
  {
  }

  /** A listing in recency order: no row is listed before an earlier one. */
  predicate InRecentOrder(rows: seq<Expense>)
  {
    forall i, j :: 0 <= i < j < |rows| ==> !RowBefore(rows[j], rows[i])
  }

  /** Inserts a row into a listing already in recency order. */
  function InsertRecent(x: Expense, rows: seq<Expense>): (r: seq<Expense>)
    requires InRecentOrder(rows)
    ensures InRecentOrder(r)
    ensures multiset(r) == multiset(rows) + multiset{x}
  {
    if rows == [] then [x]
    else if RowBefore(rows[0], x) then
      var tail := InsertRecent(x, rows[1..]);
      InsertAfterHead(rows[0], rows[1..], tail, x);
      assert rows == [rows[0]] + rows[1..];
      [rows[0]] + tail
    else
      InsertAtHead(x, rows);
      [x] + rows
  }

  /** A head that comes before the inserted row stays in front of the tail it was inserted into. */
  lemma InsertAfterHead(h: Expense, rest: seq<Expense>, tail: seq<Expense>, x: Expense)
    requires InRecentOrder([h] + rest) && InRecentOrder(tail)
    requires multiset(tail) == multiset(rest) + multiset{x}
    requires RowBefore(h, x)
    ensures InRecentOrder([h] + tail)
    ensures multiset([h] + tail) == multiset([h] + rest) + multiset{x}
  {
    forall k | 0 <= k < |tail|
      ensures !RowBefore(tail[k], h)
    {
      assert tail[k] in multiset(rest) + multiset{x};
      if tail[k] != x {
        assert tail[k] in rest;
        var i :| 0 <= i < |rest| && rest[i] == tail[k];
        var r := [h] + rest;
        assert r[0] == h && r[i + 1] == rest[i];
        assert !RowBefore(r[i + 1], r[0]);
      } else {
        RowBeforeAsymmetric(h, x);
      }
    }
    PrependOrdered(h, tail);
  }

  lemma PrependOrdered(h: Expense, tail: seq<Expense>)
    requires InRecentOrder(tail)
    requires forall k :: 0 <= k < |tail| ==> !RowBefore(tail[k], h)
    ensures InRecentOrder([h] + tail)
  {
    var r := [h] + tail;
    forall i, j | 0 <= i < j < |r|
      ensures !RowBefore(r[j], r[i])
    {
      assert r[j] == tail[j - 1];
      if i > 0 {
        assert r[i] == tail[i - 1];
      }
    }
  }

  /** A row no listed row comes before goes in front. */
  lemma InsertAtHead(x: Expense, rows: seq<Expense>)
    requires rows != [] && InRecentOrder(rows)
    requires !RowBefore(rows[0], x)
    ensures InRecentOrder([x] + rows)
  {
    forall k | 0 <= k < |rows|
      ensures !RowBefore(rows[k], x)
    {
      if k > 0 {
        NotBeforeTransitive(x, rows[0], rows[k]);
      }
    }
    PrependOrdered(x, rows);
  }

  /** The rows as the `ORDER BY` clause lists them. */
  function SortRecent(rows: seq<Expense>): (r: seq<Expense>)
    ensures InRecentOrder(r)
    ensures multiset(r) == multiset(rows)
  {
    if rows == [] then []
    else
      assert rows == [rows[0]] + rows[1..];
      InsertRecent(rows[0], SortRecent(rows[1..]))
  }

  // ---------------------------------------------------------------------
  // Listings
  // ---------------------------------------------------------------------

  /** What a history handler shows. */
  datatype View =
    | NoRows
    | LoadFailed
    | Shown(rows: seq<Expense>, page: int, totalPages: int, count: nat, back: bool, forward: bool)

  /**
   * `show_expenses_page`: all rows of the user in recency order. The page
   * is fetched first; an empty page, even one past the last, shows the
   * no-records message, and a page below 1 makes the query fail.
   */
  function RecentView(es: seq<Expense>, user: int, page: int): (v: View)
    ensures v == LoadFailed <==> page < 1
    ensures v == NoRows <==> page >= 1 && |RowsOf(es, user)| <= PageOffset(page)
    ensures v.Shown? ==>
      && v.rows == PageSlice(SortRecent(RowsOf(es, user)), page).value
      && v.count == |RowsOf(es, user)| && v.totalPages == TotalPages(v.count)
      && (v.back <==> page > 1) && (v.forward <==> page < v.totalPages)
  {
    var matching := SortRecent(RowsOf(es, user));
    var n := |matching|;
    assert n == |RowsOf(es, user)| by {
      assert |multiset(matching)| == |multiset(RowsOf(es, user))|;
    }
    match PageSlice(matching, page)
    case None => LoadFailed
    case Some(rows) =>
      if rows == [] then NoRows
      else Shown(rows, page, TotalPages(n), n, page > 1, page < TotalPages(n))
  }

  /**
   * `show_category_expenses_page` and `show_search_results`: the rows that
   * match, counted first. No match shows the empty message whatever the
   * page; otherwise a page below 1 makes the query fail and a page past the
   * last is shown with no rows.
   */
  function FilteredView(matching: seq<Expense>, page: int): (v: View)
    ensures v == NoRows <==> matching == []
    ensures v == LoadFailed <==> matching != [] && page < 1
    ensures v.Shown? ==>
      && v.rows == PageSlice(SortRecent(matching), page).value
      && v.count == |matching| && v.totalPages == TotalPages(v.count)
      && (v.back <==> page > 1) && (v.forward <==> page < v.totalPages)
  {
    if matching == [] then NoRows
    else
      var sorted := SortRecent(matching);
      assert |sorted| == |matching| by {
        assert |multiset(sorted)| == |multiset(matching)|;
      }
      match PageSlice(sorted, page)
      case None => LoadFailed
      case Some(rows) => Shown(rows, page, TotalPages(|matching|), |matching|, page > 1, page < TotalPages(|matching|))
  }

  /** `WHERE user_id = $1 AND category = $2`, in table order. */
  function CategoryRows(es: seq<Expense>, user: int, category: string): (r: seq<Expense>)
    ensures forall e :: e in r <==> e in es && e.userId == user && e.category == category
  {
    if es == [] then []
    else (if es[0].userId == user && es[0].category == category then [es[0]] else []) + CategoryRows(es[1..], user, category)
  }

  // ---------------------------------------------------------------------
  // Periods
  // ---------------------------------------------------------------------

  /** What `show_period_expenses` does with a `history_period_*` payload. */
  datatype PeriodChoice =
    | Range(start: Date, end: Date)
    /** The custom-range prompt is shown; what happens to the state is `StateAfterChoice`'s concern. */
    | AskCustom
    /** An unknown key leaves `start_date` unbound, and a week before 0001-01-08 overflows: the handler raises. */
    | Crash

  /** `show_period_expenses`: the bounds of the listed period, both inclusive. */
  function HistoryPeriod(data: string, today: Date): (r: PeriodChoice)
    requires ValidDate(today)
    ensures r.Range? ==> ValidDate(r.start) && r.end == today && Ordinal(r.start) <= Ordinal(today)
    ensures data == "history_period_today" ==> r == Range(today, today)
    ensures data == "history_period_week" ==> (r.Range? <==> Ordinal(today) > 7)
    ensures data == "history_period_week" && r.Range? ==> Ordinal(today) - Ordinal(r.start) == 7
    ensures data == "history_period_month" ==>
      && r.Range?
      && r.start.year == today.year && r.start.month == today.month && r.start.day == 1
    ensures r == AskCustom <==> data == "history_period_custom"
    ensures r == Crash <==>
      || (data != "history_period_today" && data != "history_period_week"
          && data != "history_period_month" && data != "history_period_custom")
      || (data == "history_period_week" && Ordinal(today) <= 7)
  {
    SubDaysOrdinal(today, 7);
    if data == "history_period_today" then Range(today, today)
    else if data == "history_period_week" then
      match SubDays(today, 7)
      case Some(start) => Range(start, today)
      case None => Crash
    else if data == "history_period_month" then Range(FirstOfMonth(today), today)
    else if data == "history_period_custom" then AskCustom
    else Crash
  }

  /**
   * The state after `show_period_expenses` as written: after the custom
   * prompt the handler calls `callback.bot.fsm.set_state(...)`, but
   * aiogram's `Bot` has no `fsm` attribute, so the call raises and the
   * state is left as it was; the other choices never touch it.
   */
  function StateAfterChoiceAsWritten(choice: PeriodChoice, before: FsmState): (s: FsmState)
    ensures s == before
  {
    before
  }

  /**
   * As written, the custom choice never leads to `waiting_for_custom_period`
   * unless the chat was already in it: nothing else in the bot sets that
   * state, so the range handler cannot be reached.
   */
  lemma CustomPromptNeverWaits(today: Date, before: FsmState)
    requires ValidDate(today)
    ensures HistoryPeriod("history_period_custom", today) == AskCustom
    ensures StateAfterChoiceAsWritten(HistoryPeriod("history_period_custom", today), before) == WaitingForCustomPeriod
        <==> before == WaitingForCustomPeriod
  {
  }

  /**
   * The state the handler is evidently meant to leave: the custom prompt
   * puts the chat in `waiting_for_custom_period` (as `ask_custom_period`
   * of the statistics does with `state.set_state`), and the other choices
   * leave the state alone.
   */
  function StateAfterChoice(choice: PeriodChoice, before: FsmState): (s: FsmState)
    ensures choice == AskCustom ==> s == WaitingForCustomPeriod
    ensures choice != AskCustom ==> s == before
  {
    if choice == AskCustom then WaitingForCustomPeriod else before
  }

  /** With the state set, the typed range reaches `handle_custom_period` whatever state the chat was in. */
  lemma CustomPromptWaits(today: Date, before: FsmState)
    requires ValidDate(today)
    ensures StateAfterChoice(HistoryPeriod("history_period_custom", today), before) == WaitingForCustomPeriod
  {
  }

  /**
   * `show_period_expenses` on the session, with the state set as intended
   * for the custom choice; nothing else is stored.
   */
  method ShowPeriodExpenses(session: Session, data: string, today: Date) returns (r: PeriodChoice)
    requires ValidDate(today)
    modifies session
    ensures r == HistoryPeriod(data, today)
    ensures session.state == StateAfterChoice(r, old(session.state))
    ensures session.oldCategory == old(session.oldCategory) && session.expenseIds == old(session.expenseIds)
    ensures session.expenseId == old(session.expenseId)
    ensures session.period == old(session.period) && session.customPeriod == old(session.customPeriod)
  {
    r := HistoryPeriod(data, today);
    if r == AskCustom {
      session.state := WaitingForCustomPeriod;
    }
  }

  /**
   * `handle_custom_period`: "dd.mm.yyyy - dd.mm". The text is cut at every
   * '-' and only the first two pieces are read; the end date takes the
   * start's year, written with `str()`, and may not lie before the start.
   */
  function CustomHistoryRange(text: string): (r: Option<(Date, Date)>)
    ensures r.Some? ==>
      && ValidDate(r.value.0) && ValidDate(r.value.1)
      && r.value.1.year == r.value.0.year
      && !DateBefore(r.value.1, r.value.0)
  {
    CustomRangeOfPieces(SplitOn(Strip(text), '-'))
  }

  /** The range the pieces of the text cut at '-' denote; pieces after the second are ignored. */
  function CustomRangeOfPieces(parts: seq<string>): (r: Option<(Date, Date)>)
    ensures r.Some? ==>
      && ValidDate(r.value.0) && ValidDate(r.value.1)
      && r.value.1.year == r.value.0.year
      && !DateBefore(r.value.1, r.value.0)
  {
    if |parts| < 2 then None
    else
      match ParseDMY(Strip(parts[0]))
      case None => None
      case Some(start) =>
        var endText := Strip(parts[1]) + "." + FormatInt(start.year);
        match ParseDMY(endText)
        case None => None
        case Some(end) =>
          if DateBefore(end, start) then None
          else
            ParseDMYYear(Strip(parts[1]), start.year);
            Some((start, end))
  }

  /**
   * `handle_custom_period` on the session: a range that reads is listed
   * and the state cleared; on any error the state stays, so the user can
   * type the range again.
   */
  method HandleCustomPeriod(session: Session, text: string) returns (r: Option<(Date, Date)>)
    requires session.state == WaitingForCustomPeriod
    modifies session
    ensures r == CustomHistoryRange(text)
    ensures r.Some? ==> session.Cleared()
    ensures r.None? ==> unchanged(session)
  {
    r := CustomHistoryRange(text);
    if r.Some? {
      session.Clear();
    }
  }

  /** `date BETWEEN start AND end` for the user's rows, in table order. */
  function PeriodRows(es: seq<Expense>, user: int, start: Date, end: Date): (r: seq<Expense>)
    ensures forall e :: e in r <==> e in es && e.userId == user && !DateBefore(e.date, start) && !DateBefore(end, e.date)
  {
    if es == [] then []
    else
      var e := es[0];
      (if e.userId == user && !DateBefore(e.date, start) && !DateBefore(end, e.date) then [e] else [])
      + PeriodRows(es[1..], user, start, end)
  }

  /**
   * `show_expenses_in_period`: the user's rows from `start` to `end`, both
   * included, newest first by the listing's ORDER BY.
   */
  function PeriodListing(es: seq<Expense>, user: int, start: Date, end: Date): (r: seq<Expense>)
    ensures InRecentOrder(r)
    ensures multiset(r) == multiset(PeriodRows(es, user, start, end))
    ensures forall e :: e in r <==> e in es && e.userId == user && !DateBefore(e.date, start) && !DateBefore(end, e.date)
  {
    var rows := PeriodRows(es, user, start, end);
    var sorted := SortRecent(rows);
    forall e
      ensures e in sorted <==> e in rows
    {
      assert e in sorted <==> e in multiset(sorted);
      assert e in rows <==> e in multiset(rows);
    }
    sorted
  }

  /**
   * What a period button lists: today's rows; for the week the rows of the
   * eight days from seven days before today to today; for the month the
   * rows from its first day to today.
   */
  lemma PeriodChoiceListing(es: seq<Expense>, user: int, data: string, today: Date, e: Expense)
    requires ValidDate(today) && ValidDate(e.date)
    requires HistoryPeriod(data, today).Range?
    ensures var c := HistoryPeriod(data, today);
      e in PeriodListing(es, user, c.start, c.end) <==>
        && e in es && e.userId == user
        && (data == "history_period_today" ==> e.date == today)
        && (data == "history_period_week" ==> Ordinal(today) - 7 <= Ordinal(e.date) <= Ordinal(today))
        && (data == "history_period_month" ==>
              e.date.year == today.year && e.date.month == today.month && e.date.day <= today.day)
  {
    var c := HistoryPeriod(data, today);
    DateBeforeOrdinal(e.date, c.start);
    DateBeforeOrdinal(today, e.date);
  }

  /** A date read from `x + "." + str(y)` lies in year `y`. */
  lemma ParseDMYYear(x: string, y: int)
    requires ParseDMY(x + "." + FormatInt(y)).Some?
    ensures ParseDMY(x + "." + FormatInt(y)).value.year == y
  {
    var ys := FormatInt(y);
    assert '.' !in ys by {
      var m: nat := if y < 0 then -y else y;
      DigitsHaveNoChar(NatDigits(m), '.');
    }
    SplitOnConcat(x, ys, '.');
    SplitOnNoSep(ys, '.');
    assert x + "." + ys == x + ['.'] + ys;
    var parts := SplitOn(x + "." + ys, '.');
    assert parts[|parts| - 1] == ys;
    assert |parts| == 3 && YearField(ys);
    assert ys[0] != '-';
    NatDigitsValue(y);
  }

  /** "dd.mm", the end of a range as the prompt asks for it. */
  function FormatDM(d: Date): (s: string)
    requires ValidDate(d)
    ensures |s| == 5
  {
    Pad2(d.day) + "." + Pad2(d.month)
  }

  /**
   * A range typed the way the prompt asks, "dd.mm.yyyy - dd.mm", is read
   * back as the two dates when the end does not lie before the start in
   * the start's year, and refused otherwise.
   */
  lemma CustomRangeOfPrompt(start: Date, end: Date)
    requires ValidDate(start) && ValidDate(end) && start.year >= 1000 && end.year == start.year
    ensures CustomHistoryRange(FormatDMY(start) + " - " + FormatDM(end))
         == if DateBefore(end, start) then None else Some((start, end))
  {
    var a, b := FormatDMY(start), FormatDM(end);
    PromptPieces(a, b);
    ParseFormatDMY(start);
    FormatIntFourDigits(start.year);
    assert b + "." + FormatInt(start.year) == FormatDMY(end);
    ParseFormatDMY(end);
    CustomRangeOfKnownPieces(SplitOn(Strip(a + " - " + b), '-'), start, end);
  }

  lemma CustomRangeOfKnownPieces(parts: seq<string>, start: Date, end: Date)
    requires |parts| >= 2 && ParseDMY(Strip(parts[0])) == Some(start)
    requires ParseDMY(Strip(parts[1]) + "." + FormatInt(start.year)) == Some(end)
    ensures CustomRangeOfPieces(parts) == if DateBefore(end, start) then None else Some((start, end))
  {
  }

  /**
   * The text "a - b" the range prompts ask for, stripped and cut at '-',
   * gives two pieces that strip to `a` and `b`.
   */
  lemma PromptPieces(a: string, b: string)
    requires a != [] && b != [] && AllDigitsOrPoints(a) && AllDigitsOrPoints(b)
    ensures var parts := SplitOn(Strip(a + " - " + b), '-');
      && parts == [a + " ", " " + b]
      && Strip(parts[0]) == a && Strip(parts[1]) == b
  {
    var text := a + " - " + b;
    assert !IsSpace(a[0]) && !IsSpace(a[|a| - 1]) && !IsSpace(b[0]) && !IsSpace(b[|b| - 1]);
    assert text[0] == a[0] && text[|text| - 1] == b[|b| - 1];
    StripNoBlankEnds(text);
    RangeSplit(a, b);
    StripBlankAfter(a);
    StripBlankBefore(b);
  }

  lemma RangeSplit(a: string, b: string)
    requires AllDigitsOrPoints(a) && AllDigitsOrPoints(b)
    ensures SplitOn(a + " - " + b, '-') == [a + " ", " " + b]
  {
    assert a + " - " + b == (a + " ") + ['-'] + (" " + b);
    SplitOnTwo(a + " ", " " + b, '-');
  }

  predicate AllDigitsOrPoints(s: string)
  {
    forall i :: 0 <= i < |s| ==> IsDigit(s[i]) || s[i] == '.'
  }

  lemma StripBlankAfter(x: string)
    requires x != [] && !IsSpace(x[0]) && !IsSpace(x[|x| - 1])
    ensures Strip(x + " ") == x
  {
    assert (x + " ")[..|x|] == x;
  }

  lemma StripBlankBefore(x: string)
    requires x != [] && !IsSpace(x[0]) && !IsSpace(x[|x| - 1])
    ensures Strip(" " + x) == x
  {
    assert (" " + x)[1..] == x;
  }

  /** `str(y)` of a four-digit year is its `%Y` spelling. */
  lemma FormatIntFourDigits(y: int)
    requires 1000 <= y <= 9999
    ensures FormatInt(y) == Pad4(y)
  {
    FourDigitSteps(y);
    var a, b, c, d := DigitChar(y / 1000), DigitChar(y / 100 % 10), DigitChar(y / 10 % 10), DigitChar(y % 10);
    assert NatDigits(y / 100) == [a, b];
    assert NatDigits(y / 10) == [a, b] + [c];
    assert NatDigits(y) == [a, b, c] + [d];
    assert Pad4(y) == Pad2(y / 100) + Pad2(y % 100);
    assert Pad2(y / 100) == [a, b] && Pad2(y % 100) == [c, d];
  }

  /** The decimal digits of a four-digit number, read off by successive division. */
  lemma FourDigitSteps(y: int)
    requires 1000 <= y <= 9999
    ensures y / 10 / 10 == y / 100 && y / 100 / 10 == y / 1000
    ensures y % 100 / 10 == y / 10 % 10 && y % 100 % 10 == y % 10
    ensures 10 <= y / 100 < 100 && 100 <= y / 10
  {
  }

  /** The example the custom-range prompt itself shows, 13.11.2024 - 22.05, is refused. */
  lemma PromptExampleRefused()
    ensures CustomHistoryRange(FormatDMY(Date(2024, 11, 13)) + " - " + FormatDM(Date(2024, 5, 22))) == None
  {
    CustomRangeOfPrompt(Date(2024, 11, 13), Date(2024, 5, 22));
  }

  // ---------------------------------------------------------------------
  // Search
  // ---------------------------------------------------------------------

  /** A query parameter, bound to a `$k` placeholder. */
  datatype Param = UserParam(user: int) | DateParam(date: Date) | AmountParam(kopecks: int) | TextParam(text: string)

  /** A disjunct of the search's OR group, naming its placeholders. */
  datatype Disjunct =
    | DateIs(slot: int)
    | AmountIn(low: int, high: int)
    | CategoryLike(slot: int)

  /** The placeholders of the OR group, in the order they appear. */
  function Slots(ds: seq<Disjunct>): (r: seq<int>)
  {
    if ds == [] then []
    else
      var head := match ds[0]
        case DateIs(k) => [k]
        case AmountIn(lo, hi) => [lo, hi]
        case CategoryLike(k) => [k];
      head + Slots(ds[1..])
  }

  /** `float(query.replace(",", "."))` in kopecks. */
  function AmountFilter(query: string): (r: Option<int>)
    ensures forall k :: query == FormatAmount(k) ==> r == Some(k)
  {
    assert forall k :: query == FormatAmount(k) ==> ReplaceChar(query, ',', '.') == query by {
      forall k | query == FormatAmount(k)
        ensures ReplaceChar(query, ',', '.') == query
      {
        assert ',' !in query;
      }
    }
    assert forall k :: query == FormatAmount(k) ==> ParseAmount(query) == Some(k) by {
      forall k | query == FormatAmount(k)
        ensures ParseAmount(query) == Some(k)
      {
        ParseFormatAmount(k);
      }
    }
    ParseAmount(ReplaceChar(query, ',', '.'))
  }

  /**
   * The WHERE clause `show_search_results` assembles, as its OR group and
   * the parameter list, from what the query reads as: `$1` is the user,
   * then a date disjunct when the query is a dd.mm.yyyy date (a date is
   * always truthy), an amount disjunct [a, a + 1) when it is a number, and
   * always the category pattern `%query%` last.
   */
  datatype SearchFilter = SearchFilter(disjuncts: seq<Disjunct>, params: seq<Param>)

  function DateDisjuncts(date: Option<Date>): seq<Disjunct>
  {
    if date.Some? then [DateIs(2)] else []
  }

  function DateParams(date: Option<Date>): seq<Param>
  {
    if date.Some? then [DateParam(date.value)] else []
  }

  function AmountDisjuncts(amount: Option<int>, k: int): seq<Disjunct>
  {
    if amount.Some? then [AmountIn(k, k + 1)] else []
  }

  function AmountParams(amount: Option<int>): seq<Param>
  {
    if amount.Some? then [AmountParam(amount.value), AmountParam(amount.value + 100)] else []
  }

  function QueryFilter(user: int, query: string, date: Option<Date>, amount: Option<int>): (r: SearchFilter)
    ensures |r.params| == 2 + (if date.Some? then 1 else 0) + (if amount.Some? then 2 else 0)
    ensures r.params[0] == UserParam(user) && r.params[|r.params| - 1] == TextParam("%" + query + "%")
    ensures |r.disjuncts| == 1 + (if date.Some? then 1 else 0) + (if amount.Some? then 1 else 0)
    ensures r.disjuncts[|r.disjuncts| - 1] == CategoryLike(|r.params|)
  {
    var k := 2 + |DateParams(date)|;
    var m := k + |AmountParams(amount)|;
    SearchFilter(DateDisjuncts(date) + AmountDisjuncts(amount, k) + [CategoryLike(m)],
                 [UserParam(user)] + DateParams(date) + AmountParams(amount) + [TextParam("%" + query + "%")])
  }

  /**
   * `show_search_results` builds `params` and the OR group step by step,
   * numbering the placeholders with a running `idx`.
   */
  method BuildSearch(user: int, query: string) returns (disjuncts: seq<Disjunct>, params: seq<Param>, idx: int)
    ensures SearchFilter(disjuncts, params) == QueryFilter(user, query, ParseDMY(query), AmountFilter(query))
    ensures idx == |params| + 1
  {
    var dateFilter := ParseDMY(query);
    var amountFilter := AmountFilter(query);
    disjuncts, params, idx := AssembleSearch(user, query, dateFilter, amountFilter);
  }

  method AssembleSearch(user: int, query: string, dateFilter: Option<Date>, amountFilter: Option<int>)
    returns (disjuncts: seq<Disjunct>, params: seq<Param>, idx: int)
    ensures SearchFilter(disjuncts, params) == QueryFilter(user, query, dateFilter, amountFilter)
    ensures idx == |params| + 1
  {
    params := [UserParam(user)];
    idx := 2;
    disjuncts := [];
    if dateFilter.Some? {
      disjuncts := disjuncts + [DateIs(idx)];
      params := params + [DateParam(dateFilter.value)];
      idx := idx + 1;
    }
    if amountFilter.Some? {
      disjuncts := disjuncts + [AmountIn(idx, idx + 1)];
      params := params + [AmountParam(amountFilter.value), AmountParam(amountFilter.value + 100)];
      idx := idx + 2;
    }
    disjuncts := disjuncts + [CategoryLike(idx)];
    params := params + [TextParam("%" + query + "%")];
    idx := idx + 1;
  }

  /** `s` numbers the placeholders `$start, $start+1, ...`. */
  predicate RunFrom(s: seq<int>, start: int)
  {
    forall j :: 0 <= j < |s| ==> s[j] == start + j
  }

  /**
   * The placeholders run `$2, $3, ...` without gaps in the order they
   * appear, `$1` being the user, and there is one parameter per
   * placeholder.
   */
  lemma SearchPlaceholders(user: int, query: string, date: Option<Date>, amount: Option<int>)
    ensures var f := QueryFilter(user, query, date, amount);
      && |Slots(f.disjuncts)| == |f.params| - 1
      && RunFrom(Slots(f.disjuncts), 2)
      && f.params[0] == UserParam(user)
  {
    var k := 2 + |DateParams(date)|;
    var m := k + |AmountParams(amount)|;
    var ds, am := DateDisjuncts(date), AmountDisjuncts(amount, k);
    var slots := Slots(ds + am + [CategoryLike(m)]);
    assert RunFrom(slots, 2) && |slots| == m - 1 by {
      SlotsAppend(ds, am);
      SlotsAppend(ds + am, [CategoryLike(m)]);
      assert Slots([CategoryLike(m)]) == [m];
      DateSlots(date);
      AmountSlots(amount, k);
      RunConcat(Slots(ds), Slots(am), 2);
      RunConcat(Slots(ds) + Slots(am), [m], 2);
    }
    var f := QueryFilter(user, query, date, amount);
    assert f.disjuncts == ds + am + [CategoryLike(m)];
    assert |f.params| == m;
  }

  lemma RunConcat(a: seq<int>, b: seq<int>, start: int)
    requires RunFrom(a, start) && RunFrom(b, start + |a|)
    ensures RunFrom(a + b, start)
  {
    forall j | 0 <= j < |a + b|
      ensures (a + b)[j] == start + j
    {
      if j >= |a| {
        assert (a + b)[j] == b[j - |a|];
      }
    }
  }

  lemma DateSlots(date: Option<Date>)
    ensures RunFrom(Slots(DateDisjuncts(date)), 2) && |Slots(DateDisjuncts(date))| == |DateParams(date)|
  {
    if date.Some? {
      assert Slots(DateDisjuncts(date)) == [2];
    }
  }

  lemma AmountSlots(amount: Option<int>, k: int)
    ensures RunFrom(Slots(AmountDisjuncts(amount, k)), k) && |Slots(AmountDisjuncts(amount, k))| == |AmountParams(amount)|
  {
    if amount.Some? {
      assert Slots(AmountDisjuncts(amount, k)) == [k, k + 1];
    }
  }

  lemma {:induction false} SlotsAppend(a: seq<Disjunct>, b: seq<Disjunct>)
    ensures Slots(a + b) == Slots(a) + Slots(b)
  {
    if a != [] {
      SlotsAppend(a[1..], b);
      assert (a + b)[0] == a[0];
      assert (a + b)[1..] == a[1..] + b;
    } else {
      assert a + b == b;
    }
  }

  /**
   * The OR group holds a date disjunct exactly when the query is a date and
   * an amount disjunct exactly when it is a number, and it ends with the
   * category pattern.
   */
  lemma SearchDisjuncts(user: int, query: string, date: Option<Date>, amount: Option<int>)
    ensures var ds := QueryFilter(user, query, date, amount).disjuncts;
      && ((exists k :: DateIs(k) in ds) <==> date.Some?)
      && ((exists lo, hi :: AmountIn(lo, hi) in ds) <==> amount.Some?)
      && ds[|ds| - 1].CategoryLike?
  {
    var ds := QueryFilter(user, query, date, amount).disjuncts;
    if date.Some? {
      assert DateIs(2) in ds;
    }
    if amount.Some? {
      var k := 2 + |DateParams(date)|;
      assert AmountIn(k, k + 1) in ds;
    }
  }

  /** The assembled WHERE clause selects exactly the rows the search is meant to find. */
  lemma SearchWhereMeaning(user: int, query: string, date: Option<Date>, amount: Option<int>, e: Expense)
    ensures var f := QueryFilter(user, query, date, amount);
      WhereHolds(f.disjuncts, f.params, e) <==> SearchMatches(e, user, query, date, amount)
  {
    var f := QueryFilter(user, query, date, amount);
    var like := CategoryLike(|f.params|);
    assert f.disjuncts[|f.disjuncts| - 1] == like;
    assert DisjunctHolds(like, f.params, e) <==> ILike(e.category, "%" + query + "%");
    if date.Some? {
      assert f.disjuncts[0] == DateIs(2);
      assert DisjunctHolds(DateIs(2), f.params, e) <==> e.date == date.value;
    }
    if amount.Some? {
      var k := 2 + |DateParams(date)|;
      assert f.disjuncts[|f.disjuncts| - 2] == AmountIn(k, k + 1);
      assert DisjunctHolds(AmountIn(k, k + 1), f.params, e) <==> amount.value <= e.amount < amount.value + 100;
    }
  }

  /** The meaning of one disjunct for a row, under the bound parameters (`$k` is `params[k - 1]`). */
  predicate DisjunctHolds(d: Disjunct, params: seq<Param>, e: Expense)
  {
    match d
    case DateIs(k) => 1 <= k <= |params| && params[k - 1].DateParam? && e.date == params[k - 1].date
    case AmountIn(lo, hi) =>
      && 1 <= lo <= |params| && 1 <= hi <= |params|
      && params[lo - 1].AmountParam? && params[hi - 1].AmountParam?
      && params[lo - 1].kopecks <= e.amount < params[hi - 1].kopecks
    case CategoryLike(k) => 1 <= k <= |params| && params[k - 1].TextParam? && ILike(e.category, params[k - 1].text)
  }

  /** `WHERE user_id = $1 AND (d1 OR d2 OR ...)`. */
  predicate WhereHolds(ds: seq<Disjunct>, params: seq<Param>, e: Expense)
  {
    && |params| >= 1 && params[0].UserParam? && e.userId == params[0].user
    && exists i :: 0 <= i < |ds| && DisjunctHolds(ds[i], params, e)
  }

  /**
   * What a search finds, given what the query reads as: the user's rows
   * dated on the query's date, or whose amount lies in [a, a + 1) for the
   * query's amount a, or whose
   * category matches the pattern `%query%` regardless of case.
   */
  predicate SearchMatches(e: Expense, user: int, query: string, date: Option<Date>, amount: Option<int>)
  {
    && e.userId == user
    && (|| date == Some(e.date)
        || (amount.Some? && amount.value <= e.amount < amount.value + 100)
        || ILike(e.category, "%" + query + "%"))
  }

  /**
   * SQL `LIKE`: `%` matches any run of characters, `_` any one character,
   * and a backslash makes the next character literal.
   */
  predicate LikeMatch(s: string, p: string)
    ensures NoWildcards(p) ==> (LikeMatch(s, p) <==> s == p)
    decreases |p|, |s|
  {
    if p == [] then s == []
    else if p[0] == '%' then LikeMatch(s, p[1..]) || (s != [] && LikeMatch(s[1..], p))
    else if p[0] == '_' then s != [] && LikeMatch(s[1..], p[1..])
    else if p[0] == '\\' then |p| >= 2 && s != [] && s[0] == p[1] && LikeMatch(s[1..], p[2..])
    else s != [] && s[0] == p[0] && LikeMatch(s[1..], p[1..])
  }

  /** `ILIKE`: `LIKE` after lower-casing both sides. */
  predicate ILike(s: string, p: string)
    ensures NoWildcards(p) ==> (ILike(s, p) <==> LowerStr(s) == LowerStr(p))
  {
    assert NoWildcards(p) ==> NoWildcards(LowerStr(p)) by {
      if NoWildcards(p) {
        forall i | 0 <= i < |p|
          ensures LowerStr(p)[i] != '%' && LowerStr(p)[i] != '_' && LowerStr(p)[i] != '\\'
        {
          assert p[i] in p;
        }
      }
    }
    LikeMatch(LowerStr(s), LowerStr(p))
  }

  /** A query with none of the characters `LIKE` treats specially. */
  predicate NoWildcards(q: string)
  {
    '%' !in q && '_' !in q && '\\' !in q
  }

  lemma {:induction false} LikeAnything(s: string)
    ensures LikeMatch(s, "%")
  {
    if s != [] {
      LikeAnything(s[1..]);
    }
  }

  lemma {:induction false} LikeLiteralPrefix(t: string, q: string)
    requires NoWildcards(q)
    ensures LikeMatch(t, q + "%") <==> q <= t
  {
    if q == [] {
      assert q + "%" == "%";
      LikeAnything(t);
    } else {
      assert q[0] in q;
      assert (q + "%")[0] == q[0];
      assert (q + "%")[1..] == q[1..] + "%";
      assert NoWildcards(q[1..]) by {
        assert forall c :: c in q[1..] ==> c in q;
      }
      if t != [] {
        LikeLiteralPrefix(t[1..], q[1..]);
      }
    }
  }

  lemma {:induction false} LikeContains(s: string, q: string)
    requires NoWildcards(q)
    ensures LikeMatch(s, "%" + q + "%") <==> Contains(s, q)
    decreases |s|
  {
    var p := "%" + q + "%";
    assert p[0] == '%' && p[1..] == q + "%";
    LikeLiteralPrefix(s, q);
    if s != [] {
      LikeContains(s[1..], q);
    }
  }

  /**
   * For a query free of `%`, `_` and backslashes, the category pattern
   * matches exactly the categories that contain the query, ignoring case.
   */
  lemma ILikeIsCaselessContains(s: string, q: string)
    requires NoWildcards(q)
    ensures ILike(s, "%" + q + "%") <==> Contains(LowerStr(s), LowerStr(q))
  {
    var lq := LowerStr(q);
    assert LowerStr("%" + q + "%") == "%" + lq + "%";
    assert NoWildcards(lq) by {
      forall i | 0 <= i < |lq|
        ensures lq[i] != '%' && lq[i] != '_' && lq[i] != '\\'
      {
        assert q[i] in q;
      }
    }
    LikeContains(LowerStr(s), lq);
  }

  /** A query that is a lone `_` is a wildcard: it finds every row whose category is not empty. */
  lemma UnderscoreQueryMatchesAll(s: string)
    ensures ILike(s, "%" + "_" + "%") <==> s != []
  {
    assert LowerStr("%" + "_" + "%") == "%_%";
    var t := LowerStr(s);
    var p := "%_%";
    assert p[0] == '%' && p[1..] == "_%" && p[1..][0] == '_' && p[1..][1..] == "%";
    if t != [] {
      LikeAnything(t[1..]);
      assert LikeMatch(t, p[1..]);
      assert LikeMatch(t, p);
    } else {
      assert !LikeMatch(t, p[1..]);
      assert !LikeMatch(t, p);
    }
    assert ILike(s, "%" + "_" + "%") == LikeMatch(t, p);
  }

  /** `SELECT ... WHERE <clause>`, in table order. */
  function Select(es: seq<Expense>, f: SearchFilter): (r: seq<Expense>)
    ensures forall e :: e in r ==> e in es && WhereHolds(f.disjuncts, f.params, e)
  {
    if es == [] then []
    else (if WhereHolds(f.disjuncts, f.params, es[0]) then [es[0]] else []) + Select(es[1..], f)
  }

  /** The rows a search is meant to find, in table order. */
  function SearchRows(es: seq<Expense>, user: int, query: string, date: Option<Date>, amount: Option<int>): (r: seq<Expense>)
    ensures forall e :: e in r <==> e in es && SearchMatches(e, user, query, date, amount)
  {
    if es == [] then []
    else (if SearchMatches(es[0], user, query, date, amount) then [es[0]] else []) + SearchRows(es[1..], user, query, date, amount)
  }

  lemma {:induction false} SelectIsSearch(es: seq<Expense>, user: int, query: string, date: Option<Date>, amount: Option<int>)
    ensures Select(es, QueryFilter(user, query, date, amount)) == SearchRows(es, user, query, date, amount)
  {
    if es != [] {
      SearchWhereMeaning(user, query, date, amount, es[0]);
      SelectIsSearch(es[1..], user, query, date, amount);
    }
  }

  /**
   * `show_search_results`: the query's WHERE clause is assembled, the
   * matching rows are counted and one page of them is listed.
   */
  method ShowSearchResults(es: seq<Expense>, user: int, query: string, page: int) returns (v: View)
    ensures v == FilteredView(SearchRows(es, user, query, ParseDMY(query), AmountFilter(query)), page)
  {
    var disjuncts, params, idx := BuildSearch(user, query);
    SelectIsSearch(es, user, query, ParseDMY(query), AmountFilter(query));
    v := FilteredView(Select(es, SearchFilter(disjuncts, params)), page);
  }

  // ---------------------------------------------------------------------
  // Callback payloads
  // ---------------------------------------------------------------------

  /** The last piece of `a + sep + b` split at `sep` is `b` when `b` has no separator. */
  lemma LastPieceAfterSep(a: string, b: string, sep: char)
    requires sep !in b
    ensures var parts := SplitOn(a + [sep] + b, sep); parts[|parts| - 1] == b
  {
    SplitOnConcat(a, b, sep);
    SplitOnNoSep(b, sep);
  }

  lemma FormatIntHasNo(n: int, c: char)
    requires c != '-' && !IsDigit(c)
    ensures c !in FormatInt(n)
  {
    var m: nat := if n < 0 then -n else n;
    DigitsHaveNoChar(NatDigits(m), c);
  }

  /** `f"expenses_page_{page}"`. */
  function ExpensesPagePayload(page: int): string
  {
    "expenses_page_" + FormatInt(page)
  }

  /**
   * `paginate_expenses`: `int(data.split("_")[-1])`. Every page number the
   * history buttons carry is read back unchanged.
   */
  function ExpensesPageOf(data: string): (r: Option<int>)
    ensures forall page :: data == ExpensesPagePayload(page) ==> r == Some(page)
  {
    var parts := SplitOn(data, '_');
    var r := ParseInt(parts[|parts| - 1]);
    assert forall page :: data == ExpensesPagePayload(page) ==> r == Some(page) by {
      forall page | data == ExpensesPagePayload(page)
        ensures r == Some(page)
      {
        ExpensesPayloadPieces(data, page);
      }
    }
    r
  }

  /** The last piece of a history page payload is the page number, which `int()` reads back. */
  lemma ExpensesPayloadPieces(data: string, page: int)
    requires data == ExpensesPagePayload(page)
    ensures var parts := SplitOn(data, '_');
      ParseInt(parts[|parts| - 1]) == Some(page)
  {
    var p := FormatInt(page);
    FormatIntHasNo(page, '_');
    assert data == "expenses_page" + ['_'] + p;
    LastPieceAfterSep("expenses_page", p, '_');
    var parts := SplitOn(data, '_');
    assert parts[|parts| - 1] == p;
    ParseFormatInt(page);
  }

  /** `f"category_page_{category}_{page}"`. */
  function CategoryPagePayload(category: string, page: int): string
  {
    "category_page_" + category + "_" + FormatInt(page)
  }

  /**
   * `paginate_category_expenses`: the category is `"_".join(parts[2:-1])`
   * and the page `int(parts[-1])`. Category buttons read back for every
   * category, underscores included.
   */
  function CategoryPageOf(data: string): (r: Option<(string, int)>)
    ensures forall category, page :: data == CategoryPagePayload(category, page) ==> r == Some((category, page))
  {
    var r := DecodeCategoryPieces(SplitOn(data, '_'));
    assert forall c, page :: data == CategoryPagePayload(c, page) ==> r == Some((c, page)) by {
      forall c, page | data == CategoryPagePayload(c, page)
        ensures r == Some((c, page))
      {
        CategoryPayloadDecodes(data, c, page);
      }
    }
    r
  }

  /** The category is the pieces after the first two and before the last, joined; the page is the last piece. */
  function DecodeCategoryPieces(parts: seq<string>): Option<(string, int)>
    requires |parts| >= 1
  {
    var n := |parts|;
    var category := Join('_', if n >= 3 then parts[2..n - 1] else []);
    match ParseInt(parts[n - 1])
    case Some(page) => Some((category, page))
    case None => None
  }

  lemma CategoryPayloadDecodes(data: string, category: string, page: int)
    requires data == CategoryPagePayload(category, page)
    ensures DecodeCategoryPieces(SplitOn(data, '_')) == Some((category, page))
  {
    CategoryPayloadPieces(data, category, page);
  }

  /** The middle pieces of a category page payload join back into the category; the last is the page. */
  lemma CategoryPayloadPieces(data: string, category: string, page: int)
    requires data == CategoryPagePayload(category, page)
    ensures var parts := SplitOn(data, '_');
      && |parts| >= 3
      && Join('_', parts[2..|parts| - 1]) == category
      && ParseInt(parts[|parts| - 1]) == Some(page)
  {
    var p := FormatInt(page);
    var cs := SplitOn(category, '_');
    CategoryPayloadSplit(category, page);
    var parts := SplitOn(data, '_');
    assert parts[2..|parts| - 1] == cs;
    assert parts[|parts| - 1] == p;
    JoinSplit(category, '_');
    ParseFormatInt(page);
  }

  lemma CategoryPayloadSplit(category: string, page: int)
    ensures SplitOn(CategoryPagePayload(category, page), '_') == ["category", "page"] + SplitOn(category, '_') + [FormatInt(page)]
  {
    var p := FormatInt(page);
    FormatIntHasNo(page, '_');
    var rest := category + ['_'] + p;
    assert CategoryPagePayload(category, page) == "category_page_" + rest;
    CategoryPrefixSplit(rest);
    SplitOnConcat(category, p, '_');
    SplitOnNoSep(p, '_');
  }

  /** Splitting after a separator-free first word. */
  lemma SplitAfterWord(w: string, rest: string, sep: char)
    requires sep !in w
    ensures SplitOn(w + [sep] + rest, sep) == [w] + SplitOn(rest, sep)
  {
    SplitOnConcat(w, rest, sep);
    SplitOnNoSep(w, sep);
  }

  lemma CategoryPrefixSplit(rest: string)
    ensures SplitOn("category_page_" + rest, '_') == ["category", "page"] + SplitOn(rest, '_')
  {
    assert "category_page_" + rest == "category" + ['_'] + ("page" + ['_'] + rest);
    assert '_' !in "category" && '_' !in "page";
    SplitAfterTwoWords("category", "page", rest, '_');
  }

  lemma SearchPrefixSplit(rest: string)
    ensures SplitOn("search_expenses_page_" + rest, '_') == ["search", "expenses", "page"] + SplitOn(rest, '_')
  {
    assert "search_expenses_page_" + rest == "search" + ['_'] + ("expenses" + ['_'] + ("page" + ['_'] + rest));
    assert '_' !in "search" && '_' !in "expenses" && '_' !in "page";
    SplitAfterThreeWords("search", "expenses", "page", rest, '_');
  }

  lemma SplitAfterTwoWords(w1: string, w2: string, rest: string, sep: char)
    requires sep !in w1 && sep !in w2
    ensures SplitOn(w1 + [sep] + (w2 + [sep] + rest), sep) == [w1, w2] + SplitOn(rest, sep)
  {
    SplitAfterWord(w1, w2 + [sep] + rest, sep);
    SplitAfterWord(w2, rest, sep);
  }

  lemma SplitAfterThreeWords(w1: string, w2: string, w3: string, rest: string, sep: char)
    requires sep !in w1 && sep !in w2 && sep !in w3
    ensures SplitOn(w1 + [sep] + (w2 + [sep] + (w3 + [sep] + rest)), sep) == [w1, w2, w3] + SplitOn(rest, sep)
  {
    SplitAfterWord(w1, w2 + [sep] + (w3 + [sep] + rest), sep);
    SplitAfterWord(w2, w3 + [sep] + rest, sep);
    SplitAfterWord(w3, rest, sep);
  }

  /** `f"search_expenses_page_{page}_{query}"`. */
  function SearchPagePayload(page: int, query: string): string
  {
    "search_expenses_page_" + FormatInt(page) + "_" + query
  }

  /**
   * `paginate_search_expenses` as written: `_, _, page_str, *query_parts =
   * data.split("_")` binds the third word of the prefix, "page", to the
   * page number. "page" is not a number, so no search page button ever
   * decodes.
   */
  function SearchPageOfAsWritten(data: string): (r: Option<(int, string)>)
    ensures forall page, query :: data == SearchPagePayload(page, query) ==> r == None
  {
    var parts := SplitOn(data, '_');
    assert forall page, query :: data == SearchPagePayload(page, query) ==> |parts| >= 3 && parts[2] == "page" by {
      forall page, query | data == SearchPagePayload(page, query)
        ensures |parts| >= 3 && parts[2] == "page"
      {
        SearchPagePieces(page, query);
      }
    }
    PageWordIsNotANumber();
    if |parts| < 3 then None
    else
      match ParseInt(parts[2])
      case Some(page) => Some((page, Join('_', parts[3..])))
      case None => None
  }

  /** The split of a search payload: the three words of the prefix, the page and the query's pieces. */
  lemma SearchPagePieces(page: int, query: string)
    ensures SplitOn(SearchPagePayload(page, query), '_')
         == ["search", "expenses", "page", FormatInt(page)] + SplitOn(query, '_')
  {
    FormatIntHasNo(page, '_');
    SearchPayloadSplit(FormatInt(page), query);
  }

  lemma Regroup(pre: string, p: string, sep: char, q: string)
    ensures pre + p + [sep] + q == pre + (p + [sep] + q)
  {
  }

  lemma SearchPayloadSplit(p: string, query: string)
    requires '_' !in p
    ensures SplitOn("search_expenses_page_" + p + "_" + query, '_')
         == ["search", "expenses", "page", p] + SplitOn(query, '_')
  {
    var rest := p + ['_'] + query;
    assert "_" == ['_'];
    Regroup("search_expenses_page_", p, '_', query);
    SearchPrefixSplit(rest);
    SplitAfterWord(p, query, '_');
  }

  lemma PageWordIsNotANumber()
    ensures ParseInt("page") == None
  {
    var w := "page";
    assert w[0] == 'p' && w[|w| - 1] == 'e';
    NotANumberStart(w);
  }

  /** A stripped word that opens with neither a sign nor a digit is not an integer literal. */
  lemma NotANumberStart(t: string)
    requires t != [] && !IsSpace(t[0]) && !IsSpace(t[|t| - 1])
    requires !IsDigit(t[0]) && t[0] != '+' && t[0] != '-'
    ensures ParseInt(t) == None
  {
    StripNoBlankEnds(t);
    assert !RunCharOk(t, 0);
  }

  /**
   * The decoder the encoder calls for: skip the three words of the prefix.
   * With the prefix skipped, every search payload reads back, underscores
   * in the query included.
   */
  function SearchPageOf(data: string): (r: Option<(int, string)>)
    ensures forall page, query :: data == SearchPagePayload(page, query) ==> r == Some((page, query))
  {
    var parts := SplitOn(data, '_');
    assert forall page, query :: data == SearchPagePayload(page, query) ==>
      |parts| >= 4 && ParseInt(parts[3]) == Some(page) && Join('_', parts[4..]) == query by {
      forall page, query | data == SearchPagePayload(page, query)
        ensures |parts| >= 4 && ParseInt(parts[3]) == Some(page) && Join('_', parts[4..]) == query
      {
        SearchPayloadPieces(page, query);
      }
    }
    if |parts| < 4 then None
    else
      match ParseInt(parts[3])
      case Some(page) => Some((page, Join('_', parts[4..])))
      case None => None
  }

  /** After the prefix, a search payload holds the page number, then the pieces of the query. */
  lemma SearchPayloadPieces(page: int, query: string)
    ensures var parts := SplitOn(SearchPagePayload(page, query), '_');
      |parts| >= 4 && ParseInt(parts[3]) == Some(page) && Join('_', parts[4..]) == query
  {
    SearchPagePieces(page, query);
    var parts := SplitOn(SearchPagePayload(page, query), '_');
    assert parts[3] == FormatInt(page);
    assert parts[4..] == SplitOn(query, '_');
    JoinSplit(query, '_');
    ParseFormatInt(page);
  }

  /**
   * `paginate_search_expenses` with the corrected decoder: the page the
   * payload names, listed as a fresh search for its query; `None` when the
   * payload does not decode, where the handler answers with an error.
   */
  method PaginateSearch(es: seq<Expense>, user: int, data: string) returns (v: Option<View>)
    ensures v.None? <==> SearchPageOf(data).None?
    ensures v.Some? ==>
      var (page, query) := SearchPageOf(data).value;
      v.value == FilteredView(SearchRows(es, user, query, ParseDMY(query), AmountFilter(query)), page)
  {
    match SearchPageOf(data)
    case None =>
      v := None;
    case Some((page, query)) =>
      var view := ShowSearchResults(es, user, query, page);
      v := Some(view);
  }
}
