/**
 * The statistics handlers: the filter `get_period_filter` builds for each
 * period key, the custom range the user types, and the sums the
 * statistics queries compute over the rows that filter selects.
 */
module Stats {
  import opened Wrappers
  import opened Text
  import opened Numbers
  import opened Calendar
  import opened Store
  import opened Fsm
  import opened ExpenseHistory
  import opened Grouping

  // ---------------------------------------------------------------------
  // Period filters
  // ---------------------------------------------------------------------

  /** The `condition` text; a placeholder `$k` is named by its number `k`. */
  datatype Condition =
    | DateEquals(slot: int)              // date = $k::date
    | DateBetween(low: int, high: int)   // date BETWEEN $l AND $h
    | AlwaysTrue                         // TRUE

  /** A caption the handlers show; dates are kept as dates, formatted with `%d.%m.%Y` on display. */
  datatype Caption = Words(text: string) | OneDay(day: Date) | DaySpan(start: Date, end: Date)

  /** The dictionary `get_period_filter` returns. */
  datatype PeriodFilter = PeriodFilter(condition: Condition, params: seq<Param>, titleSuffix: Caption, periodInfo: Caption)

  datatype PeriodError =
    /** `get_period_filter` called for `period_custom` without dates. */
    | CustomWithoutDates
    /** Any other key, including a missing one: `Unknown period key`. */
    | UnknownPeriodKey
    /** `get_period_info_for_state`: custom period chosen but no dates stored. */
    | CustomNotEntered
    /** `current_date - timedelta(days=6)` before 0001-01-01 raises `OverflowError`. */
    | DateOverflow

  /** The placeholder numbers the condition mentions. */
  function Placeholders(c: Condition): (s: set<int>)
    ensures c.AlwaysTrue? <==> s == {}
  {
    match c
    case DateEquals(k) => {k}
    case DateBetween(l, h) => {l, h}
    case AlwaysTrue => {}
  }

  predicate IsPeriodKey(key: string)
  {
    key == "period_today" || key == "period_week" || key == "period_month" || key == "period_all" || key == "period_custom"
  }

  /** `get_period_filter(period_key, current_date, user_id, custom_period)`. */
  function PeriodFilterOf(key: string, today: Date, user: int, custom: Option<(Date, Date)>): (r: Result<PeriodFilter, PeriodError>)
    requires ValidDate(today)
    ensures r == Err(UnknownPeriodKey) <==> !IsPeriodKey(key)
    ensures r == Err(CustomWithoutDates) <==> key == "period_custom" && custom.None?
    ensures r == Err(DateOverflow) <==> key == "period_week" && Ordinal(today) <= 6
    ensures r.Ok? ==> |r.value.params| >= 1 && r.value.params[0] == UserParam(user)
    ensures r.Ok? && key != "period_custom" ==>
      forall k :: 1 <= k < |r.value.params| ==> r.value.params[k].DateParam? && ValidDate(r.value.params[k].date)
  {
    SubDaysOrdinal(today, 6);
    if key == "period_today" then
      Ok(PeriodFilter(DateEquals(2), [UserParam(user), DateParam(today)], Words("сегодня"), OneDay(today)))
    else if key == "period_week" then
      match SubDays(today, 6)
      case None => Err(DateOverflow)
      case Some(start) =>
        Ok(PeriodFilter(DateBetween(2, 3), [UserParam(user), DateParam(start), DateParam(today)], Words("неделя"), DaySpan(start, today)))
    else if key == "period_month" then
      var start := FirstOfMonth(today);
      Ok(PeriodFilter(DateBetween(2, 3), [UserParam(user), DateParam(start), DateParam(today)], Words("месяц"), DaySpan(start, today)))
    else if key == "period_all" then
      Ok(PeriodFilter(AlwaysTrue, [UserParam(user)], Words("всё время"), Words("за весь период")))
    else if key == "period_custom" then
      match custom
      case None => Err(CustomWithoutDates)
      case Some((start, end)) =>
        Ok(PeriodFilter(DateBetween(2, 3), [UserParam(user), DateParam(start), DateParam(end)], DaySpan(start, end), DaySpan(start, end)))
    else Err(UnknownPeriodKey)
  }

  /**
   * Every filter binds exactly one parameter per distinct placeholder
   * besides `$1`, the user: the placeholders are `$2 .. $n` and each is a date.
   */
  lemma PeriodPlaceholders(key: string, today: Date, user: int, custom: Option<(Date, Date)>)
    requires ValidDate(today) && PeriodFilterOf(key, today, user, custom).Ok?
    ensures var f := PeriodFilterOf(key, today, user, custom).value;
      && |f.params| == 1 + |Placeholders(f.condition)|
      && (forall k :: k in Placeholders(f.condition) <==> 2 <= k <= |f.params|)
      && (forall k :: 1 <= k < |f.params| ==> f.params[k].DateParam?)
  {
    var f := PeriodFilterOf(key, today, user, custom).value;
    if f.condition.DateBetween? {
      assert Placeholders(f.condition) == {2, 3};
      assert |{2, 3}| == 2 by {
        assert {2, 3} == {2} + {3};
      }
    }
  }

  /** Whether `condition` holds of a row dated `d`, `$k` being `params[k - 1]`. */
  predicate ConditionHolds(c: Condition, params: seq<Param>, d: Date)
  {
    match c
    case DateEquals(k) =>
      1 <= k <= |params| && params[k - 1].DateParam? && d == params[k - 1].date
    case DateBetween(l, h) =>
      && 1 <= l <= |params| && 1 <= h <= |params|
      && params[l - 1].DateParam? && params[h - 1].DateParam?
      && !DateBefore(d, params[l - 1].date) && !DateBefore(params[h - 1].date, d)
    case AlwaysTrue => true
  }

  /**
   * The period each key names, stated by day numbers: today only; the
   * seven days ending today; this month up to today; everything; the
   * custom range with both ends included.
   */
  predicate InPeriod(key: string, today: Date, custom: Option<(Date, Date)>, d: Date)
    requires ValidDate(today) && ValidDate(d)
  {
    if key == "period_today" then Ordinal(d) == Ordinal(today)
    else if key == "period_week" then Ordinal(today) - 7 < Ordinal(d) <= Ordinal(today)
    else if key == "period_month" then d.year == today.year && d.month == today.month && Ordinal(d) <= Ordinal(today)
    else if key == "period_all" then true
    else
      && key == "period_custom" && custom.Some?
      && !DateBefore(d, custom.value.0) && !DateBefore(custom.value.1, d)
  }

  /** The condition a filter carries selects exactly the days of its period. */
  lemma PeriodFilterMeaning(key: string, today: Date, user: int, custom: Option<(Date, Date)>, d: Date)
    requires ValidDate(today) && ValidDate(d) && PeriodFilterOf(key, today, user, custom).Ok?
    ensures var f := PeriodFilterOf(key, today, user, custom).value;
      ConditionHolds(f.condition, f.params, d) <==> InPeriod(key, today, custom, d)
  {
    var f := PeriodFilterOf(key, today, user, custom).value;
    if key == "period_today" {
      DateBeforeOrdinal(d, today);
      assert ConditionHolds(f.condition, f.params, d) <==> d == today;
    } else if key == "period_week" {
      SubDaysOrdinal(today, 6);
      var start := SubDays(today, 6).value;
      BetweenMeaning(user, start, today, d);
      DateBeforeOrdinal(d, start);
      DateBeforeOrdinal(today, d);
    } else if key == "period_month" {
      BetweenMeaning(user, FirstOfMonth(today), today, d);
      DateBeforeOrdinal(today, d);
    } else if key == "period_custom" {
      BetweenMeaning(user, custom.value.0, custom.value.1, d);
    }
  }

  /** `date BETWEEN $2 AND $3` holds for the days from `a` to `b`, both included. */
  lemma BetweenMeaning(user: int, a: Date, b: Date, d: Date)
    ensures ConditionHolds(DateBetween(2, 3), [UserParam(user), DateParam(a), DateParam(b)], d)
        <==> !DateBefore(d, a) && !DateBefore(b, d)
  {
  }

  /** The week filter covers exactly seven calendar days, today the last of them. */
  lemma WeekIsSevenDays(today: Date, user: int)
    requires ValidDate(today) && Ordinal(today) > 6
    ensures var f := PeriodFilterOf("period_week", today, user, None).value;
      && f.condition == DateBetween(2, 3)
      && Ordinal(f.params[2].date) - Ordinal(f.params[1].date) == 6
      && f.params[2].date == today
  {
    SubDaysOrdinal(today, 6);
  }

  /**
   * `get_period_info_for_state`: the key and dates stored in the session.
   * A missing key is passed on, so it fails as an unknown key.
   */
  function PeriodInfoForState(period: Option<string>, custom: Option<(Date, Date)>, today: Date, user: int): (r: Result<PeriodFilter, PeriodError>)
    requires ValidDate(today)
    ensures r == Err(CustomNotEntered) <==> period == Some("period_custom") && custom.None?
    ensures r != Err(CustomWithoutDates)
    ensures r.Ok? <==> (
      && period.Some? && IsPeriodKey(period.value)
      && !(period.value == "period_custom" && custom.None?)
      && !(period.value == "period_week" && Ordinal(today) <= 6))
  {
    if period == Some("period_custom") && custom.None? then Err(CustomNotEntered)
    else
      match period
      case None => Err(UnknownPeriodKey)
      case Some(key) => PeriodFilterOf(key, today, user, custom)
  }

  // ---------------------------------------------------------------------
  // The custom range
  // ---------------------------------------------------------------------

  /**
   * `process_custom_period`: the stripped text must split at '-' into
   * exactly two pieces, each a `%d.%m.%Y` date once stripped, and the start
   * may not lie after the end.
   */
  function StatsRange(text: string): (r: Option<(Date, Date)>)
    ensures r.Some? ==>
      && |SplitOn(Strip(text), '-')| == 2
      && ValidDate(r.value.0) && ValidDate(r.value.1)
      && !DateBefore(r.value.1, r.value.0)
  {
    RangeOfPieces(SplitOn(Strip(text), '-'))
  }

  /** The range the pieces of the text cut at '-' denote. */
  function RangeOfPieces(parts: seq<string>): (r: Option<(Date, Date)>)
    ensures r.Some? ==>
      && |parts| == 2
      && ValidDate(r.value.0) && ValidDate(r.value.1)
      && !DateBefore(r.value.1, r.value.0)
  {
    if |parts| != 2 then None
    else
      match ParseDMY(Strip(parts[0]))
      case None => None
      case Some(start) =>
        match ParseDMY(Strip(parts[1]))
        case None => None
        case Some(end) => if DateBefore(end, start) then None else Some((start, end))
  }

  /**
   * A range written the way the prompt asks, "dd.mm.yyyy - dd.mm.yyyy",
   * reads back as its two dates when the start is not after the end (equal
   * dates included), and is refused otherwise.
   */
  lemma StatsRangeOfPrompt(start: Date, end: Date)
    requires ValidDate(start) && ValidDate(end) && start.year >= 1000 && end.year >= 1000
    ensures StatsRange(FormatDMY(start) + " - " + FormatDMY(end))
         == if DateBefore(end, start) then None else Some((start, end))
  {
    var a, b := FormatDMY(start), FormatDMY(end);
    PromptPieces(a, b);
    ParseFormatDMY(start);
    ParseFormatDMY(end);
    RangeOfKnownPieces(SplitOn(Strip(a + " - " + b), '-'), start, end);
  }

  lemma RangeOfKnownPieces(parts: seq<string>, start: Date, end: Date)
    requires |parts| == 2 && ParseDMY(Strip(parts[0])) == Some(start) && ParseDMY(Strip(parts[1])) == Some(end)
    ensures RangeOfPieces(parts) == if DateBefore(end, start) then None else Some((start, end))
  {
  }

  // ---------------------------------------------------------------------
  // Choosing a period in the session
  // ---------------------------------------------------------------------

  /** `handle_stats_period`: one of the four fixed keys is stored and the type menu follows. */
  method ChooseStatsPeriod(session: Session, key: string)
    requires key == "period_today" || key == "period_week" || key == "period_month" || key == "period_all"
    modifies session
    ensures session.period == Some(key) && session.state == ChoosingType
    ensures session.customPeriod == old(session.customPeriod)
    ensures session.oldCategory == old(session.oldCategory) && session.expenseIds == old(session.expenseIds)
    ensures session.expenseId == old(session.expenseId)
  {
    session.period := Some(key);
    session.state := ChoosingType;
  }

  /** `ask_custom_period`: the bot waits for the range. */
  method AskCustomPeriod(session: Session)
    modifies session
    ensures session.state == CustomPeriodInput
    ensures session.period == old(session.period) && session.customPeriod == old(session.customPeriod)
    ensures session.oldCategory == old(session.oldCategory) && session.expenseIds == old(session.expenseIds)
    ensures session.expenseId == old(session.expenseId)
  {
    session.state := CustomPeriodInput;
  }

  /**
   * `process_custom_period` on the session: a range that reads is stored
   * with the `period_custom` key; otherwise nothing changes and the bot
   * keeps waiting for the range.
   */
  method ProcessCustomPeriod(session: Session, text: string) returns (r: Option<(Date, Date)>)
    modifies session
    ensures r == StatsRange(text)
    ensures r.Some? ==>
      && session.customPeriod == r && session.period == Some("period_custom")
      && session.state == ChoosingType
      && session.oldCategory == old(session.oldCategory) && session.expenseIds == old(session.expenseIds)
      && session.expenseId == old(session.expenseId)
    ensures r.None? ==> unchanged(session)
  {
    r := StatsRange(text);
    if r.Some? {
      SetCustomPeriod(session, r.value);
    }
  }

  /** `update_data(custom_period=…, period="period_custom")`, then the type menu's state. */
  method SetCustomPeriod(session: Session, range: (Date, Date))
    modifies session
    ensures session.customPeriod == Some(range) && session.period == Some("period_custom")
    ensures session.state == ChoosingType
    ensures session.oldCategory == old(session.oldCategory) && session.expenseIds == old(session.expenseIds)
    ensures session.expenseId == old(session.expenseId)
  {
    session.customPeriod := Some(range);
    session.period := Some("period_custom");
    session.state := ChoosingType;
  }

  /**
   * A range stored by `process_custom_period` always yields a filter over
   * exactly that range, both ends included.
   */
  lemma StoredRangeFilters(range: (Date, Date), today: Date, user: int)
    requires ValidDate(today)
    ensures var r := PeriodInfoForState(Some("period_custom"), Some(range), today, user);
      && r.Ok?
      && (forall d :: ValidDate(d) ==>
            (ConditionHolds(r.value.condition, r.value.params, d) <==>
             !DateBefore(d, range.0) && !DateBefore(range.1, d)))
  {
    forall d | ValidDate(d)
      ensures var r := PeriodInfoForState(Some("period_custom"), Some(range), today, user);
        ConditionHolds(r.value.condition, r.value.params, d) <==> !DateBefore(d, range.0) && !DateBefore(range.1, d)
    {
      PeriodFilterMeaning("period_custom", today, user, Some(range), d);
    }
  }

  // ---------------------------------------------------------------------
  // Aggregation
  // ---------------------------------------------------------------------

  /** `WHERE user_id = $1 AND <condition>`, in table order. */
  function StatsRows(es: seq<Expense>, user: int, f: PeriodFilter): (r: seq<Expense>)
    ensures forall e :: e in r <==> e in es && e.userId == user && ConditionHolds(f.condition, f.params, e.date)
  {
    if es == [] then []
    else
      (if es[0].userId == user && ConditionHolds(f.condition, f.params, es[0].date) then [es[0]] else [])
      + StatsRows(es[1..], user, f)
  }

  /** The rows a filter selects, grouped by category and sorted by descending sum. */
  function Breakdown(es: seq<Expense>, user: int, f: PeriodFilter): (r: seq<CategoryStat>)
    ensures var rows := StatsRows(es, user, f);
      && Descending(r)
      && StatsTotal(r) == TotalAmount(rows)
      && (forall x :: x in r ==> x.count == CountIn(rows, x.category) && x.total == SumIn(rows, x.category))
      && (forall e :: e in rows ==> exists x :: x in r && x.category == e.category)
  {
    GroupByMeaning(StatsRows(es, user, f));
    GroupBy(StatsRows(es, user, f))
  }

  // ---------------------------------------------------------------------
  // The two listings
  // ---------------------------------------------------------------------

  datatype RegularReport = RegularReport(filter: PeriodFilter, total: int, byCategory: seq<CategoryStat>)

  datatype StatsOutcome =
    /** `period` is missing or empty: "could not determine the period". */
    | NoPeriod
    /** `get_period_info_for_state` raised; the handler has no `except` around it. */
    | Raised(error: PeriodError)
    | Report(report: RegularReport)

  /** `show_regular_stats`: the total and the per-category sums of the period. */
  function RegularStats(es: seq<Expense>, user: int, period: Option<string>, custom: Option<(Date, Date)>, today: Date): (o: StatsOutcome)
    requires ValidDate(today)
    ensures o == NoPeriod <==> period.None? || period == Some("")
    ensures o.Raised? <==> o != NoPeriod && PeriodInfoForState(period, custom, today, user).Err?
    ensures o.Report? ==>
      && o.report.filter == PeriodInfoForState(period, custom, today, user).value
      && o.report.total == TotalAmount(StatsRows(es, user, o.report.filter))
      && o.report.byCategory == Breakdown(es, user, o.report.filter)
  {
    if period.None? || period == Some("") then NoPeriod
    else
      match PeriodInfoForState(period, custom, today, user)
      case Err(e) => Raised(e)
      case Ok(f) => Report(RegularReport(f, TotalAmount(StatsRows(es, user, f)), Breakdown(es, user, f)))
  }

  /** What `show_stats_by_categories` does. */
  datatype CategoryOutcome =
    /** A `ValueError` of the period lookup, answered with its message. */
    | PeriodRefused(error: PeriodError)
    /** The `OverflowError` of a week before 0001-01-07 is not caught: the handler raises. */
    | CategoryRaised
    | Categories(stats: seq<CategoryStat>)

  /**
   * `show_stats_by_categories`: the same grouping with counts. Only a
   * `ValueError` of the period lookup is caught and answered, so there is
   * no separate missing-key check; the date overflow propagates.
   */
  function CategoryStats(es: seq<Expense>, user: int, period: Option<string>, custom: Option<(Date, Date)>, today: Date): (o: CategoryOutcome)
    requires ValidDate(today)
    ensures o.PeriodRefused? <==>
      PeriodInfoForState(period, custom, today, user).Err? && PeriodInfoForState(period, custom, today, user).error != DateOverflow
    ensures o.PeriodRefused? ==> o.error == PeriodInfoForState(period, custom, today, user).error
    ensures o == CategoryRaised <==> PeriodInfoForState(period, custom, today, user) == Err(DateOverflow)
    ensures o.Categories? ==> o.stats == Breakdown(es, user, PeriodInfoForState(period, custom, today, user).value)
  {
    match PeriodInfoForState(period, custom, today, user)
    case Err(DateOverflow) => CategoryRaised
    case Err(e) => PeriodRefused(e)
    case Ok(f) => Categories(Breakdown(es, user, f))
  }

  /**
   * The regular report's total is the sum of its category lines, and both
   * are over exactly the user's rows dated inside the chosen period.
   */
  lemma RegularStatsAddUp(es: seq<Expense>, user: int, period: Option<string>, custom: Option<(Date, Date)>, today: Date)
    requires ValidDate(today) && RegularStats(es, user, period, custom, today).Report?
    ensures var r := RegularStats(es, user, period, custom, today).report;
      && StatsTotal(r.byCategory) == r.total
      && Descending(r.byCategory)
      && (forall e :: e in StatsRows(es, user, r.filter) && ValidDate(e.date) ==>
            e in es && e.userId == user && InPeriod(period.value, today, custom, e.date))
  {
    var r := RegularStats(es, user, period, custom, today).report;
    GroupByMeaning(StatsRows(es, user, r.filter));
    forall e | e in StatsRows(es, user, r.filter) && ValidDate(e.date)
      ensures InPeriod(period.value, today, custom, e.date)
    {
      PeriodFilterMeaning(period.value, today, user, custom, e.date);
    }
  }
}
