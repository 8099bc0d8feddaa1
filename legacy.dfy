/**
 * The bot's earlier single-file version: its expense parser, its deletion
 * of one record at a time, its history listing and its three-period
 * statistics, each set beside the current handler it was replaced by.
 */
module Legacy {
  import opened Wrappers
  import opened Text
  import opened Numbers
  import opened Calendar
  import opened Store
  import opened Fsm
  import opened Grouping
  import ExpenseMain
  import ExpenseHistory
  import ExpenseDelete
  import Stats

  // ---------------------------------------------------------------------
  // Entering an expense
  // ---------------------------------------------------------------------

  /** The range of a C `int`, to which `datetime()` converts its three arguments. */
  const IntMin := -0x8000_0000
  const IntMax := 0x7FFF_FFFF

  predicate FitsCInt(n: int)
  {
    IntMin <= n <= IntMax
  }

  /** Why `process_expense` stores nothing, each with its own reply. */
  datatype LegacyError =
    /** Fewer than two tokens: "нужно указать категорию и сумму". */
    | TooFewParts
    /** A `ValueError`: "Ошибка в формате данных". */
    | BadFormat
    /** Any other exception, here the `OverflowError` of `datetime()`: "непредвиденная ошибка". */
    | Unexpected

  /** Splitting on a separator the text holds gives at least two pieces. */
  lemma {:induction false} SepSplits(s: string, sep: char)
    requires sep in s
    ensures |SplitOn(s, sep)| >= 2
  {
    if s[0] != sep {
      assert sep in s[1..];
      SepSplits(s[1..], sep);
    }
  }

  /**
   * `datetime(year, month, day).date()`: an argument outside the C `int`
   * range raises `OverflowError` before the date is checked; a date that
   * does not exist raises `ValueError`.
   */
  function CDate(y: int, m: int, d: int): (r: Result<Date, LegacyError>)
    ensures r == Err(Unexpected) <==> !(FitsCInt(y) && FitsCInt(m) && FitsCInt(d))
    ensures r.Ok? <==> FitsCInt(y) && FitsCInt(m) && FitsCInt(d) && ValidDate(Date(y, m, d))
    ensures r.Ok? ==> r.value == Date(y, m, d)
  {
    if !(FitsCInt(y) && FitsCInt(m) && FitsCInt(d)) then Err(Unexpected)
    else
      match MakeDate(y, m, d)
      case None => Err(BadFormat)
      case Some(date) => Ok(date)
  }

  /** The year of a date token: its third piece read with `int()`, or the local clock's year. */
  function YearPiece(dp: seq<string>, localYear: int): (r: Option<int>)
    ensures |dp| <= 2 ==> r == Some(localYear)
    ensures |dp| > 2 ==> r == ParseInt(dp[2])
  {
    if |dp| > 2 then ParseInt(dp[2]) else Some(localYear)
  }

  /**
   * The third token cut at its points: day, month and, when there is a
   * third piece, the year, each read with `int()`; any further piece is
   * never looked at. Without a year the local clock's year is used. A
   * piece that is not an integer, or a date that does not exist, is a
   * `ValueError`; only a number outside the C `int` range is unexpected.
   */
  function LegacyDatePieces(dp: seq<string>, localYear: int): (r: Result<Date, LegacyError>)
    requires |dp| >= 2
    ensures r != Err(TooFewParts)
    ensures r.Ok? ==> ValidDate(r.value)
    ensures r.Ok? && |dp| == 2 ==> r.value.year == localYear
    ensures r == Err(Unexpected) <==>
      && ParseInt(dp[0]).Some? && ParseInt(dp[1]).Some? && YearPiece(dp, localYear).Some?
      && !(FitsCInt(ParseInt(dp[0]).value) && FitsCInt(ParseInt(dp[1]).value) && FitsCInt(YearPiece(dp, localYear).value))
    ensures r.Ok? <==>
      && ParseInt(dp[0]).Some? && ParseInt(dp[1]).Some? && YearPiece(dp, localYear).Some?
      && FitsCInt(ParseInt(dp[0]).value) && FitsCInt(ParseInt(dp[1]).value) && FitsCInt(YearPiece(dp, localYear).value)
      && ValidDate(Date(YearPiece(dp, localYear).value, ParseInt(dp[1]).value, ParseInt(dp[0]).value))
    ensures r.Ok? ==> r.value == Date(YearPiece(dp, localYear).value, ParseInt(dp[1]).value, ParseInt(dp[0]).value)
  {
    match ParseInt(dp[0])
    case None => Err(BadFormat)
    case Some(day) =>
      match ParseInt(dp[1])
      case None => Err(BadFormat)
      case Some(month) =>
        match YearPiece(dp, localYear)
        case None => Err(BadFormat)
        case Some(y) => CDate(y, month, day)
  }

  /**
   * The date of a line: read only when the third token holds a '.', today's
   * UTC date otherwise.
   */
  function LegacyDateOf(parts: seq<string>, today: Date, localYear: int): (r: Result<Date, LegacyError>)
    ensures r != Err(TooFewParts)
    ensures r.Ok? && ValidDate(today) ==> ValidDate(r.value)
    ensures |parts| < 3 || '.' !in parts[2] ==> r == Ok(today)
    ensures |parts| >= 3 && '.' in parts[2] ==>
      |SplitOn(parts[2], '.')| >= 2 && r == LegacyDatePieces(SplitOn(parts[2], '.'), localYear)
  {
    if |parts| >= 3 && '.' in parts[2] then
      SepSplits(parts[2], '.');
      LegacyDatePieces(SplitOn(parts[2], '.'), localYear)
    else Ok(today)
  }

  /**
   * The checks of the legacy `process_expense` on the blank-separated
   * tokens: the first token is the category exactly as typed, the amount
   * is read with `float()` after ',' becomes '.', then the date and the
   * time as the current parser reads them. Every `ValueError` on the way
   * is one reply; only the date can raise anything else.
   */
  function LegacyLine(parts: seq<string>, today: Date, localYear: int): (r: Result<ExpenseMain.Draft, LegacyError>)
    ensures r == Err(TooFewParts) <==> |parts| < 2
    ensures |parts| >= 2 ==>
      (r == Err(BadFormat) <==>
        || ParseAmount(ReplaceChar(parts[1], ',', '.')).None?
        || LegacyDateOf(parts, today, localYear) == Err(BadFormat)
        || (LegacyDateOf(parts, today, localYear).Ok? && ExpenseMain.TimeOfTokens(parts).None?))
    ensures r == Err(Unexpected) <==>
      |parts| >= 2 && ParseAmount(ReplaceChar(parts[1], ',', '.')).Some? && LegacyDateOf(parts, today, localYear) == Err(Unexpected)
    ensures r == Err(Unexpected) ==> |parts| >= 3 && '.' in parts[2]
    ensures r.Ok? ==> r.value.category == parts[0]
    ensures r.Ok? ==> ParseAmount(ReplaceChar(parts[1], ',', '.')) == Some(r.value.amount)
    ensures r.Ok? ==> Ok(r.value.date) == LegacyDateOf(parts, today, localYear)
    ensures r.Ok? ==> Some(r.value.time) == ExpenseMain.TimeOfTokens(parts)
    ensures r.Ok? && ValidDate(today) ==> ValidDate(r.value.date)
    ensures r.Ok? && r.value.time.Some? ==> ValidTime(r.value.time.value)
    ensures r.Ok? && |parts| == 2 ==> r.value.date == today && r.value.time == None
  {
    if |parts| < 2 then Err(TooFewParts)
    else
      match ParseAmount(ReplaceChar(parts[1], ',', '.'))
      case None => Err(BadFormat)
      case Some(amount) =>
        match LegacyDateOf(parts, today, localYear)
        case Err(e) => Err(e)
        case Ok(date) =>
          match ExpenseMain.TimeOfTokens(parts)
          case None => Err(BadFormat)
          case Some(time) => Ok(ExpenseMain.Draft(parts[0], amount, date, time))
  }

  /** The whole message is one line: `message.text.split()`. */
  function LegacyParse(text: string, today: Date, localYear: int): (r: Result<ExpenseMain.Draft, LegacyError>)
    ensures r == Err(TooFewParts) <==> |SplitWs(text)| < 2
    ensures var parts := SplitWs(text);
      |parts| >= 2 ==>
        (r == Err(BadFormat) <==>
          || ParseAmount(ReplaceChar(parts[1], ',', '.')).None?
          || LegacyDateOf(parts, today, localYear) == Err(BadFormat)
          || (LegacyDateOf(parts, today, localYear).Ok? && ExpenseMain.TimeOfTokens(parts).None?))
    ensures var parts := SplitWs(text);
      r == Err(Unexpected) <==>
        |parts| >= 2 && ParseAmount(ReplaceChar(parts[1], ',', '.')).Some? && LegacyDateOf(parts, today, localYear) == Err(Unexpected)
    ensures r.Ok? ==> r.value.category == SplitWs(text)[0]
    ensures r.Ok? ==> ParseAmount(ReplaceChar(SplitWs(text)[1], ',', '.')) == Some(r.value.amount)
    ensures r.Ok? ==> Ok(r.value.date) == LegacyDateOf(SplitWs(text), today, localYear)
    ensures r.Ok? ==> Some(r.value.time) == ExpenseMain.TimeOfTokens(SplitWs(text))
  {
    LegacyLine(SplitWs(text), today, localYear)
  }

  /**
   * For a date token of two or three pieces the legacy reading and the
   * current one accept the same tokens and give the same date.
   */
  lemma LegacyDateAgrees(tok: string, localYear: int)
    requires 2 <= |SplitOn(tok, '.')| <= 3
    ensures ExpenseMain.ParseDateToken(tok, localYear).Some? <==> LegacyDatePieces(SplitOn(tok, '.'), localYear).Ok?
    ensures ExpenseMain.ParseDateToken(tok, localYear).Some? ==>
      LegacyDatePieces(SplitOn(tok, '.'), localYear).value == ExpenseMain.ParseDateToken(tok, localYear).value
  {
    var dp := SplitOn(tok, '.');
    if |dp| == 2 {
      DayMonthAgree(tok, localYear);
    } else {
      DayMonthYearAgree(tok, localYear);
    }
  }

  lemma DayMonthAgree(tok: string, localYear: int)
    requires |SplitOn(tok, '.')| == 2
    ensures ExpenseMain.ParseDateToken(tok, localYear).Some? <==> LegacyDatePieces(SplitOn(tok, '.'), localYear).Ok?
    ensures ExpenseMain.ParseDateToken(tok, localYear).Some? ==>
      LegacyDatePieces(SplitOn(tok, '.'), localYear).value == ExpenseMain.ParseDateToken(tok, localYear).value
  {
    var dp := SplitOn(tok, '.');
    var d, m := ParseInt(dp[0]), ParseInt(dp[1]);
    ExpenseMain.DateTokenTwoPieces(tok, localYear);
    LegacyTwoPieces(dp, localYear);
    if d.Some? && m.Some? {
      CDateAgrees(localYear, m.value, d.value);
    }
  }

  lemma LegacyTwoPieces(dp: seq<string>, localYear: int)
    requires |dp| == 2
    ensures LegacyDatePieces(dp, localYear)
      == if ParseInt(dp[0]).Some? && ParseInt(dp[1]).Some? then CDate(localYear, ParseInt(dp[1]).value, ParseInt(dp[0]).value) else Err(BadFormat)
  {
  }

  lemma DayMonthYearAgree(tok: string, localYear: int)
    requires |SplitOn(tok, '.')| == 3
    ensures ExpenseMain.ParseDateToken(tok, localYear).Some? <==> LegacyDatePieces(SplitOn(tok, '.'), localYear).Ok?
    ensures ExpenseMain.ParseDateToken(tok, localYear).Some? ==>
      LegacyDatePieces(SplitOn(tok, '.'), localYear).value == ExpenseMain.ParseDateToken(tok, localYear).value
  {
    var dp := SplitOn(tok, '.');
    var d, m, y := ParseInt(dp[0]), ParseInt(dp[1]), ParseInt(dp[2]);
    ExpenseMain.DateTokenThreePieces(tok, localYear);
    LegacyThreePieces(dp, localYear);
    if d.Some? && m.Some? && y.Some? {
      CDateAgrees(y.value, m.value, d.value);
    }
  }

  lemma LegacyThreePieces(dp: seq<string>, localYear: int)
    requires |dp| == 3
    ensures LegacyDatePieces(dp, localYear)
      == if ParseInt(dp[0]).Some? && ParseInt(dp[1]).Some? && ParseInt(dp[2]).Some?
         then CDate(ParseInt(dp[2]).value, ParseInt(dp[1]).value, ParseInt(dp[0]).value) else Err(BadFormat)
  {
  }

  /** On a date that exists the C conversion never overflows, so `datetime()` agrees with the calendar. */
  lemma CDateAgrees(y: int, m: int, d: int)
    ensures CDate(y, m, d).Ok? <==> MakeDate(y, m, d).Some?
    ensures CDate(y, m, d).Ok? ==> CDate(y, m, d).value == MakeDate(y, m, d).value
  {
    if ValidDate(Date(y, m, d)) {
      assert DaysInMonth(y, m) <= 31;
    }
  }

  /**
   * A fourth piece and any after it are ignored by the legacy reading,
   * while the current parser refuses such a token.
   */
  lemma ExtraDatePiecesIgnored(tok: string, localYear: int)
    requires |SplitOn(tok, '.')| > 3
    ensures ExpenseMain.ParseDateToken(tok, localYear).None?
    ensures LegacyDatePieces(SplitOn(tok, '.'), localYear) == LegacyDatePieces(SplitOn(tok, '.')[..3], localYear)
  {
    var dp := SplitOn(tok, '.');
    var dp3 := dp[..3];
    assert dp3[0] == dp[0] && dp3[1] == dp[1] && dp3[2] == dp[2];
    assert YearPiece(dp3, localYear) == YearPiece(dp, localYear);
    assert LegacyDatePieces(dp, localYear) == LegacyDatePieces(dp3, localYear);
  }

  /** What `process_expense` answers. */
  datatype LegacyReply =
    /** "Назад": back to the main menu. */
    | BackToMenu
    | Rejected(error: LegacyError)
    | Saved(draft: ExpenseMain.Draft)
    /** The INSERT raised `PostgresError`. */
    | SaveFailed

  /**
   * The legacy `process_expense`, in `waiting_for_expense_input`. Only
   * "Назад" leaves the state; after an error or a stored row the bot keeps
   * waiting for the next expense.
   */
  method LegacyProcessExpense(session: Session, db: Database, user: int, text: string, today: Date, localYear: int)
    returns (reply: LegacyReply)
    requires session.state == WaitingForExpenseInput && db.Valid()
    modifies session, db
    ensures db.Valid()
    ensures reply == BackToMenu <==> text == "Назад"
    ensures reply == BackToMenu ==> session.Cleared() && unchanged(db)
    ensures reply != BackToMenu ==> unchanged(session)
    ensures reply.Rejected? ==> LegacyParse(text, today, localYear) == Err(reply.error) && unchanged(db)
    ensures reply.Saved? ==>
      && LegacyParse(text, today, localYear) == Ok(reply.draft)
      && db.expenses == old(db.expenses) + [Expense(old(db.nextId), user, reply.draft.category, reply.draft.amount, reply.draft.date, reply.draft.time)]
    ensures reply == SaveFailed ==>
      && LegacyParse(text, today, localYear).Ok?
      && !Storable(LegacyParse(text, today, localYear).value.category, LegacyParse(text, today, localYear).value.amount)
      && db.expenses == old(db.expenses) && db.registry == old(db.registry) && db.nextId == old(db.nextId)
  {
    if text == "Назад" {
      session.Clear();
      return BackToMenu;
    }
    reply := SaveParsed(db, user, LegacyParse(text, today, localYear));
  }

  /** The reply to a parsed line: an error as it is, a draft inserted. */
  method SaveParsed(db: Database, user: int, parsed: Result<ExpenseMain.Draft, LegacyError>) returns (reply: LegacyReply)
    requires db.Valid()
    modifies db
    ensures db.Valid()
    ensures reply != BackToMenu
    ensures reply.Rejected? <==> parsed.Err?
    ensures reply.Rejected? ==> parsed == Err(reply.error) && unchanged(db)
    ensures reply.Saved? ==>
      && parsed == Ok(reply.draft)
      && db.expenses == old(db.expenses) + [Expense(old(db.nextId), user, reply.draft.category, reply.draft.amount, reply.draft.date, reply.draft.time)]
    ensures reply == SaveFailed ==> parsed.Ok? && !Storable(parsed.value.category, parsed.value.amount)
    ensures reply == SaveFailed ==> db.expenses == old(db.expenses) && db.registry == old(db.registry) && db.nextId == old(db.nextId)
  {
    match parsed
    case Err(e) =>
      reply := Rejected(e);
    case Ok(d) =>
      var ok := db.InsertExpense(user, d.category, d.amount, d.date, d.time);
      if ok {
        reply := Saved(d);
      } else {
        reply := SaveFailed;
      }
  }

  // ---------------------------------------------------------------------
  // Deleting one record
  // ---------------------------------------------------------------------

  /** `SELECT ... FROM expenses WHERE id = $1 AND user_id = $2`, the first row found. */
  function OwnedRow(es: seq<Expense>, user: int, id: int): (r: Option<Expense>)
    ensures r.None? <==> forall e :: e in es ==> !(e.id == id && e.userId == user)
    ensures r.Some? ==> r.value in es && r.value.id == id && r.value.userId == user
  {
    if es == [] then None
    else if es[0].id == id && es[0].userId == user then Some(es[0])
    else
      var r := OwnedRow(es[1..], user, id);
      assert forall e :: e in es ==> e == es[0] || e in es[1..];
      r
  }

  /** What `process_delete_expense` answers to the typed text. */
  datatype DeleteIdReply =
    | IdCancelled
    /** `int()` raised `ValueError`. */
    | NotANumber
    /** "Запись не найдена или не принадлежит вам". */
    | NotFoundOrForeign
    | AskConfirmation(row: Expense)

  function LegacyIdReply(es: seq<Expense>, user: int, text: string): (r: DeleteIdReply)
    ensures r == IdCancelled <==> LowerStr(text) == "отмена"
    ensures r == NotANumber <==> LowerStr(text) != "отмена" && ParseInt(text).None?
    ensures r == NotFoundOrForeign <==>
      && LowerStr(text) != "отмена" && ParseInt(text).Some?
      && forall e :: e in es ==> !(e.id == ParseInt(text).value && e.userId == user)
    ensures r.AskConfirmation? ==> r.row in es && r.row.userId == user && Some(r.row.id) == ParseInt(text)
  {
    if LowerStr(text) == "отмена" then IdCancelled
    else
      match ParseInt(text)
      case None => NotANumber
      case Some(id) =>
        match OwnedRow(es, user, id)
        case None => NotFoundOrForeign
        case Some(e) => AskConfirmation(e)
  }

  /**
   * The legacy `process_delete_expense`, in `waiting_for_delete_id`: the
   * cancel word and an unknown record end the flow, a non-number keeps
   * waiting, and a record of the user's is remembered for confirmation.
   */
  method LegacyProcessDeleteId(session: Session, db: Database, user: int, text: string) returns (r: DeleteIdReply)
    requires session.state == WaitingForDeleteId && db.Valid()
    modifies session
    ensures r == LegacyIdReply(db.expenses, user, text)
    ensures r == IdCancelled || r == NotFoundOrForeign ==> session.Cleared()
    ensures r == NotANumber ==> unchanged(session)
    ensures r.AskConfirmation? ==>
      && session.state == WaitingForDeleteConfirmation && session.expenseId == Some(r.row.id)
      && session.expenseIds == old(session.expenseIds) && session.oldCategory == old(session.oldCategory)
      && session.period == old(session.period) && session.customPeriod == old(session.customPeriod)
    ensures r.AskConfirmation? ==> r.row.id >= 1
  {
    r := LegacyIdReply(db.expenses, user, text);
    if r.AskConfirmation? {
      assert r.row.id >= 1 by {
        var k :| 0 <= k < |db.expenses| && db.expenses[k] == r.row;
      }
    }
    ApplyIdReply(session, r);
  }

  /** The session change each reply makes. */
  method ApplyIdReply(session: Session, r: DeleteIdReply)
    modifies session
    ensures r == IdCancelled || r == NotFoundOrForeign ==> session.Cleared()
    ensures r == NotANumber ==> unchanged(session)
    ensures r.AskConfirmation? ==>
      && session.state == WaitingForDeleteConfirmation && session.expenseId == Some(r.row.id)
      && session.expenseIds == old(session.expenseIds) && session.oldCategory == old(session.oldCategory)
      && session.period == old(session.period) && session.customPeriod == old(session.customPeriod)
  {
    match r
    case IdCancelled => session.Clear();
    case NotFoundOrForeign => session.Clear();
    case NotANumber =>
    case AskConfirmation(row) =>
      AwaitSingleConfirmation(session, row.id);
  }

  /** `update_data(expense_id=…)`, then `waiting_for_delete_confirmation`. */
  method AwaitSingleConfirmation(session: Session, id: int)
    modifies session
    ensures session.expenseId == Some(id) && session.state == WaitingForDeleteConfirmation
    ensures session.expenseIds == old(session.expenseIds) && session.oldCategory == old(session.oldCategory)
    ensures session.period == old(session.period) && session.customPeriod == old(session.customPeriod)
  {
    session.expenseId := Some(id);
    session.state := WaitingForDeleteConfirmation;
  }

  /** The replies that cancel and that confirm, compared after `lower()`. */
  const NoWords: seq<string> := ["нет", "отменить", "нет, отменить"]
  const YesWords: seq<string> := ["да", "удалить", "да, удалить"]

  /** `deleted[-1] == '0'`: the last character of the command tag is a zero. */
  predicate LastCharIsZero(status: string)
  {
    status != [] && status[|status| - 1] == '0'
  }

  /**
   * The last-character test reads the count's last digit: it takes ten
   * deleted rows for none. With one row at most per ID the two agree.
   */
  lemma LastDigitTest(count: nat)
    ensures LastCharIsZero(ExpenseDelete.DeleteStatus(count)) <==> count % 10 == 0
    ensures count <= 1 ==> (LastCharIsZero(ExpenseDelete.DeleteStatus(count)) <==> count == 0)
  {
    var s := ExpenseDelete.DeleteStatus(count);
    var digits := NatDigits(count);
    assert s == "DELETE " + digits;
    assert s[|s| - 1] == digits[|digits| - 1];
    assert digits[|digits| - 1] == DigitChar(count % 10);
    assert DigitValue(DigitChar(count % 10)) == count % 10;
  }

  /** With unique IDs a single ID names one row of the user at most. */
  lemma {:induction false} OneRowPerId(es: seq<Expense>, user: int, id: int)
    requires UniqueIds(es)
    ensures CountOwned(es, user, {id}) <= 1
    ensures CountOwned(es, user, {id}) == 0 <==> forall e :: e in es ==> !(e.id == id && e.userId == user)
  {
    if es != [] {
      var rest := es[1..];
      assert UniqueIds(rest) by {
        forall i, j | 0 <= i < j < |rest|
          ensures rest[i].id != rest[j].id
        {
          assert rest[i] == es[i + 1] && rest[j] == es[j + 1];
        }
      }
      OneRowPerId(rest, user, id);
      forall j | 0 <= j < |rest|
        ensures rest[j].id != es[0].id
      {
        assert rest[j] == es[j + 1];
      }
      assert forall e :: e in es <==> e == es[0] || e in rest;
    }
  }

  /** What `confirm_delete_expense` answers. */
  datatype ConfirmOutcome =
    | ConfirmCancelled
    /** `expense_id` is missing or falsy: "не найден ID записи". */
    | MissingId
    | RecordNotFound
    | RecordDeleted
    /** Neither a yes nor a no: the question is asked again. */
    | AskAgain

  /**
   * The legacy `confirm_delete_expense`, in `waiting_for_delete_confirmation`.
   * Only the listed words act; any of them ends the flow. The not-found
   * reply rests on the last character of the command tag.
   */
  method LegacyConfirmDelete(session: Session, db: Database, user: int, text: string) returns (o: ConfirmOutcome)
    requires session.state == WaitingForDeleteConfirmation && db.Valid()
    modifies session, db
    ensures db.Valid()
    ensures o == ConfirmCancelled <==> LowerStr(text) in NoWords
    ensures o == AskAgain <==> LowerStr(text) !in NoWords && LowerStr(text) !in YesWords
    ensures o == AskAgain ==> unchanged(session) && unchanged(db)
    ensures o != AskAgain ==> session.Cleared()
    ensures o == MissingId <==>
      LowerStr(text) !in NoWords && LowerStr(text) in YesWords && old(session.expenseId) in {None, Some(0)}
    ensures o == ConfirmCancelled || o == MissingId ==> unchanged(db)
    ensures o == RecordNotFound || o == RecordDeleted ==>
      && old(session.expenseId).Some?
      && db.expenses == DeleteExpenseRows(old(db.expenses), user, {old(session.expenseId).value})
      && db.registry == old(db.registry) && db.nextId == old(db.nextId)
      && (o == RecordDeleted <==> exists e :: e in old(db.expenses) && e.id == old(session.expenseId).value && e.userId == user)
  {
    var low := LowerStr(text);
    if low in NoWords {
      o := ConfirmCancelled;
      session.Clear();
    } else if low in YesWords {
      var id := session.expenseId;
      if id == None || id == Some(0) {
        o := MissingId;
      } else {
        OneRowPerId(db.expenses, user, id.value);
        var count := db.DeleteExpenses(user, {id.value});
        LastDigitTest(count);
        o := if LastCharIsZero(ExpenseDelete.DeleteStatus(count)) then RecordNotFound else RecordDeleted;
      }
      session.Clear();
    } else {
      o := AskAgain;
    }
  }

  // ---------------------------------------------------------------------
  // The history listing
  // ---------------------------------------------------------------------

  /**
   * `ORDER BY date DESC, time DESC NULLS LAST, created_at DESC`: `a` is
   * listed before `b`. Among rows of one date, rows with a time come
   * first, latest time first.
   */
  predicate NullsLastBefore(a: Expense, b: Expense)
  {
    if a.date != b.date then DateBefore(b.date, a.date)
    else if a.time != b.time then
      match (a.time, b.time)
      case (Some(x), Some(y)) => ExpenseHistory.TimeBefore(y, x)
      case (Some(_), None) => true
      case _ => false
    else a.id > b.id
  }

  /** The legacy sort key orders rows exactly as the current `(time IS NULL), time DESC` key does. */
  lemma NullsLastIsRecentOrder(a: Expense, b: Expense)
    ensures NullsLastBefore(a, b) <==> ExpenseHistory.RowBefore(a, b)
  {
  }

  /**
   * All the user's rows in the legacy order: a permutation of them in
   * which no row is `NULLS LAST`-before an earlier one.
   */
  function LegacyListing(es: seq<Expense>, user: int): (r: seq<Expense>)
    ensures multiset(r) == multiset(RowsOf(es, user))
    ensures forall i, j :: 0 <= i < j < |r| ==> !NullsLastBefore(r[j], r[i])
  {
    var sorted := ExpenseHistory.SortRecent(RowsOf(es, user));
    forall i, j | 0 <= i < j < |sorted|
      ensures !NullsLastBefore(sorted[j], sorted[i])
    {
      NullsLastIsRecentOrder(sorted[j], sorted[i]);
    }
    sorted
  }

  /**
   * The legacy `show_expenses_page`: the same `total_pages` and offset
   * arithmetic; the page is the run of five rows at offset
   * `(page - 1) * 5` of the user's rows in the legacy order, and the back
   * and forward buttons appear as in the current listing.
   */
  function LegacyExpensesPage(es: seq<Expense>, user: int, page: int): (v: ExpenseHistory.View)
    ensures v == ExpenseHistory.LoadFailed <==> page < 1
    ensures v == ExpenseHistory.NoRows <==> page >= 1 && |RowsOf(es, user)| <= ExpenseHistory.PageOffset(page)
    ensures v.Shown? ==>
      && v.count == |RowsOf(es, user)| && v.totalPages == ExpenseHistory.TotalPages(v.count)
      && v.rows == ExpenseHistory.PageSlice(LegacyListing(es, user), page).value
      && 1 <= |v.rows| <= ExpenseHistory.PerPage
      && (forall e :: e in v.rows ==> e in es && e.userId == user)
      && (forall i, j :: 0 <= i < j < |v.rows| ==> !NullsLastBefore(v.rows[j], v.rows[i]))
      && (v.back <==> page > 1) && (v.forward <==> page < v.totalPages)
  {
    RecentPageInLegacyOrder(es, user, page);
    ExpenseHistory.RecentView(es, user, page)
  }

  lemma RecentPageInLegacyOrder(es: seq<Expense>, user: int, page: int)
    ensures var v := ExpenseHistory.RecentView(es, user, page);
      v.Shown? ==>
        && (forall e :: e in v.rows ==> e in es && e.userId == user)
        && (forall i, j :: 0 <= i < j < |v.rows| ==> !NullsLastBefore(v.rows[j], v.rows[i]))
  {
    var v := ExpenseHistory.RecentView(es, user, page);
    if v.Shown? {
      var sorted := ExpenseHistory.SortRecent(RowsOf(es, user));
      SortedRowsOwn(sorted, es, user);
      SortedPageInLegacyOrder(sorted, page, es, user);
    }
  }

  lemma SortedPageInLegacyOrder(sorted: seq<Expense>, page: int, es: seq<Expense>, user: int)
    requires page >= 1
    requires ExpenseHistory.InRecentOrder(sorted)
    requires forall e :: e in sorted ==> e in es && e.userId == user
    ensures var rows := ExpenseHistory.PageSlice(sorted, page).value;
      && (forall e :: e in rows ==> e in es && e.userId == user)
      && (forall i, j :: 0 <= i < j < |rows| ==> !NullsLastBefore(rows[j], rows[i]))
  {
    var rows := ExpenseHistory.PageSlice(sorted, page).value;
    var off := ExpenseHistory.PageOffset(page);
    SliceWithinRows(sorted, page);
    if rows != [] {
      PageRowsOwn(rows, sorted, off, es, user);
      PageRowsOrdered(rows, sorted, off);
    }
  }

  /** A non-empty page is the run of rows that starts at its offset. */
  lemma SliceWithinRows<T>(rows: seq<T>, page: int)
    requires page >= 1
    ensures var off, r := ExpenseHistory.PageOffset(page), ExpenseHistory.PageSlice(rows, page).value;
      r != [] ==>
        && 0 <= off && off + |r| <= |rows|
        && forall k :: 0 <= k < |r| ==> r[k] == rows[off + k]
  {
  }

  lemma PageRowsOwn(rows: seq<Expense>, sorted: seq<Expense>, off: int, es: seq<Expense>, user: int)
    requires 0 <= off && off + |rows| <= |sorted|
    requires forall k :: 0 <= k < |rows| ==> rows[k] == sorted[off + k]
    requires forall e :: e in sorted ==> e in es && e.userId == user
    ensures forall e :: e in rows ==> e in es && e.userId == user
  {
    forall e | e in rows
      ensures e in es && e.userId == user
    {
      var k :| 0 <= k < |rows| && rows[k] == e;
      assert sorted[off + k] in sorted;
    }
  }

  lemma SortedRowsOwn(sorted: seq<Expense>, es: seq<Expense>, user: int)
    requires multiset(sorted) == multiset(RowsOf(es, user))
    ensures forall e :: e in sorted ==> e in es && e.userId == user
  {
    forall e | e in sorted
      ensures e in es && e.userId == user
    {
      assert e in multiset(RowsOf(es, user));
    }
  }

  lemma PageRowsOrdered(rows: seq<Expense>, sorted: seq<Expense>, off: int)
    requires 0 <= off && off + |rows| <= |sorted|
    requires forall k :: 0 <= k < |rows| ==> rows[k] == sorted[off + k]
    requires ExpenseHistory.InRecentOrder(sorted)
    ensures forall i, j :: 0 <= i < j < |rows| ==> !NullsLastBefore(rows[j], rows[i])
  {
    forall i, j | 0 <= i < j < |rows|
      ensures !NullsLastBefore(rows[j], rows[i])
    {
      NullsLastIsRecentOrder(rows[j], rows[i]);
      assert rows[i] == sorted[off + i] && rows[j] == sorted[off + j];
    }
  }

  // ---------------------------------------------------------------------
  // Statistics
  // ---------------------------------------------------------------------

  /** The three reply-keyboard buttons `handle_stats_period` answers. */
  predicate IsStatsButton(button: string)
  {
    button == "За сегодня" || button == "За неделю" || button == "За месяц"
  }

  /** The key of the current statistics menu that names the same period. */
  function CurrentKey(button: string): (key: string)
    ensures Stats.IsPeriodKey(key) && key != "period_all" && key != "period_custom"
  {
    if button == "За сегодня" then "period_today"
    else if button == "За неделю" then "period_week"
    else "period_month"
  }

  /**
   * The condition and parameters of `handle_stats_period`; any button other
   * than the first two is read as the month. Going back six days from the
   * first days of year 1 raises `OverflowError`.
   */
  function LegacyPeriodFilter(button: string, today: Date, user: int): (r: Option<Stats.PeriodFilter>)
    requires ValidDate(today)
    ensures r.None? <==> button == "За неделю" && Ordinal(today) <= 6
    ensures button == "За сегодня" ==>
      && r.Some? && r.value.condition == Stats.DateEquals(2)
      && r.value.params == [ExpenseHistory.UserParam(user), ExpenseHistory.DateParam(today)]
    ensures r.Some? && button == "За неделю" ==>
      && r.value.condition == Stats.DateBetween(2, 3) && |r.value.params| == 3
      && r.value.params[1].DateParam? && ValidDate(r.value.params[1].date)
      && Ordinal(r.value.params[1].date) == Ordinal(today) - 6
      && r.value.params[2] == ExpenseHistory.DateParam(today)
    ensures r.Some? && button != "За сегодня" && button != "За неделю" ==>
      && r.value.condition == Stats.DateBetween(2, 3) && |r.value.params| == 3
      && r.value.params[1] == ExpenseHistory.DateParam(Date(today.year, today.month, 1))
      && r.value.params[2] == ExpenseHistory.DateParam(today)
  {
    SubDaysOrdinal(today, 6);
    if button == "За сегодня" then
      Some(Stats.PeriodFilter(Stats.DateEquals(2), [ExpenseHistory.UserParam(user), ExpenseHistory.DateParam(today)],
        Stats.Words("за сегодня"), Stats.OneDay(today)))
    else if button == "За неделю" then
      match SubDays(today, 6)
      case None => None
      case Some(start) =>
        Some(Stats.PeriodFilter(Stats.DateBetween(2, 3),
          [ExpenseHistory.UserParam(user), ExpenseHistory.DateParam(start), ExpenseHistory.DateParam(today)],
          Stats.Words("за неделю"), Stats.DaySpan(start, today)))
    else
      var start := Date(today.year, today.month, 1);
      Some(Stats.PeriodFilter(Stats.DateBetween(2, 3),
        [ExpenseHistory.UserParam(user), ExpenseHistory.DateParam(start), ExpenseHistory.DateParam(today)],
        Stats.Words("за месяц"), Stats.DaySpan(start, today)))
  }

  /**
   * The legacy periods are the current ones: the same condition and the
   * same parameters as the matching key of `get_period_filter`, failing
   * exactly where it fails.
   */
  lemma LegacyPeriodsAreCurrent(button: string, today: Date, user: int)
    requires ValidDate(today)
    ensures var f := Stats.PeriodFilterOf(CurrentKey(button), today, user, None);
      && (LegacyPeriodFilter(button, today, user).None? <==> f.Err?)
      && (f.Ok? ==>
            LegacyPeriodFilter(button, today, user).value.condition == f.value.condition
            && LegacyPeriodFilter(button, today, user).value.params == f.value.params)
  {
    SubDaysOrdinal(today, 6);
  }

  /** Each legacy period selects exactly the days the current key of that period names. */
  lemma LegacyPeriodMeaning(button: string, today: Date, user: int, d: Date)
    requires ValidDate(today) && ValidDate(d) && LegacyPeriodFilter(button, today, user).Some?
    ensures var f := LegacyPeriodFilter(button, today, user).value;
      Stats.ConditionHolds(f.condition, f.params, d) <==> Stats.InPeriod(CurrentKey(button), today, None, d)
  {
    LegacyPeriodsAreCurrent(button, today, user);
    Stats.PeriodFilterMeaning(CurrentKey(button), today, user, None, d);
  }

  datatype LegacyStatsReply =
    /** An exception: "Не удалось загрузить статистику". */
    | StatsFailed
    | StatsShown(filter: Stats.PeriodFilter, total: int, byCategory: seq<CategoryStat>)

  /**
   * `handle_stats_period` with the database's date: the total and the
   * per-category sums of the period, largest first.
   */
  function LegacyStats(es: seq<Expense>, user: int, button: string, today: Date): (r: LegacyStatsReply)
    requires ValidDate(today)
    ensures r == StatsFailed <==> LegacyPeriodFilter(button, today, user).None?
    ensures r.StatsShown? ==>
      && r.filter == LegacyPeriodFilter(button, today, user).value
      && r.total == TotalAmount(Stats.StatsRows(es, user, r.filter))
      && r.byCategory == Stats.Breakdown(es, user, r.filter)
  {
    match LegacyPeriodFilter(button, today, user)
    case None => StatsFailed
    case Some(f) => StatsShown(f, TotalAmount(Stats.StatsRows(es, user, f)), Stats.Breakdown(es, user, f))
  }

  /**
   * The category lines add up to the total, come largest first, and count
   * only the user's rows dated inside the period.
   */
  lemma LegacyStatsAddUp(es: seq<Expense>, user: int, button: string, today: Date)
    requires ValidDate(today) && LegacyStats(es, user, button, today).StatsShown?
    ensures var r := LegacyStats(es, user, button, today);
      && StatsTotal(r.byCategory) == r.total
      && Descending(r.byCategory)
      && (forall e :: e in Stats.StatsRows(es, user, r.filter) && ValidDate(e.date) ==>
            e in es && e.userId == user && Stats.InPeriod(CurrentKey(button), today, None, e.date))
  {
    var r := LegacyStats(es, user, button, today);
    GroupByMeaning(Stats.StatsRows(es, user, r.filter));
    forall e | e in Stats.StatsRows(es, user, r.filter) && ValidDate(e.date)
      ensures Stats.InPeriod(CurrentKey(button), today, None, e.date)
    {
      LegacyPeriodMeaning(button, today, user, e.date);
    }
  }
}
