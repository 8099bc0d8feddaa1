/**
 * Entering expenses: a message of one or more lines
 * `<category> <amount> [<dd.mm[.yyyy]>] [<hh:mm>]`, each line checked on its
 * own, the good ones stored and the bad ones reported with a reason.
 */
module ExpenseMain {
  import opened Wrappers
  import opened Text
  import opened Numbers
  import opened Calendar
  import opened Store
  import opened Category

  /** Why a line was rejected; the bot reports each with its own message. */
  datatype Reason = InsufficientData | CategoryNotFound | InvalidAmount | InvalidDateOrTime | SaveFailed

  /** A line that passed every check, ready to be stored. */
  datatype Draft = Draft(category: string, amount: int, date: Date, time: Option<Time>)

  /** The first of `available` that equals `token` once both are lower-cased. */
  function MatchCategory(available: seq<string>, token: string): (r: Option<string>)
    ensures r.Some? <==> ExistsCaseless(available, token)
    ensures r.Some? ==> r.value in available && LowerStr(r.value) == LowerStr(token)
  {
    if available == [] then None
    else if LowerStr(available[0]) == LowerStr(token) then Some(available[0])
    else
      var r := MatchCategory(available[1..], token);
      assert ExistsCaseless(available, token) ==> ExistsCaseless(available[1..], token) by {
        if ExistsCaseless(available, token) {
          var i :| 0 <= i < |available| && LowerStr(available[i]) == LowerStr(token);
          assert available[1..][i - 1] == available[i];
        }
      }
      r
  }

  /** Matching in a concatenation looks at the first part first. */
  lemma {:induction false} MatchConcat(a: seq<string>, b: seq<string>, token: string)
    ensures MatchCategory(a + b, token)
         == if MatchCategory(a, token).Some? then MatchCategory(a, token) else MatchCategory(b, token)
  {
    if a != [] {
      assert (a + b)[1..] == a[1..] + b;
      MatchConcat(a[1..], b, token);
    } else {
      assert a + b == b;
    }
  }

  /**
   * Which list wins when a custom name and a predefined name are equal up to
   * case: the administrator's own name, everybody else's predefined one.
   */
  lemma MatchAvailable(custom: seq<string>, isAdmin: bool, token: string)
    ensures isAdmin ==>
      MatchCategory(AvailableCategories(custom, true), token)
      == if MatchCategory(custom, token).Some? then MatchCategory(custom, token) else MatchCategory(Predefined, token)
    ensures !isAdmin ==>
      MatchCategory(AvailableCategories(custom, false), token)
      == if MatchCategory(Predefined, token).Some? then MatchCategory(Predefined, token) else MatchCategory(custom, token)
  {
    MatchConcat(custom, Predefined, token);
    MatchConcat(Predefined, custom, token);
  }

  /** A token of `split()` holds no blank, so a name with a blank in it is never matched. */
  lemma BlankNameNeverMatched(available: seq<string>, token: string, name: string)
    requires !HasSpace(token) && HasSpace(name)
    ensures MatchCategory(available, token) != Some(name)
  {
  }

  /** "Связь и интернет" cannot be chosen by typing it. */
  lemma MultiWordPredefinedUnreachable(available: seq<string>, line: string)
    ensures forall k :: 0 <= k < |SplitWs(line)| ==> MatchCategory(available, SplitWs(line)[k]) != Some(Predefined[2])
  {
    assert IsSpace(Predefined[2][5]);
    forall k | 0 <= k < |SplitWs(line)|
      ensures MatchCategory(available, SplitWs(line)[k]) != Some(Predefined[2])
    {
      BlankNameNeverMatched(available, SplitWs(line)[k], Predefined[2]);
    }
  }

  /**
   * The third token of a line: `d.m` in the year the local clock shows, or
   * `d.m.y`; each part read with `int()`, the date checked by `datetime()`.
   */
  function ParseDateToken(tok: string, localYear: int): (r: Option<Date>)
    ensures r.Some? ==> ValidDate(r.value)
    ensures r.Some? && |SplitOn(tok, '.')| == 2 ==> r.value.year == localYear
    ensures r.Some? ==> 2 <= |SplitOn(tok, '.')| <= 3
  {
    var dp := SplitOn(tok, '.');
    if |dp| == 2 then
      match (ParseInt(dp[0]), ParseInt(dp[1]))
      case (Some(d), Some(m)) => MakeDate(localYear, m, d)
      case _ => None
    else if |dp| == 3 then
      match (ParseInt(dp[0]), ParseInt(dp[1]), ParseInt(dp[2]))
      case (Some(d), Some(m), Some(y)) => MakeDate(y, m, d)
      case _ => None
    else None
  }

  /**
   * One line of the message, cut into blank-separated tokens. The date
   * defaults to today's date on the UTC clock and the time to none.
   */
  function ParseLine(line: string, available: seq<string>, today: Date, localYear: int): (r: Result<Draft, Reason>)
    ensures r == Err(InsufficientData) <==> |SplitWs(line)| < 2
    ensures var parts := SplitWs(line);
      |parts| >= 2 ==> (r == Err(CategoryNotFound) <==> !ExistsCaseless(available, parts[0]))
    ensures var parts := SplitWs(line);
      |parts| >= 2 ==>
        (r == Err(InvalidAmount) <==> ExistsCaseless(available, parts[0]) && ParseAmount(ReplaceChar(parts[1], ',', '.')).None?)
    ensures var parts := SplitWs(line);
      |parts| >= 2 ==>
        (r == Err(InvalidDateOrTime) <==>
          && ExistsCaseless(available, parts[0]) && ParseAmount(ReplaceChar(parts[1], ',', '.')).Some?
          && (DateOfTokens(parts, today, localYear).None? || TimeOfTokens(parts).None?))
    ensures r != Err(SaveFailed)
    ensures r.Ok? ==> r.value.category in available && LowerStr(r.value.category) == LowerStr(SplitWs(line)[0])
    ensures r.Ok? ==> r.value.category == MatchCategory(available, SplitWs(line)[0]).value
    ensures r.Ok? ==> ParseAmount(ReplaceChar(SplitWs(line)[1], ',', '.')) == Some(r.value.amount)
    ensures r.Ok? ==> Some(r.value.date) == DateOfTokens(SplitWs(line), today, localYear)
    ensures r.Ok? ==> Some(r.value.time) == TimeOfTokens(SplitWs(line))
    ensures r.Ok? && ValidDate(today) ==> ValidDate(r.value.date)
    ensures r.Ok? && r.value.time.Some? ==> ValidTime(r.value.time.value)
    ensures r.Ok? && |SplitWs(line)| == 2 ==> r.value.date == today && r.value.time == None
  {
    LineOfTokens(SplitWs(line), available, today, localYear)
  }

  /**
   * The checks of one line in the order the handler makes them: at least
   * two tokens, a known category, an amount, then the date and the time;
   * the first that fails names the reason.
   */
  function LineOfTokens(parts: seq<string>, available: seq<string>, today: Date, localYear: int): (r: Result<Draft, Reason>)
    ensures r == Err(InsufficientData) <==> |parts| < 2
    ensures |parts| >= 2 ==> (r == Err(CategoryNotFound) <==> !ExistsCaseless(available, parts[0]))
    ensures |parts| >= 2 ==>
      (r == Err(InvalidAmount) <==> ExistsCaseless(available, parts[0]) && ParseAmount(ReplaceChar(parts[1], ',', '.')).None?)
    ensures |parts| >= 2 ==>
      (r == Err(InvalidDateOrTime) <==>
        && ExistsCaseless(available, parts[0]) && ParseAmount(ReplaceChar(parts[1], ',', '.')).Some?
        && (DateOfTokens(parts, today, localYear).None? || TimeOfTokens(parts).None?))
    ensures r != Err(SaveFailed)
    ensures r.Ok? ==> r.value.category in available && LowerStr(r.value.category) == LowerStr(parts[0])
    ensures r.Ok? ==> r.value.category == MatchCategory(available, parts[0]).value
    ensures r.Ok? ==> ParseAmount(ReplaceChar(parts[1], ',', '.')) == Some(r.value.amount)
    ensures r.Ok? ==> Some(r.value.date) == DateOfTokens(parts, today, localYear)
    ensures r.Ok? ==> Some(r.value.time) == TimeOfTokens(parts)
    ensures r.Ok? && ValidDate(today) ==> ValidDate(r.value.date)
    ensures r.Ok? && r.value.time.Some? ==> ValidTime(r.value.time.value)
    ensures r.Ok? && |parts| == 2 ==> r.value.date == today && r.value.time == None
  {
    if |parts| < 2 then Err(InsufficientData)
    else
      match MatchCategory(available, parts[0])
      case None => Err(CategoryNotFound)
      case Some(cat) =>
        match ParseAmount(ReplaceChar(parts[1], ',', '.'))
        case None => Err(InvalidAmount)
        case Some(amount) =>
          var date := DateOfTokens(parts, today, localYear);
          var time := TimeOfTokens(parts);
          if date.None? || time.None? then Err(InvalidDateOrTime)
          else Ok(Draft(cat, amount, date.value, time.value))
  }

  /**
   * The date of a line: read only when the third token holds a '.';
   * otherwise, the token is ignored and the date is today's.
   */
  function DateOfTokens(parts: seq<string>, today: Date, localYear: int): (r: Option<Date>)
    ensures r.Some? && ValidDate(today) ==> ValidDate(r.value)
    ensures |parts| < 3 || '.' !in parts[2] ==> r == Some(today)
    ensures |parts| >= 3 && '.' in parts[2] ==> r == ParseDateToken(parts[2], localYear)
  {
    if |parts| >= 3 && '.' in parts[2] then ParseDateToken(parts[2], localYear) else Some(today)
  }

  /**
   * The time of a line: read with `%H:%M` only when the fourth token holds
   * a ':'; `None` when that reading fails, `Some(None)` when there is no
   * time to read.
   */
  function TimeOfTokens(parts: seq<string>): (r: Option<Option<Time>>)
    ensures r.Some? && r.value.Some? ==> ValidTime(r.value.value)
    ensures |parts| < 4 || ':' !in parts[3] ==> r == Some(None)
    ensures |parts| >= 4 && ':' in parts[3] ==> (r.None? <==> ParseHM(parts[3]).None?)
    ensures |parts| >= 4 && ':' in parts[3] && r.Some? ==> r.value == ParseHM(parts[3])
  {
    if |parts| >= 4 && ':' in parts[3] then
      match ParseHM(parts[3])
      case Some(t) => Some(Some(t))
      case None => None
    else Some(None)
  }

  /** The line as the bot would print an expense, fields separated by single blanks. */
  function ExpenseLine(cat: string, amount: int, date: Date, time: Time): string
    requires ValidDate(date) && date.year >= 1000 && ValidTime(time)
  {
    Join(' ', [cat, FormatAmount(amount), FormatDMY(date), FormatHM(time)])
  }

  /** Every character of `s` is a digit, '-' or '.', so none is blank. */
  predicate NumericChars(s: string)
  {
    forall i :: 0 <= i < |s| ==> IsDigit(s[i]) || s[i] == '-' || s[i] == '.' || s[i] == ':'
  }

  lemma NumericIsWord(s: string)
    requires s != [] && NumericChars(s)
    ensures IsWord(s)
  {
  }

  lemma AmountIsNumeric(k: int)
    ensures NumericChars(FormatAmount(k)) && FormatAmount(k) != [] && ',' !in FormatAmount(k)
  {
    var m: nat := if k < 0 then -k else k;
    var w := NatDigits(m / 100);
    assert forall i :: 0 <= i < |w| ==> IsDigit(w[i]);
  }

  lemma TwoDigitsNumeric(s: string, t: string, sep: char)
    requires AllDigits(s) && AllDigits(t) && (sep == '.' || sep == ':')
    ensures NumericChars(s + [sep] + t)
  {
  }

  lemma NoCommaReplace(s: string)
    requires ',' !in s
    ensures ReplaceChar(s, ',', '.') == s
  {
  }

  lemma ParseDateTokenOfFormat(d: Date, localYear: int)
    requires ValidDate(d) && d.year >= 1000
    ensures ParseDateToken(FormatDMY(d), localYear) == Some(d)
  {
    var dd, mm, yy := Pad2(d.day), Pad2(d.month), Pad4(d.year);
    DigitsHaveNoChar(dd, '.');
    DigitsHaveNoChar(mm, '.');
    DigitsHaveNoChar(yy, '.');
    SplitThree(dd, mm, yy, '.');
    assert FormatDMY(d) == dd + ['.'] + mm + ['.'] + yy;
    DateTokenOfPieces(FormatDMY(d), dd, mm, yy, localYear);
  }

  /** A token of three dot-separated numbers reads as the date they name. */
  lemma DateTokenOfPieces(tok: string, dd: string, mm: string, yy: string, localYear: int)
    requires SplitOn(tok, '.') == [dd, mm, yy]
    requires ParseInt(dd).Some? && ParseInt(mm).Some? && ParseInt(yy).Some?
    ensures ParseDateToken(tok, localYear) == MakeDate(ParseInt(yy).value, ParseInt(mm).value, ParseInt(dd).value)
  {
    DateTokenThreePieces(tok, localYear);
  }

  /** What `ParseDateToken` makes of a day and a month. */
  lemma DateTokenTwoPieces(tok: string, localYear: int)
    requires |SplitOn(tok, '.')| == 2
    ensures var dp := SplitOn(tok, '.');
      ParseDateToken(tok, localYear)
      == if ParseInt(dp[0]).Some? && ParseInt(dp[1]).Some? then MakeDate(localYear, ParseInt(dp[1]).value, ParseInt(dp[0]).value) else None
  {
  }

  /** What `ParseDateToken` makes of a day, a month and a year. */
  lemma DateTokenThreePieces(tok: string, localYear: int)
    requires |SplitOn(tok, '.')| == 3
    ensures var dp := SplitOn(tok, '.');
      ParseDateToken(tok, localYear)
      == if ParseInt(dp[0]).Some? && ParseInt(dp[1]).Some? && ParseInt(dp[2]).Some?
         then MakeDate(ParseInt(dp[2]).value, ParseInt(dp[1]).value, ParseInt(dp[0]).value) else None
  {
  }

  /** The words of a printed expense line: four blank-free, non-empty tokens. */
  lemma ExpenseLineWords(cat: string, amount: int, date: Date, time: Time)
    requires IsWord(cat) && ValidDate(date) && date.year >= 1000 && ValidTime(time)
    ensures SplitWs(ExpenseLine(cat, amount, date, time)) == [cat, FormatAmount(amount), FormatDMY(date), FormatHM(time)]
  {
    var a, d, t := FormatAmount(amount), FormatDMY(date), FormatHM(time);
    AmountIsNumeric(amount);
    NumericIsWord(a);
    assert d == (Pad2(date.day) + "." + Pad2(date.month)) + "." + Pad4(date.year);
    assert NumericChars(d);
    NumericIsWord(d);
    TwoDigitsNumeric(Pad2(time.hour), Pad2(time.minute), ':');
    assert t == Pad2(time.hour) + [':'] + Pad2(time.minute);
    NumericIsWord(t);
    var ws := [cat, a, d, t];
    assert AllWords(ws) by {
      var w4, w3, w2 := [t], [d, t], [a, d, t];
      assert w4[1..] == [];
      assert AllWords(w4);
      assert w3[1..] == w4;
      assert AllWords(w3);
      assert w2[1..] == w3;
      assert AllWords(w2);
      assert ws[1..] == w2;
    }
    SplitWsJoin(ws);
  }

  /**
   * A line written the way the bot prints an expense is read back as that
   * expense, whatever the clocks show, provided its category is the first
   * available name it matches.
   */
  lemma ParseExpenseLine(cat: string, available: seq<string>, amount: int, date: Date, time: Time, today: Date, localYear: int)
    requires IsWord(cat) && MatchCategory(available, cat) == Some(cat)
    requires ValidDate(date) && date.year >= 1000 && ValidTime(time)
    ensures ParseLine(ExpenseLine(cat, amount, date, time), available, today, localYear) == Ok(Draft(cat, amount, date, Some(time)))
  {
    ExpenseLineWords(cat, amount, date, time);
    AmountTokenRead(amount);
    DateTokenRead(date, localYear);
    TimeTokenRead(time);
    ParseLineOfFields(ExpenseLine(cat, amount, date, time), available, today, localYear,
                      cat, FormatAmount(amount), FormatDMY(date), FormatHM(time), amount, date, time);
  }

  lemma AmountTokenRead(amount: int)
    ensures ParseAmount(ReplaceChar(FormatAmount(amount), ',', '.')) == Some(amount)
  {
    AmountIsNumeric(amount);
    NoCommaReplace(FormatAmount(amount));
    ParseFormatAmount(amount);
  }

  lemma DateTokenRead(date: Date, localYear: int)
    requires ValidDate(date) && date.year >= 1000
    ensures '.' in FormatDMY(date) && ParseDateToken(FormatDMY(date), localYear) == Some(date)
  {
    assert FormatDMY(date)[2] == '.';
    ParseDateTokenOfFormat(date, localYear);
  }

  lemma TimeTokenRead(time: Time)
    requires ValidTime(time)
    ensures ':' in FormatHM(time) && ParseHM(FormatHM(time)) == Some(time)
  {
    assert FormatHM(time)[2] == ':';
    ParseFormatHM(time);
  }

  lemma ParseLineOfFields(line: string, available: seq<string>, today: Date, localYear: int,
                          cat: string, a: string, d: string, t: string, amount: int, date: Date, time: Time)
    requires SplitWs(line) == [cat, a, d, t] && MatchCategory(available, cat) == Some(cat)
    requires ParseAmount(ReplaceChar(a, ',', '.')) == Some(amount)
    requires '.' in d && ParseDateToken(d, localYear) == Some(date)
    requires ':' in t && ParseHM(t) == Some(time)
    ensures ParseLine(line, available, today, localYear) == Ok(Draft(cat, amount, date, Some(time)))
  {
    var parts := [cat, a, d, t];
    DateOfTokensRead(parts, today, localYear);
    TimeOfTokensRead(parts);
    LineOfTokensOk(parts, available, today, localYear, amount, date, time);
  }

  lemma DateOfTokensRead(parts: seq<string>, today: Date, localYear: int)
    requires |parts| >= 3 && '.' in parts[2]
    ensures DateOfTokens(parts, today, localYear) == ParseDateToken(parts[2], localYear)
  {
  }

  lemma TimeOfTokensRead(parts: seq<string>)
    requires |parts| >= 4 && ':' in parts[3] && ParseHM(parts[3]).Some?
    ensures TimeOfTokens(parts) == Some(ParseHM(parts[3]))
  {
  }

  lemma LineOfTokensOk(parts: seq<string>, available: seq<string>, today: Date, localYear: int,
                       amount: int, date: Date, time: Time)
    requires |parts| >= 2 && MatchCategory(available, parts[0]) == Some(parts[0])
    requires ParseAmount(ReplaceChar(parts[1], ',', '.')) == Some(amount)
    requires DateOfTokens(parts, today, localYear) == Some(date)
    requires TimeOfTokens(parts) == Some(Some(time))
    ensures LineOfTokens(parts, available, today, localYear) == Ok(Draft(parts[0], amount, date, Some(time)))
  {
  }

  /** A line that parsed may still be refused by the table's column limits. */
  function LineOutcome(line: string, available: seq<string>, today: Date, localYear: int): (r: Result<Draft, Reason>)
    ensures r.Ok? ==> Storable(r.value.category, r.value.amount)
    ensures var p := ParseLine(line, available, today, localYear);
      && (p.Err? ==> r == p)
      && (p.Ok? && Storable(p.value.category, p.value.amount) ==> r == p)
      && (p.Ok? && !Storable(p.value.category, p.value.amount) ==> r == Err(SaveFailed))
  {
    match ParseLine(line, available, today, localYear)
    case Ok(d) => if Storable(d.category, d.amount) then Ok(d) else Err(SaveFailed)
    case Err(e) => Err(e)
  }

  /** The lines of a message: `text.strip().split('\n')`; never empty. */
  function Lines(text: string): (lines: seq<string>)
    ensures |lines| >= 1
  {
    SplitOn(Strip(text), '\n')
  }

  /** The outcome of every line, in message order. */
  function Outcomes(lines: seq<string>, available: seq<string>, today: Date, localYear: int): (outs: seq<Result<Draft, Reason>>)
    ensures |outs| == |lines|
  {
    if lines == [] then []
    else
      var n := |lines| - 1;
      Outcomes(lines[..n], available, today, localYear) + [LineOutcome(lines[n], available, today, localYear)]
  }

  /** The drafts of the accepted lines, in message order. */
  function Accepted(outs: seq<Result<Draft, Reason>>): (ds: seq<Draft>)
    ensures |ds| <= |outs|
  {
    if outs == [] then []
    else
      var last := outs[|outs| - 1];
      Accepted(outs[..|outs| - 1]) + (if last.Ok? then [last.value] else [])
  }

  /** The rejected lines with their reasons, in message order. */
  function Failures(lines: seq<string>, outs: seq<Result<Draft, Reason>>): (fs: seq<(string, Reason)>)
    requires |lines| == |outs|
    ensures |fs| <= |outs|
  {
    if outs == [] then []
    else
      var n := |outs| - 1;
      Failures(lines[..n], outs[..n]) + (if outs[n].Err? then [(lines[n], outs[n].error)] else [])
  }

  /** The table `base` with the drafts appended as rows of `user`, numbered from `firstId` on. */
  function AppendRows(base: seq<Expense>, firstId: int, user: int, ds: seq<Draft>): (rows: seq<Expense>)
    ensures |rows| == |base| + |ds|
    ensures forall i :: 0 <= i < |base| ==> rows[i] == base[i]
    ensures forall i :: 0 <= i < |ds| ==>
      rows[|base| + i] == Expense(firstId + i, user, ds[i].category, ds[i].amount, ds[i].date, ds[i].time)
  {
    if ds == [] then base
    else
      var n := |ds| - 1;
      var d := ds[n];
      AppendRows(base, firstId, user, ds[..n]) + [Expense(firstId + n, user, d.category, d.amount, d.date, d.time)]
  }

  /** Taking one more line adds its outcome to the accepted drafts or to the failures. */
  lemma OutcomeStep(lines: seq<string>, i: int, available: seq<string>, today: Date, localYear: int)
    requires 0 <= i < |lines|
    ensures var o := LineOutcome(lines[i], available, today, localYear);
      var before := Outcomes(lines[..i], available, today, localYear);
      var after := Outcomes(lines[..i + 1], available, today, localYear);
      && (o.Ok? ==> Accepted(after) == Accepted(before) + [o.value])
      && (o.Ok? ==> Failures(lines[..i + 1], after) == Failures(lines[..i], before))
      && (o.Err? ==> Accepted(after) == Accepted(before))
      && (o.Err? ==> Failures(lines[..i + 1], after) == Failures(lines[..i], before) + [(lines[i], o.error)])
  {
    var prefix := lines[..i + 1];
    assert prefix[..i] == lines[..i];
    var before := Outcomes(lines[..i], available, today, localYear);
    var after := Outcomes(prefix, available, today, localYear);
    assert after[..i] == before;
    var o := LineOutcome(lines[i], available, today, localYear);
    if o.Ok? {
      assert Failures(prefix, after) == Failures(lines[..i], before) + [];
    } else {
      assert Accepted(after) == Accepted(before) + [];
    }
  }

  lemma AppendRowsSnoc(base: seq<Expense>, firstId: int, user: int, ds: seq<Draft>, d: Draft, id: int)
    requires id == firstId + |ds|
    ensures AppendRows(base, firstId, user, ds + [d])
         == AppendRows(base, firstId, user, ds) + [Expense(id, user, d.category, d.amount, d.date, d.time)]
  {
    assert (ds + [d])[..|ds|] == ds;
  }

  /** Every line is either stored or reported, never both and never neither. */
  lemma {:induction false} EveryLineAccounted(lines: seq<string>, outs: seq<Result<Draft, Reason>>)
    requires |lines| == |outs|
    ensures |Accepted(outs)| + |Failures(lines, outs)| == |lines|
  {
    if outs != [] {
      var n := |outs| - 1;
      EveryLineAccounted(lines[..n], outs[..n]);
    }
  }

  /** What every stored draft satisfies. */
  predicate SoundDraft(d: Draft, available: seq<string>)
  {
    d.category in available && Storable(d.category, d.amount) && ValidDate(d.date)
  }

  lemma {:induction false} AcceptedSound(outs: seq<Result<Draft, Reason>>, available: seq<string>)
    requires forall i :: 0 <= i < |outs| && outs[i].Ok? ==> SoundDraft(outs[i].value, available)
    ensures forall d :: d in Accepted(outs) ==> SoundDraft(d, available)
  {
    if outs != [] {
      AcceptedSound(outs[..|outs| - 1], available);
    }
  }

  /** Every stored draft names an offered category, fits the table and has a real date. */
  lemma {:induction false} AcceptedAreSound(lines: seq<string>, available: seq<string>, today: Date, localYear: int)
    requires ValidDate(today)
    ensures forall d :: d in Accepted(Outcomes(lines, available, today, localYear)) ==> SoundDraft(d, available)
  {
    if lines != [] {
      var n := |lines| - 1;
      AcceptedAreSound(lines[..n], available, today, localYear);
      var outs := Outcomes(lines, available, today, localYear);
      assert outs[..n] == Outcomes(lines[..n], available, today, localYear);
      var o := LineOutcome(lines[n], available, today, localYear);
      assert o.Ok? ==> SoundDraft(o.value, available);
    }
  }

  /**
   * One pass of the loop of `process_expense`: the line is parsed and,
   * when it parsed, inserted; the outcome is the line's outcome.
   */
  method StoreLine(db: Database, user: int, line: string, available: seq<string>, today: Date, localYear: int)
    returns (o: Result<Draft, Reason>)
    requires db.Valid()
    modifies db
    ensures db.Valid() && db.registry == old(db.registry)
    ensures o == LineOutcome(line, available, today, localYear)
    ensures o.Ok? ==>
      && db.nextId == old(db.nextId) + 1
      && db.expenses == old(db.expenses) + [Expense(old(db.nextId), user, o.value.category, o.value.amount, o.value.date, o.value.time)]
    ensures o.Err? ==> db.nextId == old(db.nextId) && db.expenses == old(db.expenses)
  {
    var p := ParseLine(line, available, today, localYear);
    if p.Err? {
      o := p;
    } else {
      var d := p.value;
      var ok := db.InsertExpense(user, d.category, d.amount, d.date, d.time);
      o := if ok then p else Err(SaveFailed);
    }
  }

  /** The loop of `process_expense` over the lines of the message. */
  method StoreLines(db: Database, user: int, lines: seq<string>, available: seq<string>, today: Date, localYear: int)
    returns (added: nat, failed: seq<(string, Reason)>)
    requires db.Valid()
    modifies db
    ensures db.Valid() && db.registry == old(db.registry)
    ensures var outs := Outcomes(lines, available, today, localYear);
      && added == |Accepted(outs)|
      && failed == Failures(lines, outs)
      && db.expenses == AppendRows(old(db.expenses), old(db.nextId), user, Accepted(outs))
  {
    added := 0;
    failed := [];
    for i := 0 to |lines|
      invariant db.Valid() && db.registry == old(db.registry)
      invariant added == |Accepted(Outcomes(lines[..i], available, today, localYear))|
      invariant db.nextId == old(db.nextId) + added
      invariant failed == Failures(lines[..i], Outcomes(lines[..i], available, today, localYear))
      invariant db.expenses == AppendRows(old(db.expenses), old(db.nextId), user, Accepted(Outcomes(lines[..i], available, today, localYear)))
    {
      ghost var acc := Accepted(Outcomes(lines[..i], available, today, localYear));
      ghost var nid := db.nextId;
      var o := StoreLine(db, user, lines[i], available, today, localYear);
      OutcomeStep(lines, i, available, today, localYear);
      if o.Ok? {
        AppendRowsSnoc(old(db.expenses), old(db.nextId), user, acc, o.value, nid);
        added := added + 1;
      } else {
        failed := failed + [(lines[i], o.error)];
      }
    }
    assert lines[..|lines|] == lines;
  }

  /**
   * `process_expense`: every line of the message is tried against the
   * categories the user is offered. The conversation stays in the
   * expense-input state afterwards, so the session is not touched.
   */
  method ProcessExpense(db: Database, user: int, isAdmin: bool, text: string, today: Date, localYear: int)
    returns (added: nat, failed: seq<(string, Reason)>)
    requires db.Valid()
    modifies db
    ensures db.Valid() && db.registry == old(db.registry)
    ensures var outs := Outcomes(Lines(text), AvailableCategories(RegistryNames(old(db.registry), user), isAdmin), today, localYear);
      && added == |Accepted(outs)|
      && failed == Failures(Lines(text), outs)
      && db.expenses == AppendRows(old(db.expenses), old(db.nextId), user, Accepted(outs))
  {
    var available := AvailableCategories(RegistryNames(db.registry, user), isAdmin);
    added, failed := StoreLines(db, user, Lines(text), available, today, localYear);
  }

  /**
   * `is_duplicate_expense`: some row of the user has the same category,
   * amount and date, and the same time, a missing time matching only a
   * missing time.
   */
  function IsDuplicateExpense(es: seq<Expense>, user: int, category: string, amount: int, date: Date, time: Option<Time>): (r: bool)
    ensures r <==> exists i :: 0 <= i < |es| && SameEntry(es[i], user, category, amount, date, time)
  {
    if es == [] then false
    else if SameEntry(es[0], user, category, amount, date, time) then true
    else
      var r := IsDuplicateExpense(es[1..], user, category, amount, date, time);
      assert r <==> exists i :: 0 < i < |es| && SameEntry(es[i], user, category, amount, date, time) by {
        if r {
          var j :| 0 <= j < |es[1..]| && SameEntry(es[1..][j], user, category, amount, date, time);
          assert es[j + 1] == es[1..][j];
        }
        if exists i :: 0 < i < |es| && SameEntry(es[i], user, category, amount, date, time) {
          var i :| 0 < i < |es| && SameEntry(es[i], user, category, amount, date, time);
          assert es[1..][i - 1] == es[i];
        }
      }
      r
  }

  predicate SameEntry(e: Expense, user: int, category: string, amount: int, date: Date, time: Option<Time>)
  {
    e.userId == user && e.category == category && e.amount == amount && e.date == date && e.time == time
  }

  /** An expense just stored is a duplicate of itself, and of nothing for another time. */
  lemma DuplicateAfterInsert(es: seq<Expense>, id: int, user: int, category: string, amount: int, date: Date, time: Option<Time>, other: Option<Time>)
    requires !IsDuplicateExpense(es, user, category, amount, date, other) && other != time
    ensures IsDuplicateExpense(es + [Expense(id, user, category, amount, date, time)], user, category, amount, date, time)
    ensures !IsDuplicateExpense(es + [Expense(id, user, category, amount, date, time)], user, category, amount, date, other)
  {
    var es2 := es + [Expense(id, user, category, amount, date, time)];
    assert SameEntry(es2[|es|], user, category, amount, date, time);
  }
}
