/**
 * Deleting expenses: the list of the latest records, the ID list the user
 * types, the check that every ID names one of the user's records, and the
 * yes/no confirmation that deletes them.
 */
module ExpenseDelete {
  import opened Wrappers
  import opened Text
  import opened Numbers
  import opened Store
  import opened Fsm

  // ---------------------------------------------------------------------
  // Markdown escaping
  // ---------------------------------------------------------------------

  /** The characters Telegram's MarkdownV2 reserves (Bot API, "Formatting options"). */
  predicate IsMarkdownSpecial(c: char)
  {
    c in "_*[]()~`>#+-=|{}.!"
  }

  function SpecialCount(t: string): (n: nat)
    ensures n <= |t|
  {
    if t == [] then 0 else (if IsMarkdownSpecial(t[0]) then 1 else 0) + SpecialCount(t[1..])
  }

  /**
   * `escape_markdown`: a backslash goes before every reserved character;
   * every other character, the backslash itself included, is copied.
   */
  function EscapeMarkdown(t: string): (r: string)
    ensures |r| == |t| + SpecialCount(t)
    ensures r != [] ==> !IsMarkdownSpecial(r[0])
  {
    if t == [] then []
    else (if IsMarkdownSpecial(t[0]) then ['\\', t[0]] else [t[0]]) + EscapeMarkdown(t[1..])
  }

  /** Reading the escaped text back: a backslash before a reserved character is dropped. */
  function UnescapeMarkdown(s: string): string
    decreases |s|
  {
    if s == [] then []
    else if s[0] == '\\' && |s| >= 2 && IsMarkdownSpecial(s[1]) then [s[1]] + UnescapeMarkdown(s[2..])
    else [s[0]] + UnescapeMarkdown(s[1..])
  }

  /** Escaping loses nothing: the original text is read back exactly. */
  lemma {:induction false} UnescapeEscape(t: string)
    ensures UnescapeMarkdown(EscapeMarkdown(t)) == t
  {
    if t != [] {
      var rest := EscapeMarkdown(t[1..]);
      UnescapeEscape(t[1..]);
      if IsMarkdownSpecial(t[0]) {
        var s := ['\\', t[0]] + rest;
        assert EscapeMarkdown(t) == s && s[2..] == rest;
      } else {
        var s := [t[0]] + rest;
        assert EscapeMarkdown(t) == s && s[1..] == rest;
      }
    }
  }

  /** Every reserved character of `r` comes right after a backslash. */
  predicate BackslashBeforeSpecials(r: string)
  {
    forall i :: 0 <= i < |r| && IsMarkdownSpecial(r[i]) ==> i > 0 && r[i - 1] == '\\'
  }

  /** In the escaped text no reserved character is left bare: each follows a backslash. */
  lemma {:induction false} EscapedSpecialsFollowBackslash(t: string)
    ensures BackslashBeforeSpecials(EscapeMarkdown(t))
  {
    if t != [] {
      EscapedSpecialsFollowBackslash(t[1..]);
      var rest := EscapeMarkdown(t[1..]);
      var head := if IsMarkdownSpecial(t[0]) then ['\\', t[0]] else [t[0]];
      var r := head + rest;
      assert EscapeMarkdown(t) == r;
      forall i | 0 <= i < |r|
        ensures IsMarkdownSpecial(r[i]) ==> i > 0 && r[i - 1] == '\\'
      {
        if i >= |head| {
          var j := i - |head|;
          assert r[i] == rest[j];
          if j == 0 {
            assert !IsMarkdownSpecial(rest[0]);
          } else {
            assert IsMarkdownSpecial(rest[j]) ==> rest[j - 1] == '\\';
            assert r[i - 1] == rest[j - 1];
          }
        } else {
          assert r[i] == head[i];
          if i == 1 {
            assert r[0] == '\\';
          }
        }
      }
    }
  }

  /** Text with no reserved character, such as a plain category name, is shown as it is. */
  lemma {:induction false} EscapePlainText(t: string)
    requires forall i :: 0 <= i < |t| ==> !IsMarkdownSpecial(t[i])
    ensures EscapeMarkdown(t) == t
  {
    if t != [] {
      EscapePlainText(t[1..]);
    }
  }

  // ---------------------------------------------------------------------
  // The list of the latest records
  // ---------------------------------------------------------------------

  /**
   * `ORDER BY created_at DESC LIMIT n` over rows kept in insertion order:
   * the last `n` rows, newest first.
   */
  function LatestFirst(rows: seq<Expense>, n: nat): (r: seq<Expense>)
    ensures |r| == if n < |rows| then n else |rows|
    ensures forall k :: 0 <= k < |r| ==> r[k] == rows[|rows| - 1 - k]
  {
    if n == 0 || rows == [] then []
    else [rows[|rows| - 1]] + LatestFirst(rows[..|rows| - 1], n - 1)
  }

  /**
   * `delete_expense_start`: the user's five newest records are listed and
   * the bot waits for IDs; with no record it only says so.
   */
  method StartDelete(session: Session, db: Database, user: int) returns (listed: seq<Expense>)
    modifies session
    ensures listed == LatestFirst(RowsOf(db.expenses, user), 5)
    ensures listed != [] ==>
      && session.state == WaitingForDeleteId
      && session.expenseIds == old(session.expenseIds) && session.expenseId == old(session.expenseId)
      && session.oldCategory == old(session.oldCategory)
      && session.period == old(session.period) && session.customPeriod == old(session.customPeriod)
    ensures listed == [] ==> unchanged(session)
  {
    listed := LatestFirst(RowsOf(db.expenses, user), 5);
    if listed != [] {
      session.state := WaitingForDeleteId;
    }
  }

  /** The listed records are the user's own, at most five, newest first. */
  lemma LatestAreOwn(es: seq<Expense>, user: int)
    ensures var listed := LatestFirst(RowsOf(es, user), 5);
      && |listed| <= 5
      && (forall e :: e in listed ==> e in es && e.userId == user)
      && (|RowsOf(es, user)| > 0 <==> listed != [])
  {
    LatestAreListed(RowsOf(es, user), 5);
  }

  lemma LatestAreListed(rows: seq<Expense>, n: nat)
    ensures forall e :: e in LatestFirst(rows, n) ==> e in rows
  {
    var listed := LatestFirst(rows, n);
    forall e | e in listed
      ensures e in rows
    {
      var k :| 0 <= k < |listed| && listed[k] == e;
      assert rows[|rows| - 1 - k] == e;
    }
  }

  // ---------------------------------------------------------------------
  // The ID list
  // ---------------------------------------------------------------------

  /** `int(x)` for every token, or `None` when one of them is not an integer. */
  function ParseIdTokens(tokens: seq<string>): (r: Option<seq<int>>)
    ensures r.Some? <==> forall k :: 0 <= k < |tokens| ==> ParseInt(tokens[k]).Some?
    ensures r.Some? ==>
      && |r.value| == |tokens|
      && forall k :: 0 <= k < |tokens| ==> Some(r.value[k]) == ParseInt(tokens[k])
  {
    ReadEach(ParseInt, tokens)
  }

  /** Every token read with `f`, or `None` as soon as one of them cannot be read. */
  function ReadEach(f: string -> Option<int>, tokens: seq<string>): (r: Option<seq<int>>)
    ensures r.Some? <==> forall k :: 0 <= k < |tokens| ==> f(tokens[k]).Some?
    ensures r.Some? ==>
      && |r.value| == |tokens|
      && forall k :: 0 <= k < |tokens| ==> Some(r.value[k]) == f(tokens[k])
  {
    if tokens == [] then Some([])
    else
      match f(tokens[0])
      case None => None
      case Some(id) =>
        match ReadEach(f, tokens[1..])
        case None =>
          assert !forall k :: 0 <= k < |tokens[1..]| ==> f(tokens[1..][k]).Some?;
          var k :| 0 <= k < |tokens[1..]| && f(tokens[1..][k]).None?;
          assert tokens[k + 1] == tokens[1..][k];
          None
        case Some(ids) =>
          assert tokens == [tokens[0]] + tokens[1..];
          ParsedCons(f, tokens[0], tokens[1..], id, ids);
          Some([id] + ids)
  }

  /** Reading a token in front of tokens already read, for any reading `f` of a token. */
  lemma ParsedCons(f: string -> Option<int>, t: string, rest: seq<string>, id: int, ids: seq<int>)
    requires f(t) == Some(id)
    requires |ids| == |rest| && forall k :: 0 <= k < |rest| ==> Some(ids[k]) == f(rest[k])
    ensures var tokens, r := [t] + rest, [id] + ids;
      && (forall k :: 0 <= k < |tokens| ==> f(tokens[k]).Some?)
      && |r| == |tokens| && forall k :: 0 <= k < |tokens| ==> Some(r[k]) == f(tokens[k])
  {
    var tokens, r := [t] + rest, [id] + ids;
    forall k | 0 <= k < |tokens|
      ensures Some(r[k]) == f(tokens[k]) && f(tokens[k]).Some?
    {
      if k > 0 {
        assert tokens[k] == rest[k - 1] && r[k] == ids[k - 1];
      }
    }
  }

  /** `list(set(ids))`: each ID once. */
  function Distinct(xs: seq<int>): (r: seq<int>)
    ensures forall x :: x in r <==> x in xs
    ensures forall i, j :: 0 <= i < j < |r| ==> r[i] != r[j]
  {
    if xs == [] then []
    else
      var rest := Distinct(xs[1..]);
      if xs[0] in rest then rest else [xs[0]] + rest
  }

  /** How the text typed in `waiting_for_delete_id` reads. */
  datatype IdInput =
    /** "отмена" in any case: the flow is abandoned. */
    | Cancel
    /** Some token is not an integer. */
    | NotIntegers
    /** No token at all. */
    | NoIds
    | Ids(ids: seq<int>)

  /** The tokens of the ID list as `list(set(int(x) for x in tokens))` reads them. */
  function IdsOfTokens(tokens: seq<string>): (r: IdInput)
    ensures r != Cancel
    ensures r == NoIds <==> tokens == []
    ensures r == NotIntegers <==> exists k :: 0 <= k < |tokens| && ParseInt(tokens[k]).None?
    ensures r.Ids? ==>
      && r.ids != []
      && (forall i, j :: 0 <= i < j < |r.ids| ==> r.ids[i] != r.ids[j])
      && (forall x :: x in r.ids <==> exists k :: 0 <= k < |tokens| && ParseInt(tokens[k]) == Some(x))
  {
    match ParseIdTokens(tokens)
    case None => NotIntegers
    case Some(ids) =>
      if ids == [] then NoIds
      else
        var d := Distinct(ids);
        assert forall x :: x in ids <==> exists k :: 0 <= k < |tokens| && ParseInt(tokens[k]) == Some(x) by {
          forall x | x in ids
            ensures exists k :: 0 <= k < |tokens| && ParseInt(tokens[k]) == Some(x)
          {
            var k :| 0 <= k < |ids| && ids[k] == x;
            assert ParseInt(tokens[k]) == Some(x);
          }
        }
        assert ids[0] in d;
        Ids(d)
  }

  /**
   * `process_delete_expense`, up to the database: the cancel word is
   * compared before any parsing (and without stripping), then the
   * stripped text is split on whitespace.
   */
  function ReadIds(text: string): (r: IdInput)
    ensures r == Cancel <==> LowerStr(text) == "отмена"
    ensures r != Cancel ==> r == IdsOfTokens(SplitWs(Strip(text)))
  {
    if LowerStr(text) == "отмена" then Cancel
    else IdsOfTokens(SplitWs(Strip(text)))
  }

  /**
   * The cancel word is recognised whatever its case: any six letters that
   * lower-case to "отмена" ("ОТМЕНА", "Отмена", "оТмЕнА", ...) cancel.
   */
  lemma CancelInAnyCase(text: string)
    requires |text| == 6
    requires forall i :: 0 <= i < 6 ==> Lower(text[i]) == "отмена"[i]
    ensures ReadIds(text) == Cancel
  {
    assert LowerStr(text) == "отмена";
  }

  /** A decimal number is one whitespace-free token. */
  lemma DigitsAreWord(n: nat)
    ensures IsWord(FormatInt(n))
  {
    var s := FormatInt(n);
    assert s == NatDigits(n);
    forall i | 0 <= i < |s|
      ensures !IsSpace(s[i])
    {
      DigitNotSpace(s[i]);
    }
  }

  /** Repeated IDs count once: "7 7" asks about the single record 7. */
  lemma RepeatedIdsCollapse(s: string, id: int)
    requires ParseInt(s) == Some(id)
    ensures IdsOfTokens([s, s]) == Ids([id])
  {
    TwoTokens(s, id);
    DistinctTwice(id);
  }

  lemma TwoTokens(s: string, id: int)
    requires ParseInt(s) == Some(id)
    ensures ParseIdTokens([s, s]) == Some([id, id])
  {
    ReadTwice(ParseInt, s, id);
  }

  lemma ReadTwice(f: string -> Option<int>, s: string, id: int)
    requires f(s) == Some(id)
    ensures ReadEach(f, [s, s]) == Some([id, id])
  {
    var r := ReadEach(f, [s, s]);
    assert r.Some? && |r.value| == 2;
    assert Some(r.value[0]) == f([s, s][0]) && Some(r.value[1]) == f([s, s][1]);
    assert r.value == [id, id];
  }

  lemma DistinctTwice(id: int)
    ensures Distinct([id, id]) == [id]
  {
    assert [id, id][1..] == [id];
    assert [id][1..] == [];
    assert Distinct([id]) == [id];
  }

  /** The set an ID list stands for. */
  function IdSet(ids: seq<int>): set<int>
  {
    set x | x in ids
  }

  /** The IDs among `ids` naming one of the user's records. */
  function OwnedIds(es: seq<Expense>, user: int, ids: set<int>): (s: set<int>)
    ensures s <= ids
  {
    set e | e in es && e.userId == user && e.id in ids :: e.id
  }

  /** With unique IDs, the rows `WHERE id = ANY($1) AND user_id = $2` number the IDs they match. */
  lemma {:induction false} CountOwnedIsOwnedIds(es: seq<Expense>, user: int, ids: set<int>)
    requires UniqueIds(es)
    ensures CountOwned(es, user, ids) == |OwnedIds(es, user, ids)|
  {
    if es != [] {
      var e, rest := es[0], es[1..];
      assert es == [e] + rest;
      UniqueTail(e, rest);
      CountOwnedIsOwnedIds(rest, user, ids);
      OwnedIdsCons(e, rest, user, ids);
    }
  }

  lemma OwnedIdsCons(e: Expense, rest: seq<Expense>, user: int, ids: set<int>)
    requires forall r :: r in rest ==> r.id != e.id
    ensures |OwnedIds([e] + rest, user, ids)|
         == (if e.userId == user && e.id in ids then 1 else 0) + |OwnedIds(rest, user, ids)|
  {
    var es := [e] + rest;
    if e.userId == user && e.id in ids {
      assert e.id !in OwnedIds(rest, user, ids);
      assert OwnedIds(es, user, ids) == {e.id} + OwnedIds(rest, user, ids);
    } else {
      assert OwnedIds(es, user, ids) == OwnedIds(rest, user, ids);
    }
  }

  /**
   * The ownership check `len(rows) == len(expense_ids)`: with unique
   * record IDs, the counts agree exactly when every typed ID names one of
   * the user's records.
   */
  lemma AllOwnedCheck(es: seq<Expense>, user: int, ids: seq<int>)
    requires UniqueIds(es)
    requires forall i, j :: 0 <= i < j < |ids| ==> ids[i] != ids[j]
    ensures CountOwned(es, user, IdSet(ids)) == |ids| <==>
      forall x :: x in ids ==> exists e :: e in es && e.userId == user && e.id == x
  {
    var s := IdSet(ids);
    CountOwnedIsOwnedIds(es, user, s);
    DistinctCard(ids);
    var o := OwnedIds(es, user, s);
    if |o| == |s| {
      assert s == o + (s - o);
      assert |s - o| == 0;
      assert s == o;
      forall x | x in ids
        ensures exists e :: e in es && e.userId == user && e.id == x
      {
        assert x in o;
      }
    }
    if forall x :: x in ids ==> exists e :: e in es && e.userId == user && e.id == x {
      forall x | x in s
        ensures x in o
      {
        var e :| e in es && e.userId == user && e.id == x;
      }
      assert o == s;
    }
  }

  /** A list without repeats has as many elements as its set. */
  lemma {:induction false} DistinctCard(ids: seq<int>)
    requires forall i, j :: 0 <= i < j < |ids| ==> ids[i] != ids[j]
    ensures |IdSet(ids)| == |ids|
  {
    if ids != [] {
      var rest := ids[1..];
      DistinctCard(rest);
      assert IdSet(ids) == {ids[0]} + IdSet(rest);
      forall j | 0 <= j < |rest|
        ensures rest[j] != ids[0]
      {
        assert rest[j] == ids[j + 1];
      }
      assert ids[0] !in IdSet(rest);
    }
  }

  /** What `process_delete_expense` answers. */
  datatype IdReply =
    | CancelledReply
    | NotIntegersReply
    | EmptyListReply
    /** "some records were not found or are not yours". */
    | NotOwnedReply
    /** The confirmation question for the records of `ids`. */
    | ConfirmReply(ids: seq<int>)

  function IdReplyOf(es: seq<Expense>, user: int, text: string): (r: IdReply)
    ensures r.ConfirmReply? <==> ReadIds(text).Ids? && CountOwned(es, user, IdSet(ReadIds(text).ids)) == |ReadIds(text).ids|
    ensures r.ConfirmReply? ==> r.ids == ReadIds(text).ids
    ensures r == CancelledReply <==> ReadIds(text) == Cancel
    ensures r == NotIntegersReply <==> ReadIds(text) == NotIntegers
    ensures r == EmptyListReply <==> ReadIds(text) == NoIds
    ensures r == NotOwnedReply <==>
      ReadIds(text).Ids? && CountOwned(es, user, IdSet(ReadIds(text).ids)) != |ReadIds(text).ids|
  {
    match ReadIds(text)
    case Cancel => CancelledReply
    case NotIntegers => NotIntegersReply
    case NoIds => EmptyListReply
    case Ids(ids) =>
      var found := CountOwned(es, user, IdSet(ids));
      if found == 0 || found != |ids| then NotOwnedReply else ConfirmReply(ids)
  }

  /** Confirmation is asked exactly when every typed ID names one of the user's records. */
  lemma ConfirmOnlyForOwnRecords(es: seq<Expense>, user: int, text: string)
    requires UniqueIds(es)
    ensures IdReplyOf(es, user, text).ConfirmReply? <==>
      && ReadIds(text).Ids?
      && forall x :: x in ReadIds(text).ids ==> exists e :: e in es && e.userId == user && e.id == x
  {
    if ReadIds(text).Ids? {
      AllOwnedCheck(es, user, ReadIds(text).ids);
    }
  }

  /**
   * `process_delete_expense` on the session: cancelling clears it; a list
   * that passes the check is stored and the confirmation state set; every
   * other answer leaves the state as it was.
   */
  method ProcessDeleteIds(session: Session, db: Database, user: int, text: string) returns (r: IdReply)
    requires session.state == WaitingForDeleteId
    modifies session
    ensures r == IdReplyOf(db.expenses, user, text)
    ensures r == CancelledReply ==> session.Cleared()
    ensures r.ConfirmReply? ==>
      && session.expenseIds == r.ids && session.state == WaitingForDeleteConfirmation
      && session.expenseId == old(session.expenseId) && session.oldCategory == old(session.oldCategory)
      && session.period == old(session.period) && session.customPeriod == old(session.customPeriod)
    ensures !r.ConfirmReply? && r != CancelledReply ==> unchanged(session)
  {
    r := IdReplyOf(db.expenses, user, text);
    if r == CancelledReply {
      session.Clear();
    } else if r.ConfirmReply? {
      AwaitConfirmation(session, r.ids);
    }
  }

  /** `update_data(expense_ids=…)`, then `waiting_for_delete_confirmation`. */
  method AwaitConfirmation(session: Session, ids: seq<int>)
    modifies session
    ensures session.expenseIds == ids && session.state == WaitingForDeleteConfirmation
    ensures session.expenseId == old(session.expenseId) && session.oldCategory == old(session.oldCategory)
    ensures session.period == old(session.period) && session.customPeriod == old(session.customPeriod)
  {
    session.expenseIds := ids;
    session.state := WaitingForDeleteConfirmation;
  }

  // ---------------------------------------------------------------------
  // Confirmation
  // ---------------------------------------------------------------------

  /** The command tag the database returns for `DELETE`, "DELETE <count>". */
  function DeleteStatus(count: nat): (s: string)
    ensures |s| > 7
  {
    "DELETE " + FormatInt(count)
  }

  /** `int(result.split()[1])`: the count is read back from the command tag. */
  function DeletedCount(status: string): (r: Option<int>)
    ensures forall count: nat :: status == DeleteStatus(count) ==> r == Some(count)
  {
    var words := SplitWs(status);
    assert forall count: nat :: status == DeleteStatus(count) ==> |words| >= 2 && ParseInt(words[1]) == Some(count) by {
      forall count: nat | status == DeleteStatus(count)
        ensures |words| >= 2 && ParseInt(words[1]) == Some(count)
      {
        StatusWords(count);
        ParseFormatInt(count);
      }
    }
    if |words| < 2 then None else ParseInt(words[1])
  }

  lemma StatusWords(count: nat)
    ensures SplitWs(DeleteStatus(count)) == ["DELETE", FormatInt(count)]
  {
    var s := FormatInt(count);
    DigitsAreWord(count);
    DeleteTagIsWord();
    PairAllWords("DELETE", s);
    SplitWsJoin(["DELETE", s]);
    assert "DELETE" + " " == "DELETE ";
  }

  lemma DeleteTagIsWord()
    ensures IsWord("DELETE")
  {
    assert !IsSpace('D') && !IsSpace('E') && !IsSpace('L') && !IsSpace('T');
    assert "DELETE" == ['D', 'E', 'L', 'E', 'T', 'E'];
  }

  /** Two words joined by a blank. */
  lemma PairAllWords(a: string, b: string)
    requires IsWord(a) && IsWord(b)
    ensures AllWords([a, b]) && Join(' ', [a, b]) == a + " " + b
  {
    assert [a, b][1..] == [b];
    assert [b][1..] == [];
  }

  /** What `confirm_delete_callback` answers. */
  datatype ConfirmReplyKind =
    /** "error: no record IDs found". */
    | NoStoredIds
    /** "records not found or already deleted". */
    | NothingDeleted
    | DeletedRecords(count: int)
    | DeleteCancelled
    /** A callback other than yes or no: nothing happens. */
    | Ignored

  /**
   * `confirm_delete_callback`: yes deletes the stored IDs among the
   * user's records and reports the count, 0 meaning none was found; yes
   * and no both clear the session; any other button changes nothing.
   */
  method ConfirmDelete(session: Session, db: Database, user: int, data: string) returns (o: ConfirmReplyKind)
    requires session.state == WaitingForDeleteConfirmation && db.Valid()
    modifies session, db
    ensures db.Valid()
    ensures data == "confirm_delete_yes" && old(session.expenseIds) != [] ==>
      && db.expenses == DeleteExpenseRows(old(db.expenses), user, IdSet(old(session.expenseIds)))
      && db.registry == old(db.registry) && db.nextId == old(db.nextId)
      && var n := CountOwned(old(db.expenses), user, IdSet(old(session.expenseIds)));
         o == if n == 0 then NothingDeleted else DeletedRecords(n)
    ensures data == "confirm_delete_yes" && old(session.expenseIds) == [] ==> o == NoStoredIds && unchanged(db)
    ensures data == "confirm_delete_no" ==> o == DeleteCancelled && unchanged(db)
    ensures data == "confirm_delete_yes" || data == "confirm_delete_no" ==> session.Cleared()
    ensures data != "confirm_delete_yes" && data != "confirm_delete_no" ==>
      o == Ignored && unchanged(session) && unchanged(db)
  {
    if data == "confirm_delete_yes" {
      if session.expenseIds == [] {
        o := NoStoredIds;
      } else {
        var count := db.DeleteExpenses(user, IdSet(session.expenseIds));
        var n := DeletedCount(DeleteStatus(count)).value;
        o := if n == 0 then NothingDeleted else DeletedRecords(n);
      }
      session.Clear();
    } else if data == "confirm_delete_no" {
      o := DeleteCancelled;
      session.Clear();
    } else {
      o := Ignored;
    }
  }
}
