# ezhefinka — a verified model of the expense bot's core

ezhefinka is a Telegram bot that records personal expenses in PostgreSQL.
This project models, in Dafny, the logic its handlers wrap around their SQL
statements, and proves properties of it:

- **entering expenses**: one line per expense, `category amount [d.m[.y]] [H:M]`.
  Each line is accepted or rejected on its own, with one reason from a closed list.
- **the category registry**: the available list, adding a name (title case,
  predefined names refused, a quota of five, duplicates refused up to case),
  renaming, deleting, and the callback payloads that carry a category.
- **the history views**: pages of five rows with back and forward buttons, the
  recency order, the period bounds, the search filter builder with its numbered
  `$k` placeholders, and the page payloads.
- **statistics**: the period filters, the custom range, the total and the
  per-category sums.
- **deleting expenses**: the ID list (deduplicated, all owned), the two-state
  confirmation, the deleted count read from the `DELETE n` command tag, and
  MarkdownV2 escaping.
- **the legacy single-file bot** (`zfull_code.py`): its parser, its single-ID
  delete flow, its history page and its statistics periods, each compared with
  the current code.

The tables are in-memory sequences:

- `Store.Database` is a class. Its fields are `expenses` (the `expenses` table),
  `registry` (`user_categories`) and `nextId` (the `id` sequence).
- `Fsm.Session` is a class standing for the aiogram state of one chat: the state
  and the stored data.
- Handlers that change rows or state are methods on these classes. Each is
  specified by functions over sequences, and the properties are proved as lemmas
  about those functions.

Other modelling choices:

- Amounts are integer kopecks.
- `created_at` is modelled by the row's `id`, which grows with every insert.
- Today's date, the local year and the administrator flag are parameters.

Modules, one file each:

| file | module | what it holds |
|---|---|---|
| wrappers.dfy | Wrappers | `Option`, `Result` |
| text.dfy | Text | Python's `lower`, `strip`, `split()`, `split(sep)`, `join`, `replace`, `title` |
| numbers.dfy | Numbers | `int()`, `str()`, `float()` of a decimal in kopecks, `:.2f` |
| calendar.dfy | Calendar | `date`, `datetime()`, `timedelta`, `strptime`/`strftime` with `%d.%m.%Y` and `%H:%M` |
| store.dfy | Store | rows, the SQL statements as functions, the `Database` class |
| fsm.dfy | Fsm | states and the `Session` class |
| category.dfy | Category | available list, add, rename, delete, payloads |
| expense_main.dfy | ExpenseMain | the line parser and the `process_expense` loop |
| expense_history.dfy | ExpenseHistory | pages, order, periods, search, payloads |
| grouping.dfy | Grouping | `GROUP BY category ... ORDER BY sum DESC` |
| stats.dfy | Stats | period filters, custom range, the two listings |
| expense_delete.dfy | ExpenseDelete | escaping, ID list, confirmation |
| legacy.dfy | Legacy | the legacy handlers |
| routing.dfy | Routing | which router answers a callback of the category screens |

## Model

| member | source | states |
|---|---|---|
| Text.Lower | expense/expense_delete.py:69 | a cased letter is lowered to a lower-case letter; every other character, blanks included, is kept |
| Text.Upper | expense/category.py:114 | a cased letter is raised to an upper-case letter; every other character is kept |
| Text.CaseInverse | expense/category.py:114 | raising a lowered capital gives it back and lowering a raised small letter gives it back; a letter already in the target case is kept; lowering ignores a prior raise and raising a prior lower |
| Text.LowerStr | expense/expense_main.py:192-193 | `lower()` keeps the length and lowers each character on its own |
| Text.LStrip | expense/category.py:333 | what is dropped is leading whitespace; the rest is a suffix that does not start with a blank |
| Text.RStrip | expense/category.py:333 | what is dropped is trailing whitespace; the rest is a prefix that does not end with a blank |
| Text.Strip | expense/category.py:333 | `strip()` is the slice of `s` that starts after the leading blanks, with only blanks after it; it neither starts nor ends with a blank |
| Text.Word | expense/expense_main.py:184 | the first word is the longest blank-free prefix; a non-blank start gives a non-empty word |
| Text.SplitWs | expense/expense_main.py:184 | `split()` yields only non-empty, blank-free tokens |
| Text.SplitOn | expense/category.py:234 | `split(sep)` yields at least one piece, and no piece holds the separator |
| Text.JoinSplit | expense/expense_history.py:392-394 | joining the pieces of `split(sep)` with `sep` gives the text back |
| Text.SplitOnConcat | expense/expense_history.py:392 | splitting at one separator occurrence splits the two sides independently |
| Text.SplitOnNoSep | expense/category.py:234 | a text without the separator splits into itself |
| Text.SplitOnTwo | handlers/stats.py:57 | `a + sep + b`, separator-free sides, splits into exactly `[a, b]` |
| Text.SplitJoin | expense/expense_history.py:282 | separator-free pieces joined and split again are the same pieces |
| Text.ReplaceChar | expense/expense_main.py:190 | `replace(',', '.')` keeps the length and changes exactly the commas |
| Text.TitleCase | expense/category.py:114 | `title()` keeps the length and changes only case: lower-casing the result gives the lower-cased input |
| Text.TitleFrom | expense/category.py:114 | title-casing keeps which characters are cased and agrees with its input once both are lower-cased |
| Text.TitleFromIsTitled | expense/category.py:114 | after `title()` a cased letter is upper case exactly when the character before it is uncased |
| Text.TitleCaseIsTitled | expense/category.py:114 | every result of `title()` is titled |
| Text.WordPrefix | expense/expense_main.py:184 | a word followed by a blank or by nothing is the first word taken |
| Text.SplitWsBlank | expense/expense_main.py:184 | a leading blank does not change `split()` |
| Text.SplitWsSameStrip | expense/expense_delete.py:75 | `split()` depends only on the text after the leading blanks, so `strip().split()` equals `split()` |
| Text.SplitWsCons | expense/expense_main.py:184 | a word followed by a blank is the first token of `split()`, and the rest are the tokens after it |
| Text.SplitWsJoin | expense/expense_delete.py:141 | words joined by single blanks split back into the same words |
| Numbers.DigitChar | expense/expense_history.py:516 | the digit written for `d` reads back as `d` |
| Numbers.NatDigits | expense/expense_history.py:516 | `str(n)` of a natural number is a non-empty run of digits |
| Numbers.NatDigitsValue | expense/expense_history.py:516 | the digits of `str(n)` denote `n` |
| Numbers.FormatInt | expense/expense_history.py:499-502 | `str(n)` is never empty |
| Numbers.RemoveUnderscores | expense/expense_delete.py:77 | removing the underscores that `int()` allows leaves only digits, and digits alone are untouched |
| Numbers.ParseInt | expense/expense_delete.py:77 | `int()` of a string of digits is its decimal value; with `ParseFormatInt`, `str(n)` reads back as `n` |
| Numbers.ParseFormatInt | expense/expense_history.py:516 | `int(str(n)) == n` for every integer, negative ones included |
| Numbers.Hundredths | expense/expense_main.py:200 | the kopecks of a fraction: the value of its first two digits, a lone digit counting tens, further digits dropped; always below 100 |
| Numbers.ParseAmount | expense/expense_main.py:199-203 | `float()` refuses blank text and gives a negative amount only after a minus; with `ParseFormatAmount` it reads every printed amount back |
| Numbers.FormatAmount | expense/expense_history.py:124 | `:.2f` ends in a point and exactly two digits, starts with a minus exactly for a negative amount, and has no comma |
| Numbers.ParseFormatAmount | expense/expense_main.py:200 | an amount printed with two decimals reads back as the same number of kopecks, negative amounts included |
| Calendar.DaysInMonth | expense/expense_main.py:219 | a month has 28 to 31 days; February has 29 exactly in a leap year |
| Calendar.MakeDate | expense/expense_main.py:219 | `datetime(y, m, d)` succeeds exactly for an existing Gregorian date in years 1 to 9999, and gives that date |
| Calendar.Ordinal | expense/expense_history.py:59 | day numbers start at 1, and 1 is exactly 0001-01-01 |
| Calendar.PrevDay | expense/expense_history.py:59 | the day before a date after 0001-01-01 is a real date |
| Calendar.PrevDayOrdinal | expense/expense_history.py:59 | the day before has the day number one less |
| Calendar.SubDays | handlers/stats.py:93 | `d - timedelta(days=n)` is a real date when it exists |
| Calendar.SubDaysOrdinal | handlers/stats.py:93 | subtracting `n` days succeeds exactly when `n` is below the day number, and lands `n` day numbers earlier |
| Calendar.FirstOfMonth | handlers/stats.py:101 | `replace(day=1)` keeps year and month, and lies `day - 1` days before the date |
| Calendar.DateBeforeOrdinal | expense/expense_history.py:87 | Python's date comparison is the order of day numbers, and equal dates are equal day numbers |
| Calendar.FieldValue | expense/expense_history.py:84 | a field is worth the decimal value of its digits, a leading blank skipped; a one-digit field is worth its digit |
| Calendar.ParseDMY | expense/expense_history.py:84 | `strptime(s, "%d.%m.%Y")` gives only real dates |
| Calendar.ParseHM | expense/expense_main.py:222 | `strptime(s, "%H:%M")` gives only real times |
| Calendar.Pad2 | expense/expense_history.py:120 | two zero-padded digits denote the number |
| Calendar.Pad4 | expense/expense_history.py:119 | four zero-padded digits denote the number |
| Calendar.FormatDMY | expense/expense_history.py:119 | `%d.%m.%Y` of a four-digit year has ten characters |
| Calendar.FormatHM | expense/expense_history.py:120 | `%H:%M` has five characters |
| Calendar.ParseFormatHM | expense/expense_main.py:222 | a time printed as `%H:%M` reads back with `%H:%M` as the same time |
| Calendar.ParseFormatDMY | expense/expense_history.py:194 | a date of a four-digit year printed as `%d.%m.%Y` reads back as the same date |
| Store.RegistryNames | expense/category.py:49-52 | the user's registry names are exactly the names of that user's rows |
| Store.UsedCategories | expense/category.py:54-57 | `SELECT DISTINCT category` holds exactly the categories of the user's expenses |
| Store.RowsOf | expense/expense_history.py:461-464 | the user's rows are exactly the rows carrying the user's id |
| Store.DeleteRegistryRows | expense/category.py:264-267 | the DELETE removes exactly the `(user, category)` rows and keeps all others |
| Store.RenameRegistryRows | expense/category.py:360-363 | the UPDATE rewrites exactly the user's rows under the old name, in place |
| Store.RelabelExpenses | expense/category.py:366-369 | the UPDATE relabels exactly the user's expenses under the old name, in place, and changes no other field |
| Store.DeleteExpenseRows | expense/expense_delete.py:135-139 | the DELETE removes exactly the user's rows whose id is listed |
| Store.CountOwned | expense/expense_delete.py:89-93 | the ownership SELECT returns at most as many rows as the table holds |
| Store.RelabelClearsLabel | expense/category.py:270-273 | when the new name differs from the old one, none of the user's rows keeps the old label after relabelling |
| Store.RelabelOthersUntouched | expense/category.py:270-273 | relabelling leaves every other user's rows, in order, exactly as they were |
| Store.RelabelKeepsCountAndTotal | expense/category.py:270-273 | relabelling keeps the number of the user's rows and the sum of all amounts |
| Store.RelabelKeepsIds | expense/category.py:366-369 | relabelling keeps ids unique |
| Store.DeleteKeepsIds | expense/expense_delete.py:135-139 | deleting keeps ids unique |
| Store.DeleteCount | expense/expense_delete.py:135-141 | the number of rows the DELETE removes is the number the ownership SELECT finds |
| Store.Database.constructor | db/db_main.py:40-51 | the tables start empty, with a valid id sequence |
| Store.Database.InsertExpense | expense/expense_main.py:227-240 | the INSERT succeeds exactly when the category fits `VARCHAR(50)` and the amount fits `DECIMAL(10,2)`; then one row is appended with the next id; the registry never changes |
| Store.Database.InsertCategory | expense/category.py:146-149 | one registry row is appended; expenses are untouched |
| Store.Database.DeleteCategory | expense/category.py:264-267 | the registry loses exactly the `(user, category)` rows; expenses are untouched |
| Store.Database.RenameCategory | expense/category.py:360-363 | the registry is renamed in place; expenses are untouched |
| Store.Database.RelabelCategory | expense/category.py:366-369 | the expenses are relabelled unless a matching row cannot take a name longer than 50 characters; the registry is untouched |
| Store.Database.DeleteExpenses | expense/expense_delete.py:135-139 | exactly the user's listed rows are deleted; the reported count is the number of owned rows found |
| Fsm.Session.Clear | expense/category.py:372 | `state.clear()` forgets the state and every stored value |
| Category.AvailableCategories | expense/category.py:28-43 | predefined and custom names, both kept, with no deduplication: the length is the sum of the two lengths |
| Category.UserCategories | expense/category.py:45-61 | the set of registry names united with the categories used in the user's expenses |
| Category.CustomNames | expense/category.py:67-71 | the names that are not predefined, and all of them |
| Category.OtherCountsTowardsLimit | expense/category.py:164-170 | an expense left under "Другое" by a deletion makes "Другое" a custom name that counts towards the limit |
| Category.NewCategoryName | expense/category.py:114 | the name a new category is saved under is titled |
| Category.CheckNewCategory | expense/expense_main.py:79-114 | in order: predefined names refused; then, for a non-admin, five registry names refused; then a name equal to a registry name up to case refused; otherwise the name is accepted as it is |
| Category.AddKeepsQuota | expense/category.py:125-133 | an ordinary user who starts within five names stays within five |
| Category.AddKeepsCaselessUnique | expense/category.py:136-149 | adding keeps the user's registry names distinct up to case |
| Category.TitledNeverEqualsUntitled | expense/category.py:114-120 | a title-cased name never equals an untitled predefined name, so such a name is never refused as predefined |
| Category.SomePredefinedUntitled | expense/category.py:17-21 | "Связь и интернет" is not titled, because its "и" is lower case after a blank |
| Category.SaveNewCategory | expense/category.py:113-159 | the result is the check on the trimmed, titled name; only success appends exactly one row; every outcome clears the session |
| Category.AddCategoryPrompt | expense/category.py:162-183 | the prompt asks for a name exactly when fewer than five non-predefined names are in use, with no administrator exemption; then the state becomes `waiting_for_new_category`. The handler is never registered (see Findings) |
| Category.PromptNewCategory | expense/expense_main.py:71-75 | the handler that answers "add_category": it always asks, with no limit check, and the state becomes `waiting_for_new_category`; nothing else is stored |
| Category.PayloadArg | expense/category.py:234 | `split(":")[1]` exists exactly when the payload holds a ':', and never holds one |
| Category.PayloadRoundTrip | expense/category.py:216 | a category read back from `prefix:category` is the one written exactly when its name holds no ':' |
| Category.ExecuteDeleteCategory | expense/category.py:257-276 | with a readable payload, exactly the registry row goes and the user's expenses under that name become "Другое"; otherwise nothing changes |
| Category.DeleteCategoryEffect | expense/category.py:257-273 | for a category other than "Другое", after deleting the user has no registry row and no expense under the name, the number of the user's expenses and the total are kept, and other users' rows are untouched |
| Category.CheckRename | expense/category.py:333-357 | the name is trimmed, not title-cased; in order: empty refused, predefined refused, equal up to case to any registry name of the user refused; otherwise accepted |
| Category.RenameClearsRegistry | expense/category.py:360-363 | when the new name differs from the old one, no registry row of the user keeps the old name after the UPDATE |
| Category.RenameKeepsCaselessUnique | expense/category.py:350-363 | a rename that passed the checks keeps the user's registry names distinct up to case |
| Category.RenamedNames | expense/category.py:360-363 | every occurrence of the old name is replaced, in place |
| Category.RegistryNamesRename | expense/category.py:360-363 | the user's names after the UPDATE are the old names with the old one replaced |
| Category.EditSelect | expense/category.py:311-328 | a readable payload stores the old name and waits for the new one; otherwise nothing changes |
| Category.SaveEditedCategory | expense/category.py:332-372 | the result is the check on the trimmed name; an empty name keeps the state so the user can retry; other refusals clear it and change no row; success renames the registry rows, then relabels the user's expenses and clears the state, except when the new name is too wide for the expenses column while such expenses exist: then the registry rename stays, the expenses are untouched and the state is kept |
| ExpenseMain.MatchCategory | expense/expense_main.py:189-197 | the first available name equal to the token up to case; none exactly when no name matches |
| ExpenseMain.MatchConcat | expense/expense_main.py:193 | matching in a concatenation looks at the first part first |
| ExpenseMain.MatchAvailable | expense/expense_main.py:45-60 | for the admin custom names win over predefined ones; for everybody else predefined names win |
| ExpenseMain.BlankNameNeverMatched | expense/expense_main.py:184-197 | a name with a blank in it is never matched by a `split()` token |
| ExpenseMain.MultiWordPredefinedUnreachable | expense/expense_main.py:184-197 | "Связь и интернет" can never be chosen by typing it |
| ExpenseMain.ParseDateToken | expense/expense_main.py:209-219 | a date read from the third token is real; two pieces take the current year; only two or three pieces are read |
| ExpenseMain.ParseDateTokenOfFormat | expense/expense_main.py:209-219 | a date printed as `%d.%m.%Y` reads back as itself |
| ExpenseMain.ParseLine | expense/expense_main.py:184-225 | each reason holds exactly when its check is the first to fail: fewer than two tokens is "Недостаточно данных"; an unknown category "Категория не найдена"; an unreadable amount (after ',' becomes '.') "Неверный формат суммы"; an unreadable date or time "Неверный формат даты или времени"; nothing else is refused. An accepted line holds the first available category equal up to case to the first token, that amount, and the date and time the third and fourth tokens read (today and null when absent) |
| ExpenseMain.LineOfTokens | expense/expense_main.py:185-225 | the same iff per reason and the same accepted value, stated for the tokens of a line |
| ExpenseMain.DateOfTokens | expense/expense_main.py:206-219 | a third token without '.', or none at all, leaves today's date; one with '.' is read as `d.m[.y]` and fails exactly when that reading fails; a date read is real |
| ExpenseMain.TimeOfTokens | expense/expense_main.py:207-222 | a fourth token without ':', or none at all, means no time; one with ':' fails exactly when `%H:%M` refuses it and otherwise gives the time it reads, which is real |
| ExpenseMain.ExpenseLineWords | expense/expense_main.py:184 | a line written as category, amount, date and time splits into exactly those four tokens |
| ExpenseMain.ParseExpenseLine | expense/expense_main.py:184-222 | a line written from a blank-free category that matches itself, an amount, a date of a four-digit year and a time parses back to exactly those values |
| ExpenseMain.AmountTokenRead | expense/expense_main.py:190-200 | an amount printed with two decimals survives the comma replacement and reads back |
| ExpenseMain.DateTokenRead | expense/expense_main.py:210-219 | a printed date holds a '.' and reads back as itself |
| ExpenseMain.TimeTokenRead | expense/expense_main.py:221-222 | a printed time holds a ':' and reads back as itself |
| ExpenseMain.LineOutcome | expense/expense_main.py:183-240 | a line's outcome is its parse, except that a parsed line the table cannot hold is "save failed" |
| ExpenseMain.Lines | expense/expense_main.py:177 | a message always yields at least one line |
| ExpenseMain.Outcomes | expense/expense_main.py:183-240 | one outcome per line |
| ExpenseMain.Accepted | expense/expense_main.py:227-240 | no more drafts than outcomes |
| ExpenseMain.Failures | expense/expense_main.py:185-225 | no more failures than outcomes |
| ExpenseMain.AppendRows | expense/expense_main.py:227-240 | the old rows stay in place and the drafts follow as the user's rows with consecutive ids |
| ExpenseMain.OutcomeStep | expense/expense_main.py:183-240 | one more line adds its draft to the accepted ones or its reason to the failures, and nothing else |
| ExpenseMain.EveryLineAccounted | expense/expense_main.py:177-240 | every line is either stored or reported, never both and never neither |
| ExpenseMain.AcceptedAreSound | expense/expense_main.py:189-240 | every stored draft names an offered category, fits the table and has a real date |
| ExpenseMain.StoreLine | expense/expense_main.py:184-240 | the outcome of one line; exactly one row is appended when it is accepted, none otherwise |
| ExpenseMain.StoreLines | expense/expense_main.py:183-240 | the count of stored lines, the failures in message order, and the table extended by exactly the accepted drafts; one failure never stops later lines |
| ExpenseMain.ProcessExpense | expense/expense_main.py:171-253 | the same, for the lines of the message against the user's available list; the registry is untouched |
| ExpenseMain.IsDuplicateExpense | expense/expense_main.py:256-284 | true exactly when some row matches user, category, amount and date, and the time is equal or both are null |
| ExpenseMain.DuplicateAfterInsert | expense/expense_main.py:256-284 | once an expense is stored the same entry is a duplicate, while an entry at another time that was no duplicate before stays none |
| ExpenseDelete.SpecialCount | expense/expense_delete.py:23 | no more reserved characters than characters |
| ExpenseDelete.EscapeMarkdown | expense/expense_delete.py:21-23 | the escaped text is longer by one backslash per reserved character, and never opens with a bare reserved character |
| ExpenseDelete.UnescapeEscape | expense/expense_delete.py:21-23 | escaping loses nothing: the text reads back exactly |
| ExpenseDelete.EscapedSpecialsFollowBackslash | expense/expense_delete.py:21-23 | in the escaped text every reserved character follows a backslash |
| ExpenseDelete.EscapePlainText | expense/expense_delete.py:21-23 | text with no reserved character, such as a plain category name, is shown unchanged |
| ExpenseDelete.LatestFirst | expense/expense_delete.py:34-38 | at most `n` rows, the newest first |
| ExpenseDelete.StartDelete | expense/expense_delete.py:30-65 | lists the user's last five rows newest first; waits for IDs exactly when there is one |
| ExpenseDelete.LatestAreOwn | expense/expense_delete.py:34-42 | the listed rows are the user's own, at most five, and the list is empty exactly when the user has none |
| ExpenseDelete.ParseIdTokens | expense/expense_delete.py:77 | every token is read with `int()`, or the whole list fails when one token is not an integer |
| ExpenseDelete.ReadEach | expense/expense_delete.py:77 | every token read in order, or failure exactly when one cannot be read |
| ExpenseDelete.Distinct | expense/expense_delete.py:77 | `list(set(...))` holds the same IDs, each once |
| ExpenseDelete.IdsOfTokens | expense/expense_delete.py:75-84 | no tokens is "empty"; a non-integer token rejects the whole input; otherwise the distinct IDs typed, each once |
| ExpenseDelete.ReadIds | expense/expense_delete.py:69-80 | "отмена" in any case cancels before any parsing; otherwise the IDs of the stripped text's tokens |
| ExpenseDelete.CancelInAnyCase | expense/expense_delete.py:69-72 | every casing of "отмена" cancels |
| ExpenseDelete.RepeatedIdsCollapse | expense/expense_delete.py:77 | "7 7" asks about the single record 7 |
| ExpenseDelete.OwnedIds | expense/expense_delete.py:89-93 | the owned IDs are among the typed ones |
| ExpenseDelete.CountOwnedIsOwnedIds | expense/expense_delete.py:89-97 | with unique ids, the rows the SELECT returns number the owned IDs |
| ExpenseDelete.AllOwnedCheck | expense/expense_delete.py:89-97 | with distinct IDs, the row count equals the ID count exactly when every ID names one of the user's records |
| ExpenseDelete.DistinctCard | expense/expense_delete.py:77 | a list without repeats has as many IDs as its set |
| ExpenseDelete.IdReplyOf | expense/expense_delete.py:68-119 | one reply per reading of the text: "отмена" cancels; a non-integer token gets the format hint; no tokens the empty-list message; IDs of which some are not the user's the not-found message; otherwise confirmation for exactly those IDs |
| ExpenseDelete.ConfirmOnlyForOwnRecords | expense/expense_delete.py:82-97 | confirmation is asked exactly when every typed ID names one of the user's records |
| ExpenseDelete.ProcessDeleteIds | expense/expense_delete.py:68-119 | cancel clears the session; a successful check stores the IDs and waits for confirmation; every other reply leaves the session unchanged |
| ExpenseDelete.AwaitConfirmation | expense/expense_delete.py:100-119 | the IDs are stored and the state moves to confirmation; other stored data is kept |
| ExpenseDelete.DeleteStatus | expense/expense_delete.py:140 | the command tag is longer than its "DELETE " prefix, so a count follows it |
| ExpenseDelete.StatusWords | expense/expense_delete.py:141 | the tag splits into "DELETE" and the count's digits |
| ExpenseDelete.DeletedCount | expense/expense_delete.py:141 | the count read from the `DELETE <n>` tag is the count written, for every count |
| ExpenseDelete.ConfirmDelete | expense/expense_delete.py:122-156 | "yes" with stored IDs deletes exactly the user's listed rows and reports the number deleted, or "not found" for 0; "yes" without IDs and "no" change no row; both clear the session; any other callback changes nothing |
| ExpenseHistory.TotalPages | expense/expense_history.py:235 | `max((n-1)//5+1, 1)` is 1 for no rows and otherwise the least `p` with `5p >= n` |
| ExpenseHistory.PageSlice | expense/expense_history.py:236-242 | page `p` shows up to five rows, starting at offset `(p-1)*5`, in order; a page below 1 fails |
| ExpenseHistory.PageOfRow | expense/expense_history.py:466-476 | row `i` appears on page `i//5+1` at place `i%5`, and that page exists |
| ExpenseHistory.NavigationButtons | expense/expense_history.py:499-502 | "forward" exactly when the next page has rows; "back" exactly when there is a previous page |
| ExpenseHistory.TwelveRowsExample | expense/expense_history.py:466 | twelve rows make pages of five, five and two, and page four is empty |
| ExpenseHistory.RowBeforeAsymmetric | expense/expense_history.py:471 | no row comes before itself, and no two rows each come before the other |
| ExpenseHistory.RowBefore | expense/expense_history.py:105 | a newer date comes first; on one date a row with a time comes before one without; on one date, of two rows with different times, the later time comes first (`time DESC`); with the same date and time the later entry comes first. With `RowBeforeAsymmetric`, `RowBeforeTotal` and `NotBeforeTransitive` it is a strict total order on rows with distinct ids |
| ExpenseHistory.RowBeforeTotal | expense/expense_history.py:471 | any two rows with different ids are ordered one way or the other |
| ExpenseHistory.NotBeforeTransitive | expense/expense_history.py:471 | "not listed before" is transitive |
| ExpenseHistory.InsertRecent | expense/expense_history.py:471 | inserting into a listing in recency order keeps it ordered and adds exactly the row |
| ExpenseHistory.SortRecent | expense/expense_history.py:471 | the rows as `ORDER BY date DESC, (time IS NULL), time DESC, created_at DESC` lists them: ordered, and a permutation of the input |
| ExpenseHistory.RecentView | expense/expense_history.py:458-511 | the user's rows in recency order, page by page, with the count, the number of pages and the buttons; an empty page shows "no rows" |
| ExpenseHistory.FilteredView | expense/expense_history.py:228-265 | the matching rows in recency order, page by page; no match shows "no rows" |
| ExpenseHistory.CategoryRows | expense/expense_history.py:342-348 | exactly the user's rows of that category |
| ExpenseHistory.HistoryPeriod | expense/expense_history.py:52-74 | today is `[t, t]`; the week is `[t-7, t]`, eight days; the month starts on day 1 of today's month; custom asks for a range; an unknown key or a week before 0001-01-08 raises |
| ExpenseHistory.StateAfterChoiceAsWritten | expense/expense_history.py:64-71 | as written the state is never changed: the `bot.fsm` call raises before setting it |
| ExpenseHistory.CustomPromptNeverWaits | expense/expense_history.py:64-71 | as written, after the custom choice the chat is in `waiting_for_custom_period` only if it already was |
| ExpenseHistory.StateAfterChoice | expense/expense_history.py:64-71 | intended: the custom choice sets `waiting_for_custom_period`, the other choices keep the state |
| ExpenseHistory.CustomPromptWaits | expense/expense_history.py:64-71 | intended: after the custom choice the range handler is reached from any state |
| ExpenseHistory.ShowPeriodExpenses | expense/expense_history.py:51-74 | the period chosen is `HistoryPeriod`'s; the state becomes the intended one and no stored data changes |
| ExpenseHistory.CustomHistoryRange | expense/expense_history.py:77-96 | an accepted range is two real dates in the start's year, the end not before the start |
| ExpenseHistory.CustomRangeOfPieces | expense/expense_history.py:80-88 | pieces past the second are ignored; the end takes the start's year |
| ExpenseHistory.HandleCustomPeriod | expense/expense_history.py:76-96 | in `waiting_for_custom_period`, an accepted range clears the session; a refused one leaves it as it was |
| ExpenseHistory.PeriodRows | expense/expense_history.py:99-107 | exactly the user's rows dated from the start to the end, both included |
| ExpenseHistory.PeriodListing | expense/expense_history.py:99-107 | `show_expenses_in_period` lists exactly the user's rows from the start to the end, both included, each once, in recency order |
| ExpenseHistory.PeriodChoiceListing | expense/expense_history.py:51-73 | what a period button lists: today's rows; for the week the eight days from seven days before today to today; for the month the days from the first to today |
| ExpenseHistory.ParseDMYYear | expense/expense_history.py:85 | a date read from `x + "." + str(y)` lies in year `y` |
| ExpenseHistory.FormatDM | expense/expense_history.py:66 | "dd.mm" has five characters |
| ExpenseHistory.CustomRangeOfPrompt | expense/expense_history.py:80-88 | "dd.mm.yyyy - dd.mm" reads as the start and the end in the start's year, refused when the end comes first |
| ExpenseHistory.PromptPieces | expense/expense_history.py:80-82 | the text cut at '-' gives the two sides, trimmed |
| ExpenseHistory.FormatIntFourDigits | expense/expense_history.py:85 | `str(y)` of a four-digit year is its `%Y` spelling |
| ExpenseHistory.PromptExampleRefused | expense/expense_history.py:66-67 | the prompt's own example, 13.11.2024 - 22.05, is refused |
| ExpenseHistory.BuildSearch | expense/expense_history.py:187-219 | the OR group and parameters are those of the query's date and amount readings; the counter ends one past the last parameter |
| ExpenseHistory.QueryFilter | expense/expense_history.py:186-218 | the user is the first parameter and the `%query%` pattern the last; a date adds one disjunct and one parameter, an amount one disjunct and two; the category disjunct comes last and names the last placeholder |
| ExpenseHistory.AmountFilter | expense/expense_history.py:198-202 | a query spelled the way the bot prints an amount is read as that amount |
| ExpenseHistory.AssembleSearch | expense/expense_history.py:204-219 | the step-by-step builder with its running `idx` produces the filter, and `idx - 1` is the number of parameters |
| ExpenseHistory.SearchPlaceholders | expense/expense_history.py:187-219 | the placeholders run consecutively from `$2`, one per parameter after the user, who is `$1` |
| ExpenseHistory.SearchDisjuncts | expense/expense_history.py:205-219 | a date disjunct exactly when the query is a date, an amount disjunct exactly when it is a number, and always the category pattern last |
| ExpenseHistory.SearchWhereMeaning | expense/expense_history.py:187-225 | the assembled WHERE holds of a row exactly when it is the user's and is on the date, or in `[a, a+1)`, or its category contains the query up to case |
| ExpenseHistory.LikeAnything | expense/expense_history.py:218 | `%` matches anything |
| ExpenseHistory.LikeLiteralPrefix | expense/expense_history.py:218 | a wildcard-free `q%` matches exactly the texts starting with `q` |
| ExpenseHistory.LikeContains | expense/expense_history.py:218 | a wildcard-free `%q%` matches exactly the texts containing `q` |
| ExpenseHistory.ILikeIsCaselessContains | expense/expense_history.py:217-218 | `ILIKE '%q%'` is containment after lower-casing both sides |
| ExpenseHistory.LikeMatch | expense/expense_history.py:217 | a pattern without `%`, `_` or `\` matches exactly the text equal to it |
| ExpenseHistory.ILike | expense/expense_history.py:217 | a pattern without wildcards matches exactly the texts equal to it up to case |
| ExpenseHistory.UnderscoreQueryMatchesAll | expense/expense_history.py:217-218 | the query "_" matches every non-empty category, because `_` is a wildcard |
| ExpenseHistory.Select | expense/expense_history.py:238-245 | a selected row is in the table and satisfies the WHERE |
| ExpenseHistory.SearchRows | expense/expense_history.py:187-225 | exactly the rows the search is meant to find |
| ExpenseHistory.SelectIsSearch | expense/expense_history.py:222-245 | executing the assembled filter selects exactly the rows the search is meant to find, in table order |
| ExpenseHistory.ShowSearchResults | expense/expense_history.py:182-273 | the page shown is that of the intended search rows, in recency order |
| ExpenseHistory.ExpensesPageOf | expense/expense_history.py:515-516 | every page number the history buttons carry is read back unchanged |
| ExpenseHistory.CategoryPageOf | expense/expense_history.py:389-394 | `category_page_{cat}_{page}` reads back as that category and page, underscores in the category included |
| ExpenseHistory.SearchPagePieces | expense/expense_history.py:263-265 | a search payload splits into "search", "expenses", "page", the page, then the query's pieces |
| ExpenseHistory.SearchPageOfAsWritten | expense/expense_history.py:277-282 | as written, no search page payload decodes, because "page" is not a number |
| ExpenseHistory.PageWordIsNotANumber | expense/expense_history.py:281 | `int("page")` fails |
| ExpenseHistory.SearchPageOf | expense/expense_history.py:263-265 | with the three prefix words skipped, every search payload reads back as its page and query, underscores in the query included |
| ExpenseHistory.PaginateSearch | expense/expense_history.py:277-290 | with the corrected decoder, a payload that decodes shows that page of that query's results in recency order; one that does not decode shows nothing |
| Grouping.GroupIndex | handlers/stats.py:397-402 | the position of a category's group, or -1 exactly when there is none |
| Grouping.AddRowGroups | handlers/stats.py:397-402 | folding one row into the groups of a table gives the groups of the longer table |
| Grouping.GroupedMeaning | handlers/stats.py:397-402 | `GROUP BY category`: one group per category present, with its count and sum; no category twice; the sums add up |
| Grouping.InsertByTotal | handlers/stats.py:399-400 | inserting adds exactly the group: the result is the old groups plus the new one, as a multiset |
| Grouping.InsertKeepsOrder | handlers/stats.py:399-400 | inserting keeps the groups in descending order of their sums |
| Grouping.InsertTotal | handlers/stats.py:397-402 | inserting adds the group's sum to the sum of sums |
| Grouping.SortByTotal | handlers/stats.py:399-400 | `ORDER BY sum DESC`: descending, a permutation, the same sum of sums |
| Grouping.GroupByMeaning | handlers/stats.py:392-402 | the listing is descending, its sums add up to the total, each group holds its category's count and sum, every row's category is listed, and no rows give no groups |
| Grouping.PermutedGroups | handlers/stats.py:399-400 | any reordering of a grouping keeps each group's count and sum, still covers every row, and is empty exactly when there are no rows |
| Grouping.GroupByDistinct | handlers/stats.py:397-402 | no category is listed twice |
| Grouping.PermutedDistinct | handlers/stats.py:399-400 | reordering keeps categories distinct |
| Stats.Placeholders | handlers/stats.py:84-126 | the condition names no placeholder exactly when it is `TRUE` |
| Stats.PeriodFilterOf | handlers/stats.py:84-126 | an unknown key raises; custom without dates raises; a week before 0001-01-07 overflows; otherwise `$1` is the user and the others are real dates |
| Stats.PeriodPlaceholders | handlers/stats.py:84-126 | the number of parameters is one more than the distinct placeholders, which are exactly `$2` to `$n` |
| Stats.PeriodFilterMeaning | handlers/stats.py:84-126 | each filter's condition selects exactly the days of its period: today, the last seven days, the month so far, all time, or the custom range |
| Stats.BetweenMeaning | handlers/stats.py:95 | `date BETWEEN $2 AND $3` holds exactly from `$2` to `$3`, both included |
| Stats.WeekIsSevenDays | handlers/stats.py:92-99 | the week covers exactly seven calendar days, today the last |
| Stats.PeriodInfoForState | handlers/stats.py:128-136 | custom chosen without dates raises its own error; otherwise the filter of the stored key |
| Stats.StatsRange | handlers/stats.py:54-61 | an accepted range has exactly one '-', two real dates, and the start not after the end |
| Stats.RangeOfPieces | handlers/stats.py:57-61 | the same, for the pieces of the text |
| Stats.StatsRangeOfPrompt | handlers/stats.py:54-61 | "dd.mm.yyyy - dd.mm.yyyy" reads as the two dates; equal dates are accepted and a start after the end is refused |
| Stats.ChooseStatsPeriod | handlers/stats.py:308-319 | the key is stored and the type menu's state is set; other data is kept |
| Stats.AskCustomPeriod | handlers/stats.py:41-51 | the bot waits for the range; stored data is kept |
| Stats.ProcessCustomPeriod | handlers/stats.py:53-80 | an accepted range is stored with the key `period_custom` and the type menu follows; a refused one leaves the session unchanged |
| Stats.SetCustomPeriod | handlers/stats.py:72-73 | the range and the key are stored and the state moves to the type menu |
| Stats.StoredRangeFilters | handlers/stats.py:128-136 | a stored custom range filters exactly the days from its start to its end |
| Stats.StatsRows | handlers/stats.py:392-396 | exactly the user's rows the condition selects |
| Stats.Breakdown | handlers/stats.py:193-199 | the groups are in descending order of sum, add up to the total of the filtered rows, count and sum each category's rows, and cover every filtered row |
| Stats.RegularStats | handlers/stats.py:368-402 | no period gives "could not determine the period"; a failed filter raises; otherwise the total and the per-category sums of the filtered rows |
| Stats.CategoryStats | handlers/stats.py:173-201 | a `ValueError` of the period lookup is answered with its message; the date overflow is not caught and raises; otherwise the per-category breakdown of the filtered rows |
| Stats.RegularStatsAddUp | handlers/stats.py:392-402 | the per-category sums add up to the total, are in descending order, and cover only the user's rows in the period |
| Legacy.CDate | zfull_code.py:291 | `datetime(y, m, d)` raises an overflow outside C `int`, a value error for a date that does not exist, and otherwise gives the date |
| Legacy.LegacyDatePieces | zfull_code.py:286-291 | a piece that is not an integer or a date that does not exist is a format error; a number outside the C `int` range, and only that, is unexpected; otherwise the date `(y, m, d)` the pieces name, the year defaulting to the local one |
| Legacy.LegacyDateOf | zfull_code.py:282-291 | a third token without '.', or none, leaves today's date; one with '.' is read by its pieces; a date read is real |
| Legacy.LegacyLine | zfull_code.py:272-295 | fewer than two tokens is refused; a format error exactly when the amount, the date pieces or the time do not read; unexpected exactly when the date overflows; an accepted line stores the first token verbatim (no category resolution) with the amount, date and time read |
| Legacy.LegacyParse | zfull_code.py:272-279 | the same errors and accepted value, for the whole message as one line |
| Legacy.LegacyDateAgrees | zfull_code.py:286-291 | on two or three pieces the legacy date read agrees with the current one |
| Legacy.CDateAgrees | zfull_code.py:291 | on a real date the C conversion never overflows, so `datetime()` agrees with the calendar |
| Legacy.ExtraDatePiecesIgnored | zfull_code.py:286-291 | with more than three pieces the current parser refuses the token while the legacy one reads the first three |
| Legacy.LegacyProcessExpense | zfull_code.py:265-343 | "Назад" clears the session and changes no row; every other reply leaves the session as it is; a refused line stores nothing; a parsed line is appended as one row, unless the table refuses it and nothing changes |
| Legacy.SaveParsed | zfull_code.py:297-341 | an error is answered as it is; a draft is appended, or nothing when the table refuses it |
| Legacy.OwnedRow | zfull_code.py:504-507 | the row with that id and user, or none exactly when there is none |
| Legacy.LegacyIdReply | zfull_code.py:493-534 | "отмена" cancels; a non-integer is "not a number"; an id naming none of the user's rows is "not found"; otherwise the user's row with that id |
| Legacy.LegacyProcessDeleteId | zfull_code.py:493-534 | cancel and "not found" clear the session; a non-integer keeps it; a found row is stored and confirmation is awaited |
| Legacy.ApplyIdReply | zfull_code.py:509-528 | the session change each reply makes |
| Legacy.AwaitSingleConfirmation | zfull_code.py:516-528 | the id is stored and the state moves to confirmation |
| Legacy.LastDigitTest | zfull_code.py:561 | `deleted[-1] == '0'` holds exactly when the count ends in 0, which is right for counts 0 and 1 |
| Legacy.OneRowPerId | zfull_code.py:556-559 | with unique ids, one id names at most one of the user's rows |
| Legacy.LegacyConfirmDelete | zfull_code.py:537-572 | a no word cancels; anything that is neither a yes nor a no word asks again and changes nothing; a yes word without an id changes no row; otherwise exactly that row of the user is deleted and "deleted" is reported exactly when it existed |
| Legacy.NullsLastIsRecentOrder | zfull_code.py:618 | `time DESC NULLS LAST` orders rows exactly as `(time IS NULL), time DESC` does |
| Legacy.LegacyListing | zfull_code.py:615-619 | all the user's rows, each once, with none `NULLS LAST`-before an earlier one |
| Legacy.LegacyExpensesPage | zfull_code.py:605-648 | a page below 1 fails, a page past the rows shows the empty message; otherwise the count is the user's row count, the page count is `max((n-1)//5+1,1)`, the rows are the run of up to five at offset `(page-1)*5` of `LegacyListing`, and the back button appears iff `page > 1`, the forward button iff `page < total_pages` |
| Legacy.RecentPageInLegacyOrder | zfull_code.py:615-623 | every page of the current listing is in the legacy order and holds only the user's rows |
| Legacy.CurrentKey | zfull_code.py:397-414 | each legacy button names one of the current fixed period keys |
| Legacy.LegacyPeriodFilter | zfull_code.py:397-414 | "За сегодня" selects `date = today`; the week starts six days before today and fails exactly before 0001-01-07; the month, which is every other button, starts on day 1 |
| Legacy.LegacyPeriodsAreCurrent | zfull_code.py:397-414 | each legacy period has the condition and parameters of the current key for it |
| Legacy.LegacyPeriodMeaning | zfull_code.py:397-414 | each legacy period selects exactly the days of the current key for it |
| Legacy.LegacyStats | zfull_code.py:385-450 | an overflowing week fails; otherwise the total and per-category sums of the filtered rows |
| Legacy.LegacyStatsAddUp | zfull_code.py:417-428 | the per-category sums add up to the total, are descending, and cover only the user's rows in the period |
| Routing.DispatchIsFirst | main.py:87-88 | the router that answers is the first in the list with a handler for the callback, and there is none exactly when no router has one |
| Routing.CategoryScreensUnreachable | main.py:25 | with `all_routers` as written, outside a pending deletion "add_category" reaches the expense router and every other category callback reaches no handler |
| Routing.CategoriesButtonUnanswered | handlers/start.py:134-149 | the "📊 Категории" button of the settings menu finds no handler |
| Routing.CategoryScreensReachable | main.py:25 | with the category router included, every category callback is answered, by the category router except "add_category" |

## Left out

- The handlers of expense/category.py are never registered, because `all_routers` (main.py:25) leaves out `category_router` (see Findings). `Category.AddCategoryPrompt`, `ExecuteDeleteCategory`, `EditSelect` and `SaveEditedCategory` model that code as written. The bot as it runs answers "add_category" with `Category.PromptNewCategory`.
- Telegram transport: keyboards, message texts, `edit_text`/`answer` fallbacks and the menu builders (`categories_menu`, `delete_category_menu`, `edit_category_menu`, the start menu). They only display. `confirm_delete_category` is covered by `Category.PayloadArg`.
- The chart (`stat_type_graph`, handlers/stats.py:219-306): matplotlib and floating-point percentages.
- The administrator's `user_stats` command (handlers/stats.py:322-365). The `stat_type_top` button has no handler in the code.
- `show_expenses_by_category` (expense/expense_history.py:405-455), which splits on `category_history_`, is not part of this model. Its page buttons are modelled by `ExpenseHistory.CategoryPageOf`.
- `process_search_query` (expense/expense_history.py:170-180) only trims the query and shows page 1. `ShowSearchResults` covers what it shows.
- The connection pool, users/user.py, the upsert middleware, log.py and init.py: I/O without logic of their own. The administrator id is a parameter.
- Clock reads (`utcnow`, `now`, `date.today`, `SELECT NOW()`) are parameters `today` and `localYear`. In the model the two are independent, as UTC and local time can be.
- Numbers.ParseAmount: Python's `float()` also reads "inf", "nan", exponents and underscores. The model reads an optional sign, digits, an optional point and digits, and keeps only two fraction digits (truncated). Rounding to `DECIMAL(10,2)` is not modelled. Like `ParseInt`, it refuses non-ASCII decimal digits, which `float()` reads.
- ExpenseHistory.SearchRows: the amount disjunct compares kopecks with `[a, a + 100)`, which is `[a, a+1)` in roubles. Float comparison error is not modelled.
- Store.Database.InsertExpense: the only INSERT failures modelled are the column limits `VARCHAR(50)` and `DECIMAL(10,2)`. Other database errors are not modelled.
- `created_at` is modelled by the id. Rows inserted in one transaction share `NOW()` and are then ordered by id, which the model assumes.
- ExpenseDelete.Distinct: `list(set(...))` has no defined order. The model keeps first occurrences, and no property depends on the order.
- Numbers.ParseInt: digits are ASCII only. Python's `int()` also reads other Unicode decimal digits (Arabic-Indic, full-width, ...), which the model refuses.
- Calendar.ParseDMY: likewise for `strptime`, whose `\d` matches any Unicode decimal digit.
- Calendar.ParseHM: likewise for `strptime`'s `%H:%M`.
- Text.Lower: casing covers ASCII and the basic Cyrillic block (U+0400–U+045F) only. Other Unicode case mappings, and `title()`'s treatment of digits and apostrophes beyond "uncased", are not modelled.
- Calendar.FormatDMY: modelled for four-digit years only, and so are the round trips through it; Python's spelling of years below 1000 is platform-dependent.
- Ids are unbounded integers. PostgreSQL's 32-bit `SERIAL` overflow is not modelled.
- ExpenseMain.IsDuplicateExpense is modelled, but no handler calls it.
- The copy of `save_new_category` in expense/expense_main.py:77-124 is identical to the one in expense/category.py:112-159. `Category.SaveNewCategory` models both.
- `get_available_categories` exists in both expense/expense_main.py:45-60 and expense/category.py:28-43, with the same body. `Category.AvailableCategories` models both.
- Legacy `delete_expense_start` (zfull_code.py:458-490) runs the same query as `ExpenseDelete.StartDelete`, without Markdown escaping. It is not modelled separately.
- The other handlers of zfull_code.py (reminders, budgets, menus, debugging) are outside the modelled core.
- ExpenseMain.Lines: states only that a message yields at least one line; the split at '\n' is its body, and what matters, one outcome per line, is stated by `Outcomes`, `OutcomeStep` and `EveryLineAccounted`.
- The `user_categories` table has no definition in the modelled files; its `category` column is modelled without a width limit, so renaming and adding a category never fail in the database.
- Fsm.Session: only the stored values the modelled handlers read are fields (`old_category`, `expense_ids`, `expense_id`, `period`, `custom_period`). `expense_rows`, `search_query` and `page` are written but never read back, so they are left out.
- Display formats (`:.2f`, `strftime` in captions) appear only where a round trip needs them. Captions are kept as dates, not text.
- `LIKE`'s default escape character: `LikeMatch` follows it, but the lemmas about `%q%` assume a query without `%`, `_` or `\`.

## Findings

| source | as written | input that shows it | evidently intended | confidence | as-written member | corrected member |
|---|---|---|---|---|---|---|
| expense/expense_history.py:280-282 | `_, _, page_str, *query_parts = call.data.split("_")` binds the third piece, the literal word "page", to `page_str` | `search_expenses_page_2_еда` gives `page_str == "page"`, so `int()` raises and the page is never shown | skip the three words of the prefix `search_expenses_page`, then read the page and join the rest as the query | high (not executed) | ExpenseHistory.SearchPageOfAsWritten | ExpenseHistory.SearchPageOf |
| expense/expense_history.py:64-71 | after the custom-range prompt the handler calls `callback.bot.fsm.set_state(...)`; aiogram 3's `Bot` has no `fsm` attribute | the "✏️ Выбрать свой" button: the prompt is shown, then `AttributeError` is raised, the chat never enters `waiting_for_custom_period`, and the range typed next is never handled | `await state.set_state(PeriodHistory.waiting_for_custom_period)` on the handler's `FSMContext`, as the statistics' `ask_custom_period` does | medium (not executed; depends on aiogram's `Bot` having no `fsm` attribute) | ExpenseHistory.CustomPromptNeverWaits | ExpenseHistory.CustomPromptWaits |
| main.py:25 | `all_routers` lists six routers and leaves out `category_router` of expense/category.py | the "📊 Категории" button of the settings menu (handlers/start.py:142) sends `categories`, which no included router handles; no category can be listed, renamed or deleted | include `category_router` in `all_routers`, so the category screens answer | high (not executed) | Routing.CategoryScreensUnreachable | Routing.CategoryScreensReachable |
