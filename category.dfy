/**
 * The category registry: the predefined names every user has, the custom
 * names a user adds (at most five unless the user is the administrator),
 * renaming and deleting custom names, and the `prefix:category` callback
 * payloads the category menus carry.
 */
module Category {
  import opened Wrappers
  import opened Text
  import opened Store
  import opened Fsm

  const Predefined: seq<string> := [
    "Продукты", "Жильё", "Связь и интернет", "Транспорт", "Здоровье",
    "Одежда и обувь", "Красота и уход", "Развлечения", "Образование",
    "Дом/ремонт", "Путешествия", "Подарки и праздники", "Неожиданные траты"
  ]

  /** The limit on custom categories. */
  const MaxCustom := 5

  /** The label a deleted category's expenses receive. */
  const Other := "Другое"

  /**
   * The names offered when an expense is entered: the predefined names then
   * the user's registry names, or the other way round for the administrator.
   * Nothing is deduplicated.
   */
  function AvailableCategories(custom: seq<string>, isAdmin: bool): (r: seq<string>)
    ensures |r| == |Predefined| + |custom|
    ensures forall c :: c in r <==> c in Predefined || c in custom
  {
    if isAdmin then custom + Predefined else Predefined + custom
  }

  /** The names in the registry together with those used in the user's expenses, without repeats. */
  function UserCategories(registry: seq<CategoryRow>, es: seq<Expense>, user: int): (r: set<string>)
    ensures forall c :: c in r <==> CategoryRow(user, c) in registry || c in UsedCategories(es, user)
  {
    (set c | c in RegistryNames(registry, user)) + UsedCategories(es, user)
  }

  /** The names of `names` that are not predefined. */
  function CustomNames(names: set<string>): (r: set<string>)
    ensures r <= names
    ensures forall c :: c in r <==> c in names && c !in Predefined
  {
    set c | c in names && c !in Predefined
  }

  /** The check the "add category" button makes before asking for a name. It knows no administrator. */
  predicate AddPromptAllowed(registry: seq<CategoryRow>, es: seq<Expense>, user: int)
  {
    |CustomNames(UserCategories(registry, es, user))| < MaxCustom
  }

  /** Expenses left under "Другое" by a deletion count as a custom name towards the limit. */
  lemma OtherCountsTowardsLimit(registry: seq<CategoryRow>, es: seq<Expense>, user: int, i: int)
    requires 0 <= i < |es| && es[i].userId == user && es[i].category == Other
    ensures Other in CustomNames(UserCategories(registry, es, user))
  {
    assert Other !in Predefined;
    assert Other in UsedCategories(es, user);
  }

  /** Whether some name of `names` equals `name` once both are lower-cased. */
  predicate ExistsCaseless(names: seq<string>, name: string)
  {
    exists i :: 0 <= i < |names| && LowerStr(names[i]) == LowerStr(name)
  }

  predicate CaselessUnique(names: seq<string>)
  {
    forall i, j :: 0 <= i < j < |names| ==> LowerStr(names[i]) != LowerStr(names[j])
  }

  datatype AddError = AddPredefined | QuotaReached | AddExists

  /** The name a new category is saved under: the message trimmed and title-cased. */
  function NewCategoryName(text: string): (name: string)
    ensures IsTitled(name)
  {
    TitleCaseIsTitled(Strip(text));
    TitleCase(Strip(text))
  }

  /**
   * The checks of `save_new_category`, in their order: a predefined name,
   * then the limit for everybody but the administrator, then a registry
   * name equal up to case.
   */
  function CheckNewCategory(name: string, registry: seq<CategoryRow>, user: int, isAdmin: bool): (r: Result<string, AddError>)
    ensures r == Err(AddPredefined) <==> name in Predefined
    ensures r == Err(QuotaReached) <==> name !in Predefined && !isAdmin && |RegistryNames(registry, user)| >= MaxCustom
    ensures r.Ok? <==>
      name !in Predefined && (isAdmin || |RegistryNames(registry, user)| < MaxCustom)
      && !ExistsCaseless(RegistryNames(registry, user), name)
    ensures r.Ok? ==> r.value == name
  {
    if name in Predefined then Err(AddPredefined)
    else if !isAdmin && |RegistryNames(registry, user)| >= MaxCustom then Err(QuotaReached)
    else if ExistsCaseless(RegistryNames(registry, user), name) then Err(AddExists)
    else Ok(name)
  }

  lemma {:induction false} RegistryNamesAppend(registry: seq<CategoryRow>, row: CategoryRow, user: int)
    ensures RegistryNames(registry + [row], user)
         == RegistryNames(registry, user) + (if row.userId == user then [row.category] else [])
  {
    if registry != [] {
      assert (registry + [row])[1..] == registry[1..] + [row];
      RegistryNamesAppend(registry[1..], row, user);
    } else {
      assert registry + [row] == [row];
    }
  }

  /** An ordinary user who starts within the limit stays within it, however many names are added. */
  lemma AddKeepsQuota(registry: seq<CategoryRow>, user: int, name: string)
    requires |RegistryNames(registry, user)| <= MaxCustom
    requires CheckNewCategory(name, registry, user, false).Ok?
    ensures |RegistryNames(registry + [CategoryRow(user, name)], user)| <= MaxCustom
  {
    RegistryNamesAppend(registry, CategoryRow(user, name), user);
  }

  /** A user's registry names never repeat up to case. */
  lemma AddKeepsCaselessUnique(registry: seq<CategoryRow>, user: int, name: string, isAdmin: bool)
    requires CaselessUnique(RegistryNames(registry, user))
    requires CheckNewCategory(name, registry, user, isAdmin).Ok?
    ensures CaselessUnique(RegistryNames(registry + [CategoryRow(user, name)], user))
  {
    RegistryNamesAppend(registry, CategoryRow(user, name), user);
    var names := RegistryNames(registry, user);
    var after := names + [name];
    forall i, j | 0 <= i < j < |after|
      ensures LowerStr(after[i]) != LowerStr(after[j])
    {
      if j == |names| {
        assert after[i] == names[i];
        assert !(LowerStr(names[i]) == LowerStr(name));
      }
    }
  }

  /**
   * A title-cased name can never equal a predefined name that is not itself
   * title-cased, so those names slip past the predefined check.
   */
  lemma TitledNeverEqualsUntitled(text: string, p: string)
    requires !IsTitled(p)
    ensures NewCategoryName(text) != p
  {
  }

  /** "Связь и интернет" is one such name: its "и" is lower case after a blank. */
  lemma SomePredefinedUntitled()
    ensures Predefined[2] == "Связь и интернет" && !IsTitled(Predefined[2])
  {
    var p := Predefined[2];
    assert IsCased(p[6]) && !IsCased(p[5]) && !IsUpperLetter(p[6]);
  }

  /** `save_new_category`: every outcome ends the conversation; only success adds a row. */
  method SaveNewCategory(db: Database, session: Session, user: int, isAdmin: bool, text: string)
    returns (r: Result<string, AddError>)
    requires db.Valid()
    modifies db, session
    ensures db.Valid() && session.Cleared()
    ensures r == CheckNewCategory(NewCategoryName(text), old(db.registry), user, isAdmin)
    ensures db.registry == if r.Ok? then old(db.registry) + [CategoryRow(user, r.value)] else old(db.registry)
    ensures db.expenses == old(db.expenses)
  {
    var name := NewCategoryName(text);
    r := CheckNewCategory(name, db.registry, user, isAdmin);
    if r.Ok? {
      db.InsertCategory(user, name);
    }
    session.Clear();
  }

  /** `add_category_prompt`: asks for a name only while fewer than five custom names are in use. */
  method AddCategoryPrompt(db: Database, session: Session, user: int) returns (allowed: bool)
    modifies session
    ensures allowed <==> AddPromptAllowed(db.registry, db.expenses, user)
    ensures session.state == if allowed then WaitingForNewCategory else old(session.state)
    ensures session.oldCategory == old(session.oldCategory) && session.expenseIds == old(session.expenseIds)
    ensures session.expenseId == old(session.expenseId) && session.period == old(session.period)
    ensures session.customPeriod == old(session.customPeriod)
  {
    allowed := AddPromptAllowed(db.registry, db.expenses, user);
    if allowed {
      session.state := WaitingForNewCategory;
    }
  }

  /**
   * `prompt_new_category` of the expense router, the handler that answers
   * "add_category" whichever routers are included: it asks for a name
   * with no check, so only the limit of `save_new_category` applies.
   */
  method PromptNewCategory(session: Session)
    modifies session
    ensures session.state == WaitingForNewCategory
    ensures session.oldCategory == old(session.oldCategory) && session.expenseIds == old(session.expenseIds)
    ensures session.expenseId == old(session.expenseId) && session.period == old(session.period)
    ensures session.customPeriod == old(session.customPeriod)
  {
    session.state := WaitingForNewCategory;
  }

  // ---------------------------------------------------------------------
  // Callback payloads `confirm_delete:{category}`, `do_delete:{category}`,
  // `edit_select:{category}`; the handlers read `data.split(":")[1]`.
  // ---------------------------------------------------------------------

  function Payload(prefix: string, cat: string): string
  {
    prefix + ":" + cat
  }

  /** `data.split(":")[1]`, or `None` where Python raises `IndexError`. */
  function PayloadArg(data: string): (r: Option<string>)
    ensures r.Some? ==> ':' !in r.value
    ensures r.Some? <==> ':' in data
  {
    var parts := SplitOn(data, ':');
    if |parts| >= 2 then
      SplitHasSepWhenMany(data, ':');
      Some(parts[1])
    else
      assert ':' !in data by {
        assert ':' !in parts[0];
        JoinSplit(data, ':');
      }
      None
  }

  lemma SplitHasSepWhenMany(s: string, sep: char)
    requires |SplitOn(s, sep)| >= 2
    ensures sep in s
  {
    JoinSplit(s, sep);
    var parts := SplitOn(s, sep);
    assert Join(sep, parts) == parts[0] + [sep] + Join(sep, parts[1..]);
    assert Join(sep, parts)[|parts[0]|] == sep;
  }

  /** A category read back from its payload is the one written exactly when its name holds no ':'. */
  lemma PayloadRoundTrip(prefix: string, cat: string)
    requires ':' !in prefix
    ensures PayloadArg(Payload(prefix, cat)) == Some(cat) <==> ':' !in cat
  {
    var data := Payload(prefix, cat);
    assert data == prefix + [':'] + cat;
    SplitOnConcat(prefix, cat, ':');
    SplitOnNoSep(prefix, ':');
    var parts := SplitOn(data, ':');
    assert parts == [prefix] + SplitOn(cat, ':');
    assert parts[1] == SplitOn(cat, ':')[0];
    if ':' !in cat {
      SplitOnNoSep(cat, ':');
    } else {
      assert ':' !in SplitOn(cat, ':')[0];
    }
  }

  // ---------------------------------------------------------------------
  // Deleting a custom category
  // ---------------------------------------------------------------------

  /**
   * `execute_delete_category`: the registry row goes and the user's
   * expenses under that name move to "Другое".
   */
  method ExecuteDeleteCategory(db: Database, user: int, data: string) returns (deleted: Option<string>)
    requires db.Valid()
    modifies db
    ensures db.Valid()
    ensures deleted == PayloadArg(data)
    ensures deleted.Some? ==> db.registry == DeleteRegistryRows(old(db.registry), user, deleted.value)
    ensures deleted.Some? ==> db.expenses == RelabelExpenses(old(db.expenses), user, deleted, Other)
    ensures deleted.None? ==> db.registry == old(db.registry) && db.expenses == old(db.expenses)
  {
    deleted := PayloadArg(data);
    if deleted.Some? {
      db.DeleteCategory(user, deleted.value);
      var ok := db.RelabelCategory(user, deleted, Other);
    }
  }

  /**
   * After a deletion the user has neither a registry row nor an expense
   * under the deleted name, keeps every expense and every kopeck, and
   * nobody else's rows change.
   */
  lemma DeleteCategoryEffect(registry: seq<CategoryRow>, es: seq<Expense>, user: int, cat: string, other: int)
    requires cat != Other && other != user
    ensures CategoryRow(user, cat) !in DeleteRegistryRows(registry, user, cat)
    ensures forall e :: e in RelabelExpenses(es, user, Some(cat), Other) ==> !(e.userId == user && e.category == cat)
    ensures |RowsOf(RelabelExpenses(es, user, Some(cat), Other), user)| == |RowsOf(es, user)|
    ensures TotalAmount(RelabelExpenses(es, user, Some(cat), Other)) == TotalAmount(es)
    ensures RowsOf(RelabelExpenses(es, user, Some(cat), Other), other) == RowsOf(es, other)
  {
    RelabelClearsLabel(es, user, cat, Other);
    RelabelKeepsCountAndTotal(es, user, Some(cat), Other);
    RelabelOthersUntouched(es, user, Some(cat), Other, other);
  }

  // ---------------------------------------------------------------------
  // Renaming a custom category
  // ---------------------------------------------------------------------

  datatype RenameError = EmptyName | RenamePredefined | RenameExists

  /**
   * The checks of `save_edited_category`: the trimmed name (not title-cased)
   * must be non-empty, not predefined and not equal up to case to any of the
   * user's registry names, the name being replaced included.
   */
  function CheckRename(text: string, registry: seq<CategoryRow>, user: int): (r: Result<string, RenameError>)
    ensures r == Err(EmptyName) <==> Strip(text) == []
    ensures r == Err(RenamePredefined) <==> Strip(text) != [] && Strip(text) in Predefined
    ensures r.Ok? <==>
      Strip(text) != [] && Strip(text) !in Predefined && !ExistsCaseless(RegistryNames(registry, user), Strip(text))
    ensures r.Ok? ==> r.value == Strip(text)
  {
    var name := Strip(text);
    if name == [] then Err(EmptyName)
    else if name in Predefined then Err(RenamePredefined)
    else if ExistsCaseless(RegistryNames(registry, user), name) then Err(RenameExists)
    else Ok(name)
  }

  /** Renaming to a name that passed the checks leaves no registry row under the old name. */
  lemma RenameClearsRegistry(registry: seq<CategoryRow>, user: int, from: string, to: string)
    requires from != to
    ensures CategoryRow(user, from) !in RenameRegistryRows(registry, user, Some(from), to)
  {
  }

  /** A rename that passed the checks keeps the user's registry names distinct up to case. */
  lemma {:induction false} RenameKeepsCaselessUnique(registry: seq<CategoryRow>, user: int, from: Option<string>, to: string)
    requires CaselessUnique(RegistryNames(registry, user))
    requires !ExistsCaseless(RegistryNames(registry, user), to)
    ensures CaselessUnique(RegistryNames(RenameRegistryRows(registry, user, from, to), user))
    decreases |registry|
  {
    var names := RegistryNames(registry, user);
    var r := RenameRegistryRows(registry, user, from, to);
    var after := RegistryNames(r, user);
    assert RenamedNames(names, from, to) == after by {
      RegistryNamesRename(registry, user, from, to);
    }
    forall i, j | 0 <= i < j < |after|
      ensures LowerStr(after[i]) != LowerStr(after[j])
    {
      var ni, nj := names[i], names[j];
      assert LowerStr(ni) != LowerStr(nj);
      assert LowerStr(ni) != LowerStr(to) && LowerStr(nj) != LowerStr(to);
    }
  }

  /** The registry names after a rename: every occurrence of the old name replaced. */
  function RenamedNames(names: seq<string>, from: Option<string>, to: string): (r: seq<string>)
    ensures |r| == |names|
    ensures forall i :: 0 <= i < |names| ==> r[i] == if from == Some(names[i]) then to else names[i]
  {
    if names == [] then [] else [if from == Some(names[0]) then to else names[0]] + RenamedNames(names[1..], from, to)
  }

  lemma {:induction false} RegistryNamesRename(registry: seq<CategoryRow>, user: int, from: Option<string>, to: string)
    ensures RegistryNames(RenameRegistryRows(registry, user, from, to), user) == RenamedNames(RegistryNames(registry, user), from, to)
  {
    if registry != [] {
      RegistryNamesRename(registry[1..], user, from, to);
      var r := RenameRegistryRows(registry, user, from, to);
      assert r[1..] == RenameRegistryRows(registry[1..], user, from, to);
    }
  }

  /** `edit_select:{category}`: remembers which category is being renamed and waits for the new name. */
  method EditSelect(session: Session, data: string)
    modifies session
    ensures PayloadArg(data).Some? ==> session.oldCategory == PayloadArg(data) && session.state == WaitingForEditCategory
    ensures PayloadArg(data).None? ==> session.oldCategory == old(session.oldCategory) && session.state == old(session.state)
    ensures session.expenseIds == old(session.expenseIds) && session.expenseId == old(session.expenseId)
    ensures session.period == old(session.period) && session.customPeriod == old(session.customPeriod)
  {
    var cat := PayloadArg(data);
    if cat.Some? {
      session.oldCategory := cat;
      session.state := WaitingForEditCategory;
    }
  }

  /**
   * `save_edited_category`. An empty name leaves the conversation as it was
   * so the user can try again; any other rejection ends it with nothing
   * changed. A success renames the registry row and then the user's
   * expenses. When the second statement fails (a name wider than the
   * expenses column while such expenses exist) the first has already taken
   * effect and the conversation is not ended.
   */
  method SaveEditedCategory(db: Database, session: Session, user: int, text: string)
    returns (r: Result<string, RenameError>, finished: bool)
    requires db.Valid()
    modifies db, session
    ensures db.Valid()
    ensures r == CheckRename(text, old(db.registry), user)
    ensures r.Err? ==> db.registry == old(db.registry) && db.expenses == old(db.expenses)
    ensures r == Err(EmptyName) ==> !finished && session.state == old(session.state) && session.oldCategory == old(session.oldCategory)
    ensures r.Err? && r != Err(EmptyName) ==> finished && session.Cleared()
    ensures r.Ok? ==> db.registry == RenameRegistryRows(old(db.registry), user, old(session.oldCategory), r.value)
    ensures r.Ok? && finished ==> db.expenses == RelabelExpenses(old(db.expenses), user, old(session.oldCategory), r.value)
    ensures r.Ok? && finished ==> session.Cleared()
    ensures r.Ok? && !finished ==> db.expenses == old(db.expenses) && session.state == old(session.state)
  {
    r := CheckRename(text, db.registry, user);
    finished := false;
    if r == Err(EmptyName) {
      return;
    }
    if r.Err? {
      session.Clear();
      finished := true;
      return;
    }
    var from := session.oldCategory;
    db.RenameCategory(user, from, r.value);
    var ok := db.RelabelCategory(user, from, r.value);
    if ok {
      session.Clear();
      finished := true;
    }
  }
}
