/**
 * The app's state: the record history, the user's name and the selected
 * month, with the handlers that change them. Every editing handler rewrites
 * the records whose month is the selected month and leaves the others as
 * they are; adding a month appends the month after the last record of the
 * history; restoring replaces the history with a hydrated backup.
 */
module Store {
  import opened Months
  import opened Types
  import opened Catalog
  import opened Sorting
  import opened Engine
  import opened Hydration
  import opened Edits
  import Codec

  /** What the income form submits: the id of the income being edited, if any. */
  datatype IncomeForm = IncomeForm(id: Option<string>, amount: real, description: string)

  /** What the expense form submits: the id of the expense being edited, if any. */
  datatype ExpenseForm = ExpenseForm(id: Option<string>, jarId: JarId, amount: real, description: string)

  /** A submitted form edits an existing entry only when it carries a non-empty id. */
  predicate IsEdit(id: Option<string>) {
    id.Some? && id.value != ""
  }

  /**
   * A change the editing handlers make to the selected month. A new entry
   * takes `freshId`, which the app generates from the clock and a random number.
   */
  datatype Change =
    | SaveIncome(income: IncomeForm, freshId: string)
    | DeleteIncome(incomeId: string)
    | ChangePercentage(jarId: JarId, percentage: int)
    | SaveExpense(expense: ExpenseForm, freshId: string)
    | DeleteExpense(expenseId: string)

  /** The change applied to one record; it never touches the month and touches only the list it is about. */
  function ApplyToRecord(r: MonthlyRecord, c: Change): (updated: MonthlyRecord)
    ensures updated.month == r.month
    ensures !(c.SaveIncome? || c.DeleteIncome?) ==> updated.incomes == r.incomes
    ensures !(c.SaveExpense? || c.DeleteExpense?) ==> updated.expenses == r.expenses
    ensures !c.ChangePercentage? ==> updated.jars == r.jars
  {
    match c
    case SaveIncome(form, freshId) =>
      if IsEdit(form.id) then r.(incomes := EditIncomes(r.incomes, form.id.value, form.amount, form.description))
      else r.(incomes := r.incomes + [Income(freshId, form.amount, form.description)])
    case DeleteIncome(id) =>
      r.(incomes := RemoveIncomes(r.incomes, id))
    case ChangePercentage(id, p) =>
      r.(jars := SetPercentage(r.jars, id, p))
    case SaveExpense(form, freshId) =>
      if IsEdit(form.id) then r.(expenses := EditExpenses(r.expenses, form.id.value, form.jarId, form.amount, form.description))
      else r.(expenses := r.expenses + [Expense(freshId, form.jarId, form.amount, form.description)])
    case DeleteExpense(id) =>
      r.(expenses := RemoveExpenses(r.expenses, id))
  }

  /** The history after a change to month `m`: records of other months are untouched, no record moves. */
  function ApplyToMonth(history: seq<MonthlyRecord>, m: YearMonth, c: Change): (updated: seq<MonthlyRecord>)
    ensures |updated| == |history|
    ensures forall i :: 0 <= i < |history| ==> updated[i].month == history[i].month
    ensures forall i :: 0 <= i < |history| && history[i].month != m ==> updated[i] == history[i]
    ensures forall i :: 0 <= i < |history| && history[i].month == m ==> updated[i] == ApplyToRecord(history[i], c)
  {
    seq(|history|, i requires 0 <= i < |history| => if history[i].month == m then ApplyToRecord(history[i], c) else history[i])
  }

  /** A change keeps the history's months unique and its order chronological. */
  lemma ApplyKeepsShape(history: seq<MonthlyRecord>, m: YearMonth, c: Change)
    ensures UniqueMonths(history) ==> UniqueMonths(ApplyToMonth(history, m, c))
    ensures SortedByMonth(history) ==> SortedByMonth(ApplyToMonth(history, m, c))
  {
  }

  /** When no record has the selected month (a stale selection), a change does nothing. */
  lemma ApplyToAbsentMonth(history: seq<MonthlyRecord>, m: YearMonth, c: Change)
    requires forall i :: 0 <= i < |history| ==> history[i].month != m
    ensures ApplyToMonth(history, m, c) == history
  {
  }

  /** Histories that agree on every record not later than `m` give every jar the same running sum through `m`. */
  lemma {:induction false} ThroughAgrees(a: seq<MonthlyRecord>, b: seq<MonthlyRecord>, id: JarId, m: YearMonth)
    requires |a| == |b|
    requires forall i :: 0 <= i < |a| ==> a[i] == b[i] || (Before(m, a[i].month) && Before(m, b[i].month))
    ensures CumulativeThrough(a, id, m) == CumulativeThrough(b, id, m)
    decreases |a|
  {
    if a != [] {
      ThroughAgrees(a[..|a| - 1], b[..|b| - 1], id, m);
    }
  }

  /**
   * Editing the selected month leaves every allocated jar of every earlier
   * month exactly as it was: its jar, its income share, its spending and its
   * running balance.
   */
  lemma EarlierMonthsUnaffected(history: seq<MonthlyRecord>, m: YearMonth, c: Change, r: MonthlyRecord, k: nat)
    requires UniqueMonths(history) && r in history && Before(r.month, m)
    requires DistinctJarIds(r.jars) && k < |r.jars|
    ensures r.month in JarBalances(ApplyToMonth(history, m, c)) && r.month in JarBalances(history)
    ensures |JarBalances(ApplyToMonth(history, m, c))[r.month]| == |JarBalances(history)[r.month]| == |r.jars|
    ensures JarBalances(ApplyToMonth(history, m, c))[r.month][k] == JarBalances(history)[r.month][k]
  {
    var updated := ApplyToMonth(history, m, c);
    ApplyKeepsShape(history, m, c);
    var i :| 0 <= i < |history| && history[i] == r;
    assert updated[i] == r;
    MonthEntryShape(history, r);
    MonthEntryShape(updated, r);
    BalanceIsRunningSum(history, r, k);
    BalanceIsRunningSum(updated, r, k);
    ThroughAgrees(history, updated, r.jars[k].id, r.month);
  }

  /** Adding an income to month `m` raises the total income of each record of `m` by its amount. */
  lemma AddedIncomeRecord(history: seq<MonthlyRecord>, i: nat, form: IncomeForm, freshId: string)
    requires i < |history| && !IsEdit(form.id)
    ensures var updated := ApplyToMonth(history, history[i].month, SaveIncome(form, freshId));
      && updated[i].month == history[i].month && updated[i].jars == history[i].jars
      && TotalIncome(updated[i].incomes) == TotalIncome(history[i].incomes) + form.amount
  {
    AddIncomeTotal(history[i].incomes, Income(freshId, form.amount, form.description));
  }

  /**
   * Adding an income to the selected month raises every jar's share of that
   * month to the jar's percentage of the new total income.
   */
  lemma AddedIncomeRaisesShares(history: seq<MonthlyRecord>, i: nat, form: IncomeForm, freshId: string, k: nat)
    requires UniqueMonths(history) && i < |history| && !IsEdit(form.id) && k < |history[i].jars|
    ensures var updated := ApplyToMonth(history, history[i].month, SaveIncome(form, freshId));
      && history[i].month in JarBalances(updated)
      && k < |JarBalances(updated)[history[i].month]|
      && JarBalances(updated)[history[i].month][k].amountAddedThisMonth
         == AddedThisMonth(TotalIncome(history[i].incomes) + form.amount, history[i].jars[k])
  {
    var m := history[i].month;
    var updated := ApplyToMonth(history, m, SaveIncome(form, freshId));
    ApplyKeepsShape(history, m, SaveIncome(form, freshId));
    AddedIncomeRecord(history, i, form, freshId);
    MonthEntryShape(updated, updated[i]);
  }

  // ---------------------------------------------------------------------------
  // The month on screen

  /** Position of the first record of month `m`, if any. */
  function FindMonth(history: seq<MonthlyRecord>, m: YearMonth): (i: Option<nat>)
    ensures i.Some? ==> i.value < |history| && history[i.value].month == m
    ensures i.Some? ==> forall j :: 0 <= j < i.value ==> history[j].month != m
    ensures i.None? ==> forall j :: 0 <= j < |history| ==> history[j].month != m
    decreases |history|
  {
    if history == [] then None
    else if history[0].month == m then Some(0)
    else
      match FindMonth(history[1..], m)
      case None => None
      case Some(j) => Some(j + 1)
  }

  /**
   * The record shown for the selected month: the first record of that month,
   * or the history's last record when no record has it; none for an empty history.
   */
  function CurrentMonthRecord(history: seq<MonthlyRecord>, selected: YearMonth): (r: Option<MonthlyRecord>)
    ensures r.None? <==> history == []
    ensures r.Some? ==> r.value in history
    ensures forall j :: 0 <= j < |history| && history[j].month == selected ==> r.Some? && r.value.month == selected
    ensures r.Some? && r.value.month != selected ==> r.value == history[|history| - 1]
    ensures UniqueMonths(history) ==> forall j :: 0 <= j < |history| && history[j].month == selected ==> r == Some(history[j])
    ensures FindMonth(history, selected).Some? ==> r == Some(history[FindMonth(history, selected).value])
  {
    if history == [] then None
    else
      match FindMonth(history, selected)
      case Some(i) => Some(history[i])
      case None => Some(history[|history| - 1])
  }

  // ---------------------------------------------------------------------------
  // Adding a month

  /**
   * What adding a month does: nothing without records; nothing when the last
   * record's month is not a valid month or its successor is past year 9999;
   * nothing when the month after the last record already exists; otherwise
   * that month is added.
   */
  datatype AddMonthOutcome = Added(month: YearMonth) | AlreadyExists(month: YearMonth) | NoRecords | InvalidMonth

  function AddMonthOutcomeOf(history: seq<MonthlyRecord>): (o: AddMonthOutcome)
    ensures o.NoRecords? <==> history == []
    ensures o.Added? || o.AlreadyExists? ==>
      Valid(history[|history| - 1].month) && o.month == NextMonth(history[|history| - 1].month) && Valid(o.month)
    ensures o.Added? ==> forall j :: 0 <= j < |history| ==> history[j].month != o.month
    ensures o.AlreadyExists? ==> FindMonth(history, o.month).Some?
    ensures o.InvalidMonth? <==> history != [] && !(Valid(history[|history| - 1].month) && Valid(NextMonth(history[|history| - 1].month)))
  {
    if history == [] then NoRecords
    else
      var last := history[|history| - 1].month;
      if !Valid(last) then InvalidMonth
      else
        var next := NextMonth(last);
        if !Valid(next) then InvalidMonth
        else if FindMonth(history, next).Some? then AlreadyExists(next)
        else Added(next)
  }

  /** The empty month that is added: no incomes or expenses, the last record's jars. */
  function NewMonthRecord(history: seq<MonthlyRecord>, month: YearMonth): (r: MonthlyRecord)
    requires history != []
    ensures r.month == month && r.jars == history[|history| - 1].jars
    ensures r.incomes == [] && r.expenses == []
    ensures TotalIncome(r.incomes) == 0.0
    ensures forall id :: SpentOn(r.expenses, id) == 0.0
  {
    MonthlyRecord(month, [], history[|history| - 1].jars, [])
  }

  /**
   * The history after adding a month: unchanged unless the add succeeds, and
   * then the old records followed by one new month that was not there before.
   */
  function AfterAddMonth(history: seq<MonthlyRecord>): (h: seq<MonthlyRecord>)
    ensures !AddMonthOutcomeOf(history).Added? ==> h == history
    ensures AddMonthOutcomeOf(history).Added? ==>
      |h| == |history| + 1 && h[..|history|] == history
      && h[|history|] == NewMonthRecord(history, AddMonthOutcomeOf(history).month)
    ensures UniqueMonths(history) ==> UniqueMonths(h)
  {
    match AddMonthOutcomeOf(history)
    case Added(month) => history + [NewMonthRecord(history, month)]
    case _ => history
  }

  /** Every record's month is a valid month. */
  predicate AllValid(history: seq<MonthlyRecord>) {
    forall i :: 0 <= i < |history| ==> Valid(history[i].month)
  }

  /**
   * On a chronological history of valid months whose last month is before
   * December 9999, adding a month always succeeds, and the history stays
   * chronological with unique, valid months.
   */
  lemma AddMonthKeepsOrder(history: seq<MonthlyRecord>)
    requires history != [] && SortedByMonth(history) && UniqueMonths(history) && AllValid(history)
    requires history[|history| - 1].month.year < 9999
    ensures AddMonthOutcomeOf(history) == Added(NextMonth(history[|history| - 1].month))
    ensures var after := AfterAddMonth(history);
      |after| == |history| + 1 && SortedByMonth(after) && UniqueMonths(after) && AllValid(after)
  {
    var last := history[|history| - 1].month;
    var next := NextMonth(last);
    forall j | 0 <= j < |history| ensures Before(history[j].month, next) {
      if j < |history| - 1 {
        assert !Before(last, history[j].month);
      }
    }
    var after := AfterAddMonth(history);
    assert after == history + [NewMonthRecord(history, next)];
  }

  /**
   * Adding a month twice adds two consecutive months: the handler is not
   * idempotent, since each call starts from the month after the last record.
   */
  lemma AddMonthTwice(history: seq<MonthlyRecord>)
    requires history != [] && SortedByMonth(history) && UniqueMonths(history) && AllValid(history)
    requires history[|history| - 1].month.year < 9998
    ensures var once := AfterAddMonth(history);
      AddMonthOutcomeOf(once) == Added(NextMonth(NextMonth(history[|history| - 1].month)))
  {
    AddMonthKeepsOrder(history);
    AddMonthKeepsOrder(AfterAddMonth(history));
  }

  /** A month with no income and no expenses changes no jar's balance. */
  lemma {:induction false} IdleMonth(jars: seq<Jar>, id: JarId)
    ensures NetChange(jars, id, 0.0, []) == 0.0
    decreases |jars|
  {
    if jars != [] {
      IdleMonth(jars[..|jars| - 1], id);
    }
  }

  /**
   * The added month starts with every jar at its running balance through that
   * month: the sum of all earlier contributions, with nothing added or spent.
   */
  lemma NewMonthCarriesBalances(history: seq<MonthlyRecord>, k: nat)
    requires UniqueMonths(history) && AddMonthOutcomeOf(history).Added?
    requires DistinctJarIds(history[|history| - 1].jars) && k < |history[|history| - 1].jars|
    ensures var next := AddMonthOutcomeOf(history).month;
      var id := history[|history| - 1].jars[k].id;
      && next in JarBalances(AfterAddMonth(history))
      && k < |JarBalances(AfterAddMonth(history))[next]|
      && JarBalances(AfterAddMonth(history))[next][k].amount == CumulativeThrough(history, id, next)
      && JarBalances(AfterAddMonth(history))[next][k].amountAddedThisMonth == 0.0
      && JarBalances(AfterAddMonth(history))[next][k].amountSpentThisMonth == 0.0
  {
    var next := AddMonthOutcomeOf(history).month;
    var rec := NewMonthRecord(history, next);
    var after := history + [rec];
    var id := rec.jars[k].id;
    assert after[..|history|] == history;
    assert UniqueMonths(after);
    BalanceIsRunningSum(after, rec, k);
    MonthEntryShape(after, rec);
    IdleMonth(rec.jars, id);
  }

  // ---------------------------------------------------------------------------
  // Start-up

  /** Saved app data as read back: a (possibly empty) record list and a name. */
  datatype SavedData = SavedData(history: seq<SavedRecord>, userName: string)

  datatype StartState = StartState(history: seq<MonthlyRecord>, userName: string)

  /** The single saved record a share link seeds the store with. */
  function ShareSeed(shared: Codec.Shared, currentMonth: YearMonth): seq<SavedRecord> {
    [SavedRecord(currentMonth, Some([]), Some([]), Some(SaveJars(shared.jars)))]
  }

  /**
   * Where the app starts: a share link that decodes wins, then saved data
   * that has both a history and a name, then one empty month on the catalog jars.
   */
  function Start(shareText: Option<string>, saved: Option<SavedData>, currentMonth: YearMonth): (s: StartState)
    ensures saved.None? ==> |s.history| > 0
    ensures saved.Some? && |saved.value.history| > 0 ==> |s.history| > 0
    ensures (shareText.None? || Codec.Decode(shareText.value).None?) && saved.None? ==>
      s == StartState([MonthlyRecord(currentMonth, [], DefaultJars, [])], "")
  {
    var decoded := if shareText.Some? then Codec.Decode(shareText.value) else None;
    if decoded.Some? then
      StartState(HydrateRecords(ShareSeed(decoded.value, currentMonth)), decoded.value.userName)
    else if saved.Some? then
      StartState(HydrateRecords(saved.value.history), saved.value.userName)
    else
      StartState([MonthlyRecord(currentMonth, [], DefaultJars, [])], "")
  }

  /**
   * A decodable share link wins over whatever storage holds, and since shared
   * jars are catalog jars, hydrating the share seed keeps them exactly.
   */
  lemma ShareSeedKeepsJars(text: string, saved: Option<SavedData>, currentMonth: YearMonth)
    requires Codec.Decode(text).Some?
    ensures var shared := Codec.Decode(text).value;
      Start(Some(text), saved, currentMonth) == StartState([MonthlyRecord(currentMonth, [], shared.jars, [])], shared.userName)
  {
    var shared := Codec.Decode(text).value;
    forall k | 0 <= k < |shared.jars| ensures HasCatalogMetadata(shared.jars[k]) {
      CatalogHasMetadata(DefaultJars[k]);
      assert shared.jars[k].(percentage := DefaultJars[k].percentage) == DefaultJars[k];
    }
    SavedJarsRestore(shared.jars);
  }

  // ---------------------------------------------------------------------------
  // The store

  class RecordStore {
    var history: seq<MonthlyRecord>
    var userName: string
    var selectedMonth: YearMonth

    /** The app opens on the last record of its start history, which must not be empty. */
    constructor(start: StartState)
      requires start.history != []
      ensures history == start.history && userName == start.userName
      ensures selectedMonth == start.history[|start.history| - 1].month
    {
      history := start.history;
      userName := start.userName;
      selectedMonth := start.history[|start.history| - 1].month;
    }

    /** The allocated jars of the selected month, or none when the engine has no entry for it. */
    method SelectedMonthJars() returns (entries: seq<AllocatedJar>)
      ensures selectedMonth in JarBalances(history) ==> entries == JarBalances(history)[selectedMonth]
      ensures selectedMonth !in JarBalances(history) ==> entries == []
      ensures UniqueMonths(history) ==> forall j :: 0 <= j < |history| && history[j].month == selectedMonth ==>
        |entries| == |history[j].jars|
    {
      var balances := CalculateJarBalances(history);
      entries := if selectedMonth in balances then balances[selectedMonth] else [];
      if UniqueMonths(history) {
        forall j | 0 <= j < |history| && history[j].month == selectedMonth
          ensures |entries| == |history[j].jars|
        {
          MonthEntryShape(history, history[j]);
        }
      }
    }

    /** Saves the income form into the selected month: edits the income with the form's id, or adds one. */
    method SaveIncomeForm(form: IncomeForm, freshId: string)
      modifies this
      ensures history == ApplyToMonth(old(history), selectedMonth, SaveIncome(form, freshId))
      ensures selectedMonth == old(selectedMonth) && userName == old(userName)
    {
      history := ApplyToMonth(history, selectedMonth, SaveIncome(form, freshId));
    }

    /** Deletes every income with `id` from the selected month, once the user confirms. */
    method DeleteIncomeById(id: string, confirmed: bool)
      modifies this
      ensures history == if confirmed then ApplyToMonth(old(history), selectedMonth, DeleteIncome(id)) else old(history)
      ensures selectedMonth == old(selectedMonth) && userName == old(userName)
    {
      if confirmed {
        history := ApplyToMonth(history, selectedMonth, DeleteIncome(id));
      }
    }

    /** Sets the percentage of jar `id` in the selected month only. */
    method SetJarPercentage(id: JarId, percentage: int)
      modifies this
      ensures history == ApplyToMonth(old(history), selectedMonth, ChangePercentage(id, percentage))
      ensures selectedMonth == old(selectedMonth) && userName == old(userName)
    {
      history := ApplyToMonth(history, selectedMonth, ChangePercentage(id, percentage));
    }

    /** Saves the expense form into the selected month: edits the expense with the form's id, or adds one. */
    method SaveExpenseForm(form: ExpenseForm, freshId: string)
      modifies this
      ensures history == ApplyToMonth(old(history), selectedMonth, SaveExpense(form, freshId))
      ensures selectedMonth == old(selectedMonth) && userName == old(userName)
    {
      history := ApplyToMonth(history, selectedMonth, SaveExpense(form, freshId));
    }

    /** Deletes every expense with `id` from the selected month, once the user confirms. */
    method DeleteExpenseById(id: string, confirmed: bool)
      modifies this
      ensures history == if confirmed then ApplyToMonth(old(history), selectedMonth, DeleteExpense(id)) else old(history)
      ensures selectedMonth == old(selectedMonth) && userName == old(userName)
    {
      if confirmed {
        history := ApplyToMonth(history, selectedMonth, DeleteExpense(id));
      }
    }

    /** Appends the month after the last record and selects it, unless the outcome says otherwise. */
    method AddNewMonth() returns (outcome: AddMonthOutcome)
      modifies this
      ensures outcome == AddMonthOutcomeOf(old(history))
      ensures history == AfterAddMonth(old(history))
      ensures selectedMonth == if outcome.Added? then outcome.month else old(selectedMonth)
      ensures userName == old(userName)
    {
      outcome := AddMonthOutcomeOf(history);
      if outcome.Added? {
        history := history + [NewMonthRecord(history, outcome.month)];
        selectedMonth := outcome.month;
      }
    }

    /** Replaces the history by the hydrated backup and the name, selecting the last restored month. */
    method RestoreData(saved: seq<SavedRecord>, name: string)
      modifies this
      ensures history == HydrateRecords(saved) && userName == name
      ensures selectedMonth == if saved != [] then history[|history| - 1].month else old(selectedMonth)
      ensures saved != [] ==> selectedMonth == saved[|saved| - 1].month
    {
      var hydrated := HydrateRecords(saved);
      history, userName := hydrated, name;
      if saved != [] {
        assert hydrated[|saved| - 1].month == saved[|saved| - 1].month;
        selectedMonth := hydrated[|saved| - 1].month;
      }
    }
  }
}
