/**
 * The list updates behind the month editing handlers: editing, appending and
 * deleting incomes and expenses by id, and changing one jar's percentage.
 * Each is paired with what it does to the totals the balance engine reads.
 */
module Edits {
  import opened Types
  import opened Catalog
  import opened Engine

  /** No two entries share an id. */
  predicate DistinctIncomeIds(incomes: seq<Income>) {
    forall i, j :: 0 <= i < j < |incomes| ==> incomes[i].id != incomes[j].id
  }

  predicate DistinctExpenseIds(expenses: seq<Expense>) {
    forall i, j :: 0 <= i < j < |expenses| ==> expenses[i].id != expenses[j].id
  }

  // ---------------------------------------------------------------------------
  // Incomes

  /** Every income with id `id` takes the new amount and description; it keeps its id. */
  function EditIncomes(incomes: seq<Income>, id: string, amount: real, description: string): (r: seq<Income>)
    ensures |r| == |incomes|
    ensures forall k :: 0 <= k < |r| ==> r[k].id == incomes[k].id
    ensures forall k :: 0 <= k < |r| && incomes[k].id != id ==> r[k] == incomes[k]
    ensures forall k :: 0 <= k < |r| && incomes[k].id == id ==> r[k].amount == amount && r[k].description == description
    decreases |incomes|
  {
    if incomes == [] then []
    else
      var last := incomes[|incomes| - 1];
      EditIncomes(incomes[..|incomes| - 1], id, amount, description)
        + [if last.id == id then last.(amount := amount, description := description) else last]
  }

  /** The incomes whose id is not `id`, in their order. */
  function RemoveIncomes(incomes: seq<Income>, id: string): (r: seq<Income>)
    ensures forall x :: x in r <==> x in incomes && x.id != id
    ensures |r| <= |incomes|
    decreases |incomes|
  {
    if incomes == [] then []
    else
      var front, last := RemoveIncomes(incomes[..|incomes| - 1], id), incomes[|incomes| - 1];
      assert incomes == incomes[..|incomes| - 1] + [last];
      if last.id == id then front else front + [last]
  }

  /** A single income is kept exactly when its id is not the one deleted. */
  lemma RemoveIncomeSingle(x: Income, id: string)
    ensures RemoveIncomes([x], id) == if x.id == id then [] else [x]
  {
    assert [x][..0] == [];
  }

  /** Deletion filters each income on its own: the kept incomes stay in order, every copy of them kept. */
  lemma {:induction false} RemoveIncomesAppend(a: seq<Income>, b: seq<Income>, id: string)
    ensures RemoveIncomes(a + b, id) == RemoveIncomes(a, id) + RemoveIncomes(b, id)
    decreases |b|
  {
    if b == [] {
      assert a + b == a;
    } else {
      var n := |b| - 1;
      assert (a + b)[..|a + b| - 1] == a + b[..n];
      RemoveIncomesAppend(a, b[..n], id);
    }
  }

  /** Deleting an id that is not present changes nothing. */
  lemma {:induction false} RemoveAbsentIncome(incomes: seq<Income>, id: string)
    requires forall k :: 0 <= k < |incomes| ==> incomes[k].id != id
    ensures RemoveIncomes(incomes, id) == incomes
    decreases |incomes|
  {
    if incomes != [] {
      RemoveAbsentIncome(incomes[..|incomes| - 1], id);
      assert incomes == incomes[..|incomes| - 1] + [incomes[|incomes| - 1]];
    }
  }

  /** Deleting an income just added under a fresh id gives back the list before the addition. */
  lemma DeleteUndoesAddIncome(incomes: seq<Income>, added: Income)
    requires forall k :: 0 <= k < |incomes| ==> incomes[k].id != added.id
    ensures RemoveIncomes(incomes + [added], added.id) == incomes
  {
    assert (incomes + [added])[..|incomes|] == incomes;
    RemoveAbsentIncome(incomes, added.id);
  }

  /** Editing an id that is not present changes nothing. */
  lemma EditAbsentIncome(incomes: seq<Income>, id: string, amount: real, description: string)
    requires forall k :: 0 <= k < |incomes| ==> incomes[k].id != id
    ensures EditIncomes(incomes, id, amount, description) == incomes
  {
  }

  /** Saving the same edit twice is the same as saving it once. */
  lemma EditIncomesIdempotent(incomes: seq<Income>, id: string, amount: real, description: string)
    ensures EditIncomes(EditIncomes(incomes, id, amount, description), id, amount, description)
         == EditIncomes(incomes, id, amount, description)
  {
  }

  /** Adding an income raises the month's total income by its amount. */
  lemma AddIncomeTotal(incomes: seq<Income>, added: Income)
    ensures TotalIncome(incomes + [added]) == TotalIncome(incomes) + added.amount
  {
    assert (incomes + [added])[..|incomes|] == incomes;
  }

  /**
   * With distinct ids, editing the income at `k` replaces its amount in the
   * month's total income by the new amount.
   */
  lemma {:induction false} EditIncomeTotal(incomes: seq<Income>, k: nat, amount: real, description: string)
    requires DistinctIncomeIds(incomes) && k < |incomes|
    ensures TotalIncome(EditIncomes(incomes, incomes[k].id, amount, description))
         == TotalIncome(incomes) - incomes[k].amount + amount
    decreases |incomes|
  {
    var n := |incomes| - 1;
    var id := incomes[k].id;
    var front := incomes[..n];
    var edited := EditIncomes(incomes, id, amount, description);
    assert edited[..n] == EditIncomes(front, id, amount, description);
    assert TotalIncome(edited) == TotalIncome(edited[..n]) + edited[n].amount;
    if k < n {
      assert incomes[n].id != id && edited[n] == incomes[n];
      EditIncomeTotal(front, k, amount, description);
    } else {
      EditAbsentIncome(front, id, amount, description);
    }
  }

  /** With distinct ids, deleting the income at `k` lowers the month's total income by its amount. */
  lemma {:induction false} RemoveIncomeTotal(incomes: seq<Income>, k: nat)
    requires DistinctIncomeIds(incomes) && k < |incomes|
    ensures TotalIncome(RemoveIncomes(incomes, incomes[k].id)) == TotalIncome(incomes) - incomes[k].amount
    decreases |incomes|
  {
    var n := |incomes| - 1;
    var id := incomes[k].id;
    var front := incomes[..n];
    assert TotalIncome(incomes) == TotalIncome(front) + incomes[n].amount;
    if k < n {
      assert incomes[n].id != id;
      assert RemoveIncomes(incomes, id) == RemoveIncomes(front, id) + [incomes[n]];
      RemoveIncomeTotal(front, k);
      AddIncomeTotal(RemoveIncomes(front, id), incomes[n]);
    } else {
      assert RemoveIncomes(incomes, id) == RemoveIncomes(front, id);
      RemoveAbsentIncome(front, id);
    }
  }

  // ---------------------------------------------------------------------------
  // Expenses

  /** Every expense with id `id` takes the new jar, amount and description; it keeps its id. */
  function EditExpenses(expenses: seq<Expense>, id: string, jarId: JarId, amount: real, description: string)
    : (r: seq<Expense>)
    ensures |r| == |expenses|
    ensures forall k :: 0 <= k < |r| && expenses[k].id != id ==> r[k] == expenses[k]
    ensures forall k :: 0 <= k < |r| && expenses[k].id == id ==> r[k] == Expense(id, jarId, amount, description)
    decreases |expenses|
  {
    if expenses == [] then []
    else
      var last := expenses[|expenses| - 1];
      EditExpenses(expenses[..|expenses| - 1], id, jarId, amount, description)
        + [if last.id == id then Expense(id, jarId, amount, description) else last]
  }

  /** The expenses whose id is not `id`, in their order. */
  function RemoveExpenses(expenses: seq<Expense>, id: string): (r: seq<Expense>)
    ensures forall x :: x in r <==> x in expenses && x.id != id
    ensures |r| <= |expenses|
    decreases |expenses|
  {
    if expenses == [] then []
    else
      var front, last := RemoveExpenses(expenses[..|expenses| - 1], id), expenses[|expenses| - 1];
      assert expenses == expenses[..|expenses| - 1] + [last];
      if last.id == id then front else front + [last]
  }

  /** A single expense is kept exactly when its id is not the one deleted. */
  lemma RemoveExpenseSingle(x: Expense, id: string)
    ensures RemoveExpenses([x], id) == if x.id == id then [] else [x]
  {
    assert [x][..0] == [];
  }

  /** Deletion filters each expense on its own: the kept expenses stay in order, every copy of them kept. */
  lemma {:induction false} RemoveExpensesAppend(a: seq<Expense>, b: seq<Expense>, id: string)
    ensures RemoveExpenses(a + b, id) == RemoveExpenses(a, id) + RemoveExpenses(b, id)
    decreases |b|
  {
    if b == [] {
      assert a + b == a;
    } else {
      var n := |b| - 1;
      assert (a + b)[..|a + b| - 1] == a + b[..n];
      RemoveExpensesAppend(a, b[..n], id);
    }
  }

  lemma {:induction false} RemoveAbsentExpense(expenses: seq<Expense>, id: string)
    requires forall k :: 0 <= k < |expenses| ==> expenses[k].id != id
    ensures RemoveExpenses(expenses, id) == expenses
    decreases |expenses|
  {
    if expenses != [] {
      RemoveAbsentExpense(expenses[..|expenses| - 1], id);
      assert expenses == expenses[..|expenses| - 1] + [expenses[|expenses| - 1]];
    }
  }

  /** Deleting an expense just added under a fresh id gives back the list before the addition. */
  lemma DeleteUndoesAddExpense(expenses: seq<Expense>, added: Expense)
    requires forall k :: 0 <= k < |expenses| ==> expenses[k].id != added.id
    ensures RemoveExpenses(expenses + [added], added.id) == expenses
  {
    assert (expenses + [added])[..|expenses|] == expenses;
    RemoveAbsentExpense(expenses, added.id);
  }

  lemma EditAbsentExpense(expenses: seq<Expense>, id: string, jarId: JarId, amount: real, description: string)
    requires forall k :: 0 <= k < |expenses| ==> expenses[k].id != id
    ensures EditExpenses(expenses, id, jarId, amount, description) == expenses
  {
  }

  /** An expense's charge to jar `id`. */
  function ChargeTo(e: Expense, id: JarId): real {
    if e.jarId == id then e.amount else 0.0
  }

  /** Adding an expense raises the spending of its own jar by its amount and of no other jar. */
  lemma AddExpenseSpent(expenses: seq<Expense>, added: Expense, id: JarId)
    ensures SpentOn(expenses + [added], id) == SpentOn(expenses, id) + ChargeTo(added, id)
  {
    assert (expenses + [added])[..|expenses|] == expenses;
  }

  /** Replacing one expense changes each jar's spending by the new charge minus the old one. */
  lemma {:induction false} SpentOnReplace(a: seq<Expense>, b: seq<Expense>, k: nat, id: JarId)
    requires |a| == |b| && k < |a|
    requires forall i :: 0 <= i < |a| && i != k ==> a[i] == b[i]
    ensures SpentOn(b, id) == SpentOn(a, id) - ChargeTo(a[k], id) + ChargeTo(b[k], id)
    decreases |a|
  {
    var n := |a| - 1;
    if k < n {
      SpentOnReplace(a[..n], b[..n], k, id);
    } else {
      assert a[..n] == b[..n];
    }
  }

  /**
   * With distinct ids, editing the expense at `k` moves its charge: its old
   * jar loses the old amount, its new jar gains the new amount (the same jar
   * when the jar is not changed).
   */
  lemma EditExpenseSpent(expenses: seq<Expense>, k: nat, jarId: JarId, amount: real, description: string, id: JarId)
    requires DistinctExpenseIds(expenses) && k < |expenses|
    ensures SpentOn(EditExpenses(expenses, expenses[k].id, jarId, amount, description), id)
         == SpentOn(expenses, id) - ChargeTo(expenses[k], id) + ChargeTo(Expense(expenses[k].id, jarId, amount, description), id)
  {
    var edited := EditExpenses(expenses, expenses[k].id, jarId, amount, description);
    SpentOnReplace(expenses, edited, k, id);
  }

  /** With distinct ids, deleting the expense at `k` gives its amount back to its jar only. */
  lemma {:induction false} RemoveExpenseSpent(expenses: seq<Expense>, k: nat, id: JarId)
    requires DistinctExpenseIds(expenses) && k < |expenses|
    ensures SpentOn(RemoveExpenses(expenses, expenses[k].id), id) == SpentOn(expenses, id) - ChargeTo(expenses[k], id)
    decreases |expenses|
  {
    var n := |expenses| - 1;
    var front, target := expenses[..n], expenses[k].id;
    assert SpentOn(expenses, id) == SpentOn(front, id) + ChargeTo(expenses[n], id);
    if k < n {
      assert expenses[n].id != target;
      assert RemoveExpenses(expenses, target) == RemoveExpenses(front, target) + [expenses[n]];
      RemoveExpenseSpent(front, k, id);
      AddExpenseSpent(RemoveExpenses(front, target), expenses[n], id);
    } else {
      assert RemoveExpenses(expenses, target) == RemoveExpenses(front, target);
      RemoveAbsentExpense(front, target);
    }
  }

  // ---------------------------------------------------------------------------
  // Percentages

  /** Every jar with id `id` takes percentage `p`; ids, names and descriptions are kept. */
  function SetPercentage(jars: seq<Jar>, id: JarId, p: int): (r: seq<Jar>)
    ensures |r| == |jars|
    ensures forall k :: 0 <= k < |r| ==> r[k] == (if jars[k].id == id then jars[k].(percentage := p) else jars[k])
    decreases |jars|
  {
    if jars == [] then []
    else
      var last := jars[|jars| - 1];
      SetPercentage(jars[..|jars| - 1], id, p) + [if last.id == id then last.(percentage := p) else last]
  }

  lemma SetPercentageAbsent(jars: seq<Jar>, id: JarId, p: int)
    requires forall k :: 0 <= k < |jars| ==> jars[k].id != id
    ensures SetPercentage(jars, id, p) == jars
  {
  }

  /**
   * With distinct jar ids, changing the percentage of the jar at `k` changes
   * the month's total percentage by the difference, and the jar ids stay
   * distinct.
   */
  lemma {:induction false} SetPercentageTotal(jars: seq<Jar>, k: nat, p: int)
    requires DistinctJarIds(jars) && k < |jars|
    ensures SumPercentages(SetPercentage(jars, jars[k].id, p)) == SumPercentages(jars) - jars[k].percentage + p
    ensures DistinctJarIds(SetPercentage(jars, jars[k].id, p))
    decreases |jars|
  {
    var n := |jars| - 1;
    var front, id := jars[..n], jars[k].id;
    var updated := SetPercentage(jars, id, p);
    assert updated[..n] == SetPercentage(front, id, p);
    assert SumPercentages(updated) == SumPercentages(updated[..n]) + updated[n].percentage;
    if k < n {
      assert jars[n].id != id;
      SetPercentageTotal(front, k, p);
    } else {
      SetPercentageAbsent(front, id, p);
    }
    SetPercentageKeepsIds(jars, id, p);
  }

  /** Changing a percentage keeps every jar's id, so distinct ids stay distinct. */
  lemma SetPercentageKeepsIds(jars: seq<Jar>, id: JarId, p: int)
    requires DistinctJarIds(jars)
    ensures DistinctJarIds(SetPercentage(jars, id, p))
  {
    var updated := SetPercentage(jars, id, p);
    assert forall k :: 0 <= k < |jars| ==> updated[k].id == jars[k].id;
  }
}
