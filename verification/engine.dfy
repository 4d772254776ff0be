/**
 * The balance accumulation engine. It walks a chronologically sorted copy of
 * the history, keeps a running balance per jar id, and emits for every month
 * one allocated jar per entry of that month's jar list: the income share it
 * receives this month, what was spent from it this month, and its running
 * balance through this month. Balances may go negative; nothing is clamped.
 */
module Engine {
  import opened Months
  import opened Types
  import opened Sorting

  /** Sum of a month's income amounts. */
  function TotalIncome(incomes: seq<Income>): real {
    if incomes == [] then 0.0
    else TotalIncome(incomes[..|incomes| - 1]) + incomes[|incomes| - 1].amount
  }

  /** Sum of a month's expense amounts charged to jar `id`. */
  function SpentOn(expenses: seq<Expense>, id: JarId): real {
    if expenses == [] then 0.0
    else
      var e := expenses[|expenses| - 1];
      SpentOn(expenses[..|expenses| - 1], id) + (if e.jarId == id then e.amount else 0.0)
  }

  /** A jar's share of the month's total income, at its raw percentage (never normalised). */
  function AddedThisMonth(totalIncome: real, jar: Jar): real {
    totalIncome * (jar.percentage as real) / 100.0
  }

  /** A jar's running balance so far; a jar id not seen before starts from zero. */
  function PreviousBalance(running: map<JarId, real>, id: JarId): real {
    if id in running then running[id] else 0.0
  }

  /**
   * One month's allocation: the month's jar list in its stored order, each
   * entry updating the running balance of its jar id.
   */
  function AllocateJars(jars: seq<Jar>, totalIncome: real, expenses: seq<Expense>, running: map<JarId, real>)
    : MonthAllocation
    decreases |jars|
  {
    if jars == [] then MonthAllocation([], running)
    else
      var front := AllocateJars(jars[..|jars| - 1], totalIncome, expenses, running);
      var jar := jars[|jars| - 1];
      var added := AddedThisMonth(totalIncome, jar);
      var spent := SpentOn(expenses, jar.id);
      var amount := PreviousBalance(front.running, jar.id) + (added - spent);
      MonthAllocation(front.entries + [AllocatedJar(jar, amount, added, spent)], front.running[jar.id := amount])
  }

  /** A month's allocated jars and the running balances after the month. */
  datatype MonthAllocation = MonthAllocation(entries: seq<AllocatedJar>, running: map<JarId, real>)

  /** The engine's state: the per-month output so far and the running balance per jar id. */
  datatype Ledger = Ledger(balances: map<YearMonth, seq<AllocatedJar>>, running: map<JarId, real>)

  function Step(ledger: Ledger, record: MonthlyRecord): Ledger {
    var month := AllocateJars(record.jars, TotalIncome(record.incomes), record.expenses, ledger.running);
    Ledger(ledger.balances[record.month := month.entries], month.running)
  }

  /** The engine run over `records` in the order given. */
  function Run(records: seq<MonthlyRecord>): Ledger
    decreases |records|
  {
    if records == [] then Ledger(map[], map[])
    else Step(Run(records[..|records| - 1]), records[|records| - 1])
  }

  /** What the engine derives from the history: the run over its chronologically sorted copy. */
  function JarBalances(history: seq<MonthlyRecord>): map<YearMonth, seq<AllocatedJar>> {
    Run(SortByMonth(history)).balances
  }

  /**
   * The engine as the app runs it: sort a copy, then one pass over the months
   * with an inner pass over each month's jars, updating the running balances
   * in place. The history itself is a value and is left as it was.
   */
  method CalculateJarBalances(history: seq<MonthlyRecord>) returns (balances: map<YearMonth, seq<AllocatedJar>>)
    ensures balances == JarBalances(history)
    ensures balances.Keys == set r | r in history :: r.month
  {
    var sorted := SortByMonth(history);
    var running: map<JarId, real> := map[];
    balances := map[];
    for i := 0 to |sorted|
      invariant Ledger(balances, running) == Run(sorted[..i])
    {
      var record := sorted[i];
      var totalIncome := TotalIncome(record.incomes);
      var expenses := record.expenses;
      ghost var before := running;
      var entries: seq<AllocatedJar> := [];
      for k := 0 to |record.jars|
        invariant MonthAllocation(entries, running) == AllocateJars(record.jars[..k], totalIncome, expenses, before)
      {
        var jar := record.jars[k];
        var added := totalIncome * (jar.percentage as real) / 100.0;
        var spent := SpentOn(expenses, jar.id);
        var previous := if jar.id in running then running[jar.id] else 0.0;
        var amount := previous + (added - spent);
        assert AllocateJars(record.jars[..k + 1], totalIncome, expenses, before)
            == MonthAllocation(entries + [AllocatedJar(jar, amount, added, spent)], running[jar.id := amount]) by {
          assert record.jars[..k + 1][..k] == record.jars[..k];
          assert record.jars[..k + 1][k] == jar;
          assert added == AddedThisMonth(totalIncome, jar);
          assert previous == PreviousBalance(running, jar.id);
        }
        running := running[jar.id := amount];
        entries := entries + [AllocatedJar(jar, amount, added, spent)];
      }
      assert record.jars[..|record.jars|] == record.jars;
      balances := balances[record.month := entries];
      assert sorted[..i + 1][..i] == sorted[..i];
    }
    assert sorted[..|sorted|] == sorted;
    MonthsCovered(history);
  }

  // ---------------------------------------------------------------------------
  // Reference sums the engine is proved against

  /**
   * What one month's jar list does to jar `id`: every entry listing `id`
   * adds its income share and takes away the month's spending on `id`.
   */
  function NetChange(jars: seq<Jar>, id: JarId, totalIncome: real, expenses: seq<Expense>): real
    decreases |jars|
  {
    if jars == [] then 0.0
    else
      var jar := jars[|jars| - 1];
      NetChange(jars[..|jars| - 1], id, totalIncome, expenses)
        + (if jar.id == id then AddedThisMonth(totalIncome, jar) - SpentOn(expenses, id) else 0.0)
  }

  /** The change a month makes to jar `id`'s balance; zero when the month does not list the jar. */
  function Contribution(record: MonthlyRecord, id: JarId): real {
    NetChange(record.jars, id, TotalIncome(record.incomes), record.expenses)
  }

  /** Sum of the contributions of `records` to jar `id`. */
  function Cumulative(records: seq<MonthlyRecord>, id: JarId): real
    decreases |records|
  {
    if records == [] then 0.0
    else Cumulative(records[..|records| - 1], id) + Contribution(records[|records| - 1], id)
  }

  /** Sum of the contributions to jar `id` of those `records` whose month is not later than `m`. */
  function CumulativeThrough(records: seq<MonthlyRecord>, id: JarId, m: YearMonth): real
    decreases |records|
  {
    if records == [] then 0.0
    else
      var r := records[|records| - 1];
      CumulativeThrough(records[..|records| - 1], id, m) + (if Before(m, r.month) then 0.0 else Contribution(r, id))
  }

  // ---------------------------------------------------------------------------
  // One month

  /** The running balances after a month: each jar id moves by exactly that month's net change. */
  lemma {:induction false} AllocateJarsRunning(jars: seq<Jar>, totalIncome: real, expenses: seq<Expense>,
                                               running: map<JarId, real>, id: JarId)
    ensures PreviousBalance(AllocateJars(jars, totalIncome, expenses, running).running, id)
         == PreviousBalance(running, id) + NetChange(jars, id, totalIncome, expenses)
    decreases |jars|
  {
    if jars != [] {
      AllocateJarsRunning(jars[..|jars| - 1], totalIncome, expenses, running, id);
    }
  }

  /** Allocating a prefix of the jar list yields the same prefix of the month's entries. */
  lemma {:induction false} AllocateJarsPrefix(jars: seq<Jar>, k: nat, totalIncome: real, expenses: seq<Expense>,
                                              running: map<JarId, real>)
    requires k <= |jars|
    ensures |AllocateJars(jars, totalIncome, expenses, running).entries| == |jars|
    ensures AllocateJars(jars[..k], totalIncome, expenses, running).entries
         == AllocateJars(jars, totalIncome, expenses, running).entries[..k]
    decreases |jars|
  {
    if jars != [] {
      var n := |jars| - 1;
      if k <= n {
        assert jars[..n][..k] == jars[..k];
        AllocateJarsPrefix(jars[..n], k, totalIncome, expenses, running);
      } else {
        AllocateJarsPrefix(jars[..n], n, totalIncome, expenses, running);
        assert jars[..k] == jars;
      }
    }
  }

  /**
   * Entry `k` of a month's output carries jar `k` unchanged, its income share,
   * its spending, and its balance: the balance before the month plus the net
   * change of the jar-list entries up to and including `k`.
   */
  lemma AllocateJarsEntry(jars: seq<Jar>, k: nat, totalIncome: real, expenses: seq<Expense>,
                          running: map<JarId, real>)
    requires k < |jars|
    ensures var entries := AllocateJars(jars, totalIncome, expenses, running).entries;
      && |entries| == |jars|
      && entries[k].jar == jars[k]
      && entries[k].amountAddedThisMonth == AddedThisMonth(totalIncome, jars[k])
      && entries[k].amountSpentThisMonth == SpentOn(expenses, jars[k].id)
      && entries[k].amount
         == PreviousBalance(running, jars[k].id) + NetChange(jars[..k + 1], jars[k].id, totalIncome, expenses)
  {
    AllocateJarsPrefix(jars, k + 1, totalIncome, expenses, running);
    AllocateJarsRunning(jars[..k], totalIncome, expenses, running, jars[k].id);
    assert jars[..k + 1][..k] == jars[..k];
  }

  /** A month's output has one entry per jar-list entry, in the same order, each carrying its jar unchanged. */
  lemma AllocateJarsEntries(jars: seq<Jar>, totalIncome: real, expenses: seq<Expense>, running: map<JarId, real>)
    ensures var entries := AllocateJars(jars, totalIncome, expenses, running).entries;
      && |entries| == |jars|
      && forall k :: 0 <= k < |jars| ==>
        && entries[k].jar == jars[k]
        && entries[k].amountAddedThisMonth == AddedThisMonth(totalIncome, jars[k])
        && entries[k].amountSpentThisMonth == SpentOn(expenses, jars[k].id)
  {
    AllocateJarsPrefix(jars, |jars|, totalIncome, expenses, running);
    forall k | 0 <= k < |jars|
      ensures AllocateJars(jars, totalIncome, expenses, running).entries[k].jar == jars[k]
      ensures AllocateJars(jars, totalIncome, expenses, running).entries[k].amountAddedThisMonth
           == AddedThisMonth(totalIncome, jars[k])
      ensures AllocateJars(jars, totalIncome, expenses, running).entries[k].amountSpentThisMonth
           == SpentOn(expenses, jars[k].id)
    {
      AllocateJarsEntry(jars, k, totalIncome, expenses, running);
    }
  }

  /** Net change over a jar list splits at any point. */
  lemma {:induction false} NetChangeAppend(a: seq<Jar>, b: seq<Jar>, id: JarId, totalIncome: real,
                                           expenses: seq<Expense>)
    ensures NetChange(a + b, id, totalIncome, expenses)
         == NetChange(a, id, totalIncome, expenses) + NetChange(b, id, totalIncome, expenses)
    decreases |b|
  {
    if b == [] {
      assert a + b == a;
    } else {
      var n := |b| - 1;
      assert (a + b)[..|a + b| - 1] == a + b[..n];
      NetChangeAppend(a, b[..n], id, totalIncome, expenses);
    }
  }

  /** Entries for other jar ids do not change jar `id`. */
  lemma {:induction false} NetChangeAbsent(jars: seq<Jar>, id: JarId, totalIncome: real, expenses: seq<Expense>)
    requires forall k :: 0 <= k < |jars| ==> jars[k].id != id
    ensures NetChange(jars, id, totalIncome, expenses) == 0.0
    decreases |jars|
  {
    if jars != [] {
      NetChangeAbsent(jars[..|jars| - 1], id, totalIncome, expenses);
    }
  }

  /**
   * When a month lists each jar once, the jar at position `k` changes by its
   * own income share minus its own spending, and the prefix up to `k` already
   * holds all of that change.
   */
  lemma NetChangeOfListedJar(jars: seq<Jar>, k: nat, totalIncome: real, expenses: seq<Expense>)
    requires DistinctJarIds(jars) && k < |jars|
    ensures NetChange(jars[..k + 1], jars[k].id, totalIncome, expenses)
         == NetChange(jars, jars[k].id, totalIncome, expenses)
         == AddedThisMonth(totalIncome, jars[k]) - SpentOn(expenses, jars[k].id)
  {
    var id := jars[k].id;
    assert jars == jars[..k + 1] + jars[k + 1..];
    assert jars[..k + 1] == jars[..k] + [jars[k]];
    NetChangeAppend(jars[..k + 1], jars[k + 1..], id, totalIncome, expenses);
    NetChangeAppend(jars[..k], [jars[k]], id, totalIncome, expenses);
    NetChangeAbsent(jars[k + 1..], id, totalIncome, expenses);
    NetChangeAbsent(jars[..k], id, totalIncome, expenses);
    assert [jars[k]][..0] == [];
  }

  /** Spending on a jar splits over a split expense list. */
  lemma {:induction false} SpentOnAppend(a: seq<Expense>, b: seq<Expense>, id: JarId)
    ensures SpentOn(a + b, id) == SpentOn(a, id) + SpentOn(b, id)
    decreases |b|
  {
    if b == [] {
      assert a + b == a;
    } else {
      var n := |b| - 1;
      assert (a + b)[..|a + b| - 1] == a + b[..n];
      SpentOnAppend(a, b[..n], id);
    }
  }

  /**
   * An expense charged to a jar id the month does not list adds to no jar's
   * spending: the month's allocation is the same as without it.
   */
  lemma OrphanExpenseIgnored(jars: seq<Jar>, totalIncome: real, before: seq<Expense>, e: Expense,
                             after: seq<Expense>, running: map<JarId, real>)
    requires e.jarId !in JarIds(jars)
    ensures AllocateJars(jars, totalIncome, before + [e] + after, running)
         == AllocateJars(jars, totalIncome, before + after, running)
  {
    forall id | id in JarIds(jars)
      ensures SpentOn(before + [e] + after, id) == SpentOn(before + after, id)
    {
      SpentOnAppend(before + [e], after, id);
      SpentOnAppend(before, after, id);
      assert (before + [e])[..|before|] == before;
    }
    OrphanAllocation(jars, totalIncome, before + [e] + after, before + after, running);
  }

  /** The allocation only reads the spending on the jar ids the month lists. */
  lemma {:induction false} OrphanAllocation(jars: seq<Jar>, totalIncome: real, ex1: seq<Expense>,
                                            ex2: seq<Expense>, running: map<JarId, real>)
    requires forall id :: id in JarIds(jars) ==> SpentOn(ex1, id) == SpentOn(ex2, id)
    ensures AllocateJars(jars, totalIncome, ex1, running) == AllocateJars(jars, totalIncome, ex2, running)
    decreases |jars|
  {
    if jars != [] {
      OrphanAllocation(jars[..|jars| - 1], totalIncome, ex1, ex2, running);
    }
  }

  // ---------------------------------------------------------------------------
  // All months

  /** The running balance of jar `id` after a run is the sum of the contributions of the months run. */
  lemma {:induction false} RunRunning(records: seq<MonthlyRecord>, id: JarId)
    ensures PreviousBalance(Run(records).running, id) == Cumulative(records, id)
    decreases |records|
  {
    if records != [] {
      var n := |records| - 1;
      var r := records[n];
      RunRunning(records[..n], id);
      AllocateJarsRunning(r.jars, TotalIncome(r.incomes), r.expenses, Run(records[..n]).running, id);
    }
  }

  /** A run has an output entry for exactly the months of the records run. */
  lemma {:induction false} RunKeys(records: seq<MonthlyRecord>)
    ensures Run(records).balances.Keys == set r | r in records :: r.month
    decreases |records|
  {
    if records != [] {
      var n := |records| - 1;
      RunKeys(records[..n]);
      assert records == records[..n] + [records[n]];
      assert (set r | r in records :: r.month) == (set r | r in records[..n] :: r.month) + {records[n].month};
    }
  }

  /** With unique months, a month's entry is the allocation computed when the run reached that month. */
  lemma {:induction false} RunEntryAt(records: seq<MonthlyRecord>, i: nat)
    requires UniqueMonths(records) && i < |records|
    ensures var r := records[i];
      && r.month in Run(records).balances
      && Run(records).balances[r.month]
         == AllocateJars(r.jars, TotalIncome(r.incomes), r.expenses, Run(records[..i]).running).entries
    decreases |records|
  {
    var n := |records| - 1;
    if i < n {
      var front := records[..n];
      assert UniqueMonths(front);
      assert front[i] == records[i] && front[..i] == records[..i];
      RunEntryAt(front, i);
      assert records[n].month != records[i].month;
    } else {
      assert records[..n] == records[..i];
    }
  }

  /** Contributions through a month split over a split record list. */
  lemma {:induction false} ThroughAppend(a: seq<MonthlyRecord>, b: seq<MonthlyRecord>, id: JarId, m: YearMonth)
    ensures CumulativeThrough(a + b, id, m) == CumulativeThrough(a, id, m) + CumulativeThrough(b, id, m)
    decreases |b|
  {
    if b == [] {
      assert a + b == a;
    } else {
      var n := |b| - 1;
      assert (a + b)[..|a + b| - 1] == a + b[..n];
      ThroughAppend(a, b[..n], id, m);
    }
  }

  /** Taking one record out of the list takes out exactly its own contribution. */
  lemma ThroughRemoveAt(b: seq<MonthlyRecord>, j: nat, id: JarId, m: YearMonth)
    requires j < |b|
    ensures CumulativeThrough(b, id, m)
         == CumulativeThrough(b[..j] + b[j + 1..], id, m) + (if Before(m, b[j].month) then 0.0 else Contribution(b[j], id))
  {
    var x := b[j];
    assert b == (b[..j] + [x]) + b[j + 1..];
    ThroughAppend(b[..j] + [x], b[j + 1..], id, m);
    ThroughAppend(b[..j], [x], id, m);
    ThroughAppend(b[..j], b[j + 1..], id, m);
    assert [x][..0] == [];
  }

  /** Taking the last record of `a` and its copy in `b` out of two permutations leaves two permutations. */
  lemma RemoveMatching(a: seq<MonthlyRecord>, b: seq<MonthlyRecord>, j: nat)
    requires multiset(a) == multiset(b) && a != [] && j < |b| && b[j] == a[|a| - 1]
    ensures multiset(a[..|a| - 1]) == multiset(b[..j] + b[j + 1..])
  {
    var x := b[j];
    assert a == a[..|a| - 1] + [x];
    assert b == b[..j] + [x] + b[j + 1..];
    assert multiset(a[..|a| - 1]) == multiset(a) - multiset{x};
    assert multiset(b[..j] + b[j + 1..]) == multiset(b) - multiset{x};
  }

  /** Contributions through a month do not depend on the order of the records. */
  lemma {:induction false} ThroughPermutation(a: seq<MonthlyRecord>, b: seq<MonthlyRecord>, id: JarId, m: YearMonth)
    requires multiset(a) == multiset(b)
    ensures CumulativeThrough(a, id, m) == CumulativeThrough(b, id, m)
    decreases |a|
  {
    if a == [] {
      assert |b| == |multiset(b)| == 0;
    } else {
      var n := |a| - 1;
      var x := a[n];
      assert x in multiset(b);
      var j :| 0 <= j < |b| && b[j] == x;
      var rest := b[..j] + b[j + 1..];
      RemoveMatching(a, b, j);
      ThroughPermutation(a[..n], rest, id, m);
      ThroughRemoveAt(b, j, id, m);
    }
  }

  /** In a sorted history with unique months, the records through month `i` are the first `i + 1`. */
  lemma ThroughSorted(s: seq<MonthlyRecord>, i: nat, id: JarId)
    requires SortedByMonth(s) && UniqueMonths(s) && i < |s|
    ensures CumulativeThrough(s, id, s[i].month) == Cumulative(s[..i + 1], id)
  {
    var m := s[i].month;
    assert s == s[..i + 1] + s[i + 1..];
    ThroughAppend(s[..i + 1], s[i + 1..], id, m);
    ThroughAllAfter(s[i + 1..], id, m);
    ThroughNoneAfter(s[..i + 1], id, m);
  }

  lemma {:induction false} ThroughAllAfter(records: seq<MonthlyRecord>, id: JarId, m: YearMonth)
    requires forall k :: 0 <= k < |records| ==> Before(m, records[k].month)
    ensures CumulativeThrough(records, id, m) == 0.0
    decreases |records|
  {
    if records != [] {
      ThroughAllAfter(records[..|records| - 1], id, m);
    }
  }

  lemma {:induction false} ThroughNoneAfter(records: seq<MonthlyRecord>, id: JarId, m: YearMonth)
    requires forall k :: 0 <= k < |records| ==> !Before(m, records[k].month)
    ensures CumulativeThrough(records, id, m) == Cumulative(records, id)
    decreases |records|
  {
    if records != [] {
      ThroughNoneAfter(records[..|records| - 1], id, m);
    }
  }

  // ---------------------------------------------------------------------------
  // The engine's promises about the history

  /** The engine's output has an entry for every month of the history and no other. */
  lemma MonthsCovered(history: seq<MonthlyRecord>)
    ensures JarBalances(history).Keys == set r | r in history :: r.month
  {
    var s := SortByMonth(history);
    RunKeys(s);
    forall r ensures r in s <==> r in history {
      assert r in s <==> r in multiset(s);
      assert r in history <==> r in multiset(history);
    }
    assert (set r | r in s :: r.month) == (set r | r in history :: r.month);
  }

  /** Where record `r` sits in the sorted copy of a history with unique months. */
  lemma PositionInSorted(history: seq<MonthlyRecord>, r: MonthlyRecord) returns (i: nat)
    requires UniqueMonths(history) && r in history
    ensures i < |SortByMonth(history)| && SortByMonth(history)[i] == r
    ensures UniqueMonths(SortByMonth(history))
  {
    var s := SortByMonth(history);
    UniquePermutation(history, s);
    assert r in multiset(s);
    i :| 0 <= i < |s| && s[i] == r;
  }

  /**
   * Every month of a history with unique months gets an entry with exactly as
   * many allocated jars as the month lists, in the same order, each carrying
   * the jar unchanged, its income share (total income times percentage over
   * 100) and its spending (the month's expenses charged to that jar id).
   */
  lemma MonthEntryShape(history: seq<MonthlyRecord>, r: MonthlyRecord)
    requires UniqueMonths(history) && r in history
    ensures r.month in JarBalances(history)
    ensures var entry := JarBalances(history)[r.month];
      && |entry| == |r.jars|
      && forall k :: 0 <= k < |r.jars| ==>
        && entry[k].jar == r.jars[k]
        && entry[k].amountAddedThisMonth == AddedThisMonth(TotalIncome(r.incomes), r.jars[k])
        && entry[k].amountSpentThisMonth == SpentOn(r.expenses, r.jars[k].id)
  {
    var i := PositionInSorted(history, r);
    var s := SortByMonth(history);
    RunEntryAt(s, i);
    AllocateJarsEntries(r.jars, TotalIncome(r.incomes), r.expenses, Run(s[..i]).running);
  }

  /** The running-sum property on the sorted copy itself. */
  lemma RunningSumSorted(s: seq<MonthlyRecord>, i: nat, k: nat)
    requires SortedByMonth(s) && UniqueMonths(s) && i < |s|
    requires DistinctJarIds(s[i].jars) && k < |s[i].jars|
    ensures s[i].month in Run(s).balances
    ensures |Run(s).balances[s[i].month]| == |s[i].jars|
    ensures Run(s).balances[s[i].month][k].amount == CumulativeThrough(s, s[i].jars[k].id, s[i].month)
  {
    var r := s[i];
    var id := r.jars[k].id;
    var ti := TotalIncome(r.incomes);
    RunEntryAt(s, i);
    AllocateJarsEntry(r.jars, k, ti, r.expenses, Run(s[..i]).running);
    NetChangeOfListedJar(r.jars, k, ti, r.expenses);
    RunRunning(s[..i], id);
    ThroughSorted(s, i, id);
    assert s[..i + 1][..i] == s[..i];
  }

  /**
   * The running balance the engine reports for a jar in month M is the sum,
   * over every record of the history whose month is not later than M, of what
   * that month adds to the jar minus what it spends from it. A jar starts from
   * zero, months that do not list it contribute nothing, and negative sums are kept.
   */
  lemma BalanceIsRunningSum(history: seq<MonthlyRecord>, r: MonthlyRecord, k: nat)
    requires UniqueMonths(history) && r in history
    requires DistinctJarIds(r.jars) && k < |r.jars|
    ensures r.month in JarBalances(history)
    ensures |JarBalances(history)[r.month]| == |r.jars|
    ensures JarBalances(history)[r.month][k].amount == CumulativeThrough(history, r.jars[k].id, r.month)
  {
    var i := PositionInSorted(history, r);
    var s := SortByMonth(history);
    RunningSumSorted(s, i, k);
    ThroughPermutation(history, s, r.jars[k].id, r.month);
  }

  /** With unique months, the engine's output does not depend on the order of the records. */
  lemma BalancesIndependentOfOrder(h1: seq<MonthlyRecord>, h2: seq<MonthlyRecord>)
    requires multiset(h1) == multiset(h2) && UniqueMonths(h1)
    ensures JarBalances(h1) == JarBalances(h2)
  {
    SortIndependentOfOrder(h1, h2);
  }
}
