/**
 * A worked history for the balance engine: two months on the catalog jars,
 * stored out of order, then a month that lists only the necessities jar.
 */
module Scenarios {
  import opened Months
  import opened Types
  import opened Catalog
  import opened Engine

  const January := YearMonth(2024, 1)
  const February := YearMonth(2024, 2)
  const March := YearMonth(2024, 3)

  /** January: a salary of 1000, no spending. */
  function JanuaryRecord(): MonthlyRecord {
    MonthlyRecord(January, [Income("salary", 1000.0, "Lương")], DefaultJars, [])
  }

  /** February: no income; 200 spent on necessities and 300 on play. */
  function FebruaryRecord(): MonthlyRecord {
    MonthlyRecord(February, [], DefaultJars,
      [Expense("market", NEC, 200.0, "Đi chợ"), Expense("trip", PLAY, 300.0, "Du lịch")])
  }

  /** March lists only the necessities jar, yet an expense is charged to the giving jar. */
  function MarchRecord(): MonthlyRecord {
    MonthlyRecord(March, [Income("bonus", 100.0, "Thưởng")], [DefaultJars[0]], [Expense("gift", GIVE, 50.0, "Quà")])
  }

  /** The contribution of a catalog month to jar `k`: its share of the month's income minus its spending. */
  lemma CatalogContribution(r: MonthlyRecord, k: nat)
    requires r.jars == DefaultJars && k < |DefaultJars|
    ensures Contribution(r, DefaultJars[k].id)
         == AddedThisMonth(TotalIncome(r.incomes), DefaultJars[k]) - SpentOn(r.expenses, DefaultJars[k].id)
  {
    CatalogLookupUnique(NEC);
    NetChangeOfListedJar(DefaultJars, k, TotalIncome(r.incomes), r.expenses);
  }

  /** January gives the necessities jar 550, the play jar 100 and the giving jar 50. */
  lemma JanuaryContributions()
    ensures TotalIncome(JanuaryRecord().incomes) == 1000.0
    ensures Contribution(JanuaryRecord(), NEC) == 550.0
    ensures Contribution(JanuaryRecord(), PLAY) == 100.0
    ensures Contribution(JanuaryRecord(), GIVE) == 50.0
  {
    var jan := JanuaryRecord();
    assert jan.incomes[..0] == [];
    CatalogContribution(jan, 0);
    CatalogContribution(jan, 4);
    CatalogContribution(jan, 5);
  }

  /** February takes 200 from the necessities jar and 300 from the play jar, nothing from the giving jar. */
  lemma FebruaryContributions()
    ensures Contribution(FebruaryRecord(), NEC) == -200.0
    ensures Contribution(FebruaryRecord(), PLAY) == -300.0
    ensures Contribution(FebruaryRecord(), GIVE) == 0.0
    ensures SpentOn(FebruaryRecord().expenses, NEC) == 200.0
  {
    var feb := FebruaryRecord();
    assert feb.expenses[..1][..0] == [] && feb.expenses[..1] == [feb.expenses[0]];
    CatalogContribution(feb, 0);
    CatalogContribution(feb, 4);
    CatalogContribution(feb, 5);
  }

  /** March lists no giving jar, so its giving expense contributes nothing. */
  lemma MarchContributions()
    ensures Contribution(MarchRecord(), GIVE) == 0.0
  {
    var mar := MarchRecord();
    NetChangeAbsent(mar.jars, GIVE, TotalIncome(mar.incomes), mar.expenses);
  }

  /** The running sums through each month of the two-month history. */
  lemma TwoMonthSums()
    ensures UniqueMonths([FebruaryRecord(), JanuaryRecord()])
    ensures CumulativeThrough([FebruaryRecord(), JanuaryRecord()], NEC, January) == 550.0
    ensures CumulativeThrough([FebruaryRecord(), JanuaryRecord()], NEC, February) == 350.0
    ensures CumulativeThrough([FebruaryRecord(), JanuaryRecord()], PLAY, February) == -200.0
  {
    JanuaryContributions();
    FebruaryContributions();
    var h := [FebruaryRecord(), JanuaryRecord()];
    assert h[..1] == [FebruaryRecord()] && h[..1][..0] == [];
  }

  /** January's necessities entry: 550 added, 550 held. */
  lemma JanuaryEntry()
    ensures var b := JarBalances([FebruaryRecord(), JanuaryRecord()]);
      && January in b && |b[January]| == 6
      && b[January][0].amountAddedThisMonth == 550.0 && b[January][0].amount == 550.0
  {
    var h := [FebruaryRecord(), JanuaryRecord()];
    TwoMonthSums();
    JanuaryContributions();
    CatalogLookupUnique(NEC);
    MonthEntryShape(h, JanuaryRecord());
    BalanceIsRunningSum(h, JanuaryRecord(), 0);
  }

  /** February's entries: necessities spends 200 and holds 350, play holds -200. */
  lemma FebruaryEntry()
    ensures var b := JarBalances([FebruaryRecord(), JanuaryRecord()]);
      && February in b && |b[February]| == 6
      && b[February][0].amountSpentThisMonth == 200.0 && b[February][0].amount == 350.0
      && b[February][4].amount == -200.0
  {
    var h := [FebruaryRecord(), JanuaryRecord()];
    TwoMonthSums();
    FebruaryContributions();
    CatalogLookupUnique(NEC);
    MonthEntryShape(h, FebruaryRecord());
    BalanceIsRunningSum(h, FebruaryRecord(), 0);
    BalanceIsRunningSum(h, FebruaryRecord(), 4);
  }

  /**
   * An expense charged to a jar its month does not list is charged nowhere:
   * March shows only the necessities jar, and the giving jar's running sum
   * through March is still January's 5% of 1000.
   */
  lemma OrphanExpenseLost()
    ensures var b := JarBalances([JanuaryRecord(), FebruaryRecord(), MarchRecord()]);
      && March in b && |b[March]| == 1 && b[March][0].jar.id == NEC
      && CumulativeThrough([JanuaryRecord(), FebruaryRecord(), MarchRecord()], GIVE, March) == 50.0
  {
    var h := [JanuaryRecord(), FebruaryRecord(), MarchRecord()];
    ThreeMonthSum();
    assert UniqueMonths(h);
    MonthEntryShape(h, MarchRecord());
  }

  lemma ThreeMonthSum()
    ensures CumulativeThrough([JanuaryRecord(), FebruaryRecord(), MarchRecord()], GIVE, March) == 50.0
  {
    var jan, feb, mar := JanuaryRecord(), FebruaryRecord(), MarchRecord();
    var h := [jan, feb, mar];
    JanuaryContributions();
    FebruaryContributions();
    MarchContributions();
    assert h[..2] == [jan, feb] && h[..2][..1] == [jan] && h[..2][..1][..0] == [];
    assert CumulativeThrough([jan], GIVE, March) == 50.0;
    assert CumulativeThrough([jan, feb], GIVE, March) == 50.0;
  }
}
