/**
 * The entities of the six-jars budget: jars, incomes, expenses, monthly
 * records and the derived per-month jar allocation.
 */
module Types {
  import opened Months

  datatype Option<T> = None | Some(value: T) {
    function GetOr(default: T): T {
      match this
      case Some(v) => v
      case None => default
    }
  }

  /** The six fixed jar categories. */
  datatype JarId = NEC | FFA | LTS | EDU | PLAY | GIVE

  /** The text code a jar id is stored and shared under. */
  function Code(id: JarId): string {
    match id
    case NEC => "NEC"
    case FFA => "FFA"
    case LTS => "LTS"
    case EDU => "EDU"
    case PLAY => "PLAY"
    case GIVE => "GIVE"
  }

  /** The jar id a stored code names, if any. */
  function ParseJarId(code: string): (r: Option<JarId>)
    ensures r.Some? ==> Code(r.value) == code
    ensures r.None? ==> forall id: JarId :: Code(id) != code
  {
    if code == "NEC" then Some(NEC)
    else if code == "FFA" then Some(FFA)
    else if code == "LTS" then Some(LTS)
    else if code == "EDU" then Some(EDU)
    else if code == "PLAY" then Some(PLAY)
    else if code == "GIVE" then Some(GIVE)
    else None
  }

  /** `code` is the code of one of the six jars. */
  predicate IsJarCode(code: string) {
    ParseJarId(code).Some?
  }

  lemma ParseCode(id: JarId)
    ensures ParseJarId(Code(id)) == Some(id)
  {
  }

  /**
   * A jar as configured in one month: its percentage is that month's own
   * allocation share. Display colour and icon are not modelled.
   */
  datatype Jar = Jar(id: JarId, name: string, percentage: int, description: string)

  /** A jar with its running balance through this month and this month's movements. */
  datatype AllocatedJar = AllocatedJar(
    jar: Jar,
    amount: real,
    amountAddedThisMonth: real,
    amountSpentThisMonth: real)

  /** An expense is charged to one jar; an income is not linked to any jar. */
  datatype Expense = Expense(id: string, jarId: JarId, amount: real, description: string)

  datatype Income = Income(id: string, amount: real, description: string)

  datatype MonthlyRecord = MonthlyRecord(
    month: YearMonth,
    incomes: seq<Income>,
    jars: seq<Jar>,
    expenses: seq<Expense>)

  /** Jar ids listed in a month's jar list. */
  function JarIds(jars: seq<Jar>): (ids: set<JarId>)
    ensures forall k :: 0 <= k < |jars| ==> jars[k].id in ids
    ensures forall id :: id in ids ==> exists k :: 0 <= k < |jars| && jars[k].id == id
  {
    set k | 0 <= k < |jars| :: jars[k].id
  }

  /** No jar id appears twice in a month's jar list. */
  predicate DistinctJarIds(jars: seq<Jar>) {
    forall i, j :: 0 <= i < j < |jars| ==> jars[i].id != jars[j].id
  }

  /** No month appears twice in the record store. */
  predicate UniqueMonths(records: seq<MonthlyRecord>) {
    forall i, j :: 0 <= i < j < |records| ==> records[i].month != records[j].month
  }
}
