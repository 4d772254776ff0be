/**
 * Hydration: reconciling externally sourced monthly records (a restored
 * backup, saved local data, a shared seed) against the jar catalog. Saved
 * jars whose id the catalog does not know are dropped; kept jars take the
 * catalog's metadata and the saved percentage, or the catalog default when
 * none was saved. Missing lists are filled with defaults.
 */
module Hydration {
  import opened Months
  import opened Types
  import opened Catalog

  /** A jar as found in saved data: its id is whatever text was stored, its percentage may be missing. */
  datatype SavedJar = SavedJar(id: string, percentage: Option<int>)

  /** A monthly record as found in saved data: any of its lists may be missing. */
  datatype SavedRecord = SavedRecord(
    month: YearMonth,
    incomes: Option<seq<Income>>,
    expenses: Option<seq<Expense>>,
    jars: Option<seq<SavedJar>>)

  /** The catalog jar for a saved jar, with the saved percentage laid over it when there is one. */
  function HydrateJar(saved: SavedJar): (r: Option<Jar>)
    ensures r.None? <==> !IsJarCode(saved.id)
    ensures r.Some? ==> Code(r.value.id) == saved.id && HasCatalogMetadata(r.value)
    ensures r.Some? && saved.percentage.Some? ==> r.value.percentage == saved.percentage.value
    ensures r.Some? && saved.percentage.None? ==> r.value.percentage == CatalogJar(r.value.id).percentage
  {
    match LookupCode(saved.id)
    case None => None
    case Some(catalogJar) =>
      Some(catalogJar.(percentage := saved.percentage.GetOr(catalogJar.percentage)))
  }

  /** A saved jar list, reconciled entry by entry in saved order; unknown ids leave no entry. */
  function HydrateJars(saved: seq<SavedJar>): (jars: seq<Jar>)
    ensures |jars| <= |saved|
    ensures forall k :: 0 <= k < |jars| ==> HasCatalogMetadata(jars[k])
    decreases |saved|
  {
    if saved == [] then []
    else
      var front := HydrateJars(saved[..|saved| - 1]);
      match HydrateJar(saved[|saved| - 1])
      case None => front
      case Some(jar) => front + [jar]
  }

  function HydrateRecord(p: SavedRecord): MonthlyRecord {
    MonthlyRecord(
      p.month,
      p.incomes.GetOr([]),
      if p.jars.Some? then HydrateJars(p.jars.value) else DefaultJars,
      p.expenses.GetOr([]))
  }

  /**
   * Every saved record, hydrated, in the same order: same months, missing
   * lists defaulted, a saved jar list reconciled against the catalog, every
   * jar carrying catalog metadata.
   */
  function HydrateRecords(records: seq<SavedRecord>): (r: seq<MonthlyRecord>)
    ensures |r| == |records|
    ensures forall i :: 0 <= i < |r| ==> r[i].month == records[i].month
    ensures forall i :: 0 <= i < |r| ==> r[i].incomes == records[i].incomes.GetOr([])
    ensures forall i :: 0 <= i < |r| ==> r[i].expenses == records[i].expenses.GetOr([])
    ensures forall i :: 0 <= i < |r| && records[i].jars.None? ==> r[i].jars == DefaultJars
    ensures forall i :: 0 <= i < |r| && records[i].jars.Some? ==> r[i].jars == HydrateJars(records[i].jars.value)
    ensures forall i, k :: 0 <= i < |r| && 0 <= k < |r[i].jars| ==> HasCatalogMetadata(r[i].jars[k])
  {
    forall j | j in DefaultJars ensures HasCatalogMetadata(j) {
      CatalogHasMetadata(j);
    }
    seq(|records|, i requires 0 <= i < |records| => HydrateRecord(records[i]))
  }

  /** Hydration reconciles each saved jar on its own, so concatenated lists hydrate to the concatenation. */
  lemma {:induction false} HydrateJarsAppend(a: seq<SavedJar>, b: seq<SavedJar>)
    ensures HydrateJars(a + b) == HydrateJars(a) + HydrateJars(b)
    decreases |b|
  {
    if b == [] {
      assert a + b == a;
    } else {
      var n := |b| - 1;
      assert (a + b)[..|a + b| - 1] == a + b[..n];
      HydrateJarsAppend(a, b[..n]);
    }
  }

  /** A saved jar with an unknown id is dropped without trace: the list hydrates as if it were absent. */
  lemma UnknownJarDropped(before: seq<SavedJar>, unknown: SavedJar, after: seq<SavedJar>)
    requires !IsJarCode(unknown.id)
    ensures HydrateJars(before + [unknown] + after) == HydrateJars(before + after)
  {
    HydrateJarsAppend(before + [unknown], after);
    HydrateJarsAppend(before, [unknown]);
    HydrateJarsAppend(before, after);
    assert [unknown][..0] == [];
  }

  /** When every saved id is known, hydration keeps every jar, in saved order. */
  lemma {:induction false} KnownJarsKept(saved: seq<SavedJar>)
    requires forall k :: 0 <= k < |saved| ==> IsJarCode(saved[k].id)
    ensures |HydrateJars(saved)| == |saved|
    ensures forall k :: 0 <= k < |saved| ==> HydrateJar(saved[k]) == Some(HydrateJars(saved)[k])
    decreases |saved|
  {
    if saved != [] {
      var n := |saved| - 1;
      var front := saved[..n];
      KnownJarsKept(front);
      var jar := HydrateJar(saved[n]).value;
      assert HydrateJars(saved) == HydrateJars(front) + [jar];
      forall k | 0 <= k < n ensures HydrateJar(saved[k]) == Some(HydrateJars(saved)[k]) {
        assert saved[k] == front[k] && HydrateJars(saved)[k] == HydrateJars(front)[k];
      }
    }
  }

  // ---------------------------------------------------------------------------
  // Backup: the full-fidelity form restore reads back

  function SaveJar(j: Jar): SavedJar {
    SavedJar(Code(j.id), Some(j.percentage))
  }

  function SaveJars(jars: seq<Jar>): (saved: seq<SavedJar>)
    ensures |saved| == |jars| && forall k :: 0 <= k < |jars| ==> saved[k] == SaveJar(jars[k])
  {
    seq(|jars|, k requires 0 <= k < |jars| => SaveJar(jars[k]))
  }

  function SaveRecord(r: MonthlyRecord): SavedRecord {
    SavedRecord(r.month, Some(r.incomes), Some(r.expenses), Some(SaveJars(r.jars)))
  }

  function SaveRecords(history: seq<MonthlyRecord>): seq<SavedRecord> {
    seq(|history|, i requires 0 <= i < |history| => SaveRecord(history[i]))
  }

  /** A history whose jars carry catalog metadata (every hydrated history does). */
  predicate CatalogConsistent(history: seq<MonthlyRecord>) {
    forall i, k :: 0 <= i < |history| && 0 <= k < |history[i].jars| ==> HasCatalogMetadata(history[i].jars[k])
  }

  /** A saved jar list restores to the jars it was saved from. */
  lemma SavedJarsRestore(jars: seq<Jar>)
    requires forall k :: 0 <= k < |jars| ==> HasCatalogMetadata(jars[k])
    ensures HydrateJars(SaveJars(jars)) == jars
  {
    var saved := SaveJars(jars);
    forall k | 0 <= k < |saved| ensures IsJarCode(saved[k].id) {
      ParseCode(jars[k].id);
    }
    KnownJarsKept(saved);
    forall k | 0 <= k < |jars| ensures HydrateJars(saved)[k] == jars[k] {
      ParseCode(jars[k].id);
    }
  }

  lemma RecordRoundTrip(r: MonthlyRecord)
    requires forall k :: 0 <= k < |r.jars| ==> HasCatalogMetadata(r.jars[k])
    ensures HydrateRecord(SaveRecord(r)) == r
  {
    SavedJarsRestore(r.jars);
  }

  /**
   * Restoring a backup reproduces the history it was taken from (same months,
   * incomes, expenses, jars and percentages) when the jars carry catalog metadata.
   */
  lemma BackupRoundTrip(history: seq<MonthlyRecord>)
    requires CatalogConsistent(history)
    ensures HydrateRecords(SaveRecords(history)) == history
  {
    forall i | 0 <= i < |history| ensures HydrateRecords(SaveRecords(history))[i] == history[i] {
      RecordRoundTrip(history[i]);
    }
  }

  /** Hydrating, backing up and restoring again changes nothing. */
  lemma HydrationStable(saved: seq<SavedRecord>)
    ensures HydrateRecords(SaveRecords(HydrateRecords(saved))) == HydrateRecords(saved)
  {
    BackupRoundTrip(HydrateRecords(saved));
  }
}
