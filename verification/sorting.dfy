/**
 * The chronological copy of the history that the balance engine walks. The
 * app copies the records and sorts the copy with the platform's stable sort,
 * comparing month keys; `SortByMonth` is an insertion sort with the same
 * comparison (on valid months text order is chronological order, see
 * `Months.FormatOrder`). Only the permutation and the order are proved, not
 * stability; with unique months `SortedUniqueDetermined` shows the sorted
 * copy is the only one.
 */
module Sorting {
  import opened Months
  import opened Types

  /** No record is chronologically later than a record after it. */
  predicate SortedByMonth(s: seq<MonthlyRecord>) {
    forall i, j :: 0 <= i < j < |s| ==> !Before(s[j].month, s[i].month)
  }

  /** Places `r` after every record of `sorted` whose month is not later than its own. */
  function Insert(sorted: seq<MonthlyRecord>, r: MonthlyRecord): (t: seq<MonthlyRecord>)
    ensures multiset(t) == multiset(sorted) + multiset{r}
    ensures |t| == |sorted| + 1
    ensures SortedByMonth(sorted) ==> SortedByMonth(t)
    decreases |sorted|
  {
    if sorted == [] || !Before(r.month, sorted[|sorted| - 1].month) then
      assert SortedByMonth(sorted) ==> SortedByMonth(sorted + [r]) by {
        if SortedByMonth(sorted) {
          assert forall j :: 0 <= j < |sorted| ==> !Before(r.month, sorted[j].month);
          SortedSnoc(sorted, r);
        }
      }
      sorted + [r]
    else
      var front, last := sorted[..|sorted| - 1], sorted[|sorted| - 1];
      assert sorted == front + [last];
      var rest := Insert(front, r);
      assert SortedByMonth(sorted) ==> SortedByMonth(rest + [last]) by {
        if SortedByMonth(sorted) {
          assert forall j :: 0 <= j < |front| ==> front[j] == sorted[j];
          assert SortedByMonth(front);
          NoneLater(rest, front, r, last.month);
          SortedSnoc(rest, last);
        }
      }
      rest + [last]
  }

  /** A record no earlier than every record of a sorted list may follow it. */
  lemma SortedSnoc(s: seq<MonthlyRecord>, r: MonthlyRecord)
    requires SortedByMonth(s)
    requires forall j :: 0 <= j < |s| ==> !Before(r.month, s[j].month)
    ensures SortedByMonth(s + [r])
  {
  }

  /** When no record of `front` nor `r` is later than `m`, no record of a rearrangement of them is. */
  lemma NoneLater(rest: seq<MonthlyRecord>, front: seq<MonthlyRecord>, r: MonthlyRecord, m: YearMonth)
    requires multiset(rest) == multiset(front) + multiset{r}
    requires forall j :: 0 <= j < |front| ==> !Before(m, front[j].month)
    requires !Before(m, r.month)
    ensures forall i :: 0 <= i < |rest| ==> !Before(m, rest[i].month)
  {
    forall i | 0 <= i < |rest| ensures !Before(m, rest[i].month) {
      assert rest[i] in multiset(rest);
      if rest[i] != r {
        assert rest[i] in multiset(front);
        var j :| 0 <= j < |front| && front[j] == rest[i];
      }
    }
  }

  /** The chronologically sorted copy of `records`. */
  function SortByMonth(records: seq<MonthlyRecord>): (s: seq<MonthlyRecord>)
    ensures multiset(s) == multiset(records)
    ensures |s| == |records|
    ensures SortedByMonth(s)
    decreases |records|
  {
    if records == [] then []
    else
      assert records == records[..|records| - 1] + [records[|records| - 1]];
      Insert(SortByMonth(records[..|records| - 1]), records[|records| - 1])
  }

  /** Removing the record at `j` keeps months unique, and no remaining record shares its month. */
  lemma RemoveAtUnique(a: seq<MonthlyRecord>, j: nat)
    requires UniqueMonths(a) && j < |a|
    ensures UniqueMonths(a[..j] + a[j + 1..])
    ensures multiset(a) == multiset(a[..j] + a[j + 1..]) + multiset{a[j]}
    ensures forall y :: y in a[..j] + a[j + 1..] ==> y.month != a[j].month
  {
    var rest := a[..j] + a[j + 1..];
    assert a == a[..j] + [a[j]] + a[j + 1..];
    assert forall k :: 0 <= k < j ==> rest[k] == a[k];
    assert forall k :: j <= k < |rest| ==> rest[k] == a[k + 1];
    forall p, q | 0 <= p < q < |rest| ensures rest[p].month != rest[q].month {
      var p', q' := if p < j then p else p + 1, if q < j then q else q + 1;
      assert rest[p] == a[p'] && rest[q] == a[q'];
    }
    forall y | y in rest ensures y.month != a[j].month {
      var k :| 0 <= k < |rest| && rest[k] == y;
      var k' := if k < j then k else k + 1;
      assert a[k'] == y && k' != j;
    }
  }

  /** The record `b` ends with can be taken out of `a`, leaving the records of the rest of `b`. */
  lemma TakeOutLast(a: seq<MonthlyRecord>, b: seq<MonthlyRecord>) returns (rest: seq<MonthlyRecord>)
    requires multiset(a) == multiset(b) && UniqueMonths(a) && b != []
    ensures multiset(rest) == multiset(b[..|b| - 1]) && UniqueMonths(rest)
    ensures forall y :: y in multiset(rest) ==> y.month != b[|b| - 1].month
  {
    var front, x := b[..|b| - 1], b[|b| - 1];
    assert b == front + [x];
    assert multiset(b) == multiset(front) + multiset{x};
    assert x in multiset(a);
    var j :| 0 <= j < |a| && a[j] == x;
    rest := a[..j] + a[j + 1..];
    RemoveAtUnique(a, j);
    assert multiset(rest) == multiset(a) - multiset{x};
    assert multiset(front) == multiset(b) - multiset{x};
  }

  /** Reordering the records keeps their months unique. */
  lemma {:induction false} UniquePermutation(a: seq<MonthlyRecord>, b: seq<MonthlyRecord>)
    requires multiset(a) == multiset(b)
    requires UniqueMonths(a)
    ensures UniqueMonths(b)
    decreases |b|
  {
    if b != [] {
      var front, x := b[..|b| - 1], b[|b| - 1];
      var rest := TakeOutLast(a, b);
      UniquePermutation(rest, front);
      forall p | 0 <= p < |front| ensures front[p].month != x.month {
        assert front[p] in multiset(rest);
      }
      assert b == front + [x];
    }
  }

  /** Sorted arrangements of the same records with unique months end with the same record. */
  lemma SameLast(s: seq<MonthlyRecord>, t: seq<MonthlyRecord>)
    requires multiset(s) == multiset(t) && |s| == |t| > 0
    requires SortedByMonth(s) && SortedByMonth(t)
    requires UniqueMonths(t)
    ensures s[|s| - 1] == t[|t| - 1]
  {
    var n := |s| - 1;
    assert s[n] in multiset(t);
    var j :| 0 <= j < |t| && t[j] == s[n];
    assert t[n] in multiset(s);
    var i :| 0 <= i < |s| && s[i] == t[n];
    assert !Before(s[n].month, s[i].month);
    assert t[j].month == t[n].month;
  }

  /** Dropping the last record keeps a history sorted and its months unique. */
  lemma DropLast(s: seq<MonthlyRecord>)
    requires |s| > 0
    ensures SortedByMonth(s) ==> SortedByMonth(s[..|s| - 1])
    ensures UniqueMonths(s) ==> UniqueMonths(s[..|s| - 1])
    ensures multiset(s[..|s| - 1]) == multiset(s) - multiset{s[|s| - 1]}
  {
    assert s == s[..|s| - 1] + [s[|s| - 1]];
  }

  /** Two sorted arrangements of the same records with unique months are the same sequence. */
  lemma {:induction false} SortedUniqueDetermined(s: seq<MonthlyRecord>, t: seq<MonthlyRecord>)
    requires multiset(s) == multiset(t)
    requires SortedByMonth(s) && SortedByMonth(t)
    requires UniqueMonths(s) && UniqueMonths(t)
    ensures s == t
    decreases |s|
  {
    assert |s| == |multiset(s)| == |t|;
    if s != [] {
      var n := |s| - 1;
      SameLast(s, t);
      DropLast(s);
      DropLast(t);
      SortedUniqueDetermined(s[..n], t[..n]);
      calc {
        s;
        s[..n] + [s[n]];
        t[..n] + [t[n]];
        t;
      }
    }
  }

  /** With unique months, the sorted copy does not depend on the order of the records. */
  lemma SortIndependentOfOrder(h1: seq<MonthlyRecord>, h2: seq<MonthlyRecord>)
    requires multiset(h1) == multiset(h2)
    requires UniqueMonths(h1)
    ensures SortByMonth(h1) == SortByMonth(h2)
  {
    UniquePermutation(h1, SortByMonth(h1));
    UniquePermutation(h1, SortByMonth(h2));
    SortedUniqueDetermined(SortByMonth(h1), SortByMonth(h2));
  }
}
