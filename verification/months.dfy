/**
 * Month keys of the record store. The app keys each monthly record by the
 * seven-character text "YYYY-MM" (the first seven characters of an ISO
 * timestamp) and orders records by comparing that text. Here a month is the
 * pair (year, month); `Format` gives its text and `FormatOrder` shows that
 * comparing the texts is comparing the months chronologically.
 */
module Months {
  import opened Text

  /** A calendar month; `month` counts from 1 (January) to 12 (December). */
  datatype YearMonth = YearMonth(year: int, month: int)

  /** A month whose key is a four-digit year and a two-digit month. */
  predicate Valid(m: YearMonth) {
    0 <= m.year <= 9999 && 1 <= m.month <= 12
  }

  /** Chronological order: `a` is strictly earlier than `b`. */
  predicate Before(a: YearMonth, b: YearMonth) {
    a.year < b.year || (a.year == b.year && a.month < b.month)
  }

  /**
   * The month after `m`: December rolls over to January of the next year.
   * The app gets it by adding one month to a date on the 1st of `m`.
   */
  function NextMonth(m: YearMonth): (n: YearMonth)
    requires Valid(m)
    ensures Before(m, n)
    ensures m.year < 9999 ==> Valid(n)
    ensures forall x :: Valid(x) ==> !(Before(m, x) && Before(x, n))
  {
    if m.month == 12 then YearMonth(m.year + 1, 1) else YearMonth(m.year, m.month + 1)
  }

  function Pow10(w: nat): (p: nat)
    ensures p >= 1
  {
    if w == 0 then 1 else 10 * Pow10(w - 1)
  }

  /** `n` written with exactly `width` decimal digits, zero-padded on the left. */
  function Padded(n: nat, width: nat): (s: string)
    ensures |s| == width && AllDigits(s)
  {
    if width == 0 then [] else Padded(n / 10, width - 1) + [DigitChar(n % 10)]
  }

  /** A number that fits the width reads back from its padded text. */
  lemma {:induction false} PaddedValue(n: nat, width: nat)
    requires n < Pow10(width)
    ensures DigitsValue(Padded(n, width)) == n
    decreases width
  {
    if width > 0 {
      var s := Padded(n, width);
      PaddedValue(n / 10, width - 1);
      assert s[..width - 1] == Padded(n / 10, width - 1);
    }
  }

  /** The record key "YYYY-MM": the year in four digits, a dash, the month in two digits. */
  function Format(m: YearMonth): (s: string)
    requires Valid(m)
    ensures |s| == 7 && s[4] == '-'
    ensures AllDigits(s[..4]) && AllDigits(s[5..])
    ensures DigitsValue(s[..4]) == m.year && DigitsValue(s[5..]) == m.month
  {
    var s := Padded(m.year, 4) + "-" + Padded(m.month, 2);
    assert s[..4] == Padded(m.year, 4);
    assert s[5..] == Padded(m.month, 2);
    PaddedValue(m.year, 4);
    PaddedValue(m.month, 2);
    s
  }

  /** On numbers that fit the width, padded text order is numeric order. */
  lemma {:induction false} PaddedOrder(n: nat, m: nat, width: nat)
    requires n < Pow10(width) && m < Pow10(width)
    ensures TextBefore(Padded(n, width), Padded(m, width)) <==> n < m
    ensures Padded(n, width) == Padded(m, width) <==> n == m
    decreases width
  {
    if width > 0 {
      var hn, hm := Padded(n / 10, width - 1), Padded(m / 10, width - 1);
      var cn, cm := DigitChar(n % 10), DigitChar(m % 10);
      PaddedOrder(n / 10, m / 10, width - 1);
      TextBeforeAppend(hn, hm, [cn], [cm]);
      assert TextBefore([cn], [cm]) <==> n % 10 < m % 10 by {
        assert [cn][1..] == [] && [cm][1..] == [];
        TextBeforeIrreflexive([]);
      }
      assert hn + [cn] == hm + [cm] <==> hn == hm && cn == cm by {
        if hn + [cn] == hm + [cm] {
          assert (hn + [cn])[..width - 1] == hn && (hm + [cm])[..width - 1] == hm;
          assert (hn + [cn])[width - 1] == cn && (hm + [cm])[width - 1] == cm;
        }
      }
      assert cn == cm <==> n % 10 == m % 10 by {
        assert DigitValue(cn) == n % 10 && DigitValue(cm) == m % 10;
      }
    }
  }

  /** Comparing two valid keys as text is comparing the months chronologically. */
  lemma FormatOrder(a: YearMonth, b: YearMonth)
    requires Valid(a) && Valid(b)
    ensures TextBefore(Format(a), Format(b)) <==> Before(a, b)
    ensures Format(a) == Format(b) <==> a == b
  {
    var ya, yb := Padded(a.year, 4), Padded(b.year, 4);
    var ma, mb := Padded(a.month, 2), Padded(b.month, 2);
    PaddedOrder(a.year, b.year, 4);
    PaddedOrder(a.month, b.month, 2);
    assert Format(a) == ya + ("-" + ma) && Format(b) == yb + ("-" + mb);
    TextBeforeAppend(ya, yb, "-" + ma, "-" + mb);
    TextBeforeAppend("-", "-", ma, mb);
    TextBeforeIrreflexive("-");
    if Format(a) == Format(b) {
      assert Format(a)[..4] == ya && Format(b)[..4] == yb;
      assert Format(a)[5..] == ma && Format(b)[5..] == mb;
    }
  }
}
