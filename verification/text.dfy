/** Character-level helpers shared by the month keys and the share codec. */
module Text {

  predicate IsDigit(c: char) {
    '0' <= c <= '9'
  }

  function DigitChar(d: int): (c: char)
    requires 0 <= d <= 9
    ensures IsDigit(c) && DigitValue(c) == d
  {
    ('0' as int + d) as char
  }

  function DigitValue(c: char): int
    requires IsDigit(c)
  {
    c as int - '0' as int
  }

  predicate AllDigits(s: string) {
    forall k :: 0 <= k < |s| ==> IsDigit(s[k])
  }

  /** Value of a string of decimal digits. */
  function DigitsValue(s: string): nat
    requires AllDigits(s)
  {
    if s == [] then 0 else DigitsValue(s[..|s| - 1]) * 10 + DigitValue(s[|s| - 1])
  }

  /** Strict lexicographic order on strings, code unit by code unit. */
  predicate TextBefore(a: string, b: string) {
    if a == [] then b != []
    else if b == [] then false
    else a[0] < b[0] || (a[0] == b[0] && TextBefore(a[1..], b[1..]))
  }

  lemma {:induction false} TextBeforeIrreflexive(a: string)
    ensures !TextBefore(a, a)
    decreases |a|
  {
    if a != [] {
      TextBeforeIrreflexive(a[1..]);
    }
  }

  /** Comparing two equal-width heads decides the comparison unless the heads are equal. */
  lemma {:induction false} TextBeforeAppend(a: string, b: string, c: string, d: string)
    requires |a| == |b|
    ensures TextBefore(a + c, b + d) <==> TextBefore(a, b) || (a == b && TextBefore(c, d))
    decreases |a|
  {
    if a != [] {
      assert (a + c)[0] == a[0] && (b + d)[0] == b[0];
      assert (a + c)[1..] == a[1..] + c && (b + d)[1..] == b[1..] + d;
      TextBeforeAppend(a[1..], b[1..], c, d);
      if a[0] == b[0] && a[1..] == b[1..] {
        assert a == [a[0]] + a[1..] && b == [b[0]] + b[1..];
      }
      if a == b {
        assert a[1..] == b[1..];
      }
    } else {
      assert a + c == c && b + d == d;
    }
  }
}
