/**
 * The compact share format, text layer: a display name and the jar
 * percentages joined with '|' ("Name|55|10|10|10|10|5"). Decoding splits on
 * '|', needs at least seven fields, takes the name from field 0 and gives
 * catalog jar i the integer parsed from field i + 1, falling back to the
 * catalog default when that parse is zero or not a number. The transport
 * wrapping around this text is not modelled.
 */
module Codec {
  import opened Text
  import opened Types
  import opened Catalog

  const Separator: char := '|'

  /** Number of occurrences of `c` in `s`. */
  function Occurrences(s: string, c: char): nat {
    if s == [] then 0 else (if s[0] == c then 1 else 0) + Occurrences(s[1..], c)
  }

  /** The fields of `s` between separators, as the platform's string split returns them. */
  function Split(s: string): (parts: seq<string>)
    ensures |parts| == Occurrences(s, Separator) + 1
    ensures forall k :: 0 <= k < |parts| ==> Separator !in parts[k]
  {
    if s == [] then [""]
    else
      var rest := Split(s[1..]);
      if s[0] == Separator then [""] + rest
      else [[s[0]] + rest[0]] + rest[1..]
  }

  /** The fields joined with the separator. */
  function Join(parts: seq<string>): string {
    if parts == [] then ""
    else if |parts| == 1 then parts[0]
    else parts[0] + [Separator] + Join(parts[1..])
  }

  /** A field free of separators is read back whole, up to the next separator. */
  lemma {:induction false} SplitFieldThen(a: string, rest: string)
    requires Separator !in a
    ensures Split(a + rest) == [a + Split(rest)[0]] + Split(rest)[1..]
    decreases |a|
  {
    if a != [] {
      assert (a + rest)[1..] == a[1..] + rest;
      SplitFieldThen(a[1..], rest);
      assert [a[0]] + (a[1..] + Split(rest)[0]) == a + Split(rest)[0];
    } else {
      assert a + rest == rest;
      assert a + Split(rest)[0] == Split(rest)[0];
      assert Split(rest) == [Split(rest)[0]] + Split(rest)[1..];
    }
  }

  /** Splitting at a separator splits the field lists. */
  lemma SplitAtSeparator(a: string, b: string)
    requires Separator !in a
    ensures Split(a + [Separator] + b) == [a] + Split(b)
  {
    SplitFieldThen(a, [Separator] + b);
    assert a + [Separator] + b == a + ([Separator] + b);
    assert ([Separator] + b)[1..] == b;
    assert Split([Separator] + b) == [""] + Split(b);
    assert a + "" == a;
  }

  /** Joining fields free of separators and splitting again gives the fields back. */
  lemma {:induction false} SplitJoin(parts: seq<string>)
    requires |parts| > 0
    requires forall k :: 0 <= k < |parts| ==> Separator !in parts[k]
    ensures Split(Join(parts)) == parts
    decreases |parts|
  {
    if |parts| == 1 {
      SplitFieldThen(parts[0], []);
      assert parts[0] + [] == parts[0];
    } else {
      SplitJoin(parts[1..]);
      SplitAtSeparator(parts[0], Join(parts[1..]));
      assert parts == [parts[0]] + parts[1..];
    }
  }

  /** Text after a further separator only adds fields at the end. */
  lemma {:induction false} SplitAppend(a: string, b: string)
    ensures Split(a + [Separator] + b) == Split(a) + Split(b)
    decreases |a|
  {
    if a == [] {
      assert a + [Separator] + b == [Separator] + b;
      assert ([Separator] + b)[1..] == b;
    } else {
      assert (a + [Separator] + b)[1..] == a[1..] + [Separator] + b;
      SplitAppend(a[1..], b);
    }
  }

  // ---------------------------------------------------------------------------
  // Integers as text

  /** Decimal digits of `n`, most significant first, no leading zeros. */
  function NatToText(n: nat): (s: string)
    ensures |s| > 0 && AllDigits(s)
  {
    if n < 10 then [DigitChar(n)] else NatToText(n / 10) + [DigitChar(n % 10)]
  }

  /** How a number is written into the share text. */
  function IntToText(n: int): (s: string)
    ensures |s| > 0 && Separator !in s
  {
    if n < 0 then "-" + NatToText(-n) else NatToText(n)
  }

  /** The longest prefix of `s` made of decimal digits. */
  function LeadingDigits(s: string): (d: string)
    ensures AllDigits(d) && |d| <= |s| && d == s[..|d|]
  {
    if s == [] || !IsDigit(s[0]) then [] else [s[0]] + LeadingDigits(s[1..])
  }

  /** White space and line terminators skipped before a number. */
  predicate IsSpace(c: char) {
    c == '\t' || c == '\n' || c == '\U{000B}' || c == '\U{000C}' || c == '\r' || c == ' '
    || c == '\U{00A0}' || c == '\U{1680}' || ('\U{2000}' <= c <= '\U{200A}')
    || c == '\U{2028}' || c == '\U{2029}' || c == '\U{202F}' || c == '\U{205F}'
    || c == '\U{3000}' || c == '\U{FEFF}'
  }

  function TrimStart(s: string): (t: string)
    ensures |t| <= |s|
  {
    if s != [] && IsSpace(s[0]) then TrimStart(s[1..]) else s
  }

  /**
   * Base-10 integer parsing as the platform does it: skip leading white space,
   * read an optional sign, then the longest run of digits; no digits is "not
   * a number" (None).
   */
  function ParseInt(s: string): (r: Option<int>)
    ensures r.Some? <==> |LeadingDigits(Unsigned(TrimStart(s)))| > 0
  {
    var t := TrimStart(s);
    var digits := LeadingDigits(Unsigned(t));
    if digits == [] then None
    else if t[0] == '-' then Some(-(DigitsValue(digits) as int))
    else Some(DigitsValue(digits))
  }

  /** Text after an optional leading sign. */
  function Unsigned(t: string): string {
    if t != [] && (t[0] == '-' || t[0] == '+') then t[1..] else t
  }

  lemma {:induction false} DigitsRoundTrip(n: nat)
    ensures DigitsValue(NatToText(n)) == n
    decreases n
  {
    if n >= 10 {
      DigitsRoundTrip(n / 10);
      var s := NatToText(n / 10) + [DigitChar(n % 10)];
      assert s[..|s| - 1] == NatToText(n / 10);
    }
  }

  lemma {:induction false} LeadingDigitsOfDigits(s: string)
    requires AllDigits(s)
    ensures LeadingDigits(s) == s
    decreases |s|
  {
    if s != [] {
      LeadingDigitsOfDigits(s[1..]);
    }
  }

  /** A number written into the share text parses back to itself. */
  lemma ParseIntToText(n: int)
    ensures ParseInt(IntToText(n)) == Some(n)
  {
    var t := IntToText(n);
    var digits := NatToText(if n < 0 then -n else n);
    assert !IsSpace(t[0]) by {
      if n >= 0 { assert IsDigit(t[0]); }
    }
    assert TrimStart(t) == t;
    if n < 0 {
      assert Unsigned(t) == digits;
    } else {
      assert IsDigit(t[0]);
      assert Unsigned(t) == digits;
    }
    LeadingDigitsOfDigits(digits);
    DigitsRoundTrip(if n < 0 then -n else n);
  }

  // ---------------------------------------------------------------------------
  // The share payload

  /** What a share carries: a display name and one jar per catalog entry. */
  datatype Shared = Shared(userName: string, jars: seq<Jar>)

  /** The name written into a share: an empty name is written as "User". */
  function ShareName(name: string): string {
    if name == "" then "User" else name
  }

  function PercentageTexts(jars: seq<Jar>): (texts: seq<string>)
    ensures |texts| == |jars|
    ensures forall k :: 0 <= k < |jars| ==> texts[k] == IntToText(jars[k].percentage)
  {
    seq(|jars|, k requires 0 <= k < |jars| => IntToText(jars[k].percentage))
  }

  /** The share text: the name, then the month's jar percentages in the month's jar order. */
  function Encode(name: string, jars: seq<Jar>): (text: string)
    ensures Split(text) == Split(ShareName(name)) + (if jars == [] then [""] else PercentageTexts(jars))
  {
    var text := ShareName(name) + [Separator] + Join(PercentageTexts(jars));
    SplitAppend(ShareName(name), Join(PercentageTexts(jars)));
    if jars != [] then SplitJoin(PercentageTexts(jars)); text
    else assert Join(PercentageTexts(jars)) == "" && Split("") == [""]; text
  }

  /** A percentage field, or the catalog default when it parses to zero or to no number. */
  function FieldPercentage(field: string, fallback: int): (p: int)
    ensures fallback != 0 ==> p != 0
    ensures ParseInt(field).Some? && ParseInt(field).value != 0 ==> p == ParseInt(field).value
    ensures ParseInt(field).None? || ParseInt(field) == Some(0) ==> p == fallback
  {
    match ParseInt(field)
    case None => fallback
    case Some(v) => if v == 0 then fallback else v
  }

  /**
   * The catalog jars with their percentages read from `fields`: jar i takes
   * field i's parsed value when that is a non-zero number, its default otherwise.
   */
  function DecodeJars(fields: seq<string>): (jars: seq<Jar>)
    requires |fields| >= |DefaultJars|
    ensures |jars| == |DefaultJars|
    ensures forall i :: 0 <= i < |DefaultJars| ==> jars[i].(percentage := DefaultJars[i].percentage) == DefaultJars[i]
    ensures forall i :: 0 <= i < |DefaultJars| ==> jars[i].percentage != 0
    ensures forall i :: 0 <= i < |DefaultJars| ==>
      ParseInt(fields[i]).Some? && ParseInt(fields[i]).value != 0 ==> jars[i].percentage == ParseInt(fields[i]).value
    ensures forall i :: 0 <= i < |DefaultJars| ==>
      ParseInt(fields[i]).None? || ParseInt(fields[i]) == Some(0) ==> jars[i].percentage == DefaultJars[i].percentage
  {
    DefaultPercentages();
    seq(|DefaultJars|, i requires 0 <= i < |DefaultJars| =>
      DefaultJars[i].(percentage := FieldPercentage(fields[i], DefaultJars[i].percentage)))
  }

  /**
   * Reads a share text: fewer than seven fields is a failure; otherwise the
   * name is field 0 and catalog jar i takes its percentage from field i + 1.
   * Fields beyond the seventh are ignored.
   */
  function Decode(text: string): (r: Option<Shared>)
    ensures r.None? <==> Occurrences(text, Separator) < 6
    ensures r.Some? ==> r.value.userName == Split(text)[0]
    ensures r.Some? ==> |r.value.jars| == |DefaultJars|
    ensures r.Some? ==> forall i :: 0 <= i < |DefaultJars| ==>
      r.value.jars[i].(percentage := DefaultJars[i].percentage) == DefaultJars[i]
    ensures r.Some? ==> forall i :: 0 <= i < |DefaultJars| ==> r.value.jars[i].percentage != 0
    ensures r.Some? ==> forall i :: 0 <= i < |DefaultJars| ==>
      var field := ParseInt(Split(text)[i + 1]);
      field.Some? && field.value != 0 ==> r.value.jars[i].percentage == field.value
    ensures r.Some? ==> forall i :: 0 <= i < |DefaultJars| ==>
      var field := ParseInt(Split(text)[i + 1]);
      field.None? || field == Some(0) ==> r.value.jars[i].percentage == DefaultJars[i].percentage
  {
    var parts := Split(text);
    if |parts| < 7 then None
    else
      var fields := parts[1..];
      assert forall i :: 0 <= i < |DefaultJars| ==> fields[i] == parts[i + 1];
      Some(Shared(parts[0], DecodeJars(fields)))
  }

  /** Anything after the seventh field does not change what is decoded. */
  lemma ExtraFieldsIgnored(text: string, extra: string)
    requires Decode(text).Some?
    ensures Decode(text + [Separator] + extra) == Decode(text)
  {
    SplitAppend(text, extra);
    var parts, longer := Split(text), Split(text + [Separator] + extra);
    assert forall i :: 0 <= i < |parts| ==> longer[i] == parts[i];
    var d, e := Decode(text).value, Decode(text + [Separator] + extra).value;
    assert forall i :: 0 <= i < |DefaultJars| ==> d.jars[i] == e.jars[i];
    assert d.jars == e.jars;
  }

  /** Text whose first character is neither white space, a sign nor a digit holds no number. */
  lemma NonNumericStart(field: string)
    requires field != [] && !IsSpace(field[0]) && field[0] != '+' && field[0] != '-' && !IsDigit(field[0])
    ensures ParseInt(field).None?
  {
    assert TrimStart(field) == field;
    assert Unsigned(field) == field;
  }

  /**
   * A percentage field that starts with anything other than white space, a
   * sign or a digit holds no number, so the jar keeps the catalog default.
   */
  lemma NonNumericPercentageReverts(text: string, i: nat)
    requires Decode(text).Some? && i < |DefaultJars|
    requires var f := Split(text)[i + 1];
      f != [] && !IsSpace(f[0]) && f[0] != '+' && f[0] != '-' && !IsDigit(f[0])
    ensures Decode(text).value.jars[i].percentage == DefaultJars[i].percentage
  {
    NonNumericStart(Split(text)[i + 1]);
  }

  /** A shared zero percentage comes back as the catalog default. */
  lemma ZeroPercentageReverts(text: string, i: nat)
    requires Decode(text).Some? && i < |DefaultJars|
    requires ParseInt(Split(text)[i + 1]) == Some(0)
    ensures Decode(text).value.jars[i].percentage == DefaultJars[i].percentage
  {
  }

  /**
   * Decoding the share text of a name without separators and six non-zero
   * percentages gives back that name ("User" for an empty one) and those
   * percentages, on the catalog's jars in catalog order.
   */
  lemma ShareRoundTrip(name: string, jars: seq<Jar>)
    requires Separator !in name
    requires |jars| == |DefaultJars|
    requires forall i :: 0 <= i < |jars| ==> jars[i].percentage != 0
    ensures Decode(Encode(name, jars)).Some?
    ensures Decode(Encode(name, jars)).value.userName == ShareName(name)
    ensures forall i :: 0 <= i < |jars| ==>
      Decode(Encode(name, jars)).value.jars[i] == DefaultJars[i].(percentage := jars[i].percentage)
  {
    var texts := PercentageTexts(jars);
    SplitJoin(texts);
    SplitAtSeparator(ShareName(name), Join(texts));
    var parts := Split(Encode(name, jars));
    assert parts == [ShareName(name)] + texts;
    forall i | 0 <= i < |jars|
      ensures Decode(Encode(name, jars)).value.jars[i] == DefaultJars[i].(percentage := jars[i].percentage)
    {
      assert parts[i + 1] == IntToText(jars[i].percentage);
      ParseIntToText(jars[i].percentage);
    }
  }

  /**
   * A share of a name without separators decodes only when the month had at
   * least six jars: with fewer, the text has fewer than seven fields.
   */
  lemma ShareNeedsSixJars(name: string, jars: seq<Jar>)
    requires Separator !in name
    ensures Decode(Encode(name, jars)).None? <==> |jars| < 6
  {
    var n := ShareName(name);
    SplitJoin([n]);
    assert Join([n]) == n;
    if jars == [] {
      SplitAppend(n, "");
      assert Split("") == [""];
    }
  }
}
