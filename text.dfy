/** Character classes and the string scanning the tag parser and the formatter
    are built from: first occurrence of a delimiter and decimal notation of naturals (as Go's
    standard decimal parsing and printing do). */
module Text {
  import opened Wrappers

  predicate IsAlpha(c: char) {
    'a' <= c <= 'z' || 'A' <= c <= 'Z'
  }

  predicate IsDigit(c: char) {
    '0' <= c <= '9'
  }

  predicate AllAlpha(s: string) {
    forall i :: 0 <= i < |s| ==> IsAlpha(s[i])
  }

  /** A non-empty run of decimal digits (leading zeros allowed). */
  predicate IsDecimal(s: string) {
    |s| > 0 && forall i :: 0 <= i < |s| ==> IsDigit(s[i])
  }

  /** Length of the longest run of letters at the start of `s`. */
  function AlphaRun(s: string): (n: nat)
    ensures n <= |s|
    ensures forall i :: 0 <= i < n ==> IsAlpha(s[i])
    ensures n < |s| ==> !IsAlpha(s[n])
  {
    if s == [] || !IsAlpha(s[0]) then 0 else 1 + AlphaRun(s[1..])
  }

  /** The alphabetic run of a string that starts with the letters `p` and then a
      non-letter (or nothing) is exactly `p`. */
  lemma AlphaRunOf(p: string, t: string)
    requires AllAlpha(p)
    requires t == [] || !IsAlpha(t[0])
    ensures AlphaRun(p + t) == |p|
  {
    assert forall i :: 0 <= i < |p| ==> (p + t)[i] == p[i];
    assert |p| < |p + t| ==> (p + t)[|p|] == t[0];
  }

  lemma Reassemble(s: string, n: nat)
    requires n <= |s|
    ensures s[..n] + s[n..] == s
  {
  }

  lemma ConcatParts(a: string, b: string)
    ensures (a + b)[..|a|] == a && (a + b)[|a|..] == b
  {
  }

  /** Position of the first occurrence of `c` in `s`, if any. */
  function IndexOf(s: string, c: char): (r: Option<nat>)
    ensures r.None? <==> c !in s
    ensures r.Some? ==> r.value < |s| && s[r.value] == c && c !in s[..r.value]
  {
    if s == [] then None
    else if s[0] == c then Some(0)
    else
      match IndexOf(s[1..], c)
      case None => None
      case Some(i) =>
        assert s[..i + 1] == [s[0]] + s[1..][..i];
        Some(i + 1)
  }

  /** `c` followed by the text of `o`, or nothing when `o` is `None`. */
  function Delimited(c: char, o: Option<string>): string {
    match o
    case None => ""
    case Some(x) => [c] + x
  }

  /** `c` followed by `s`, or nothing when `s` is empty. */
  function Affix(c: char, s: string): string {
    if s == "" then "" else [c] + s
  }

  /** A string cut at the first occurrence of a delimiter: the text before it, and
      the text after it when the delimiter occurs at all. */
  datatype Cut = Cut(before: string, after: Option<string>)

  function CutAt(s: string, c: char): (r: Cut)
    ensures c !in r.before
    ensures s == r.before + Delimited(c, r.after)
  {
    match IndexOf(s, c)
    case None => Cut(s, None)
    case Some(i) =>
      assert s == s[..i] + [c] + s[i + 1..];
      Cut(s[..i], Some(s[i + 1..]))
  }

  /** `CutAt` finds a delimiter exactly when there is one. */
  lemma CutAtFound(s: string, c: char)
    ensures CutAt(s, c).after.Some? <==> c in s
  {
    var r := CutAt(s, c);
    if r.after.Some? {
      ConcatParts(r.before, Delimited(c, r.after));
      assert s[|r.before|] == c;
    }
  }

  /** The decomposition `CutAt` finds is the only one: the delimiter-free text in
      front of the first delimiter. */
  lemma CutAtUnique(a: string, c: char, o: Option<string>)
    requires c !in a
    ensures CutAt(a + Delimited(c, o), c) == Cut(a, o)
  {
    var s := a + Delimited(c, o);
    var r := CutAt(s, c);
    match o
    case None =>
      assert s == a;
      assert c !in s;
    case Some(b) =>
      assert s == a + [c] + b;
      assert s[|a|] == c;
      assert forall j :: 0 <= j < |a| ==> s[j] == a[j];
      var i := IndexOf(s, c).value;
      assert i == |a|;
      assert s[..i] == a;
      assert s[i + 1..] == b;
  }

  function DigitChar(d: nat): (c: char)
    requires d < 10
    ensures IsDigit(c)
  {
    ('0' as int + d) as char
  }

  function DigitValue(c: char): (d: nat)
    requires IsDigit(c)
    ensures d < 10 && DigitChar(d) == c
  {
    c as int - '0' as int
  }

  /** The number a string of decimal digits denotes. */
  function Value(s: string): nat
    requires IsDecimal(s)
    decreases |s|
  {
    if |s| == 1 then DigitValue(s[0])
    else 10 * Value(s[..|s| - 1]) + DigitValue(s[|s| - 1])
  }

  /** Go's decimal printing of a natural: canonical decimal notation (no leading
      zero except for 0 itself) whose value is `n`. */
  function Decimal(n: nat): (s: string)
    ensures IsDecimal(s) && Value(s) == n
    ensures s[0] != '0' || s == "0"
  {
    if n < 10 then [DigitChar(n)]
    else
      var s := Decimal(n / 10) + [DigitChar(n % 10)];
      assert s[..|s| - 1] == Decimal(n / 10);
      s
  }

  /** A digit string starting with a non-zero digit denotes a positive number. */
  lemma {:induction false} ValuePositive(s: string)
    requires IsDecimal(s) && s[0] != '0'
    ensures Value(s) > 0
    decreases |s|
  {
    if |s| > 1 {
      ValuePositive(s[..|s| - 1]);
    }
  }

  /** Canonical decimal strings are exactly the ones `Decimal` writes. */
  lemma {:induction false} DecimalOfValue(s: string)
    requires IsDecimal(s)
    requires s[0] != '0' || |s| == 1
    ensures Decimal(Value(s)) == s
    decreases |s|
  {
    if |s| > 1 {
      var init := s[..|s| - 1];
      var d := DigitValue(s[|s| - 1]);
      ValuePositive(init);
      DecimalOfValue(init);
      var n := Value(s);
      assert n == 10 * Value(init) + d;
      assert n / 10 == Value(init) && n % 10 == d;
      assert s == init + [s[|s| - 1]];
    }
  }
}
