/** Text helpers: the character classes, formatting and comparison that the
    services rely on through .NET's string API and Redis's byte ordering. */
module Text {
  import opened Wrappers

  /** A string containing no ':' — the separator of every cache key template. */
  predicate ColonFree(s: string) {
    ':' !in s
  }

  /** `string.IsNullOrEmpty`, with `None` standing for null. */
  predicate IsNullOrEmpty(s: Option<string>) {
    s.None? || s.value == ""
  }

  /** `char.IsWhiteSpace`: the Unicode space separators, line and paragraph
      separators, and the control characters U+0009–U+000D and U+0085. */
  predicate IsWhiteSpace(c: char) {
    || '\U{0009}' <= c <= '\U{000D}'
    || c == ' '
    || c == '\U{0085}'
    || c == '\U{00A0}'
    || c == '\U{1680}'
    || '\U{2000}' <= c <= '\U{200A}'
    || c == '\U{2028}'
    || c == '\U{2029}'
    || c == '\U{202F}'
    || c == '\U{205F}'
    || c == '\U{3000}'
  }

  /** `string.IsNullOrWhiteSpace`, with `None` standing for null. */
  predicate IsNullOrWhiteSpace(s: Option<string>) {
    s.None? || forall i :: 0 <= i < |s.value| ==> IsWhiteSpace(s.value[i])
  }

  /** The decimal digit for `d`. */
  function Digit(d: nat): (c: char)
    requires d < 10
    ensures '0' <= c <= '9'
  {
    "0123456789"[d]
  }

  /** Invariant-culture decimal formatting of a non-negative integer, as
      `string.Format("{0}", n)` writes it. */
  function NatToString(n: nat): (s: string)
    ensures |s| >= 1
    ensures n >= 10 ==> |s| >= 2
    ensures forall i :: 0 <= i < |s| ==> '0' <= s[i] <= '9'
  {
    if n < 10 then [Digit(n)] else NatToString(n / 10) + [Digit(n % 10)]
  }

  /** The number a string of decimal digits denotes. */
  function DigitsValue(s: string): nat
    requires forall i :: 0 <= i < |s| ==> '0' <= s[i] <= '9'
    decreases |s|
  {
    if s == [] then 0 else DigitsValue(s[..|s| - 1]) * 10 + (s[|s| - 1] - '0') as nat
  }

  /** The digits `NatToString` writes denote the number formatted. */
  lemma {:induction false} NatToStringValue(n: nat)
    ensures DigitsValue(NatToString(n)) == n
    decreases n
  {
    var s := NatToString(n);
    if n < 10 {
      assert s[..0] == [];
    } else {
      NatToStringValue(n / 10);
      assert s[..|s| - 1] == NatToString(n / 10);
      assert s[|s| - 1] == Digit(n % 10);
    }
  }

  lemma DigitInjective(a: nat, b: nat)
    requires a < 10 && b < 10 && Digit(a) == Digit(b)
    ensures a == b
  {
  }

  /** Distinct numbers are formatted as distinct strings. */
  lemma {:induction false} NatToStringInjective(m: nat, n: nat)
    requires NatToString(m) == NatToString(n)
    ensures m == n
  {
    var s, t := NatToString(m), NatToString(n);
    if m < 10 && n < 10 {
      DigitInjective(m, n);
    } else if m >= 10 && n >= 10 {
      assert s[|s| - 1] == Digit(m % 10) && t[|t| - 1] == Digit(n % 10);
      DigitInjective(m % 10, n % 10);
      assert NatToString(m / 10) == s[..|s| - 1] == t[..|t| - 1] == NatToString(n / 10);
      NatToStringInjective(m / 10, n / 10);
    }
  }

  // ---------------------------------------------------------------------
  // Splitting on ':'

  /** The parts of `s` between its ':' separators. */
  function Split(s: string): (parts: seq<string>)
    ensures |parts| >= 1
    decreases |s|
  {
    if ColonFree(s) then [s]
    else
      var i := FirstColon(s);
      [s[..i]] + Split(s[i + 1..])
  }

  /** The position of the first ':' in `s`. */
  function FirstColon(s: string): (i: nat)
    requires !ColonFree(s)
    ensures i < |s| && s[i] == ':' && ColonFree(s[..i])
  {
    if s[0] == ':' then 0
    else
      assert s == [s[0]] + s[1..];
      var j := FirstColon(s[1..]);
      assert s[..j + 1] == [s[0]] + s[1..][..j];
      j + 1
  }

  lemma FirstColonAfter(a: string, b: string)
    requires ColonFree(a)
    ensures !ColonFree(a + ":" + b) && FirstColon(a + ":" + b) == |a|
  {
    var s := a + ":" + b;
    assert s[|a|] == ':';
  }

  /** Splitting a colon-free head followed by ':' peels that head off. */
  lemma SplitCons(a: string, b: string)
    requires ColonFree(a)
    ensures Split(a + ":" + b) == [a] + Split(b)
  {
    var s := a + ":" + b;
    FirstColonAfter(a, b);
    assert s[..|a|] == a;
    assert s[|a| + 1..] == b;
  }

  /** A colon-free string is its own single part. */
  lemma SplitAtom(a: string)
    requires ColonFree(a)
    ensures Split(a) == [a]
  {
  }

  // ---------------------------------------------------------------------
  // Ordinal string comparison: the ordinal order of the characters

  /** `a` sorts strictly before `b` lexicographically, character by
      character. */
  predicate StrLess(a: string, b: string) {
    if |a| == 0 then |b| > 0
    else if |b| == 0 then false
    else if a[0] != b[0] then a[0] < b[0]
    else StrLess(a[1..], b[1..])
  }

  lemma {:induction false} StrLessIrreflexive(a: string)
    ensures !StrLess(a, a)
  {
    if |a| > 0 {
      StrLessIrreflexive(a[1..]);
    }
  }

  lemma {:induction false} StrLessTransitive(a: string, b: string, c: string)
    requires StrLess(a, b) && StrLess(b, c)
    ensures StrLess(a, c)
  {
    if |a| > 0 && |b| > 0 && |c| > 0 && a[0] == b[0] && b[0] == c[0] {
      StrLessTransitive(a[1..], b[1..], c[1..]);
    }
  }

  lemma {:induction false} StrLessTotal(a: string, b: string)
    requires a != b
    ensures StrLess(a, b) || StrLess(b, a)
  {
    if |a| > 0 && |b| > 0 && a[0] == b[0] {
      assert a == [a[0]] + a[1..] && b == [b[0]] + b[1..];
      StrLessTotal(a[1..], b[1..]);
    }
  }
}
