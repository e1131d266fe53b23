/** The few Python string operations the pipeline relies on. */
module Text {

  /** The decimal digit character for `d`. */
  function DigitChar(d: int): (c: char)
    requires 0 <= d <= 9
    ensures '0' <= c <= '9'
  {
    "0123456789"[d]
  }

  /** The value of a decimal digit character. */
  function DigitValue(c: char): (d: int)
    requires IsDigit(c)
    ensures 0 <= d <= 9
    ensures DigitChar(d) == c
  {
    c as int - '0' as int
  }

  predicate IsDigit(c: char) { '0' <= c <= '9' }

  /** `str(n)` for a non-negative `n`: its decimal digits, no leading zeros. */
  function NatToString(n: nat): (s: string)
    ensures |s| >= 1
    ensures forall i :: 0 <= i < |s| ==> IsDigit(s[i])
    ensures n < 10 <==> |s| == 1
  {
    if n < 10 then [DigitChar(n)] else NatToString(n / 10) + [DigitChar(n % 10)]
  }

  /** `str(n)` for any integer: a minus sign before the digits of `-n`. */
  function IntToString(n: int): (s: string)
    ensures |s| >= 1
    ensures forall i :: 0 <= i < |s| ==> IsDigit(s[i]) || (i == 0 && s[i] == '-')
    ensures n >= 0 <==> IsDigit(s[0])
  {
    if n >= 0 then NatToString(n) else "-" + NatToString(-n)
  }

  /** The number written by a non-empty string of decimal digits. */
  function DigitsValue(s: string): (n: nat)
    requires forall i :: 0 <= i < |s| ==> IsDigit(s[i])
  {
    if s == [] then 0 else 10 * DigitsValue(s[..|s| - 1]) + DigitValue(s[|s| - 1])
  }

  /** Reading back what NatToString wrote gives the number again. */
  lemma {:induction false} NatToStringRoundTrip(n: nat)
    ensures DigitsValue(NatToString(n)) == n
  {
    var s := NatToString(n);
    if n >= 10 {
      NatToStringRoundTrip(n / 10);
      assert s[..|s| - 1] == NatToString(n / 10);
    }
  }

  /** `s.startswith(p)`. */
  predicate StartsWith(s: string, p: string) {
    |p| <= |s| && s[..|p|] == p
  }

  /** A string that differs from `p` at some position of both does not
      start with `p`. */
  lemma DiffersAt(s: string, p: string, k: int)
    requires 0 <= k < |s| && k < |p| && s[k] != p[k]
    ensures !StartsWith(s, p)
  {
    if |p| <= |s| {
      assert s[..|p|][k] == s[k];
    }
  }

  /** `sub in s` for strings. */
  predicate Contains(s: string, sub: string) {
    exists i, j :: 0 <= i <= j <= |s| && s[i..j] == sub
  }

  lemma ContainsSelf(s: string)
    ensures Contains(s, s)
  {
    assert s[0..|s|] == s;
  }

  /** What a string contains, any extension of it on the right contains. */
  lemma ContainsLeft(a: string, b: string, sub: string)
    requires Contains(a, sub)
    ensures Contains(a + b, sub)
  {
    var i, j :| 0 <= i <= j <= |a| && a[i..j] == sub;
    assert (a + b)[i..j] == a[i..j];
  }

  /** What a string contains, any extension of it on the left contains. */
  lemma ContainsRight(a: string, b: string, sub: string)
    requires Contains(b, sub)
    ensures Contains(a + b, sub)
  {
    var i, j :| 0 <= i <= j <= |b| && b[i..j] == sub;
    assert (a + b)[|a| + i..|a| + j] == b[i..j];
  }

  /** `s.replace(pat, repl)` with a non-empty pattern: every non-overlapping
      occurrence, scanned left to right, is replaced. A replacement no
      longer than the pattern never lengthens the string, and every
      character of the result comes from the string or the replacement. */
  function Replace(s: string, pat: string, repl: string): (r: string)
    requires |pat| > 0
    ensures |repl| <= |pat| ==> |r| <= |s|
    ensures forall i :: 0 <= i < |r| ==> r[i] in s || r[i] in repl
    decreases |s|
  {
    if |s| < |pat| then s
    else if s[..|pat|] == pat then repl + Replace(s[|pat|..], pat, repl)
    else [s[0]] + Replace(s[1..], pat, repl)
  }

  /** A string without the pattern's first character is left as it is. */
  lemma {:induction false} ReplaceAbsent(s: string, pat: string, repl: string)
    requires |pat| > 0
    requires pat[0] !in s
    ensures Replace(s, pat, repl) == s
    decreases |s|
  {
    if |s| >= |pat| {
      assert s[0] != pat[0];
      assert s[..|pat|] != pat by { assert s[..|pat|][0] == s[0]; }
      ReplaceAbsent(s[1..], pat, repl);
      assert [s[0]] + s[1..] == s;
    }
  }

  /** Python's `repr` of a list of strings: `['a', 'b']`. */
  function ListRepr(xs: seq<string>): (r: string)
    ensures StartsWith(r, "[") && r[|r| - 1] == ']'
  {
    "[" + JoinQuoted(xs) + "]"
  }

  /** The list items, each in single quotes, separated by ", ". */
  function JoinQuoted(xs: seq<string>): string {
    if xs == [] then ""
    else if |xs| == 1 then "'" + xs[0] + "'"
    else "'" + xs[0] + "', " + JoinQuoted(xs[1..])
  }

  /** Python's `<` on strings: code-point-wise lexicographic order. */
  predicate Less(a: string, b: string) {
    if a == [] then b != []
    else if b == [] then false
    else if a[0] != b[0] then a[0] < b[0]
    else Less(a[1..], b[1..])
  }

  lemma {:induction false} LessIrreflexive(a: string)
    ensures !Less(a, a)
  {
    if a != [] { LessIrreflexive(a[1..]); }
  }

  lemma {:induction false} LessTransitive(a: string, b: string, c: string)
    requires Less(a, b) && Less(b, c)
    ensures Less(a, c)
  {
    if a != [] && b != [] && c != [] && a[0] == b[0] && b[0] == c[0] {
      LessTransitive(a[1..], b[1..], c[1..]);
    }
  }

  lemma {:induction false} LessTotal(a: string, b: string)
    requires a != b
    ensures Less(a, b) || Less(b, a)
  {
    if a != [] && b != [] && a[0] == b[0] {
      assert a == [a[0]] + a[1..] && b == [b[0]] + b[1..];
      LessTotal(a[1..], b[1..]);
    }
  }
}
