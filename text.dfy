/**
 * The string operations the reporter relies on: Python's `str.upper`,
 * the substring test `t in s`, the slice-and-ellipsis truncation of
 * summaries and `str(n)` for a natural number.
 */
module Text {

  function Min(x: int, y: int): int { if x <= y then x else y }

  /** Upper case of one character (ASCII letters only). */
  function UpperChar(c: char): (u: char)
    ensures 'a' <= c <= 'z' ==> 'A' <= u <= 'Z' && u as int == c as int - 32
    ensures !('a' <= c <= 'z') ==> u == c
  {
    if 'a' <= c <= 'z' then (c as int - 32) as char else c
  }

  /** `s.upper()`, character by character. */
  function Upper(s: string): (u: string)
    ensures |u| == |s|
  {
    seq(|s|, i requires 0 <= i < |s| => UpperChar(s[i]))
  }

  /** Upper-casing commutes with slicing. */
  lemma UpperSlice(s: string, i: int, j: int)
    requires 0 <= i <= j <= |s|
    ensures Upper(s)[i..j] == Upper(s[i..j])
  {
  }

  /** `t in s` for strings: `t` occurs in `s` as a contiguous substring. */
  predicate Contains(s: string, t: string)
    decreases |s|
  {
    |t| <= |s| && (s[..|t|] == t || Contains(s[1..], t))
  }

  /** `Contains` holds exactly when `t` sits at some offset of `s`. */
  lemma {:induction false} ContainsAt(s: string, t: string, k: int)
    requires 0 <= k && k + |t| <= |s| && s[k..k + |t|] == t
    ensures Contains(s, t)
    decreases k
  {
    if k > 0 {
      assert s[1..][k - 1..k - 1 + |t|] == s[k..k + |t|];
      ContainsAt(s[1..], t, k - 1);
    }
  }

  lemma {:induction false} ContainsOffset(s: string, t: string) returns (k: int)
    requires Contains(s, t)
    ensures 0 <= k && k + |t| <= |s| && s[k..k + |t|] == t
    decreases |s|
  {
    if s[..|t|] == t {
      k := 0;
    } else {
      var k' := ContainsOffset(s[1..], t);
      assert s[1..][k'..k' + |t|] == s[k' + 1..k' + 1 + |t|];
      k := k' + 1;
    }
  }

  /** The substring test is insensitive to case once both sides are upper-cased. */
  lemma ContainsUpper(s: string, t: string)
    requires Contains(s, t)
    ensures Contains(Upper(s), Upper(t))
  {
    var k := ContainsOffset(s, t);
    UpperSlice(s, k, k + |t|);
    ContainsAt(Upper(s), Upper(t), k);
  }

  /** `s[:n] + '...'`: the display truncation of an issue summary. */
  function Truncated(s: string, n: nat): (r: string)
    ensures |r| <= n + 3
    ensures |r| >= 3 && r[|r| - 3..] == "..."
    ensures r[..|r| - 3] <= s
    ensures |s| <= n ==> r[..|r| - 3] == s
    ensures |s| >= n ==> |r| == n + 3
  {
    s[..Min(n, |s|)] + "..."
  }

  predicate IsDigit(c: char) { '0' <= c <= '9' }

  function Digit(d: nat): (c: char)
    requires d < 10
    ensures IsDigit(c) && c as int - '0' as int == d
  {
    ('0' as int + d) as char
  }

  /** `str(n)`: the decimal digits of `n`, most significant first, no leading zero. */
  function NumberText(n: nat): (r: string)
    ensures |r| >= 1
    ensures forall i :: 0 <= i < |r| ==> IsDigit(r[i])
    ensures |r| > 1 ==> r[0] != '0'
    decreases n
  {
    if n < 10 then [Digit(n)] else NumberText(n / 10) + [Digit(n % 10)]
  }

  /** The value of a string of decimal digits (what `int(s)` reads back). */
  function DecimalValue(s: string): nat
    requires forall i :: 0 <= i < |s| ==> IsDigit(s[i])
  {
    if s == [] then 0
    else
      assert IsDigit(s[|s| - 1]);
      10 * DecimalValue(s[..|s| - 1]) + (s[|s| - 1] as int - '0' as int)
  }

  /** Reading back the printed number gives the number. */
  lemma {:induction false} DecimalRoundTrip(n: nat)
    ensures DecimalValue(NumberText(n)) == n
    decreases n
  {
    if n >= 10 {
      var r := NumberText(n);
      assert r[..|r| - 1] == NumberText(n / 10);
      DecimalRoundTrip(n / 10);
    }
  }
}
