/** String helpers the file-name code relies on: decimal rendering and suffix tests. */
module Text {

  predicate IsDigit(c: char) {
    '0' <= c <= '9'
  }

  function DigitChar(d: nat): (c: char)
    requires d < 10
    ensures IsDigit(c)
  {
    "0123456789"[d]
  }

  /** Decimal rendering of a non-negative number, most significant digit first. */
  function NatToString(n: nat): (s: string)
    ensures |s| >= 1
    ensures forall k :: 0 <= k < |s| ==> IsDigit(s[k])
  {
    if n < 10 then [DigitChar(n)] else NatToString(n / 10) + [DigitChar(n % 10)]
  }

  /** Decimal rendering of an integer (Kotlin's `Long.toString`, Swift's `"\(n)"`). */
  function IntToString(i: int): (s: string)
    ensures |s| >= 1
    ensures forall k :: 0 <= k < |s| ==> IsDigit(s[k]) || s[k] == '-'
  {
    if i < 0 then "-" + NatToString(-i) else NatToString(i)
  }

  predicate EndsWith(s: string, suffix: string) {
    |suffix| <= |s| && s[|s| - |suffix|..] == suffix
  }

  /** A suffix of a suffix is a suffix. */
  lemma EndsWithTransitive(s: string, mid: string, suffix: string)
    requires EndsWith(s, mid) && EndsWith(mid, suffix)
    ensures EndsWith(s, suffix)
  {
    assert s[|s| - |suffix|..] == s[|s| - |mid|..][|mid| - |suffix|..];
  }

  /** Upper-case mapping of ASCII letters; every other character maps to itself. */
  function ToUpperAscii(c: char): char {
    if 'a' <= c <= 'z' then (c as int - 32) as char else c
  }

  predicate EqualIgnoringCase(a: char, b: char) {
    a == b || ToUpperAscii(a) == ToUpperAscii(b)
  }

  /** Kotlin's `s.endsWith(suffix, ignoreCase = true)` for ASCII text. */
  predicate EndsWithIgnoreCase(s: string, suffix: string) {
    |suffix| <= |s| &&
    forall k :: 0 <= k < |suffix| ==> EqualIgnoringCase(s[|s| - |suffix| + k], suffix[k])
  }

  lemma EndsWithIgnoresCase(s: string, suffix: string)
    ensures EndsWith(s, suffix) ==> EndsWithIgnoreCase(s, suffix)
  {
    if EndsWith(s, suffix) {
      forall k | 0 <= k < |suffix|
        ensures EqualIgnoringCase(s[|s| - |suffix| + k], suffix[k])
      {
        assert s[|s| - |suffix|..][k] == suffix[k];
      }
    }
  }
}
