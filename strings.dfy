/** String helpers standing for the JavaScript built-ins the source calls
    (startsWith, includes, toLowerCase, Number.prototype.toString). */
module Strings {

  predicate StartsWith(s: string, prefix: string) {
    |prefix| <= |s| && s[..|prefix|] == prefix
  }

  /** `sub` occurs in `s` starting at index `i`. */
  predicate OccursAt(s: string, sub: string, i: int) {
    0 <= i <= |s| - |sub| && s[i..i + |sub|] == sub
  }

  /** String.prototype.includes: `sub` occurs somewhere in `s`. */
  predicate Contains(s: string, sub: string) {
    exists i :: 0 <= i <= |s| - |sub| && OccursAt(s, sub, i)
  }

  predicate IsAsciiDigit(c: char) {
    '0' <= c <= '9'
  }

  predicate IsAsciiUpper(c: char) {
    'A' <= c <= 'Z'
  }

  predicate IsAsciiLower(c: char) {
    'a' <= c <= 'z'
  }

  /** Lower-cases one character; only the ASCII letters are mapped. */
  function LowerChar(c: char): (r: char)
    ensures IsAsciiUpper(c) ==> IsAsciiLower(r)
    ensures !IsAsciiUpper(c) ==> r == c
  {
    if IsAsciiUpper(c) then (c as int + 32) as char else c
  }

  function ToLower(s: string): (r: string)
    ensures |r| == |s|
    ensures forall i :: 0 <= i < |s| ==> r[i] == LowerChar(s[i])
  {
    seq(|s|, i requires 0 <= i < |s| => LowerChar(s[i]))
  }

  function DigitChar(d: nat): (c: char)
    requires d < 10
    ensures IsAsciiDigit(c)
  {
    "0123456789"[d]
  }

  /** The decimal digits of `n` without leading zeros, as Number.prototype.toString()
      writes a non-negative integer. */
  function DecimalString(n: nat): (r: string)
    ensures |r| > 0
    ensures forall i :: 0 <= i < |r| ==> IsAsciiDigit(r[i])
  {
    if n < 10 then [DigitChar(n)] else DecimalString(n / 10) + [DigitChar(n % 10)]
  }

  function DigitValue(c: char): (d: nat)
    requires IsAsciiDigit(c)
    ensures d < 10 && DigitChar(d) == c
  {
    c as int - '0' as int
  }

  /** The number a string of decimal digits denotes (Number() on such a string). */
  function DecimalValue(s: string): nat
    requires forall i :: 0 <= i < |s| ==> IsAsciiDigit(s[i])
  {
    if s == [] then 0 else DecimalValue(s[..|s| - 1]) * 10 + DigitValue(s[|s| - 1])
  }

  /** Reading back the decimal string of a number gives the number. */
  lemma {:induction false} DecimalRoundTrip(n: nat)
    ensures DecimalValue(DecimalString(n)) == n
  {
    var s := DecimalString(n);
    if n < 10 {
      assert s[..0] == [];
    } else {
      DecimalRoundTrip(n / 10);
      assert s[..|s| - 1] == DecimalString(n / 10);
    }
  }

  /** The number of decimal digits of `n`. */
  function DigitCount(n: nat): (k: nat)
    ensures k >= 1
  {
    if n < 10 then 1 else 1 + DigitCount(n / 10)
  }

  function Pow10(k: nat): (p: nat)
    ensures p >= 1
  {
    if k == 0 then 1 else 10 * Pow10(k - 1)
  }

  /** The decimal string has one character per digit and, unless `n` is zero, does not
      start with '0'. */
  lemma {:induction false} DecimalStringShape(n: nat)
    ensures |DecimalString(n)| == DigitCount(n)
    ensures n > 0 ==> DecimalString(n)[0] != '0'
  {
    if n >= 10 {
      DecimalStringShape(n / 10);
      assert DecimalString(n)[0] == DecimalString(n / 10)[0];
    }
  }

  /** A number between 10^(k-1) and 10^k - 1 has exactly k digits. */
  lemma {:induction false} DigitCountBetweenPowers(n: nat, k: nat)
    requires k >= 1 && Pow10(k - 1) <= n < Pow10(k)
    ensures DigitCount(n) == k
  {
    if k > 1 {
      assert n >= 10;
      DigitCountBetweenPowers(n / 10, k - 1);
    }
  }

  /** The two characters of `sub` that an occurrence pins down first. */
  lemma OccursAtHead(s: string, sub: string, i: int)
    requires OccursAt(s, sub, i) && |sub| >= 2
    ensures s[i] == sub[0] && s[i + 1] == sub[1]
  {
    assert s[i] == s[i..i + |sub|][0];
    assert s[i + 1] == s[i..i + |sub|][1];
  }

  /** A prefix of `a` is a prefix of `a + b`. */
  lemma StartsWithConcat(a: string, b: string, prefix: string)
    requires StartsWith(a, prefix)
    ensures StartsWith(a + b, prefix)
  {
    assert (a + b)[..|prefix|] == a[..|prefix|];
  }

  /** `sub` occurs in `a + sub + b`, right after `a`. */
  lemma ContainsMiddle(a: string, sub: string, b: string)
    ensures Contains(a + sub + b, sub)
  {
    assert OccursAt(a + sub + b, sub, |a|) by {
      assert (a + sub + b)[|a|..|a| + |sub|] == sub;
    }
  }

  /** A slice holds no `c` when no index it covers does. */
  lemma SliceAvoids(s: string, i: nat, c: char)
    requires i <= |s| && forall j :: i <= j < |s| ==> s[j] != c
    ensures c !in s[i..]
  {
    forall k | 0 <= k < |s[i..]| ensures s[i..][k] != c {
      assert s[i..][k] == s[i + k];
    }
  }

  /** `sub` does not occur in `s` when one of its characters is missing from `s`. */
  lemma AbsentChar(s: string, sub: string, h: nat)
    requires h < |sub| && sub[h] !in s
    ensures !Contains(s, sub)
  {
    forall i | 0 <= i <= |s| - |sub| ensures !OccursAt(s, sub, i) {
      assert s[i..i + |sub|][h] == s[i + h];
    }
  }

  /** `sub` does not occur in `s` when its first character appears in `s` at most once, at
      index `k`, and no occurrence starts there. */
  lemma AbsentExceptAt(s: string, sub: string, k: nat)
    requires |sub| > 0 && k <= |s| && sub[0] !in s[..k]
    requires k < |s| ==> sub[0] !in s[k + 1..] && !OccursAt(s, sub, k)
    ensures !Contains(s, sub)
  {
    forall i | 0 <= i <= |s| - |sub| && i != k ensures !OccursAt(s, sub, i) {
      assert s[i..i + |sub|][0] == s[i];
      if i < k {
        assert s[i] == s[..k][i];
      } else {
        assert s[i] == s[k + 1..][i - k - 1];
      }
    }
  }

  /** String.prototype.length: the number of UTF-16 code units, two for a character outside
      the Basic Multilingual Plane. */
  function Utf16Length(s: string): (n: nat)
    ensures |s| <= n <= 2 * |s|
    decreases |s|
  {
    if s == [] then 0
    else Utf16Length(s[..|s| - 1]) + (if s[|s| - 1] as int >= 0x10000 then 2 else 1)
  }

  /** A string of ASCII characters is as long in code units as in characters. */
  lemma {:induction false} Utf16LengthOfAscii(s: string)
    requires forall i :: 0 <= i < |s| ==> s[i] as int < 0x80
    ensures Utf16Length(s) == |s|
    decreases |s|
  {
    if s != [] {
      Utf16LengthOfAscii(s[..|s| - 1]);
    }
  }

  /** The characters JavaScript's `\s` class and String.prototype.trim treat as white space
      (WhiteSpace and LineTerminator of ECMA-262). */
  predicate IsJsWhitespace(c: char) {
    c == ' ' || c == '\t' || c == '\n' || c == '\r' || c == '\U{000B}' || c == '\U{000C}'
    || c == '\U{00A0}' || c == '\U{1680}' || '\U{2000}' <= c <= '\U{200A}'
    || c == '\U{2028}' || c == '\U{2029}' || c == '\U{202F}' || c == '\U{205F}'
    || c == '\U{3000}' || c == '\U{FEFF}'
  }

  /** Number of occurrences of `c` in `s`. */
  function Count(s: string, c: char): (n: nat)
    ensures n <= |s|
  {
    if s == [] then 0 else (if s[0] == c then 1 else 0) + Count(s[1..], c)
  }

  /** `a` can be obtained from `b` by deleting characters. */
  predicate IsSubsequence(a: string, b: string)
    decreases |b|
  {
    if a == [] then true
    else if b == [] then false
    else if a[0] == b[0] then IsSubsequence(a[1..], b[1..])
    else IsSubsequence(a, b[1..])
  }

  lemma {:induction false} SubsequenceReflexive(a: string)
    ensures IsSubsequence(a, a)
  {
    if a != [] {
      SubsequenceReflexive(a[1..]);
    }
  }

  /** Dropping the first character of a subsequence keeps it a subsequence. */
  lemma {:induction false} SubsequenceDropHead(a: string, t: string)
    requires a != [] && IsSubsequence(a, t)
    ensures IsSubsequence(a[1..], t)
    decreases |t|, 1
  {
    if a[0] == t[0] {
      SubsequenceExtend(a[1..], t);
    } else {
      SubsequenceDropHead(a, t[1..]);
      SubsequenceExtend(a[1..], t);
    }
  }

  /** A subsequence of the tail of `t` is a subsequence of `t`. */
  lemma {:induction false} SubsequenceExtend(a: string, t: string)
    requires t != [] && IsSubsequence(a, t[1..])
    ensures IsSubsequence(a, t)
    decreases |t|, 0
  {
    if a != [] && a[0] == t[0] {
      SubsequenceDropHead(a, t[1..]);
    }
  }

  lemma {:induction false} SubsequenceTransitive(a: string, b: string, c: string)
    requires IsSubsequence(a, b) && IsSubsequence(b, c)
    ensures IsSubsequence(a, c)
    decreases |c|
  {
    if a == [] {
    } else if b[0] == c[0] {
      if a[0] == b[0] {
        SubsequenceTransitive(a[1..], b[1..], c[1..]);
      } else {
        SubsequenceTransitive(a, b[1..], c[1..]);
      }
    } else {
      SubsequenceTransitive(a, b, c[1..]);
      SubsequenceExtend(a, c);
    }
  }

  /** Deleting a prefix and a suffix leaves a subsequence. */
  lemma {:induction false} SliceIsSubsequence(s: string, i: nat, j: nat)
    requires i <= j <= |s|
    ensures IsSubsequence(s[i..j], s)
    decreases |s|
  {
    if i == j {
    } else if i == 0 {
      assert s[i..j][0] == s[0];
      assert s[i..j][1..] == s[1..][0..j - 1];
      SliceIsSubsequence(s[1..], 0, j - 1);
    } else {
      assert s[i..j] == s[1..][i - 1..j - 1];
      SliceIsSubsequence(s[1..], i - 1, j - 1);
      SubsequenceExtend(s[i..j], s);
    }
  }
}
