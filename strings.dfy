/**
 * The Kotlin string operations the browser tab relies on: `trim`, `isBlank`,
 * `lowercase`, `startsWith`, `contains`, `removePrefix`, `take` and `split(".")`.
 * Strings are sequences of Unicode scalar values; case mapping covers ASCII letters.
 */
module Strings {

  /** Kotlin's `Char.isWhitespace`: Java whitespace plus the Unicode space separators. */
  predicate IsWhitespace(c: char) {
    c == ' ' || c == '\t' || c == '\n' || c == '\r' || c == '\U{000B}' || c == '\U{000C}'
    || ('\U{001C}' <= c <= '\U{001F}')
    || c == '\U{00A0}' || c == '\U{1680}' || ('\U{2000}' <= c <= '\U{200A}')
    || c == '\U{2028}' || c == '\U{2029}' || c == '\U{202F}' || c == '\U{205F}' || c == '\U{3000}'
  }

  /** Characters that end a line, which the `.` of a Java regular expression does not match. */
  predicate IsLineTerminator(c: char) {
    c == '\n' || c == '\r' || c == '\U{0085}' || c == '\U{2028}' || c == '\U{2029}'
  }

  predicate IsAsciiUpper(c: char) { 'A' <= c <= 'Z' }
  predicate IsAsciiLower(c: char) { 'a' <= c <= 'z' }
  predicate IsAsciiLetter(c: char) { IsAsciiUpper(c) || IsAsciiLower(c) }
  predicate IsDigit(c: char) { '0' <= c <= '9' }

  function LowerChar(c: char): (r: char)
    ensures IsAsciiUpper(c) ==> IsAsciiLower(r) && r as int == c as int + 32
    ensures !IsAsciiUpper(c) ==> r == c
  {
    if IsAsciiUpper(c) then (c as int + 32) as char else c
  }

  function UpperChar(c: char): (r: char)
    ensures IsAsciiLower(c) ==> IsAsciiUpper(r) && LowerChar(r) == c
    ensures !IsAsciiLower(c) ==> r == c
  {
    if IsAsciiLower(c) then (c as int - 32) as char else c
  }

  /** `String.lowercase()`, character by character. */
  function Lower(s: string): (r: string)
    ensures |r| == |s|
    ensures forall i :: 0 <= i < |s| ==> r[i] == LowerChar(s[i])
  {
    seq(|s|, i requires 0 <= i < |s| => LowerChar(s[i]))
  }

  lemma LowerAppend(a: string, b: string)
    ensures Lower(a + b) == Lower(a) + Lower(b)
  {
  }

  /** Lowercasing text that has no upper-case letters changes nothing. */
  lemma LowerOfLower(s: string)
    requires forall i :: 0 <= i < |s| ==> !IsAsciiUpper(s[i])
    ensures Lower(s) == s
  {
  }

  /** Lowercasing commutes with taking a prefix. */
  lemma LowerPrefix(p: string, s: string)
    requires p <= s
    ensures Lower(p) <= Lower(s)
  {
    assert Lower(s)[..|p|] == Lower(p);
  }

  /** The number of whitespace characters that start `s`. */
  function LeadingWhitespace(s: string): (n: nat)
    ensures n <= |s|
    ensures forall i :: 0 <= i < n ==> IsWhitespace(s[i])
    ensures n < |s| ==> !IsWhitespace(s[n])
    decreases |s|
  {
    if |s| > 0 && IsWhitespace(s[0]) then 1 + LeadingWhitespace(s[1..]) else 0
  }

  /** The number of whitespace characters that end `s`. */
  function TrailingWhitespace(s: string): (n: nat)
    ensures n <= |s|
    ensures forall i :: |s| - n <= i < |s| ==> IsWhitespace(s[i])
    ensures n < |s| ==> !IsWhitespace(s[|s| - n - 1])
    decreases |s|
  {
    if |s| > 0 && IsWhitespace(s[|s| - 1]) then 1 + TrailingWhitespace(s[..|s| - 1]) else 0
  }

  /** The leading whitespace of `s` removed (Kotlin's `trimStart`). */
  function TrimStart(s: string): string {
    s[LeadingWhitespace(s)..]
  }

  /** The trailing whitespace of `s` removed (Kotlin's `trimEnd`). */
  function TrimEnd(s: string): string {
    s[..|s| - TrailingWhitespace(s)]
  }

  /** Kotlin's `trim()`: leading and trailing whitespace removed. */
  function Trim(s: string): string {
    TrimEnd(TrimStart(s))
  }

  /** Text that neither starts nor ends with whitespace is its own trim. */
  lemma {:induction false} TrimUnchanged(s: string)
    requires s == [] || (!IsWhitespace(s[0]) && !IsWhitespace(s[|s| - 1]))
    ensures Trim(s) == s
  {
  }

  /** Trimming is idempotent, and its result neither starts nor ends with whitespace. */
  lemma {:induction false} TrimIdempotent(s: string)
    ensures Trim(s) == [] || (!IsWhitespace(Trim(s)[0]) && !IsWhitespace(Trim(s)[|Trim(s)| - 1]))
    ensures Trim(Trim(s)) == Trim(s)
  {
    var t := TrimStart(s);
    var r := TrimEnd(t);
    assert r == [] || r[0] == t[0];
    TrimUnchanged(r);
  }

  /** Kotlin's `isBlank()`: empty or whitespace only. */
  predicate IsBlank(s: string) {
    forall i :: 0 <= i < |s| ==> IsWhitespace(s[i])
  }

  lemma {:induction false} BlankIffTrimEmpty(s: string)
    ensures IsBlank(s) <==> Trim(s) == []
  {
    var t := TrimStart(s);
    if !IsBlank(s) {
      var k :| 0 <= k < |s| && !IsWhitespace(s[k]);
      assert t != [];
      assert TrimEnd(t) != [];
    }
  }

  /** Kotlin's `contains(other)`: `sub` occurs somewhere in `s`. */
  predicate Contains(s: string, sub: string)
    decreases |s|
  {
    sub <= s || (|s| > 0 && Contains(s[1..], sub))
  }

  /** Every string contains itself and the empty string. */
  lemma ContainsSelfAndEmpty(s: string)
    ensures Contains(s, s) && Contains(s, "")
  {
  }

  /** Kotlin's `removePrefix`. */
  function RemovePrefix(s: string, prefix: string): (r: string)
    ensures prefix <= s ==> s == prefix + r
    ensures !(prefix <= s) ==> r == s
  {
    if prefix <= s then s[|prefix|..] else s
  }

  /** Kotlin's `take(n)` on a string. */
  function TakeChars(s: string, n: nat): (r: string)
    ensures r <= s
    ensures |r| == if |s| < n then |s| else n
  {
    if |s| <= n then s else s[..n]
  }

  /** `s` ends with `suffix`. */
  predicate IsSuffix(suffix: string, s: string) {
    |suffix| <= |s| && s[|s| - |suffix|..] == suffix
  }

  /** The labels of a dotted name joined back together with dots. */
  function JoinDots(parts: seq<string>): string
    requires |parts| >= 1
    decreases |parts|
  {
    if |parts| == 1 then parts[0] else parts[0] + "." + JoinDots(parts[1..])
  }

  /** No part contains a dot. */
  predicate DotFree(parts: seq<string>) {
    forall i :: 0 <= i < |parts| ==> '.' !in parts[i]
  }

  /** Kotlin's `split(".")`: every part, empty ones included, in order. */
  function SplitDots(s: string): (parts: seq<string>)
    ensures |parts| >= 1
    ensures DotFree(parts)
    decreases |s|
  {
    if |s| == 0 then [""]
    else
      var rest := SplitDots(s[1..]);
      if s[0] == '.' then [""] + rest
      else [[s[0]] + rest[0]] + rest[1..]
  }

  /** Joining the parts of a split gives back the text. */
  lemma {:induction false} JoinSplit(s: string)
    ensures JoinDots(SplitDots(s)) == s
    decreases |s|
  {
    if |s| > 0 {
      var rest := SplitDots(s[1..]);
      JoinSplit(s[1..]);
      if s[0] == '.' {
        assert ([""] + rest)[1..] == rest;
      } else {
        var parts := [[s[0]] + rest[0]] + rest[1..];
        if |rest| > 1 {
          assert parts[1..] == rest[1..];
        }
      }
    }
  }

  /** Splitting a label that has no dot followed by a dot and more text. */
  lemma {:induction false} SplitAfterLabel(p: string, t: string)
    requires '.' !in p
    ensures SplitDots(p + "." + t) == [p] + SplitDots(t)
    ensures SplitDots(p) == [p]
    decreases |p|
  {
    if |p| == 0 {
      assert p + "." + t == "." + t;
      assert ("." + t)[1..] == t;
    } else {
      SplitAfterLabel(p[1..], t);
      assert (p + "." + t)[1..] == p[1..] + "." + t;
      assert [p[0]] + p[1..] == p;
    }
  }

  /** Splitting a text, a dot and more text gives the parts of each, one after the other. */
  lemma {:induction false} SplitAroundDot(p: string, t: string)
    ensures SplitDots(p + "." + t) == SplitDots(p) + SplitDots(t)
    decreases |p|
  {
    var s := p + "." + t;
    if |p| == 0 {
      assert s == "." + t && s[1..] == t;
    } else {
      assert s[0] == p[0] && s[1..] == p[1..] + "." + t;
      SplitAroundDot(p[1..], t);
      var q, r := SplitDots(p[1..]), SplitDots(t);
      assert SplitDots(s[1..]) == q + r;
      if p[0] != '.' {
        assert (q + r)[0] == q[0] && (q + r)[1..] == q[1..] + r;
      }
    }
  }

  /** Splitting undoes joining, for parts that contain no dot. */
  lemma {:induction false} SplitJoin(parts: seq<string>)
    requires |parts| >= 1 && DotFree(parts)
    ensures SplitDots(JoinDots(parts)) == parts
    decreases |parts|
  {
    SplitAfterLabel(parts[0], "");
    if |parts| > 1 {
      SplitJoin(parts[1..]);
      SplitAfterLabel(parts[0], JoinDots(parts[1..]));
    }
  }

  /** The join of the last labels of a name is a suffix of the name. */
  lemma {:induction false} JoinTailIsSuffix(parts: seq<string>, j: nat)
    requires j < |parts|
    ensures IsSuffix(JoinDots(parts[j..]), JoinDots(parts))
    decreases j
  {
    if j > 0 {
      JoinTailIsSuffix(parts[1..], j - 1);
      assert parts[1..][j - 1..] == parts[j..];
    }
  }
}
