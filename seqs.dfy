/** Order-preserving list operations used by the secret filters (Kotlin's `filter` and `take`). */
module Seqs {

  /** `sub` can be obtained from `s` by deleting elements, so its elements keep their relative order. */
  ghost predicate IsSubsequence<T>(sub: seq<T>, s: seq<T>)
    decreases |s|
  {
    if sub == [] then true
    else if s == [] then false
    else if sub[0] == s[0] then IsSubsequence(sub[1..], s[1..])
    else IsSubsequence(sub, s[1..])
  }

  /** A prefix of a subsequence is a subsequence. */
  lemma {:induction false} PrefixOfSubsequence<T>(sub: seq<T>, s: seq<T>, n: nat)
    requires IsSubsequence(sub, s) && n <= |sub|
    ensures IsSubsequence(sub[..n], s)
    decreases |s|
  {
    if n == 0 || sub == [] {
    } else if s == [] {
    } else if sub[0] == s[0] {
      PrefixOfSubsequence(sub[1..], s[1..], n - 1);
      assert sub[..n][1..] == sub[1..][..n - 1];
    } else {
      PrefixOfSubsequence(sub, s[1..], n);
    }
  }

  /** Every element of a subsequence is an element of the sequence. */
  lemma {:induction false} SubsequenceMembers<T>(sub: seq<T>, s: seq<T>)
    requires IsSubsequence(sub, s)
    ensures forall x :: x in sub ==> x in s
    decreases |s|
  {
    if sub == [] {
    } else if s == [] {
    } else if sub[0] == s[0] {
      SubsequenceMembers(sub[1..], s[1..]);
      assert forall x :: x in sub ==> x == sub[0] || x in sub[1..];
    } else {
      SubsequenceMembers(sub, s[1..]);
    }
  }

  /** Kotlin's `filter`: the elements of `s` that satisfy `p`, in their original order. */
  function Filter<T(!new)>(p: T -> bool, s: seq<T>): (r: seq<T>)
    ensures IsSubsequence(r, s)
    ensures forall i :: 0 <= i < |r| ==> p(r[i])
    ensures forall x :: x in s && p(x) ==> x in r
    ensures forall x :: multiset(r)[x] == if p(x) then multiset(s)[x] else 0
    ensures |r| <= |s|
    decreases |s|
  {
    if s == [] then []
    else
      var rest := Filter(p, s[1..]);
      assert s == [s[0]] + s[1..];
      assert multiset(s) == multiset{s[0]} + multiset(s[1..]);
      if p(s[0]) then
        assert multiset([s[0]] + rest) == multiset{s[0]} + multiset(rest);
        [s[0]] + rest
      else rest
  }

  /** When every element satisfies `p`, filtering keeps the whole sequence. */
  lemma {:induction false} FilterAll<T(!new)>(p: T -> bool, s: seq<T>)
    requires forall i :: 0 <= i < |s| ==> p(s[i])
    ensures Filter(p, s) == s
    decreases |s|
  {
    if s != [] {
      FilterAll(p, s[1..]);
    }
  }

  /** Kotlin's `take(n)`: the first `n` elements, or the whole sequence when it is shorter. */
  function Take<T>(s: seq<T>, n: nat): (r: seq<T>)
    ensures |r| == if |s| < n then |s| else n
    ensures r <= s
  {
    if |s| <= n then s else s[..n]
  }
}
