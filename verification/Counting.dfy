/** Character counts and the bucket boundaries they determine. */
module Counting {
  /** Occurrences of c among the first i characters of s. */
  function CountEq(s: seq<int>, i: nat, c: int): (r: nat)
    requires i <= |s|
    ensures r <= i
  {
    if i == 0 then 0 else CountEq(s, i - 1, c) + (if s[i - 1] == c then 1 else 0)
  }

  /** Characters below c among the first i of s. */
  function CountLess(s: seq<int>, i: nat, c: int): (r: nat)
    requires i <= |s|
    ensures r <= i
  {
    if i == 0 then 0 else CountLess(s, i - 1, c) + (if s[i - 1] < c then 1 else 0)
  }

  lemma {:induction false} CountSplit(s: seq<int>, i: nat, c: int)
    requires i <= |s|
    ensures CountLess(s, i, c) + CountEq(s, i, c) == CountLess(s, i, c + 1)
  {
    if i > 0 { CountSplit(s, i - 1, c); }
  }

  lemma {:induction false} CountLessGrows(s: seq<int>, i: nat, c: int, d: int)
    requires i <= |s| && c <= d
    ensures CountLess(s, i, c) <= CountLess(s, i, d)
  {
    if i > 0 { CountLessGrows(s, i - 1, c, d); }
  }

  lemma {:induction false} CountEqGrows(s: seq<int>, i: nat, j: nat, c: int)
    requires i <= j <= |s|
    ensures CountEq(s, i, c) <= CountEq(s, j, c)
    decreases j
  {
    if i < j { CountEqGrows(s, i, j - 1, c); }
  }

  /** All characters of s are below a. */
  ghost predicate Within(s: seq<int>, a: nat) {
    forall i :: 0 <= i < |s| ==> 0 <= s[i] < a
  }

  lemma {:induction false} CountAll(s: seq<int>, a: nat, i: nat, c: int)
    requires Within(s, a) && i <= |s|
    ensures c <= 0 ==> CountLess(s, i, c) == 0
    ensures c >= a ==> CountLess(s, i, c) == i
  {
    if i > 0 { CountAll(s, a, i - 1, c); }
  }

  /** cf[c] is the first row of the bucket of c when rows are grouped by character. */
  ghost predicate Starts(s: seq<int>, a: nat, cf: seq<int>) {
    |cf| == a + 1 && forall c :: 0 <= c <= a ==> cf[c] == CountLess(s, |s|, c)
  }

  /** Every row of f lies in the bucket of the character it points to. */
  ghost predicate InBuckets(s: seq<int>, f: seq<int>) {
    && |f| == |s|
    && (forall p :: 0 <= p < |f| ==> 0 <= f[p] < |s|)
    && (forall p :: 0 <= p < |f| ==> CountLess(s, |s|, s[f[p]]) <= p < CountLess(s, |s|, s[f[p]] + 1))
  }

  /** Rows in buckets ascend by character; row p starts a bucket exactly when it differs from its
      predecessor. */
  lemma BucketsAscend(s: seq<int>, f: seq<int>, p: nat, q: nat)
    requires InBuckets(s, f) && p < q < |f|
    ensures s[f[p]] <= s[f[q]]
  {
    if s[f[q]] < s[f[p]] { CountLessGrows(s, |s|, s[f[q]] + 1, s[f[p]]); }
  }

  lemma BucketChange(s: seq<int>, f: seq<int>, p: nat)
    requires InBuckets(s, f) && 0 < p < |f| && s[f[p - 1]] != s[f[p]]
    ensures CountLess(s, |s|, s[f[p]]) == p
  {
    hide CountLess;
    BucketsAscend(s, f, p - 1, p);
    CountLessGrows(s, |s|, s[f[p - 1]] + 1, s[f[p]]);
  }

  lemma BucketBoundary(s: seq<int>, f: seq<int>, p: nat, c: int)
    requires InBuckets(s, f) && 0 < p < |f| && CountLess(s, |s|, c) == p
    ensures s[f[p - 1]] < c <= s[f[p]]
  {
    hide CountLess;
    if s[f[p - 1]] >= c { CountLessGrows(s, |s|, c, s[f[p - 1]]); }
    if s[f[p]] < c { CountLessGrows(s, |s|, s[f[p]] + 1, c); }
  }

  /** Only the counted stretch matters. */
  lemma {:induction false} CountEqSame(s: seq<int>, t: seq<int>, i: nat, c: int)
    requires i <= |s| && i <= |t| && forall k :: 0 <= k < i ==> s[k] == t[k]
    ensures CountEq(s, i, c) == CountEq(t, i, c)
  {
    if i > 0 { CountEqSame(s, t, i - 1, c); }
  }

  /** Changing one element moves one count. */
  lemma {:induction false} CountEqSet(s: seq<int>, i: nat, j: nat, v: int, c: int)
    requires j < i <= |s|
    ensures CountEq(s[j := v], i, c) == CountEq(s, i, c) - (if s[j] == c then 1 else 0) + (if v == c then 1 else 0)
  {
    if j == i - 1 {
      CountEqSame(s, s[j := v], i - 1, c);
    } else {
      CountEqSet(s, i - 1, j, v, c);
    }
  }

  /** An element counted once is in one place. */
  lemma {:induction false} CountEqTwo(s: seq<int>, i: nat, j: nat, k: nat)
    requires j < k < i <= |s| && s[j] == s[k]
    ensures CountEq(s, i, s[j]) >= 2
  {
    CountEqGrows(s, 0, j, s[j]);
    CountEqGrows(s, j + 1, k, s[j]);
    CountEqGrows(s, k + 1, i, s[j]);
  }
}
