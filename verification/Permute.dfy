/** Rearrangements of a stretch of a sequence: what in-place sorting steps may do to an array. */
module Permute {
  import Rotation

  /** t differs from s only by a rearrangement of positions lo..hi. */
  ghost predicate Rearranged(s: seq<int>, t: seq<int>, lo: int, hi: int) {
    && |s| == |t| && 0 <= lo <= hi + 1 <= |s|
    && (forall k :: 0 <= k < |s| && !(lo <= k <= hi) ==> t[k] == s[k])
    && multiset(s) == multiset(t)
  }

  lemma RearrangedSlice(s: seq<int>, t: seq<int>, lo: int, hi: int)
    requires Rearranged(s, t, lo, hi)
    ensures multiset(s[lo..hi + 1]) == multiset(t[lo..hi + 1])
  {
    assert s[..lo] == t[..lo] && s[hi + 1..] == t[hi + 1..];
    assert s == s[..lo] + s[lo..hi + 1] + s[hi + 1..];
    assert t == t[..lo] + t[lo..hi + 1] + t[hi + 1..];
    var outer := multiset(s[..lo]) + multiset(s[hi + 1..]);
    calc {
      multiset(s[lo..hi + 1]);
      multiset(s) - outer;
      multiset(t) - outer;
      multiset(t[lo..hi + 1]);
    }
  }

  /** Every element of the stretch came from some position of the stretch. */
  lemma Origin(s: seq<int>, t: seq<int>, lo: int, hi: int, k: int) returns (j: int)
    requires Rearranged(s, t, lo, hi) && lo <= k <= hi
    ensures lo <= j <= hi && s[j] == t[k]
  {
    RearrangedSlice(s, t, lo, hi);
    assert t[k] == t[lo..hi + 1][k - lo];
    assert t[k] in multiset(t[lo..hi + 1]);
    assert t[k] in s[lo..hi + 1];
    j := lo;
    while s[j] != t[k]
      invariant lo <= j <= hi
      invariant t[k] in s[j..hi + 1]
      decreases hi - j
    {
      assert s[j..hi + 1] == [s[j]] + s[j + 1..hi + 1];
      j := j + 1;
    }
  }

  lemma RearrangedTwice(s: seq<int>, t: seq<int>, u: seq<int>, lo: int, hi: int)
    requires Rearranged(s, t, lo, hi) && Rearranged(t, u, lo, hi)
    ensures Rearranged(s, u, lo, hi)
  {
  }

  lemma RearrangedNot(s: seq<int>, lo: int, hi: int)
    requires 0 <= lo <= hi + 1 <= |s|
    ensures Rearranged(s, s, lo, hi)
  {
  }

  /** Exchanging two elements is a rearrangement. */
  lemma SwapRearranges(s: seq<int>, i: int, j: int, lo: int, hi: int)
    requires 0 <= lo <= i <= hi < |s| && lo <= j <= hi
    ensures Rearranged(s, s[i := s[j]][j := s[i]], lo, hi)
  {
  }

  /** A permutation of the block positions stays one when rearranged. */
  lemma PermKept(s: seq<int>, t: seq<int>, n: nat)
    requires Rotation.IsPerm(s, n) && multiset(s) == multiset(t)
    ensures Rotation.IsPerm(t, n)
  {
    assert |s| == |multiset(s)| == |multiset(t)| == |t|;
    forall r | 0 <= r < n ensures 0 <= t[r] < n {
      assert t[r] in multiset(t);
      assert t[r] in s;
    }
    forall r, q | 0 <= r < q < n ensures t[r] != t[q] {
      if t[r] == t[q] {
        MultiplicityTwo(t, r, q);
        MultiplicityOne(s, t[r]);
        assert false;
      }
    }
  }

  lemma MultiplicityTwo(t: seq<int>, r: nat, q: nat)
    requires r < q < |t| && t[r] == t[q]
    ensures multiset(t)[t[r]] >= 2
  {
    assert t == t[..q] + [t[q]] + t[q + 1..];
    assert t[r] in t[..q];
  }

  lemma {:induction false} MultiplicityOne(s: seq<int>, x: int)
    requires forall r, q :: 0 <= r < q < |s| ==> s[r] != s[q]
    ensures multiset(s)[x] <= 1
    decreases |s|
  {
    if |s| > 0 {
      var m := |s| - 1;
      assert s == s[..m] + [s[m]];
      MultiplicityOne(s[..m], x);
      if s[m] == x { assert x !in s[..m]; }
    }
  }

  /** Every pointer in f has a key d places on in e. */
  ghost predicate Keyed(f: seq<int>, e: seq<int>, d: nat) {
    forall k :: 0 <= k < |f| ==> 0 <= f[k] && f[k] + d < |e|
  }

  lemma KeyedKept(f: seq<int>, g: seq<int>, e: seq<int>, d: nat, lo: int, hi: int)
    requires Keyed(f, e, d) && Rearranged(f, g, lo, hi)
    ensures Keyed(g, e, d)
  {
    forall k | 0 <= k < |g| ensures 0 <= g[k] && g[k] + d < |e| {
      if lo <= k <= hi { var j := Origin(f, g, lo, hi, k); }
    }
  }

  /** Keys do not descend along lo..hi. */
  ghost predicate Ascending(f: seq<int>, e: seq<int>, lo: int, hi: int)
    requires Keyed(f, e, 0) && hi < |f|
  {
    forall p, q :: 0 <= p && lo <= p < q <= hi ==> e[f[p]] <= e[f[q]]
  }
}
