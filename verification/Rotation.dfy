/** Cyclic rotations of a block and the order in which the block sorters must put them.

    Positions are never reduced with `%`: every index that leaves the block is folded back by
    one subtraction, which is also what the C code does. */
module Rotation {

  /** The position k places after i in a block of n bytes. */
  function Shift(i: nat, k: nat, n: nat): (r: nat)
    requires i < n && k <= n
    ensures r < n
  {
    if i + k < n then i + k else i + k - n
  }

  function Next(i: nat, n: nat): nat
    requires i < n
  {
    Shift(i, 1, n)
  }

  function Prev(i: nat, n: nat): (r: nat)
    requires i < n
    ensures r < n && Next(r, n) == i
  {
    if i == 0 then n - 1 else i - 1
  }

  /** Sign of the comparison of the first k characters of the rotations starting at i and at j. */
  function Cmp(b: seq<int>, i: nat, j: nat, k: nat): (r: int)
    requires i < |b| && j < |b|
    ensures -1 <= r <= 1
    decreases k
  {
    if k == 0 then 0
    else if b[i] < b[j] then -1
    else if b[i] > b[j] then 1
    else Cmp(b, Next(i, |b|), Next(j, |b|), k - 1)
  }

  /** p lists every position below n exactly once. */
  ghost predicate IsPerm(p: seq<int>, n: nat) {
    && |p| == n
    && (forall r :: 0 <= r < n ==> 0 <= p[r] < n)
    && (forall r, s :: 0 <= r < s < n ==> p[r] != p[s])
  }

  /** Rows of p are in weakly ascending order of their first k characters. */
  ghost predicate SortedTo(b: seq<int>, p: seq<int>, k: nat) {
    && |p| == |b|
    && (forall r :: 0 <= r < |p| ==> 0 <= p[r] < |b|)
    && (forall r, s :: 0 <= r < s < |p| ==> Cmp(b, p[r], p[s], k) <= 0)
  }

  /** What a block sorter promises: all rotations, in ascending order, ties in any order. */
  ghost predicate SortsRotations(b: seq<int>, p: seq<int>) {
    IsPerm(p, |b|) && SortedTo(b, p, |b|)
  }

  lemma {:induction false} CmpAntisymmetric(b: seq<int>, i: nat, j: nat, k: nat)
    requires i < |b| && j < |b|
    ensures Cmp(b, j, i, k) == -Cmp(b, i, j, k)
    decreases k
  {
    if k > 0 && b[i] == b[j] {
      CmpAntisymmetric(b, Next(i, |b|), Next(j, |b|), k - 1);
    }
  }

  lemma {:induction false} CmpTransitive(b: seq<int>, i: nat, j: nat, l: nat, k: nat)
    requires i < |b| && j < |b| && l < |b|
    requires Cmp(b, i, j, k) <= 0 && Cmp(b, j, l, k) <= 0
    ensures Cmp(b, i, l, k) <= 0
    ensures Cmp(b, i, l, k) == 0 ==> Cmp(b, i, j, k) == 0 && Cmp(b, j, l, k) == 0
    decreases k
  {
    if k > 0 && b[i] == b[j] == b[l] {
      CmpTransitive(b, Next(i, |b|), Next(j, |b|), Next(l, |b|), k - 1);
    }
  }

  /** Comparing h + k characters is comparing h characters and, on a tie, k more. */
  lemma {:induction false} CmpSplit(b: seq<int>, i: nat, j: nat, h: nat, k: nat)
    requires i < |b| && j < |b| && h <= |b|
    ensures Cmp(b, i, j, h + k) ==
            if Cmp(b, i, j, h) != 0 then Cmp(b, i, j, h)
            else Cmp(b, Shift(i, h, |b|), Shift(j, h, |b|), k)
    decreases h
  {
    if h > 0 && b[i] == b[j] {
      CmpSplit(b, Next(i, |b|), Next(j, |b|), h - 1, k);
    }
  }

  /** A shorter comparison never contradicts a longer one. */
  lemma {:induction false} CmpPrefix(b: seq<int>, i: nat, j: nat, h: nat, k: nat)
    requires i < |b| && j < |b| && h <= k
    ensures Cmp(b, i, j, h) != 0 ==> Cmp(b, i, j, k) == Cmp(b, i, j, h)
    ensures Cmp(b, i, j, k) <= 0 ==> Cmp(b, i, j, h) <= 0
    ensures Cmp(b, i, j, k) == 0 ==> Cmp(b, i, j, h) == 0
    decreases h
  {
    if h > 0 && b[i] == b[j] {
      CmpPrefix(b, Next(i, |b|), Next(j, |b|), h - 1, k - 1);
    }
  }

  lemma {:induction false} CmpSelf(b: seq<int>, i: nat, k: nat)
    requires i < |b|
    ensures Cmp(b, i, i, k) == 0
    decreases k
  {
    if k > 0 { CmpSelf(b, Next(i, |b|), k - 1); }
  }

  /** A tie over k characters is equality of those characters. */
  lemma {:induction false} TieAt(b: seq<int>, i: nat, j: nat, k: nat, t: nat)
    requires i < |b| && j < |b| && t < k && t <= |b|
    requires Cmp(b, i, j, k) == 0
    ensures b[Shift(i, t, |b|)] == b[Shift(j, t, |b|)]
  {
    CmpSplit(b, i, j, t, k - t);
    CmpPrefix(b, i, j, t, k);
  }

  /** Equal rotations stay equal when both are turned by one place, either way. */
  lemma TieTurns(b: seq<int>, i: nat, j: nat)
    requires i < |b| && j < |b| && Cmp(b, i, j, |b|) == 0
    ensures Cmp(b, Next(i, |b|), Next(j, |b|), |b|) == 0
    ensures Cmp(b, Prev(i, |b|), Prev(j, |b|), |b|) == 0
  {
    var n := |b|;
    CmpSplit(b, Next(i, n), Next(j, n), n - 1, 1);
    assert Shift(Next(i, n), n - 1, n) == i && Shift(Next(j, n), n - 1, n) == j;
    TieAt(b, i, j, n, n - 1);
    assert Shift(i, n - 1, n) == Prev(i, n) && Shift(j, n - 1, n) == Prev(j, n);
    CmpPrefix(b, i, j, n - 1, n);
  }

  /** Rotations equal over the whole block are equal over any number of characters. */
  lemma {:induction false} TieForever(b: seq<int>, i: nat, j: nat, k: nat)
    requires i < |b| && j < |b| && Cmp(b, i, j, |b|) == 0
    ensures Cmp(b, i, j, k) == 0
    decreases k
  {
    if k > 0 {
      TieTurns(b, i, j);
      TieForever(b, Next(i, |b|), Next(j, |b|), k - 1);
    }
  }

  /** Comparing more characters than the block has changes nothing. */
  lemma CmpSaturates(b: seq<int>, i: nat, j: nat, k: nat)
    requires i < |b| && j < |b| && |b| <= k
    ensures Cmp(b, i, j, k) == Cmp(b, i, j, |b|)
  {
    if Cmp(b, i, j, |b|) == 0 {
      TieForever(b, i, j, k);
    } else {
      CmpPrefix(b, i, j, |b|, k);
    }
  }

  /** A sequence of distinct elements drawn from s is no longer than s is large. */
  lemma {:induction false} DistinctWithin(p: seq<int>, s: set<int>)
    requires forall r :: 0 <= r < |p| ==> p[r] in s
    requires forall r, t :: 0 <= r < t < |p| ==> p[r] != p[t]
    ensures |p| <= |s|
    decreases |p|
  {
    if |p| > 0 {
      var m := |p| - 1;
      DistinctWithin(p[..m], s - {p[m]});
    }
  }

  /** The positions below n. */
  ghost function Below(n: nat): (s: set<int>)
    ensures |s| == n
    ensures forall x :: x in s <==> 0 <= x < n
  {
    if n == 0 then {} else Below(n - 1) + {n - 1}
  }

  /** Every position occurs in a permutation. */
  lemma PermCovers(p: seq<int>, n: nat, x: int)
    requires IsPerm(p, n) && 0 <= x < n
    ensures exists r :: 0 <= r < n && p[r] == x
  {
    if forall r :: 0 <= r < n ==> p[r] != x {
      DistinctWithin(p, Below(n) - {x});
    }
  }

  /** Two listings sorted by their first k characters agree row by row on those characters. */
  lemma SortedUnique(b: seq<int>, p: seq<int>, q: seq<int>, k: nat, r: nat)
    requires IsPerm(p, |b|) && SortedTo(b, p, k) && IsPerm(q, |b|) && SortedTo(b, q, k) && r < |b|
    ensures Cmp(b, p[r], q[r], k) == 0
  {
    CmpAntisymmetric(b, p[r], q[r], k);
    if Cmp(b, p[r], q[r], k) < 0 {
      RowNotBelow(b, p, q, k, r);
    } else if Cmp(b, p[r], q[r], k) > 0 {
      RowNotBelow(b, q, p, k, r);
    }
  }

  lemma RowNotBelow(b: seq<int>, p: seq<int>, q: seq<int>, k: nat, r: nat)
    requires IsPerm(p, |b|) && SortedTo(b, p, k) && IsPerm(q, |b|) && SortedTo(b, q, k) && r < |b|
    ensures Cmp(b, p[r], q[r], k) >= 0
  {
    var n := |b|;
    if Cmp(b, p[r], q[r], k) < 0 {
      var low := set s | 0 <= s < r :: q[s];
      forall s | 0 <= s <= r ensures p[s] in low {
        PermCovers(q, n, p[s]);
        var t :| 0 <= t < n && q[t] == p[s];
        if t >= r {
          if s < r { CmpTransitive(b, p[s], p[r], q[r], k); }
          if t > r { CmpTransitive(b, p[s], q[r], q[t], k); }
          CmpSelf(b, p[s], k);
          assert false;
        }
      }
      DistinctWithin(p[..r + 1], low);
      LowCard(q, r);
      assert false;
    }
  }

  lemma {:induction false} LowCard(q: seq<int>, r: nat)
    requires r <= |q|
    ensures |set s | 0 <= s < r :: q[s]| <= r
  {
    if r > 0 {
      LowCard(q, r - 1);
      assert (set s | 0 <= s < r :: q[s]) == (set s | 0 <= s < r - 1 :: q[s]) + {q[r - 1]};
    }
  }
}
