/** The Burrows-Wheeler transform of a block, and why following the links built from its last
    column gives the block back, also when the block is periodic and the links fall into several
    cycles. */
module InverseBwt {
  import opened Counting
  import opened Rotation

  /** The last character of every row, as the back end of the compressor reads it. */
  function LastColumn(b: seq<int>, p: seq<int>): (l: seq<int>)
    requires SortedTo(b, p, |b|)
    ensures |l| == |b|
    ensures forall r :: 0 <= r < |b| ==> l[r] == b[Prev(p[r], |b|)]
  {
    seq(|b|, r requires 0 <= r < |b| => b[Prev(p[r], |b|)])
  }

  /** The row of the first column that holds the same character occurrence as row x of the last. */
  function Rank(l: seq<int>, x: nat): nat
    requires x < |l|
  {
    CountLess(l, |l|, l[x]) + CountEq(l, x, l[x])
  }

  /** q takes a row of the first column to the row of the last column with the same occurrence. */
  ghost predicate Links(l: seq<int>, q: seq<int>) {
    && |q| == |l|
    && (forall k :: 0 <= k < |q| ==> 0 <= q[k] < |l|)
    && (forall k :: 0 <= k < |q| ==> Rank(l, q[k]) == k)
  }

  lemma LinkSize(l: seq<int>, q: seq<int>)
    requires Links(l, q)
    ensures |q| == |l| && forall j :: 0 <= j < |q| ==> 0 <= q[j] < |l|
  {
  }

  /** There is only one way to link the rows. */
  lemma LinksUnique(l: seq<int>, p: seq<int>, q: seq<int>)
    requires Links(l, p) && Links(l, q)
    ensures p == q
  {
    hide Rank;
    forall k | 0 <= k < |l| ensures p[k] == q[k] {
      if p[k] != q[k] { RankInjective(l, p[k], q[k]); }
    }
  }

  /** The k characters met by following the links from row t. */
  function Walk(l: seq<int>, q: seq<int>, t: nat, k: nat): (w: seq<int>)
    requires |q| == |l| && t < |l|
    requires forall j :: 0 <= j < |q| ==> 0 <= q[j] < |l|
    ensures |w| == k
    decreases k
  {
    if k == 0 then [] else [l[q[t]]] + Walk(l, q, q[t], k - 1)
  }

  /** A rank lies in the bucket of its row's character. */
  lemma RankBounds(l: seq<int>, x: nat)
    requires x < |l|
    ensures CountLess(l, |l|, l[x]) <= Rank(l, x) < CountLess(l, |l|, l[x] + 1) <= |l|
  {
    CountSplit(l, |l|, l[x]);
    CountEqGrows(l, x + 1, |l|, l[x]);
  }

  /** Rank orders rows by character and then by row number. */
  lemma RankOrder(l: seq<int>, x: nat, y: nat)
    requires x < |l| && y < |l|
    requires l[x] < l[y] || (l[x] == l[y] && x < y)
    ensures Rank(l, x) < Rank(l, y)
  {
    if l[x] < l[y] {
      RankBounds(l, x);
      CountLessGrows(l, |l|, l[x] + 1, l[y]);
    } else {
      CountEqGrows(l, x + 1, y, l[x]);
    }
  }

  /** Different rows have different ranks. */
  lemma RankInjective(l: seq<int>, x: nat, y: nat)
    requires x < |l| && y < |l| && x != y
    ensures Rank(l, x) != Rank(l, y)
  {
    if l[x] < l[y] || (l[x] == l[y] && x < y) { RankOrder(l, x, y); } else { RankOrder(l, y, x); }
  }

  /** Rows turned back by one place and listed in link order are again sorted. */
  lemma TurnedRowsSorted(b: seq<int>, p: seq<int>, q: seq<int>) returns (t: seq<int>)
    requires |b| > 0 && SortsRotations(b, p) && Links(LastColumn(b, p), q)
    ensures |t| == |b| && SortsRotations(b, t)
    ensures forall k :: 0 <= k < |b| ==> t[k] == Prev(p[q[k]], |b|)
  {
    hide Rank;
    var n := |b|;
    var l := LastColumn(b, p);
    t := seq(n, k requires 0 <= k < n => Prev(p[q[k]], n));
    forall r, s | 0 <= r < s < n ensures t[r] != t[s] && Cmp(b, t[r], t[s], n) <= 0 {
      var x, y := q[r], q[s];
      if l[y] < l[x] || (l[x] == l[y] && y < x) {
        RankOrder(l, y, x);
        assert false;
      }
      assert x != y;
      assert p[x] != p[y];
      assert b[t[r]] == l[x] && b[t[s]] == l[y];
      if l[x] == l[y] {
        assert x < y;
        CmpPrefix(b, p[x], p[y], n - 1, n);
      }
    }
  }

  /** One link moves to a rotation equal to the one that starts one character later. */
  lemma LinkTurns(b: seq<int>, p: seq<int>, q: seq<int>, k: nat)
    requires k < |b| && SortsRotations(b, p) && Links(LastColumn(b, p), q)
    ensures Cmp(b, p[q[k]], Next(p[k], |b|), |b|) == 0
  {
    var t := TurnedRowsSorted(b, p, q);
    SortedUnique(b, t, p, |b|, k);
    TieTurns(b, t[k], p[k]);
  }

  lemma TieSymmetric(b: seq<int>, x: int, y: int)
    requires 0 <= x < |b| && 0 <= y < |b| && Cmp(b, x, y, |b|) == 0
    ensures Cmp(b, y, x, |b|) == 0
  {
    CmpAntisymmetric(b, x, y, |b|);
  }

  lemma TieTransitive(b: seq<int>, x: int, y: int, z: int)
    requires 0 <= x < |b| && 0 <= y < |b| && 0 <= z < |b| && Cmp(b, x, y, |b|) == 0 && Cmp(b, y, z, |b|) == 0
    ensures Cmp(b, x, z, |b|) == 0
  {
    hide Cmp;
    TieSymmetric(b, x, y);
    TieSymmetric(b, y, z);
    CmpTransitive(b, x, y, z, |b|);
    CmpTransitive(b, z, y, x, |b|);
    CmpAntisymmetric(b, x, z, |b|);
  }

  /** From a row equal to rotation i, one link leads to a row equal to the next rotation, and its last
      character is character i. */
  lemma LinkFollows(b: seq<int>, p: seq<int>, q: seq<int>, t: nat, i: nat)
    requires SortsRotations(b, p) && Links(LastColumn(b, p), q)
    requires t < |b| && i < |b| && Cmp(b, p[t], i, |b|) == 0
    ensures 0 <= q[t] < |b| && Cmp(b, p[q[t]], Next(i, |b|), |b|) == 0 && LastColumn(b, p)[q[t]] == b[i]
  {
    hide Cmp, Rank;
    var n := |b|;
    LinkTurns(b, p, q, t);
    TieTurns(b, p[t], i);
    TieTransitive(b, p[q[t]], Next(p[t], n), Next(i, n));
    TieTurns(b, p[q[t]], Next(i, n));
    TieAt(b, Prev(p[q[t]], n), Prev(Next(i, n), n), n, 0);
  }

  lemma {:induction false} WalkFrom(b: seq<int>, p: seq<int>, q: seq<int>, t: nat, i: nat)
    requires SortsRotations(b, p) && Links(LastColumn(b, p), q)
    requires t < |b| && i < |b| && Cmp(b, p[t], i, |b|) == 0
    ensures Walk(LastColumn(b, p), q, t, |b| - i) == b[i..]
    decreases |b| - i
  {
    hide Cmp, Rank;
    LinkFollows(b, p, q, t, i);
    if i + 1 < |b| {
      WalkFrom(b, p, q, q[t], i + 1);
    }
    assert b[i..] == [b[i]] + b[i + 1..];
  }

  /** Inverse transform: for every block and every sorted listing of its rotations, walking |b|
      links from the row of rotation 0 spells the block. */
  lemma WalkRestoresBlock(b: seq<int>, p: seq<int>, q: seq<int>, orig: nat)
    requires SortsRotations(b, p) && Links(LastColumn(b, p), q)
    requires orig < |b| && p[orig] == 0
    ensures Walk(LastColumn(b, p), q, orig, |b|) == b
  {
    CmpSelf(b, 0, |b|);
    WalkFrom(b, p, q, orig, 0);
    assert b[0..] == b;
  }

  /** The last column does not depend on how a sorter arranges equal rotations. */
  lemma LastColumnUnique(b: seq<int>, p: seq<int>, q: seq<int>)
    requires SortsRotations(b, p) && SortsRotations(b, q)
    ensures LastColumn(b, p) == LastColumn(b, q)
  {
    forall r | 0 <= r < |b| ensures LastColumn(b, p)[r] == LastColumn(b, q)[r] {
      SortedUnique(b, p, q, |b|, r);
      TieTurns(b, p[r], q[r]);
      TieAt(b, Prev(p[r], |b|), Prev(q[r], |b|), |b|, 0);
    }
  }

  lemma EqualRows(b: seq<int>, p: seq<int>, q: seq<int>, x: int, y: int)
    requires SortedTo(b, p, |b|) && |q| == |b| && 0 <= x < y < |b| && 0 <= q[x] < |b| && 0 <= q[y] < |b|
    requires Cmp(b, q[x], p[x], |b|) == 0 && Cmp(b, p[y], q[y], |b|) == 0
    ensures Cmp(b, q[x], q[y], |b|) <= 0
  {
    var n := |b|;
    assert Cmp(b, p[x], p[y], n) <= 0;
    hide Cmp, SortedTo;
    CmpTransitive(b, q[x], p[x], p[y], n);
    CmpTransitive(b, q[x], p[y], q[y], n);
  }

  lemma SwapPerm(p: seq<int>, n: nat, r: nat, t: nat)
    requires IsPerm(p, n) && r < n && t < n && r != t
    ensures IsPerm(p[r := p[t]][t := p[r]], n)
  {
  }

  lemma SortedIntro(b: seq<int>, q: seq<int>)
    requires |q| == |b| && forall x :: 0 <= x < |b| ==> 0 <= q[x] < |b|
    requires forall x, y :: 0 <= x < y < |b| ==> Cmp(b, q[x], q[y], |b|) <= 0
    ensures SortedTo(b, q, |b|)
  {
  }

  /** Exchanging two equal rotations leaves a listing sorted. */
  lemma SwapEqualRows(b: seq<int>, p: seq<int>, r: nat, t: nat)
    requires SortsRotations(b, p) && r < |b| && t < |b| && r != t
    requires Cmp(b, p[r], p[t], |b|) == 0
    ensures SortsRotations(b, p[r := p[t]][t := p[r]])
  {
    var n := |b|;
    var q := p[r := p[t]][t := p[r]];
    assert |p| == n && forall x :: 0 <= x < n ==> 0 <= p[x] < n;
    SwapPerm(p, n, r, t);
    hide Cmp, IsPerm, SortedTo;
    TieSymmetric(b, p[r], p[t]);
    forall x | 0 <= x < n ensures Cmp(b, q[x], p[x], n) == 0 && Cmp(b, p[x], q[x], n) == 0 {
      CmpSelf(b, p[x], n);
    }
    forall x, y | 0 <= x < y < n ensures Cmp(b, q[x], q[y], n) <= 0 {
      EqualRows(b, p, q, x, y);
    }
    SortedIntro(b, q);
  }

  /** The row of rotation 0, and with it the origin pointer in the compressed stream, is the same
      for all sorters exactly when no other rotation equals rotation 0. */
  lemma OrigRowUnique(b: seq<int>, p: seq<int>, r: nat)
    requires SortsRotations(b, p) && r < |b| && p[r] == 0
    ensures (forall q, s :: SortsRotations(b, q) && 0 <= s < |b| && q[s] == 0 ==> s == r)
            <==> (forall i :: 0 < i < |b| ==> Cmp(b, 0, i, |b|) != 0)
  {
    var n := |b|;
    if i: int :| 0 < i < n && Cmp(b, 0, i, n) == 0 {
      PermCovers(p, n, i);
      var t :| 0 <= t < n && p[t] == i;
      SwapEqualRows(b, p, r, t);
      var q := p[r := p[t]][t := p[r]];
      assert SortsRotations(b, q) && q[t] == 0 && t != r;
    } else {
      forall q: seq<int>, s: int | SortsRotations(b, q) && 0 <= s < n && q[s] == 0 ensures s == r {
        SortedUnique(b, p, q, |b|, r);
        assert q[r] == 0;
      }
    }
  }
}
