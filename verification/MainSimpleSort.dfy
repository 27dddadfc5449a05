/** The shell sort the main sorter uses for short ranges and at great depth. */
module MainSimpleSort {
  import opened MainCompare
  import opened Permute
  import opened Rotation
  import opened RotationRank

  /** The rotations in rows lo..hi agree on their first d characters. */
  ghost predicate SharePrefix(b: seq<int>, f: seq<int>, lo: int, hi: int, d: nat) {
    && 0 <= lo <= hi + 1 <= |f| && (forall k :: 0 <= k < |f| ==> 0 <= f[k] < |b|)
    && forall p, q :: lo <= p <= hi && lo <= q <= hi ==> Cmp(b, f[p], f[q], d) == 0
  }

  lemma SharePrefixKept(b: seq<int>, f: seq<int>, g: seq<int>, lo: int, hi: int, d: nat, lo2: int, hi2: int)
    requires SharePrefix(b, f, lo, hi, d) && Rearranged(f, g, lo2, hi2)
    requires (lo <= lo2 && hi2 <= hi) || hi < lo2 || hi2 < lo
    ensures SharePrefix(b, g, lo, hi, d)
  {
    assert Keyed(f, b, 0);
    KeyedKept(f, g, b, 0, lo2, hi2);
    forall p, q | lo <= p <= hi && lo <= q <= hi ensures Cmp(b, g[p], g[q], d) == 0 {
      var p', q' := p, q;
      if lo2 <= p <= hi2 { p' := Origin(f, g, lo2, hi2, p); }
      if lo2 <= q <= hi2 { q' := Origin(f, g, lo2, hi2, q); }
    }
  }

  lemma {:induction false} AdvIsFold(x: nat, d: nat, n: nat)
    requires x < n && d < n
    ensures Adv(x, d, n) == Fold(x + d, n)
  {
    if d > 0 { AdvIsFold(x, d - 1, n); }
  }

  /** A verdict found d characters on, after a shared prefix, is a verdict on the rotations. */
  lemma VerdictLifts(b: seq<int>, x: nat, y: nat, d: nat, gt: bool)
    requires x < |b| && y < |b| && d < |b| && Cmp(b, x, y, d) == 0
    requires Verdict(b, Fold(x + d, |b|), Fold(y + d, |b|), gt)
    ensures gt ==> Ranks(b)[y] <= Ranks(b)[x]
    ensures !gt ==> Ranks(b)[x] <= Ranks(b)[y]
  {
    var n := |b|;
    AdvIsFold(x, d, n);
    AdvIsFold(y, d, n);
    CmpAdv(b, x, y, d, n);
    CmpSaturates(b, x, y, d + n);
    CmpAntisymmetric(b, x, y, n);
    RankOrder(b, x, y);
    RankOrder(b, y, x);
  }

  /** State of one insertion: t is s with s[i] moved down to position h, in strides of gap, past
      elements that do not rank below it. */
  ghost predicate InsertingDown(s: seq<int>, t: seq<int>, w: seq<int>, lo: int, hi: int, i: int, h: int, gap: int) {
    && |s| == |t| && 0 <= lo <= h <= i <= hi < |s|
    && Keyed(s, w, 0) && Rearranged(s, t, lo, hi) && gap >= 1 && t[h] == s[i]
    && (forall k :: 0 <= k < h ==> t[k] == s[k])
    && (gap == 1 ==> forall k :: h < k <= i ==> t[k] == s[k - 1] && w[s[i]] <= w[s[k - 1]])
    && (gap == 1 ==> forall k :: i < k < |s| ==> t[k] == s[k])
  }

  lemma DownStart(s: seq<int>, w: seq<int>, lo: int, hi: int, i: int, gap: int)
    requires Keyed(s, w, 0) && 0 <= lo <= i <= hi < |s| && gap >= 1
    ensures InsertingDown(s, s, w, lo, hi, i, i, gap)
  {
  }

  lemma DownStep(s: seq<int>, t: seq<int>, w: seq<int>, lo: int, hi: int, i: int, h: int, gap: int)
    requires InsertingDown(s, t, w, lo, hi, i, h, gap) && lo <= h - gap
    requires Keyed(t, w, 0) && w[s[i]] <= w[t[h - gap]]
    ensures Keyed(t[h := t[h - gap]][h - gap := t[h]], w, 0)
    ensures InsertingDown(s, t[h := t[h - gap]][h - gap := t[h]], w, lo, hi, i, h - gap, gap)
  {
    hide Rearranged;
    var u := t[h := t[h - gap]][h - gap := t[h]];
    SwapRearranges(t, h, h - gap, lo, hi);
    RearrangedTwice(s, t, u, lo, hi);
    assert t[h - gap] == s[h - gap];
    if gap == 1 {
      forall k | h - 1 < k <= i ensures u[k] == s[k - 1] && w[s[i]] <= w[s[k - 1]] {
        assert k > h ==> t[k] == s[k - 1];
      }
    }
  }

  lemma DownDone(s: seq<int>, t: seq<int>, w: seq<int>, lo: int, hi: int, i: int, h: int, gap: int)
    requires InsertingDown(s, t, w, lo, hi, i, h, gap)
    requires Keyed(t, w, 0) && (lo <= h - gap ==> w[t[h - gap]] <= w[s[i]])
    requires gap == 1 ==> Ascending(s, w, lo, i - 1)
    ensures Rearranged(s, t, lo, hi)
    ensures gap == 1 ==> Ascending(t, w, lo, i)
  {
  }

  /** mainGtU as it is called: on two pointers whose rotations agree on d characters. */
  method RanksAbove(p: int, v: int, d: nat, block: array<int>, quadrant: array<int>, nblock: nat, budget: int,
                    ghost b: seq<int>)
    returns (gt: bool, budget': int)
    requires |b| == nblock && nblock > OVERSHOOT && Mirrored(b, block[..]) && QuadrantOk(b, quadrant[..])
    requires 0 <= p < nblock && 0 <= v < nblock && d <= 15 && Cmp(b, p, v, d) == 0
    ensures gt ==> Ranks(b)[v] <= Ranks(b)[p]
    ensures !gt ==> Ranks(b)[p] <= Ranks(b)[v]
  {
    hide Mirrored, QuadrantOk, Cmp, Verdict, Ranks;
    gt, budget' := GtU(p + d, v + d, block, quadrant, nblock, budget, b);
    VerdictLifts(b, p, v, d, gt);
  }

  /** The ghost filled array t of an insertion into ptr, whose hole is at row j. */
  ghost predicate Hole(f: seq<int>, t: seq<int>, j: int) {
    |f| == |t| && forall k :: 0 <= k < |f| && k != j ==> f[k] == t[k]
  }

  lemma DownShares(b: seq<int>, s: seq<int>, t: seq<int>, w: seq<int>, lo: int, hi: int, i: int, h: int, gap: int,
                   d: nat)
    requires InsertingDown(s, t, w, lo, hi, i, h, gap) && SharePrefix(b, s, lo, hi, d) && lo <= h - gap
    ensures |t| == |s| && 0 <= h - gap < h < |t| && t[h] == s[i] && t[h - gap] == s[h - gap]
    ensures 0 <= t[h - gap] < |b| && 0 <= t[h] < |b| && Cmp(b, t[h - gap], t[h], d) == 0
  {
    SharePrefixKept(b, s, t, lo, hi, d, lo, hi);
  }

  /** One insertion of the shell sort: ptr[i] moves down in strides of h. */
  method InsertDown(ptr: array<int>, block: array<int>, quadrant: array<int>, nblock: nat, lo: int, hi: int, i: int,
                    d: nat, h: int, budget: int, ghost b: seq<int>) returns (budget': int)
    requires ptr != block && ptr != quadrant && d <= 15
    requires |b| == nblock && nblock > OVERSHOOT && Mirrored(b, block[..]) && QuadrantOk(b, quadrant[..])
    requires 0 <= lo && h >= 1 && lo + h <= i <= hi < ptr.Length && SharePrefix(b, ptr[..], lo, hi, d)
    requires Keyed(ptr[..], Ranks(b), 0) && (h == 1 ==> Ascending(ptr[..], Ranks(b), lo, i - 1))
    modifies ptr
    ensures Rearranged(old(ptr[..]), ptr[..], lo, hi) && Keyed(ptr[..], Ranks(b), 0)
    ensures h == 1 ==> Ascending(ptr[..], Ranks(b), lo, i)
  {
    hide InsertingDown, Mirrored, QuadrantOk, Cmp, SharePrefix, Rearranged, Ascending, Ranks;
    ghost var s, w := ptr[..], Ranks(b);
    var v := ptr[i];
    var j := i;
    ghost var t := s;
    DownStart(s, w, lo, hi, i, h);
    DownShares(b, s, t, w, lo, hi, i, j, h, d);
    var more;
    more, budget' := RanksAbove(ptr[j - h], v, d, block, quadrant, nblock, budget, b);
    while more
      invariant lo <= j <= i && (more ==> lo + h <= j)
      invariant Hole(ptr[..], t, j) && |t| == |s| && t[j] == v == s[i]
      invariant Keyed(t, w, 0) && InsertingDown(s, t, w, lo, hi, i, j, h)
      invariant more ==> w[v] <= w[t[j - h]]
      invariant !more && lo + h <= j ==> w[t[j - h]] <= w[v]
      decreases j
    {
      DownStep(s, t, w, lo, hi, i, j, h);
      ghost var f := ptr[..];
      ptr[j] := ptr[j - h];
      assert ptr[..] == f[j := f[j - h]];
      t := t[j := t[j - h]][j - h := t[j]];
      j := j - h;
      if j <= lo + h - 1 {
        more := false;
      } else {
        DownShares(b, s, t, w, lo, hi, i, j, h, d);
        more, budget' := RanksAbove(ptr[j - h], v, d, block, quadrant, nblock, budget', b);
      }
    }
    ghost var f := ptr[..];
    ptr[j] := v;
    assert ptr[..] == f[j := v] == t;
    DownDone(s, t, w, lo, hi, i, j, h);
  }

  const INCS: seq<int> := [1, 4, 13, 40, 121, 364, 1093, 3280, 9841, 29524, 88573, 265720, 797161, 2391484]

  /** What every step of the shell sort keeps. */
  ghost predicate Shelling(b: seq<int>, s: seq<int>, f: seq<int>, lo: int, hi: int, d: nat) {
    Rearranged(s, f, lo, hi) && Keyed(f, Ranks(b), 0) && SharePrefix(b, f, lo, hi, d)
  }

  lemma ShellStart(b: seq<int>, f: seq<int>, lo: int, hi: int, d: nat)
    requires SharePrefix(b, f, lo, hi, d)
    ensures Shelling(b, f, f, lo, hi, d)
  {
    RearrangedNot(f, lo, hi);
  }

  lemma ShellStep(b: seq<int>, s: seq<int>, f: seq<int>, g: seq<int>, lo: int, hi: int, d: nat)
    requires Shelling(b, s, f, lo, hi, d) && Rearranged(f, g, lo, hi) && Keyed(g, Ranks(b), 0)
    ensures Shelling(b, s, g, lo, hi, d)
  {
    hide SharePrefix;
    SharePrefixKept(b, f, g, lo, hi, d, lo, hi);
    RearrangedTwice(s, f, g, lo, hi);
  }

  lemma ShellParts(b: seq<int>, s: seq<int>, f: seq<int>, lo: int, hi: int, d: nat)
    requires Shelling(b, s, f, lo, hi, d)
    ensures Rearranged(s, f, lo, hi) && Keyed(f, Ranks(b), 0) && SharePrefix(b, f, lo, hi, d)
  {
  }

  /** One of the three copies of the insertion in the loop body. */
  method ShellInsert(ptr: array<int>, block: array<int>, quadrant: array<int>, nblock: nat, lo: int, hi: int, i: int,
                     d: nat, h: int, budget: int, ghost b: seq<int>, ghost s: seq<int>) returns (budget': int)
    requires ptr != block && ptr != quadrant && d <= 15
    requires |b| == nblock && nblock > OVERSHOOT && Mirrored(b, block[..]) && QuadrantOk(b, quadrant[..])
    requires 0 <= lo && h >= 1 && lo + h <= i <= hi < ptr.Length && Shelling(b, s, ptr[..], lo, hi, d)
    requires h == 1 ==> Ascending(ptr[..], Ranks(b), lo, i - 1)
    modifies ptr
    ensures Shelling(b, s, ptr[..], lo, hi, d) && Keyed(ptr[..], Ranks(b), 0)
    ensures h == 1 ==> Ascending(ptr[..], Ranks(b), lo, i)
  {
    hide Shelling, Mirrored, QuadrantOk, SharePrefix, Rearranged, Ascending, Keyed;
    ghost var f := ptr[..];
    ShellParts(b, s, f, lo, hi, d);
    budget' := InsertDown(ptr, block, quadrant, nblock, lo, hi, i, d, h, budget, b);
    ShellStep(b, s, f, ptr[..], lo, hi, d);
  }

  lemma NothingToOrder(b: seq<int>, f: seq<int>, lo: int, hi: int)
    requires Keyed(f, Ranks(b), 0) && hi <= lo && hi < |f|
    ensures Ascending(f, Ranks(b), lo, hi)
  {
  }

  /** mainSimpleSort: shell sort with Knuth's increments, abandoned when the budget runs out. */
  method Sort(ptr: array<int>, block: array<int>, quadrant: array<int>, nblock: nat, lo: int, hi: int, d: nat,
              budget: int, ghost b: seq<int>) returns (budget': int)
    requires ptr != block && ptr != quadrant && d <= 15
    requires |b| == nblock && nblock > OVERSHOOT && Mirrored(b, block[..]) && QuadrantOk(b, quadrant[..])
    requires hi < ptr.Length <= 2391484 && SharePrefix(b, ptr[..], lo, hi, d) && 0 <= lo
    modifies ptr
    ensures Shelling(b, old(ptr[..]), ptr[..], lo, hi, d)
    ensures budget' >= 0 ==> Ascending(ptr[..], Ranks(b), lo, hi)
  {
    hide Shelling, Mirrored, QuadrantOk, SharePrefix, Rearranged, Ascending, Keyed;
    ghost var s := ptr[..];
    ShellStart(b, s, lo, hi, d);
    ShellParts(b, s, s, lo, hi, d);
    budget' := budget;
    var bigN := hi - lo + 1;
    if bigN < 2 {
      NothingToOrder(b, s, lo, hi);
      return;
    }
    var hp := 0;
    while INCS[hp] < bigN
      invariant 0 <= hp < 14 && (hp > 0 ==> INCS[hp - 1] < bigN)
      decreases 14 - hp
    {
      hp := hp + 1;
    }
    hp := hp - 1;
    while hp >= 0
      invariant -1 <= hp < 14 && (hp >= 0 ==> INCS[hp] < bigN)
      invariant Shelling(b, s, ptr[..], lo, hi, d) && Keyed(ptr[..], Ranks(b), 0)
      invariant hp == -1 ==> Ascending(ptr[..], Ranks(b), lo, hi)
    {
      var h := INCS[hp];
      var i := lo + h;
      ShellParts(b, s, ptr[..], lo, hi, d);
      if h == 1 { NothingToOrder(b, ptr[..], lo, lo); }
      while true
        invariant lo + h <= i <= hi + 1
        invariant Shelling(b, s, ptr[..], lo, hi, d) && Keyed(ptr[..], Ranks(b), 0)
        invariant h == 1 ==> Ascending(ptr[..], Ranks(b), lo, i - 1)
        decreases hi - i
      {
        if i > hi { break; }
        budget' := ShellInsert(ptr, block, quadrant, nblock, lo, hi, i, d, h, budget', b, s);
        i := i + 1;
        if i > hi { break; }
        budget' := ShellInsert(ptr, block, quadrant, nblock, lo, hi, i, d, h, budget', b, s);
        i := i + 1;
        if i > hi { break; }
        budget' := ShellInsert(ptr, block, quadrant, nblock, lo, hi, i, d, h, budget', b, s);
        i := i + 1;
        if budget' < 0 { return; }
      }
      hp := hp - 1;
    }
  }
}
