/** The radix sort on two characters that opens the main block sorter, and the order in which it
    then takes the big buckets. */
module MainRadix {
  import opened Counting
  import opened InverseBwt
  import opened MainCompare
  import opened MainSimpleSort
  import opened Permute
  import opened Rotation
  import opened Synthesis

  const KEYS := 65536

  /* ---- Counting ---- */

  /** ft counts the pairs at positions i and above. */
  ghost predicate CountedFrom(p: seq<int>, ft: seq<int>, i: nat) {
    && i <= |p| && |ft| == KEYS + 1 && ft[KEYS] == 0
    && forall k :: 0 <= k < KEYS ==> ft[k] == CountEq(p, |p|, k) - CountEq(p, i, k)
  }

  lemma CountDown(p: seq<int>, ft: seq<int>, i: nat)
    requires CountedFrom(p, ft, i + 1) && i + 1 <= |p| && Within(p, KEYS)
    ensures 0 <= p[i] < KEYS && CountedFrom(p, ft[p[i] := ft[p[i]] + 1], i)
  {
  }

  /** Counts up to entry i summed up. */
  ghost predicate SummedTo(p: seq<int>, ft: seq<int>, i: nat) {
    && 1 <= i <= KEYS + 1 == |ft|
    && (forall k :: 0 <= k < i && k < KEYS ==> ft[k] == CountLess(p, |p|, k + 1))
    && (forall k :: i <= k < KEYS ==> ft[k] == CountEq(p, |p|, k))
    && ft[KEYS] == if i == KEYS + 1 then |p| else 0
  }

  lemma SumStart(p: seq<int>, ft: seq<int>)
    requires CountedFrom(p, ft, 0) && Within(p, KEYS)
    ensures SummedTo(p, ft, 1)
  {
    CountAll(p, KEYS, |p|, 0);
    CountSplit(p, |p|, 0);
  }

  lemma SumStep(p: seq<int>, ft: seq<int>, i: nat)
    requires SummedTo(p, ft, i) && i <= KEYS && Within(p, KEYS)
    ensures SummedTo(p, ft[i := ft[i] + ft[i - 1]], i + 1)
  {
    if i < KEYS { CountSplit(p, |p|, i); } else { CountAll(p, KEYS, |p|, KEYS); }
  }

  /** Positions i and above have been put into their slots; ft holds the lowest slot used. */
  ghost predicate SlottedFrom(p: seq<int>, f: seq<int>, ft: seq<int>, i: nat) {
    && i <= |p| == |f| && |ft| == KEYS + 1 && ft[KEYS] == |p|
    && (forall k :: 0 <= k < KEYS ==> ft[k] == CountLess(p, |p|, k) + CountEq(p, i, k))
    && forall x :: i <= x < |p| ==> 0 <= Rank(p, x) < |p| && f[Rank(p, x)] == x
  }

  lemma SlotStart(p: seq<int>, f: seq<int>, ft: seq<int>)
    requires SummedTo(p, ft, KEYS + 1) && |f| == |p|
    ensures SlottedFrom(p, f, ft, |p|)
  {
    forall k | 0 <= k < KEYS ensures ft[k] == CountLess(p, |p|, k) + CountEq(p, |p|, k) {
      CountSplit(p, |p|, k);
    }
  }

  lemma SlotDown(p: seq<int>, f: seq<int>, ft: seq<int>, i: nat)
    requires SlottedFrom(p, f, ft, i + 1) && i + 1 <= |p| && Within(p, KEYS)
    ensures 0 <= p[i] < KEYS && 0 <= ft[p[i]] - 1 < |f|
    ensures SlottedFrom(p, f[ft[p[i]] - 1 := i], ft[p[i] := ft[p[i]] - 1], i)
  {
    assert ft[p[i]] - 1 == Rank(p, i);
    RankBounds(p, i);
    hide Rank;
    forall x | i < x < |p| ensures Rank(p, x) != Rank(p, i) { RankInjective(p, x, i); }
  }

  /** Every row is the slot of the position it holds. */
  lemma SlotOwner(p: seq<int>, f: seq<int>, ft: seq<int>, r: nat)
    requires SlottedFrom(p, f, ft, 0) && r < |p|
    ensures |f| == |p| && 0 <= f[r] < |p| && Rank(p, f[r]) == r
    ensures CountLess(p, |p|, p[f[r]]) <= r < CountLess(p, |p|, p[f[r]] + 1)
  {
    hide Rank, CountLess, CountEq;
    var n := |p|;
    var slots := seq(n, x requires 0 <= x < n => Rank(p, x));
    forall x, y | 0 <= x < y < n ensures slots[x] != slots[y] { RankInjective(p, x, y); }
    forall x | 0 <= x < n ensures 0 <= slots[x] < n { RankBounds(p, x); }
    PermCovers(slots, n, r);
    var x :| 0 <= x < n && slots[x] == r;
    RankBounds(p, x);
  }

  lemma SlotsDone(p: seq<int>, f: seq<int>, ft: seq<int>)
    requires SlottedFrom(p, f, ft, 0) && Within(p, KEYS)
    ensures IsPerm(f, |p|) && InBuckets(p, f)
    ensures forall k :: 0 <= k <= KEYS ==> ft[k] == CountLess(p, |p|, k)
  {
    CountAll(p, KEYS, |p|, KEYS);
    assert |f| == |p|;
    assert forall k :: 0 <= k <= KEYS ==> ft[k] == CountLess(p, |p|, k);
    hide Rank, CountLess, SlottedFrom;
    forall r | 0 <= r < |p|
      ensures 0 <= f[r] < |p| && Rank(p, f[r]) == r
      ensures CountLess(p, |p|, p[f[r]]) <= r < CountLess(p, |p|, p[f[r]] + 1)
    {
      SlotOwner(p, f, ft, r);
    }
  }

  lemma PairsWithin(b: seq<int>)
    requires Within(b, ALPHABET)
    ensures Within(Pairs(b), KEYS)
  {
    forall x | 0 <= x < |b| ensures 0 <= Pairs(b)[x] < KEYS {
      assert 0 <= b[x] < ALPHABET && 0 <= b[Next(x, |b|)] < ALPHABET;
    }
  }

  /** The key of a position from the key of the next: (j >> 8) | block[i] << 8. */
  lemma PairRolls(b: seq<int>, j: int, i: nat)
    requires Within(b, ALPHABET) && i < |b|
    requires if i + 1 == |b| then j == ALPHABET * b[0] else j == Pair(b, i + 1)
    ensures 0 <= b[i] < ALPHABET && j / ALPHABET + ALPHABET * b[i] == Pair(b, i) == Pairs(b)[i]
  {
  }

  /** The counting loop, which also clears the quadrants. */
  method CountPairs(block: array<int>, quadrant: array<int>, ftab: array<int>, nblock: nat, ghost b: seq<int>)
    requires block != quadrant && block != ftab && quadrant != ftab && ftab.Length == KEYS + 1
    requires 0 < nblock == |b| <= block.Length && nblock <= quadrant.Length && block[..nblock] == b
    requires Within(b, ALPHABET)
    modifies quadrant, ftab
    ensures CountedFrom(Pairs(b), ftab[..], 0)
    ensures forall x :: 0 <= x < nblock ==> quadrant[x] == 0
  {
    hide CountedFrom, Pair, Pairs;
    var i: int := KEYS;
    while i >= 0
      invariant -1 <= i <= KEYS
      invariant forall k :: i < k <= KEYS ==> ftab[k] == 0
    {
      ftab[i] := 0;
      i := i - 1;
    }
    PairsWithin(b);
    CountNone(Pairs(b), ftab[..]);
    var j := ALPHABET * block[0];
    i := nblock - 1;
    while i >= 0
      invariant -1 <= i < nblock
      invariant if i + 1 == nblock then j == ALPHABET * b[0] else j == Pair(b, i + 1)
      invariant CountedFrom(Pairs(b), ftab[..], i + 1)
      invariant forall x :: i < x < nblock ==> quadrant[x] == 0
    {
      quadrant[i] := 0;
      assert block[i] == b[i];
      PairRolls(b, j, i);
      CountDown(Pairs(b), ftab[..], i);
      ghost var ft := ftab[..];
      j := j / ALPHABET + ALPHABET * block[i];
      ftab[j] := ftab[j] + 1;
      assert ftab[..] == ft[j := ft[j] + 1];
      i := i - 1;
    }
  }

  lemma CountNone(p: seq<int>, ft: seq<int>)
    requires |ft| == KEYS + 1 && forall k :: 0 <= k <= KEYS ==> ft[k] == 0
    ensures CountedFrom(p, ft, |p|)
  {
  }

  /** The beginning of the block, and of the quadrants, is repeated behind its end. */
  method CopyOvershoot(block: array<int>, quadrant: array<int>, nblock: nat, ghost b: seq<int>)
    requires block != quadrant && |b| == nblock > OVERSHOOT
    requires nblock + OVERSHOOT <= block.Length && nblock + OVERSHOOT <= quadrant.Length && block[..nblock] == b
    requires forall x :: 0 <= x < nblock ==> quadrant[x] == 0
    modifies block, quadrant
    ensures Mirrored(b, block[..]) && QuadrantOk(b, quadrant[..])
  {
    hide Mirrored, QuadrantOk, Within;
    for i := 0 to OVERSHOOT
      invariant forall x :: 0 <= x < nblock ==> block[x] == b[x]
      invariant forall x :: 0 <= x < nblock ==> quadrant[x] == 0
      invariant forall k :: nblock <= k < nblock + i ==> block[k] == b[k - nblock]
      invariant forall k :: nblock <= k < nblock + i ==> quadrant[k] == 0
    {
      block[nblock + i] := block[i];
      quadrant[nblock + i] := 0;
    }
    Copied(b, block[..], quadrant[..]);
  }

  lemma Copied(b: seq<int>, block: seq<int>, q: seq<int>)
    requires |b| > OVERSHOOT && |b| + OVERSHOOT <= |block| && |b| + OVERSHOOT <= |q|
    requires forall x :: 0 <= x < |b| ==> block[x] == b[x]
    requires forall x :: 0 <= x < |b| + OVERSHOOT ==> q[x] == 0
    requires forall k :: |b| <= k < |b| + OVERSHOOT ==> block[k] == b[k - |b|]
    ensures Mirrored(b, block) && QuadrantOk(b, q)
  {
    assert block[..|b|] == b;
  }

  /** The distribution: every position goes into the small bucket of its first two characters. */
  method Distribute(ptr: array<int>, block: array<int>, ftab: array<int>, nblock: nat, ghost b: seq<int>)
    requires ptr != block && ptr != ftab && block != ftab && ftab.Length == KEYS + 1
    requires 0 < nblock == |b| == ptr.Length <= block.Length && block[..nblock] == b && Within(b, ALPHABET)
    requires nblock < SETMASK && CountedFrom(Pairs(b), ftab[..], 0)
    modifies ptr, ftab
    ensures Bucketed(b, ptr[..]) && Table(b, ftab[..])
    ensures forall k :: 0 <= k <= KEYS ==> !Masked(ftab[k])
  {
    hide CountedFrom, SummedTo, SlottedFrom, Pair, Pairs, CountLess, Masked, Bucketed, Table;
    ghost var p := Pairs(b);
    PairsWithin(b);
    SumStart(p, ftab[..]);
    for i := 1 to KEYS + 1
      invariant SummedTo(p, ftab[..], i)
    {
      SumStep(p, ftab[..], i);
      ghost var ft := ftab[..];
      ftab[i] := ftab[i] + ftab[i - 1];
      assert ftab[..] == ft[i := ft[i] + ft[i - 1]];
    }
    SlotStart(p, ptr[..], ftab[..]);
    var s := ALPHABET * block[0];
    var i: int := nblock - 1;
    while i >= 0
      invariant -1 <= i < nblock
      invariant if i + 1 == nblock then s == ALPHABET * b[0] else s == Pair(b, i + 1)
      invariant SlottedFrom(p, ptr[..], ftab[..], i + 1)
    {
      assert block[i] == b[i];
      PairRolls(b, s, i);
      SlotDown(p, ptr[..], ftab[..], i);
      ghost var f, ft := ptr[..], ftab[..];
      s := s / ALPHABET + ALPHABET * block[i];
      var j := ftab[s] - 1;
      ftab[s] := j;
      ptr[j] := i;
      assert ftab[..] == ft[s := j] && ptr[..] == f[j := i];
      i := i - 1;
    }
    Distributed(b, ptr[..], ftab[..]);
  }

  lemma Distributed(b: seq<int>, f: seq<int>, ft: seq<int>)
    requires Within(b, ALPHABET) && |b| < SETMASK && SlottedFrom(Pairs(b), f, ft, 0)
    ensures Bucketed(b, f) && Table(b, ft) && forall k :: 0 <= k <= KEYS ==> !Masked(ft[k])
  {
    PairsWithin(b);
    SlotsDone(Pairs(b), f, ft);
    hide CountLess, SlottedFrom, Pairs, Pair;
  }

  /* ---- The running order ---- */

  /** Sizes of the big buckets. */
  ghost function BigSizes(b: seq<int>): (w: seq<int>)
    ensures |w| == ALPHABET && forall c :: 0 <= c < ALPHABET ==> w[c] == Big(b, c + 1) - Big(b, c)
  {
    seq(ALPHABET, c requires 0 <= c < ALPHABET => Big(b, c + 1) - Big(b, c))
  }

  /** BIGFREQ */
  method BigFreq(ftab: array<int>, c: int, ghost b: seq<int>) returns (r: int)
    requires Table(b, ftab[..]) && 0 <= c < ALPHABET
    requires forall k :: 0 <= k <= KEYS && k < ftab.Length ==> !Masked(ftab[k])
    ensures r == BigSizes(b)[c]
  {
    hide Lo, Masked;
    TableSize(b, ftab[..]);
    TableAt(b, ftab[..], c, 0);
    r := ftab[ALPHABET * (c + 1)] - ftab[ALPHABET * c];
  }

  /** A permutation of the characters on its way to ascending bucket sizes. */
  ghost predicate Ordering(w: seq<int>, f: seq<int>) {
    IsPerm(f, ALPHABET) && Keyed(f, w, 0)
  }

  /** One insertion of the shell sort on runningOrder. */
  method OrderInsert(runningOrder: array<int>, ftab: array<int>, h: int, i: int, ghost b: seq<int>)
    requires runningOrder != ftab && runningOrder.Length == ALPHABET && 1 <= h <= i < ALPHABET
    requires Table(b, ftab[..]) && forall k :: 0 <= k <= KEYS && k < ftab.Length ==> !Masked(ftab[k])
    requires Ordering(BigSizes(b), runningOrder[..]) && Keyed(runningOrder[..], BigSizes(b), 0)
    requires h == 1 ==> Ascending(runningOrder[..], BigSizes(b), 0, i - 1)
    modifies runningOrder
    ensures Ordering(BigSizes(b), runningOrder[..]) && Keyed(runningOrder[..], BigSizes(b), 0)
    ensures h == 1 ==> Ascending(runningOrder[..], BigSizes(b), 0, i)
  {
    hide InsertingDown, Table, Masked, IsPerm, Rearranged, Ascending, BigSizes, Ordering, Keyed;
    ghost var s, w := runningOrder[..], BigSizes(b);
    var vv := runningOrder[i];
    var j := i;
    ghost var t := s;
    OrderParts(w, s);
    DownStart(s, w, 0, ALPHABET - 1, i, h);
    while true
      invariant 0 <= j <= i && j >= h && vv == s[i] && |t| == ALPHABET && Keyed(t, w, 0)
      invariant InsertingDown(s, t, w, 0, ALPHABET - 1, i, j, h) && Hole(runningOrder[..], t, j)
      decreases j
    {
      KeyedAt(s, w, i);
      KeyedAt(t, w, j - h);
      var fj := BigFreq(ftab, runningOrder[j - h], b);
      var fv := BigFreq(ftab, vv, b);
      if !(fj > fv) { break; }
      DownStep(s, t, w, 0, ALPHABET - 1, i, j, h);
      ghost var u := t[j := t[j - h]][j - h := t[j]];
      runningOrder[j] := runningOrder[j - h];
      t := u;
      j := j - h;
      if j <= h - 1 { break; }
    }
    ghost var f := runningOrder[..];
    HoleValue(s, t, w, i, j, h);
    runningOrder[j] := vv;
    assert runningOrder[..] == f[j := vv] == t;
    DownDone(s, t, w, 0, ALPHABET - 1, i, j, h);
    RearrangedPerm(s, t, w);
  }

  lemma KeyedAt(s: seq<int>, w: seq<int>, i: int)
    requires Keyed(s, w, 0) && 0 <= i < |s|
    ensures 0 <= s[i] < |w|
  {
  }

  lemma HoleValue(s: seq<int>, t: seq<int>, w: seq<int>, i: int, j: int, h: int)
    requires InsertingDown(s, t, w, 0, ALPHABET - 1, i, j, h)
    ensures |t| == |s| && 0 <= j < |t| && 0 <= i < |s| && t[j] == s[i]
  {
  }

  lemma RearrangedPerm(s: seq<int>, t: seq<int>, w: seq<int>)
    requires Ordering(w, s) && Rearranged(s, t, 0, ALPHABET - 1) && Keyed(t, w, 0)
    ensures Ordering(w, t)
  {
    PermKept(s, t, ALPHABET);
  }

  /** Sorts the big buckets by size, smallest first. */
  method RunningOrder(ftab: array<int>, ghost b: seq<int>) returns (runningOrder: array<int>)
    requires Table(b, ftab[..]) && forall k :: 0 <= k <= KEYS && k < ftab.Length ==> !Masked(ftab[k])
    ensures fresh(runningOrder) && runningOrder.Length == ALPHABET && IsPerm(runningOrder[..], ALPHABET)
    ensures Keyed(runningOrder[..], BigSizes(b), 0) && Ascending(runningOrder[..], BigSizes(b), 0, ALPHABET - 1)
  {
    hide Table, Masked, IsPerm, Ascending, Ordering, Keyed, BigSizes;
    runningOrder := new int[ALPHABET];
    for i := 0 to ALPHABET
      invariant forall k :: 0 <= k < i ==> runningOrder[k] == k
    {
      runningOrder[i] := i;
    }
    OrderStart(BigSizes(b), runningOrder[..]);
    var h := 1;
    h := 3 * h + 1;
    while h <= 256
      invariant h in {4, 13, 40, 121, 364}
      decreases 364 - h
    {
      h := 3 * h + 1;
    }
    while h != 1
      invariant h in {1, 4, 13, 40, 121, 364} && Ordering(BigSizes(b), runningOrder[..])
      invariant Keyed(runningOrder[..], BigSizes(b), 0)
      invariant h == 1 ==> Ascending(runningOrder[..], BigSizes(b), 0, ALPHABET - 1)
      decreases h
    {
      h := h / 3;
      OrderOne(BigSizes(b), runningOrder[..]);
      for i := h to 256
        invariant Ordering(BigSizes(b), runningOrder[..]) && Keyed(runningOrder[..], BigSizes(b), 0)
        invariant h == 1 ==> Ascending(runningOrder[..], BigSizes(b), 0, i - 1)
      {
        OrderInsert(runningOrder, ftab, h, i, b);
        OrderParts(BigSizes(b), runningOrder[..]);
      }
    }
    OrderParts(BigSizes(b), runningOrder[..]);
  }

  lemma OrderStart(w: seq<int>, f: seq<int>)
    requires |f| == |w| == ALPHABET && forall k :: 0 <= k < ALPHABET ==> f[k] == k
    ensures Ordering(w, f) && Keyed(f, w, 0)
  {
  }

  lemma OrderOne(w: seq<int>, f: seq<int>)
    requires Keyed(f, w, 0) && |f| == ALPHABET
    ensures Ascending(f, w, 0, 0)
  {
  }

  lemma OrderParts(w: seq<int>, f: seq<int>)
    requires Ordering(w, f)
    ensures IsPerm(f, ALPHABET) && Keyed(f, w, 0) && |f| == ALPHABET
  {
  }
}
