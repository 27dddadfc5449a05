/** The main block sorter: big buckets one after another, each completed by quicksort, used to
    synthesise other small buckets, and recorded in the quadrants. */
module MainSort {
  import opened Counting
  import opened MainCompare
  import opened MainRadix
  import opened MainSimpleSort
  import MainQSort3
  import opened Permute
  import opened Powers
  import opened Rotation
  import opened RotationRank
  import opened Synthesis

  /** Small bucket k is in order. */
  ghost predicate SmallSorted(b: seq<int>, f: seq<int>, k: int) {
    SortedRows(b, f, Lo(b, k), Lo(b, k + 1))
  }

  /** The small buckets known to be in order: those of a big bucket done, as first or as second
      character, and, while Step 1 is at work on ss, those of [ss] before j except [ss, ss]. */
  predicate Finished(done: seq<bool>, ss: int, j: int, k: int)
    requires |done| == ALPHABET && 0 <= k < KEYS
  {
    done[k / ALPHABET] || done[k % ALPHABET] || (k / ALPHABET == ss && k % ALPHABET != ss && k % ALPHABET < j)
  }

  /** The invariant of the main loop: all positions are in their small buckets, SETMASK marks exactly
      the finished ones, and every marked one is in order. */
  ghost predicate Progress(b: seq<int>, f: seq<int>, ft: seq<int>, done: seq<bool>, ss: int, j: int) {
    && |b| > 0 && Within(b, ALPHABET) && Bucketed(b, f) && Table(b, ft) && |done| == ALPHABET && |ft| == KEYS + 1
    && (forall k :: 0 <= k < KEYS ==> (Masked(ft[k]) <==> Finished(done, ss, j, k)))
    && (forall k :: 0 <= k < KEYS && Masked(ft[k]) ==> SmallSorted(b, f, k))
  }

  lemma BucketedPointers(b: seq<int>, f: seq<int>)
    requires Bucketed(b, f)
    ensures Pointers(b, f) && |f| == |b| && IsPerm(f, |b|)
  {
  }

  /* ---- From small buckets to stretches of rows ---- */

  lemma TwoRows(b: seq<int>, f: seq<int>, r: int, q: int)
    requires Within(b, ALPHABET) && Bucketed(b, f) && 0 <= r < q < |b|
    requires SmallSorted(b, f, Pair(b, f[r]))
    ensures 0 <= f[r] < |b| && 0 <= f[q] < |b| && Cmp(b, f[r], f[q], |b|) <= 0
  {
    hide Lo;
    RowBucket(b, f, r, Pair(b, f[r]));
    RowBucket(b, f, q, Pair(b, f[q]));
    RowBucket(b, f, q, Pair(b, f[r]));
    PairsAscend(b, f, r, q);
    var x, y := f[r], f[q];
    if Pair(b, x) == Pair(b, y) {
      assert SortedRows(b, f, Lo(b, Pair(b, x)), Lo(b, Pair(b, x) + 1));
    } else if b[x] < b[y] {
    } else {
      assert b[x] == b[y] && b[Next(x, |b|)] < b[Next(y, |b|)];
      CmpTails(b, x, y);
    }
  }

  lemma PairsAscend(b: seq<int>, f: seq<int>, r: int, q: int)
    requires Bucketed(b, f) && 0 <= r < q < |b|
    ensures 0 <= f[r] < |b| && 0 <= f[q] < |b| && Pair(b, f[r]) <= Pair(b, f[q])
  {
    BucketsAscend(Pairs(b), f, r, q);
  }

  /** Rows whose small buckets are in order are in order. */
  lemma RowsBySmall(b: seq<int>, f: seq<int>, lo: int, hi: int)
    requires Within(b, ALPHABET) && Bucketed(b, f) && 0 <= lo && hi <= |b|
    requires forall r :: lo <= r < hi ==> 0 <= f[r] < |b| && SmallSorted(b, f, Pair(b, f[r]))
    ensures SortedRows(b, f, lo, hi)
  {
    hide SmallSorted, Pair, InBuckets;
    forall r, q | lo <= r < q < hi ensures Cmp(b, f[r], f[q], |b|) <= 0 {
      TwoRows(b, f, r, q);
    }
  }

  /** A row with a finished key belongs to a small bucket in order. */
  lemma FinishedRow(b: seq<int>, f: seq<int>, ft: seq<int>, done: seq<bool>, ss: int, j: int, r: int)
    requires Progress(b, f, ft, done, ss, j) && 0 <= r < |b|
    ensures 0 <= f[r] < |b| && 0 <= Pair(b, f[r]) < KEYS
    ensures Finished(done, ss, j, Pair(b, f[r])) ==> SmallSorted(b, f, Pair(b, f[r]))
  {
    hide Lo, SmallSorted, Finished;
    var x := f[r];
    assert 0 <= b[x] < ALPHABET && 0 <= b[Next(x, |b|)] < ALPHABET;
  }

  /** Step 1 leaves the scene Step 2 needs. */
  lemma SceneSet(b: seq<int>, f: seq<int>, ft: seq<int>, done: seq<bool>, ss: int)
    requires Progress(b, f, ft, done, ss, ALPHABET) && 0 <= ss < ALPHABET && !done[ss]
    ensures Scene(b, f, ss, done)
  {
    BucketedPointers(b, f);
    hide Lo, SmallSorted, SortedRows, Masked, Table, Bucketed, InBuckets, IsPerm;
    Layout(b, ss, ss);
    forall r | Big(b, ss) <= r < Start(b, ss, ss) || Stop(b, ss, ss) <= r < Big(b, ss + 1)
      ensures 0 <= f[r] < |b| && SmallSorted(b, f, Pair(b, f[r]))
    {
      FinishedRow(b, f, ft, done, ss, ALPHABET, r);
      RowInSmall(b, f, ss, r, ss);
    }
    RowsBySmall(b, f, Big(b, ss), Start(b, ss, ss));
    RowsBySmall(b, f, Stop(b, ss, ss), Big(b, ss + 1));
  }

  /** A big bucket done is in order throughout. */
  lemma BigSorted(b: seq<int>, f: seq<int>, ft: seq<int>, done: seq<bool>, ss: int, j: int)
    requires Progress(b, f, ft, done, ss, j) && 0 <= ss < ALPHABET && done[ss]
    ensures SortedRows(b, f, Big(b, ss), Big(b, ss + 1))
  {
    BucketedPointers(b, f);
    hide Lo, SmallSorted, SortedRows, Masked, Table, Bucketed, InBuckets, IsPerm;
    Layout(b, ss, ss);
    forall r | Big(b, ss) <= r < Big(b, ss + 1) ensures 0 <= f[r] < |b| && SmallSorted(b, f, Pair(b, f[r])) {
      FinishedRow(b, f, ft, done, ss, j, r);
      RowInSmall(b, f, ss, r, ss);
    }
    RowsBySmall(b, f, Big(b, ss), Big(b, ss + 1));
  }

  /** With all big buckets done the block is sorted. */
  lemma AllSorted(b: seq<int>, f: seq<int>, ft: seq<int>, done: seq<bool>, ss: int, j: int)
    requires Progress(b, f, ft, done, ss, j) && forall c :: 0 <= c < ALPHABET ==> done[c]
    ensures SortsRotations(b, f)
  {
    hide Lo, SmallSorted, Masked, Table, InBuckets;
    forall r | 0 <= r < |b| ensures 0 <= f[r] < |b| && SmallSorted(b, f, Pair(b, f[r])) {
      FinishedRow(b, f, ft, done, ss, j, r);
    }
    RowsBySmall(b, f, 0, |b|);
  }

  /* ---- Step 1 ---- */

  /** The rotations of one small bucket agree on two characters. */
  lemma SmallShares(b: seq<int>, f: seq<int>, k: int)
    requires Within(b, ALPHABET) && Bucketed(b, f) && Lo(b, k) <= Lo(b, k + 1)
    ensures SharePrefix(b, f, Lo(b, k), Lo(b, k + 1) - 1, 2)
  {
    BucketedPointers(b, f);
    LoGrows(b, k, k + 1);
    hide Lo, Bucketed;
    var lo, hi := Lo(b, k), Lo(b, k + 1) - 1;
    forall p, q | lo <= p <= hi && lo <= q <= hi ensures Cmp(b, f[p], f[q], 2) == 0 {
      RowBucket(b, f, p, k);
      RowBucket(b, f, q, k);
      PairParts(b, f[p], f[q]);
      CmpTwo(b, f[p], f[q]);
    }
  }

  lemma CmpTwo(b: seq<int>, x: nat, y: nat)
    requires x < |b| && y < |b| && b[x] == b[y] && b[Next(x, |b|)] == b[Next(y, |b|)]
    ensures Cmp(b, x, y, 2) == 0
  {
    var x', y' := Next(x, |b|), Next(y, |b|);
    assert Cmp(b, Next(x', |b|), Next(y', |b|), 0) == 0;
    assert Cmp(b, x', y', 1) == 0;
  }

  /** Rearranging a small bucket keeps every position in its bucket. */
  lemma BucketedKept(b: seq<int>, f: seq<int>, g: seq<int>, k: int)
    requires Bucketed(b, f) && Rearranged(f, g, Lo(b, k), Lo(b, k + 1) - 1)
    ensures Bucketed(b, g)
  {
    var lo, hi := Lo(b, k), Lo(b, k + 1) - 1;
    PermKept(f, g, |b|);
    hide Lo, Rearranged;
    forall r | 0 <= r < |b| ensures 0 <= g[r] < |b| && Lo(b, Pair(b, g[r])) <= r < Lo(b, Pair(b, g[r]) + 1) {
      if lo <= r <= hi {
        var q := Origin(f, g, lo, hi, r);
        RowBucket(b, f, q, k);
      } else {
        RowElsewhere(f, g, lo, hi, r);
        RowBucket(b, f, r, Pair(b, f[r]));
      }
    }
    BucketedIntro(b, g);
  }

  lemma RowElsewhere(f: seq<int>, g: seq<int>, lo: int, hi: int, r: int)
    requires Rearranged(f, g, lo, hi) && 0 <= r < |f| && !(lo <= r <= hi)
    ensures |g| == |f| && g[r] == f[r]
  {
  }

  /** Other small buckets stay as they are. */
  lemma OthersKept(b: seq<int>, f: seq<int>, g: seq<int>, k: int, l: int)
    requires Bucketed(b, f) && Bucketed(b, g) && Rearranged(f, g, Lo(b, k), Lo(b, k + 1) - 1) && l != k
    requires SmallSorted(b, f, l)
    ensures SmallSorted(b, g, l)
  {
    hide Lo, Cmp, Bucketed;
    LoGrows(b, l, l + 1);
    if l < k { LoGrows(b, l + 1, k); } else { LoGrows(b, k + 1, l); }
    BucketedPointers(b, g);
  }

  lemma QuickSorted(b: seq<int>, f: seq<int>, g: seq<int>, ft: seq<int>, done: seq<bool>, ss: int, j: int, k: int)
    requires Progress(b, f, ft, done, ss, j) && 0 <= k < KEYS && !Masked(ft[k])
    requires Rearranged(f, g, Lo(b, k), Lo(b, k + 1) - 1) && Keyed(g, Ranks(b), 0) && |g| == |b|
    requires Ascending(g, Ranks(b), Lo(b, k), Lo(b, k + 1) - 1)
    ensures Progress(b, g, ft, done, ss, j) && SmallSorted(b, g, k)
  {
    BucketedKept(b, f, g, k);
    BucketedPointers(b, g);
    LoGrows(b, k, k + 1);
    hide Bucketed, Rearranged, Masked, Finished, Lo, Table;
    forall l | 0 <= l < KEYS && Masked(ft[l]) ensures SmallSorted(b, g, l) {
      OthersKept(b, f, g, k, l);
    }
    forall r, q | Lo(b, k) <= r < q < Lo(b, k + 1) ensures Cmp(b, g[r], g[q], |b|) <= 0 {
      RankOrder(b, g[r], g[q]);
    }
  }

  lemma Trivial(b: seq<int>, f: seq<int>, ft: seq<int>, done: seq<bool>, ss: int, j: int, k: int)
    requires Progress(b, f, ft, done, ss, j) && 0 <= k < KEYS && (Masked(ft[k]) || Lo(b, k + 1) <= Lo(b, k) + 1)
    ensures SmallSorted(b, f, k)
  {
    BucketedPointers(b, f);
    LoGrows(b, k, k + 1);
    hide Bucketed, Lo, Table, Finished;
  }

  /** Small bucket [ss, j] is marked. */
  lemma MarkStep(b: seq<int>, f: seq<int>, ft: seq<int>, done: seq<bool>, ss: int, j: int, k: int)
    requires Progress(b, f, ft, done, ss, j) && 0 <= ss < ALPHABET && 0 <= j < ALPHABET && k == ALPHABET * ss + j
    requires SmallSorted(b, f, k) && j != ss
    ensures Progress(b, f, ft[k := Mask(ft[k])], done, ss, j + 1)
  {
    hide Bucketed, Lo, SmallSorted, Masked;
    var ft2 := ft[k := Mask(ft[k])];
    forall l | 0 <= l < KEYS
      ensures Masked(ft2[l]) <==> Finished(done, ss, j + 1, l)
    {
      assert l == k <==> l / ALPHABET == ss && l % ALPHABET == j;
    }
  }

  lemma MarkNone(b: seq<int>, f: seq<int>, ft: seq<int>, done: seq<bool>, ss: int)
    requires Progress(b, f, ft, done, ss, ss)
    ensures Progress(b, f, ft, done, ss, ss + 1)
  {
    hide Bucketed, Lo, SmallSorted, Masked, Table;
  }

  /** Before Step 1 it does not matter which big bucket is next. */
  lemma ProgressAny(b: seq<int>, f: seq<int>, ft: seq<int>, done: seq<bool>, ss: int, tt: int)
    requires Progress(b, f, ft, done, ss, 0)
    ensures Progress(b, f, ft, done, tt, 0)
  {
    hide Bucketed, Lo, SmallSorted, Masked, Table;
  }

  /** Rows of the big buckets done are as they were. */
  ghost predicate Settled(b: seq<int>, f: seq<int>, g: seq<int>, done: seq<bool>) {
    && |f| == |g| == |b| && |done| == ALPHABET && Within(b, ALPHABET)
    && forall r :: 0 <= r < |b| && 0 <= f[r] < |b| && done[b[f[r]]] ==> g[r] == f[r]
  }

  lemma SettledBySort(b: seq<int>, f0: seq<int>, f: seq<int>, g: seq<int>, ft: seq<int>, done: seq<bool>, ss: int,
                      j: int, k: int)
    requires Settled(b, f0, f, done) && Progress(b, f, ft, done, ss, j) && 0 <= k < KEYS && !Masked(ft[k])
    requires Rearranged(f, g, Lo(b, k), Lo(b, k + 1) - 1)
    ensures Settled(b, f0, g, done)
  {
    hide Lo, SmallSorted, Masked, Table, Rearranged;
    RearrangedSize(f, g, Lo(b, k), Lo(b, k + 1) - 1);
    forall r | 0 <= r < |b| && 0 <= f0[r] < |b| && done[b[f0[r]]] ensures g[r] == f0[r] {
      RowBucket(b, f, r, k);
      FinishedRow(b, f, ft, done, ss, j, r);
      RowElsewhere(f, g, Lo(b, k), Lo(b, k + 1) - 1, r);
    }
  }

  lemma RearrangedSize(f: seq<int>, g: seq<int>, lo: int, hi: int)
    requires Rearranged(f, g, lo, hi)
    ensures |g| == |f|
  {
  }

  /** Step 1: completes big bucket [ss] by quicksorting its small buckets not yet in order. */
  method CompleteBig(ptr: array<int>, block: array<int>, quadrant: array<int>, ftab: array<int>, nblock: nat, ss: int,
                     budget: int, ghost b: seq<int>, ghost done: seq<bool>) returns (budget': int)
    requires ptr != block && ptr != quadrant && ptr != ftab && block != ftab && quadrant != ftab
    requires |b| == nblock == ptr.Length && OVERSHOOT < nblock < SETMASK && 0 <= ss < ALPHABET
    requires Mirrored(b, block[..]) && QuadrantOk(b, quadrant[..]) && Within(b, ALPHABET)
    requires Progress(b, ptr[..], ftab[..], done, ss, 0) && ftab.Length == KEYS + 1 && |done| == ALPHABET
    modifies ptr, ftab
    ensures budget' >= 0 ==> Progress(b, ptr[..], ftab[..], done, ss, ALPHABET)
    ensures Settled(b, old(ptr[..]), ptr[..], done)
  {
    hide Mirrored, QuadrantOk, Within, Progress, Settled, Lo, Masked, Finished, SmallSorted, Rearranged, Keyed,
      Ascending, Bucketed, Table;
    ghost var f0 := ptr[..];
    SettledStart(b, f0, done);
    budget' := budget;
    var j := 0;
    while j < ALPHABET
      invariant 0 <= j <= ALPHABET && Progress(b, ptr[..], ftab[..], done, ss, j) && Settled(b, f0, ptr[..], done)
    {
      if j != ss {
        var sb := ALPHABET * ss + j;
        ghost var f, ft := ptr[..], ftab[..];
        ProgressParts(b, f, ft, done, ss, j);
        TableSmall(b, ft, sb);
        if !Masked(ftab[sb]) {
          var lo := Clear(ftab[sb]);
          var hi := Clear(ftab[sb + 1]) - 1;
          if hi > lo {
            SmallShares(b, f, sb);
            budget' := MainQSort3.Sort(ptr, block, quadrant, nblock, lo, hi, 2, budget', b);
            SettledBySort(b, f0, f, ptr[..], ft, done, ss, j, sb);
            if budget' < 0 { return; }
            QuickSorted(b, f, ptr[..], ft, done, ss, j, sb);
          } else {
            Trivial(b, f, ft, done, ss, j, sb);
          }
        } else {
          Trivial(b, f, ft, done, ss, j, sb);
        }
        MarkStep(b, ptr[..], ft, done, ss, j, sb);
        ftab[sb] := Mask(ftab[sb]);
        assert ftab[..] == ft[sb := Mask(ft[sb])];
      } else {
        MarkNone(b, ptr[..], ftab[..], done, ss);
      }
      j := j + 1;
    }
  }

  lemma SettledStart(b: seq<int>, f: seq<int>, done: seq<bool>)
    requires |f| == |b| && |done| == ALPHABET && Within(b, ALPHABET)
    ensures Settled(b, f, f, done)
  {
  }

  lemma ProgressParts(b: seq<int>, f: seq<int>, ft: seq<int>, done: seq<bool>, ss: int, j: int)
    requires Progress(b, f, ft, done, ss, j)
    ensures |b| > 0 && Within(b, ALPHABET) && Bucketed(b, f) && Table(b, ft) && |ft| == KEYS + 1 && |done| == ALPHABET
    ensures |f| == |b|
  {
  }

  lemma TableSmall(b: seq<int>, ft: seq<int>, k: int)
    requires Table(b, ft) && 0 <= k < KEYS
    ensures |ft| == KEYS + 1 && Clear(ft[k]) == Lo(b, k) <= Lo(b, k + 1) == Clear(ft[k + 1]) <= |b|
  {
    LoGrows(b, k, k + 1);
    hide Lo;
  }

  /* ---- Step 2 and what it completes ---- */

  /** ft2 is ft with all small buckets [t, ss], t < j, marked. */
  ghost predicate ColumnMarked(ft: seq<int>, ft2: seq<int>, ss: int, j: int) {
    && |ft| == |ft2| == KEYS + 1
    && forall k :: 0 <= k <= KEYS ==> ft2[k] == if k % ALPHABET == ss && k / ALPHABET < j then Mask(ft[k]) else ft[k]
  }

  lemma ColumnStep(ft: seq<int>, ft2: seq<int>, ss: int, j: int)
    requires ColumnMarked(ft, ft2, ss, j) && 0 <= ss < ALPHABET && 0 <= j < ALPHABET
    ensures ColumnMarked(ft, ft2[ALPHABET * j + ss := Mask(ft2[ALPHABET * j + ss])], ss, j + 1)
  {
    hide Mask;
    var at := ALPHABET * j + ss;
    forall k | 0 <= k <= KEYS ensures k == at <==> k % ALPHABET == ss && k / ALPHABET == j {
    }
    assert ft2[at] == ft[at];
  }

  /** The marking loop after the scans. */
  method MarkColumn(ftab: array<int>, ss: int)
    requires ftab.Length == KEYS + 1 && 0 <= ss < ALPHABET
    modifies ftab
    ensures ColumnMarked(old(ftab[..]), ftab[..], ss, ALPHABET)
  {
    hide Mask, ColumnMarked;
    ghost var ft := ftab[..];
    ColumnNone(ft, ss);
    for j := 0 to 256
      invariant ColumnMarked(ft, ftab[..], ss, j)
    {
      ghost var g := ftab[..];
      ColumnStep(ft, g, ss, j);
      ftab[ALPHABET * j + ss] := Mask(ftab[ALPHABET * j + ss]);
      assert ftab[..] == g[ALPHABET * j + ss := Mask(g[ALPHABET * j + ss])];
    }
  }

  lemma ColumnNone(ft: seq<int>, ss: int)
    requires |ft| == KEYS + 1
    ensures ColumnMarked(ft, ft, ss, 0)
  {
  }

  /** Step 2 changes no row of a small bucket already in order. */
  lemma SynthesisKeeps(b: seq<int>, f: seq<int>, g: seq<int>, done: seq<bool>, ss: int, k: int)
    requires Synthesised(b, f, g, ss, done) && 0 <= k < KEYS && SmallSorted(b, f, k)
    requires done[k / ALPHABET] || k % ALPHABET != ss
    ensures SmallSorted(b, g, k)
  {
    hide Lo, Cmp;
    BucketedPointers(b, g);
    LoGrows(b, k, k + 1);
    forall r | Lo(b, k) <= r < Lo(b, k + 1) ensures g[r] == f[r] {
      RowBucket(b, f, r, k);
      KeyParts(b, f[r], k);
    }
  }

  lemma KeyParts(b: seq<int>, x: nat, k: int)
    requires Within(b, ALPHABET) && x < |b| && Pair(b, x) == k
    ensures b[x] == k / ALPHABET && b[Next(x, |b|)] == k % ALPHABET
  {
  }

  lemma SynthesisAdds(b: seq<int>, f: seq<int>, g: seq<int>, done: seq<bool>, ss: int, k: int)
    requires Synthesised(b, f, g, ss, done) && 0 <= k < KEYS && k % ALPHABET == ss && !done[k / ALPHABET]
    ensures SmallSorted(b, g, k)
  {
    hide Lo, Cmp, SortedRows;
    assert ALPHABET * (k / ALPHABET) + ss == k;
    assert SortedRows(b, g, Start(b, k / ALPHABET, ss), Stop(b, k / ALPHABET, ss));
  }

  lemma SynthesisParts(b: seq<int>, f: seq<int>, g: seq<int>, done: seq<bool>, ss: int)
    requires Synthesised(b, f, g, ss, done)
    ensures Bucketed(b, g) && |done| == ALPHABET
  {
  }

  /** Step 2 with its marks: ss is done. */
  lemma BigDone(b: seq<int>, f: seq<int>, g: seq<int>, ft: seq<int>, ft2: seq<int>, done: seq<bool>, ss: int)
    requires Progress(b, f, ft, done, ss, ALPHABET) && 0 <= ss < ALPHABET
    requires Synthesised(b, f, g, ss, done) && ColumnMarked(ft, ft2, ss, ALPHABET)
    ensures Progress(b, g, ft2, done[ss := true], ss, 0)
  {
    SynthesisParts(b, f, g, done, ss);
    ColumnTable(b, ft, ft2, ss);
    hide Bucketed, Lo, SmallSorted, Synthesised, Table, Clear, Masked;
    forall k | 0 <= k < KEYS
      ensures Masked(ft2[k]) <==> Finished(done[ss := true], ss, 0, k)
      ensures Masked(ft2[k]) ==> SmallSorted(b, g, k)
    {
      assert ft2[k] == if k % ALPHABET == ss then Mask(ft[k]) else ft[k];
      if Masked(ft2[k]) {
        if k % ALPHABET == ss && !done[k / ALPHABET] {
          SynthesisAdds(b, f, g, done, ss, k);
        } else {
          assert Finished(done, ss, ALPHABET, k);
          SynthesisKeeps(b, f, g, done, ss, k);
        }
      }
    }
  }

  lemma ColumnTable(b: seq<int>, ft: seq<int>, ft2: seq<int>, ss: int)
    requires Table(b, ft) && ColumnMarked(ft, ft2, ss, ALPHABET)
    ensures Table(b, ft2)
  {
    hide Lo, Masked, Clear;
  }

  lemma SettledBySynthesis(b: seq<int>, f0: seq<int>, f: seq<int>, g: seq<int>, done: seq<bool>, ss: int)
    requires Settled(b, f0, f, done) && Synthesised(b, f, g, ss, done)
    ensures Settled(b, f0, g, done)
  {
    hide Lo, SortedRows;
  }

  /* ---- Step 3 ---- */

  lemma FactorBelow(x: int, y: int, m: int)
    requires m >= 1 && m * x < m * y
    ensures x < y
  {
  }

  lemma DivBounds(n: int, m: int)
    requires m >= 1
    ensures m * (n / m) <= n < m * (n / m + 1)
  {
    assert m * (n / m + 1) == m * (n / m) + m;
  }

  lemma DivBelow(n: int, m: int, k: int)
    requires m >= 1 && n < m * k
    ensures n / m < k
  {
    DivBounds(n, m);
    FactorBelow(n / m, k, m);
  }

  lemma DivMonotone(i: int, j: int, p: int)
    requires 0 <= i <= j && p >= 1
    ensures 0 <= i / p <= j / p <= j
  {
    DivBounds(i, p);
    DivBounds(j, p);
    var x, y := i / p, j / p;
    FactorBelow(-1, x, p);
    FactorBelow(x, y + 1, p);
    FactorAbove(j + 1, p);
    FactorBelow(y, j + 1, p);
  }

  lemma FactorAbove(x: int, p: int)
    requires x >= 1 && p >= 1
    ensures x <= p * x
  {
  }

  lemma QuotientOrder(i: int, j: int, p: int)
    requires 0 <= i && 0 <= j && p >= 1 && i / p < j / p
    ensures i < j
  {
    if j <= i { DivMonotone(j, i, p); }
  }

  /** Quadrants of rows m..hi-1 of the big bucket have their new values; other characters' are as
      they were. */
  ghost predicate Filling(b: seq<int>, f: seq<int>, q0: seq<int>, q: seq<int>, ss: int, lo: int, m: int, hi: int,
                          p: int) {
    && |f| == |b| && 0 <= lo <= m <= hi <= |b| && OVERSHOOT < |b| && |b| + OVERSHOOT <= |q| == |q0| && p >= 1
    && (forall r :: m <= r < hi ==> 0 <= f[r] < |b| && q[f[r]] == (r - lo) / p)
    && (forall x :: 0 <= x < |b| && b[x] != ss ==> q[x] == q0[x])
    && forall i :: 0 <= i < OVERSHOOT ==> q[|b| + i] == q[i]
  }

  lemma FillStep(b: seq<int>, f: seq<int>, q0: seq<int>, q: seq<int>, ss: int, lo: int, m: int, hi: int, p: int, v: int)
    requires Filling(b, f, q0, q, ss, lo, m, hi, p) && lo < m && IsPerm(f, |b|) && b[f[m - 1]] == ss
    requires v == (m - 1 - lo) / p
    ensures var q2 := q[f[m - 1] := v];
            Filling(b, f, q0, if f[m - 1] < OVERSHOOT then q2[f[m - 1] + |b| := v] else q2, ss, lo, m - 1, hi, p)
  {
    var x := f[m - 1];
    forall r | m <= r < hi ensures f[r] != x {
    }
  }

  lemma RowsBigger(b: seq<int>, f: seq<int>, q: seq<int>, ss: int, lo: int, hi: int, p: int, x: nat, y: nat)
    requires Bucketed(b, f) && Within(b, ALPHABET) && 0 <= ss < ALPHABET && lo == Big(b, ss) && hi == Big(b, ss + 1)
    requires p >= 1
    requires SortedRows(b, f, lo, hi) && |q| >= |b|
    requires forall r :: lo <= r < hi ==> 0 <= f[r] < |b| && q[f[r]] == (r - lo) / p
    requires x < |b| && y < |b| && b[x] == ss == b[y] && q[x] < q[y]
    ensures Cmp(b, x, y, |b|) <= 0
  {
    hide Lo, Cmp, Bucketed, Within;
    var r := RowOf(b, f, x);
    var s := RowOf(b, f, y);
    RowInSmall(b, f, ss, r, ss);
    RowInSmall(b, f, ss, s, ss);
    assert lo <= r < hi && lo <= s < hi;
    assert (r - lo) / p < (s - lo) / p;
    QuotientOrder(r - lo, s - lo, p);
  }

  /** The new quadrants keep their meaning: the rows they number are in order. */
  lemma FillDone(b: seq<int>, f: seq<int>, q0: seq<int>, q: seq<int>, ss: int, p: int)
    requires Bucketed(b, f) && Within(b, ALPHABET) && 0 <= ss < ALPHABET && Big(b, ss) <= Big(b, ss + 1)
    requires SortedRows(b, f, Big(b, ss), Big(b, ss + 1)) && QuadrantOk(b, q0)
    requires Filling(b, f, q0, q, ss, Big(b, ss), Big(b, ss), Big(b, ss + 1), p)
    ensures QuadrantOk(b, q)
  {
    hide Lo, Cmp, Bucketed, SortedRows, Big;
    forall x, y | 0 <= x < |b| && 0 <= y < |b| && b[x] == b[y] && q[x] < q[y] ensures Cmp(b, x, y, |b|) <= 0 {
      if b[x] == ss {
        RowsBigger(b, f, q, ss, Big(b, ss), Big(b, ss + 1), p, x, y);
      }
    }
  }

  lemma FillStart(b: seq<int>, f: seq<int>, q: seq<int>, ss: int, p: int)
    requires Bucketed(b, f) && QuadrantOk(b, q) && Big(b, ss) <= Big(b, ss + 1) && p >= 1
    ensures Filling(b, f, q, q, ss, Big(b, ss), Big(b, ss + 1), Big(b, ss + 1), p)
  {
    LoGrows(b, ALPHABET * (ss + 1), ALPHABET * (ss + 1));
  }

  lemma BigRow(b: seq<int>, f: seq<int>, ss: int, r: int)
    requires Bucketed(b, f) && Within(b, ALPHABET) && 0 <= ss < ALPHABET && Big(b, ss) <= r < Big(b, ss + 1)
    ensures IsPerm(f, |b|) && 0 <= r < |b| && 0 <= f[r] < |b| && b[f[r]] == ss
  {
    Layout(b, ss, ss);
    RowInSmall(b, f, ss, r, ss);
  }

  /** Doubling the divisor makes a positive quotient smaller. */
  lemma Halves(n: int, p: int)
    requires p >= 1 && n >= 0 && n / p >= 1
    ensures 0 <= n / (2 * p) < n / p
  {
    var a := n / p;
    DivMonotone(0, n, 2 * p);
    assert n < p * a + p;
    FactorAbove(p, a);
    assert a * p == p * a && n < 2 * p * a;
    DivBelow(n, 2 * p, a);
  }

  /** The smallest shift that brings the size of a big bucket into 16 bits. */
  method ShiftsFor(bbSize: int) returns (shifts: nat)
    requires bbSize >= 0
    ensures bbSize / Pow2(shifts) <= 65534
    ensures forall s :: 0 <= s < shifts ==> bbSize / Pow2(s) > 65534
  {
    shifts := 0;
    while bbSize / Pow2(shifts) > 65534
      invariant forall s :: 0 <= s < shifts ==> bbSize / Pow2(s) > 65534
      decreases bbSize / Pow2(shifts)
    {
      Halves(bbSize, Pow2(shifts));
      shifts := shifts + 1;
    }
  }

  lemma QuadrantsFit(n: int, p: int)
    requires 0 <= n && p >= 1 && n / p <= 65534
    ensures (n - 1) / p <= 65535
  {
    if n == 0 {
      DivBelow(-1, p, 0);
    } else {
      DivMonotone(n - 1, n, p);
    }
  }

  /** Step 3: records the order of big bucket [ss] in the quadrants, in as many bits as fit. */
  method UpdateQuadrants(ptr: array<int>, quadrant: array<int>, ftab: array<int>, nblock: nat, ss: int,
                         ghost b: seq<int>)
    requires quadrant != ptr && quadrant != ftab && |b| == nblock == ptr.Length && OVERSHOOT < nblock
    requires 0 <= ss < ALPHABET
    requires Bucketed(b, ptr[..]) && Within(b, ALPHABET) && Table(b, ftab[..]) && QuadrantOk(b, quadrant[..])
    requires SortedRows(b, ptr[..], Big(b, ss), Big(b, ss + 1)) && nblock + OVERSHOOT <= quadrant.Length
    modifies quadrant
    ensures QuadrantOk(b, quadrant[..])
  {
    hide Bucketed, Within, Table, QuadrantOk, SortedRows, Big, Filling, IsPerm;
    TableSize(b, ftab[..]);
    TableAt(b, ftab[..], ss, ss);
    Layout(b, ss, ss);
    var bbStart := Clear(ftab[ALPHABET * ss]);
    var bbSize := Clear(ftab[ALPHABET * (ss + 1)]) - bbStart;
    var shifts := ShiftsFor(bbSize);
    ghost var f, q0, p := ptr[..], quadrant[..], Pow2(shifts);
    FillStart(b, f, q0, ss, p);
    var j := bbSize - 1;
    while j >= 0
      invariant -1 <= j < bbSize
      invariant Filling(b, f, q0, quadrant[..], ss, bbStart, bbStart + j + 1, bbStart + bbSize, p)
    {
      ghost var q := quadrant[..];
      BigRow(b, f, ss, bbStart + j);
      DivMonotone(j, bbSize, p);
      var a2update := ptr[bbStart + j];
      var qVal := j / Pow2(shifts) % 65536;
      FillStep(b, f, q0, q, ss, bbStart, bbStart + j + 1, bbStart + bbSize, p, qVal);
      quadrant[a2update] := qVal;
      if a2update < OVERSHOOT {
        quadrant[a2update + nblock] := qVal;
      }
      assert quadrant[..] ==
             if a2update < OVERSHOOT then q[a2update := qVal][a2update + nblock := qVal] else q[a2update := qVal];
      j := j - 1;
    }
    FillDone(b, f, q0, quadrant[..], ss, p);
    QuadrantsFit(bbSize, p);
    assert (bbSize - 1) / Pow2(shifts) <= 65535;  // AssertH 1002
  }

  /* ---- The main loop ---- */

  /** One round of the main loop, for big bucket [ss]. */
  method Round(ptr: array<int>, block: array<int>, quadrant: array<int>, ftab: array<int>, nblock: nat, ss: int,
               last: bool,
               bigDone: array<bool>, copyStart: array<int>, copyEnd: array<int>, budget: int, ghost b: seq<int>)
    returns (budget': int)
    requires ptr != block && ptr != quadrant && ptr != ftab && block != ftab && quadrant != ftab && block != quadrant
    requires copyStart != copyEnd && copyStart !in {ptr, block, quadrant, ftab}
    requires copyEnd !in {ptr, block, quadrant, ftab}
    requires |b| == nblock == ptr.Length && OVERSHOOT < nblock < SETMASK && 0 <= ss < ALPHABET
    requires ftab.Length == KEYS + 1 && bigDone.Length == copyStart.Length == copyEnd.Length == ALPHABET
    requires Mirrored(b, block[..]) && QuadrantOk(b, quadrant[..]) && nblock + OVERSHOOT <= quadrant.Length
    requires Progress(b, ptr[..], ftab[..], bigDone[..], ss, 0) && !bigDone[ss]
    modifies ptr, quadrant, ftab, bigDone, copyStart, copyEnd
    ensures Settled(b, old(ptr[..]), ptr[..], old(bigDone[..]))
    ensures budget' >= 0 ==> bigDone[..] == old(bigDone[..])[ss := true]
    ensures budget' >= 0 ==> Progress(b, ptr[..], ftab[..], bigDone[..], ss, 0) && QuadrantOk(b, quadrant[..])
  {
    hide Mirrored, QuadrantOk, Within, Progress, Settled, Bucketed, Table, Scene, Synthesised, ColumnMarked, SortedRows;
    ghost var f0, done := ptr[..], bigDone[..];
    ProgressParts(b, f0, ftab[..], done, ss, 0);
    budget' := CompleteBig(ptr, block, quadrant, ftab, nblock, ss, budget, b, done);
    if budget' < 0 { return; }
    assert !bigDone[ss];  // AssertH 1006
    ghost var f, ft := ptr[..], ftab[..];
    SceneSet(b, f, ft, done, ss);
    ProgressParts(b, f, ft, done, ss, ALPHABET);
    MirroredBlock(b, block[..]);
    Synthesise(ptr, block, ftab, nblock, ss, bigDone, copyStart, copyEnd, b);
    SettledBySynthesis(b, f0, f, ptr[..], done, ss);
    MarkColumn(ftab, ss);
    BigDone(b, f, ptr[..], ft, ftab[..], done, ss);
    bigDone[ss] := true;
    assert bigDone[..] == done[ss := true];
    if !last {
      ProgressParts(b, ptr[..], ftab[..], bigDone[..], ss, 0);
      BigSorted(b, ptr[..], ftab[..], bigDone[..], ss, 0);
      UpdateQuadrants(ptr, quadrant, ftab, nblock, ss, b);
    }
  }

  lemma MirroredBlock(b: seq<int>, block: seq<int>)
    requires Mirrored(b, block)
    ensures |b| + OVERSHOOT <= |block| && block[..|b|] == b
  {
  }

  /** The big buckets done are the first i of the running order. */
  ghost predicate DoneFirst(ro: seq<int>, done: seq<bool>, i: nat) {
    && IsPerm(ro, ALPHABET) && |done| == ALPHABET && i <= ALPHABET
    && forall k :: 0 <= k < ALPHABET ==> (done[ro[k]] <==> k < i)
  }

  lemma DoneStep(ro: seq<int>, done: seq<bool>, i: nat)
    requires DoneFirst(ro, done, i) && i < ALPHABET
    ensures 0 <= ro[i] < ALPHABET && !done[ro[i]] && DoneFirst(ro, done[ro[i] := true], i + 1)
  {
  }

  lemma DoneAll(ro: seq<int>, done: seq<bool>)
    requires DoneFirst(ro, done, ALPHABET)
    ensures forall c :: 0 <= c < ALPHABET ==> done[c]
  {
    forall c | 0 <= c < ALPHABET ensures done[c] {
      PermCovers(ro, ALPHABET, c);
      var k :| 0 <= k < ALPHABET && ro[k] == c;
    }
  }

  lemma DoneNone(ro: seq<int>, done: seq<bool>)
    requires IsPerm(ro, ALPHABET) && |done| == ALPHABET && forall c :: 0 <= c < ALPHABET ==> !done[c]
    ensures DoneFirst(ro, done, 0)
  {
  }

  lemma ProgressStart(b: seq<int>, f: seq<int>, ft: seq<int>, done: seq<bool>)
    requires |b| > 0 && Within(b, ALPHABET) && Bucketed(b, f) && Table(b, ft) && |done| == ALPHABET && |ft| == KEYS + 1
    requires forall k :: 0 <= k <= KEYS ==> !Masked(ft[k])
    requires forall c :: 0 <= c < ALPHABET ==> !done[c]
    ensures Progress(b, f, ft, done, 0, 0)
  {
    hide Masked, Table, Bucketed, SmallSorted, Lo;
  }

  method NoneDone() returns (bigDone: array<bool>)
    ensures fresh(bigDone) && bigDone.Length == ALPHABET && forall c :: 0 <= c < ALPHABET ==> !bigDone[c]
  {
    bigDone := new bool[ALPHABET];
    for i := 0 to 256
      invariant forall c :: 0 <= c < i ==> !bigDone[c]
    {
      bigDone[i] := false;
    }
  }

  /** mainSort: unless the budget runs out, ptr ends as all rotations in ascending order. The block
      itself is kept; behind it stands a copy of its beginning. */
  method Sort(ptr: array<int>, block: array<int>, quadrant: array<int>, ftab: array<int>, nblock: nat, budget: int)
    returns (budget': int)
    requires ptr != block && ptr != quadrant && ptr != ftab && block != ftab && quadrant != ftab && block != quadrant
    requires OVERSHOOT < nblock < SETMASK && ptr.Length == nblock && ftab.Length == KEYS + 1
    requires nblock + OVERSHOOT <= block.Length && nblock + OVERSHOOT <= quadrant.Length
    requires Within(block[..nblock], ALPHABET)
    modifies ptr, block, quadrant, ftab
    ensures block[..nblock] == old(block[..nblock])
    ensures budget' >= 0 ==> SortsRotations(block[..nblock], ptr[..])
  {
    hide Mirrored, QuadrantOk, Within, Progress, Bucketed, Table, CountedFrom, Masked, SortsRotations, IsPerm,
      Ascending, Keyed, DoneFirst, Settled;
    ghost var b := block[..nblock];
    CountPairs(block, quadrant, ftab, nblock, b);
    CopyOvershoot(block, quadrant, nblock, b);
    MirroredBlock(b, block[..]);
    assert block[..][..nblock] == block[..nblock];
    Distribute(ptr, block, ftab, nblock, b);
    var bigDone := NoneDone();
    var runningOrder := RunningOrder(ftab, b);
    var copyStart, copyEnd := new int[ALPHABET], new int[ALPHABET];
    ghost var ro := runningOrder[..];
    ProgressStart(b, ptr[..], ftab[..], bigDone[..]);
    DoneNone(ro, bigDone[..]);
    budget' := budget;
    for i := 0 to 256
      invariant runningOrder[..] == ro && block[..nblock] == b && Mirrored(b, block[..]) && QuadrantOk(b, quadrant[..])
      invariant DoneFirst(ro, bigDone[..], i) && Progress(b, ptr[..], ftab[..], bigDone[..], 0, 0)
    {
      var ss := runningOrder[i];
      assert ss == ro[i];
      DoneStep(ro, bigDone[..], i);
      ProgressAny(b, ptr[..], ftab[..], bigDone[..], 0, ss);
      budget' := Round(ptr, block, quadrant, ftab, nblock, ss, i == 255, bigDone, copyStart, copyEnd, budget', b);
      if budget' < 0 { return; }
      ProgressAny(b, ptr[..], ftab[..], bigDone[..], ss, 0);
    }
    DoneAll(ro, bigDone[..]);
    AllSorted(b, ptr[..], ftab[..], bigDone[..], 0, 0);
  }
}
