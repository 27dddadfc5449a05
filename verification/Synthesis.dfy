/** Step 2 of the main block sorter: the sorted order of the small buckets [t, ss] is read off the
    big bucket [ss] by scanning it from both ends. */
module Synthesis {
  import opened Counting
  import opened Permute
  import opened Rotation

  const ALPHABET := 256

  /** The two-character key of a position. */
  function Pair(b: seq<int>, x: nat): int
    requires x < |b|
  {
    ALPHABET * b[x] + b[Next(x, |b|)]
  }

  function Pairs(b: seq<int>): (r: seq<int>)
    ensures |r| == |b|
    ensures forall x :: 0 <= x < |b| ==> r[x] == Pair(b, x)
  {
    seq(|b|, x requires 0 <= x < |b| => Pair(b, x))
  }

  /** First row of small bucket k. */
  function Lo(b: seq<int>, k: int): nat {
    CountLess(Pairs(b), |b|, k)
  }

  /** f lists all positions, each in the small bucket of its first two characters. */
  ghost predicate Bucketed(b: seq<int>, f: seq<int>) {
    IsPerm(f, |b|) && InBuckets(Pairs(b), f)
  }

  lemma LoGrows(b: seq<int>, j: int, k: int)
    requires j <= k
    ensures Lo(b, j) <= Lo(b, k) <= |b|
  {
    CountLessGrows(Pairs(b), |b|, j, k);
  }

  /** A row's bucket determines the first two characters there, and the other way round. */
  lemma RowBucket(b: seq<int>, f: seq<int>, r: int, k: int)
    requires Bucketed(b, f) && 0 <= r < |b|
    ensures 0 <= f[r] < |b| && (Lo(b, k) <= r < Lo(b, k + 1) <==> Pair(b, f[r]) == k)
    ensures Lo(b, k) <= r <==> k <= Pair(b, f[r])
  {
    var p := Pair(b, f[r]);
    assert Pairs(b)[f[r]] == p;
    assert Lo(b, p) <= r < Lo(b, p + 1);
    hide Lo;
    if p < k { LoGrows(b, p + 1, k); }
    if k < p { LoGrows(b, k + 1, p); LoGrows(b, k, p); }
  }

  lemma RowOf(b: seq<int>, f: seq<int>, x: int) returns (r: int)
    requires Bucketed(b, f) && 0 <= x < |b|
    ensures 0 <= r < |b| && f[r] == x && Lo(b, Pair(b, x)) <= r < Lo(b, Pair(b, x) + 1)
  {
    PermCovers(f, |b|, x);
    r :| 0 <= r < |b| && f[r] == x;
    RowBucket(b, f, r, Pair(b, x));
  }

  lemma {:induction false} SeqCard(s: seq<int>)
    ensures |set x | x in s| <= |s|
  {
    if |s| > 0 {
      var m := |s| - 1;
      SeqCard(s[..m]);
      assert s == s[..m] + [s[m]];
      assert (set x | x in s) == (set x | x in s[..m]) + {s[m]};
    }
  }

  /** s lists different positions with key k. */
  ghost predicate OfBucket(b: seq<int>, s: seq<int>, k: int) {
    && (forall i :: 0 <= i < |s| ==> 0 <= s[i] < |b| && Pair(b, s[i]) == k)
    && (forall i, j :: 0 <= i < j < |s| ==> s[i] != s[j])
  }

  lemma OfBucketBoth(b: seq<int>, s1: seq<int>, s2: seq<int>, k: int)
    requires OfBucket(b, s1, k) && OfBucket(b, s2, k)
    requires forall i, j :: 0 <= i < |s1| && 0 <= j < |s2| ==> s1[i] != s2[j]
    ensures OfBucket(b, s1 + s2, k)
  {
    hide Pair;
  }

  /** No more different positions share a key than its bucket has rows. */
  lemma BucketRoom(b: seq<int>, f: seq<int>, k: int, s: seq<int>)
    requires Bucketed(b, f) && OfBucket(b, s, k)
    ensures Lo(b, k) + |s| <= Lo(b, k + 1)
  {
    hide Lo, Pair;
    LoGrows(b, k, k + 1);
    var rows := f[Lo(b, k)..Lo(b, k + 1)];
    forall i | 0 <= i < |s| ensures s[i] in rows {
      var r := RowOf(b, f, s[i]);
      assert rows[r - Lo(b, k)] == s[i];
    }
    DistinctWithin(s, set x | x in rows);
    SeqCard(rows);
  }

  /** A sequence with all positions of a key is at least as long as its bucket. */
  lemma BucketFull(b: seq<int>, f: seq<int>, k: int, s: seq<int>)
    requires Bucketed(b, f)
    requires forall x :: 0 <= x < |b| && Pair(b, x) == k ==> x in s
    ensures Lo(b, k + 1) <= Lo(b, k) + |s|
  {
    hide Lo, Pair;
    LoGrows(b, k, k + 1);
    var rows := f[Lo(b, k)..Lo(b, k + 1)];
    forall i | 0 <= i < |rows| ensures rows[i] in s {
      RowBucket(b, f, Lo(b, k) + i, k);
    }
    DistinctWithin(rows, set x | x in s);
    SeqCard(s);
  }

  /* ---- Positions whose rotation descends or ascends at its first change of character ---- */

  /** Whether rotation y is above (low) or below (not low) the rotation one place on. */
  ghost predicate Typed(b: seq<int>, y: nat, low: bool)
    requires y < |b|
  {
    if low then Cmp(b, y, Next(y, |b|), |b|) > 0 else Cmp(b, y, Next(y, |b|), |b|) < 0
  }

  /** Equal first characters may be dropped from a comparison of whole rotations. */
  lemma CmpTails(b: seq<int>, x: nat, y: nat)
    requires x < |b| && y < |b| && b[x] == b[y]
    ensures Cmp(b, x, y, |b|) == Cmp(b, Next(x, |b|), Next(y, |b|), |b|)
  {
    CmpSaturates(b, x, y, |b| + 1);
  }

  lemma TypedBySecond(b: seq<int>, y: nat, low: bool)
    requires y < |b|
    ensures b[Next(y, |b|)] < b[y] ==> Typed(b, y, true)
    ensures b[Next(y, |b|)] > b[y] ==> Typed(b, y, false)
    ensures b[Next(y, |b|)] == b[y] ==> (Typed(b, y, low) <==> Typed(b, Next(y, |b|), low))
    ensures Typed(b, y, low) ==> if low then b[Next(y, |b|)] <= b[y] else b[Next(y, |b|)] >= b[y]
  {
    if b[Next(y, |b|)] == b[y] { CmpTails(b, y, Next(y, |b|)); }
  }

  /** With the same first character, low rotations come before high ones. */
  lemma {:induction false} LowBelowHigh(b: seq<int>, y: nat, z: nat, k: nat)
    requires y < |b| && z < |b| && b[y] == b[z] && Typed(b, y, true) && Typed(b, z, false)
    ensures Cmp(b, y, z, k) <= 0
    decreases k
  {
    if k > 0 {
      hide Typed;
      TypedBySecond(b, y, true);
      TypedBySecond(b, z, false);
      var y', z' := Next(y, |b|), Next(z, |b|);
      if b[y'] == b[z'] {
        LowBelowHigh(b, y', z', k - 1);
      }
    }
  }

  /** A rotation equal to its successor means a block of one character. */
  lemma {:induction false} FlatBlock(b: seq<int>, y: nat, t: nat)
    requires y < |b| && Cmp(b, y, Next(y, |b|), |b|) == 0 && t < |b|
    ensures b[Shift(y, t, |b|)] == b[y]
    decreases t
  {
    if t > 0 {
      FlatBlock(b, y, t - 1);
      TieAt(b, y, Next(y, |b|), |b|, t - 1);
      assert Shift(Next(y, |b|), t - 1, |b|) == Shift(y, t, |b|);
    }
  }

  /** b is made of one character only. */
  ghost predicate Flat(b: seq<int>) {
    forall i, j :: 0 <= i < |b| && 0 <= j < |b| ==> b[i] == b[j]
  }

  lemma TypedUnlessFlat(b: seq<int>, y: nat)
    requires y < |b| && !Flat(b)
    ensures Typed(b, y, true) || Typed(b, y, false)
  {
    var n := |b|;
    if Cmp(b, y, Next(y, n), n) == 0 {
      forall i | 0 <= i < n ensures b[i] == b[y] {
        FlatBlock(b, y, if i >= y then i - y else i - y + n);
      }
      assert Flat(b);
    }
  }

  /* ---- What a scan of rows contributes to a small bucket ---- */

  /** f holds block positions, not necessarily each once. */
  ghost predicate Pointers(b: seq<int>, f: seq<int>) {
    |f| == |b| && Keyed(f, b, 0)
  }

  /** The predecessors with first character t of the pointers in rows lo..hi-1, in row order. */
  ghost function Sel(b: seq<int>, f: seq<int>, lo: nat, hi: nat, t: int): seq<int>
    requires Pointers(b, f) && hi <= |f|
    decreases hi
  {
    if hi <= lo then []
    else Sel(b, f, lo, hi - 1, t) +
         (if b[Prev(f[hi - 1], |b|)] == t then [Prev(f[hi - 1], |b|)] else [])
  }

  lemma {:induction false} SelConcat(b: seq<int>, f: seq<int>, lo: nat, m: nat, hi: nat, t: int)
    requires Pointers(b, f) && lo <= m <= hi <= |f|
    ensures Sel(b, f, lo, hi, t) == Sel(b, f, lo, m, t) + Sel(b, f, m, hi, t)
    decreases hi
  {
    if m < hi { SelConcat(b, f, lo, m, hi - 1, t); }
  }

  /** A row put in front comes first. */
  lemma SelFront(b: seq<int>, f: seq<int>, lo: nat, hi: nat, t: int)
    requires Pointers(b, f) && lo < hi <= |f|
    ensures Sel(b, f, lo, hi, t) ==
            (if b[Prev(f[lo], |b|)] == t then [Prev(f[lo], |b|)] else []) + Sel(b, f, lo + 1, hi, t)
  {
    SelConcat(b, f, lo, lo + 1, hi, t);
    assert Sel(b, f, lo, lo, t) == [];
  }

  /** A row put behind comes last. */
  lemma SelBack(b: seq<int>, f: seq<int>, lo: nat, hi: nat, t: int)
    requires Pointers(b, f) && lo <= hi < |f|
    ensures Sel(b, f, lo, hi + 1, t) ==
            Sel(b, f, lo, hi, t) + (if b[Prev(f[hi], |b|)] == t then [Prev(f[hi], |b|)] else [])
  {
  }

  lemma {:induction false} SelSame(b: seq<int>, f: seq<int>, g: seq<int>, lo: nat, hi: nat, t: int)
    requires Pointers(b, f) && Pointers(b, g) && hi <= |f|
    requires forall r :: lo <= r < hi ==> f[r] == g[r]
    ensures Sel(b, f, lo, hi, t) == Sel(b, g, lo, hi, t)
    decreases hi
  {
    if lo < hi { SelSame(b, f, g, lo, hi - 1, t); }
  }

  lemma {:induction false} SelMember(b: seq<int>, f: seq<int>, lo: nat, hi: nat, r: nat)
    requires Pointers(b, f) && lo <= r < hi <= |f|
    ensures Prev(f[r], |b|) in Sel(b, f, lo, hi, b[Prev(f[r], |b|)])
    decreases hi
  {
    if r < hi - 1 { SelMember(b, f, lo, hi - 1, r); }
  }

  /** The row an element of the selection comes from. */
  lemma {:induction false} SelSource(b: seq<int>, f: seq<int>, lo: nat, hi: nat, t: int, i: nat) returns (r: nat)
    requires Pointers(b, f) && hi <= |f| && i < |Sel(b, f, lo, hi, t)|
    ensures lo <= r < hi && Sel(b, f, lo, hi, t)[i] == Prev(f[r], |b|) && b[Prev(f[r], |b|)] == t
    decreases hi
  {
    if i < |Sel(b, f, lo, hi - 1, t)| {
      r := SelSource(b, f, lo, hi - 1, t, i);
    } else {
      r := hi - 1;
    }
  }

  /** Elements of the selection keep the order of their rows. */
  lemma {:induction false} SelSources(b: seq<int>, f: seq<int>, lo: nat, hi: nat, t: int, i: nat, j: nat)
    returns (r: nat, q: nat)
    requires Pointers(b, f) && hi <= |f| && i < j < |Sel(b, f, lo, hi, t)|
    ensures lo <= r < q < hi && b[Prev(f[r], |b|)] == t && b[Prev(f[q], |b|)] == t
    ensures Sel(b, f, lo, hi, t)[i] == Prev(f[r], |b|) && Sel(b, f, lo, hi, t)[j] == Prev(f[q], |b|)
    decreases hi
  {
    if j < |Sel(b, f, lo, hi - 1, t)| {
      r, q := SelSources(b, f, lo, hi - 1, t, i, j);
    } else {
      r := SelSource(b, f, lo, hi - 1, t, i);
      q := hi - 1;
    }
  }

  /** Rows lo..hi-1 hold different rotations of one type that start with ss, in ascending order. */
  ghost predicate Run(b: seq<int>, f: seq<int>, ss: int, lo: nat, hi: nat, low: bool) {
    && Pointers(b, f) && hi <= |f|
    && (forall r :: lo <= r < hi ==> b[f[r]] == ss && Typed(b, f[r], low))
    && (forall r, q :: lo <= r < q < hi ==> f[r] != f[q] && Cmp(b, f[r], f[q], |b|) <= 0)
  }

  /** Predecessors with the same character compare as the rotations do. */
  lemma PrevCmp(b: seq<int>, x: nat, y: nat)
    requires x < |b| && y < |b| && b[Prev(x, |b|)] == b[Prev(y, |b|)]
    ensures Cmp(b, Prev(x, |b|), Prev(y, |b|), |b|) == Cmp(b, x, y, |b|)
    ensures x != y ==> Prev(x, |b|) != Prev(y, |b|)
  {
    CmpTails(b, Prev(x, |b|), Prev(y, |b|));
  }

  /** s lists positions in ascending order of rotations. */
  ghost predicate Rising(b: seq<int>, s: seq<int>) {
    && (forall i :: 0 <= i < |s| ==> 0 <= s[i] < |b|)
    && (forall i, j :: 0 <= i < j < |s| ==> Cmp(b, s[i], s[j], |b|) <= 0)
  }

  /** A selection from a run lies in one small bucket, without repetition and in ascending order. */
  lemma SelOrdered(b: seq<int>, f: seq<int>, ss: int, lo: nat, hi: nat, low: bool, t: int)
    requires Run(b, f, ss, lo, hi, low)
    ensures OfBucket(b, Sel(b, f, lo, hi, t), ALPHABET * t + ss)
    ensures Rising(b, Sel(b, f, lo, hi, t))
  {
    var s := Sel(b, f, lo, hi, t);
    forall i | 0 <= i < |s| ensures 0 <= s[i] < |b| && Pair(b, s[i]) == ALPHABET * t + ss {
      var r := SelSource(b, f, lo, hi, t, i);
    }
    forall i, j | 0 <= i < j < |s| ensures s[i] != s[j] && Cmp(b, s[i], s[j], |b|) <= 0 {
      var r, q := SelSources(b, f, lo, hi, t, i, j);
      PrevCmp(b, f[r], f[q]);
    }
  }

  /* ---- The scans ---- */

  /** Rows of f in lo..hi-1 are in ascending order of rotations. */
  ghost predicate SortedRows(b: seq<int>, f: seq<int>, lo: int, hi: int) {
    && Pointers(b, f) && 0 <= lo && hi <= |f|
    && forall r, q :: lo <= r < q < hi ==> Cmp(b, f[r], f[q], |b|) <= 0
  }

  /** First row of small bucket [t, ss], and the row behind it. */
  function Start(b: seq<int>, t: int, ss: int): nat { Lo(b, ALPHABET * t + ss) }
  function Stop(b: seq<int>, t: int, ss: int): nat { Lo(b, ALPHABET * t + ss + 1) }

  /** First row of big bucket [t]. */
  function Big(b: seq<int>, t: int): nat { Lo(b, ALPHABET * t) }

  /** What Step 1 leaves: all of big bucket [ss] is in order except perhaps small bucket [ss, ss]. */
  ghost predicate Scene(b: seq<int>, f0: seq<int>, ss: int, done: seq<bool>) {
    && |b| > 0 && Within(b, ALPHABET) && Bucketed(b, f0)
    && 0 <= ss < ALPHABET == |done| && !done[ss]
    && SortedRows(b, f0, Big(b, ss), Start(b, ss, ss)) && SortedRows(b, f0, Stop(b, ss, ss), Big(b, ss + 1))
  }

  /** How the rows in question follow each other. */
  lemma Layout(b: seq<int>, ss: int, t: int)
    requires 0 <= ss < ALPHABET
    ensures Big(b, ss) <= Start(b, ss, ss) <= Stop(b, ss, ss) <= Big(b, ss + 1) <= |b|
    ensures Start(b, t, ss) <= Stop(b, t, ss) <= |b|
    ensures t < ss ==> Stop(b, t, ss) <= Big(b, ss)
    ensures t > ss ==> Big(b, ss + 1) <= Start(b, t, ss)
  {
    hide Lo;
    LoGrows(b, ALPHABET * ss, ALPHABET * ss + ss);
    LoGrows(b, ALPHABET * ss + ss, ALPHABET * ss + ss + 1);
    LoGrows(b, ALPHABET * ss + ss + 1, ALPHABET * (ss + 1));
    LoGrows(b, ALPHABET * t + ss, ALPHABET * t + ss + 1);
    if t < ss { LoGrows(b, ALPHABET * t + ss + 1, ALPHABET * ss); }
    if t > ss { LoGrows(b, ALPHABET * (ss + 1), ALPHABET * t + ss); }
  }

  lemma BucketsApart(b: seq<int>, ss: int, t: int, u: int)
    requires 0 <= ss < ALPHABET && t < u
    ensures Stop(b, t, ss) <= Start(b, u, ss)
  {
    LoGrows(b, ALPHABET * t + ss + 1, ALPHABET * u + ss);
  }

  /** Row r belongs to small bucket [t, ss] exactly when f0 says so. */
  lemma RowInSmall(b: seq<int>, f0: seq<int>, ss: int, r: int, t: int)
    requires Bucketed(b, f0) && Within(b, ALPHABET) && 0 <= r < |b| && 0 <= ss < ALPHABET
    ensures 0 <= f0[r] < |b|
    ensures Start(b, t, ss) <= r < Stop(b, t, ss) <==> b[f0[r]] == t && b[Next(f0[r], |b|)] == ss
    ensures Big(b, t) <= r < Big(b, t + 1) <==> b[f0[r]] == t
  {
    RowBucket(b, f0, r, ALPHABET * t + ss);
    RowBucket(b, f0, r, ALPHABET * t);
    RowBucket(b, f0, r, ALPHABET * (t + 1));
  }

  /** Row r of f0 is untouched while the written parts of the small buckets [t, ss] are cs and ce:
      rows below cs[t] and above ce[t]. */
  ghost predicate Written(b: seq<int>, f0: seq<int>, ss: int, done: seq<bool>, cs: seq<int>, ce: seq<int>, r: int)
    requires Bucketed(b, f0) && Within(b, ALPHABET) && 0 <= r < |b| && |done| == |cs| == |ce| == ALPHABET
  {
    var t := b[f0[r]];
    b[Next(f0[r], |b|)] == ss && !done[t] && (r < cs[t] || r > ce[t])
  }

  ghost predicate Untouched(b: seq<int>, f0: seq<int>, f: seq<int>, ss: int, done: seq<bool>, cs: seq<int>,
                            ce: seq<int>) {
    && Bucketed(b, f0) && Within(b, ALPHABET) && |done| == |cs| == |ce| == ALPHABET && |f| == |b|
    && forall r :: 0 <= r < |b| && !Written(b, f0, ss, done, cs, ce, r) ==> f[r] == f0[r]
  }

  /** Both scans at any moment: rows left..j1-1 and j2+1..right-1 of the big bucket have been read;
      the predecessors of the former fill the small buckets [t, ss] from below, up to cs[t] - 1, those
      of the latter from above, down to ce[t] + 1. */
  ghost predicate Scanning(b: seq<int>, f0: seq<int>, f: seq<int>, ss: int, done: seq<bool>,
                           cs: seq<int>, ce: seq<int>, j1: int, j2: int) {
    && Scene(b, f0, ss, done) && Pointers(b, f) && Untouched(b, f0, f, ss, done, cs, ce)
    && Big(b, ss) <= j1 <= cs[ss] <= |b| && -1 <= ce[ss] <= j2 < Big(b, ss + 1) <= |b|
    && (forall t :: 0 <= t < ALPHABET && !done[t] ==> Filled(b, f, ss, cs[t], ce[t], j1, j2, t))
    && Run(b, f, ss, Big(b, ss), cs[ss], true) && Run(b, f, ss, ce[ss] + 1, Big(b, ss + 1), false)
  }

  /** The two written parts of small bucket [t, ss]. */
  ghost predicate Filled(b: seq<int>, f: seq<int>, ss: int, cst: int, cet: int, j1: int, j2: int, t: int)
    requires Pointers(b, f) && 0 <= j1 <= |f| && -1 <= j2 && 0 <= Big(b, ss + 1) <= |f|
  {
    && Start(b, t, ss) <= cst <= cet + 1 <= Stop(b, t, ss) <= |b|
    && f[Start(b, t, ss)..cst] == Sel(b, f, Big(b, ss), j1, t)
    && f[cet + 1..Stop(b, t, ss)] == Sel(b, f, j2 + 1, Big(b, ss + 1), t)
  }

  /** Sub-runs are runs. */
  lemma RunPart(b: seq<int>, f: seq<int>, ss: int, lo: nat, hi: nat, low: bool, lo2: nat, hi2: nat)
    requires Run(b, f, ss, lo, hi, low) && lo <= lo2 && hi2 <= hi
    ensures Run(b, f, ss, lo2, hi2, low)
  {
  }

  /** A low and a high run select different predecessors. */
  lemma SelsDiffer(b: seq<int>, f: seq<int>, ss: int, lo: nat, m: nat, k: nat, hi: nat, t: int, i: nat, j: nat)
    requires Run(b, f, ss, lo, m, true) && Run(b, f, ss, k, hi, false)
    requires i < |Sel(b, f, lo, m, t)| && j < |Sel(b, f, k, hi, t)|
    ensures Sel(b, f, lo, m, t)[i] != Sel(b, f, k, hi, t)[j]
  {
    var r := SelSource(b, f, lo, m, t, i);
    var q := SelSource(b, f, k, hi, t, j);
    hide Sel;
    PrevCmp(b, f[r], f[q]);
    assert Typed(b, f[r], true) && Typed(b, f[q], false);
  }

  lemma RunExtent(b: seq<int>, f: seq<int>, ss: int, lo: nat, hi: nat, low: bool)
    requires Run(b, f, ss, lo, hi, low)
    ensures Pointers(b, f) && hi <= |f|
  {
  }

  /** Selections from the low and from the high run together fit into the small bucket. */
  lemma BothFit(b: seq<int>, f0: seq<int>, f: seq<int>, ss: int, lo: nat, m: nat, k: nat, hi: nat, t: int)
    requires Bucketed(b, f0) && Run(b, f, ss, lo, m, true) && Run(b, f, ss, k, hi, false)
    ensures Pointers(b, f) && m <= |f| && hi <= |f|
    ensures Start(b, t, ss) + |Sel(b, f, lo, m, t)| + |Sel(b, f, k, hi, t)| <= Stop(b, t, ss)
  {
    hide Sel, Run, Bucketed, Lo, Pointers, Cmp, OfBucket;
    RunExtent(b, f, ss, lo, m, true);
    RunExtent(b, f, ss, k, hi, false);
    var s1, s2 := Sel(b, f, lo, m, t), Sel(b, f, k, hi, t);
    SelOrdered(b, f, ss, lo, m, true, t);
    SelOrdered(b, f, ss, k, hi, false, t);
    forall i, j | 0 <= i < |s1| && 0 <= j < |s2| ensures s1[i] != s2[j] {
      SelsDiffer(b, f, ss, lo, m, k, hi, t, i, j);
    }
    OfBucketBoth(b, s1, s2, ALPHABET * t + ss);
    BucketRoom(b, f0, ALPHABET * t + ss, s1 + s2);
  }

  lemma FilledSizes(b: seq<int>, f: seq<int>, ss: int, cst: int, cet: int, j1: int, j2: int, t: int)
    requires Pointers(b, f) && 0 <= j1 <= |f| && -1 <= j2 && 0 <= Big(b, ss + 1) <= |f|
    requires Filled(b, f, ss, cst, cet, j1, j2, t)
    ensures Stop(b, t, ss) <= |b| && cst <= cet + 1
    ensures cst == Start(b, t, ss) + |Sel(b, f, Big(b, ss), j1, t)|
    ensures cet == Stop(b, t, ss) - 1 - |Sel(b, f, j2 + 1, Big(b, ss + 1), t)|
  {
    hide Sel, Lo;
    assert |f[Start(b, t, ss)..cst]| == cst - Start(b, t, ss);
    assert |f[cet + 1..Stop(b, t, ss)]| == Stop(b, t, ss) - cet - 1;
  }

  /** The parts of the scan state that concern one small bucket. */
  lemma ScanParts(b: seq<int>, f0: seq<int>, f: seq<int>, ss: int, done: seq<bool>, cs: seq<int>, ce: seq<int>,
                  j1: int, j2: int, t: int)
    requires Scanning(b, f0, f, ss, done, cs, ce, j1, j2)
    ensures Bucketed(b, f0) && Within(b, ALPHABET) && Pointers(b, f) && |done| == |cs| == |ce| == ALPHABET
    ensures 0 <= ss < ALPHABET && !done[ss]
    ensures Big(b, ss) <= j1 <= cs[ss] <= |b| && -1 <= ce[ss] <= j2 < Big(b, ss + 1) <= |b|
    ensures Run(b, f, ss, Big(b, ss), cs[ss], true) && Run(b, f, ss, ce[ss] + 1, Big(b, ss + 1), false)
    ensures 0 <= t < ALPHABET && !done[t] ==> Filled(b, f, ss, cs[t], ce[t], j1, j2, t)
  {
  }

  /** What the next row of the left scan adds, and that there is room for it. */
  lemma LeftRoom(b: seq<int>, f0: seq<int>, f: seq<int>, ss: int, done: seq<bool>, cs: seq<int>, ce: seq<int>,
                 j1: int, j2: int)
    requires Scanning(b, f0, f, ss, done, cs, ce, j1, j2) && j1 < cs[ss]
    ensures 0 <= j1 < |b| && |f| == |b| && 0 <= f[j1] < |b|
    ensures 0 <= b[Prev(f[j1], |b|)] < ALPHABET == |done| == |cs| == |ce|
    ensures var t := b[Prev(f[j1], |b|)]; !done[t] ==> Start(b, t, ss) <= cs[t] <= ce[t] < Stop(b, t, ss) <= |b|
  {
    hide Scanning, Run, Bucketed, Lo, Sel, Filled;
    ScanParts(b, f0, f, ss, done, cs, ce, j1, j2, 0);
    var t := b[Prev(f[j1], |b|)];
    ScanParts(b, f0, f, ss, done, cs, ce, j1, j2, t);
    RunPart(b, f, ss, Big(b, ss), cs[ss], true, Big(b, ss), j1 + 1);
    RunPart(b, f, ss, ce[ss] + 1, Big(b, ss + 1), false, j2 + 1, Big(b, ss + 1));
    if !done[t] {
      FilledSizes(b, f, ss, cs[t], ce[t], j1, j2, t);
      BothFit(b, f0, f, ss, Big(b, ss), j1 + 1, j2 + 1, Big(b, ss + 1), t);
      SelBack(b, f, Big(b, ss), j1, t);
    }
  }

  lemma RightRoom(b: seq<int>, f0: seq<int>, f: seq<int>, ss: int, done: seq<bool>, cs: seq<int>, ce: seq<int>,
                  j1: int, j2: int)
    requires Scanning(b, f0, f, ss, done, cs, ce, j1, j2) && ce[ss] < j2
    ensures 0 <= j2 < |b| && |f| == |b| && 0 <= f[j2] < |b|
    ensures 0 <= b[Prev(f[j2], |b|)] < ALPHABET == |done| == |cs| == |ce|
    ensures var t := b[Prev(f[j2], |b|)]; !done[t] ==> Start(b, t, ss) <= cs[t] <= ce[t] < Stop(b, t, ss) <= |b|
  {
    hide Scanning, Run, Bucketed, Lo, Sel, Filled;
    ScanParts(b, f0, f, ss, done, cs, ce, j1, j2, 0);
    var t := b[Prev(f[j2], |b|)];
    ScanParts(b, f0, f, ss, done, cs, ce, j1, j2, t);
    RunPart(b, f, ss, Big(b, ss), cs[ss], true, Big(b, ss), j1);
    RunPart(b, f, ss, ce[ss] + 1, Big(b, ss + 1), false, j2, Big(b, ss + 1));
    if !done[t] {
      FilledSizes(b, f, ss, cs[t], ce[t], j1, j2, t);
      BothFit(b, f0, f, ss, Big(b, ss), j1, j2, Big(b, ss + 1), t);
      SelFront(b, f, j2, Big(b, ss + 1), t);
    }
  }

  /* One step of the left scan, conjunct by conjunct. g is f with predecessor k written at row c of
     small bucket [t, ss]. */

  /** Rows of the big bucket that have been read, or of another small bucket, are not row c. */
  lemma LeftElsewhere(b: seq<int>, ss: int, t: int, c: int, j1: int, css: int)
    requires 0 <= ss < ALPHABET && Start(b, t, ss) <= c < Stop(b, t, ss) && (t == ss ==> c == css) && j1 < css
    requires css <= Big(b, ss + 1)
    ensures !(Big(b, ss) <= c < j1 + 1)
    ensures forall u :: u != t ==> !(Start(b, u, ss) <= c < Stop(b, u, ss))
    ensures t != ss ==> !(Big(b, ss) <= c < Big(b, ss + 1))
  {
    Layout(b, ss, t);
    hide Lo;
    forall u | u != t ensures !(Start(b, u, ss) <= c < Stop(b, u, ss)) {
      if u < t { BucketsApart(b, ss, u, t); } else { BucketsApart(b, ss, t, u); }
    }
  }

  /** The left scan is about to write k, the predecessor of row j1, at the front end of [t, ss]. */
  ghost predicate LeftNext(b: seq<int>, f0: seq<int>, f: seq<int>, ss: int, done: seq<bool>, cs: seq<int>, ce: seq<int>,
                           j1: int, j2: int, t: int, k: int) {
    && Scanning(b, f0, f, ss, done, cs, ce, j1, j2) && j1 < cs[ss]
    && 0 <= f[j1] < |b| && k == Prev(f[j1], |b|) && t == b[k] && 0 <= t < ALPHABET && !done[t]
    && Start(b, t, ss) <= cs[t] <= ce[t] < Stop(b, t, ss) <= |b|
  }

  lemma LeftFacts(b: seq<int>, f0: seq<int>, f: seq<int>, ss: int, done: seq<bool>, cs: seq<int>, ce: seq<int>,
                  j1: int, j2: int, t: int, k: int)
    requires LeftNext(b, f0, f, ss, done, cs, ce, j1, j2, t, k)
    ensures Scanning(b, f0, f, ss, done, cs, ce, j1, j2)
    ensures Pointers(b, f) && |done| == |cs| == |ce| == ALPHABET && 0 <= ss < ALPHABET && !done[ss]
    ensures Big(b, ss) <= j1 < cs[ss] <= |b| && -1 <= ce[ss] <= j2 < Big(b, ss + 1) <= |b|
    ensures 0 <= k < |b| && k == Prev(f[j1], |b|) && t == b[k] && 0 <= t < ALPHABET && !done[t]
    ensures Start(b, t, ss) <= cs[t] <= ce[t] < Stop(b, t, ss) <= |b| && Pointers(b, f[cs[t] := k])
    ensures cs[ss] <= ce[ss] + 1 <= Stop(b, ss, ss)
  {
    assert Filled(b, f, ss, cs[ss], ce[ss], j1, j2, ss);
  }

  lemma SliceKept(f: seq<int>, c: int, k: int, lo: int, hi: int)
    requires 0 <= lo <= hi <= |f| && 0 <= c < |f| && !(lo <= c < hi)
    ensures f[c := k][lo..hi] == f[lo..hi]
  {
  }

  lemma SliceGrows(f: seq<int>, c: int, k: int, lo: int, hi: int)
    requires 0 <= lo <= c < hi <= |f|
    ensures f[c := k][lo..c + 1] == f[lo..c] + [k] && f[c := k][c..hi] == [k] + f[c + 1..hi]
  {
  }

  /** The left parts of a small bucket when a row is written behind them: the row's own bucket grows. */
  lemma FilledLeftGrows(b: seq<int>, f: seq<int>, ss: int, cst: int, cet: int, j1: int, j2: int, t: int, k: int)
    requires Pointers(b, f) && 0 <= j1 < |f| && -1 <= j2 && 0 <= Big(b, ss + 1) <= |f| == |b|
    requires Filled(b, f, ss, cst, cet, j1, j2, t)
    requires cst <= cet && Pointers(b, f[cst := k]) && k == Prev(f[j1], |b|) && b[k] == t
    requires Sel(b, f[cst := k], Big(b, ss), j1 + 1, t) == Sel(b, f, Big(b, ss), j1, t) + [k]
    requires Sel(b, f[cst := k], j2 + 1, Big(b, ss + 1), t) == Sel(b, f, j2 + 1, Big(b, ss + 1), t)
    ensures Filled(b, f[cst := k], ss, cst + 1, cet, j1 + 1, j2, t)
  {
    hide Sel, Lo, Big, Start, Stop, Pointers;
    SliceGrows(f, cst, k, Start(b, t, ss), Stop(b, t, ss));
    SliceKept(f, cst, k, cet + 1, Stop(b, t, ss));
  }

  /** Another bucket stays as it is. */
  lemma FilledKept(b: seq<int>, f: seq<int>, ss: int, cst: int, cet: int, j1: int, j2: int, i1: int, i2: int, u: int,
                   c: int, k: int)
    requires Pointers(b, f) && 0 <= j1 <= |f| && -1 <= j2 && 0 <= Big(b, ss + 1) <= |f| == |b|
    requires Filled(b, f, ss, cst, cet, j1, j2, u)
    requires 0 <= c < |f| && !(Start(b, u, ss) <= c < Stop(b, u, ss)) && Pointers(b, f[c := k]) && 0 <= i1 <= |f|
    requires -1 <= i2
    requires Sel(b, f[c := k], Big(b, ss), i1, u) == Sel(b, f, Big(b, ss), j1, u)
    requires Sel(b, f[c := k], i2 + 1, Big(b, ss + 1), u) == Sel(b, f, j2 + 1, Big(b, ss + 1), u)
    ensures Filled(b, f[c := k], ss, cst, cet, i1, i2, u)
  {
    hide Sel, Lo, Big, Start, Stop, Pointers;
    SliceKept(f, c, k, Start(b, u, ss), cst);
    SliceKept(f, c, k, cet + 1, Stop(b, u, ss));
  }

  lemma LeftFilled(b: seq<int>, f0: seq<int>, f: seq<int>, ss: int, done: seq<bool>, cs: seq<int>, ce: seq<int>,
                   j1: int, j2: int, t: int, k: int, u: int)
    requires LeftNext(b, f0, f, ss, done, cs, ce, j1, j2, t, k) && 0 <= u < ALPHABET == |cs| == |ce| == |done|
    requires !done[u]
    requires Pointers(b, f) && Pointers(b, f[cs[t] := k]) && 0 <= j1 < |f| && -1 <= j2 && Big(b, ss + 1) <= |f|
    ensures Filled(b, f[cs[t] := k], ss, if u == t then cs[t] + 1 else cs[u], ce[u], j1 + 1, j2, u)
  {
    hide Scanning, Run, Bucketed, Lo, Start, Stop, Big, Sel, LeftNext, Pointers, Filled;
    LeftFacts(b, f0, f, ss, done, cs, ce, j1, j2, t, k);
    ScanParts(b, f0, f, ss, done, cs, ce, j1, j2, u);
    PointerSize(b, f);
    var c := cs[t];
    var g := f[c := k];
    Layout(b, ss, t);
    Layout(b, ss, u);
    LeftElsewhere(b, ss, t, c, j1, cs[ss]);
    SelSame(b, f, g, Big(b, ss), j1 + 1, u);
    SelBack(b, f, Big(b, ss), j1, u);
    SelSame(b, f, g, j2 + 1, Big(b, ss + 1), u);
    if u == t {
      FilledLeftGrows(b, f, ss, c, ce[t], j1, j2, t, k);
    } else {
      assert Sel(b, f, Big(b, ss), j1, u) + [] == Sel(b, f, Big(b, ss), j1, u);
      FilledKept(b, f, ss, cs[u], ce[u], j1, j2, j1 + 1, j2, u, c, k);
    }
  }

  lemma PointerSize(b: seq<int>, f: seq<int>)
    requires Pointers(b, f)
    ensures |f| == |b|
  {
  }

  lemma LeftUntouched(b: seq<int>, f0: seq<int>, f: seq<int>, ss: int, done: seq<bool>, cs: seq<int>, ce: seq<int>,
                      j1: int, j2: int, t: int, k: int)
    requires LeftNext(b, f0, f, ss, done, cs, ce, j1, j2, t, k)
    ensures Untouched(b, f0, f[cs[t] := k], ss, done, cs[t := cs[t] + 1], ce)
  {
    assert |f0| == |b|;
    hide Bucketed, Lo, Run, Filled, SortedRows;
    var g, cs2 := f[cs[t] := k], cs[t := cs[t] + 1];
    forall r | 0 <= r < |b| && !Written(b, f0, ss, done, cs2, ce, r) ensures g[r] == f0[r] {
      RowInSmall(b, f0, ss, r, t);
      assert !Written(b, f0, ss, done, cs, ce, r);
    }
  }

  /** A row of the big bucket outside [ss, ss] holds what it held before the scans, and its second
      character says on which side it is. */
  lemma OuterRow(b: seq<int>, f0: seq<int>, f: seq<int>, ss: int, done: seq<bool>, cs: seq<int>, ce: seq<int>, r: int)
    requires Untouched(b, f0, f, ss, done, cs, ce) && 0 <= ss < ALPHABET
    requires Big(b, ss) <= r < Start(b, ss, ss) || Stop(b, ss, ss) <= r < Big(b, ss + 1)
    ensures 0 <= r < |b| && f[r] == f0[r] && 0 <= f[r] < |b| && b[f[r]] == ss
    ensures if r < Start(b, ss, ss) then b[Next(f[r], |b|)] < ss else b[Next(f[r], |b|)] > ss
  {
    hide Lo, Cmp;
    Layout(b, ss, ss);
    RowInSmall(b, f0, ss, r, ss);
    RowBucket(b, f0, r, ALPHABET * ss + ss);
    RowBucket(b, f0, r, ALPHABET * ss + ss + 1);
    assert !Written(b, f0, ss, done, cs, ce, r);
  }

  /** Earlier rows of the low run stay below the new element. */
  lemma LeftRow(b: seq<int>, f0: seq<int>, f: seq<int>, ss: int, done: seq<bool>, cs: seq<int>, ce: seq<int>,
                j1: int, j2: int, k: int, r: int)
    requires LeftNext(b, f0, f, ss, done, cs, ce, j1, j2, ss, k) && Big(b, ss) <= r < cs[ss]
    ensures 0 <= f[r] < |b| && 0 <= k < |b| && f[r] != k && Cmp(b, f[r], k, |b|) <= 0
  {
    hide Lo, Sel, LeftNext, Scanning, Bucketed;
    LeftFacts(b, f0, f, ss, done, cs, ce, j1, j2, ss, k);
    ScanParts(b, f0, f, ss, done, cs, ce, j1, j2, ss);
    if r < Start(b, ss, ss) {
      ScanUntouched(b, f0, f, ss, done, cs, ce, j1, j2);
      OuterRow(b, f0, f, ss, done, cs, ce, r);
      CmpTails(b, f[r], k);
    } else {
      var i := r - Start(b, ss, ss);
      assert f[r] == f[Start(b, ss, ss)..cs[ss]][i];
      var q := SelSource(b, f, Big(b, ss), j1, ss, i);
      PrevCmp(b, f[q], f[j1]);
    }
  }

  lemma ScanUntouched(b: seq<int>, f0: seq<int>, f: seq<int>, ss: int, done: seq<bool>, cs: seq<int>, ce: seq<int>,
                      j1: int, j2: int)
    requires Scanning(b, f0, f, ss, done, cs, ce, j1, j2)
    ensures Untouched(b, f0, f, ss, done, cs, ce) && Scene(b, f0, ss, done)
  {
  }

  /** The new element of [ss, ss] continues the low run. */
  lemma LeftRun(b: seq<int>, f0: seq<int>, f: seq<int>, ss: int, done: seq<bool>, cs: seq<int>, ce: seq<int>,
                j1: int, j2: int, k: int)
    requires LeftNext(b, f0, f, ss, done, cs, ce, j1, j2, ss, k)
    ensures Run(b, f[cs[ss] := k], ss, Big(b, ss), cs[ss] + 1, true)
  {
    hide Lo, Sel, LeftNext, Scanning, Untouched, Bucketed, Cmp;
    LeftFacts(b, f0, f, ss, done, cs, ce, j1, j2, ss, k);
    ScanParts(b, f0, f, ss, done, cs, ce, j1, j2, ss);
    var lo, c := Big(b, ss), cs[ss];
    TypedBySecond(b, k, true);
    forall r | lo <= r < c ensures f[r] != k && Cmp(b, f[r], k, |b|) <= 0 {
      LeftRow(b, f0, f, ss, done, cs, ce, j1, j2, k, r);
    }
  }

  /** The left scan reads one row. */
  lemma LeftStep(b: seq<int>, f0: seq<int>, f: seq<int>, ss: int, done: seq<bool>, cs: seq<int>, ce: seq<int>,
                 j1: int, j2: int, t: int, k: int)
    requires LeftNext(b, f0, f, ss, done, cs, ce, j1, j2, t, k)
    ensures Scanning(b, f0, f[cs[t] := k], ss, done, cs[t := cs[t] + 1], ce, j1 + 1, j2)
  {
    hide Bucketed, Lo, Start, Stop, Big, Run, Filled, SortedRows, LeftNext, Scanning, Untouched, Sel, Pointers, Scene;
    LeftFacts(b, f0, f, ss, done, cs, ce, j1, j2, t, k);
    ScanUntouched(b, f0, f, ss, done, cs, ce, j1, j2);
    ScanParts(b, f0, f, ss, done, cs, ce, j1, j2, ss);
    LeftUntouched(b, f0, f, ss, done, cs, ce, j1, j2, t, k);
    var g, cs2 := f[cs[t] := k], cs[t := cs[t] + 1];
    forall u | 0 <= u < ALPHABET && !done[u] ensures Filled(b, g, ss, cs2[u], ce[u], j1 + 1, j2, u) {
      LeftFilled(b, f0, f, ss, done, cs, ce, j1, j2, t, k, u);
    }
    LeftRuns(b, f0, f, ss, done, cs, ce, j1, j2, t, k);
    ScanningIntro(b, f0, g, ss, done, cs2, ce, j1 + 1, j2);
  }

  lemma LeftRuns(b: seq<int>, f0: seq<int>, f: seq<int>, ss: int, done: seq<bool>, cs: seq<int>, ce: seq<int>,
                 j1: int, j2: int, t: int, k: int)
    requires LeftNext(b, f0, f, ss, done, cs, ce, j1, j2, t, k)
    ensures var g, css := f[cs[t] := k], cs[t := cs[t] + 1][ss];
            && j1 + 1 <= css <= |b| && Run(b, g, ss, Big(b, ss), css, true)
            && Run(b, g, ss, ce[ss] + 1, Big(b, ss + 1), false)
  {
    hide Bucketed, Lo, Start, Stop, Big, Run, Filled, SortedRows, LeftNext, Scanning, Untouched, Sel, Pointers, Scene;
    LeftFacts(b, f0, f, ss, done, cs, ce, j1, j2, t, k);
    ScanParts(b, f0, f, ss, done, cs, ce, j1, j2, ss);
    LeftStarts(b, f, ss, cs[ss], ce[ss], j1, j2);
    LeftOfRight(b, ss, t, cs[t], ce[ss]);
    RunSame(b, f, f[cs[t] := k], ss, ce[ss] + 1, Big(b, ss + 1), false);
    if t == ss {
      LeftRun(b, f0, f, ss, done, cs, ce, j1, j2, k);
    } else {
      LeftElsewhere(b, ss, t, cs[t], j1, cs[ss]);
      RunSame(b, f, f[cs[t] := k], ss, Big(b, ss), cs[ss], true);
    }
  }

  lemma LeftStarts(b: seq<int>, f: seq<int>, ss: int, css: int, ces: int, j1: int, j2: int)
    requires Pointers(b, f) && 0 <= j1 <= |f| && -1 <= j2 && 0 <= Big(b, ss + 1) <= |f|
    requires 0 <= ss < ALPHABET && Filled(b, f, ss, css, ces, j1, j2, ss)
    ensures Start(b, ss, ss) <= ces + 1 && css <= Big(b, ss + 1)
  {
    Layout(b, ss, ss);
  }

  lemma LeftOfRight(b: seq<int>, ss: int, t: int, c: int, ces: int)
    requires 0 <= ss < ALPHABET && Start(b, t, ss) <= c < Stop(b, t, ss) && (t == ss ==> c <= ces)
    requires Start(b, ss, ss) <= ces + 1
    ensures !(ces + 1 <= c < Big(b, ss + 1))
  {
    Layout(b, ss, t);
  }

  lemma RunSame(b: seq<int>, f: seq<int>, g: seq<int>, ss: int, lo: nat, hi: nat, low: bool)
    requires Run(b, f, ss, lo, hi, low) && Pointers(b, g) && forall r :: lo <= r < hi ==> g[r] == f[r]
    ensures Run(b, g, ss, lo, hi, low)
  {
  }

  lemma ScanningIntro(b: seq<int>, f0: seq<int>, f: seq<int>, ss: int, done: seq<bool>,
                      cs: seq<int>, ce: seq<int>, j1: int, j2: int)
    requires Scene(b, f0, ss, done) && Pointers(b, f) && Untouched(b, f0, f, ss, done, cs, ce)
    requires |cs| == |ce| == |done| == ALPHABET && 0 <= ss < ALPHABET
    requires Big(b, ss) <= j1 <= cs[ss] <= |b| && -1 <= ce[ss] <= j2 < Big(b, ss + 1) <= |b|
    requires forall t :: 0 <= t < ALPHABET && !done[t] ==> Filled(b, f, ss, cs[t], ce[t], j1, j2, t)
    requires Run(b, f, ss, Big(b, ss), cs[ss], true) && Run(b, f, ss, ce[ss] + 1, Big(b, ss + 1), false)
    ensures Scanning(b, f0, f, ss, done, cs, ce, j1, j2)
  {
  }

  /** A predecessor whose big bucket is already done is left where it is. */
  lemma LeftSkip(b: seq<int>, f0: seq<int>, f: seq<int>, ss: int, done: seq<bool>, cs: seq<int>, ce: seq<int>,
                 j1: int, j2: int)
    requires Scanning(b, f0, f, ss, done, cs, ce, j1, j2) && j1 < cs[ss]
    requires 0 <= f[j1] < |b| && 0 <= b[Prev(f[j1], |b|)] < ALPHABET && done[b[Prev(f[j1], |b|)]]
    ensures Scanning(b, f0, f, ss, done, cs, ce, j1 + 1, j2)
  {
    hide Bucketed, Lo, Run, Filled, SortedRows, Scanning, Untouched, Sel, Pointers, Scene;
    ScanUntouched(b, f0, f, ss, done, cs, ce, j1, j2);
    ScanParts(b, f0, f, ss, done, cs, ce, j1, j2, ss);
    forall u | 0 <= u < ALPHABET && !done[u] ensures Filled(b, f, ss, cs[u], ce[u], j1 + 1, j2, u) {
      ScanParts(b, f0, f, ss, done, cs, ce, j1, j2, u);
      FilledSkips(b, f, ss, cs[u], ce[u], j1, j2, u);
    }
    ScanningIntro(b, f0, f, ss, done, cs, ce, j1 + 1, j2);
  }

  /** Rows that contribute nothing to a bucket do not change what it must hold. */
  lemma FilledSkips(b: seq<int>, f: seq<int>, ss: int, cst: int, cet: int, j1: int, j2: int, t: int)
    requires Pointers(b, f) && 0 <= j1 <= |f| && -1 <= j2 && 0 <= Big(b, ss + 1) <= |f|
    requires Filled(b, f, ss, cst, cet, j1, j2, t) && Big(b, ss) <= j1
    ensures j1 < |f| && b[Prev(f[j1], |b|)] != t ==> Filled(b, f, ss, cst, cet, j1 + 1, j2, t)
    ensures 0 <= j2 < Big(b, ss + 1) && b[Prev(f[j2], |b|)] != t ==> Filled(b, f, ss, cst, cet, j1, j2 - 1, t)
  {
    hide Lo, Sel;
    if j1 < |f| { SelBack(b, f, Big(b, ss), j1, t); }
    if 0 <= j2 < Big(b, ss + 1) { SelFront(b, f, j2, Big(b, ss + 1), t); }
  }

  /* One step of the right scan, the mirror image. */

  /** The right scan is about to write k, the predecessor of row j2, at the back end of [t, ss]. */
  ghost predicate RightNext(b: seq<int>, f0: seq<int>, f: seq<int>, ss: int, done: seq<bool>, cs: seq<int>,
                            ce: seq<int>, j1: int, j2: int, t: int, k: int) {
    && Scanning(b, f0, f, ss, done, cs, ce, j1, j2) && ce[ss] < j2
    && 0 <= f[j2] < |b| && k == Prev(f[j2], |b|) && t == b[k] && 0 <= t < ALPHABET && !done[t]
    && Start(b, t, ss) <= cs[t] <= ce[t] < Stop(b, t, ss) <= |b|
  }

  lemma RightFacts(b: seq<int>, f0: seq<int>, f: seq<int>, ss: int, done: seq<bool>, cs: seq<int>, ce: seq<int>,
                   j1: int, j2: int, t: int, k: int)
    requires RightNext(b, f0, f, ss, done, cs, ce, j1, j2, t, k)
    ensures Scanning(b, f0, f, ss, done, cs, ce, j1, j2)
    ensures Pointers(b, f) && |done| == |cs| == |ce| == ALPHABET && 0 <= ss < ALPHABET && !done[ss]
    ensures Big(b, ss) <= j1 <= cs[ss] <= |b| && -1 <= ce[ss] < j2 < Big(b, ss + 1) <= |b|
    ensures 0 <= k < |b| && k == Prev(f[j2], |b|) && t == b[k] && 0 <= t < ALPHABET && !done[t]
    ensures Start(b, t, ss) <= cs[t] <= ce[t] < Stop(b, t, ss) <= |b| && Pointers(b, f[ce[t] := k])
    ensures Start(b, ss, ss) <= cs[ss] <= ce[ss] + 1
  {
    assert Filled(b, f, ss, cs[ss], ce[ss], j1, j2, ss);
  }

  lemma RightElsewhere(b: seq<int>, ss: int, t: int, c: int, j2: int, ces: int)
    requires 0 <= ss < ALPHABET && Start(b, t, ss) <= c < Stop(b, t, ss) && (t == ss ==> c == ces) && ces < j2
    requires Big(b, ss) <= ces + 1
    ensures !(j2 <= c < Big(b, ss + 1))
    ensures forall u :: u != t ==> !(Start(b, u, ss) <= c < Stop(b, u, ss))
    ensures t != ss ==> !(Big(b, ss) <= c < Big(b, ss + 1))
  {
    Layout(b, ss, t);
    hide Lo;
    forall u | u != t ensures !(Start(b, u, ss) <= c < Stop(b, u, ss)) {
      if u < t { BucketsApart(b, ss, u, t); } else { BucketsApart(b, ss, t, u); }
    }
  }

  lemma RightOfLeft(b: seq<int>, ss: int, t: int, c: int, css: int)
    requires 0 <= ss < ALPHABET && Start(b, t, ss) <= c < Stop(b, t, ss) && (t == ss ==> css <= c)
    requires css <= Stop(b, ss, ss)
    ensures !(Big(b, ss) <= c < css)
  {
    Layout(b, ss, t);
  }

  lemma FilledRightGrows(b: seq<int>, f: seq<int>, ss: int, cst: int, cet: int, j1: int, j2: int, t: int, k: int)
    requires Pointers(b, f) && 0 <= j1 <= |f| && 0 <= j2 && 0 <= Big(b, ss + 1) <= |f| == |b|
    requires Filled(b, f, ss, cst, cet, j1, j2, t)
    requires cst <= cet && Pointers(b, f[cet := k])
    requires Sel(b, f[cet := k], Big(b, ss), j1, t) == Sel(b, f, Big(b, ss), j1, t)
    requires Sel(b, f[cet := k], j2, Big(b, ss + 1), t) == [k] + Sel(b, f, j2 + 1, Big(b, ss + 1), t)
    ensures Filled(b, f[cet := k], ss, cst, cet - 1, j1, j2 - 1, t)
  {
    hide Sel, Lo, Big, Start, Stop, Pointers;
    SliceGrows(f, cet, k, Start(b, t, ss), Stop(b, t, ss));
    SliceKept(f, cet, k, Start(b, t, ss), cst);
  }

  /** The new row is outside the parts read, and the row read is u's or is not. */
  lemma RightSels(b: seq<int>, f: seq<int>, ss: int, j1: int, j2: int, u: int, c: int, k: int)
    requires Pointers(b, f) && 0 <= c < |f| && Pointers(b, f[c := k]) && 0 <= k < |b| && 0 <= j1 <= |f|
    requires 0 <= j2 < Big(b, ss + 1) <= |f|
    requires k == Prev(f[j2], |b|) && !(Big(b, ss) <= c < j1) && !(j2 <= c < Big(b, ss + 1))
    ensures Sel(b, f[c := k], Big(b, ss), j1, u) == Sel(b, f, Big(b, ss), j1, u)
    ensures Sel(b, f[c := k], j2, Big(b, ss + 1), u) ==
            (if b[k] == u then [k] else []) + Sel(b, f, j2 + 1, Big(b, ss + 1), u)
  {
    hide Lo, Big, Sel, Pointers;
    SelSame(b, f, f[c := k], j2, Big(b, ss + 1), u);
    SelFront(b, f, j2, Big(b, ss + 1), u);
    SelSame(b, f, f[c := k], Big(b, ss), j1, u);
  }

  lemma RightFilled(b: seq<int>, f0: seq<int>, f: seq<int>, ss: int, done: seq<bool>, cs: seq<int>, ce: seq<int>,
                    j1: int, j2: int, t: int, k: int, u: int)
    requires RightNext(b, f0, f, ss, done, cs, ce, j1, j2, t, k) && 0 <= u < ALPHABET == |cs| == |ce| == |done|
    requires !done[u]
    requires Pointers(b, f) && Pointers(b, f[ce[t] := k]) && 0 <= j1 <= |f| && 0 <= j2 && Big(b, ss + 1) <= |f|
    ensures Filled(b, f[ce[t] := k], ss, cs[u], if u == t then ce[t] - 1 else ce[u], j1, j2 - 1, u)
  {
    hide Scanning, Run, Bucketed, Lo, Start, Stop, Big, Sel, RightNext, Pointers, Filled;
    RightFacts(b, f0, f, ss, done, cs, ce, j1, j2, t, k);
    ScanParts(b, f0, f, ss, done, cs, ce, j1, j2, u);
    PointerSize(b, f);
    var c := ce[t];
    var g := f[c := k];
    Layout(b, ss, t);
    Layout(b, ss, u);
    RightElsewhere(b, ss, t, c, j2, ce[ss]);
    ScanParts(b, f0, f, ss, done, cs, ce, j1, j2, ss);
    RightOfLeft(b, ss, t, c, cs[ss]);
    RightSels(b, f, ss, j1, j2, u, c, k);
    if u == t {
      FilledRightGrows(b, f, ss, cs[t], c, j1, j2, t, k);
    } else {
      assert [] + Sel(b, f, j2 + 1, Big(b, ss + 1), u) == Sel(b, f, j2 + 1, Big(b, ss + 1), u);
      FilledKept(b, f, ss, cs[u], ce[u], j1, j2, j1, j2 - 1, u, c, k);
    }
  }

  lemma RightUntouched(b: seq<int>, f0: seq<int>, f: seq<int>, ss: int, done: seq<bool>, cs: seq<int>, ce: seq<int>,
                       j1: int, j2: int, t: int, k: int)
    requires RightNext(b, f0, f, ss, done, cs, ce, j1, j2, t, k)
    ensures Untouched(b, f0, f[ce[t] := k], ss, done, cs, ce[t := ce[t] - 1])
  {
    assert |f0| == |b|;
    hide Bucketed, Lo, Run, Filled, SortedRows;
    var g, ce2 := f[ce[t] := k], ce[t := ce[t] - 1];
    forall r | 0 <= r < |b| && !Written(b, f0, ss, done, cs, ce2, r) ensures g[r] == f0[r] {
      RowInSmall(b, f0, ss, r, t);
      assert !Written(b, f0, ss, done, cs, ce, r);
    }
  }

  lemma RightRow(b: seq<int>, f0: seq<int>, f: seq<int>, ss: int, done: seq<bool>, cs: seq<int>, ce: seq<int>,
                 j1: int, j2: int, k: int, r: int)
    requires RightNext(b, f0, f, ss, done, cs, ce, j1, j2, ss, k) && ce[ss] < r < Big(b, ss + 1)
    ensures 0 <= r < |f| && 0 <= f[r] < |b| && 0 <= k < |b| && f[r] != k && Cmp(b, k, f[r], |b|) <= 0
  {
    hide Lo, Sel, RightNext, Scanning, Bucketed;
    RightFacts(b, f0, f, ss, done, cs, ce, j1, j2, ss, k);
    ScanParts(b, f0, f, ss, done, cs, ce, j1, j2, ss);
    if r >= Stop(b, ss, ss) {
      ScanUntouched(b, f0, f, ss, done, cs, ce, j1, j2);
      OuterRow(b, f0, f, ss, done, cs, ce, r);
      CmpTails(b, k, f[r]);
    } else {
      var i := r - (ce[ss] + 1);
      assert f[r] == f[ce[ss] + 1..Stop(b, ss, ss)][i];
      var q := SelSource(b, f, j2 + 1, Big(b, ss + 1), ss, i);
      PrevCmp(b, f[j2], f[q]);
    }
  }

  lemma RightRun(b: seq<int>, f0: seq<int>, f: seq<int>, ss: int, done: seq<bool>, cs: seq<int>, ce: seq<int>,
                 j1: int, j2: int, k: int)
    requires RightNext(b, f0, f, ss, done, cs, ce, j1, j2, ss, k)
    ensures 0 <= ce[ss] && Run(b, f[ce[ss] := k], ss, ce[ss], Big(b, ss + 1), false)
  {
    hide Lo, Sel, RightNext, Scanning, Untouched, Bucketed, Cmp;
    RightFacts(b, f0, f, ss, done, cs, ce, j1, j2, ss, k);
    ScanParts(b, f0, f, ss, done, cs, ce, j1, j2, ss);
    TypedBySecond(b, k, false);
    forall r | ce[ss] < r < Big(b, ss + 1) ensures f[r] != k && Cmp(b, k, f[r], |b|) <= 0 {
      RightRow(b, f0, f, ss, done, cs, ce, j1, j2, k, r);
    }
  }

  /** The right scan reads one row. */
  lemma RightStep(b: seq<int>, f0: seq<int>, f: seq<int>, ss: int, done: seq<bool>, cs: seq<int>, ce: seq<int>,
                  j1: int, j2: int, t: int, k: int)
    requires RightNext(b, f0, f, ss, done, cs, ce, j1, j2, t, k)
    ensures Scanning(b, f0, f[ce[t] := k], ss, done, cs, ce[t := ce[t] - 1], j1, j2 - 1)
  {
    hide Bucketed, Lo, Start, Stop, Big, Run, Filled, SortedRows, RightNext, Scanning, Untouched, Sel, Pointers, Scene;
    RightFacts(b, f0, f, ss, done, cs, ce, j1, j2, t, k);
    ScanUntouched(b, f0, f, ss, done, cs, ce, j1, j2);
    ScanParts(b, f0, f, ss, done, cs, ce, j1, j2, ss);
    RightUntouched(b, f0, f, ss, done, cs, ce, j1, j2, t, k);
    var g, ce2 := f[ce[t] := k], ce[t := ce[t] - 1];
    forall u | 0 <= u < ALPHABET && !done[u] ensures Filled(b, g, ss, cs[u], ce2[u], j1, j2 - 1, u) {
      RightFilled(b, f0, f, ss, done, cs, ce, j1, j2, t, k, u);
    }
    RightRuns(b, f0, f, ss, done, cs, ce, j1, j2, t, k);
    ScanningIntro(b, f0, g, ss, done, cs, ce2, j1, j2 - 1);
  }

  lemma RightRuns(b: seq<int>, f0: seq<int>, f: seq<int>, ss: int, done: seq<bool>, cs: seq<int>, ce: seq<int>,
                  j1: int, j2: int, t: int, k: int)
    requires RightNext(b, f0, f, ss, done, cs, ce, j1, j2, t, k)
    ensures var g, ces := f[ce[t] := k], ce[t := ce[t] - 1][ss];
            && -1 <= ces <= j2 - 1 && Run(b, g, ss, Big(b, ss), cs[ss], true)
            && Run(b, g, ss, ces + 1, Big(b, ss + 1), false)
  {
    hide Bucketed, Lo, Start, Stop, Big, Run, Filled, SortedRows, RightNext, Scanning, Untouched, Sel, Pointers, Scene;
    RightFacts(b, f0, f, ss, done, cs, ce, j1, j2, t, k);
    ScanParts(b, f0, f, ss, done, cs, ce, j1, j2, ss);
    RightStops(b, f, ss, cs[ss], ce[ss], j1, j2);
    RightOfLeft(b, ss, t, ce[t], cs[ss]);
    RunSame(b, f, f[ce[t] := k], ss, Big(b, ss), cs[ss], true);
    if t == ss {
      RightRun(b, f0, f, ss, done, cs, ce, j1, j2, k);
    } else {
      RightElsewhere(b, ss, t, ce[t], j2, ce[ss]);
      RunSame(b, f, f[ce[t] := k], ss, ce[ss] + 1, Big(b, ss + 1), false);
    }
  }

  lemma RightStops(b: seq<int>, f: seq<int>, ss: int, css: int, ces: int, j1: int, j2: int)
    requires Pointers(b, f) && 0 <= j1 <= |f| && -1 <= j2 && 0 <= Big(b, ss + 1) <= |f|
    requires Filled(b, f, ss, css, ces, j1, j2, ss)
    ensures css <= Stop(b, ss, ss)
  {
  }

  lemma RightSkip(b: seq<int>, f0: seq<int>, f: seq<int>, ss: int, done: seq<bool>, cs: seq<int>, ce: seq<int>,
                  j1: int, j2: int)
    requires Scanning(b, f0, f, ss, done, cs, ce, j1, j2) && ce[ss] < j2
    requires 0 <= f[j2] < |b| && 0 <= b[Prev(f[j2], |b|)] < ALPHABET && done[b[Prev(f[j2], |b|)]]
    ensures Scanning(b, f0, f, ss, done, cs, ce, j1, j2 - 1)
  {
    hide Bucketed, Lo, Run, Filled, SortedRows, Scanning, Untouched, Sel, Pointers, Scene;
    ScanUntouched(b, f0, f, ss, done, cs, ce, j1, j2);
    ScanParts(b, f0, f, ss, done, cs, ce, j1, j2, ss);
    forall u | 0 <= u < ALPHABET && !done[u] ensures Filled(b, f, ss, cs[u], ce[u], j1, j2 - 1, u) {
      ScanParts(b, f0, f, ss, done, cs, ce, j1, j2, u);
      FilledSkips(b, f, ss, cs[u], ce[u], j1, j2, u);
    }
    ScanningIntro(b, f0, f, ss, done, cs, ce, j1, j2 - 1);
  }

  /* ---- Both scans done ---- */

  lemma ScanStartRuns(b: seq<int>, f0: seq<int>, ss: int, done: seq<bool>, cs: seq<int>, ce: seq<int>)
    requires Scene(b, f0, ss, done) && Untouched(b, f0, f0, ss, done, cs, ce)
    ensures Run(b, f0, ss, Big(b, ss), Start(b, ss, ss), true) && Run(b, f0, ss, Stop(b, ss, ss), Big(b, ss + 1), false)
  {
    hide Cmp, Start, Stop, Big, Untouched;
    Layout(b, ss, ss);
    var lo, m, k, hi := Big(b, ss), Start(b, ss, ss), Stop(b, ss, ss), Big(b, ss + 1);
    forall r | lo <= r < m || k <= r < hi
      ensures b[f0[r]] == ss && (r < m ==> Typed(b, f0[r], true)) && (r >= k ==> Typed(b, f0[r], false))
    {
      OuterRow(b, f0, f0, ss, done, cs, ce, r);
      TypedBySecond(b, f0[r], true);
    }
  }

  lemma ScanStart(b: seq<int>, f0: seq<int>, ss: int, done: seq<bool>, cs: seq<int>, ce: seq<int>)
    requires Scene(b, f0, ss, done) && |cs| == |ce| == ALPHABET
    requires forall t :: 0 <= t < ALPHABET ==> cs[t] == Start(b, t, ss) && ce[t] == Stop(b, t, ss) - 1
    ensures Scanning(b, f0, f0, ss, done, cs, ce, Big(b, ss), Big(b, ss + 1) - 1)
  {
    Layout(b, ss, ss);
    assert Untouched(b, f0, f0, ss, done, cs, ce);
    ScanStartRuns(b, f0, ss, done, cs, ce);
    hide Lo, Cmp, Start, Stop, Big, Sel, Run, Untouched, Scene, SortedRows, Bucketed, IsPerm;
    var lo: int, hi: int := Big(b, ss), Big(b, ss + 1);
    forall t | 0 <= t < ALPHABET ensures Filled(b, f0, ss, cs[t], ce[t], lo, hi - 1, t) {
      Layout(b, ss, t);
      SelNone(b, f0, lo, t);
      SelNone(b, f0, hi, t);
    }
    ScanningIntro(b, f0, f0, ss, done, cs, ce, lo, hi - 1);
  }

  lemma SelNone(b: seq<int>, f: seq<int>, lo: nat, t: int)
    requires Pointers(b, f) && lo <= |f|
    ensures Sel(b, f, lo, lo, t) == []
  {
  }

  /** Both scans have run into the rows written last. */
  ghost predicate Scanned(b: seq<int>, f0: seq<int>, f: seq<int>, ss: int, done: seq<bool>, cs: seq<int>,
                          ce: seq<int>) {
    && |done| == |cs| == |ce| == ALPHABET && 0 <= ss < ALPHABET
    && Scanning(b, f0, f, ss, done, cs, ce, cs[ss], ce[ss])
  }

  /** A row of the big bucket before or behind [ss, ss] still holds what belongs there. */
  lemma OuterKept(b: seq<int>, f0: seq<int>, f: seq<int>, ss: int, done: seq<bool>, cs: seq<int>, ce: seq<int>,
                  y: nat) returns (r: int)
    requires Untouched(b, f0, f, ss, done, cs, ce) && 0 <= ss < ALPHABET && y < |b| && b[y] == ss
    requires b[Next(y, |b|)] != ss
    ensures 0 <= r < |f| && f[r] == y
    ensures b[Next(y, |b|)] < ss ==> Big(b, ss) <= r < Start(b, ss, ss)
    ensures b[Next(y, |b|)] > ss ==> Stop(b, ss, ss) <= r < Big(b, ss + 1)
  {
    hide Lo, Cmp;
    r := RowOf(b, f0, y);
    RowInSmall(b, f0, ss, r, ss);
    RowBucket(b, f0, r, ALPHABET * ss + ss);
    RowBucket(b, f0, r, ALPHABET * ss + ss + 1);
    assert !Written(b, f0, ss, done, cs, ce, r);
  }

  lemma InPart(f: seq<int>, lo: int, hi: int, y: int) returns (r: int)
    requires 0 <= lo <= hi <= |f| && y in f[lo..hi]
    ensures lo <= r < hi && f[r] == y
  {
    var i :| 0 <= i < |f[lo..hi]| && f[lo..hi][i] == y;
    r := lo + i;
  }

  /** Comparing a rotation with its successor either ends at once or moves on to the successor. */
  lemma FirstChange(b: seq<int>, y: nat, k: nat)
    requires y < |b|
    ensures var z := Next(y, |b|);
            && (Cmp(b, y, z, k) > 0 ==> k > 0 && b[z] <= b[y] && (b[z] == b[y] ==> Cmp(b, z, Next(z, |b|), k - 1) > 0))
            && (Cmp(b, y, z, k) < 0 ==> k > 0 && b[z] >= b[y] && (b[z] == b[y] ==> Cmp(b, z, Next(z, |b|), k - 1) < 0))
  {
  }

  /** The left scan reaches every low rotation of the big bucket: from the one whose second character
      differs, predecessor by predecessor. */
  lemma {:induction false} LowReached(b: seq<int>, f0: seq<int>, f: seq<int>, ss: int, done: seq<bool>, cs: seq<int>,
                                      ce: seq<int>, y: nat, k: nat) returns (r: int)
    requires Scanned(b, f0, f, ss, done, cs, ce) && y < |b| && b[y] == ss && Cmp(b, y, Next(y, |b|), k) > 0
    ensures Big(b, ss) <= r < cs[ss] <= |f| == |b| && f[r] == y
    decreases k
  {
    hide Lo, Cmp, Sel, Untouched, Scene, Run, Bucketed, Scanning, Start, Stop, Big;
    var z := Next(y, |b|);
    FirstChange(b, y, k);
    ScanParts(b, f0, f, ss, done, cs, ce, cs[ss], ce[ss], ss);
    if b[z] < ss {
      ScanUntouched(b, f0, f, ss, done, cs, ce, cs[ss], ce[ss]);
      r := OuterKept(b, f0, f, ss, done, cs, ce, y);
    } else {
      var q := LowReached(b, f0, f, ss, done, cs, ce, z, k - 1);
      SelMember(b, f, Big(b, ss), cs[ss], q);
      Layout(b, ss, ss);
      r := InPart(f, Start(b, ss, ss), cs[ss], y);
    }
  }

  lemma {:induction false} HighReached(b: seq<int>, f0: seq<int>, f: seq<int>, ss: int, done: seq<bool>, cs: seq<int>,
                                       ce: seq<int>, y: nat, k: nat) returns (r: int)
    requires Scanned(b, f0, f, ss, done, cs, ce) && y < |b| && b[y] == ss && Cmp(b, y, Next(y, |b|), k) < 0
    ensures -1 <= ce[ss] < r < Big(b, ss + 1) <= |f| == |b| && f[r] == y
    decreases k
  {
    hide Lo, Cmp, Sel, Untouched, Scene, Run, Bucketed, Scanning, Start, Stop, Big;
    var z := Next(y, |b|);
    FirstChange(b, y, k);
    ScanParts(b, f0, f, ss, done, cs, ce, cs[ss], ce[ss], ss);
    if b[z] > ss {
      ScanUntouched(b, f0, f, ss, done, cs, ce, cs[ss], ce[ss]);
      r := OuterKept(b, f0, f, ss, done, cs, ce, y);
    } else {
      var q := HighReached(b, f0, f, ss, done, cs, ce, z, k - 1);
      SelMember(b, f, ce[ss] + 1, Big(b, ss + 1), q);
      Layout(b, ss, ss);
      r := InPart(f, ce[ss] + 1, Stop(b, ss, ss), y);
    }
  }

  /** In a block of more than one character, every position of small bucket [t, ss] was selected. */
  lemma AllSelected(b: seq<int>, f0: seq<int>, f: seq<int>, ss: int, done: seq<bool>, cs: seq<int>, ce: seq<int>,
                    t: int, x: nat)
    requires Scanned(b, f0, f, ss, done, cs, ce) && !Flat(b) && x < |b| && Pair(b, x) == ALPHABET * t + ss
    requires Within(b, ALPHABET)
    ensures Pointers(b, f) && 0 <= cs[ss] <= |f| && -1 <= ce[ss] && Big(b, ss + 1) <= |f|
    ensures x in Sel(b, f, Big(b, ss), cs[ss], t) || x in Sel(b, f, ce[ss] + 1, Big(b, ss + 1), t)
  {
    hide Lo, Cmp, Sel, Untouched, Scene, Run, Bucketed, Scanning, Start, Stop, Big, Flat, Typed, Pair;
    var n := |b|;
    var y := Next(x, n);
    ScanParts(b, f0, f, ss, done, cs, ce, cs[ss], ce[ss], ss);
    PairIs(b, x, t, ss);
    TypedUnlessFlat(b, y);
    TypedCmp(b, y);
    if Typed(b, y, true) {
      var r := LowReached(b, f0, f, ss, done, cs, ce, y, n);
      SelMember(b, f, Big(b, ss), cs[ss], r);
    } else {
      var r := HighReached(b, f0, f, ss, done, cs, ce, y, n);
      SelMember(b, f, ce[ss] + 1, Big(b, ss + 1), r);
    }
  }

  lemma PairIs(b: seq<int>, x: nat, t: int, ss: int)
    requires Within(b, ALPHABET) && x < |b| && 0 <= ss < ALPHABET && Pair(b, x) == ALPHABET * t + ss
    ensures b[x] == t && b[Next(x, |b|)] == ss && Prev(Next(x, |b|), |b|) == x
  {
  }

  lemma TypedCmp(b: seq<int>, y: nat)
    requires y < |b|
    ensures Typed(b, y, true) ==> Cmp(b, y, Next(y, |b|), |b|) > 0
    ensures Typed(b, y, false) ==> Cmp(b, y, Next(y, |b|), |b|) < 0
  {
  }

  /** So the two written parts of [t, ss] meet: the check the C code makes for [ss, ss]. */
  lemma PartsMeet(b: seq<int>, f0: seq<int>, f: seq<int>, ss: int, done: seq<bool>, cs: seq<int>, ce: seq<int>, t: int)
    requires Scanned(b, f0, f, ss, done, cs, ce) && !Flat(b) && 0 <= t < ALPHABET && !done[t]
    ensures cs[t] == ce[t] + 1
  {
    hide Lo, Cmp, Sel, Untouched, Scene, Run, Bucketed, Scanning, Start, Stop, Big, Flat, Typed, Pair, Filled;
    ScanParts(b, f0, f, ss, done, cs, ce, cs[ss], ce[ss], t);
    FilledSizes(b, f, ss, cs[t], ce[t], cs[ss], ce[ss], t);
    var s1, s2 := Sel(b, f, Big(b, ss), cs[ss], t), Sel(b, f, ce[ss] + 1, Big(b, ss + 1), t);
    forall x | 0 <= x < |b| && Pair(b, x) == ALPHABET * t + ss ensures x in s1 + s2 {
      AllSelected(b, f0, f, ss, done, cs, ce, t, x);
    }
    BucketFull(b, f0, ALPHABET * t + ss, s1 + s2);
    StartStop(b, t, ss);
  }

  lemma StartStop(b: seq<int>, t: int, ss: int)
    ensures Start(b, t, ss) == Lo(b, ALPHABET * t + ss) && Stop(b, t, ss) == Lo(b, ALPHABET * t + ss + 1)
  {
  }

  /** A low selection stays below a high one. */
  lemma LowSelBelow(b: seq<int>, f: seq<int>, ss: int, lo: nat, m: nat, k: nat, hi: nat, t: int, i: nat, j: nat)
    requires Run(b, f, ss, lo, m, true) && Run(b, f, ss, k, hi, false)
    requires i < |Sel(b, f, lo, m, t)| && j < |Sel(b, f, k, hi, t)|
    ensures var x, y := Sel(b, f, lo, m, t)[i], Sel(b, f, k, hi, t)[j];
            0 <= x < |b| && 0 <= y < |b| && Cmp(b, x, y, |b|) <= 0
  {
    var r := SelSource(b, f, lo, m, t, i);
    var q := SelSource(b, f, k, hi, t, j);
    hide Sel, Cmp, Typed;
    assert Typed(b, f[r], true) && Typed(b, f[q], false);
    LowBelowHigh(b, f[r], f[q], |b|);
    PrevCmp(b, f[r], f[q]);
  }

  /** The synthesised bucket: the right positions, each once, in ascending order of rotations. */
  lemma BucketDone(b: seq<int>, f0: seq<int>, f: seq<int>, ss: int, done: seq<bool>, cs: seq<int>, ce: seq<int>, t: int)
    requires Scanned(b, f0, f, ss, done, cs, ce) && !Flat(b) && 0 <= t < ALPHABET && !done[t]
    ensures Start(b, t, ss) <= Stop(b, t, ss) <= |f|
    ensures OfBucket(b, f[Start(b, t, ss)..Stop(b, t, ss)], ALPHABET * t + ss)
    ensures Rising(b, f[Start(b, t, ss)..Stop(b, t, ss)])
  {
    hide Lo, Cmp, Sel, Untouched, Scene, Run, Bucketed, Scanning, Start, Stop, Big, Flat, Typed, Pair, OfBucket, Rising;
    ScanParts(b, f0, f, ss, done, cs, ce, cs[ss], ce[ss], t);
    PartsMeet(b, f0, f, ss, done, cs, ce, t);
    var lo, m, k, hi := Big(b, ss), cs[ss], ce[ss] + 1, Big(b, ss + 1);
    var s1, s2 := Sel(b, f, lo, m, t), Sel(b, f, k, hi, t);
    assert f[Start(b, t, ss)..Stop(b, t, ss)] == s1 + s2;
    SelOrdered(b, f, ss, lo, m, true, t);
    SelOrdered(b, f, ss, k, hi, false, t);
    forall i, j | 0 <= i < |s1| && 0 <= j < |s2|
      ensures s1[i] != s2[j] && 0 <= s1[i] < |b| && 0 <= s2[j] < |b| && Cmp(b, s1[i], s2[j], |b|) <= 0
    {
      SelsDiffer(b, f, ss, lo, m, k, hi, t, i, j);
      LowSelBelow(b, f, ss, lo, m, k, hi, t, i, j);
    }
    OfBucketBoth(b, s1, s2, ALPHABET * t + ss);
    RisingBoth(b, s1, s2);
  }

  lemma RisingBoth(b: seq<int>, s1: seq<int>, s2: seq<int>)
    requires Rising(b, s1) && Rising(b, s2)
    requires forall i, j :: 0 <= i < |s1| && 0 <= j < |s2| ==>
               0 <= s1[i] < |b| && 0 <= s2[j] < |b| && Cmp(b, s1[i], s2[j], |b|) <= 0
    ensures Rising(b, s1 + s2)
  {
    hide Cmp;
    var s := s1 + s2;
    forall i, j | 0 <= i < j < |s| ensures 0 <= s[i] < |b| && 0 <= s[j] < |b| && Cmp(b, s[i], s[j], |b|) <= 0 {
      if j < |s1| {
        assert s[i] == s1[i] && s[j] == s1[j];
      } else if i < |s1| {
        assert s[i] == s1[i] && s[j] == s2[j - |s1|];
      } else {
        assert s[i] == s2[i - |s1|] && s[j] == s2[j - |s1|];
      }
    }
  }

  /** What Step 2 achieves: every small bucket [t, ss] of a big bucket not yet done is in order, all
      other rows are as before, and all positions are still in their buckets. */
  ghost predicate Synthesised(b: seq<int>, f0: seq<int>, f: seq<int>, ss: int, done: seq<bool>) {
    && Bucketed(b, f0) && Within(b, ALPHABET) && Bucketed(b, f) && |done| == ALPHABET && |f| == |b|
    && (forall r :: 0 <= r < |b| && (b[Next(f0[r], |b|)] != ss || done[b[f0[r]]]) ==> f[r] == f0[r])
    && (forall t :: 0 <= t < ALPHABET && !done[t] ==> SortedRows(b, f, Start(b, t, ss), Stop(b, t, ss)))
  }

  /** Row r holds a position of its own bucket, and no other row holds the same. */
  lemma RowGood(b: seq<int>, f0: seq<int>, f: seq<int>, ss: int, done: seq<bool>, cs: seq<int>, ce: seq<int>, r: int)
    requires Scanned(b, f0, f, ss, done, cs, ce) && !Flat(b) && 0 <= r < |b|
    ensures |f| == |f0| == |b| && 0 <= f[r] < |b| && 0 <= f0[r] < |b| && Pair(b, f[r]) == Pair(b, f0[r])
    ensures 0 <= b[f0[r]] < ALPHABET == |done| && (b[Next(f0[r], |b|)] != ss || done[b[f0[r]]] ==> f[r] == f0[r])
    ensures Lo(b, Pair(b, f[r])) <= r < Lo(b, Pair(b, f[r]) + 1)
  {
    hide Cmp, Sel, Scanning, Run, Flat, Filled, SortedRows, Lo;
    ScanUntouched(b, f0, f, ss, done, cs, ce, cs[ss], ce[ss]);
    RowBucket(b, f0, r, Pair(b, f0[r]));
    var t := b[f0[r]];
    if b[Next(f0[r], |b|)] == ss && !done[t] {
      BucketDone(b, f0, f, ss, done, cs, ce, t);
      RowInSmall(b, f0, ss, r, t);
      assert f[r] == f[Start(b, t, ss)..Stop(b, t, ss)][r - Start(b, t, ss)];
    } else {
      assert !Written(b, f0, ss, done, cs, ce, r);
    }
  }

  lemma RowsDiffer(b: seq<int>, f0: seq<int>, f: seq<int>, ss: int, done: seq<bool>, cs: seq<int>, ce: seq<int>,
                   r: int, q: int)
    requires Scanned(b, f0, f, ss, done, cs, ce) && !Flat(b) && 0 <= r < q < |b|
    ensures |f| == |b| && f[r] != f[q]
  {
    hide Cmp, Sel, Scanning, Run, Flat, Filled, SortedRows, Lo;
    RowGood(b, f0, f, ss, done, cs, ce, r);
    RowGood(b, f0, f, ss, done, cs, ce, q);
    ScanUntouched(b, f0, f, ss, done, cs, ce, cs[ss], ce[ss]);
    var t := b[f0[r]];
    if Pair(b, f0[r]) == Pair(b, f0[q]) {
      PairParts(b, f0[r], f0[q]);
      if b[Next(f0[r], |b|)] == ss && !done[t] {
        BucketDone(b, f0, f, ss, done, cs, ce, t);
        RowInSmall(b, f0, ss, r, t);
        RowInSmall(b, f0, ss, q, t);
        var part := f[Start(b, t, ss)..Stop(b, t, ss)];
        assert part[r - Start(b, t, ss)] != part[q - Start(b, t, ss)];
      } else {
        assert f0[r] != f0[q];
      }
    }
  }

  lemma PairParts(b: seq<int>, x: nat, y: nat)
    requires Within(b, ALPHABET) && x < |b| && y < |b| && Pair(b, x) == Pair(b, y)
    ensures b[x] == b[y] && b[Next(x, |b|)] == b[Next(y, |b|)]
  {
  }

  lemma ScannedSynthesises(b: seq<int>, f0: seq<int>, f: seq<int>, ss: int, done: seq<bool>, cs: seq<int>, ce: seq<int>)
    requires Scanned(b, f0, f, ss, done, cs, ce) && !Flat(b)
    ensures Synthesised(b, f0, f, ss, done) && cs[ss] - 1 == ce[ss]
  {
    ScanUntouched(b, f0, f, ss, done, cs, ce, cs[ss], ce[ss]);
    ScanParts(b, f0, f, ss, done, cs, ce, cs[ss], ce[ss], ss);
    assert Bucketed(b, f0) && Within(b, ALPHABET);
    hide Cmp, Sel, Scanning, Run, Flat, Filled, Lo, Pair, Untouched, Scene, Start, Stop;
    forall r | 0 <= r < |b|
      ensures 0 <= f[r] < |b| && (b[Next(f0[r], |b|)] != ss || done[b[f0[r]]] ==> f[r] == f0[r])
      ensures Lo(b, Pair(b, f[r])) <= r < Lo(b, Pair(b, f[r]) + 1)
    {
      RowGood(b, f0, f, ss, done, cs, ce, r);
    }
    forall r, q | 0 <= r < q < |b| ensures f[r] != f[q] {
      RowsDiffer(b, f0, f, ss, done, cs, ce, r, q);
    }
    BucketedIntro(b, f);
    forall t | 0 <= t < ALPHABET && !done[t] ensures SortedRows(b, f, Start(b, t, ss), Stop(b, t, ss)) {
      BucketDone(b, f0, f, ss, done, cs, ce, t);
      RisingRows(b, f, Start(b, t, ss), Stop(b, t, ss));
    }
    PartsMeet(b, f0, f, ss, done, cs, ce, ss);
  }

  lemma BucketedIntro(b: seq<int>, f: seq<int>)
    requires |f| == |b|
    requires forall r :: 0 <= r < |b| ==> 0 <= f[r] < |b| && Lo(b, Pair(b, f[r])) <= r < Lo(b, Pair(b, f[r]) + 1)
    requires forall r, q :: 0 <= r < q < |b| ==> f[r] != f[q]
    ensures Bucketed(b, f)
  {
  }

  lemma RisingRows(b: seq<int>, f: seq<int>, lo: int, hi: int)
    requires Pointers(b, f) && 0 <= lo <= hi <= |f| && Rising(b, f[lo..hi])
    ensures SortedRows(b, f, lo, hi)
  {
    forall r, q | lo <= r < q < hi ensures Cmp(b, f[r], f[q], |b|) <= 0 {
      assert f[lo..hi][r - lo] == f[r] && f[lo..hi][q - lo] == f[q];
    }
  }

  /* ---- Blocks of one character ---- */

  lemma {:induction false} FlatTies(b: seq<int>, x: nat, y: nat, k: nat)
    requires Flat(b) && x < |b| && y < |b|
    ensures Cmp(b, x, y, k) == 0
    decreases k
  {
    if k > 0 { FlatTies(b, Next(x, |b|), Next(y, |b|), k - 1); }
  }

  /** In a block of one character the scans read and write nothing. */
  lemma FlatUntouched(b: seq<int>, f0: seq<int>, f: seq<int>, ss: int, done: seq<bool>, cs: seq<int>, ce: seq<int>,
                      r: int)
    requires Scanned(b, f0, f, ss, done, cs, ce) && Flat(b) && 0 <= r < |b|
    ensures |f| == |f0| == |b| && f[r] == f0[r]
  {
    hide Lo, Cmp, Sel, Scanning, Bucketed, Filled;
    ScanUntouched(b, f0, f, ss, done, cs, ce, cs[ss], ce[ss]);
    ScanParts(b, f0, f, ss, done, cs, ce, cs[ss], ce[ss], ss);
    Layout(b, ss, ss);
    PermRow(b, f0, r);
    RowInSmall(b, f0, ss, r, ss);
    if b[f0[r]] == ss {
      FlatTies(b, f[r], Next(f[r], |b|), |b|);
      assert !(Big(b, ss) <= r < cs[ss]) && !(ce[ss] + 1 <= r < Big(b, ss + 1));
    }
    assert !Written(b, f0, ss, done, cs, ce, r);
  }

  lemma PermRow(b: seq<int>, f: seq<int>, r: int)
    requires Bucketed(b, f) && 0 <= r < |b|
    ensures |f| == |b| && 0 <= f[r] < |b|
  {
  }

  /** No position of key k: its bucket has no rows. */
  lemma EmptyBucket(b: seq<int>, f: seq<int>, k: int)
    requires Bucketed(b, f) && forall x :: 0 <= x < |b| ==> Pair(b, x) != k
    ensures Lo(b, k) == Lo(b, k + 1)
  {
    LoGrows(b, k, k + 1);
    BucketFull(b, f, k, []);
  }

  /** The other case the C code allows for: [ss, ss] is the whole block, and was not touched. */
  lemma FlatParts(b: seq<int>, f0: seq<int>, f: seq<int>, ss: int, done: seq<bool>, cs: seq<int>, ce: seq<int>)
    requires Scanned(b, f0, f, ss, done, cs, ce) && Flat(b)
    ensures cs[ss] - 1 == ce[ss] || (cs[ss] == 0 && ce[ss] == |b| - 1)
  {
    hide Lo, Cmp, Sel, Scanning, Bucketed, Run, Written;
    ScanUntouched(b, f0, f, ss, done, cs, ce, cs[ss], ce[ss]);
    ScanParts(b, f0, f, ss, done, cs, ce, cs[ss], ce[ss], ss);
    Layout(b, ss, ss);
    PermRow(b, f0, 0);
    PermRow(b, f0, |b| - 1);
    if b[0] == ss {
      RowInSmall(b, f0, ss, 0, ss);
      RowInSmall(b, f0, ss, |b| - 1, ss);
      FlatEnds(b, f, ss, cs[ss], ce[ss]);
    } else {
      forall x | 0 <= x < |b| ensures Pair(b, x) != ALPHABET * ss + ss {
        assert b[x] == b[0];
        assert b[Next(x, |b|)] == b[0];
      }
      EmptyBucket(b, f0, ALPHABET * ss + ss);
    }
  }

  lemma FlatEnds(b: seq<int>, f: seq<int>, ss: int, css: int, ces: int)
    requires Flat(b) && Big(b, ss) == 0 && Big(b, ss + 1) == |b| && 0 <= css <= |b| && -1 <= ces
    requires |b| > 0 && Run(b, f, ss, Big(b, ss), css, true) && Run(b, f, ss, ces + 1, Big(b, ss + 1), false)
    requires ces < |b|
    ensures css == 0 && ces == |b| - 1
  {
    if css > 0 { FlatTies(b, f[0], Next(f[0], |b|), |b|); }
    if ces < |b| - 1 { FlatTies(b, f[ces + 1], Next(f[ces + 1], |b|), |b|); }
  }

  lemma FlatSynthesises(b: seq<int>, f0: seq<int>, f: seq<int>, ss: int, done: seq<bool>, cs: seq<int>, ce: seq<int>)
    requires Scanned(b, f0, f, ss, done, cs, ce) && Flat(b)
    ensures Synthesised(b, f0, f, ss, done)
  {
    ScanUntouched(b, f0, f, ss, done, cs, ce, cs[ss], ce[ss]);
    hide Lo, Cmp, Sel, Scanning, Flat, Run;
    forall r | 0 <= r < |b| ensures f[r] == f0[r] {
      FlatUntouched(b, f0, f, ss, done, cs, ce, r);
    }
    assert f == f0;
    forall t | 0 <= t < ALPHABET ensures SortedRows(b, f, Start(b, t, ss), Stop(b, t, ss)) {
      Layout(b, ss, t);
      forall r, q | Start(b, t, ss) <= r < q < Stop(b, t, ss) ensures Cmp(b, f[r], f[q], |b|) <= 0 {
        FlatTies(b, f[r], f[q], |b|);
      }
    }
  }

  /** Step 2 in both cases. */
  lemma ScansDone(b: seq<int>, f0: seq<int>, f: seq<int>, ss: int, done: seq<bool>, cs: seq<int>, ce: seq<int>)
    requires Scanned(b, f0, f, ss, done, cs, ce)
    ensures Synthesised(b, f0, f, ss, done)
    ensures cs[ss] - 1 == ce[ss] || (cs[ss] == 0 && ce[ss] == |b| - 1)
  {
    hide Flat, Scanned, Synthesised;
    if Flat(b) {
      FlatSynthesises(b, f0, f, ss, done, cs, ce);
      FlatParts(b, f0, f, ss, done, cs, ce);
    } else {
      ScannedSynthesises(b, f0, f, ss, done, cs, ce);
    }
  }

  /* ---- The method ---- */

  const SETMASK := 0x20_0000

  /** Whether an ftab entry carries the bit that marks a sorted small bucket. */
  function Masked(v: int): bool {
    v / SETMASK % 2 == 1
  }

  /** v & CLEARMASK */
  function Clear(v: int): int {
    if Masked(v) then v - SETMASK else v
  }

  lemma NextMultiple(v: int, m: int)
    requires m == SETMASK
    ensures (v + m) / m == v / m + 1
  {
  }

  lemma MaskSets(v: int)
    requires !Masked(v)
    ensures Masked(v + SETMASK)
  {
    NextMultiple(v, SETMASK);
    var q := v / SETMASK;
    assert q % 2 == 0;
    assert (q + 1) % 2 == 1;
  }

  /** v | SETMASK */
  function Mask(v: int): (w: int)
    ensures Masked(w) && Clear(w) == Clear(v)
  {
    if Masked(v) then
      v
    else
      MaskSets(v);
      v + SETMASK
  }

  /** ftab holds the first row of every small bucket. */
  ghost predicate Table(b: seq<int>, ft: seq<int>) {
    |ft| == ALPHABET * ALPHABET + 1 && forall k :: 0 <= k <= ALPHABET * ALPHABET ==> Clear(ft[k]) == Lo(b, k)
  }

  /** What the two copy loops of Step 2 read. */
  lemma TableAt(b: seq<int>, ft: seq<int>, t: int, ss: int)
    requires Table(b, ft) && 0 <= t < ALPHABET && 0 <= ss < ALPHABET
    ensures Clear(ft[ALPHABET * t + ss]) == Start(b, t, ss) && Clear(ft[ALPHABET * t + ss + 1]) == Stop(b, t, ss)
    ensures Clear(ft[ALPHABET * t]) == Big(b, t) && Clear(ft[ALPHABET * (t + 1)]) == Big(b, t + 1)
  {
  }

  method CopyBounds(ftab: array<int>, ss: int, copyStart: array<int>, copyEnd: array<int>, ghost b: seq<int>)
    requires Table(b, ftab[..]) && 0 <= ss < ALPHABET
    requires copyStart.Length == copyEnd.Length == ALPHABET && copyStart != copyEnd && copyStart != ftab
    requires copyEnd != ftab
    modifies copyStart, copyEnd
    ensures forall t ::
              0 <= t < ALPHABET ==> copyStart[..][t] == Start(b, t, ss) && copyEnd[..][t] == Stop(b, t, ss) - 1
  {
    hide Lo, Start, Stop, Big, Table;
    for j := 0 to 256
      invariant forall t :: 0 <= t < j ==> copyStart[t] == Start(b, t, ss) && copyEnd[t] == Stop(b, t, ss) - 1
    {
      TableSize(b, ftab[..]);
      TableAt(b, ftab[..], j, ss);
      copyStart[j] := Clear(ftab[ALPHABET * j + ss]);
      copyEnd[j] := Clear(ftab[ALPHABET * j + ss + 1]) - 1;
    }
  }

  lemma TableSize(b: seq<int>, ft: seq<int>)
    requires Table(b, ft)
    ensures |ft| == ALPHABET * ALPHABET + 1
  {
  }

  method ScanLeft(ptr: array<int>, block: array<int>, nblock: nat, ss: int, bigDone: array<bool>,
                  copyStart: array<int>, start: int, ghost b: seq<int>, ghost f0: seq<int>, ghost ce: seq<int>)
    requires ptr != block && ptr != copyStart && block != copyStart && bigDone.Length == copyStart.Length == ALPHABET
    requires 0 <= ss < ALPHABET && |ce| == ALPHABET && |b| == nblock <= block.Length && block[..nblock] == b
    requires Scanning(b, f0, ptr[..], ss, bigDone[..], copyStart[..], ce, start, Big(b, ss + 1) - 1)
    modifies ptr, copyStart
    ensures Scanning(b, f0, ptr[..], ss, bigDone[..], copyStart[..], ce, copyStart[..][ss], Big(b, ss + 1) - 1)
  {
    hide Scanning, Lo, Big, Start, Stop, Run, Filled, Bucketed, Within, Pointers, Cmp, Untouched, Sel;
    ghost var j2: int := Big(b, ss + 1) - 1;
    var j := start;
    ScanParts(b, f0, ptr[..], ss, bigDone[..], copyStart[..], ce, j, j2, ss);
    while j < copyStart[ss]
      invariant j <= copyStart[ss] <= nblock
      invariant Scanning(b, f0, ptr[..], ss, bigDone[..], copyStart[..], ce, j, j2)
      decreases nblock - j
    {
      ghost var f, cs := ptr[..], copyStart[..];
      LeftRoom(b, f0, f, ss, bigDone[..], cs, ce, j, j2);
      var k := ptr[j] - 1;
      if k < 0 { k := k + nblock; }
      var c1 := block[k];
      assert c1 == b[k];
      if !bigDone[c1] {
        LeftStep(b, f0, f, ss, bigDone[..], cs, ce, j, j2, c1, k);
        ptr[copyStart[c1]] := k;
        copyStart[c1] := copyStart[c1] + 1;
        assert ptr[..] == f[cs[c1] := k] && copyStart[..] == cs[c1 := cs[c1] + 1];
      } else {
        LeftSkip(b, f0, f, ss, bigDone[..], cs, ce, j, j2);
      }
      j := j + 1;
      ScanParts(b, f0, ptr[..], ss, bigDone[..], copyStart[..], ce, j, j2, ss);
    }
  }

  method ScanRight(ptr: array<int>, block: array<int>, nblock: nat, ss: int, bigDone: array<bool>,
                   copyEnd: array<int>, start: int, ghost b: seq<int>, ghost f0: seq<int>, ghost cs: seq<int>)
    requires ptr != block && ptr != copyEnd && block != copyEnd && bigDone.Length == copyEnd.Length == ALPHABET
    requires 0 <= ss < ALPHABET && |cs| == ALPHABET && |b| == nblock <= block.Length && block[..nblock] == b
    requires Scanning(b, f0, ptr[..], ss, bigDone[..], cs, copyEnd[..], cs[ss], start)
    modifies ptr, copyEnd
    ensures Scanned(b, f0, ptr[..], ss, bigDone[..], cs, copyEnd[..])
  {
    hide Scanning, Lo, Big, Start, Stop, Run, Filled, Bucketed, Within, Pointers, Cmp, Untouched, Sel;
    ghost var j1 := cs[ss];
    var j := start;
    ScanParts(b, f0, ptr[..], ss, bigDone[..], cs, copyEnd[..], j1, j, ss);
    while j > copyEnd[ss]
      invariant -1 <= copyEnd[ss] <= j
      invariant Scanning(b, f0, ptr[..], ss, bigDone[..], cs, copyEnd[..], j1, j)
      decreases j + 1
    {
      ghost var f, ce := ptr[..], copyEnd[..];
      RightRoom(b, f0, f, ss, bigDone[..], cs, ce, j1, j);
      var k := ptr[j] - 1;
      if k < 0 { k := k + nblock; }
      var c1 := block[k];
      assert c1 == b[k];
      if !bigDone[c1] {
        RightStep(b, f0, f, ss, bigDone[..], cs, ce, j1, j, c1, k);
        ptr[copyEnd[c1]] := k;
        copyEnd[c1] := copyEnd[c1] - 1;
        assert ptr[..] == f[ce[c1] := k] && copyEnd[..] == ce[c1 := ce[c1] - 1];
      } else {
        RightSkip(b, f0, f, ss, bigDone[..], cs, ce, j1, j);
      }
      j := j - 1;
      ScanParts(b, f0, ptr[..], ss, bigDone[..], cs, copyEnd[..], j1, j, ss);
    }
  }

  /** Step 2: the sorted order of the small buckets [t, ss] is read off big bucket [ss]. */
  method Synthesise(ptr: array<int>, block: array<int>, ftab: array<int>, nblock: nat, ss: int, bigDone: array<bool>,
                    copyStart: array<int>, copyEnd: array<int>, ghost b: seq<int>)
    requires ptr != block && ptr != ftab && ptr != copyStart && ptr != copyEnd && block != copyStart && block != copyEnd
    requires ftab != copyStart && ftab != copyEnd && copyStart != copyEnd
    requires bigDone.Length == copyStart.Length == copyEnd.Length == ALPHABET && 0 <= ss < ALPHABET
    requires |b| == nblock <= block.Length && block[..nblock] == b
    requires Table(b, ftab[..]) && Scene(b, ptr[..], ss, bigDone[..])
    modifies ptr, copyStart, copyEnd
    ensures Synthesised(b, old(ptr[..]), ptr[..], ss, bigDone[..])
  {
    hide Scanning, Scanned, Synthesised, Scene, Table, Lo, Big, Start, Stop;
    ghost var f0 := ptr[..];
    CopyBounds(ftab, ss, copyStart, copyEnd, b);
    ScanStart(b, f0, ss, bigDone[..], copyStart[..], copyEnd[..]);
    TableSize(b, ftab[..]);
    TableAt(b, ftab[..], ss, ss);
    ScanLeft(ptr, block, nblock, ss, bigDone, copyStart, Clear(ftab[ALPHABET * ss]), b, f0, copyEnd[..]);
    ScanRight(ptr, block, nblock, ss, bigDone, copyEnd, Clear(ftab[ALPHABET * (ss + 1)]) - 1, b, f0, copyStart[..]);
    ScansDone(b, f0, ptr[..], ss, bigDone[..], copyStart[..], copyEnd[..]);
    assert copyStart[ss] - 1 == copyEnd[ss] || (copyStart[ss] == 0 && copyEnd[ss] == nblock - 1);  // AssertH 1007
  }
}
