/** The fallback block sorter: a radix sort on the first character, then passes that double the
    number of characters the order accounts for, until rotations are told apart or exhausted. */
module FallbackSort {
  import opened Counting
  import opened HeaderBits
  import opened KeySort
  import opened Permute
  import opened Rotation

  const ALPHABET := 256

  /* ---- Initial radix sort ---- */

  /** Bucket ends after the first i positions have been taken from their buckets. */
  ghost predicate Lowered(b: seq<int>, ft: seq<int>, i: nat) {
    && |ft| == ALPHABET + 1 && i <= |b|
    && forall c :: 0 <= c < ALPHABET ==> ft[c] == CountLess(b, |b|, c + 1) - CountEq(b, i, c)
  }

  /** Where the radix sort puts position x. */
  function Slot(b: seq<int>, x: nat): int
    requires x < |b|
  {
    CountLess(b, |b|, b[x] + 1) - 1 - CountEq(b, x, b[x])
  }

  lemma SlotBounds(b: seq<int>, x: nat)
    requires x < |b|
    ensures 0 <= CountLess(b, |b|, b[x]) <= Slot(b, x) < CountLess(b, |b|, b[x] + 1) <= |b|
  {
    CountSplit(b, |b|, b[x]);
    CountEqGrows(b, x + 1, |b|, b[x]);
  }

  lemma SlotsDiffer(b: seq<int>, x: nat, y: nat)
    requires x < y < |b|
    ensures Slot(b, x) != Slot(b, y)
  {
    SlotBounds(b, x);
    SlotBounds(b, y);
    if b[x] < b[y] {
      CountLessGrows(b, |b|, b[x] + 1, b[y]);
    } else if b[y] < b[x] {
      CountLessGrows(b, |b|, b[y] + 1, b[x]);
    } else {
      CountEqGrows(b, x + 1, y, b[x]);
    }
  }

  lemma LowerStep(b: seq<int>, ft: seq<int>, i: nat)
    requires Within(b, ALPHABET) && Lowered(b, ft, i) && i < |b|
    ensures ft[b[i]] - 1 == Slot(b, i) && Lowered(b, ft[b[i] := ft[b[i]] - 1], i + 1)
  {
  }

  /** f has the first i positions in their slots. */
  ghost predicate Slotted(b: seq<int>, f: seq<int>, i: nat) {
    && |b| <= |f| && i <= |b|
    && forall x :: 0 <= x < i ==> 0 <= Slot(b, x) < |b| && f[Slot(b, x)] == x
  }

  lemma SlotStep(b: seq<int>, f: seq<int>, i: nat)
    requires Slotted(b, f, i) && i < |b|
    ensures 0 <= Slot(b, i) < |b| && Slotted(b, f[Slot(b, i) := i], i + 1)
  {
    hide Slot;
    SlotBounds(b, i);
    forall x | 0 <= x < i ensures Slot(b, x) != Slot(b, i) { SlotsDiffer(b, x, i); }
  }

  lemma SlotsFilled(b: seq<int>, f: seq<int>)
    requires Slotted(b, f, |b|)
    ensures IsPerm(f[..|b|], |b|) && InBuckets(b, f[..|b|])
  {
    hide Slot, CountLess;
    var n := |b|;
    var slots := seq(n, x requires 0 <= x < n => Slot(b, x));
    forall x, y | 0 <= x < y < n ensures slots[x] != slots[y] { SlotsDiffer(b, x, y); }
    forall p | 0 <= p < n
      ensures 0 <= f[p] < n && Slot(b, f[p]) == p
      ensures CountLess(b, n, b[f[p]]) <= p < CountLess(b, n, b[f[p]] + 1)
    {
      PermCovers(slots, n, p);
      var x :| 0 <= x < n && slots[x] == p;
      SlotBounds(b, x);
    }
  }

  /** The four counting loops: ftab becomes the bucket ends, ftabCopy keeps the counts. */
  method CountBuckets(eclass8: array<int>, nblock: nat) returns (ftab: array<int>, ftabCopy: array<int>)
    requires nblock <= eclass8.Length && Within(eclass8[..nblock], ALPHABET)
    ensures fresh(ftab) && fresh(ftabCopy) && ftab != ftabCopy && ftab.Length == 257 && ftabCopy.Length == ALPHABET
    ensures Lowered(eclass8[..nblock], ftab[..], 0)
    ensures forall c :: 0 <= c < ALPHABET ==> ftabCopy[c] == CountEq(eclass8[..nblock], nblock, c)
  {
    ghost var b := eclass8[..nblock];
    ftab := new int[257](_ => 0);
    for i := 0 to nblock
      invariant ftab[256] == 0 && forall c :: 0 <= c < ALPHABET ==> ftab[c] == CountEq(b, i, c)
    {
      assert eclass8[i] == b[i];
      ftab[eclass8[i]] := ftab[eclass8[i]] + 1;
    }
    ftabCopy := new int[256];
    for i := 0 to 256
      invariant ftab[256] == 0 && forall c :: 0 <= c < ALPHABET ==> ftab[c] == CountEq(b, nblock, c)
      invariant forall c :: 0 <= c < i ==> ftabCopy[c] == CountEq(b, nblock, c)
    {
      ftabCopy[i] := ftab[i];
    }
    CountAll(b, ALPHABET, nblock, 0);
    CountSplit(b, nblock, 0);
    for i := 1 to 257
      invariant ftab[256] == if i == 257 then nblock else 0
      invariant forall c :: 0 <= c < i && c < ALPHABET ==> ftab[c] == CountLess(b, nblock, c + 1)
      invariant forall c :: i <= c < ALPHABET ==> ftab[c] == CountEq(b, nblock, c)
      invariant forall c :: 0 <= c < ALPHABET ==> ftabCopy[c] == CountEq(b, nblock, c)
    {
      if i < 256 { CountSplit(b, nblock, i); } else { CountAll(b, ALPHABET, nblock, 256); }
      ftab[i] := ftab[i] + ftab[i - 1];
    }
  }

  /** The distribution loop. */
  method Distribute(fmap: array<int>, eclass8: array<int>, ftab: array<int>, nblock: nat)
    requires fmap != eclass8 && fmap != ftab && ftab != eclass8
    requires nblock <= fmap.Length && nblock <= eclass8.Length && Within(eclass8[..nblock], ALPHABET)
    requires ftab.Length == 257 && Lowered(eclass8[..nblock], ftab[..], 0)
    modifies fmap, ftab
    ensures Lowered(eclass8[..nblock], ftab[..], nblock)
    ensures IsPerm(fmap[..nblock], nblock) && InBuckets(eclass8[..nblock], fmap[..nblock])
  {
    hide Lowered, Slot, IsPerm, InBuckets;
    ghost var b := eclass8[..nblock];
    for i := 0 to nblock
      invariant Lowered(b, ftab[..], i) && Slotted(b, fmap[..], i) && ftab.Length == 257
    {
      var j := eclass8[i];
      assert j == b[i];
      LowerStep(b, ftab[..], i);
      SlotStep(b, fmap[..], i);
      ghost var ft, f := ftab[..], fmap[..];
      var k := ftab[j] - 1;
      ftab[j] := k;
      fmap[k] := i;
      assert ftab[..] == ft[j := k] && fmap[..] == f[k := i];
    }
    SlotsFilled(b, fmap[..]);
    assert fmap[..][..nblock] == fmap[..nblock];
  }

  /* ---- Bucket headers ---- */

  /** Row p is in order after row p-1 on the first h characters, and its header bit says whether
      the two differ there. */
  ghost predicate Step(b: seq<int>, f: seq<int>, bits: seq<bool>, p: int, h: nat)
    requires IsPerm(f, |b|) && 0 < p < |b| <= |bits|
  {
    Cmp(b, f[p - 1], f[p], h) <= 0 && (bits[p] <==> Cmp(b, f[p - 1], f[p], h) != 0)
  }

  /** Rows up to r account for 2h characters, later rows for h; row r+1 starts a bucket. Behind the
      block stand a set bit and a clear bit, which end the searches. */
  ghost predicate Refining(b: seq<int>, f: seq<int>, bits: seq<bool>, h: nat, r: int) {
    && IsPerm(f, |b|) && |b| + 64 <= |bits| && -1 <= r < |b|
    && bits[0] && bits[r + 1] && bits[|b|] && !bits[|b| + 1]
    && (forall p :: 0 < p <= r ==> Step(b, f, bits, p, 2 * h))
    && (forall p :: r < p < |b| && 0 < p ==> Step(b, f, bits, p, h))
  }

  /** The order and the headers account for exactly h characters. */
  ghost predicate Headed(b: seq<int>, f: seq<int>, bits: seq<bool>, h: nat) {
    Refining(b, f, bits, h, -1)
  }

  lemma {:induction false} ZeroWord(k: nat)
    ensures !Bit(0, k)
  {
    if k > 0 { ZeroWord(k - 1); }
  }

  /** Some bucket starts at z. */
  ghost predicate Marked(b: seq<int>, i: int, z: int) {
    exists c :: 0 <= c < i && CountLess(b, |b|, c) == z
  }

  lemma MarkedNext(b: seq<int>, i: nat, z: int)
    ensures Marked(b, i + 1, z) <==> Marked(b, i, z) || CountLess(b, |b|, i) == z
  {
  }

  lemma FirstHeaders(b: seq<int>, f: seq<int>, bits: seq<bool>)
    requires |b| > 0 && Within(b, ALPHABET) && IsPerm(f, |b|) && InBuckets(b, f)
    requires |b| + 64 <= |bits| && bits[|b|] && !bits[|b| + 1]
    requires forall z :: 0 <= z < |b| ==> bits[z] == Marked(b, ALPHABET, z)
    ensures Headed(b, f, bits, 1)
  {
    hide InBuckets, CountLess;
    CountAll(b, ALPHABET, |b|, 0);
    assert Marked(b, ALPHABET, 0);
    forall p | 0 < p < |b| ensures Step(b, f, bits, p, 1) {
      BucketsAscend(b, f, p - 1, p);
      assert Cmp(b, Next(f[p - 1], |b|), Next(f[p], |b|), 0) == 0;
      if b[f[p - 1]] != b[f[p]] {
        BucketChange(b, f, p);
        assert Marked(b, ALPHABET, p);
      } else if Marked(b, ALPHABET, p) {
        var c :| 0 <= c < ALPHABET && CountLess(b, |b|, c) == p;
        BucketBoundary(b, f, p, c);
      }
    }
  }

  lemma BucketStartAt(b: seq<int>, ft: seq<int>, c: nat)
    requires Lowered(b, ft, |b|) && c < ALPHABET
    ensures ft[c] == CountLess(b, |b|, c)
  {
    CountSplit(b, |b|, c);
  }

  /** Clears the bitmap, marks the start of every bucket, and sets the sentinel bits. */
  method InitHeaders(bhtab: array<Word>, ftab: array<int>, nblock: nat, ghost b: seq<int>, ghost f: seq<int>)
    requires bhtab.Length >= 3 + nblock / 32 && 0 < nblock == |b| && Within(b, ALPHABET)
    requires ftab.Length == 257 && Lowered(b, ftab[..], nblock)
    requires IsPerm(f, nblock) && InBuckets(b, f)
    modifies bhtab
    ensures Headed(b, f, Bits(bhtab[..]), 1)
  {
    hide InBuckets, IsPerm, Bits, Headed, Marked, Lowered, CountLess, Bit;
    var nBhtab := 2 + nblock / 32;
    for i := 0 to nBhtab
      invariant forall w :: 0 <= w < i ==> bhtab[w] == 0
    {
      bhtab[i] := 0;
    }
    ClearBits(bhtab[..], nblock, b);
    for i := 0 to 256
      invariant forall z :: 0 <= z < nblock ==> Bits(bhtab[..])[z] == Marked(b, i, z)
    {
      ghost var bits := Bits(bhtab[..]);
      BucketStartAt(b, ftab[..], i);
      var at := ftab[i];
      SetBh(bhtab, at);
      forall z | 0 <= z < nblock ensures Bits(bhtab[..])[z] == Marked(b, i + 1, z) {
        assert Bits(bhtab[..]) == bits[at := true];
        MarkedNext(b, i, z);
      }
    }
    for i := 0 to 32
      invariant forall z :: 0 <= z < nblock ==> Bits(bhtab[..])[z] == Marked(b, ALPHABET, z)
      invariant i > 0 ==> Bits(bhtab[..])[nblock] && !Bits(bhtab[..])[nblock + 1]
    {
      SetBh(bhtab, nblock + 2 * i);
      ClearBh(bhtab, nblock + 2 * i + 1);
    }
    FirstHeaders(b, f, Bits(bhtab[..]));
  }

  lemma ClearBits(t: seq<Word>, n: nat, b: seq<int>)
    requires |t| >= 2 + n / 32 && forall w :: 0 <= w < 2 + n / 32 ==> t[w] == 0
    ensures forall z :: 0 <= z < n ==> Bits(t)[z] == Marked(b, 0, z)
  {
    forall z | 0 <= z < n ensures !Bits(t)[z] {
      ZeroWord(z % 32);
      assert t[z / 32] == 0;
    }
  }

  /* ---- Classes ---- */

  /** The header at or before row i. */
  function Start(bits: seq<bool>, i: nat): (r: nat)
    requires i < |bits|
    ensures r <= i
  {
    if i == 0 || bits[i] then i else Start(bits, i - 1)
  }

  /** The position h places before x. */
  function Back(x: nat, h: nat, n: nat): (r: nat)
    requires x < n && h <= n
    ensures r < n && Shift(r, h, n) == x
  {
    if x - h < 0 then x - h + n else x - h
  }

  /** Each position carries the header of the row of the position h places on. */
  ghost predicate Classed(f: seq<int>, bits: seq<bool>, e: seq<int>, h: nat, i: nat) {
    && IsPerm(f, |f|) && h <= |f| == |e| && i <= |f| <= |bits|
    && forall k :: 0 <= k < i ==> e[Back(f[k], h, |f|)] == Start(bits, k)
  }

  lemma ClassStep(f: seq<int>, bits: seq<bool>, e: seq<int>, h: nat, i: nat)
    requires Classed(f, bits, e, h, i) && i < |f|
    ensures 0 <= f[i] < |f|
    ensures Classed(f, bits, e[Back(f[i], h, |f|) := Start(bits, i)], h, i + 1)
  {
    hide Start;
    forall k | 0 <= k < i ensures Back(f[k], h, |f|) != Back(f[i], h, |f|) {
      assert f[k] != f[i];
    }
  }

  /** Gives every position the class of the position H places on. The words of eclass lie over the
      bytes of the block, so the block is destroyed. */
  method AssignClasses(fmap: array<int>, eclass: array<int>, eclass8: array<int>, bhtab: array<Word>, nblock: nat,
                       H: nat)
    requires fmap != eclass && fmap != eclass8 && eclass != eclass8
    requires nblock == fmap.Length == eclass.Length <= eclass8.Length && nblock <= 32 * bhtab.Length
    requires IsPerm(fmap[..], nblock) && H <= nblock
    modifies eclass, eclass8
    ensures Classed(fmap[..], Bits(bhtab[..]), eclass[..], H, nblock)
  {
    hide Classed, IsPerm, Bits, Start;
    ghost var f, bits := fmap[..], Bits(bhtab[..]);
    ClassNone(f, bits, eclass[..], H);
    var j := 0;
    for i := 0 to nblock
      invariant i == 0 ==> j == 0
      invariant i > 0 ==> j == Start(bits, i - 1)
      invariant Classed(f, bits, eclass[..], H, i)
    {
      var b := IsSetBh(bhtab, i);
      if b { j := i; }
      StartNext(bits, i);
      ghost var e := eclass[..];
      ClassStep(f, bits, e, H, i);
      var k := fmap[i] - H;
      if k < 0 { k := k + nblock; }
      eclass[k] := j;
      eclass8[i] := *;
      assert eclass[..] == e[k := j];
    }
  }

  lemma StartNext(bits: seq<bool>, i: nat)
    requires i < |bits|
    ensures Start(bits, i) == if i == 0 || bits[i] then i else Start(bits, i - 1)
  {
  }

  lemma ClassNone(f: seq<int>, bits: seq<bool>, e: seq<int>, h: nat)
    requires IsPerm(f, |f|) && h <= |f| == |e| && |f| <= |bits|
    ensures Classed(f, bits, e, h, 0)
  {
  }

  lemma TiesChain(b: seq<int>, x: nat, y: nat, z: nat, h: nat)
    requires x < |b| && y < |b| && z < |b|
    requires Cmp(b, x, y, h) <= 0 && Cmp(b, y, z, h) <= 0
    ensures Cmp(b, x, z, h) <= 0
    ensures Cmp(b, x, z, h) == 0 <==> Cmp(b, x, y, h) == 0 && Cmp(b, y, z, h) == 0
  {
    CmpTransitive(b, x, y, z, h);
    CmpAntisymmetric(b, x, y, h);
    CmpAntisymmetric(b, y, z, h);
    CmpAntisymmetric(b, x, z, h);
    if Cmp(b, x, y, h) == 0 && Cmp(b, y, z, h) == 0 {
      CmpTransitive(b, z, y, x, h);
    }
  }

  /** Headers order the rows: equal headers for rows equal on h characters, smaller for smaller. */
  lemma {:induction false} StartOrder(b: seq<int>, f: seq<int>, bits: seq<bool>, h: nat, i: nat, k: nat)
    requires Headed(b, f, bits, h) && i <= k < |b|
    ensures Start(bits, i) <= Start(bits, k) && Cmp(b, f[i], f[k], h) <= 0
    ensures Start(bits, i) == Start(bits, k) <==> Cmp(b, f[i], f[k], h) == 0
    decreases k
  {
    if i < k {
      hide Cmp, IsPerm;
      assert 0 <= f[i] < |b| && 0 <= f[k - 1] < |b| && 0 <= f[k] < |b| by { PermRange(f, |b|); }
      StartOrder(b, f, bits, h, i, k - 1);
      assert Step(b, f, bits, k, h);
      TiesChain(b, f[i], f[k - 1], f[k], h);
    } else {
      assert 0 <= f[i] < |b|;
      CmpSelf(b, f[i], h);
    }
  }

  lemma PermRange(f: seq<int>, n: nat)
    requires IsPerm(f, n)
    ensures |f| == n && forall k :: 0 <= k < n ==> 0 <= f[k] < n
  {
  }

  lemma PermDiffers(f: seq<int>, n: nat, i: nat)
    requires IsPerm(f, n) && i < n
    ensures forall k :: 0 <= k < i ==> f[k] != f[i]
  {
  }

  /** Classes compare as the next h characters do. */
  lemma ClassOrder(b: seq<int>, f: seq<int>, bits: seq<bool>, e: seq<int>, h: nat, x: nat, y: nat)
    requires Headed(b, f, bits, h) && |f| == |b| && Classed(f, bits, e, h, |b|) && x < |b| && y < |b|
    ensures |e| == |b| && h <= |b|
    ensures e[x] <= e[y] <==> Cmp(b, Shift(x, h, |b|), Shift(y, h, |b|), h) <= 0
    ensures e[x] == e[y] <==> Cmp(b, Shift(x, h, |b|), Shift(y, h, |b|), h) == 0
  {
    var n := |b|;
    var x', y' := Shift(x, h, n), Shift(y, h, n);
    PermCovers(f, n, x');
    PermCovers(f, n, y');
    hide Cmp, Start;
    var i :| 0 <= i < n && f[i] == x';
    var k :| 0 <= k < n && f[k] == y';
    assert Back(x', h, n) == x && Back(y', h, n) == y;
    assert e[x] == Start(bits, i) && e[y] == Start(bits, k);
    CmpAntisymmetric(b, x', y', h);
    if i <= k { StartOrder(b, f, bits, h, i, k); } else { StartOrder(b, f, bits, h, k, i); }
  }

  /* ---- One doubling pass ---- */

  /** A header that separates rows on h characters separates them on 2h. */
  lemma StepDoubles(b: seq<int>, f: seq<int>, bits: seq<bool>, p: int, h: nat)
    requires IsPerm(f, |b|) && 0 < p < |b| <= |bits|
    requires Step(b, f, bits, p, h) && bits[p]
    ensures Step(b, f, bits, p, 2 * h)
  {
    CmpPrefix(b, f[p - 1], f[p], h, 2 * h);
  }

  /** The rows of a bucket without inner headers tie on h characters. */
  lemma {:induction false} BucketTies(b: seq<int>, f: seq<int>, bits: seq<bool>, h: nat, r: int, l: int, p: int, q: int)
    requires Refining(b, f, bits, h, r) && r < l <= p <= q < |b|
    requires forall z :: l < z <= q ==> !bits[z]
    ensures 0 <= f[p] < |b| && 0 <= f[q] < |b| && Cmp(b, f[p], f[q], h) == 0
    decreases q
  {
    PermRange(f, |b|);
    hide IsPerm;
    if p < q {
      BucketTies(b, f, bits, h, r, l, p, q - 1);
      assert Step(b, f, bits, q, h);
      TiesChain(b, f[p], f[q - 1], f[q], h);
    } else {
      CmpSelf(b, f[p], h);
    }
  }

  /** The next bucket is l..r2: its first row has a header, no other row of it has. */
  ghost predicate NextBucket(bits: seq<bool>, n: nat, r: int, l: int, r2: int) {
    && -1 <= r < l < r2 < n && n + 64 <= |bits| && bits[r2 + 1]
    && (forall z :: r < z <= l ==> bits[z])
    && (forall z :: l < z <= r2 ==> !bits[z])
  }

  /** Row z has another class than row z-1. */
  ghost predicate ClassChanges(g: seq<int>, e: seq<int>, z: int)
    requires 0 < z < |g| && Keyed(g, e, 0)
  {
    e[g[z - 1]] != e[g[z]]
  }

  /** bits2 is bits with headers added where classes change inside l..r. */
  ghost predicate Marks(g: seq<int>, e: seq<int>, bits: seq<bool>, bits2: seq<bool>, l: int, r: int) {
    && 0 <= l <= r < |g| <= |bits| == |bits2| && Keyed(g, e, 0)
    && (forall z :: 0 <= z < |bits| && !(l < z <= r) ==> bits2[z] == bits[z])
    && (forall z :: l < z <= r ==> bits2[z] == ClassChanges(g, e, z))
  }

  /** Inside the sorted bucket, rows are in order on 2h characters and headers tell them apart. */
  lemma InsideBucket(b: seq<int>, f0: seq<int>, bits0: seq<bool>, f: seq<int>, bits: seq<bool>, g: seq<int>,
                     bits2: seq<bool>, e: seq<int>, h: nat, r: int, l: int, r2: int, p: int)
    requires Headed(b, f0, bits0, h) && Classed(f0, bits0, e, h, |b|) && h <= |b|
    requires Refining(b, f, bits, h, r) && NextBucket(bits, |b|, r, l, r2)
    requires Rearranged(f, g, l, r2) && IsPerm(g, |b|) && Keyed(g, e, 0) && Ascending(g, e, l, r2)
    requires Marks(g, e, bits, bits2, l, r2) && l < p <= r2
    ensures Step(b, g, bits2, p, 2 * h)
  {
    var j := Origin(f, g, l, r2, p - 1);
    var k := Origin(f, g, l, r2, p);
    var x, y := g[p - 1], g[p];
    if j <= k {
      BucketTies(b, f, bits, h, r, l, j, k);
    } else {
      BucketTies(b, f, bits, h, r, l, k, j);
      CmpAntisymmetric(b, x, y, h);
    }
    assert Cmp(b, x, y, h) == 0;
    hide IsPerm, Cmp, Rearranged, Headed, Classed, Refining;
    CmpSplit(b, x, y, h, h);
    ClassOrder(b, f0, bits0, e, h, x, y);
  }

  /** The first row of the bucket, and the first row behind it, still differ from their
      predecessors. */
  lemma EdgeOfBucket(b: seq<int>, f: seq<int>, bits: seq<bool>, g: seq<int>, bits2: seq<bool>, e: seq<int>,
                     h: nat, r: int, l: int, r2: int, p: int)
    requires Refining(b, f, bits, h, r) && NextBucket(bits, |b|, r, l, r2)
    requires Rearranged(f, g, l, r2) && IsPerm(g, |b|) && Marks(g, e, bits, bits2, l, r2)
    requires (p == l || p == r2 + 1) && 0 < p < |b|
    ensures Step(b, g, bits2, p, h) && bits2[p]
  {
    assert Step(b, f, bits, p, h) by {
      if p == l && p <= r { assert false; }
    }
    PermRange(f, |b|);
    PermRange(g, |b|);
    if p == l {
      var k := Origin(f, g, l, r2, p);
      BucketTies(b, f, bits, h, r, l, l, k);
      TiesChain(b, f[p - 1], f[p], f[k], h);
    } else {
      var k := Origin(f, g, l, r2, p - 1);
      BucketTies(b, f, bits, h, r, l, k, r2);
      TiesChain(b, f[k], f[p - 1], f[p], h);
    }
  }

  /** Sorting one bucket by class and marking its classes carries the pass past it. */
  lemma RefineStep(b: seq<int>, f0: seq<int>, bits0: seq<bool>, f: seq<int>, bits: seq<bool>, g: seq<int>,
                   bits2: seq<bool>, e: seq<int>, h: nat, r: int, l: int, r2: int)
    requires Headed(b, f0, bits0, h) && Classed(f0, bits0, e, h, |b|) && h <= |b|
    requires Refining(b, f, bits, h, r) && NextBucket(bits, |b|, r, l, r2)
    requires Rearranged(f, g, l, r2) && IsPerm(g, |b|) && Keyed(g, e, 0) && Ascending(g, e, l, r2)
    requires Marks(g, e, bits, bits2, l, r2)
    ensures Refining(b, g, bits2, h, r2)
  {
    var n := |b|;
    forall p | 0 < p < n
      ensures p <= r2 ==> Step(b, g, bits2, p, 2 * h)
      ensures p > r2 ==> Step(b, g, bits2, p, h)
    {
      if l < p <= r2 {
        InsideBucket(b, f0, bits0, f, bits, g, bits2, e, h, r, l, r2, p);
      } else if p == l || p == r2 + 1 {
        EdgeOfBucket(b, f, bits, g, bits2, e, h, r, l, r2, p);
        StepDoubles(b, g, bits2, p, h);
      } else if p <= r {
        assert Step(b, f, bits, p, 2 * h);
      } else {
        assert Step(b, f, bits, p, h);
        if p < l { StepDoubles(b, f, bits, p, h); }
      }
    }
  }

  /** With no further bucket, every remaining row has a header. */
  lemma RefineEnd(b: seq<int>, f: seq<int>, bits: seq<bool>, h: nat, r: int)
    requires Refining(b, f, bits, h, r) && forall z :: r < z < |b| ==> bits[z]
    ensures Headed(b, f, bits, 2 * h)
    ensures r == -1 ==> forall p :: 0 < p < |b| ==> Cmp(b, f[p - 1], f[p], h) < 0
  {
    forall p | 0 < p < |b| ensures Step(b, f, bits, p, 2 * h) && (r == -1 ==> Cmp(b, f[p - 1], f[p], h) < 0) {
      if r < p {
        assert Step(b, f, bits, p, h);
        StepDoubles(b, f, bits, p, h);
      }
    }
  }

  /** What the bitmap searches rely on. */
  lemma RefiningBits(b: seq<int>, f: seq<int>, bits: seq<bool>, h: nat, r: int)
    requires Refining(b, f, bits, h, r)
    ensures IsPerm(f, |b|) && |b| + 64 <= |bits| && -1 <= r < |b|
    ensures bits[r + 1] && bits[|b|] && !bits[|b| + 1]
  {
  }

  lemma FoundBucket(bits: seq<bool>, n: nat, r: int, k1: int, k2: int)
    requires n + 64 <= |bits| && -1 <= r < n && bits[r + 1] && bits[n]
    requires Uniform(bits, r + 1, k1, true) && k1 <= n && !bits[k1]
    requires Uniform(bits, k1, k2, false) && k2 <= n && bits[k2]
    ensures NextBucket(bits, n, r, k1 - 1, k2 - 1)
  {
  }

  /** The scan that turns class changes inside a sorted bucket into headers. */
  method MarkHeaders(fmap: array<int>, eclass: array<int>, bhtab: array<Word>, l: int, r: int)
    requires fmap != eclass && 0 <= l <= r < fmap.Length <= 32 * bhtab.Length
    requires Keyed(fmap[..], eclass[..], 0) && forall k :: 0 <= k < eclass.Length ==> 0 <= eclass[k]
    requires Bits(bhtab[..])[l] && forall z :: l < z <= r ==> !Bits(bhtab[..])[z]
    modifies bhtab
    ensures Marks(fmap[..], eclass[..], Bits(old(bhtab[..])), Bits(bhtab[..]), l, r)
  {
    hide Bits;
    ghost var bits, f, e := Bits(bhtab[..]), fmap[..], eclass[..];
    var cc := -1;
    for i := l to r + 1
      invariant |Bits(bhtab[..])| == |bits|
      invariant i == l ==> cc == -1
      invariant i > l ==> cc == e[f[i - 1]]
      invariant forall z :: 0 <= z < |bits| && !(l < z < i) ==> Bits(bhtab[..])[z] == bits[z]
      invariant forall z :: l < z < i ==> Bits(bhtab[..])[z] == ClassChanges(f, e, z)
    {
      assert 0 <= f[i] < |e|;
      var cc1 := eclass[fmap[i]];
      if cc != cc1 {
        SetBh(bhtab, i);
        cc := cc1;
      }
    }
  }

  /** Sorts and marks one bucket. */
  method RefineBucket(fmap: array<int>, eclass: array<int>, bhtab: array<Word>, nblock: nat, l: int, r2: int,
                      ghost h: nat, ghost b: seq<int>, ghost r: int, ghost f0: seq<int>, ghost bits0: seq<bool>)
    requires fmap != eclass && nblock == fmap.Length == eclass.Length == |b| && 0 < nblock <= 0x7fff_ffff
    requires h <= nblock && Headed(b, f0, bits0, h) && Classed(f0, bits0, eclass[..], h, nblock)
    requires Refining(b, fmap[..], Bits(bhtab[..]), h, r) && NextBucket(Bits(bhtab[..]), nblock, r, l, r2)
    modifies fmap, bhtab
    ensures Refining(b, fmap[..], Bits(bhtab[..]), h, r2)
  {
    hide Bits, Refining, Classed, IsPerm, Rearranged, Ascending, Marks, NextBucket, Keyed;
    ghost var f, bits, e := fmap[..], Bits(bhtab[..]), eclass[..];
    RefiningBits(b, f, bits, h, r);
    RefiningBits(b, f0, bits0, h, -1);
    BucketBounds(bits, nblock, r, l, r2);
    PassKeys(f, e, f0, bits0, h, nblock);
    QSort3(fmap, eclass, l, r2);
    PermKept2(f, fmap[..], nblock, l, r2);
    MarkHeaders(fmap, eclass, bhtab, l, r2);
    RefineStep(b, f0, bits0, f, bits, fmap[..], Bits(bhtab[..]), e, h, r, l, r2);
  }

  /** Sorts and marks every bucket that still has inner ties. */
  method RefinePass(fmap: array<int>, eclass: array<int>, bhtab: array<Word>, nblock: nat, H: nat, ghost b: seq<int>)
    returns (nNotDone: nat)
    requires fmap != eclass && nblock == fmap.Length == eclass.Length == |b| && 0 < nblock <= 0x7fff_ffff
    requires H <= nblock && Headed(b, fmap[..], Bits(bhtab[..]), H)
    requires Classed(fmap[..], Bits(bhtab[..]), eclass[..], H, nblock)
    modifies fmap, bhtab
    ensures Headed(b, fmap[..], Bits(bhtab[..]), 2 * H)
    ensures nNotDone == 0 ==> Apart1(b, fmap[..], H)
  {
    hide Bits, Refining, Classed, IsPerm, Rearranged, Ascending, Marks, NextBucket, Uniform, Keyed, Apart1;
    ghost var f0, bits0, e := fmap[..], Bits(bhtab[..]), eclass[..];
    nNotDone := 0;
    var r := -1;
    while true
      invariant -1 <= r < nblock
      invariant Refining(b, fmap[..], Bits(bhtab[..]), H, r)
      invariant nNotDone == 0 ==> r == -1
      decreases nblock - r
    {
      ghost var f, bits := fmap[..], Bits(bhtab[..]);
      RefiningBits(b, f, bits, H, r);
      var k: int := NextClear(bhtab, r + 1, nblock + 1);
      var l := k - 1;
      if l >= nblock {
        PassEnd(b, f, bits, H, r, k);
        break;
      }
      ghost var k1 := k;
      assert k1 <= nblock;
      k := NextSet(bhtab, k, nblock);
      var r2 := k - 1;
      if r2 >= nblock { break; }
      FoundBucket(bits, nblock, r, k1, k);
      BucketBounds(bits, nblock, r, l, r2);
      if r2 > l {
        nNotDone := nNotDone + (r2 - l + 1);
        RefineBucket(fmap, eclass, bhtab, nblock, l, r2, H, b, r, f0, bits0);
      }
      r := r2;
    }
  }

  /** Neighbouring rows differ within the first h characters. */
  ghost predicate Apart1(b: seq<int>, f: seq<int>, h: nat) {
    IsPerm(f, |b|) && forall p :: 0 < p < |b| ==> Cmp(b, f[p - 1], f[p], h) < 0
  }

  lemma PassEnd(b: seq<int>, f: seq<int>, bits: seq<bool>, h: nat, r: int, k: int)
    requires Refining(b, f, bits, h, r) && Uniform(bits, r + 1, k, true) && k > |b|
    ensures Headed(b, f, bits, 2 * h)
    ensures r == -1 ==> Apart1(b, f, h)
  {
    RefineEnd(b, f, bits, h, r);
  }

  lemma BucketBounds(bits: seq<bool>, n: nat, r: int, l: int, r2: int)
    requires NextBucket(bits, n, r, l, r2)
    ensures -1 <= r < l < r2 < n && n + 64 <= |bits| && bits[l]
    ensures forall z :: l < z <= r2 ==> !bits[z]
  {
  }

  lemma PassKeys(f: seq<int>, e: seq<int>, f0: seq<int>, bits0: seq<bool>, h: nat, n: nat)
    requires IsPerm(f, n) && Classed(f0, bits0, e, h, n) && IsPerm(f0, n)
    ensures Keyed(f, e, 0) && forall k :: 0 <= k < n ==> 0 <= e[k]
  {
    forall k | 0 <= k < n ensures 0 <= e[k] {
      PermCovers(f0, n, Shift(k, h, n));
      var i :| 0 <= i < n && f0[i] == Shift(k, h, n);
      assert Back(f0[i], h, n) == k;
    }
  }

  lemma PermKept2(f: seq<int>, g: seq<int>, n: nat, lo: int, hi: int)
    requires IsPerm(f, n) && Rearranged(f, g, lo, hi)
    ensures IsPerm(g, n)
  {
    PermKept(f, g, n);
  }

  /* ---- The whole sort ---- */

  lemma {:induction false} RowsInOrder(b: seq<int>, f: seq<int>, k: nat, p: nat, q: nat)
    requires IsPerm(f, |b|) && p <= q < |b|
    requires forall j :: 0 < j < |b| ==> Cmp(b, f[j - 1], f[j], k) <= 0
    ensures Cmp(b, f[p], f[q], k) <= 0
    decreases q
  {
    if p < q {
      RowsInOrder(b, f, k, p, q - 1);
      CmpTransitive(b, f[p], f[q - 1], f[q], k);
    } else {
      CmpSelf(b, f[p], k);
    }
  }

  /** Order on at least |b| characters, or strict order on fewer, is order of rotations. */
  lemma SortedEnough(b: seq<int>, f: seq<int>, bits: seq<bool>, h: nat, h2: nat)
    requires Headed(b, f, bits, h2) && (h2 > |b| || Apart1(b, f, h))
    ensures SortsRotations(b, f)
  {
    var n := |b|;
    forall j | 0 < j < n ensures Cmp(b, f[j - 1], f[j], n) <= 0 {
      assert Step(b, f, bits, j, h2);
      if h2 > n {
        CmpPrefix(b, f[j - 1], f[j], n, h2);
      } else if h <= n {
        CmpPrefix(b, f[j - 1], f[j], h, n);
      } else {
        CmpPrefix(b, f[j - 1], f[j], n, h);
      }
    }
    forall p, q | 0 <= p < q < n ensures Cmp(b, f[p], f[q], n) <= 0 {
      RowsInOrder(b, f, n, p, q);
    }
  }

  /** Rows sorted by rotation stand in the buckets of their first characters. */
  lemma SortedInBuckets(b: seq<int>, f0: seq<int>, f: seq<int>)
    requires IsPerm(f0, |b|) && InBuckets(b, f0) && SortsRotations(b, f)
    ensures InBuckets(b, f)
  {
    hide CountLess;
    forall p, q | 0 <= p < q < |b|
      ensures Cmp(b, f0[p], f0[q], 1) <= 0 && Cmp(b, f[p], f[q], 1) <= 0
    {
      BucketsAscend(b, f0, p, q);
      CmpPrefix(b, f[p], f[q], 1, |b|);
      assert Cmp(b, Next(f0[p], |b|), Next(f0[q], |b|), 0) == 0;
    }
    forall p | 0 <= p < |b| ensures b[f0[p]] == b[f[p]] {
      SortedUnique(b, f0, f, 1, p);
    }
  }

  /** Character counts left after the first i rows have been written back, the next one being due
      in bucket j. */
  ghost predicate CountsLeft(b: seq<int>, fc: seq<int>, i: nat, j: nat) {
    && |fc| == ALPHABET && i <= |b| && j <= ALPHABET && CountLess(b, |b|, j) <= i
    && (j < ALPHABET ==> i <= CountLess(b, |b|, j + 1) && fc[j] == CountLess(b, |b|, j + 1) - i)
    && forall c :: j < c < ALPHABET ==> fc[c] == CountEq(b, |b|, c)
  }

  lemma CountsSkip(b: seq<int>, fc: seq<int>, i: nat, j: nat)
    requires CountsLeft(b, fc, i, j) && j < ALPHABET && fc[j] == 0
    ensures CountsLeft(b, fc, i, j + 1)
  {
    if j + 1 < ALPHABET { CountSplit(b, |b|, j + 1); }
  }

  lemma CountsTake(b: seq<int>, f: seq<int>, fc: seq<int>, i: nat, j: nat)
    requires InBuckets(b, f) && CountsLeft(b, fc, i, j) && j < ALPHABET && fc[j] != 0 && i < |b|
    ensures b[f[i]] == j && CountsLeft(b, fc[j := fc[j] - 1], i + 1, j)
  {
    hide CountLess, CountEq;
    if b[f[i]] < j { CountLessGrows(b, |b|, b[f[i]] + 1, j); }
    if b[f[i]] > j { CountLessGrows(b, |b|, j + 1, b[f[i]]); }
  }

  /** Before the last row is written back there is a bucket left for it. */
  lemma CountsRemain(b: seq<int>, fc: seq<int>, i: nat, j: nat)
    requires Within(b, ALPHABET) && CountsLeft(b, fc, i, j) && i < |b|
    ensures j < ALPHABET
  {
    CountAll(b, ALPHABET, |b|, ALPHABET);
  }

  /** Rebuilds the block that the class words destroyed, from the order and the counts. */
  method Reconstruct(fmap: array<int>, eclass8: array<int>, ftabCopy: array<int>, nblock: nat, ghost b: seq<int>)
    requires fmap != eclass8 && fmap != ftabCopy && eclass8 != ftabCopy
    requires nblock == fmap.Length == |b| <= eclass8.Length && ftabCopy.Length == ALPHABET && Within(b, ALPHABET)
    requires forall c :: 0 <= c < ALPHABET ==> ftabCopy[c] == CountEq(b, nblock, c)
    requires IsPerm(fmap[..], nblock) && InBuckets(b, fmap[..])
    modifies eclass8, ftabCopy
    ensures eclass8[..nblock] == b
  {
    hide IsPerm, CountLess, CountEq, InBuckets, CountsLeft;
    ghost var f := fmap[..];
    PermRange(f, nblock);
    CountsAtStart(b, ftabCopy[..]);
    var j := 0;
    for i := 0 to nblock
      invariant 0 <= j <= ALPHABET && (i < nblock ==> j < ALPHABET)
      invariant CountsLeft(b, ftabCopy[..], i, j)
      invariant forall k :: 0 <= k < i ==> eclass8[f[k]] == b[f[k]]
    {
      while ftabCopy[j] == 0
        invariant 0 <= j < ALPHABET
        invariant CountsLeft(b, ftabCopy[..], i, j)
        invariant forall k :: 0 <= k < i ==> eclass8[f[k]] == b[f[k]]
        decreases ALPHABET - j
      {
        CountsSkip(b, ftabCopy[..], i, j);
        CountsRemain(b, ftabCopy[..], i, j + 1);
        j := j + 1;
      }
      ghost var fc := ftabCopy[..];
      CountsTake(b, f, fc, i, j);
      assert fmap[i] == f[i];
      PermDiffers(f, nblock, i);
      ghost var s8 := eclass8[..];
      ftabCopy[j] := ftabCopy[j] - 1;
      eclass8[fmap[i]] := j;
      assert eclass8[..] == s8[f[i] := j];
      assert ftabCopy[..] == fc[j := fc[j] - 1];
    }
    AllWritten(b, f, eclass8[..]);
  }

  lemma CountsAtStart(b: seq<int>, fc: seq<int>)
    requires |fc| == ALPHABET && Within(b, ALPHABET)
    requires forall c :: 0 <= c < ALPHABET ==> fc[c] == CountEq(b, |b|, c)
    ensures CountsLeft(b, fc, 0, 0)
  {
    CountAll(b, ALPHABET, |b|, 0);
    CountSplit(b, |b|, 0);
  }

  lemma AllWritten(b: seq<int>, f: seq<int>, s: seq<int>)
    requires IsPerm(f, |b|) && |b| <= |s|
    requires forall k :: 0 <= k < |b| ==> s[f[k]] == b[f[k]]
    ensures s[..|b|] == b
  {
    forall x | 0 <= x < |b| ensures s[x] == b[x] {
      PermCovers(f, |b|, x);
      var k :| 0 <= k < |b| && f[k] == x;
    }
  }

  /** fallbackSort: fmap ends as all rotations in ascending order, and the block is back in place. */
  method Sort(fmap: array<int>, eclass: array<int>, eclass8: array<int>, bhtab: array<Word>, nblock: nat)
    requires fmap != eclass && fmap != eclass8 && eclass != eclass8
    requires 0 < nblock == fmap.Length == eclass.Length <= eclass8.Length && nblock <= 0x3fff_ffff
    requires bhtab.Length >= 3 + nblock / 32
    requires Within(eclass8[..nblock], ALPHABET)
    modifies fmap, eclass, eclass8, bhtab
    ensures eclass8[..nblock] == old(eclass8[..nblock])
    ensures SortsRotations(eclass8[..nblock], fmap[..])
  {
    hide IsPerm, InBuckets, Lowered, Refining, Classed, Apart1, SortsRotations, Bits;
    ghost var b := eclass8[..nblock];
    var ftab, ftabCopy := CountBuckets(eclass8, nblock);
    Distribute(fmap, eclass8, ftab, nblock);
    ghost var f0 := fmap[..];
    assert fmap[..nblock] == f0;
    InitHeaders(bhtab, ftab, nblock, b, f0);
    var H := 1;
    while true
      invariant 1 <= H <= nblock && ftabCopy.Length == ALPHABET
      invariant Headed(b, fmap[..], Bits(bhtab[..]), H)
      invariant forall c :: 0 <= c < ALPHABET ==> ftabCopy[c] == CountEq(b, nblock, c)
      decreases nblock - H
    {
      RefiningBits(b, fmap[..], Bits(bhtab[..]), H, -1);
      AssignClasses(fmap, eclass, eclass8, bhtab, nblock, H);
      var nNotDone := RefinePass(fmap, eclass, bhtab, nblock, H, b);
      ghost var h := H;
      H := H * 2;
      if H > nblock || nNotDone == 0 {
        SortedEnough(b, fmap[..], Bits(bhtab[..]), h, H);
        break;
      }
    }
    SortedInBuckets(b, f0, fmap[..]);
    SortedPerm(b, fmap[..]);
    Reconstruct(fmap, eclass8, ftabCopy, nblock, b);
  }

  lemma SortedPerm(b: seq<int>, f: seq<int>)
    requires SortsRotations(b, f)
    ensures IsPerm(f, |b|)
  {
  }
}
