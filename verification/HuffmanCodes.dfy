/** Canonical Huffman codes: assigning them from the lengths, and the tables that decode them. */
module HuffmanCodes {
  import opened Bits
  import opened Counting
  import opened HuffmanTree
  import opened InverseBwt
  import opened Powers
  import Rotation

  const MAX_CODE_LEN := 23
  const MAX_LEN := 20

  /** The first code of length n, when lo is the shortest length. */
  function First(L: seq<int>, lo: nat, n: nat): nat {
    if n <= lo then 0 else 2 * (First(L, lo, n - 1) + CountEq(L, |L|, n - 1))
  }

  /** The code of symbol i: codes of one length are consecutive, in symbol order. */
  function Code(L: seq<int>, lo: nat, i: nat): nat
    requires i < |L| && 0 <= L[i]
  {
    First(L, lo, L[i]) + CountEq(L, i, L[i])
  }

  /** Lengths from lo to hi that do not ask for more than all code words. */
  ghost predicate Usable(L: seq<int>, lo: nat, hi: nat) {
    && 1 <= lo <= hi <= MAX_LEN && (forall i :: 0 <= i < |L| ==> lo <= L[i] <= hi)
    && Kraft(L, hi, |L|) <= Pow2(hi)
  }

  /* ---- Assigning ---- */

  /** BZ2_hbAssignCodes */
  method AssignCodes(code: array<int>, length: array<int>, minLen: nat, maxLen: nat, alphaSize: nat)
    requires code != length && alphaSize <= length.Length && alphaSize <= code.Length
    modifies code
    ensures forall i ::
              0 <= i < alphaSize && minLen <= length[i] <= maxLen ==> code[i] == Code(length[..alphaSize], minLen, i)
  {
    hide First, CountEq;
    ghost var L := length[..alphaSize];
    var vec := 0;
    FirstStarts(L, minLen);
    var n := minLen;
    while n <= maxLen
      invariant minLen <= n && vec == First(L, minLen, n)
      invariant forall i :: 0 <= i < alphaSize && minLen <= L[i] <= maxLen && L[i] < n ==> code[i] == Code(L, minLen, i)
    {
      CountStarts(L, n);
      for i := 0 to alphaSize
        invariant vec == First(L, minLen, n) + CountEq(L, i, n)
        invariant forall k ::
                    0 <= k < alphaSize && minLen <= L[k] <= maxLen && L[k] < n ==> code[k] == Code(L, minLen, k)
        invariant forall k :: 0 <= k < i && L[k] == n ==> code[k] == Code(L, minLen, k)
      {
        CountNext(L, i, n);
        if length[i] == n {
          code[i] := vec;
          vec := vec + 1;
        }
      }
      FirstNext(L, minLen, n);
      vec := 2 * vec;
      n := n + 1;
    }
  }

  lemma FirstStarts(L: seq<int>, lo: nat)
    ensures First(L, lo, lo) == 0
  {
  }

  lemma FirstNext(L: seq<int>, lo: nat, n: nat)
    requires n >= lo
    ensures First(L, lo, n + 1) == 2 * (First(L, lo, n) + CountEq(L, |L|, n))
  {
  }

  lemma CountStarts(L: seq<int>, n: nat)
    ensures CountEq(L, 0, n) == 0
  {
  }

  lemma CountNext(L: seq<int>, i: nat, n: int)
    requires i < |L|
    ensures CountEq(L, i + 1, n) == CountEq(L, i, n) + (if L[i] == n then 1 else 0)
  {
  }

  /* ---- The codes fit their lengths and are prefix-free ---- */

  /** The part of Kraft's sum that the first j symbols with codes shorter than n contribute. */
  ghost function KraftBelow(L: seq<int>, hi: nat, n: nat, j: nat): nat
    requires j <= |L| && forall i :: 0 <= i < |L| ==> 0 <= L[i] <= hi
  {
    if j == 0 then 0 else KraftBelow(L, hi, n, j - 1) + (if L[j - 1] < n then Pow2(hi - L[j - 1]) else 0)
  }

  lemma {:induction false} KraftBelowNext(L: seq<int>, hi: nat, n: nat, j: nat)
    requires j <= |L| && n <= hi && forall i :: 0 <= i < |L| ==> 0 <= L[i] <= hi
    ensures KraftBelow(L, hi, n + 1, j) == KraftBelow(L, hi, n, j) + CountEq(L, j, n) * Pow2(hi - n)
  {
    if j > 0 {
      KraftBelowNext(L, hi, n, j - 1);
      if L[j - 1] == n { Distribute(CountEq(L, j - 1, n), 1, Pow2(hi - n)); }
    }
  }

  lemma {:induction false} KraftBelowBound(L: seq<int>, hi: nat, n: nat, j: nat)
    requires j <= |L| && forall i :: 0 <= i < |L| ==> 0 <= L[i] <= hi
    ensures KraftBelow(L, hi, n, j) <= Kraft(L, hi, j)
  {
    if j > 0 { KraftBelowBound(L, hi, n, j - 1); }
  }

  lemma {:induction false} KraftBelowNone(L: seq<int>, hi: nat, n: nat, j: nat)
    requires j <= |L| && forall i :: 0 <= i < |L| ==> n <= L[i] <= hi
    ensures KraftBelow(L, hi, n, j) == 0
  {
    if j > 0 { KraftBelowNone(L, hi, n, j - 1); }
  }

  /** The codes before the first of length n take up exactly the code space of their symbols. */
  lemma {:induction false} FirstIsKraft(L: seq<int>, lo: nat, hi: nat, n: nat)
    requires lo <= n <= hi && forall i :: 0 <= i < |L| ==> lo <= L[i] <= hi
    ensures First(L, lo, n) * Pow2(hi - n) == KraftBelow(L, hi, n, |L|)
  {
    if n == lo {
      KraftBelowNone(L, hi, n, |L|);
    } else {
      FirstIsKraft(L, lo, hi, n - 1);
      KraftBelowNext(L, hi, n - 1, |L|);
      var f, c, m := First(L, lo, n - 1), CountEq(L, |L|, n - 1), Pow2(hi - n);
      assert Pow2(hi - (n - 1)) == 2 * m;
      assert First(L, lo, n) == 2 * (f + c);
      hide First, CountEq, KraftBelow, Pow2;
      TwiceBoth(f, c, m);
    }
  }

  lemma TwiceBoth(f: nat, c: nat, m: nat)
    ensures 2 * (f + c) * m == f * (2 * m) + c * (2 * m)
  {
    Distribute(f, c, 2 * m);
    Double(f + c, m);
  }

  /** No more codes are assigned than exist. */
  lemma CodesFit(L: seq<int>, lo: nat, hi: nat, n: nat)
    requires Usable(L, lo, hi) && lo <= n <= hi
    ensures First(L, lo, n) + CountEq(L, |L|, n) <= Pow2(n)
  {
    hide First, CountEq, KraftBelow, Kraft, Pow2;
    FirstIsKraft(L, lo, hi, n);
    KraftBelowNext(L, hi, n, |L|);
    KraftBelowBound(L, hi, n + 1, |L|);
    var m := Pow2(hi - n);
    Distribute(First(L, lo, n), CountEq(L, |L|, n), m);
    Pow2Sum(n, hi - n);
    FactorAtMost(First(L, lo, n) + CountEq(L, |L|, n), Pow2(n), m);
  }

  lemma FactorAtMost(x: nat, y: nat, m: nat)
    requires m >= 1 && x * m <= y * m
    ensures x <= y
  {
  }

  lemma CodeBounds(L: seq<int>, lo: nat, hi: nat, i: nat)
    requires Usable(L, lo, hi) && i < |L|
    ensures First(L, lo, L[i]) <= Code(L, lo, i) < First(L, lo, L[i]) + CountEq(L, |L|, L[i]) <= Pow2(L[i])
  {
    CodesFit(L, lo, hi, L[i]);
    CountEqGrows(L, i + 1, |L|, L[i]);
  }

  /** Longer codes begin above all shorter ones. */
  lemma {:induction false} FirstLeaves(L: seq<int>, lo: nat, n: nat, l: nat)
    requires lo <= n < l
    ensures First(L, lo, l) >= (First(L, lo, n) + CountEq(L, |L|, n)) * Pow2(l - n)
    decreases l
  {
    var x := First(L, lo, n) + CountEq(L, |L|, n);
    if l == n + 1 {
      assert Pow2(1) == 2;
    } else {
      FirstLeaves(L, lo, n, l - 1);
      Double(x, Pow2(l - 1 - n));
      assert Pow2(l - n) == 2 * Pow2(l - 1 - n);
    }
  }

  lemma QuotientAtLeast(v: nat, x: nat, m: nat)
    requires m >= 1 && v >= x * m
    ensures v / m >= x
  {
    Unfold(v, m);
    if v / m < x { ProductGap(m, v / m, x); }
  }

  /** A proper prefix of a code is above all codes of its length. */
  lemma PrefixAbove(L: seq<int>, lo: nat, hi: nat, i: nat, n: nat)
    requires Usable(L, lo, hi) && i < |L| && lo <= n < L[i]
    ensures Value(BitsOf(Code(L, lo, i), L[i])[..n]) >= First(L, lo, n) + CountEq(L, |L|, n)
  {
    var v, l := Code(L, lo, i), L[i];
    var x := First(L, lo, n) + CountEq(L, |L|, n);
    FirstLeaves(L, lo, n, l);
    QuotientAtLeast(v, x, Pow2(l - n));
    PrefixValue(L, lo, hi, i, n);
  }

  lemma PrefixValue(L: seq<int>, lo: nat, hi: nat, i: nat, n: nat)
    requires Usable(L, lo, hi) && i < |L| && n <= L[i]
    ensures Value(BitsOf(Code(L, lo, i), L[i])[..n]) == Code(L, lo, i) / Pow2(L[i] - n)
  {
    var v, l := Code(L, lo, i), L[i];
    CodeBounds(L, lo, hi, i);
    hide Code, First, CountEq, Value, BitsOf, Pow2, Kraft, Usable;
    PrefixSmall(v, l, n);
    HighBits(v, l, n);
    ValueOfBits(v / Pow2(l - n), n);
  }

  lemma PrefixSmall(v: nat, l: nat, n: nat)
    requires n <= l && v < Pow2(l)
    ensures 0 <= v / Pow2(l - n) < Pow2(n)
  {
    hide Pow2;
    Pow2Sum(n, l - n);
    QuotientBelow(v, Pow2(n), Pow2(l - n));
  }

  lemma QuotientBelow(v: nat, x: nat, m: nat)
    requires m >= 1 && v < x * m
    ensures v / m < x
  {
    Unfold(v, m);
    if v / m > x { ProductGap(m, x, v / m); }
  }

  /** The whole code read back is the code. */
  lemma WholeValue(L: seq<int>, lo: nat, hi: nat, i: nat)
    requires Usable(L, lo, hi) && i < |L|
    ensures Value(BitsOf(Code(L, lo, i), L[i])) == Code(L, lo, i)
  {
    CodeBounds(L, lo, hi, i);
    ValueOfBits(Code(L, lo, i), L[i]);
  }

  lemma CodesDiffer(L: seq<int>, lo: nat, i: nat, j: nat)
    requires i < |L| && j < |L| && i != j && L[i] == L[j] && 0 <= L[i]
    ensures Code(L, lo, i) != Code(L, lo, j)
  {
    if i < j { CountEqGrows(L, i + 1, j, L[i]); } else { CountEqGrows(L, j + 1, i, L[i]); }
  }

  lemma PrefixHead(s: seq<bool>, t: seq<bool>)
    requires |s| <= |t|
    ensures s <= t <==> s == t[..|s|]
  {
  }

  /** The code words of different symbols: neither begins with the other. */
  lemma PrefixFree(L: seq<int>, lo: nat, hi: nat, i: nat, j: nat)
    requires Usable(L, lo, hi) && i < |L| && j < |L| && i != j
    ensures !(BitsOf(Code(L, lo, i), L[i]) <= BitsOf(Code(L, lo, j), L[j]))
  {
    hide Value, BitsOf, Code, First, CountEq, Kraft;
    var s, t := BitsOf(Code(L, lo, i), L[i]), BitsOf(Code(L, lo, j), L[j]);
    WholeValue(L, lo, hi, i);
    WholeValue(L, lo, hi, j);
    CodeBounds(L, lo, hi, i);
    if L[i] <= L[j] {
      PrefixHead(s, t);
      if L[i] == L[j] {
        assert t[..L[i]] == t;
        CodesDiffer(L, lo, i, j);
      } else {
        PrefixAbove(L, lo, hi, j, L[i]);
      }
    }
  }

  /* ---- Decoding ---- */

  /** The tables the decoder needs for lengths L. */
  ghost predicate Decodes(L: seq<int>, lo: nat, hi: nat, limit: seq<int>, base: seq<int>, perm: seq<int>) {
    && |limit| == |base| == |perm| == MAX_ALPHA_SIZE && |L| <= MAX_ALPHA_SIZE && hi <= MAX_LEN
    && (forall n :: lo <= n <= hi ==> limit[n] == First(L, lo, n) + CountEq(L, |L|, n) - 1)
    && (forall n :: lo <= n <= hi ==> base[n] == First(L, lo, n) - CountLess(L, |L|, n))
    && (forall n :: hi < n < MAX_CODE_LEN ==> limit[n] == 0 && base[n] == |L|)
    && (forall i :: 0 <= i < |L| ==> Rank(L, i) < |L| && perm[Rank(L, i)] == i)
  }

  lemma {:induction false} CountBelow(L: seq<int>, j: nat, n: int)
    requires j <= |L| && forall i :: 0 <= i < |L| ==> L[i] < n
    ensures CountLess(L, j, n) == j
  {
    if j > 0 { CountBelow(L, j - 1, n); }
  }

  /** Every rank below the number of symbols is some symbol's. */
  lemma RankTaken(L: seq<int>, k: nat) returns (i: nat)
    requires k < |L|
    ensures i < |L| && Rank(L, i) == k
  {
    var ranks := seq(|L|, x requires 0 <= x < |L| => Rank(L, x));
    forall x | 0 <= x < |L| ensures 0 <= ranks[x] < |L| { RankBounds(L, x); }
    forall x, y | 0 <= x < y < |L| ensures ranks[x] != ranks[y] { RankInjective(L, x, y); }
    hide Rank;
    Rotation.PermCovers(ranks, |L|, k);
    i :| 0 <= i < |L| && ranks[i] == k;
  }

  /** Whatever bits the decoder reads, it looks only at entries of perm that belong to a symbol: what
      the others hold, from an earlier block perhaps, does not matter. */
  lemma OnlyAssigned(L: seq<int>, lo: nat, hi: nat, limit: seq<int>, base: seq<int>, perm: seq<int>, n: nat, v: int)
    requires Decodes(L, lo, hi, limit, base, perm) && lo <= n <= MAX_LEN && 0 < |L|
    requires 0 <= v <= limit[n] && v - base[n] >= 0
    ensures v - base[n] < |L| && 0 <= perm[v - base[n]] < |L|
  {
    hide Rank;
    if n <= hi {
      CountSplit(L, |L|, n);
      CountMost(L, |L|, n + 1);
    }
    hide CountLess, CountEq, First;
    var i := RankTaken(L, v - base[n]);
  }

  lemma {:induction false} CountMost(L: seq<int>, j: nat, n: int)
    requires j <= |L|
    ensures CountLess(L, j, n) <= j
  {
    if j > 0 { CountMost(L, j - 1, n); }
  }

  /* ---- Building the tables ---- */

  /** The symbols before symbol j of length n have been put into perm, by length and then by number. */
  ghost predicate Permuted(L: seq<int>, perm: seq<int>, n: nat, j: nat) {
    && |perm| == MAX_ALPHA_SIZE && |L| <= MAX_ALPHA_SIZE && j <= |L|
    && (forall i :: 0 <= i < |L| && (L[i] < n || (L[i] == n && i < j)) ==> Rank(L, i) < |L| && perm[Rank(L, i)] == i)
  }

  lemma PermStep(L: seq<int>, perm: seq<int>, n: nat, j: nat, pp: nat)
    requires Permuted(L, perm, n, j) && j < |L| && pp == CountLess(L, |L|, n) + CountEq(L, j, n)
    ensures L[j] == n ==> pp < MAX_ALPHA_SIZE && Permuted(L, perm[pp := j], n, j + 1)
    ensures L[j] != n ==> Permuted(L, perm, n, j + 1)
  {
    if L[j] == n {
      assert Rank(L, j) == pp;
      RankBounds(L, j);
      hide Rank, CountLess, CountEq;
      forall i | 0 <= i < |L| && (L[i] < n || (L[i] == n && i < j)) ensures Rank(L, i) != pp {
        RankInjective(L, i, j);
      }
    }
  }

  lemma PermNext(L: seq<int>, perm: seq<int>, n: nat)
    requires Permuted(L, perm, n, |L|)
    ensures Permuted(L, perm, n + 1, 0)
  {
  }

  lemma PermNone(L: seq<int>, perm: seq<int>, n: nat)
    requires |perm| == MAX_ALPHA_SIZE && |L| <= MAX_ALPHA_SIZE && forall i :: 0 <= i < |L| ==> n <= L[i]
    ensures Permuted(L, perm, n, 0)
  {
  }

  lemma {:induction false} NoneBelow(L: seq<int>, n: int, j: nat)
    requires j <= |L| && forall i :: 0 <= i < |L| ==> n <= L[i]
    ensures CountLess(L, j, n) == 0
  {
    if j > 0 { NoneBelow(L, n, j - 1); }
  }

  method FillPerm(perm: array<int>, length: array<int>, minLen: nat, maxLen: nat, alphaSize: nat)
    requires perm != length && perm.Length == MAX_ALPHA_SIZE && alphaSize <= MAX_ALPHA_SIZE
    requires alphaSize <= length.Length
    requires minLen <= maxLen
    requires forall i :: 0 <= i < alphaSize ==> minLen <= length[i] <= maxLen
    modifies perm
    ensures Permuted(length[..alphaSize], perm[..], maxLen + 1, 0)
  {
    hide Permuted, CountLess, CountEq;
    ghost var L := length[..alphaSize];
    var pp := 0;
    NoneBelow(L, minLen, alphaSize);
    PermNone(L, perm[..], minLen);
    for i := minLen to maxLen + 1
      invariant pp == CountLess(L, alphaSize, i) && Permuted(L, perm[..], i, 0)
    {
      CountStarts(L, i);
      for j := 0 to alphaSize
        invariant pp == CountLess(L, alphaSize, i) + CountEq(L, j, i) && Permuted(L, perm[..], i, j)
      {
        PermStep(L, perm[..], i, j, pp);
        CountNext(L, j, i);
        if length[j] == i {
          ghost var p := perm[..];
          perm[pp] := j;
          assert perm[..] == p[pp := j];
          pp := pp + 1;
        }
      }
      CountSplit(L, alphaSize, i);
      PermNext(L, perm[..], i);
    }
  }

  /** Counts of the lengths below each length. */
  method CountLengths(base: array<int>, length: array<int>, alphaSize: nat)
    requires base != length && base.Length == MAX_ALPHA_SIZE && alphaSize <= length.Length
    requires forall i :: 0 <= i < alphaSize ==> 1 <= length[i] <= MAX_LEN
    modifies base
    ensures forall k :: 0 <= k < MAX_CODE_LEN ==> base[k] == CountLess(length[..alphaSize], alphaSize, k)
  {
    ghost var L := length[..alphaSize];
    for i := 0 to MAX_CODE_LEN
      invariant forall k :: 0 <= k < i ==> base[k] == 0
    {
      base[i] := 0;
    }
    for i := 0 to alphaSize
      invariant forall k :: 0 <= k < MAX_CODE_LEN ==> base[k] == CountEq(L, i, k - 1)
    {
      base[length[i] + 1] := base[length[i] + 1] + 1;
    }
    NoneBelow(L, 0, alphaSize);
    CountNothingBelow(L, alphaSize);
    for i := 1 to MAX_CODE_LEN
      invariant forall k :: 0 <= k < i ==> base[k] == CountLess(L, alphaSize, k)
      invariant forall k :: i <= k < MAX_CODE_LEN ==> base[k] == CountEq(L, alphaSize, k - 1)
    {
      CountSplit(L, alphaSize, i - 1);
      base[i] := base[i] + base[i - 1];
    }
  }

  lemma {:induction false} CountNothingBelow(L: seq<int>, j: nat)
    requires j <= |L| && forall i :: 0 <= i < |L| ==> 0 <= L[i]
    ensures CountEq(L, j, -1) == 0
  {
    if j > 0 { CountNothingBelow(L, j - 1); }
  }

  /** BZ2_hbCreateDecodeTables. Only as many entries of perm are written as there are symbols. */
  method CreateDecodeTables(limit: array<int>, base: array<int>, perm: array<int>, length: array<int>,
                            minLen: nat, maxLen: nat, alphaSize: nat)
    requires limit != base && limit != perm && base != perm && length != limit && length != base && length != perm
    requires limit.Length == base.Length == perm.Length == MAX_ALPHA_SIZE
    requires 0 < alphaSize <= MAX_ALPHA_SIZE && alphaSize <= length.Length && 1 <= minLen <= maxLen <= MAX_LEN
    requires forall i :: 0 <= i < alphaSize ==> minLen <= length[i] <= maxLen
    modifies limit, base, perm
    ensures Decodes(length[..alphaSize], minLen, maxLen, limit[..], base[..], perm[..])
  {
    hide Permuted, CountLess, CountEq, First, Decodes;
    ghost var L := length[..alphaSize];
    FillPerm(perm, length, minLen, maxLen, alphaSize);
    CountLengths(base, length, alphaSize);
    FillLimit(limit, base, minLen, maxLen, L);
    FillBase(base, limit, minLen, maxLen, L);
    forall n | maxLen < n < MAX_CODE_LEN ensures CountLess(L, |L|, n) == |L| { CountBelow(L, |L|, n); }
    DecodesIntro(L, minLen, maxLen, limit[..], base[..], perm[..]);
  }

  method FillLimit(limit: array<int>, base: array<int>, minLen: nat, maxLen: nat, ghost L: seq<int>)
    requires limit != base && limit.Length == base.Length == MAX_ALPHA_SIZE && 1 <= minLen <= maxLen <= MAX_LEN
    requires forall k :: 0 <= k < MAX_CODE_LEN ==> base[k] == CountLess(L, |L|, k)
    modifies limit
    ensures forall n :: minLen <= n <= maxLen ==> limit[n] == First(L, minLen, n) + CountEq(L, |L|, n) - 1
    ensures forall n :: maxLen < n < MAX_CODE_LEN ==> limit[n] == 0
  {
    hide CountLess, CountEq, First;
    for i := 0 to MAX_CODE_LEN
      invariant forall n :: 0 <= n < i ==> limit[n] == 0
    {
      limit[i] := 0;
    }
    var vec := 0;
    FirstStarts(L, minLen);
    for i := minLen to maxLen + 1
      invariant vec == First(L, minLen, i)
      invariant forall n :: minLen <= n < i ==> limit[n] == First(L, minLen, n) + CountEq(L, |L|, n) - 1
      invariant forall n :: i <= n < MAX_CODE_LEN ==> limit[n] == 0
    {
      CountSplit(L, |L|, i);
      FirstNext(L, minLen, i);
      vec := vec + (base[i + 1] - base[i]);
      limit[i] := vec - 1;
      vec := 2 * vec;
    }
  }

  method FillBase(base: array<int>, limit: array<int>, minLen: nat, maxLen: nat, ghost L: seq<int>)
    requires limit != base && limit.Length == base.Length == MAX_ALPHA_SIZE && 1 <= minLen <= maxLen <= MAX_LEN
    requires forall k :: 0 <= k < MAX_CODE_LEN ==> base[k] == CountLess(L, |L|, k)
    requires forall n :: minLen <= n <= maxLen ==> limit[n] == First(L, minLen, n) + CountEq(L, |L|, n) - 1
    requires forall i :: 0 <= i < |L| ==> minLen <= L[i]
    modifies base
    ensures forall n :: minLen <= n <= maxLen ==> base[n] == First(L, minLen, n) - CountLess(L, |L|, n)
    ensures forall n :: maxLen < n < MAX_CODE_LEN ==> base[n] == old(base[n])
  {
    hide CountLess, CountEq, First;
    NoneBelow(L, minLen, |L|);
    FirstStarts(L, minLen);
    for i := minLen + 1 to maxLen + 1
      invariant forall n :: minLen <= n < i ==> base[n] == First(L, minLen, n) - CountLess(L, |L|, n)
      invariant forall n :: i <= n < MAX_CODE_LEN ==> base[n] == old(base[n])
    {
      FirstNext(L, minLen, i - 1);
      base[i] := 2 * (limit[i - 1] + 1) - base[i];
    }
  }

  lemma DecodesIntro(L: seq<int>, lo: nat, hi: nat, limit: seq<int>, base: seq<int>, perm: seq<int>)
    requires |limit| == |base| == |perm| == MAX_ALPHA_SIZE && hi <= MAX_LEN
    requires Permuted(L, perm, hi + 1, 0) && forall i :: 0 <= i < |L| ==> L[i] <= hi
    requires forall n :: lo <= n <= hi ==> limit[n] == First(L, lo, n) + CountEq(L, |L|, n) - 1
    requires forall n :: lo <= n <= hi ==> base[n] == First(L, lo, n) - CountLess(L, |L|, n)
    requires forall n :: hi < n < MAX_CODE_LEN ==> limit[n] == 0 && base[n] == |L|
    ensures Decodes(L, lo, hi, limit, base, perm)
  {
  }
}
