/** Three-way partitioning of a stretch of pointers, as both quicksorts do it: by the key found d
    places after each pointer. */
module Partitioning {
  import opened Permute

  /** fswap */
  method Swap(a: array<int>, i: int, j: int)
    requires 0 <= i < a.Length && 0 <= j < a.Length
    modifies a
    ensures a[..] == old(a[..])[i := old(a[j])][j := old(a[i])]
  {
    a[i], a[j] := a[j], a[i];
  }

  /** Partition in progress: equal, smaller, unseen, larger, equal. */
  ghost predicate ThreeWay(f: seq<int>, e: seq<int>, d: nat, med: int, lo: int, hi: int,
                           ltLo: int, unLo: int, unHi: int, gtHi: int) {
    && 0 <= lo <= ltLo <= unLo <= unHi + 1 && unHi <= gtHi <= hi < |f| && Keyed(f, e, d)
    && (forall k :: lo <= k < ltLo ==> e[f[k] + d] == med)
    && (forall k :: ltLo <= k < unLo ==> e[f[k] + d] < med)
    && (forall k :: unHi < k <= gtHi ==> e[f[k] + d] > med)
    && (forall k :: gtHi < k <= hi ==> e[f[k] + d] == med)
  }

  /** Partition done: smaller, equal, larger. */
  ghost predicate Split(f: seq<int>, e: seq<int>, d: nat, med: int, lo: int, hi: int, n: int, m: int) {
    && 0 <= lo <= n + 1 < m <= hi + 1 <= |f| && Keyed(f, e, d)
    && (forall k :: lo <= k <= n ==> e[f[k] + d] < med)
    && (forall k :: n < k < m ==> e[f[k] + d] == med)
    && (forall k :: m <= k <= hi ==> e[f[k] + d] > med)
  }

  /** What a partitioning step keeps: same pointers in the stretch, same keys known. */
  ghost predicate Scanned(s: seq<int>, f: seq<int>, e: seq<int>, d: nat, med: int, lo: int, hi: int,
                          ltLo: int, unLo: int, unHi: int, gtHi: int) {
    Rearranged(s, f, lo, hi) && ThreeWay(f, e, d, med, lo, hi, ltLo, unLo, unHi, gtHi)
  }

  lemma ScanStart(s: seq<int>, e: seq<int>, d: nat, med: int, lo: int, hi: int)
    requires 0 <= lo <= hi < |s| && Keyed(s, e, d)
    ensures Scanned(s, s, e, d, med, lo, hi, lo, lo, hi, hi)
  {
  }

  lemma ScanLow(s: seq<int>, f: seq<int>, e: seq<int>, d: nat, med: int, lo: int, hi: int,
                ltLo: int, unLo: int, unHi: int, gtHi: int)
    requires Scanned(s, f, e, d, med, lo, hi, ltLo, unLo, unHi, gtHi) && unLo <= unHi
    ensures 0 <= f[unLo] && f[unLo] + d < |e|
    ensures e[f[unLo] + d] == med ==>
              Scanned(s, f[unLo := f[ltLo]][ltLo := f[unLo]], e, d, med, lo, hi, ltLo + 1, unLo + 1, unHi, gtHi)
    ensures e[f[unLo] + d] < med ==> Scanned(s, f, e, d, med, lo, hi, ltLo, unLo + 1, unHi, gtHi)
  {
    hide Rearranged;
    SwapRearranges(f, unLo, ltLo, lo, hi);
    RearrangedTwice(s, f, f[unLo := f[ltLo]][ltLo := f[unLo]], lo, hi);
  }

  lemma ScanHigh(s: seq<int>, f: seq<int>, e: seq<int>, d: nat, med: int, lo: int, hi: int,
                 ltLo: int, unLo: int, unHi: int, gtHi: int)
    requires Scanned(s, f, e, d, med, lo, hi, ltLo, unLo, unHi, gtHi) && unLo <= unHi
    ensures 0 <= f[unHi] && f[unHi] + d < |e|
    ensures e[f[unHi] + d] == med ==>
              Scanned(s, f[unHi := f[gtHi]][gtHi := f[unHi]], e, d, med, lo, hi, ltLo, unLo, unHi - 1, gtHi - 1)
    ensures e[f[unHi] + d] > med ==> Scanned(s, f, e, d, med, lo, hi, ltLo, unLo, unHi - 1, gtHi)
  {
    hide Rearranged;
    SwapRearranges(f, unHi, gtHi, lo, hi);
    RearrangedTwice(s, f, f[unHi := f[gtHi]][gtHi := f[unHi]], lo, hi);
  }

  lemma ScanMid(s: seq<int>, f: seq<int>, e: seq<int>, d: nat, med: int, lo: int, hi: int,
                ltLo: int, unLo: int, unHi: int, gtHi: int)
    requires Scanned(s, f, e, d, med, lo, hi, ltLo, unLo, unHi, gtHi) && unLo <= unHi
    requires 0 <= f[unLo] && f[unLo] + d < |e| && 0 <= f[unHi] && f[unHi] + d < |e| && e[f[unLo] + d] > med
    requires e[f[unHi] + d] < med
    ensures Scanned(s, f[unLo := f[unHi]][unHi := f[unLo]], e, d, med, lo, hi, ltLo, unLo + 1, unHi - 1, gtHi)
  {
    hide Rearranged;
    SwapRearranges(f, unLo, unHi, lo, hi);
    RearrangedTwice(s, f, f[unLo := f[unHi]][unHi := f[unLo]], lo, hi);
  }

  /** First inner scan: runs up to a key above med, collecting keys equal to med at the low end. */
  method ScanUp(ptr: array<int>, keys: array<int>, ghost s: seq<int>, lo: int, hi: int, d: nat, med: int,
                ltLo0: int, unLo0: int, unHi: int, gtHi: int) returns (ltLo: int, unLo: int)
    requires ptr != keys && 0 <= lo <= ltLo0 <= unLo0 <= unHi + 1 && unHi <= hi < ptr.Length
    requires Scanned(s, ptr[..], keys[..], d, med, lo, hi, ltLo0, unLo0, unHi, gtHi)
    modifies ptr
    ensures Scanned(s, ptr[..], keys[..], d, med, lo, hi, ltLo, unLo, unHi, gtHi)
    ensures ltLo0 <= ltLo <= unLo && unLo0 <= unLo <= unHi + 1
    ensures unLo <= unHi ==> 0 <= ptr[unLo] && ptr[unLo] + d < keys.Length && keys[ptr[unLo] + d] > med
  {
    hide Scanned;
    ltLo, unLo := ltLo0, unLo0;
    while true
      invariant ltLo0 <= ltLo <= unLo && unLo0 <= unLo <= unHi + 1
      invariant Scanned(s, ptr[..], keys[..], d, med, lo, hi, ltLo, unLo, unHi, gtHi)
      decreases unHi - unLo
    {
      if unLo > unHi { break; }
      ScanLow(s, ptr[..], keys[..], d, med, lo, hi, ltLo, unLo, unHi, gtHi);
      var n := keys[ptr[unLo] + d] - med;
      if n == 0 {
        Swap(ptr, unLo, ltLo);
        ltLo := ltLo + 1;
        unLo := unLo + 1;
        continue;
      }
      if n > 0 { break; }
      unLo := unLo + 1;
    }
  }

  /** Second inner scan: runs down to a key below med, collecting keys equal to med at the high end. */
  method ScanDown(ptr: array<int>, keys: array<int>, ghost s: seq<int>, lo: int, hi: int, d: nat, med: int,
                  ltLo: int, unLo: int, unHi0: int, gtHi0: int) returns (unHi: int, gtHi: int)
    requires ptr != keys && 0 <= lo <= unLo <= unHi0 + 1 && unHi0 <= gtHi0 <= hi < ptr.Length
    requires Scanned(s, ptr[..], keys[..], d, med, lo, hi, ltLo, unLo, unHi0, gtHi0)
    requires unLo <= unHi0 ==> 0 <= ptr[unLo] && ptr[unLo] + d < keys.Length && keys[ptr[unLo] + d] > med
    modifies ptr
    ensures Scanned(s, ptr[..], keys[..], d, med, lo, hi, ltLo, unLo, unHi, gtHi)
    ensures unHi <= gtHi <= gtHi0 && unLo - 1 <= unHi <= unHi0
    ensures unLo <= unHi ==> 0 <= ptr[unHi] && ptr[unHi] + d < keys.Length && keys[ptr[unHi] + d] < med
    ensures unLo <= unHi ==> 0 <= ptr[unLo] && ptr[unLo] + d < keys.Length && keys[ptr[unLo] + d] > med
  {
    hide Scanned;
    unHi, gtHi := unHi0, gtHi0;
    while true
      invariant unHi <= gtHi <= gtHi0 && unLo - 1 <= unHi <= unHi0
      invariant Scanned(s, ptr[..], keys[..], d, med, lo, hi, ltLo, unLo, unHi, gtHi)
      invariant unLo <= unHi ==> 0 <= ptr[unLo] && ptr[unLo] + d < keys.Length && keys[ptr[unLo] + d] > med
      decreases unHi - unLo
    {
      if unLo > unHi { break; }
      ScanHigh(s, ptr[..], keys[..], d, med, lo, hi, ltLo, unLo, unHi, gtHi);
      var n := keys[ptr[unHi] + d] - med;
      if n == 0 {
        Swap(ptr, unHi, gtHi);
        gtHi := gtHi - 1;
        unHi := unHi - 1;
        continue;
      }
      if n < 0 { break; }
      unHi := unHi - 1;
    }
  }

  /** Both inner scans and the exchange that follows them, until the two scans meet. */
  method Partition(ptr: array<int>, keys: array<int>, lo: int, hi: int, d: nat, med: int)
    returns (ltLo: int, unLo: int, unHi: int, gtHi: int)
    requires ptr != keys && 0 <= lo <= hi < ptr.Length && Keyed(ptr[..], keys[..], d)
    modifies ptr
    ensures Scanned(old(ptr[..]), ptr[..], keys[..], d, med, lo, hi, ltLo, unLo, unHi, gtHi)
    ensures unHi == unLo - 1
    ensures lo <= ltLo <= unLo <= hi + 1 && unHi <= gtHi <= hi
  {
    hide Scanned, Keyed;
    ghost var s, e := ptr[..], keys[..];
    ltLo, unLo, unHi, gtHi := lo, lo, hi, hi;
    ScanStart(s, e, d, med, lo, hi);
    while true
      invariant lo <= ltLo <= unLo <= unHi + 1 && unHi <= gtHi <= hi
      invariant Scanned(s, ptr[..], e, d, med, lo, hi, ltLo, unLo, unHi, gtHi)
      decreases unHi - unLo
    {
      ltLo, unLo := ScanUp(ptr, keys, s, lo, hi, d, med, ltLo, unLo, unHi, gtHi);
      unHi, gtHi := ScanDown(ptr, keys, s, lo, hi, d, med, ltLo, unLo, unHi, gtHi);
      if unLo > unHi { break; }
      ScanMid(s, ptr[..], e, d, med, lo, hi, ltLo, unLo, unHi, gtHi);
      Swap(ptr, unLo, unHi);
      unLo := unLo + 1;
      unHi := unHi - 1;
    }
  }

  /** t is s with the n elements from p1 and the n elements from p2 exchanged. */
  ghost predicate Exchanged(s: seq<int>, t: seq<int>, p1: int, p2: int, n: int) {
    && |s| == |t| && 0 <= n && 0 <= p1 && p1 + n <= p2 && p2 + n <= |s|
    && (forall k :: p1 <= k < p1 + n ==> t[k] == s[k + (p2 - p1)])
    && (forall k :: p2 <= k < p2 + n ==> t[k] == s[k - (p2 - p1)])
    && (forall k :: 0 <= k < |s| && !(p1 <= k < p1 + n) && !(p2 <= k < p2 + n) ==> t[k] == s[k])
  }

  lemma ExchangeStart(s: seq<int>, p1: int, p2: int, lo: int, hi: int)
    requires 0 <= lo <= p1 <= p2 <= hi + 1 <= |s|
    ensures Exchanged(s, s, p1, p2, 0) && Rearranged(s, s, lo, hi)
  {
  }

  lemma ExchangeStep(s: seq<int>, t: seq<int>, p1: int, p2: int, n: int)
    requires Exchanged(s, t, p1, p2, n) && p1 + n < p2 && p2 + n < |s|
    ensures Exchanged(s, t[p1 + n := t[p2 + n]][p2 + n := t[p1 + n]], p1, p2, n + 1)
  {
  }

  /** fvswap and mvswap */
  method VectorSwap(ptr: array<int>, p1: int, p2: int, n: int, ghost lo: int, ghost hi: int)
    requires 0 <= n && 0 <= lo <= p1 && p1 + n <= p2 && p2 + n <= hi + 1 <= ptr.Length
    modifies ptr
    ensures Exchanged(old(ptr[..]), ptr[..], p1, p2, n)
    ensures Rearranged(old(ptr[..]), ptr[..], lo, hi)
  {
    hide Exchanged, Rearranged;
    ghost var s := ptr[..];
    ExchangeStart(s, p1, p2, lo, hi);
    var yyp1, yyp2, yyn := p1, p2, n;
    while yyn > 0
      invariant 0 <= yyn <= n && yyp1 == p1 + (n - yyn) && yyp2 == p2 + (n - yyn)
      invariant Exchanged(s, ptr[..], p1, p2, n - yyn)
      invariant Rearranged(s, ptr[..], lo, hi)
    {
      ghost var t := ptr[..];
      ExchangeStep(s, t, p1, p2, n - yyn);
      SwapRearranges(t, yyp1, yyp2, lo, hi);
      Swap(ptr, yyp1, yyp2);
      RearrangedTwice(s, t, ptr[..], lo, hi);
      yyp1, yyp2, yyn := yyp1 + 1, yyp2 + 1, yyn - 1;
    }
  }

  /** Folding the equal keys collected at the low end into the middle. */
  lemma FoldLow(s: seq<int>, t: seq<int>, e: seq<int>, d: nat, med: int, lo: int, hi: int,
                ltLo: int, unLo: int, gtHi: int, n: int)
    requires ThreeWay(s, e, d, med, lo, hi, ltLo, unLo, unLo - 1, gtHi)
    requires n == (if ltLo - lo < unLo - ltLo then ltLo - lo else unLo - ltLo)
    requires Exchanged(s, t, lo, unLo - n, n)
    ensures Keyed(t, e, d)
    ensures forall k :: lo <= k <= lo + unLo - ltLo - 1 ==> e[t[k] + d] < med
    ensures forall k :: lo + unLo - ltLo - 1 < k < unLo ==> e[t[k] + d] == med
    ensures forall k :: unLo <= k < |s| ==> t[k] == s[k]
  {
  }

  lemma FoldHigh(s: seq<int>, t: seq<int>, e: seq<int>, d: nat, med: int, hi: int, unLo: int, gtHi: int, m: int)
    requires Keyed(s, e, d) && 0 <= unLo <= gtHi + 1 && gtHi <= hi < |s|
    requires forall k :: unLo <= k <= gtHi ==> e[s[k] + d] > med
    requires forall k :: gtHi < k <= hi ==> e[s[k] + d] == med
    requires m == (if hi - gtHi < gtHi - (unLo - 1) then hi - gtHi else gtHi - (unLo - 1))
    requires Exchanged(s, t, unLo, hi - m + 1, m)
    ensures Keyed(t, e, d)
    ensures forall k :: unLo <= k < hi - (gtHi - (unLo - 1)) + 1 ==> e[t[k] + d] == med
    ensures forall k :: hi - (gtHi - (unLo - 1)) + 1 <= k <= hi ==> e[t[k] + d] > med
    ensures forall k :: 0 <= k < unLo ==> t[k] == s[k]
  {
  }

  /** The median is one of the keys, so the middle is not empty. */
  lemma SomeEqual(s: seq<int>, t: seq<int>, e: seq<int>, d: nat, med: int, lo: int, hi: int, n: int, m: int, k: int)
    requires Rearranged(s, t, lo, hi) && lo <= k <= hi && lo <= n + 1 <= m <= hi + 1 && Keyed(s, e, d) && Keyed(t, e, d)
    requires e[s[k] + d] == med
    requires forall j :: lo <= j <= n ==> e[t[j] + d] < med
    requires forall j :: m <= j <= hi ==> e[t[j] + d] > med
    ensures n + 1 < m
  {
    assert Rearranged(t, s, lo, hi);
    var j := Origin(t, s, lo, hi, k);
  }

  /** All pointers of the stretch have keys, and med is one of them. */
  ghost predicate KeyOccurs(f: seq<int>, e: seq<int>, d: nat, med: int, lo: int, hi: int) {
    && Keyed(f, e, d) && 0 <= lo <= hi < |f|
    && exists k :: lo <= k <= hi && e[f[k] + d] == med
  }

  lemma OccursKeyed(f: seq<int>, e: seq<int>, d: nat, med: int, lo: int, hi: int)
    requires KeyOccurs(f, e, d, med, lo, hi)
    ensures Keyed(f, e, d)
  {
  }

  /** Both folds together complete the partition. */
  lemma FoldBoth(s: seq<int>, t: seq<int>, u: seq<int>, v: seq<int>, e: seq<int>, d: nat, med: int,
                 lo: int, hi: int, ltLo: int, unLo: int, gtHi: int, n: int, m: int)
    requires KeyOccurs(s, e, d, med, lo, hi)
    requires Scanned(s, t, e, d, med, lo, hi, ltLo, unLo, unLo - 1, gtHi) && ltLo <= gtHi
    requires n == (if ltLo - lo < unLo - ltLo then ltLo - lo else unLo - ltLo)
    requires m == (if hi - gtHi < gtHi - (unLo - 1) then hi - gtHi else gtHi - (unLo - 1))
    requires Exchanged(t, u, lo, unLo - n, n) && Rearranged(t, u, lo, hi)
    requires Exchanged(u, v, unLo, hi - m + 1, m) && Rearranged(u, v, lo, hi)
    ensures Rearranged(s, v, lo, hi)
    ensures Split(v, e, d, med, lo, hi, lo + unLo - ltLo - 1, hi - (gtHi - (unLo - 1)) + 1)
    ensures lo <= lo + unLo - ltLo - 1 || hi - (gtHi - (unLo - 1)) + 1 <= hi
  {
    assert |u| == |t| && |v| == |u|;
    hide Rearranged, Exchanged;
    var k0 :| lo <= k0 <= hi && e[s[k0] + d] == med;
    FoldLow(t, u, e, d, med, lo, hi, ltLo, unLo, gtHi, n);
    FoldHigh(u, v, e, d, med, hi, unLo, gtHi, m);
    RearrangedTwice(s, t, u, lo, hi);
    RearrangedTwice(s, u, v, lo, hi);
    SomeEqual(s, v, e, d, med, lo, hi, lo + unLo - ltLo - 1, hi - (gtHi - (unLo - 1)) + 1, k0);
  }

  /** When the scans leave nothing between the two equal ends, all keys equal med. */
  lemma AllEqual(s: seq<int>, t: seq<int>, e: seq<int>, d: nat, med: int,
                 lo: int, hi: int, ltLo: int, unLo: int, gtHi: int)
    requires Scanned(s, t, e, d, med, lo, hi, ltLo, unLo, unLo - 1, gtHi) && gtHi < ltLo && lo <= hi
    ensures Rearranged(s, t, lo, hi) && Split(t, e, d, med, lo, hi, lo - 1, hi + 1)
  {
    hide Rearranged;
  }

  /** A whole partitioning round: scan, and fold the equal keys of both ends into the middle. When
      all keys are equal nothing is folded. */
  method SplitRange(ptr: array<int>, keys: array<int>, lo: int, hi: int, d: nat, med: int)
    returns (allEqual: bool, n: int, m: int)
    requires ptr != keys && 0 <= lo <= hi < ptr.Length && KeyOccurs(ptr[..], keys[..], d, med, lo, hi)
    modifies ptr
    ensures Rearranged(old(ptr[..]), ptr[..], lo, hi)
    ensures Split(ptr[..], keys[..], d, med, lo, hi, n, m)
    ensures allEqual ==> n == lo - 1 && m == hi + 1
    ensures !allEqual ==> lo <= n || m <= hi
  {
    hide Rearranged, Exchanged, Scanned, Split, KeyOccurs;
    ghost var s, e := ptr[..], keys[..];
    assert Keyed(s, e, d) by { OccursKeyed(s, e, d, med, lo, hi); }
    hide Keyed;
    var ltLo, unLo, unHi, gtHi := Partition(ptr, keys, lo, hi, d, med);
    ghost var t := ptr[..];
    if gtHi < ltLo {
      AllEqual(s, t, e, d, med, lo, hi, ltLo, unLo, gtHi);
      return true, lo - 1, hi + 1;
    }
    n := if ltLo - lo < unLo - ltLo then ltLo - lo else unLo - ltLo;
    VectorSwap(ptr, lo, unLo - n, n, lo, hi);
    ghost var u := ptr[..];
    m := if hi - gtHi < gtHi - unHi then hi - gtHi else gtHi - unHi;
    VectorSwap(ptr, unLo, hi - m + 1, m, lo, hi);
    FoldBoth(s, t, u, ptr[..], e, d, med, lo, hi, ltLo, unLo, gtHi, n, m);
    return false, lo + unLo - ltLo - 1, hi - (gtHi - unHi) + 1;
  }
}
