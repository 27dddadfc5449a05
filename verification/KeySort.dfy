/** The sorter behind the fallback block sort: an array of block positions is brought into
    ascending order of a key stored per position. */
module KeySort {
  import opened Permute
  import opened Partitioning
  import opened RangeStack

  /** Elements i..h-1 of t are those that followed them in s, all with keys below that of s[i]. */
  ghost predicate Shifted(s: seq<int>, t: seq<int>, e: seq<int>, i: int, h: int)
    requires |s| == |t| && 0 <= i <= h < |s| && Keyed(s, e, 0)
  {
    forall k :: i <= k < h ==> t[k] == s[k + 1] && e[s[i]] > e[s[k + 1]]
  }

  /** Elements behind h are in place. */
  ghost predicate TailKept(s: seq<int>, t: seq<int>, h: int)
    requires |s| == |t| && 0 <= h
  {
    forall k :: h < k < |s| ==> t[k] == s[k]
  }

  /** State of one insertion: t is s with s[i] moved up to position h, in strides of gap, past
      elements with smaller keys. */
  ghost predicate Inserting(s: seq<int>, t: seq<int>, e: seq<int>, lo: int, hi: int, i: int, h: int, gap: int) {
    && |s| == |t| && 0 <= lo <= i <= h <= hi < |s|
    && Keyed(s, e, 0) && Rearranged(s, t, lo, hi) && gap >= 1 && t[h] == s[i]
    && TailKept(s, t, h) && (gap == 1 ==> Shifted(s, t, e, i, h))
  }

  lemma InsertStart(s: seq<int>, e: seq<int>, lo: int, hi: int, i: int, gap: int)
    requires Keyed(s, e, 0) && 0 <= lo <= i <= hi < |s| && gap >= 1
    ensures Inserting(s, s, e, lo, hi, i, i, gap)
  {
  }

  lemma InsertStep(s: seq<int>, t: seq<int>, e: seq<int>, lo: int, hi: int, i: int, h: int, gap: int)
    requires Inserting(s, t, e, lo, hi, i, h, gap) && h + gap <= hi
    requires Keyed(t, e, 0) && e[s[i]] > e[t[h + gap]]
    ensures Keyed(t[h := t[h + gap]][h + gap := t[h]], e, 0)
    ensures Inserting(s, t[h := t[h + gap]][h + gap := t[h]], e, lo, hi, i, h + gap, gap)
  {
    hide Rearranged, Keyed, TailKept, Shifted;
    var u := t[h := t[h + gap]][h + gap := t[h]];
    SwapRearranges(t, h, h + gap, lo, hi);
    KeyedKept(t, u, e, 0, lo, hi);
    RearrangedTwice(s, t, u, lo, hi);
    TailStep(s, t, h, gap);
    if gap == 1 { ShiftStep(s, t, e, i, h); }
  }

  lemma TailStep(s: seq<int>, t: seq<int>, h: int, gap: int)
    requires |s| == |t| && 0 <= h && gap >= 1 && h + gap < |s| && TailKept(s, t, h)
    ensures t[h + gap] == s[h + gap] && TailKept(s, t[h := t[h + gap]][h + gap := t[h]], h + gap)
  {
  }

  lemma ShiftStep(s: seq<int>, t: seq<int>, e: seq<int>, i: int, h: int)
    requires 0 <= i <= h < |s| - 1 && |t| == |s| && Keyed(s, e, 0) && Keyed(t, e, 0) && Shifted(s, t, e, i, h)
    requires t[h + 1] == s[h + 1] && e[s[i]] > e[t[h + 1]]
    ensures Shifted(s, t[h := t[h + 1]][h + 1 := t[h]], e, i, h + 1)
  {
  }

  /** One insertion of the descending insertion sorts: fmap[i] moves up, in strides of gap. */
  method InsertUp(fmap: array<int>, eclass: array<int>, lo: int, i: int, hi: int, gap: int)
    requires fmap != eclass && 0 <= lo <= i && i + gap <= hi < fmap.Length && gap >= 1
    requires Keyed(fmap[..], eclass[..], 0)
    requires gap == 1 ==> Ascending(fmap[..], eclass[..], i + 1, hi)
    modifies fmap
    ensures Rearranged(old(fmap[..]), fmap[..], lo, hi)
    ensures Keyed(fmap[..], eclass[..], 0)
    ensures gap == 1 ==> Ascending(fmap[..], eclass[..], i, hi)
  {
    hide Inserting, Ascending, Rearranged;
    var tmp := fmap[i];
    var ecTmp := eclass[tmp];
    var j := i + gap;
    ghost var s, e := fmap[..], eclass[..];
    ghost var t := s;  // fmap with tmp put into the hole at j - gap
    InsertStart(s, e, lo, hi, i, gap);
    while j <= hi && ecTmp > eclass[fmap[j]]
      invariant i + gap <= j <= hi + gap
      invariant |t| == |s| && t[j - gap] == tmp
      invariant forall k :: 0 <= k < fmap.Length && k != j - gap ==> fmap[k] == t[k]
      invariant Keyed(t, e, 0)
      invariant Inserting(s, t, e, lo, hi, i, j - gap, gap)
    {
      InsertStep(s, t, e, lo, hi, i, j - gap, gap);
      fmap[j - gap] := fmap[j];
      t := t[j - gap := t[j]][j := tmp];
      j := j + gap;
    }
    fmap[j - gap] := tmp;
    assert fmap[..] == t;
    InsertDone(s, t, e, lo, hi, i, j - gap, gap);
  }

  lemma InsertDone(s: seq<int>, t: seq<int>, e: seq<int>, lo: int, hi: int, i: int, h: int, gap: int)
    requires Inserting(s, t, e, lo, hi, i, h, gap)
    requires Keyed(t, e, 0) && (h + gap <= hi ==> e[s[i]] <= e[t[h + gap]])
    requires gap == 1 ==> Ascending(s, e, i + 1, hi)
    ensures Rearranged(s, t, lo, hi)
    ensures gap == 1 ==> Ascending(t, e, i, hi)
  {
  }

  /** fallbackSimpleSort: a pass in strides of four, then an insertion sort. */
  method SimpleSort(fmap: array<int>, eclass: array<int>, lo: int, hi: int)
    requires fmap != eclass && 0 <= lo <= hi + 1 <= fmap.Length
    requires Keyed(fmap[..], eclass[..], 0)
    modifies fmap
    ensures Rearranged(old(fmap[..]), fmap[..], lo, hi)
    ensures Keyed(fmap[..], eclass[..], 0) && Ascending(fmap[..], eclass[..], lo, hi)
  {
    if lo == hi { return; }
    var i;
    if hi - lo > 3 {
      i := hi - 4;
      while i >= lo
        invariant lo - 1 <= i <= hi - 4
        invariant Rearranged(old(fmap[..]), fmap[..], lo, hi) && Keyed(fmap[..], eclass[..], 0)
      {
        InsertUp(fmap, eclass, lo, i, hi, 4);
        i := i - 1;
      }
    }
    i := hi - 1;
    while i >= lo
      invariant lo - 2 <= i <= hi - 1
      invariant Rearranged(old(fmap[..]), fmap[..], lo, hi) && Keyed(fmap[..], eclass[..], 0)
      invariant Ascending(fmap[..], eclass[..], i + 1, hi)
      invariant i == lo - 2 ==> hi == lo - 1
    {
      InsertUp(fmap, eclass, lo, i, hi, 1);
      i := i - 1;
    }
  }

  lemma SplitCut(g: seq<int>, e: seq<int>, med: int, lo: int, hi: int, n: int, m: int, c: int)
    requires Split(g, e, 0, med, lo, hi, n, m)
    requires c <= lo || n < c <= m || hi < c
    ensures Cut(g, e, lo, hi, c)
  {
  }

  /** How the two-range stack step leaves the pending set: the middle is done. */
  lemma SplitCovers(g: seq<int>, e: seq<int>, med: int, lo: int, hi: int, n: int, m: int)
    requires Split(g, e, 0, med, lo, hi, n, m)
    ensures lo <= n + 1 < m <= hi + 1
    ensures Covers(g, e, lo, hi, [(lo, n), (m, hi)])
    ensures Covers(g, e, lo, hi, [(m, hi), (lo, n)])
    ensures n == lo - 1 && m == hi + 1 ==> Covers(g, e, lo, hi, [])
  {
    forall c | c <= lo || n < c <= m || hi < c ensures Cut(g, e, lo, hi, c) {
      SplitCut(g, e, med, lo, hi, n, m, c);
    }
    assert 0 <= lo <= n + 1 < m <= hi + 1 <= |g| && Keyed(g, e, 0);
    hide Split, Cut, Keyed, Inside;
    CoversTwo(g, e, lo, hi, (lo, n), (m, hi));
    CoversTwo(g, e, lo, hi, (m, hi), (lo, n));
  }

  lemma AscendingCovers(g: seq<int>, e: seq<int>, lo: int, hi: int)
    requires 0 <= lo <= hi + 1 <= |g| && Keyed(g, e, 0) && Ascending(g, e, lo, hi)
    ensures Covers(g, e, lo, hi, [])
  {
  }

  /** The first |st| cells of the two stack arrays hold st. */
  ghost predicate Holds(los: seq<int>, his: seq<int>, st: seq<Range>) {
    |st| <= |los| == |his| && forall k :: 0 <= k < |st| ==> st[k] == (los[k], his[k])
  }

  /** fpush */
  method Push(stackLo: array<int>, stackHi: array<int>, sp: int, lz: int, hz: int, ghost st: seq<Range>)
    returns (sp': int)
    requires stackLo != stackHi && Holds(stackLo[..], stackHi[..], st) && |st| == sp < stackLo.Length
    modifies stackLo, stackHi
    ensures Holds(stackLo[..], stackHi[..], st + [(lz, hz)]) && sp' == sp + 1
  {
    stackLo[sp] := lz;
    stackHi[sp] := hz;
    sp' := sp + 1;
  }

  /** fpop */
  method Pop(stackLo: array<int>, stackHi: array<int>, sp: int, ghost st: seq<Range>)
    returns (sp': int, lz: int, hz: int)
    requires Holds(stackLo[..], stackHi[..], st) && |st| == sp > 0
    ensures sp' == sp - 1 && st == st[..sp'] + [(lz, hz)]
    ensures Holds(stackLo[..], stackHi[..], st[..sp'])
  {
    sp' := sp - 1;
    lz, hz := stackLo[sp'], stackHi[sp'];
    assert st[sp'] == (lz, hz);
  }

  /** Between two stack operations: f is s rearranged, st is all that is left to sort, and st is a
      shallow tower. */
  ghost predicate Sorting(s: seq<int>, f: seq<int>, e: seq<int>, lo0: int, hi0: int, st: seq<Range>) {
    && Rearranged(s, f, lo0, hi0) && Pending(f, e, lo0, hi0, st) && hi0 < 0x7fff_ffff
    && Tower(st) && Total(st) <= Size((lo0, hi0))
  }

  lemma SortingStart(s: seq<int>, e: seq<int>, lo0: int, hi0: int)
    requires Keyed(s, e, 0) && 0 <= lo0 <= hi0 < |s| && hi0 < 0x7fff_ffff
    ensures Sorting(s, s, e, lo0, hi0, [(lo0, hi0)])
  {
    AllPending(s, e, lo0, hi0);
    assert [(lo0, hi0)][1..] == [];
  }

  lemma SortingTop(s: seq<int>, f: seq<int>, e: seq<int>, lo0: int, hi0: int, rest: seq<Range>, lo: int, hi: int)
    requires Sorting(s, f, e, lo0, hi0, rest + [(lo, hi)])
    ensures lo0 <= lo <= hi + 1 && hi <= hi0 && |rest| < 65 && Keyed(f, e, 0)
    ensures Total(rest + [(lo, hi)]) == Total(rest) + Size((lo, hi))
  {
    hide Cut, Rearranged, Tower;
    var st := rest + [(lo, hi)];
    assert st[|rest|] == (lo, hi);
    TotalAppend(rest, [(lo, hi)]);
    assert [(lo, hi)][1..] == [];
    TowerShallow(st);
  }

  lemma SortingStep(s: seq<int>, f: seq<int>, g: seq<int>, e: seq<int>, lo0: int, hi0: int,
                    rest: seq<Range>, lo: int, hi: int, top: seq<Range>)
    requires Sorting(s, f, e, lo0, hi0, rest + [(lo, hi)]) && Rearranged(f, g, lo, hi)
    requires Covers(g, e, lo, hi, top) && Tower(top) && Total(top) <= Size((lo, hi))
    ensures Sorting(s, g, e, lo0, hi0, rest + top)
    ensures Total(rest + top) == Total(rest) + Total(top)
  {
    hide Cut, Pending, Covers;
    SortingTop(s, f, e, lo0, hi0, rest, lo, hi);
    RefineTop(f, g, e, lo0, hi0, rest, lo, hi, top);
    TowerReplace(rest, (lo, hi), top);
    TotalAppend(rest, top);
  }

  lemma SortingEnd(s: seq<int>, f: seq<int>, e: seq<int>, lo0: int, hi0: int)
    requires Sorting(s, f, e, lo0, hi0, [])
    ensures Rearranged(s, f, lo0, hi0) && Keyed(f, e, 0) && Ascending(f, e, lo0, hi0)
  {
    NonePending(f, e, lo0, hi0);
  }

  /** The larger of two ranges goes under the smaller. */
  lemma TwoTower(a: Range, b: Range)
    requires Size(a) >= Size(b) && Size(a) >= 1
    ensures Tower([a, b]) && Total([a, b]) == Size(a) + Size(b)
  {
    assert [a, b][1..] == [b] && [b][1..] == [];
  }

  lemma MedOccurs(f: seq<int>, e: seq<int>, lo: int, hi: int, k: int)
    requires Keyed(f, e, 0) && 0 <= lo <= k <= hi < |f|
    ensures 0 <= f[k] < |e| && KeyOccurs(f, e, 0, e[f[k]], lo, hi)
  {
    assert e[f[k] + 0] == e[f[k]];
  }

  /** The larger of the two outer ranges is pushed first. */
  method PushBoth(stackLo: array<int>, stackHi: array<int>, sp: int, lo: int, n: int, m: int, hi: int,
                  ghost rest: seq<Range>) returns (sp': int, ghost top: seq<Range>)
    requires stackLo != stackHi && Holds(stackLo[..], stackHi[..], rest) && |rest| == sp < stackLo.Length - 1
    requires lo <= n + 1 < m <= hi + 1 && (lo <= n || m <= hi)
    modifies stackLo, stackHi
    ensures Holds(stackLo[..], stackHi[..], rest + top) && sp' == |rest + top|
    ensures top == [(lo, n), (m, hi)] || top == [(m, hi), (lo, n)]
    ensures Tower(top) && Total(top) < Size((lo, hi))
  {
    hide Holds, Tower, Total;
    if n - lo > hi - m {
      sp' := Push(stackLo, stackHi, sp, lo, n, rest);
      sp' := Push(stackLo, stackHi, sp', m, hi, rest + [(lo, n)]);
      TwoTower((lo, n), (m, hi));
      top := [(lo, n), (m, hi)];
      assert rest + [(lo, n)] + [(m, hi)] == rest + top;
    } else {
      sp' := Push(stackLo, stackHi, sp, m, hi, rest);
      sp' := Push(stackLo, stackHi, sp', lo, n, rest + [(m, hi)]);
      TwoTower((m, hi), (lo, n));
      top := [(m, hi), (lo, n)];
      assert rest + [(m, hi)] + [(lo, n)] == rest + top;
    }
  }

  /** fallbackQSort3 */
  method QSort3(fmap: array<int>, eclass: array<int>, loSt: int, hiSt: int)
    requires fmap != eclass && 0 <= loSt <= hiSt < fmap.Length <= 0x7fff_ffff
    requires Keyed(fmap[..], eclass[..], 0)
    modifies fmap
    ensures Rearranged(old(fmap[..]), fmap[..], loSt, hiSt)
    ensures Keyed(fmap[..], eclass[..], 0) && Ascending(fmap[..], eclass[..], loSt, hiSt)
  {
    hide Keyed, Rearranged, Ascending, Covers, Split, KeyOccurs, Tower, Sorting, Holds, Total;
    var stackLo, stackHi := new int[100], new int[100];
    ghost var s, e := fmap[..], eclass[..];
    ghost var st: seq<Range> := [];
    var r := 0;
    HoldsNothing(stackLo[..], stackHi[..]);
    var sp := Push(stackLo, stackHi, 0, loSt, hiSt, st);
    st := [] + [(loSt, hiSt)];
    assert st == [(loSt, hiSt)];
    SortingStart(s, e, loSt, hiSt);
    while sp > 0
      invariant |st| == sp && Holds(stackLo[..], stackHi[..], st)
      invariant Sorting(s, fmap[..], e, loSt, hiSt, st)
      decreases Total(st), sp
    {
      ghost var f := fmap[..];
      var lo, hi;
      ghost var depth := sp;
      sp, lo, hi := Pop(stackLo, stackHi, sp, st);
      ghost var rest := st[..sp];
      SortingTop(s, f, e, loSt, hiSt, rest, lo, hi);
      assert depth < 99;  // AssertH 1004
      if hi - lo < 10 {
        SimpleSort(fmap, eclass, lo, hi);
        AscendingCovers(fmap[..], e, lo, hi);
        SortingSmall(s, f, fmap[..], e, loSt, hiSt, rest, lo, hi);
        st := rest;
        continue;
      }
      r := (r * 7621 + 1) % 32768;
      var r3 := r % 3;
      var k := if r3 == 0 then lo else if r3 == 1 then (lo + hi) / 2 else hi;
      MedOccurs(f, e, lo, hi, k);
      var med := eclass[fmap[k]];
      var allEqual, n, m := SplitRange(fmap, eclass, lo, hi, 0, med);
      ghost var top: seq<Range>;
      SplitCovers(fmap[..], e, med, lo, hi, n, m);
      if allEqual {
        SortingSmall(s, f, fmap[..], e, loSt, hiSt, rest, lo, hi);
        st := rest;
        continue;
      }
      sp, top := PushBoth(stackLo, stackHi, sp, lo, n, m, hi, rest);
      SortingStep(s, f, fmap[..], e, loSt, hiSt, rest, lo, hi, top);
      st := rest + top;
    }
    assert st == [];
    SortingEnd(s, fmap[..], e, loSt, hiSt);
  }

  lemma HoldsNothing(los: seq<int>, his: seq<int>)
    requires |los| == |his|
    ensures Holds(los, his, [])
  {
  }

  /** A range that is in order needs no entry. */
  lemma SortingSmall(s: seq<int>, f: seq<int>, g: seq<int>, e: seq<int>, lo0: int, hi0: int,
                     rest: seq<Range>, lo: int, hi: int)
    requires Sorting(s, f, e, lo0, hi0, rest + [(lo, hi)]) && Rearranged(f, g, lo, hi)
    requires Covers(g, e, lo, hi, [])
    ensures Sorting(s, g, e, lo0, hi0, rest)
    ensures Total(rest + [(lo, hi)]) == Total(rest) + Size((lo, hi))
  {
    hide Sorting, Rearranged, Covers;
    SortingTop(s, f, e, lo0, hi0, rest, lo, hi);
    SortingStep(s, f, g, e, lo0, hi0, rest, lo, hi, []);
    assert rest + [] == rest;
  }
}
