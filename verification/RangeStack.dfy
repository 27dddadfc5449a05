/** The explicit stack of ranges both quicksorts keep: which boundaries are already in final order,
    and why the stack stays shallow. The final order is given by a weight per pointer. */
module RangeStack {
  import opened Permute
  import opened Powers

  type Range = (int, int)

  /** Nothing in lo..c-1 outweighs anything in c..hi. */
  ghost predicate Cut(f: seq<int>, w: seq<int>, lo: int, hi: int, c: int)
    requires Keyed(f, w, 0) && 0 <= lo && hi < |f|
  {
    forall p, q :: lo <= p < c <= q <= hi ==> w[f[p]] <= w[f[q]]
  }

  /** The boundary c lies strictly inside some range of st. */
  ghost predicate Inside(st: seq<Range>, c: int) {
    exists k :: 0 <= k < |st| && st[k].0 < c <= st[k].1
  }

  /** Ranges may be empty; no range has an end of another strictly inside. */
  ghost predicate Apart(r: Range, s: Range) {
    r.1 + 1 <= s.0 || s.1 + 1 <= r.0
  }

  /** What is left to sort between lo and hi is inside the ranges of st. */
  ghost predicate Pending(f: seq<int>, w: seq<int>, lo: int, hi: int, st: seq<Range>) {
    && Keyed(f, w, 0) && 0 <= lo <= hi + 1 <= |f|
    && (forall k :: 0 <= k < |st| ==> lo <= st[k].0 <= st[k].1 + 1 && st[k].1 <= hi)
    && (forall k :: 0 <= k < |st| ==> Cut(f, w, lo, hi, st[k].0) && Cut(f, w, lo, hi, st[k].1 + 1))
    && (forall j, k :: 0 <= j < k < |st| ==> Apart(st[j], st[k]))
    && (forall c :: lo < c <= hi && !Inside(st, c) ==> Cut(f, w, lo, hi, c))
  }

  /** A rearrangement of lo..hi keeps every cut that is not strictly inside it. */
  lemma CutKept(f: seq<int>, g: seq<int>, w: seq<int>, lo0: int, hi0: int, lo: int, hi: int, c: int)
    requires Keyed(f, w, 0) && Keyed(g, w, 0) && Rearranged(f, g, lo, hi) && 0 <= lo0 <= lo && hi <= hi0 < |f|
    requires Cut(f, w, lo0, hi0, c) && !(lo < c <= hi)
    ensures Cut(g, w, lo0, hi0, c)
  {
    forall p, q | lo0 <= p < c <= q <= hi0 ensures w[g[p]] <= w[g[q]] {
      var p', q' := p, q;
      if lo <= p <= hi { p' := Origin(f, g, lo, hi, p); }
      if lo <= q <= hi { q' := Origin(f, g, lo, hi, q); }
      assert lo0 <= p' < c <= q' <= hi0;
    }
  }

  /** A cut of a stretch between two cuts is a cut of the whole. */
  lemma CutWidens(g: seq<int>, w: seq<int>, lo0: int, hi0: int, lo: int, hi: int, c: int)
    requires Keyed(g, w, 0) && 0 <= lo0 <= lo && hi <= hi0 < |g|
    requires Cut(g, w, lo0, hi0, lo) && Cut(g, w, lo0, hi0, hi + 1) && Cut(g, w, lo, hi, c) && lo <= c <= hi + 1
    ensures Cut(g, w, lo0, hi0, c)
  {
  }

  /** The ranges of top take over the stretch lo..hi: they stay in it, with cut ends, apart from each
      other, and every boundary of the stretch is cut or inside one of them. */
  ghost predicate Covers(g: seq<int>, w: seq<int>, lo: int, hi: int, top: seq<Range>) {
    && Keyed(g, w, 0) && 0 <= lo <= hi + 1 <= |g|
    && (forall k :: 0 <= k < |top| ==> lo <= top[k].0 <= top[k].1 + 1 && top[k].1 <= hi)
    && (forall k :: 0 <= k < |top| ==> Cut(g, w, lo, hi, top[k].0) && Cut(g, w, lo, hi, top[k].1 + 1))
    && (forall j, k :: 0 <= j < k < |top| ==> Apart(top[j], top[k]))
    && (forall c :: lo < c <= hi && !Inside(top, c) ==> Cut(g, w, lo, hi, c))
  }

  lemma InsideThree(r0: Range, r1: Range, r2: Range, c: int)
    ensures Inside([r0, r1, r2], c) <==> r0.0 < c <= r0.1 || r1.0 < c <= r1.1 || r2.0 < c <= r2.1
  {
    var st := [r0, r1, r2];
    assert st[0] == r0 && st[1] == r1 && st[2] == r2;
  }

  /** One range of a covering. */
  ghost predicate Covering(g: seq<int>, w: seq<int>, lo: int, hi: int, r: Range)
    requires Keyed(g, w, 0) && 0 <= lo && hi < |g|
  {
    lo <= r.0 <= r.1 + 1 && r.1 <= hi && Cut(g, w, lo, hi, r.0) && Cut(g, w, lo, hi, r.1 + 1)
  }

  /** A covering by three ranges, spelled out. */
  lemma CoversThree(g: seq<int>, w: seq<int>, lo: int, hi: int, r0: Range, r1: Range, r2: Range)
    requires Keyed(g, w, 0) && 0 <= lo <= hi + 1 <= |g|
    ensures Covers(g, w, lo, hi, [r0, r1, r2]) <==>
            && Covering(g, w, lo, hi, r0) && Covering(g, w, lo, hi, r1) && Covering(g, w, lo, hi, r2)
            && Apart(r0, r1) && Apart(r0, r2) && Apart(r1, r2)
            && forall c :: lo < c <= hi && !(r0.0 < c <= r0.1 || r1.0 < c <= r1.1 || r2.0 < c <= r2.1) ==>
                 Cut(g, w, lo, hi, c)
  {
    hide Cut, Apart, Keyed, Inside;
    var st := [r0, r1, r2];
    assert st[0] == r0 && st[1] == r1 && st[2] == r2;
    forall c ensures Inside(st, c) <==> r0.0 < c <= r0.1 || r1.0 < c <= r1.1 || r2.0 < c <= r2.1 {
      InsideThree(r0, r1, r2, c);
    }
  }

  lemma InsideTwo(r0: Range, r1: Range, c: int)
    ensures Inside([r0, r1], c) <==> r0.0 < c <= r0.1 || r1.0 < c <= r1.1
  {
    var st := [r0, r1];
    assert st[0] == r0 && st[1] == r1;
  }

  /** A covering by two ranges. */
  lemma CoversTwo(g: seq<int>, w: seq<int>, lo: int, hi: int, r0: Range, r1: Range)
    requires Keyed(g, w, 0) && 0 <= lo <= hi + 1 <= |g|
    requires Covering(g, w, lo, hi, r0) && Covering(g, w, lo, hi, r1) && Apart(r0, r1)
    requires forall c :: lo < c <= hi && !(r0.0 < c <= r0.1 || r1.0 < c <= r1.1) ==> Cut(g, w, lo, hi, c)
    ensures Covers(g, w, lo, hi, [r0, r1])
  {
    hide Cut, Apart, Keyed, Inside;
    forall c ensures Inside([r0, r1], c) <==> r0.0 < c <= r0.1 || r1.0 < c <= r1.1 {
      InsideTwo(r0, r1, c);
    }
  }

  lemma RefineEnds(f: seq<int>, g: seq<int>, w: seq<int>, lo0: int, hi0: int, rest: seq<Range>,
                   lo: int, hi: int, top: seq<Range>, r: Range)
    requires Pending(f, w, lo0, hi0, rest + [(lo, hi)]) && Rearranged(f, g, lo, hi) && Covers(g, w, lo, hi, top)
    requires r in rest || r in top
    ensures lo0 <= lo && hi <= hi0 && lo0 <= r.0 <= r.1 + 1 && r.1 <= hi0 < |g|
    ensures Cut(g, w, lo0, hi0, r.0) && Cut(g, w, lo0, hi0, r.1 + 1)
  {
    var st := rest + [(lo, hi)];
    assert st[|rest|] == (lo, hi);
    if r in rest {
      var k :| 0 <= k < |rest| && rest[k] == r;
      assert st[k] == r && Apart(st[k], st[|rest|]);
      CutKept(f, g, w, lo0, hi0, lo, hi, r.0);
      CutKept(f, g, w, lo0, hi0, lo, hi, r.1 + 1);
    } else {
      CutKept(f, g, w, lo0, hi0, lo, hi, lo);
      CutKept(f, g, w, lo0, hi0, lo, hi, hi + 1);
      CutWidens(g, w, lo0, hi0, lo, hi, r.0);
      CutWidens(g, w, lo0, hi0, lo, hi, r.1 + 1);
    }
  }

  lemma RefineApart(f: seq<int>, g: seq<int>, w: seq<int>, lo0: int, hi0: int, rest: seq<Range>,
                    lo: int, hi: int, top: seq<Range>, j: nat, k: nat)
    requires Pending(f, w, lo0, hi0, rest + [(lo, hi)]) && Covers(g, w, lo, hi, top)
    requires j < k < |rest + top|
    ensures Apart((rest + top)[j], (rest + top)[k])
  {
    hide Cut, Inside;
    var st, m := rest + [(lo, hi)], |rest|;
    assert st[m] == (lo, hi);
    if k < m {
      assert st[j] == rest[j] && st[k] == rest[k];
    } else if j < m {
      assert st[j] == rest[j] && Apart(st[j], st[m]);
    }
  }

  lemma InsideBoth(rest: seq<Range>, top: seq<Range>, c: int)
    ensures Inside(rest + top, c) <==> Inside(rest, c) || Inside(top, c)
  {
    var st := rest + top;
    if k :| 0 <= k < |rest| && rest[k].0 < c <= rest[k].1 { assert st[k] == rest[k]; }
    if k :| 0 <= k < |top| && top[k].0 < c <= top[k].1 { assert st[|rest| + k] == top[k]; }
  }

  lemma RefineInside(f: seq<int>, g: seq<int>, w: seq<int>, lo0: int, hi0: int, rest: seq<Range>,
                     lo: int, hi: int, top: seq<Range>, c: int)
    requires Pending(f, w, lo0, hi0, rest + [(lo, hi)]) && Rearranged(f, g, lo, hi) && Covers(g, w, lo, hi, top)
    requires lo0 < c <= hi0 && !Inside(rest + top, c)
    ensures hi0 < |g| && 0 <= lo0 && Cut(g, w, lo0, hi0, c)
  {
    var st, m := rest + [(lo, hi)], |rest|;
    assert st[m] == (lo, hi);
    if lo < c <= hi {
      CutKept(f, g, w, lo0, hi0, lo, hi, lo);
      CutKept(f, g, w, lo0, hi0, lo, hi, hi + 1);
      InsideBoth(rest, top, c);
      CutWidens(g, w, lo0, hi0, lo, hi, c);
    } else {
      InsideBoth(rest, top, c);
      InsideBoth(rest, [(lo, hi)], c);
      CutKept(f, g, w, lo0, hi0, lo, hi, c);
    }
  }

  /** The top range (lo, hi) is rearranged and replaced by ranges that cover it. */
  lemma RefineTop(f: seq<int>, g: seq<int>, w: seq<int>, lo0: int, hi0: int, rest: seq<Range>,
                  lo: int, hi: int, top: seq<Range>)
    requires Pending(f, w, lo0, hi0, rest + [(lo, hi)]) && Rearranged(f, g, lo, hi) && Covers(g, w, lo, hi, top)
    ensures Pending(g, w, lo0, hi0, rest + top)
  {
    assert |f| == |g|;
    hide Rearranged, Cut, Apart, Inside;
    var st := rest + top;
    forall k | 0 <= k < |st| ensures st[k] in rest || st[k] in top {
    }
    forall k | 0 <= k < |st|
      ensures lo0 <= st[k].0 <= st[k].1 + 1 && st[k].1 <= hi0
      ensures Cut(g, w, lo0, hi0, st[k].0) && Cut(g, w, lo0, hi0, st[k].1 + 1)
    {
      RefineEnds(f, g, w, lo0, hi0, rest, lo, hi, top, st[k]);
    }
    forall j, k | 0 <= j < k < |st| ensures Apart(st[j], st[k]) {
      RefineApart(f, g, w, lo0, hi0, rest, lo, hi, top, j, k);
    }
    forall c | lo0 < c <= hi0 && !Inside(st, c) ensures Cut(g, w, lo0, hi0, c) {
      RefineInside(f, g, w, lo0, hi0, rest, lo, hi, top, c);
    }
  }

  /** With nothing pending, the weights ascend. */
  lemma NonePending(f: seq<int>, w: seq<int>, lo: int, hi: int)
    requires Pending(f, w, lo, hi, [])
    ensures forall p, q :: lo <= p < q <= hi ==> w[f[p]] <= w[f[q]]
  {
    forall p, q | lo <= p < q <= hi ensures w[f[p]] <= w[f[q]] {
      assert !Inside([], q);
      assert Cut(f, w, lo, hi, q);
    }
  }

  /** At first everything is pending. */
  lemma AllPending(f: seq<int>, w: seq<int>, lo: int, hi: int)
    requires Keyed(f, w, 0) && 0 <= lo <= hi + 1 <= |f|
    ensures Pending(f, w, lo, hi, [(lo, hi)])
  {
    forall c | lo < c <= hi ensures Inside([(lo, hi)], c) {
      assert [(lo, hi)][0] == (lo, hi);
    }
  }

  /* Stack depth. Larger ranges are pushed first, so a range outweighs half of all above it. */

  function Size(r: Range): nat {
    if r.0 <= r.1 then r.1 - r.0 + 1 else 0
  }

  function Total(st: seq<Range>): nat {
    if |st| == 0 then 0 else Size(st[0]) + Total(st[1..])
  }

  ghost predicate Tower(st: seq<Range>) {
    |st| <= 1 || (Size(st[0]) >= 1 && 2 * Size(st[0]) >= Total(st[1..]) && Tower(st[1..]))
  }

  lemma {:induction false} TotalAppend(s: seq<Range>, t: seq<Range>)
    ensures Total(s + t) == Total(s) + Total(t)
  {
    if |s| == 0 {
      assert s + t == t;
    } else {
      assert (s + t)[1..] == s[1..] + t;
      TotalAppend(s[1..], t);
    }
  }

  /** Replacing the top range by ranges that together are no larger, in an order that is itself a
      tower, keeps the tower. */
  lemma {:induction false} TowerReplace(rest: seq<Range>, r: Range, top: seq<Range>)
    requires Tower(rest + [r]) && Tower(top) && Total(top) <= Size(r)
    ensures Tower(rest + top)
  {
    if |rest| == 0 {
      assert rest + top == top;
    } else {
      assert (rest + [r])[1..] == rest[1..] + [r];
      assert (rest + top)[1..] == rest[1..] + top;
      TowerReplace(rest[1..], r, top);
      TotalAppend(rest[1..], [r]);
      TotalAppend(rest[1..], top);
    }
  }

  /** A tower of m ranges holds at least 2^((m-2)/2) elements. */
  lemma {:induction false} TowerHeavy(st: seq<Range>)
    requires Tower(st) && |st| >= 2
    ensures Total(st) >= Pow2((|st| - 2) / 2)
  {
    if |st| >= 4 {
      var u := st[1..];
      var v := u[1..];
      TowerHeavy(v);
      assert Tower(u);
    } else if |st| == 3 {
      assert Size(st[0]) >= 1;
    }
  }

  /** No range of machine-integer size needs a stack of more than 65 ranges. */
  lemma TowerShallow(st: seq<Range>)
    requires Tower(st) && Total(st) <= 0x7fff_ffff
    ensures |st| <= 65
  {
    Pow2Is32();
    if |st| >= 66 {
      TowerHeavy(st);
      Pow2Grows(32, (|st| - 2) / 2);
      assert false;
    }
  }
}
