/** The three-way string quicksort of the main block sorter, on an explicit stack. */
module MainQSort3 {
  import opened MainCompare
  import opened MainSimpleSort
  import opened Partitioning
  import opened Permute
  import opened RangeStack
  import opened Rotation
  import opened RotationRank

  const DEPTH_THRESH := 14

  /** A character found after d equal ones orders the rotations. */
  /** A character of the mirrored block is one of the rotation that starts before it. */
  lemma CharAt(b: seq<int>, block: seq<int>, x: int, d: nat)
    requires Mirrored(b, block) && 0 <= x < |b| && d <= DEPTH_THRESH
    ensures x + d < |block| && 0 <= Adv(x, d, |b|) < |b| && block[x + d] == b[Adv(x, d, |b|)]
  {
    AdvIsFold(x, d, |b|);
    assert block[x + d] == b[Fold(x + d, |b|)];
  }

  lemma CharRanks(b: seq<int>, block: seq<int>, x: int, y: int, d: nat)
    requires Mirrored(b, block) && 0 <= x < |b| && 0 <= y < |b| && d <= DEPTH_THRESH && Cmp(b, x, y, d) == 0
    ensures x + d < |block| && y + d < |block|
    ensures block[x + d] < block[y + d] ==> Ranks(b)[x] <= Ranks(b)[y]
    ensures block[x + d] == block[y + d] ==> Cmp(b, x, y, d + 1) == 0
  {
    CharAt(b, block, x, d);
    CharAt(b, block, y, d);
    hide Mirrored, Ranks;
    CmpAdv(b, x, y, d, 1);
    OneCharacter(b, Adv(x, d, |b|), Adv(y, d, |b|));
    hide Cmp;
    if block[x + d] < block[y + d] {
      CmpPrefix(b, x, y, d + 1, |b|);
      RankOrder(b, x, y);
    }
  }

  lemma OneCharacter(b: seq<int>, i: int, j: int)
    requires 0 <= i < |b| && 0 <= j < |b|
    ensures b[i] < b[j] ==> Cmp(b, i, j, 1) < 0
    ensures b[i] == b[j] ==> Cmp(b, i, j, 1) == 0
  {
    assert Cmp(b, Next(i, |b|), Next(j, |b|), 0) == 0;
  }

  /** Ranges with their depths that take over the stretch lo..hi. */
  ghost predicate Takeover(b: seq<int>, g: seq<int>, lo: int, hi: int, top: seq<Range>, ds: seq<int>) {
    && Covers(g, Ranks(b), lo, hi, top) && |ds| == |top|
    && forall k :: 0 <= k < |top| ==>
         0 <= ds[k] <= DEPTH_THRESH + 1 && SharePrefix(b, g, top[k].0, top[k].1, ds[k])
  }

  lemma SplitCutRanks(b: seq<int>, block: seq<int>, g: seq<int>, med: int, lo: int, hi: int, n: int, m: int, d: nat,
                      c: int)
    requires Mirrored(b, block) && Split(g, block, d, med, lo, hi, n, m) && SharePrefix(b, g, lo, hi, d)
    requires d <= DEPTH_THRESH && Keyed(g, Ranks(b), 0)
    requires c <= lo || hi < c || c == n + 1 || c == m
    ensures hi < |g| && 0 <= lo && Cut(g, Ranks(b), lo, hi, c)
  {
    forall p, q | lo <= p < c <= q <= hi ensures Ranks(b)[g[p]] <= Ranks(b)[g[q]] {
      CharRanks(b, block, g[p], g[q], d);
      assert block[g[p] + d] < block[g[q] + d];
    }
  }

  lemma MiddleShares(b: seq<int>, block: seq<int>, g: seq<int>, med: int, lo: int, hi: int, n: int, m: int, d: nat)
    requires Mirrored(b, block) && Split(g, block, d, med, lo, hi, n, m) && SharePrefix(b, g, lo, hi, d)
    requires d <= DEPTH_THRESH
    ensures SharePrefix(b, g, n + 1, m - 1, d + 1) && SharePrefix(b, g, lo, n, d) && SharePrefix(b, g, m, hi, d)
  {
    forall p, q | n + 1 <= p <= m - 1 && n + 1 <= q <= m - 1 ensures Cmp(b, g[p], g[q], d + 1) == 0 {
      CharRanks(b, block, g[p], g[q], d);
    }
  }

  /** After a split the three parts take over, the middle one a character deeper. */
  lemma SplitTakesOver(b: seq<int>, block: seq<int>, g: seq<int>, med: int, lo: int, hi: int, n: int, m: int, d: nat)
    requires Mirrored(b, block) && Split(g, block, d, med, lo, hi, n, m) && SharePrefix(b, g, lo, hi, d)
    requires d <= DEPTH_THRESH && Keyed(g, Ranks(b), 0)
    ensures lo <= n + 1 < m <= hi + 1
    ensures Takeover(b, g, lo, hi, [(lo, n), (m, hi), (n + 1, m - 1)], [d, d, d + 1])
  {
    assert 0 <= lo <= n + 1 < m <= hi + 1 <= |g|;
    MiddleShares(b, block, g, med, lo, hi, n, m, d);
    forall c | c == lo || c == hi + 1 || c == n + 1 || c == m ensures Cut(g, Ranks(b), lo, hi, c) {
      SplitCutRanks(b, block, g, med, lo, hi, n, m, d, c);
    }
    hide Split, SharePrefix, Mirrored, Ranks, Cut, Keyed, Covers;
    CoversThree(g, Ranks(b), lo, hi, (lo, n), (m, hi), (n + 1, m - 1));
  }

  /** When all characters are equal, the range itself takes over, a character deeper. */
  lemma EqualTakesOver(b: seq<int>, block: seq<int>, g: seq<int>, med: int, lo: int, hi: int, d: nat)
    requires Mirrored(b, block) && Split(g, block, d, med, lo, hi, lo - 1, hi + 1) && SharePrefix(b, g, lo, hi, d)
    requires d <= DEPTH_THRESH && Keyed(g, Ranks(b), 0)
    ensures Takeover(b, g, lo, hi, [(lo, hi)], [d + 1])
  {
    MiddleShares(b, block, g, med, lo, hi, lo - 1, hi + 1, d);
    SplitCutRanks(b, block, g, med, lo, hi, lo - 1, hi + 1, d, lo);
    SplitCutRanks(b, block, g, med, lo, hi, lo - 1, hi + 1, d, hi + 1);
    hide Split, SharePrefix, Mirrored, Ranks, Cut, Keyed;
    forall c | lo < c <= hi ensures Inside([(lo, hi)], c) {
      assert [(lo, hi)][0] == (lo, hi);
    }
  }

  /** The order in which the parts are pushed does not matter for what is pending. */
  lemma TakeoverSwaps(b: seq<int>, g: seq<int>, lo: int, hi: int, r0: Range, r1: Range, r2: Range, d0: int, d1: int,
                      d2: int)
    requires Takeover(b, g, lo, hi, [r0, r1, r2], [d0, d1, d2])
    ensures Takeover(b, g, lo, hi, [r1, r0, r2], [d1, d0, d2])
    ensures Takeover(b, g, lo, hi, [r0, r2, r1], [d0, d2, d1])
  {
    assert [r0, r1, r2][0] == r0 && [r0, r1, r2][1] == r1 && [r0, r1, r2][2] == r2;
    assert [d0, d1, d2][0] == d0 && [d0, d1, d2][1] == d1 && [d0, d1, d2][2] == d2;
    var w := Ranks(b);
    assert Keyed(g, w, 0) && 0 <= lo <= hi + 1 <= |g|;
    hide SharePrefix, Ranks, Cut, Keyed, Covers, Covering;
    CoversThree(g, w, lo, hi, r0, r1, r2);
    CoversThree(g, w, lo, hi, r1, r0, r2);
    CoversThree(g, w, lo, hi, r0, r2, r1);
  }

  /* Termination: characters still to be looked at, range by range. */

  function Work(r: Range, d: int): nat
    requires 0 <= d <= DEPTH_THRESH + 1
  {
    Size(r) * (DEPTH_THRESH + 2 - d)
  }

  ghost predicate Depths(st: seq<Range>, ds: seq<int>) {
    |st| == |ds| && forall k :: 0 <= k < |ds| ==> 0 <= ds[k] <= DEPTH_THRESH + 1
  }

  ghost function Potential(st: seq<Range>, ds: seq<int>): nat
    requires Depths(st, ds)
  {
    if |st| == 0 then 0 else Work(st[0], ds[0]) + Potential(st[1..], ds[1..])
  }

  lemma {:induction false} PotentialAppend(st: seq<Range>, ds: seq<int>, top: seq<Range>, dt: seq<int>)
    requires Depths(st, ds) && Depths(top, dt)
    ensures Depths(st + top, ds + dt)
    ensures Potential(st + top, ds + dt) == Potential(st, ds) + Potential(top, dt)
  {
    if |st| == 0 {
      assert st + top == top && ds + dt == dt;
    } else {
      assert (st + top)[1..] == st[1..] + top && (ds + dt)[1..] == ds[1..] + dt;
      PotentialAppend(st[1..], ds[1..], top, dt);
    }
  }

  lemma PotentialOne(r: Range, d: int)
    requires 0 <= d <= DEPTH_THRESH + 1
    ensures Depths([r], [d]) && Potential([r], [d]) == Work(r, d)
  {
    assert [r][1..] == [] && [d][1..] == [];
  }

  lemma PotentialThree(r0: Range, r1: Range, r2: Range, d0: int, d1: int, d2: int)
    requires 0 <= d0 <= DEPTH_THRESH + 1 && 0 <= d1 <= DEPTH_THRESH + 1 && 0 <= d2 <= DEPTH_THRESH + 1
    ensures Depths([r0, r1, r2], [d0, d1, d2])
    ensures Potential([r0, r1, r2], [d0, d1, d2]) == Work(r0, d0) + Work(r1, d1) + Work(r2, d2)
  {
    assert [r0, r1, r2][1..] == [r1, r2] && [d0, d1, d2][1..] == [d1, d2];
    assert [r1, r2][1..] == [r2] && [d1, d2][1..] == [d2];
    PotentialOne(r2, d2);
  }

  lemma WorkShrinks(lo: int, hi: int, n: int, m: int, d: int)
    requires lo <= n + 1 < m <= hi + 1 && 0 <= d <= DEPTH_THRESH
    ensures Work((lo, n), d) + Work((m, hi), d) + Work((n + 1, m - 1), d + 1) < Work((lo, hi), d)
    ensures Work((lo, hi), d + 1) < Work((lo, hi), d)
  {
    var x, y, z, k := Size((lo, n)), Size((m, hi)), Size((n + 1, m - 1)), DEPTH_THRESH + 2 - d;
    assert x + y + z == Size((lo, hi));
    Spread(x, y, z, k);
  }

  lemma Spread(x: int, y: int, z: int, k: int)
    ensures x * k + y * k + z * (k - 1) == (x + y + z) * k - z
    ensures (x + y + z) * (k - 1) == (x + y + z) * k - (x + y + z)
  {
  }

  /** The three stack arrays hold st and ds. */
  ghost predicate Holds(los: seq<int>, his: seq<int>, dps: seq<int>, st: seq<Range>, ds: seq<int>) {
    && |st| == |ds| <= |los| == |his| == |dps|
    && forall k :: 0 <= k < |st| ==> st[k] == (los[k], his[k]) && ds[k] == dps[k]
  }

  /** The stack: three parallel arrays and a pointer. */
  class Stack {
    const lo: array<int>
    const hi: array<int>
    const d: array<int>
    var sp: int
    ghost var st: seq<Range>
    ghost var ds: seq<int>

    ghost predicate Valid()
      reads this, lo, hi, d
    {
      && lo != hi && lo != d && hi != d && lo.Length == hi.Length == d.Length == 100
      && sp == |st| && Holds(lo[..], hi[..], d[..], st, ds)
    }

    constructor ()
      ensures Valid() && st == [] && ds == [] && fresh(lo) && fresh(hi) && fresh(d)
    {
      lo := new int[100];
      hi := new int[100];
      d := new int[100];
      sp, st, ds := 0, [], [];
    }

    /** mpush */
    method Push(lz: int, hz: int, dz: int)
      requires Valid() && |st| < 100
      modifies this, lo, hi, d
      ensures Valid() && st == old(st) + [(lz, hz)] && ds == old(ds) + [dz]
    {
      lo[sp], hi[sp], d[sp] := lz, hz, dz;
      sp, st, ds := sp + 1, st + [(lz, hz)], ds + [dz];
    }

    /** mpop */
    method Pop() returns (lz: int, hz: int, dz: int)
      requires Valid() && |st| > 0
      modifies this
      ensures Valid() && old(st) == st + [(lz, hz)] && old(ds) == ds + [dz]
    {
      sp := sp - 1;
      lz, hz, dz := lo[sp], hi[sp], d[sp];
      st, ds := st[..sp], ds[..sp];
    }
  }

  /** Between two stack operations: f is s rearranged, st is all that is left to sort, every range
      shares the prefix its depth claims, and st is a shallow tower. */
  ghost predicate QSorting(b: seq<int>, s: seq<int>, f: seq<int>, lo0: int, hi0: int, st: seq<Range>, ds: seq<int>) {
    && Rearranged(s, f, lo0, hi0) && Pending(f, Ranks(b), lo0, hi0, st) && hi0 < 0x7fff_ffff
    && Tower(st) && Total(st) <= Size((lo0, hi0)) && Depths(st, ds)
    && forall k :: 0 <= k < |st| ==> SharePrefix(b, f, st[k].0, st[k].1, ds[k])
  }

  lemma QStart(b: seq<int>, s: seq<int>, lo0: int, hi0: int, d: int)
    requires 0 <= d <= DEPTH_THRESH + 1 && SharePrefix(b, s, lo0, hi0, d) && lo0 <= hi0 < 0x7fff_ffff
    ensures QSorting(b, s, s, lo0, hi0, [(lo0, hi0)], [d])
  {
    RearrangedNot(s, lo0, hi0);
    AllPending(s, Ranks(b), lo0, hi0);
    assert [(lo0, hi0)][1..] == [];
  }

  lemma QTop(b: seq<int>, s: seq<int>, f: seq<int>, lo0: int, hi0: int, rest: seq<Range>, dr: seq<int>, lo: int,
             hi: int, d: int)
    requires QSorting(b, s, f, lo0, hi0, rest + [(lo, hi)], dr + [d])
    ensures lo0 <= lo <= hi + 1 && hi <= hi0 < |f| && |rest| < 65 && Keyed(f, Ranks(b), 0)
    ensures 0 <= d <= DEPTH_THRESH + 1 && SharePrefix(b, f, lo, hi, d) && Depths(rest, dr)
    ensures Depths(rest + [(lo, hi)], dr + [d])
    ensures Potential(rest + [(lo, hi)], dr + [d]) == Potential(rest, dr) + Work((lo, hi), d)
  {
    hide Cut, Rearranged, Tower, SharePrefix, Ranks;
    var st, ds := rest + [(lo, hi)], dr + [d];
    assert st[|rest|] == (lo, hi) && ds[|rest|] == d;
    forall k | 0 <= k < |dr| ensures 0 <= dr[k] <= DEPTH_THRESH + 1 { assert ds[k] == dr[k]; }
    TotalAppend(rest, [(lo, hi)]);
    TowerShallow(st);
    PotentialOne((lo, hi), d);
    PotentialAppend(rest, dr, [(lo, hi)], [d]);
  }

  lemma QStep(b: seq<int>, s: seq<int>, f: seq<int>, g: seq<int>, lo0: int, hi0: int, rest: seq<Range>, dr: seq<int>,
              lo: int, hi: int, d: int, top: seq<Range>, dt: seq<int>)
    requires QSorting(b, s, f, lo0, hi0, rest + [(lo, hi)], dr + [d]) && Rearranged(f, g, lo, hi)
    requires Takeover(b, g, lo, hi, top, dt) && Tower(top) && Total(top) <= Size((lo, hi))
    ensures Depths(rest, dr) && Depths(top, dt)
    ensures QSorting(b, s, g, lo0, hi0, rest + top, dr + dt)
    ensures Potential(rest + top, dr + dt) == Potential(rest, dr) + Potential(top, dt)
  {
    hide Cut, Covers, Tower, SharePrefix, Ranks;
    QTop(b, s, f, lo0, hi0, rest, dr, lo, hi, d);
    var st, ds := rest + [(lo, hi)], dr + [d];
    RearrangedWidens(s, f, g, lo0, hi0, lo, hi);
    forall k | 0 <= k < |rest + top| ensures SharePrefix(b, g, (rest + top)[k].0, (rest + top)[k].1, (dr + dt)[k]) {
      if k < |rest| {
        assert st[k] == rest[k] && ds[k] == dr[k] && st[|rest|] == (lo, hi) && Apart(st[k], st[|rest|]);
        SharePrefixKept(b, f, g, st[k].0, st[k].1, ds[k], lo, hi);
      }
    }
    hide Pending, Rearranged;
    assert Pending(f, Ranks(b), lo0, hi0, st);
    RefineTop(f, g, Ranks(b), lo0, hi0, rest, lo, hi, top);
    TowerReplace(rest, (lo, hi), top);
    TotalAppend(rest, top);
    TotalAppend(rest, [(lo, hi)]);
    TotalOne((lo, hi));
    PotentialAppend(rest, dr, top, dt);
  }

  lemma TotalOne(r: Range)
    ensures Total([r]) == Size(r)
  {
    assert [r][1..] == [];
  }

  lemma RearrangedWidens(s: seq<int>, f: seq<int>, g: seq<int>, lo0: int, hi0: int, lo: int, hi: int)
    requires Rearranged(s, f, lo0, hi0) && Rearranged(f, g, lo, hi) && lo0 <= lo && hi <= hi0
    ensures Rearranged(s, g, lo0, hi0)
  {
  }

  lemma QEnd(b: seq<int>, s: seq<int>, f: seq<int>, lo0: int, hi0: int)
    requires QSorting(b, s, f, lo0, hi0, [], [])
    ensures Rearranged(s, f, lo0, hi0) && Keyed(f, Ranks(b), 0) && Ascending(f, Ranks(b), lo0, hi0)
  {
    NonePending(f, Ranks(b), lo0, hi0);
  }

  /** mmed3: the middle one of three characters. */
  function Med3(a: int, b: int, c: int): (r: int)
    ensures r == a || r == b || r == c
    ensures (a <= r && (r <= b || r <= c)) || (b <= r && (r <= a || r <= c)) || (c <= r && (r <= a || r <= b))
  {
    var (x, y) := if a > b then (b, a) else (a, b);
    if y > c then (if x > c then x else c) else y
  }

  /** A range with the depth to which its rotations agree, as kept in nextLo, nextHi and nextD. */
  type Part = (int, int, int)

  function NextSize(r: Part): int {
    r.1 - r.0
  }

  /** The three parts in descending order of size, by the three conditional exchanges. */
  method OrderParts(lo: int, n: int, m: int, hi: int, d: int, ghost b: seq<int>, ghost g: seq<int>)
    returns (r0: Part, r1: Part, r2: Part)
    requires lo <= n + 1 < m <= hi + 1 && (lo <= n || m <= hi) && 0 <= d <= DEPTH_THRESH
    requires Takeover(b, g, lo, hi, [(lo, n), (m, hi), (n + 1, m - 1)], [d, d, d + 1])
    ensures var top, dt := [(r0.0, r0.1), (r1.0, r1.1), (r2.0, r2.1)], [r0.2, r1.2, r2.2];
            Takeover(b, g, lo, hi, top, dt) && Tower(top) && Total(top) <= Size((lo, hi))
            && Depths(top, dt) && Potential(top, dt) < Work((lo, hi), d)
  {
    hide Takeover, Tower, Total, Potential, Work;
    r0, r1, r2 := (lo, n, d), (m, hi, d), (n + 1, m - 1, d + 1);
    TakeoverSwaps(b, g, lo, hi, (r0.0, r0.1), (r1.0, r1.1), (r2.0, r2.1), r0.2, r1.2, r2.2);
    if NextSize(r0) < NextSize(r1) { r0, r1 := r1, r0; }
    TakeoverSwaps(b, g, lo, hi, (r0.0, r0.1), (r1.0, r1.1), (r2.0, r2.1), r0.2, r1.2, r2.2);
    if NextSize(r1) < NextSize(r2) { r1, r2 := r2, r1; }
    TakeoverSwaps(b, g, lo, hi, (r0.0, r0.1), (r1.0, r1.1), (r2.0, r2.1), r0.2, r1.2, r2.2);
    if NextSize(r0) < NextSize(r1) { r0, r1 := r1, r0; }
    ThreeTower((r0.0, r0.1), (r1.0, r1.1), (r2.0, r2.1));
    PotentialThree((r0.0, r0.1), (r1.0, r1.1), (r2.0, r2.1), r0.2, r1.2, r2.2);
    WorkShrinks(lo, hi, n, m, d);
  }

  lemma ThreeTower(r0: Range, r1: Range, r2: Range)
    requires Size(r0) >= Size(r1) >= Size(r2) && Size(r1) >= 1
    ensures Tower([r0, r1, r2]) && Total([r0, r1, r2]) == Size(r0) + Size(r1) + Size(r2)
  {
    assert [r0, r1, r2][1..] == [r1, r2] && [r1, r2][1..] == [r2];
    TotalOne(r2);
  }

  lemma MedKeyOccurs(b: seq<int>, block: seq<int>, f: seq<int>, lo: int, hi: int, d: int, med: int, k0: int, k1: int,
                     k2: int)
    requires 0 <= d <= DEPTH_THRESH && Mirrored(b, block) && SharePrefix(b, f, lo, hi, d)
    requires lo <= k0 <= hi && lo <= k1 <= hi && lo <= k2 <= hi
    ensures Keyed(f, block, d) && 0 <= f[k0] && 0 <= f[k1] && 0 <= f[k2]
    ensures med == Med3(block[f[k0] + d], block[f[k1] + d], block[f[k2] + d]) ==> KeyOccurs(f, block, d, med, lo, hi)
  {
    assert Keyed(f, block, d);
  }

  /** One partitioning round: the popped range is split by a median character and its parts pushed. */
  method Round(ptr: array<int>, block: array<int>, lo: int, hi: int, d: int, stack: Stack,
               ghost b: seq<int>, ghost s: seq<int>, ghost lo0: int, ghost hi0: int)
    requires ptr != block && stack.Valid() && stack.lo != ptr && stack.hi != ptr && stack.d != ptr
    requires stack.lo != block && stack.hi != block && stack.d != block && |b| > OVERSHOOT
    requires Mirrored(b, block[..]) && hi0 < ptr.Length && 0 <= lo0 && hi - lo >= 20 && 0 <= d <= DEPTH_THRESH
    requires QSorting(b, s, ptr[..], lo0, hi0, stack.st + [(lo, hi)], stack.ds + [d])
    modifies ptr, stack, stack.lo, stack.hi, stack.d
    ensures stack.Valid() && QSorting(b, s, ptr[..], lo0, hi0, stack.st, stack.ds)
    ensures Depths(stack.st, stack.ds) && Depths(old(stack.st), old(stack.ds))
    ensures Potential(stack.st, stack.ds) < Potential(old(stack.st), old(stack.ds)) + Work((lo, hi), d)
  {
    hide Cmp, Mirrored, QSorting, SharePrefix, Rearranged, Keyed, Split, KeyOccurs, Takeover, Tower, Total, Potential,
      Work, Depths;
    ghost var rest, dr, f := stack.st, stack.ds, ptr[..];
    QTop(b, s, f, lo0, hi0, rest, dr, lo, hi, d);
    var mid := (lo + hi) / 2;
    MedKeyOccurs(b, block[..], f, lo, hi, d, 0, lo, hi, mid);
    KeyInRange(f, block[..], d, lo, hi, mid);
    var med := Med3(block[ptr[lo] + d], block[ptr[hi] + d], block[ptr[mid] + d]);
    MedKeyOccurs(b, block[..], f, lo, hi, d, med, lo, hi, mid);
    var allEqual, n, m := SplitRange(ptr, block, lo, hi, d, med);
    ghost var g := ptr[..];
    SharePrefixKept(b, f, g, lo, hi, d, lo, hi);
    KeyedKept(f, g, Ranks(b), 0, lo, hi);
    ghost var top, dt;
    if allEqual {
      EqualTakesOver(b, block[..], g, med, lo, hi, d);
      top, dt := [(lo, hi)], [d + 1];
      stack.Push(lo, hi, d + 1);
      OneTower((lo, hi), d);
    } else {
      SplitTakesOver(b, block[..], g, med, lo, hi, n, m, d);
      var r0, r1, r2 := OrderParts(lo, n, m, hi, d, b, g);
      top, dt := [(r0.0, r0.1), (r1.0, r1.1), (r2.0, r2.1)], [r0.2, r1.2, r2.2];
      stack.Push(r0.0, r0.1, r0.2);
      stack.Push(r1.0, r1.1, r1.2);
      stack.Push(r2.0, r2.1, r2.2);
      assert stack.st == rest + top && stack.ds == dr + dt;
    }
    QStep(b, s, f, g, lo0, hi0, rest, dr, lo, hi, d, top, dt);
    QDepths(b, s, g, lo0, hi0, rest + top, dr + dt);
  }

  lemma KeyInRange(f: seq<int>, e: seq<int>, d: nat, lo: int, hi: int, mid: int)
    requires Keyed(f, e, d) && 0 <= lo <= mid <= hi < |f|
    ensures 0 <= f[lo] && f[lo] + d < |e| && 0 <= f[hi] && f[hi] + d < |e| && 0 <= f[mid] && f[mid] + d < |e|
  {
  }

  lemma OneTower(r: Range, d: int)
    requires 0 <= d <= DEPTH_THRESH && Size(r) >= 1
    ensures Tower([r]) && Total([r]) <= Size(r) && Depths([r], [d + 1])
    ensures Potential([r], [d + 1]) < Work(r, d)
  {
    TotalOne(r);
    PotentialOne(r, d + 1);
    Spread(Size(r), 0, 0, DEPTH_THRESH + 2 - d);
  }

  /** mainQSort3. The caller's range must share dSt characters. Unless the budget runs out, the range
      ends in ascending order of rotations. */
  method Sort(ptr: array<int>, block: array<int>, quadrant: array<int>, nblock: nat, loSt: int, hiSt: int, dSt: int,
              budget: int, ghost b: seq<int>) returns (budget': int)
    requires ptr != block && ptr != quadrant && 0 <= dSt <= DEPTH_THRESH
    requires |b| == nblock && nblock > OVERSHOOT && Mirrored(b, block[..]) && QuadrantOk(b, quadrant[..])
    requires 0 <= loSt <= hiSt < ptr.Length <= 2391484 && SharePrefix(b, ptr[..], loSt, hiSt, dSt)
    modifies ptr
    ensures Rearranged(old(ptr[..]), ptr[..], loSt, hiSt) && Keyed(ptr[..], Ranks(b), 0)
    ensures budget' >= 0 ==> Ascending(ptr[..], Ranks(b), loSt, hiSt)
  {
    hide Mirrored, QuadrantOk, QSorting, SharePrefix, Rearranged, Keyed, Ascending, Takeover, Tower, Total, Potential,
      Work, Depths, Shelling;
    ghost var s := ptr[..];
    var stack := new Stack();
    stack.Push(loSt, hiSt, dSt);
    assert stack.st == [(loSt, hiSt)] && stack.ds == [dSt];
    QStart(b, s, loSt, hiSt, dSt);
    QDepths(b, s, s, loSt, hiSt, stack.st, stack.ds);
    budget' := budget;
    while stack.sp > 0
      invariant fresh(stack) && fresh(stack.lo) && fresh(stack.hi) && fresh(stack.d) && stack.Valid()
      invariant QSorting(b, s, ptr[..], loSt, hiSt, stack.st, stack.ds) && Depths(stack.st, stack.ds)
      invariant Keyed(ptr[..], Ranks(b), 0)
      decreases Potential(stack.st, stack.ds), stack.sp
    {
      ghost var f, depth := ptr[..], stack.sp;
      var lo, hi, d := stack.Pop();
      ghost var rest, dr := stack.st, stack.ds;
      QTop(b, s, f, loSt, hiSt, rest, dr, lo, hi, d);
      assert depth < 98;  // AssertH 1001
      if hi - lo < 20 || d > DEPTH_THRESH {
        budget' := MainSimpleSort.Sort(ptr, block, quadrant, nblock, lo, hi, d, budget', b);
        ShellParts(b, f, ptr[..], lo, hi, d);
        if budget' < 0 {
          QAbandon(b, s, f, ptr[..], loSt, hiSt, rest, dr, lo, hi, d);
          return;
        }
        QShort(b, s, f, ptr[..], loSt, hiSt, rest, dr, lo, hi, d);
      } else {
        Round(ptr, block, lo, hi, d, stack, b, s, loSt, hiSt);
        QDepths(b, s, ptr[..], loSt, hiSt, stack.st, stack.ds);
      }
    }
    assert stack.st == [] && stack.ds == [];
    QEnd(b, s, ptr[..], loSt, hiSt);
  }

  lemma QDepths(b: seq<int>, s: seq<int>, f: seq<int>, lo0: int, hi0: int, st: seq<Range>, ds: seq<int>)
    requires QSorting(b, s, f, lo0, hi0, st, ds)
    ensures Depths(st, ds) && Keyed(f, Ranks(b), 0)
  {
  }

  /** Giving up still leaves a rearrangement. */
  lemma QAbandon(b: seq<int>, s: seq<int>, f: seq<int>, g: seq<int>, lo0: int, hi0: int, rest: seq<Range>, dr: seq<int>,
                 lo: int, hi: int, d: int)
    requires QSorting(b, s, f, lo0, hi0, rest + [(lo, hi)], dr + [d]) && Rearranged(f, g, lo, hi)
    ensures Rearranged(s, g, lo0, hi0)
  {
    hide Ranks;
    QTop(b, s, f, lo0, hi0, rest, dr, lo, hi, d);
    RearrangedWidens(s, f, g, lo0, hi0, lo, hi);
  }

  /** A range sorted to the end needs no entry. */
  lemma QShort(b: seq<int>, s: seq<int>, f: seq<int>, g: seq<int>, lo0: int, hi0: int, rest: seq<Range>, dr: seq<int>,
               lo: int, hi: int, d: int)
    requires QSorting(b, s, f, lo0, hi0, rest + [(lo, hi)], dr + [d]) && Rearranged(f, g, lo, hi)
    requires Keyed(g, Ranks(b), 0) && 0 <= lo <= hi + 1 <= |g| && Ascending(g, Ranks(b), lo, hi)
    ensures QSorting(b, s, g, lo0, hi0, rest, dr) && Depths(rest, dr)
  {
    assert Takeover(b, g, lo, hi, [], []);
    hide Takeover, QSorting, Rearranged, Ascending, Keyed, Ranks;
    QStep(b, s, f, g, lo0, hi0, rest, dr, lo, hi, d, [], []);
    assert rest + [] == rest && dr + [] == dr;
  }
}
