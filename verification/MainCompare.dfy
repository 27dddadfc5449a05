/** The comparison behind the main block sorter: characters, and where cached, the order already
    established for later positions. */
module MainCompare {
  import opened Rotation

  const OVERSHOOT := 34

  /** The block array repeats its beginning behind its end. */
  ghost predicate Mirrored(b: seq<int>, block: seq<int>) {
    && OVERSHOOT < |b| && |b| + OVERSHOOT <= |block| && block[..|b|] == b
    && forall i :: 0 <= i < OVERSHOOT ==> block[|b| + i] == b[i]
  }

  /** The quadrant invariant: for equal characters, a smaller quadrant is never at the larger
      rotation. Behind the block the beginning is repeated. */
  ghost predicate QuadrantOk(b: seq<int>, q: seq<int>) {
    && OVERSHOOT < |b| && |b| + OVERSHOOT <= |q|
    && (forall x, y :: 0 <= x < |b| && 0 <= y < |b| && b[x] == b[y] && q[x] < q[y] ==> Cmp(b, x, y, |b|) <= 0)
    && forall i :: 0 <= i < OVERSHOOT ==> q[|b| + i] == q[i]
  }

  /** An index into the overshoot area stands for a position at the beginning. */
  function Fold(i: nat, n: nat): nat
    requires i < n + n
  {
    if i < n then i else i - n
  }

  /** The position t places after x, one place at a time. */
  function Adv(x: nat, t: nat, n: nat): (r: nat)
    requires x < n
    ensures r < n
  {
    if t == 0 then x else Next(Adv(x, t - 1, n), n)
  }

  /** After t equal characters the comparison goes on t places further. */
  lemma {:induction false} CmpAdv(b: seq<int>, x: nat, y: nat, t: nat, k: nat)
    requires x < |b| && y < |b| && Cmp(b, x, y, t) == 0
    ensures Cmp(b, x, y, t + k) == Cmp(b, Adv(x, t, |b|), Adv(y, t, |b|), k)
    decreases t
  {
    if t > 0 {
      CmpPrefix(b, x, y, t - 1, t);
      CmpAdv(b, x, y, t - 1, 1);
      CmpAdv(b, x, y, t - 1, k + 1);
      var x', y' := Adv(x, t - 1, |b|), Adv(y, t - 1, |b|);
      assert Cmp(b, Next(x', |b|), Next(y', |b|), 0) == 0;
    }
  }

  /** Comparison of rotations x and y has found t equal characters and stands at j1 and j2. */
  ghost predicate Tied(b: seq<int>, x: nat, y: nat, t: nat, j1: nat, j2: nat) {
    && x < |b| && y < |b| && j1 < |b| + |b| && j2 < |b| + |b|
    && Cmp(b, x, y, t) == 0
    && Fold(j1, |b|) == Adv(x, t, |b|) && Fold(j2, |b|) == Adv(y, t, |b|)
  }

  lemma TiedStart(b: seq<int>, j1: nat, j2: nat)
    requires j1 < |b| + |b| && j2 < |b| + |b|
    ensures Tied(b, Fold(j1, |b|), Fold(j2, |b|), 0, j1, j2)
  {
  }

  lemma TiedWraps(b: seq<int>, x: nat, y: nat, t: nat, j1: nat, j2: nat)
    requires Tied(b, x, y, t, j1, j2)
    ensures Tied(b, x, y, t, Fold(j1, |b|), Fold(j2, |b|))
  {
  }

  /** One character further: a difference decides, equality extends the tie. */
  lemma TiedChar(b: seq<int>, x: nat, y: nat, t: nat, j1: nat, j2: nat)
    requires Tied(b, x, y, t, j1, j2)
    ensures b[Fold(j1, |b|)] > b[Fold(j2, |b|)] ==> Cmp(b, x, y, |b|) >= 0
    ensures b[Fold(j1, |b|)] < b[Fold(j2, |b|)] ==> Cmp(b, x, y, |b|) <= 0
    ensures b[Fold(j1, |b|)] == b[Fold(j2, |b|)] && j1 + 1 < |b| + |b| && j2 + 1 < |b| + |b| ==>
              Tied(b, x, y, t + 1, j1 + 1, j2 + 1)
  {
    var n := |b|;
    var x', y' := Adv(x, t, n), Adv(y, t, n);
    CmpAdv(b, x, y, t, 1);
    assert Cmp(b, Next(x', n), Next(y', n), 0) == 0;
    if t + 1 <= n {
      CmpPrefix(b, x, y, t + 1, n);
    } else {
      CmpSaturates(b, x, y, t + 1);
    }
  }

  /** The cached order of later positions decides too. */
  lemma TiedQuadrant(b: seq<int>, q: seq<int>, x: nat, y: nat, t: nat, j1: nat, j2: nat)
    requires Tied(b, x, y, t, j1, j2) && QuadrantOk(b, q)
    requires b[Fold(j1, |b|)] == b[Fold(j2, |b|)]
    ensures q[Fold(j1, |b|)] > q[Fold(j2, |b|)] ==> Cmp(b, x, y, |b|) >= 0
    ensures q[Fold(j1, |b|)] < q[Fold(j2, |b|)] ==> Cmp(b, x, y, |b|) <= 0
  {
    var n := |b|;
    CmpAdv(b, x, y, t, n);
    CmpSaturates(b, x, y, t + n);
    CmpAntisymmetric(b, Adv(x, t, n), Adv(y, t, n), n);
  }

  lemma TiedThroughout(b: seq<int>, x: nat, y: nat, t: nat, j1: nat, j2: nat)
    requires Tied(b, x, y, t, j1, j2) && t >= |b|
    ensures Cmp(b, x, y, |b|) == 0
  {
    CmpPrefix(b, x, y, |b|, t);
  }

  /** What an element read past the end of the block is. */
  lemma ReadFolded(b: seq<int>, block: seq<int>, q: seq<int>, j: nat)
    requires Mirrored(b, block) && QuadrantOk(b, q) && j < |b| + OVERSHOOT
    ensures block[j] == b[Fold(j, |b|)] && q[j] == q[Fold(j, |b|)]
  {
  }

  /** A verdict that does not contradict the order of rotations. */
  ghost predicate Verdict(b: seq<int>, x: nat, y: nat, gt: bool)
    requires x < |b| && y < |b|
  {
    if gt then Cmp(b, x, y, |b|) >= 0 else Cmp(b, x, y, |b|) <= 0
  }

  /** One comparison step at j1 and j2, with or without the quadrants. */
  lemma StepVerdict(b: seq<int>, block: seq<int>, q: seq<int>, x: nat, y: nat, t: nat, j1: nat, j2: nat)
    requires Mirrored(b, block) && QuadrantOk(b, q) && Tied(b, x, y, t, j1, j2)
    requires j1 < |b| + OVERSHOOT && j2 < |b| + OVERSHOOT
    ensures |b| + OVERSHOOT <= |block| && |b| + OVERSHOOT <= |q| && x < |b| && y < |b|
    ensures block[j1] != block[j2] ==> Verdict(b, x, y, block[j1] > block[j2])
    ensures block[j1] == block[j2] && q[j1] != q[j2] ==> Verdict(b, x, y, q[j1] > q[j2])
    ensures block[j1] == block[j2] ==> Tied(b, x, y, t + 1, j1 + 1, j2 + 1)
  {
    hide Tied, Mirrored, QuadrantOk, Cmp;
    assert |b| + OVERSHOOT <= |block| && |b| + OVERSHOOT <= |q| && OVERSHOOT < |b| && x < |b| && y < |b| by {
      Extents(b, block, q);
      TiedBounds(b, x, y, t, j1, j2);
    }
    ReadFolded(b, block, q, j1);
    ReadFolded(b, block, q, j2);
    TiedChar(b, x, y, t, j1, j2);
    if block[j1] == block[j2] { TiedQuadrant(b, q, x, y, t, j1, j2); }
  }

  lemma Extents(b: seq<int>, block: seq<int>, q: seq<int>)
    requires Mirrored(b, block) && QuadrantOk(b, q)
    ensures OVERSHOOT < |b| && |b| + OVERSHOOT <= |block| && |b| + OVERSHOOT <= |q|
  {
  }

  lemma TiedBounds(b: seq<int>, x: nat, y: nat, t: nat, j1: nat, j2: nat)
    requires Tied(b, x, y, t, j1, j2)
    ensures x < |b| && y < |b|
  {
  }

  /** The first twelve comparisons; the C code writes them out. */
  method CompareTwelve(i1: nat, i2: nat, block: array<int>, quadrant: array<int>, ghost b: seq<int>, ghost x: nat,
                       ghost y: nat)
    returns (decided: bool, gt: bool)
    requires Mirrored(b, block[..]) && QuadrantOk(b, quadrant[..])
    requires i1 < |b| + 15 && i2 < |b| + 15 && Tied(b, x, y, 0, i1, i2) && x < |b| && y < |b|
    ensures decided ==> Verdict(b, x, y, gt)
    ensures !decided ==> Tied(b, x, y, 12, i1 + 12, i2 + 12)
  {
    hide Tied, Mirrored, QuadrantOk, Verdict;
    Extents(b, block[..], quadrant[..]);
    for t := 0 to 12
      invariant Tied(b, x, y, t, i1 + t, i2 + t)
    {
      StepVerdict(b, block[..], quadrant[..], x, y, t, i1 + t, i2 + t);
      var c1, c2 := block[i1 + t], block[i2 + t];
      if c1 != c2 { return true, c1 > c2; }
    }
    return false, false;
  }

  /** Eight comparisons with quadrants; the C code writes them out. */
  method CompareEight(i1: nat, i2: nat, block: array<int>, quadrant: array<int>, ghost b: seq<int>, ghost x: nat,
                      ghost y: nat, ghost tied: nat)
    returns (decided: bool, gt: bool)
    requires Mirrored(b, block[..]) && QuadrantOk(b, quadrant[..])
    requires i1 < |b| + 27 && i2 < |b| + 27 && Tied(b, x, y, tied, i1, i2) && x < |b| && y < |b|
    ensures decided ==> Verdict(b, x, y, gt)
    ensures !decided ==> Tied(b, x, y, tied + 8, i1 + 8, i2 + 8)
  {
    hide Tied, Mirrored, QuadrantOk, Verdict;
    Extents(b, block[..], quadrant[..]);
    for t := 0 to 8
      invariant Tied(b, x, y, tied + t, i1 + t, i2 + t)
    {
      StepVerdict(b, block[..], quadrant[..], x, y, tied + t, i1 + t, i2 + t);
      var c1, c2 := block[i1 + t], block[i2 + t];
      if c1 != c2 { return true, c1 > c2; }
      var s1, s2 := quadrant[i1 + t], quadrant[i2 + t];
      if s1 != s2 { return true, s1 > s2; }
    }
    return false, false;
  }

  /** mainGtU: whether the rotation at i1 may be put after the one at i2. Characters alone at first,
      then characters with quadrants until more than a whole block has been compared. */
  method GtU(i1: nat, i2: nat, block: array<int>, quadrant: array<int>, nblock: nat, budget: int, ghost b: seq<int>)
    returns (gt: bool, budget': int)
    requires |b| == nblock && nblock > OVERSHOOT && Mirrored(b, block[..]) && QuadrantOk(b, quadrant[..])
    requires i1 < nblock + 15 && i2 < nblock + 15
    ensures Verdict(b, Fold(i1, nblock), Fold(i2, nblock), gt)
  {
    hide Tied, Mirrored, QuadrantOk, Cmp, Verdict;
    ghost var x, y := Fold(i1, nblock), Fold(i2, nblock);
    budget' := budget;
    TiedStart(b, i1, i2);
    var decided;
    decided, gt := CompareTwelve(i1, i2, block, quadrant, b, x, y);
    if decided { return; }
    var j1: nat, j2: nat := i1 + 12, i2 + 12;
    var k: int := nblock + 8;
    ghost var tied: nat := 12;
    while k >= 0
      invariant Tied(b, x, y, tied, j1, j2) && k >= -8
      invariant j1 < nblock + 27 && j2 < nblock + 27 && tied + k == nblock + 20
      decreases k + 8
    {
      decided, gt := CompareEight(j1, j2, block, quadrant, b, x, y, tied);
      if decided { return; }
      j1, j2, tied := j1 + 8, j2 + 8, tied + 8;
      TiedWraps(b, x, y, tied, j1, j2);
      if j1 >= nblock { j1 := j1 - nblock; }
      if j2 >= nblock { j2 := j2 - nblock; }
      k := k - 8;
      budget' := budget' - 1;
    }
    TiedVerdict(b, x, y, tied, j1, j2);
    gt := false;
  }

  lemma TiedVerdict(b: seq<int>, x: nat, y: nat, t: nat, j1: nat, j2: nat)
    requires Tied(b, x, y, t, j1, j2) && t >= |b|
    ensures x < |b| && y < |b| && Verdict(b, x, y, false)
  {
    TiedThroughout(b, x, y, t, j1, j2);
  }
}
