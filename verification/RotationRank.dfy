/** Rotations ranked by number, so that their order can be treated as an order of integers. */
module RotationRank {
  import opened Rotation

  /** The rotations of b strictly below rotation x. */
  ghost function Lower(b: seq<int>, x: nat): set<int>
    requires x < |b|
  {
    set y | y in Rotation.Below(|b|) && 0 <= y < |b| && Cmp(b, y, x, |b|) < 0
  }

  /** The rank of every rotation. */
  ghost function Ranks(b: seq<int>): (w: seq<int>)
    ensures |w| == |b|
  {
    seq(|b|, x requires 0 <= x < |b| => |Lower(b, x)|)
  }

  lemma LowerGrows(b: seq<int>, x: nat, y: nat)
    requires x < |b| && y < |b|
    ensures Cmp(b, x, y, |b|) <= 0 ==> |Lower(b, x)| <= |Lower(b, y)|
    ensures Cmp(b, x, y, |b|) < 0 ==> |Lower(b, x)| < |Lower(b, y)|
  {
    if Cmp(b, x, y, |b|) <= 0 {
      forall z | z in Lower(b, x) ensures z in Lower(b, y) {
        CmpTransitive(b, z, x, y, |b|);
      }
      SubsetCard(Lower(b, x), Lower(b, y));
      if Cmp(b, x, y, |b|) < 0 {
        CmpSelf(b, x, |b|);
        assert x in Lower(b, y) && x !in Lower(b, x);
        SubsetCard(Lower(b, x) + {x}, Lower(b, y));
      }
    }
  }

  lemma {:induction false} SubsetCard(s: set<int>, t: set<int>)
    requires s <= t
    ensures |s| <= |t|
  {
    assert t == s + (t - s);
  }

  /** Ranks compare as rotations do. */
  lemma RankOrder(b: seq<int>, x: nat, y: nat)
    requires x < |b| && y < |b|
    ensures Ranks(b)[x] <= Ranks(b)[y] <==> Cmp(b, x, y, |b|) <= 0
  {
    LowerGrows(b, x, y);
    LowerGrows(b, y, x);
    CmpAntisymmetric(b, x, y, |b|);
  }
}
