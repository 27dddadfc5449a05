/** The block sorter as the compressor calls it: the main sort with a budget, the fallback sort for
    short or repetitive blocks, and the row of the original block. */
module BlockSort {
  import opened Counting
  import FallbackSort
  import opened HeaderBits
  import MainCompare
  import MainRadix
  import MainSort
  import opened Rotation
  import opened Synthesis

  const MAX_BLOCK := 900000
  const FALLBACK_BELOW := 10000

  /** Work allowed to the main sort before it gives up. */
  function BudgetInit(nblock: nat, workFactor: int): int {
    var wfact := if workFactor < 1 then 1 else if workFactor > 100 then 100 else workFactor;
    nblock * ((wfact - 1) / 3)
  }

  /** BZ2_blockSort: ptr ends as the rotations in ascending order whatever the work factor, the block
      is in place, and origPtr is the row of the block itself. The arrays that overlie each other
      in memory are separate arguments. */
  method Sort(ptr: array<int>, eclass: array<int>, block: array<int>, quadrant: array<int>, ftab: array<int>,
              bhtab: array<Word>, nblock: nat, workFactor: int) returns (origPtr: int)
    requires ptr != eclass && ptr != block && ptr != quadrant && ptr != ftab && eclass != block
    requires block != quadrant && block != ftab && quadrant != ftab
    requires 0 < nblock <= MAX_BLOCK && ptr.Length == eclass.Length == nblock
    requires nblock + MainCompare.OVERSHOOT <= block.Length && nblock + MainCompare.OVERSHOOT <= quadrant.Length
    requires ftab.Length == bhtab.Length == MainRadix.KEYS + 1 && Within(block[..nblock], ALPHABET)
    modifies ptr, eclass, block, quadrant, ftab, bhtab
    ensures block[..nblock] == old(block[..nblock])
    ensures SortsRotations(block[..nblock], ptr[..])
    ensures 0 <= origPtr < nblock && ptr[origPtr] == 0
  {
    hide Within, SortsRotations, BudgetInit;
    ghost var b := block[..nblock];
    if nblock < FALLBACK_BELOW {
      FallbackSort.Sort(ptr, eclass, block, bhtab, nblock);
    } else {
      var budget := MainSort.Sort(ptr, block, quadrant, ftab, nblock, BudgetInit(nblock, workFactor));
      if budget < 0 {
        FallbackSort.Sort(ptr, eclass, block, bhtab, nblock);
      }
    }
    RowOfBlock(b, ptr[..]);
    origPtr := -1;
    for i := 0 to nblock
      invariant origPtr == -1
      invariant forall k :: 0 <= k < i ==> ptr[k] != 0
    {
      if ptr[i] == 0 {
        origPtr := i;
        break;
      }
    }
    assert origPtr != -1;  // AssertH 1003
  }

  lemma RowOfBlock(b: seq<int>, p: seq<int>)
    requires SortsRotations(b, p) && |b| > 0
    ensures exists r :: 0 <= r < |p| && p[r] == 0
  {
    PermCovers(p, |b|, 0);
  }
}
