/** The decoder's move-to-front list: 256 characters in 16 rows that slide towards the front of a
    larger array, so that moving to the front touches one row and one element of each row before. */
module SlidingMtf {
  import opened MoveToFront

  const MTFA_SIZE := 4096
  const MTFL_SIZE := 16

  /** Where element x of the list is kept. */
  function Slot(base: seq<int>, x: nat): int
    requires |base| == 16 && x < 256
  {
    base[x / MTFL_SIZE] + x % MTFL_SIZE
  }

  /** The rows follow each other without overlap inside the array. */
  ghost predicate Ordered(base: seq<int>) {
    && |base| == 16 && 0 <= base[0] && base[15] + MTFL_SIZE <= MTFA_SIZE
    && forall i :: 1 <= i < 16 ==> After(base, i)
  }

  ghost predicate After(base: seq<int>, i: int)
    requires |base| == 16 && 1 <= i < 16
  {
    base[i - 1] + MTFL_SIZE <= base[i]
  }

  lemma {:induction false} BaseOrder(base: seq<int>, i: nat, k: nat)
    requires Ordered(base) && i <= k < 16
    ensures base[i] + MTFL_SIZE * (k - i) <= base[k]
    decreases k
  {
    if i < k {
      assert After(base, k);
      BaseOrder(base, i, k - 1);
    }
  }

  /** Slots ascend, and none is beyond its place in a packed array. */
  lemma SlotOrder(base: seq<int>, x: nat, y: nat)
    requires Ordered(base) && x < y < 256
    ensures 0 <= Slot(base, x) < Slot(base, y) < MTFA_SIZE
    ensures Slot(base, x) <= MTFA_SIZE - 256 + x && Slot(base, y) <= MTFA_SIZE - 256 + y
  {
    BaseOrder(base, 0, x / MTFL_SIZE);
    BaseOrder(base, x / MTFL_SIZE, y / MTFL_SIZE);
    BaseOrder(base, x / MTFL_SIZE, 15);
    BaseOrder(base, y / MTFL_SIZE, 15);
  }

  lemma SlotBounds(base: seq<int>, x: nat)
    requires Ordered(base) && x < 256
    ensures base[0] <= Slot(base, x) < MTFA_SIZE && Slot(base, x) <= MTFA_SIZE - 256 + x && 0 <= Slot(base, x)
  {
    BaseOrder(base, 0, x / MTFL_SIZE);
    BaseOrder(base, x / MTFL_SIZE, 15);
  }

  /** The element at slot x. */
  function At(a: seq<int>, base: seq<int>, x: nat): int
    requires |base| == 16 && x < 256
  {
    if 0 <= Slot(base, x) < |a| then a[Slot(base, x)] else -1
  }

  /** The rows hold the list c. */
  ghost predicate Holds(a: seq<int>, base: seq<int>, c: seq<int>) {
    && |a| == MTFA_SIZE && Ordered(base) && |c| == 256
    && forall x :: 0 <= x < 256 ==> At(a, base, x) == c[x]
  }

  lemma HoldsAt(a: seq<int>, base: seq<int>, c: seq<int>, x: nat)
    requires Holds(a, base, c) && x < 256
    ensures |a| == MTFA_SIZE && |base| == 16 && |c| == 256
    ensures 0 <= Slot(base, x) < MTFA_SIZE && a[Slot(base, x)] == c[x]
  {
    SlotBounds(base, x);
    assert At(a, base, x) == c[x];
  }

  lemma FrontMoves(c: seq<int>, k: nat, x: nat)
    requires k < |c| && x < |c|
    ensures Front(c, k)[x] == if x == 0 then c[k] else if x <= k then c[x - 1] else c[x]
  {
  }

  /* ---- Within the first row ---- */

  /** a2 is a with element p + n moved down to p. */
  ghost predicate Turned(a: seq<int>, a2: seq<int>, p: int, n: int) {
    && |a2| == |a| && 0 <= p && 0 <= n && p + n < |a|
    && a2[p] == a[p + n]
    && (forall k :: p <= k < p + n ==> a2[k + 1] == a[k])
    && (forall k :: 0 <= k < |a| && !(p <= k <= p + n) ==> a2[k] == a[k])
  }

  lemma ShortDone(a: seq<int>, a2: seq<int>, base: seq<int>, c: seq<int>, nn: nat)
    requires Holds(a, base, c) && nn < MTFL_SIZE && Turned(a, a2, base[0], nn)
    ensures Holds(a2, base, Front(c, nn))
  {
    hide Front;
    forall x | 0 <= x < 256 ensures At(a2, base, x) == Front(c, nn)[x] {
      FrontMoves(c, nn, x);
      HoldsAt(a, base, c, x);
      HoldsAt(a, base, c, nn);
      if x >= MTFL_SIZE {
        SlotOrder(base, nn, x);
      } else if x >= 1 {
        HoldsAt(a, base, c, x - 1);
      }
    }
  }

  /* ---- Across rows ---- */

  /** The row starts afterwards: rows before row L begin one slot earlier. */
  function NewBase(base: seq<int>, L: nat): (b: seq<int>)
    requires |base| == 16
    ensures |b| == 16
  {
    seq(16, i requires 0 <= i < 16 => if i < L then base[i] - 1 else base[i])
  }

  /** The row starts while row m waits for its first element; row L has been opened by moving its
      start up. */
  function BaseAt(base: seq<int>, L: nat, m: nat): (b: seq<int>)
    requires |base| == 16
    ensures |b| == 16
  {
    seq(16, i requires 0 <= i < 16 => if i == m == L then base[i] + 1 else if m < i < L then base[i] - 1 else base[i])
  }

  lemma NewOrder(base: seq<int>, L: nat)
    requires Ordered(base) && base[0] >= 1
    ensures Ordered(NewBase(base, L))
    ensures forall x :: 0 <= x < 256 ==>
              Slot(NewBase(base, L), x) == Slot(base, x) - (if x / MTFL_SIZE < L then 1 else 0)
  {
    forall i | 1 <= i < 16 ensures After(NewBase(base, L), i) {
      assert After(base, i);
    }
  }

  /** On the way from list c to list f: the rows behind row m, and row m but for its first element,
      hold f in their new places; the rows before hold c. */
  ghost predicate Open(a: seq<int>, base: seq<int>, c: seq<int>, f: seq<int>, L: nat, m: nat) {
    && |a| == MTFA_SIZE && Ordered(base) && base[0] >= 1 && |c| == |f| == 256 && m <= L < 16
    && (forall x :: MTFL_SIZE * m < x < 256 ==> At(a, NewBase(base, L), x) == f[x])
    && (forall x :: 0 <= x < MTFL_SIZE * m ==> At(a, base, x) == c[x])
  }

  /** a2 is a with elements p..p+n-1 moved up by one; element p no longer matters. */
  ghost predicate Opened(a: seq<int>, a2: seq<int>, p: int, n: int) {
    && |a2| == |a| && 0 <= p && 0 <= n && p + n < |a|
    && (forall k :: p <= k < p + n ==> a2[k + 1] == a[k])
    && (forall k :: 0 <= k < |a| && !(p <= k <= p + n) ==> a2[k] == a[k])
  }

  /** Row lno with its elements before the taken one moved up. */
  lemma OpenStart(a: seq<int>, a2: seq<int>, base: seq<int>, c: seq<int>, nn: nat, L: nat, off: nat)
    requires Holds(a, base, c) && base[0] >= 1 && MTFL_SIZE <= nn < 256 && L == nn / MTFL_SIZE && off == nn % MTFL_SIZE
    requires Opened(a, a2, base[L], off)
    ensures Open(a2, base, c, Front(c, nn), L, L) && a[Slot(base, nn)] == c[nn]
  {
    hide Front;
    NewOrder(base, L);
    HoldsAt(a, base, c, nn);
    forall x | MTFL_SIZE * L < x < 256 ensures At(a2, NewBase(base, L), x) == Front(c, nn)[x] {
      FrontMoves(c, nn, x);
      HoldsAt(a, base, c, x);
      HoldsAt(a, base, c, x - 1);
      if x > nn { SlotOrder(base, nn, x); }
    }
    forall x | 0 <= x < MTFL_SIZE * L ensures At(a2, base, x) == c[x] {
      HoldsAt(a, base, c, x);
      SlotOrder(base, x, MTFL_SIZE * L);
      assert Slot(base, MTFL_SIZE * L) == base[L];
    }
  }

  lemma OpenAbove(a: seq<int>, base: seq<int>, c: seq<int>, nn: nat, L: nat, m: nat, x: nat)
    requires nn < 256 == |c| && Open(a, base, c, Front(c, nn), L, m) && m >= 1 && L == nn / MTFL_SIZE
    requires MTFL_SIZE * (m - 1) < x < 256
    ensures 0 <= Slot(base, MTFL_SIZE * m - 1) < MTFA_SIZE && 0 <= NewBase(base, L)[m] < MTFA_SIZE
    ensures At(a[NewBase(base, L)[m] := a[Slot(base, MTFL_SIZE * m - 1)]], NewBase(base, L), x) == Front(c, nn)[x]
  {
    hide Front;
    var nb, y := NewBase(base, L), MTFL_SIZE * m;
    NewOrder(base, L);
    SlotBounds(base, y - 1);
    SlotBounds(nb, y);
    assert At(a, base, y - 1) == c[y - 1];
    FrontMoves(c, nn, y);
    FrontMoves(c, nn, x);
    SlotBounds(nb, x);
    if x > y {
      SlotOrder(nb, y, x);
      assert At(a, nb, x) == Front(c, nn)[x];
    } else if x < y {
      SlotOrder(nb, x, y);
      SlotBounds(base, x - 1);
      assert At(a, base, x - 1) == c[x - 1];
    }
  }

  /** The last element of row m - 1 becomes the first of row m. */
  lemma OpenStep(a: seq<int>, base: seq<int>, c: seq<int>, nn: nat, L: nat, m: nat)
    requires nn < 256 == |c| && Open(a, base, c, Front(c, nn), L, m) && m >= 1 && L == nn / MTFL_SIZE
    ensures 0 <= Slot(base, MTFL_SIZE * m - 1) < MTFA_SIZE && 0 <= NewBase(base, L)[m] < MTFA_SIZE
    ensures Slot(base, MTFL_SIZE * m - 1) == base[m - 1] + MTFL_SIZE - 1
    ensures Open(a[NewBase(base, L)[m] := a[Slot(base, MTFL_SIZE * m - 1)]], base, c, Front(c, nn), L, m - 1)
  {
    hide Front;
    var f, nb, y := Front(c, nn), NewBase(base, L), MTFL_SIZE * m;
    NewOrder(base, L);
    SlotBounds(base, y - 1);
    SlotBounds(nb, y);
    assert At(a, base, y - 1) == c[y - 1];
    FrontMoves(c, nn, y);
    var a2 := a[nb[m] := a[Slot(base, y - 1)]];
    forall x | MTFL_SIZE * (m - 1) < x < 256 ensures At(a2, nb, x) == f[x] {
      OpenAbove(a, base, c, nn, L, m, x);
    }
    forall x | 0 <= x < MTFL_SIZE * (m - 1) ensures At(a2, base, x) == c[x] {
      SlotBounds(base, x);
      SlotOrder(base, x, y - 1);
      SlotOrder(base, y - 1, y);
      assert At(a, base, x) == c[x];
    }
  }

  /** The taken character becomes the first of row 0. */
  lemma OpenDone(a: seq<int>, base: seq<int>, c: seq<int>, nn: nat, L: nat)
    requires nn < 256 == |c| && Open(a, base, c, Front(c, nn), L, 0) && L >= 1
    ensures 0 <= NewBase(base, L)[0] == base[0] - 1 < MTFA_SIZE
    ensures Holds(a[base[0] - 1 := c[nn]], NewBase(base, L), Front(c, nn))
  {
    hide Front;
    var f, nb := Front(c, nn), NewBase(base, L);
    NewOrder(base, L);
    SlotBounds(nb, 0);
    FrontMoves(c, nn, 0);
    forall x | 0 <= x < 256 ensures At(a[base[0] - 1 := c[nn]], nb, x) == f[x] {
      if x > 0 {
        SlotOrder(nb, 0, x);
        assert At(a, nb, x) == f[x];
      }
    }
  }

  /* ---- Packing ---- */

  /** Elements x and above have been moved to the end of the array, the others are in their rows. */
  ghost predicate Packing(a: seq<int>, base: seq<int>, c: seq<int>, x: int) {
    && |a| == MTFA_SIZE && Ordered(base) && |c| == 256 && 0 <= x <= 256
    && (forall y :: x <= y < 256 ==> a[MTFA_SIZE - 256 + y] == c[y])
    && (forall y :: 0 <= y < x ==> At(a, base, y) == c[y])
  }

  lemma PackStep(a: seq<int>, base: seq<int>, c: seq<int>, x: int)
    requires Packing(a, base, c, x) && x > 0
    ensures 0 <= Slot(base, x - 1) < MTFA_SIZE
    ensures Packing(a[MTFA_SIZE - 256 + (x - 1) := a[Slot(base, x - 1)]], base, c, x - 1)
  {
    SlotBounds(base, x - 1);
    assert At(a, base, x - 1) == c[x - 1];
    var a2 := a[MTFA_SIZE - 256 + (x - 1) := a[Slot(base, x - 1)]];
    forall y | 0 <= y < x - 1 ensures At(a2, base, y) == c[y] {
      SlotOrder(base, y, x - 1);
      assert At(a, base, y) == c[y];
    }
  }

  lemma PackStart(a: seq<int>, base: seq<int>, c: seq<int>)
    requires Holds(a, base, c)
    ensures Packing(a, base, c, 256)
  {
  }

  lemma PackDone(a: seq<int>, base: seq<int>, c: seq<int>, b2: seq<int>)
    requires Packing(a, base, c, 0) && |b2| == 16
    requires forall i :: 0 <= i < 16 ==> b2[i] == MTFA_SIZE - 256 + MTFL_SIZE * i
    ensures Holds(a, b2, c)
  {
    forall i | 1 <= i < 16 ensures After(b2, i) {
    }
    forall x | 0 <= x < 256 ensures At(a, b2, x) == c[x] {
      assert Slot(b2, x) == MTFA_SIZE - 256 + x;
    }
  }

  /* ---- The array ---- */

  class MtfArray {
    const mtfa: array<int>
    const mtfbase: array<int>
    ghost var list: seq<int>

    ghost predicate Valid()
      reads this, mtfa, mtfbase
    {
      && mtfa != mtfbase && mtfa.Length == MTFA_SIZE && mtfbase.Length == 16 && Holds(mtfa[..], mtfbase[..], list)
      && mtfbase[0] >= 1
    }

    constructor ()
      ensures Valid() && list == Identity(256) && fresh(mtfa) && fresh(mtfbase)
    {
      mtfa, mtfbase := new int[MTFA_SIZE], new int[16];
      list := [];
      new;
      Init();
    }

    /** MTF init */
    method Init()
      requires mtfa != mtfbase && mtfa.Length == MTFA_SIZE && mtfbase.Length == 16
      modifies this, mtfa, mtfbase
      ensures Valid() && list == Identity(256)
    {
      list := Identity(256);
      var kk := MTFA_SIZE - 1;
      var ii := 15;
      while ii >= 0
        modifies mtfa, mtfbase
        invariant -1 <= ii < 16 && kk == MTFA_SIZE - 256 + MTFL_SIZE * (ii + 1) - 1
        invariant forall k :: kk < k < MTFA_SIZE ==> mtfa[k] == k - (MTFA_SIZE - 256)
        invariant forall i :: ii < i < 16 ==> mtfbase[i] == MTFA_SIZE - 256 + MTFL_SIZE * i
      {
        var jj := MTFL_SIZE - 1;
        while jj >= 0
          modifies mtfa
          invariant -1 <= jj < MTFL_SIZE && kk == MTFA_SIZE - 256 + MTFL_SIZE * ii + jj
          invariant forall k :: kk < k < MTFA_SIZE ==> mtfa[k] == k - (MTFA_SIZE - 256)
        {
          mtfa[kk] := ii * MTFL_SIZE + jj;
          kk := kk - 1;
          jj := jj - 1;
        }
        mtfbase[ii] := kk + 1;
        ii := ii - 1;
      }
      PackedStart(mtfa[..], mtfbase[..]);
    }

    /** The elements in p..p+n-1 move up by one, the one behind them to p: four at a time, then one at
        a time. */
    method TurnFour(p: nat, n: nat)
      requires mtfa.Length == MTFA_SIZE && p + n < MTFA_SIZE
      modifies mtfa
      ensures Turned(old(mtfa[..]), mtfa[..], p, n)
    {
      ghost var a := mtfa[..];
      var uc := mtfa[p + n];
      var nn: int := n;
      while nn > 3
        invariant 0 <= nn <= n
        invariant forall k :: 0 <= k <= p + nn ==> mtfa[k] == a[k]
        invariant forall k :: p + nn <= k < p + n ==> mtfa[k + 1] == a[k]
        invariant forall k :: p + n < k < MTFA_SIZE ==> mtfa[k] == a[k]
      {
        var z := p + nn;
        mtfa[z] := mtfa[z - 1];
        mtfa[z - 1] := mtfa[z - 2];
        mtfa[z - 2] := mtfa[z - 3];
        mtfa[z - 3] := mtfa[z - 4];
        nn := nn - 4;
      }
      while nn > 0
        invariant 0 <= nn <= n
        invariant forall k :: 0 <= k <= p + nn ==> mtfa[k] == a[k]
        invariant forall k :: p + nn <= k < p + n ==> mtfa[k + 1] == a[k]
        invariant forall k :: p + n < k < MTFA_SIZE ==> mtfa[k] == a[k]
      {
        mtfa[p + nn] := mtfa[p + nn - 1];
        nn := nn - 1;
      }
      mtfa[p] := uc;
    }

    /** The general case moves up the elements of a row before the taken one; what is left at its
        start does not matter. */
    method OpenRow(lno: nat, off: nat)
      requires mtfa.Length == MTFA_SIZE && mtfbase.Length == 16 && lno < 16 && mtfa != mtfbase
      requires 0 <= mtfbase[lno] && mtfbase[lno] + off < MTFA_SIZE
      modifies mtfa
      ensures Opened(old(mtfa[..]), mtfa[..], mtfbase[lno], off)
    {
      ghost var a, p := mtfa[..], mtfbase[lno];
      var pp := mtfbase[lno] + off;
      while pp > mtfbase[lno]
        invariant p <= pp <= p + off
        invariant forall k :: 0 <= k <= pp ==> mtfa[k] == a[k]
        invariant forall k :: pp <= k < p + off ==> mtfa[k + 1] == a[k]
        invariant forall k :: p + off < k < MTFA_SIZE ==> mtfa[k] == a[k]
      {
        mtfa[pp] := mtfa[pp - 1];
        pp := pp - 1;
      }
    }

    /** Rows packed again at the end of the array. */
    method Pack()
      requires mtfa != mtfbase && mtfa.Length == MTFA_SIZE && mtfbase.Length == 16 && Holds(mtfa[..], mtfbase[..], list)
      modifies mtfa, mtfbase
      ensures Valid() && list == old(list)
    {
      hide Packing, Holds, Ordered, Slot, At;
      ghost var base := mtfbase[..];
      PackStart(mtfa[..], base, list);
      var kk := MTFA_SIZE - 1;
      var ii := 15;
      while ii >= 0
        invariant -1 <= ii < 16 && kk == MTFA_SIZE - 256 + MTFL_SIZE * (ii + 1) - 1
        invariant Packing(mtfa[..], base, list, MTFL_SIZE * (ii + 1))
        invariant forall i :: 0 <= i <= ii ==> mtfbase[i] == base[i]
        invariant forall i :: ii < i < 16 ==> mtfbase[i] == MTFA_SIZE - 256 + MTFL_SIZE * i
      {
        var jj := MTFL_SIZE - 1;
        while jj >= 0
          modifies mtfa
          invariant -1 <= jj < MTFL_SIZE && kk == MTFA_SIZE - 256 + MTFL_SIZE * ii + jj
          invariant Packing(mtfa[..], base, list, MTFL_SIZE * ii + jj + 1)
        {
          ghost var a := mtfa[..];
          PackStep(a, base, list, MTFL_SIZE * ii + jj + 1);
          SlotAt(base, ii, jj);
          mtfa[kk] := mtfa[mtfbase[ii] + jj];
          assert mtfa[..] == a[kk := a[base[ii] + jj]];
          kk := kk - 1;
          jj := jj - 1;
        }
        mtfbase[ii] := kk + 1;
        ii := ii - 1;
      }
      PackDone(mtfa[..], base, list, mtfbase[..]);
    }

    /** Every row before row L passes its last element on to the next. */
    method PassOn(L: nat, ghost base: seq<int>, ghost c: seq<int>, ghost nn: nat)
      requires mtfa != mtfbase && mtfa.Length == MTFA_SIZE && mtfbase.Length == 16 == |base| && |c| == 256
      requires MTFL_SIZE <= nn < 256 && L == nn / MTFL_SIZE
      requires mtfbase[..] == BaseAt(base, L, L) && Open(mtfa[..], base, c, Front(c, nn), L, L)
      modifies mtfa, mtfbase
      ensures mtfbase[..] == BaseAt(base, L, 0) && Open(mtfa[..], base, c, Front(c, nn), L, 0)
    {
      hide Holds, Ordered, Slot, At, Open, Front;
      var lno := L;
      while lno > 0
        invariant 0 <= lno <= L && mtfbase[..] == BaseAt(base, L, lno) && Open(mtfa[..], base, c, Front(c, nn), L, lno)
      {
        ghost var a1 := mtfa[..];
        OpenStep(a1, base, c, nn, L, lno);
        mtfbase[lno] := mtfbase[lno] - 1;
        mtfa[mtfbase[lno]] := mtfa[mtfbase[lno - 1] + MTFL_SIZE - 1];
        lno := lno - 1;
        assert mtfa[..] == a1[NewBase(base, L)[lno + 1] := a1[Slot(base, MTFL_SIZE * (lno + 1) - 1)]];
        assert mtfbase[..] == BaseAt(base, L, lno);
      }
    }

    /** The general case: one row opens, every row before it passes its last element on, the taken
        character goes to the front. */
    method TakeFar(nn: nat) returns (uc: int)
      requires Valid() && MTFL_SIZE <= nn < 256
      modifies this, mtfa, mtfbase
      ensures Valid() && uc == old(list)[nn] && list == Front(old(list), nn)
    {
      hide Holds, Ordered, Slot, At, Open, Front;
      ghost var a, base, c := mtfa[..], mtfbase[..], list;
      var L, off := nn / MTFL_SIZE, nn % MTFL_SIZE;
      ListSize(a, base, c);
      HoldsAt(a, base, c, nn);
      SlotAt(base, L, off);
      SlotBounds(base, MTFL_SIZE * L);
      SlotAt(base, L, 0);
      uc := mtfa[mtfbase[L] + off];
      OpenRow(L, off);
      OpenStart(a, mtfa[..], base, c, nn, L, off);
      mtfbase[L] := mtfbase[L] + 1;
      assert mtfbase[..] == BaseAt(base, L, L);
      PassOn(L, base, c, nn);
      ghost var a1 := mtfa[..];
      OpenDone(a1, base, c, nn, L);
      mtfbase[0] := mtfbase[0] - 1;
      mtfa[mtfbase[0]] := uc;
      assert mtfa[..] == a1[base[0] - 1 := c[nn]];
      assert mtfbase[..] == NewBase(base, L);
      list := Front(c, nn);
      if mtfbase[0] == 0 {
        Pack();
      } else {
        BaseSize(mtfa[..], mtfbase[..], list);
      }
    }

    /** The short case avoids the general expense. */
    method TakeNear(nn: nat) returns (uc: int)
      requires Valid() && nn < MTFL_SIZE
      modifies this, mtfa
      ensures Valid() && uc == old(list)[nn] && list == Front(old(list), nn)
    {
      hide Holds, Ordered, Slot, At, Front, Turned;
      ghost var a := mtfa[..];
      ListSize(a, mtfbase[..], list);
      HoldsAt(a, mtfbase[..], list, nn);
      SlotAt(mtfbase[..], 0, nn);
      var pp := mtfbase[0];
      uc := mtfa[pp + nn];
      TurnFour(pp, nn);
      ShortDone(a, mtfa[..], mtfbase[..], list, nn);
      list := Front(list, nn);
    }

    /** uc = MTF(nn): takes the character with rank nn and moves it to the front. */
    method Take(nn: nat) returns (uc: int)
      requires Valid() && nn < 256
      modifies this, mtfa, mtfbase
      ensures Valid() && uc == old(list)[nn] && list == Front(old(list), nn)
    {
      if nn < MTFL_SIZE {
        uc := TakeNear(nn);
      } else {
        uc := TakeFar(nn);
      }
    }

    /** The character at the front, which a run repeats. */
    method First() returns (uc: int)
      requires Valid()
      ensures |list| == 256 && uc == list[0]
    {
      hide Slot, At;
      HoldsAt(mtfa[..], mtfbase[..], list, 0);
      SlotAt(mtfbase[..], 0, 0);
      uc := mtfa[mtfbase[0]];
    }
  }

  lemma ListSize(a: seq<int>, base: seq<int>, c: seq<int>)
    requires Holds(a, base, c)
    ensures |a| == MTFA_SIZE && |base| == 16 && |c| == 256 && Ordered(base)
  {
  }

  lemma BaseSize(a: seq<int>, base: seq<int>, c: seq<int>)
    requires Holds(a, base, c) && base[0] != 0
    ensures base[0] >= 1
  {
  }

  lemma SlotAt(base: seq<int>, i: nat, j: nat)
    requires |base| == 16 && i < 16 && j < MTFL_SIZE
    ensures MTFL_SIZE * i + j < 256 && Slot(base, MTFL_SIZE * i + j) == base[i] + j
  {
  }

  lemma PackedStart(a: seq<int>, base: seq<int>)
    requires |a| == MTFA_SIZE && forall k :: MTFA_SIZE - 257 < k < MTFA_SIZE ==> a[k] == k - (MTFA_SIZE - 256)
    requires |base| == 16 && forall i :: 0 <= i < 16 ==> base[i] == MTFA_SIZE - 256 + MTFL_SIZE * i
    ensures Holds(a, base, Identity(256))
  {
    forall i | 1 <= i < 16 ensures After(base, i) {
    }
    forall x | 0 <= x < 256 ensures At(a, base, x) == x {
      assert Slot(base, x) == MTFA_SIZE - 256 + x;
    }
  }
}
