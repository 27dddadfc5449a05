/** Move-to-front coding of the last column, with runs of zeros in bijective base 2. */
module MoveToFront {
  import opened Counting
  import opened Powers
  import opened Rotation

  const RUNA := 0
  const RUNB := 1

  /** s with its element k moved to the front. */
  function Front(s: seq<int>, k: nat): (t: seq<int>)
    requires k < |s|
    ensures |t| == |s|
  {
    [s[k]] + s[..k] + s[k + 1..]
  }

  function Identity(n: nat): (s: seq<int>)
    ensures |s| == n && forall i :: 0 <= i < n ==> s[i] == i
  {
    seq(n, i => i)
  }

  lemma FrontPerm(s: seq<int>, n: nat, k: nat)
    requires IsPerm(s, n) && k < n
    ensures IsPerm(Front(s, k), n)
  {
    var t := Front(s, k);
    forall i | 0 <= i < n ensures t[i] == if i == 0 then s[k] else if i <= k then s[i - 1] else s[i] {
    }
  }

  /** The list of n characters after i steps of move-to-front with ranks r. */
  ghost function List(r: seq<int>, n: nat, i: nat): (s: seq<int>)
    requires Within(r, n) && i <= |r|
    ensures |s| == n
  {
    if i == 0 then Identity(n) else Front(List(r, n, i - 1), r[i - 1])
  }

  lemma {:induction false} ListPerm(r: seq<int>, n: nat, i: nat)
    requires Within(r, n) && i <= |r|
    ensures IsPerm(List(r, n, i), n)
  {
    if i > 0 {
      ListPerm(r, n, i - 1);
      FrontPerm(List(r, n, i - 1), n, r[i - 1]);
    }
  }

  /** r gives for every character of col its place in the list. */
  ghost predicate Ranked(col: seq<int>, n: nat, r: seq<int>) {
    && |r| == |col| && Within(r, n)
    && forall i :: 0 <= i < |r| ==> List(r, n, i)[r[i]] == col[i]
  }

  lemma {:induction false} ListSame(r: seq<int>, q: seq<int>, n: nat, i: nat)
    requires Within(r, n) && Within(q, n) && i <= |r| && i <= |q| && forall k :: 0 <= k < i ==> r[k] == q[k]
    ensures List(r, n, i) == List(q, n, i)
  {
    if i > 0 { ListSame(r, q, n, i - 1); }
  }

  /** Ranks determine the column, and the column the ranks. */
  lemma {:induction false} RanksUnique(col: seq<int>, n: nat, r: seq<int>, q: seq<int>, i: nat)
    requires Ranked(col, n, r) && Ranked(col, n, q) && i <= |col| == |r| == |q|
    ensures forall k :: 0 <= k < i ==> r[k] == q[k]
  {
    hide List, IsPerm, Ranked, Within;
    if i > 0 {
      RanksUnique(col, n, r, q, i - 1);
      RankedAt(col, n, r, i - 1);
      RankedAt(col, n, q, i - 1);
      ListSame(r, q, n, i - 1);
      ListPerm(r, n, i - 1);
      SamePlace(List(r, n, i - 1), n, r[i - 1], q[i - 1]);
    }
  }

  lemma RankedAt(col: seq<int>, n: nat, r: seq<int>, i: nat)
    requires Ranked(col, n, r) && i < |col|
    ensures |r| == |col| && Within(r, n) && 0 <= r[i] < n && List(r, n, i)[r[i]] == col[i]
  {
  }

  lemma SamePlace(s: seq<int>, n: nat, i: nat, j: nat)
    requires IsPerm(s, n) && i < n && j < n && s[i] == s[j]
    ensures i == j
  {
  }

  /* ---- Runs ---- */

  /** The code of a run of z zeros: the digits 1 and 2, written as RUNA and RUNB, lowest first. */
  function RunCode(z: nat): (s: seq<int>)
    ensures forall i :: 0 <= i < |s| ==> s[i] == RUNA || s[i] == RUNB
  {
    if z == 0 then [] else [(z - 1) % 2] + RunCode((z - 1) / 2)
  }

  /** The length a run code stands for. */
  function RunValue(s: seq<int>): nat
    requires forall i :: 0 <= i < |s| ==> s[i] == RUNA || s[i] == RUNB
  {
    if |s| == 0 then 0 else 1 + s[0] + 2 * RunValue(s[1..])
  }

  lemma {:induction false} RunDecodes(z: nat)
    ensures RunValue(RunCode(z)) == z
  {
    if z > 0 {
      RunDecodes((z - 1) / 2);
      assert RunCode(z)[1..] == RunCode((z - 1) / 2);
    }
  }

  /** The other direction: no two codes for one length. */
  lemma {:induction false} RunEncodes(s: seq<int>)
    requires forall i :: 0 <= i < |s| ==> s[i] == RUNA || s[i] == RUNB
    ensures RunCode(RunValue(s)) == s
  {
    if |s| > 0 {
      var r := s[1..];
      RunEncodes(r);
      var z := RunValue(s);
      assert (z - 1) % 2 == s[0] && (z - 1) / 2 == RunValue(r);
      assert s == [s[0]] + r;
    }
  }

  /** A run code is no longer than its run, and short. */
  lemma {:induction false} RunCodeShort(z: nat)
    ensures |RunCode(z)| <= z && Pow2(|RunCode(z)|) <= z + 1
  {
    if z > 0 {
      RunCodeShort((z - 1) / 2);
      assert |RunCode(z)| == 1 + |RunCode((z - 1) / 2)|;
    }
  }

  /* ---- The symbols of a column ---- */

  /** The symbols for the ranks from position i on, when z zeros are pending. */
  ghost function Emit(r: seq<int>, i: nat, z: nat): seq<int>
    requires i <= |r|
    decreases |r| - i
  {
    if i == |r| then RunCode(z)
    else if r[i] == 0 then Emit(r, i + 1, z + 1)
    else RunCode(z) + ([r[i] + 1] + Emit(r, i + 1, 0))
  }

  /** What the back end sends for ranks over n characters; n + 1 ends the block. */
  ghost function Symbols(r: seq<int>, n: nat): seq<int> {
    Emit(r, 0, 0) + [n + 1]
  }

  lemma {:induction false} EmitBounds(r: seq<int>, n: nat, i: nat, z: nat)
    requires Within(r, n) && i <= |r|
    ensures |Emit(r, i, z)| <= z + |r| - i
    ensures Within(Emit(r, i, z), n + 1) || n == 0
    decreases |r| - i
  {
    RunCodeShort(z);
    if i < |r| {
      if r[i] == 0 { EmitBounds(r, n, i + 1, z + 1); } else { EmitBounds(r, n, i + 1, 0); }
    }
  }

  lemma SymbolBounds(r: seq<int>, n: nat)
    requires Within(r, n) && n > 0
    ensures 1 <= |Symbols(r, n)| <= |r| + 1 && Within(Symbols(r, n), n + 2)
  {
    EmitBounds(r, n, 0, 0);
  }

  /** The number of zero ranks from i on. */
  ghost function Zeros(r: seq<int>, i: nat): (k: nat)
    requires i <= |r|
    ensures i + k <= |r| && (i + k < |r| ==> r[i + k] != 0)
    ensures forall j :: i <= j < i + k ==> r[j] == 0
    decreases |r| - i
  {
    if i < |r| && r[i] == 0 then 1 + Zeros(r, i + 1) else 0
  }

  /** The symbols begin with the code of the zeros ahead. */
  lemma {:induction false} EmitZeros(r: seq<int>, i: nat, z: nat)
    requires i <= |r|
    ensures Emit(r, i, z) == RunCode(z + Zeros(r, i)) + Emit(r, i + Zeros(r, i), 0)
    decreases |r| - i
  {
    hide RunCode, Zeros;
    ZeroStep(r, i);
    if i < |r| && r[i] == 0 {
      EmitZeros(r, i + 1, z + 1);
    } else {
      hide Emit;
      EmitFlush(r, i, z);
    }
  }

  lemma ZeroStep(r: seq<int>, i: nat)
    requires i <= |r|
    ensures Zeros(r, i) == if i < |r| && r[i] == 0 then 1 + Zeros(r, i + 1) else 0
  {
  }

  lemma EmitFlush(r: seq<int>, i: nat, z: nat)
    requires i <= |r| && (i < |r| ==> r[i] != 0)
    ensures Emit(r, i, z) == RunCode(z) + Emit(r, i, 0)
  {
    NoRun();
    if i < |r| {
      hide RunCode;
      var rest := [r[i] + 1] + Emit(r, i + 1, 0);
      assert Emit(r, i, 0) == [] + rest == rest;
    } else {
      hide RunCode;
      assert RunCode(z) + [] == RunCode(z);
    }
  }

  lemma NoRun()
    ensures RunCode(0) == []
  {
  }

  /** A zero rank leaves the list alone. */
  lemma FrontZero(s: seq<int>)
    requires |s| > 0
    ensures Front(s, 0) == s
  {
  }

  /** Zeros repeat the first character of the list. */
  lemma {:induction false} ZerosRepeat(r: seq<int>, n: nat, i: nat, k: nat)
    requires Within(r, n) && i <= |r| && k <= Zeros(r, i)
    ensures List(r, n, i + k) == List(r, n, i)
    decreases k
  {
    if k > 0 {
      ZerosRepeat(r, n, i, k - 1);
      FrontZero(List(r, n, i));
    }
  }
}
