/** The compressor's first back-end stage: the sorted block becomes a sequence of symbols. */
module MtfEncoder {
  import opened Counting
  import opened MoveToFront
  import opened Rotation

  /* ---- Characters in use ---- */

  /** The number of used characters below c: the number used character c is sent under. */
  function UsedBelow(inUse: seq<bool>, c: nat): (k: nat)
    requires c <= |inUse|
    ensures k <= c
  {
    if c == 0 then 0 else UsedBelow(inUse, c - 1) + (if inUse[c - 1] then 1 else 0)
  }

  lemma {:induction false} UsedGrows(inUse: seq<bool>, c: nat, d: nat)
    requires c <= d <= |inUse|
    ensures UsedBelow(inUse, c) <= UsedBelow(inUse, d)
    ensures c < d && inUse[c] ==> UsedBelow(inUse, c) < UsedBelow(inUse, d)
    decreases d
  {
    if c < d { UsedGrows(inUse, c, d - 1); }
  }

  /** makeMaps_e */
  method MakeMaps(inUse: array<bool>, unseqToSeq: array<int>) returns (nInUse: nat)
    requires inUse.Length == unseqToSeq.Length == 256
    modifies unseqToSeq
    ensures nInUse == UsedBelow(inUse[..], 256)
    ensures forall c :: 0 <= c < 256 && inUse[c] ==> unseqToSeq[c] == UsedBelow(inUse[..], c)
  {
    nInUse := 0;
    for i := 0 to 256
      invariant nInUse == UsedBelow(inUse[..], i)
      invariant forall c :: 0 <= c < i && inUse[c] ==> unseqToSeq[c] == UsedBelow(inUse[..], c)
    {
      if inUse[i] {
        unseqToSeq[i] := nInUse;
        nInUse := nInUse + 1;
      }
    }
  }

  /** The characters of l under the numbers they are sent as. */
  function Numbered(inUse: seq<bool>, l: seq<int>): (col: seq<int>)
    requires forall i :: 0 <= i < |l| ==> 0 <= l[i] < |inUse|
    ensures |col| == |l| && forall i :: 0 <= i < |l| ==> col[i] == UsedBelow(inUse, l[i])
  {
    seq(|l|, i requires 0 <= i < |l| => UsedBelow(inUse, l[i]))
  }

  /** inUse marks all characters of s. */
  ghost predicate AllUsed(inUse: seq<bool>, s: seq<int>) {
    |inUse| == 256 && forall i :: 0 <= i < |s| ==> 0 <= s[i] < 256 && inUse[s[i]]
  }

  /** All characters marked as used occur. */
  ghost predicate OnlyUsed(inUse: seq<bool>, b: seq<int>) {
    forall c :: 0 <= c < |inUse| && inUse[c] ==> c in b
  }

  lemma NumberedBelow(inUse: seq<bool>, l: seq<int>)
    requires AllUsed(inUse, l)
    ensures Within(Numbered(inUse, l), UsedBelow(inUse, 256))
  {
    forall i | 0 <= i < |l| ensures 0 <= Numbered(inUse, l)[i] < UsedBelow(inUse, 256) {
      UsedGrows(inUse, l[i], 256);
    }
  }

  /* ---- Ranks ---- */

  /** Every column has ranks. */
  lemma RanksExist(col: seq<int>, n: nat) returns (r: seq<int>)
    requires Within(col, n)
    ensures Ranked(col, n, r)
  {
    hide List;
    r := [];
    while |r| < |col|
      invariant |r| <= |col| && Ranked(col[..|r|], n, r)
      decreases |col| - |r|
    {
      var i := |r|;
      ListPerm(r, n, i);
      PermCovers(List(r, n, i), n, col[i]);
      var k :| 0 <= k < n && List(r, n, i)[k] == col[i];
      RankedGrows(col, n, r, k);
      r := r + [k];
    }
    assert col[..|r|] == col;
  }

  lemma RankedGrows(col: seq<int>, n: nat, r: seq<int>, k: nat)
    requires |r| < |col| && Ranked(col[..|r|], n, r) && k < n && List(r, n, |r|)[k] == col[|r|]
    ensures Ranked(col[..|r| + 1], n, r + [k])
  {
    hide List;
    var q := r + [k];
    forall i | 0 <= i < |q| ensures List(q, n, i)[q[i]] == col[..|r| + 1][i] {
      ListSame(r, q, n, i);
      if i < |r| { assert col[..|r|][i] == col[i]; }
    }
  }

  /** The character at the front of the list is the one with rank 0. */
  lemma FrontIsZero(col: seq<int>, n: nat, r: seq<int>, i: nat)
    requires Ranked(col, n, r) && i < |col|
    ensures |r| == |col| && Within(r, n) && 0 <= r[i] < n
    ensures List(r, n, i)[0] == col[i] <==> r[i] == 0
    ensures List(r, n, i)[r[i]] == col[i] && forall k :: 0 <= k < r[i] ==> List(r, n, i)[k] != col[i]
    ensures List(r, n, i + 1) == Front(List(r, n, i), r[i])
  {
    ListPerm(r, n, i);
  }

  /* ---- The list kept in an array ---- */

  /** Moves character ll from its place behind the front of the list to the front. */
  method MoveFront(yy: array<int>, ll: int, ghost n: nat, ghost k: nat) returns (j: nat)
    requires 0 < k < n <= yy.Length && yy[k] == ll && forall i :: 0 <= i < k ==> yy[i] != ll
    modifies yy
    ensures j == k && yy[..n] == Front(old(yy[..n]), k)
  {
    ghost var s := yy[..n];
    var rtmp := yy[1];
    yy[1] := yy[0];
    var p := 1;
    while ll != rtmp
      invariant 1 <= p <= k && rtmp == s[p] && yy[0] == s[0]
      invariant forall i :: 1 <= i <= p ==> yy[i] == s[i - 1]
      invariant forall i :: p < i < n ==> yy[i] == s[i]
      decreases k - p
    {
      p := p + 1;
      var rtmp2 := rtmp;
      rtmp := yy[p];
      yy[p] := rtmp2;
    }
    yy[0] := rtmp;
    j := p;
    FrontAt(s, k);
  }

  lemma FrontAt(s: seq<int>, k: nat)
    requires k < |s|
    ensures var t := Front(s, k);
            forall i :: 0 <= i < |s| ==> t[i] == if i == 0 then s[k] else if i <= k then s[i - 1] else s[i]
  {
    var t := Front(s, k);
    forall i | 0 <= i < |s| ensures t[i] == if i == 0 then s[k] else if i <= k then s[i - 1] else s[i] {
    }
  }

  /* ---- Symbols ---- */

  /** freq counts the first wr symbols. */
  ghost predicate Tallied(mtfv: seq<int>, wr: nat, freq: seq<int>, n: nat) {
    wr <= |mtfv| && n + 2 <= |freq| && forall c :: 0 <= c < n + 2 ==> freq[c] == CountEq(mtfv, wr, c)
  }

  lemma TallyStep(mtfv: seq<int>, wr: nat, freq: seq<int>, n: nat, v: int)
    requires Tallied(mtfv, wr, freq, n) && wr < |mtfv| && 0 <= v < n + 2
    ensures Tallied(mtfv[wr := v], wr + 1, freq[v := freq[v] + 1], n)
    ensures mtfv[wr := v][..wr + 1] == mtfv[..wr] + [v]
  {
    forall c ensures CountEq(mtfv[wr := v], wr, c) == CountEq(mtfv, wr, c) {
      CountEqSame(mtfv, mtfv[wr := v], wr, c);
    }
  }

  /** mtfv[wr] = v; wr++; mtfFreq[v]++. The 16-bit symbols lie in the storage of the 32-bit row pointers:
      writing symbol wr leaves anything in pointer wr / 2. */
  method Put(mtfv: array<int>, ptr: array<int>, mtfFreq: array<int>, wr: nat, v: int, ghost n: nat) returns (wr': nat)
    requires mtfv != mtfFreq && ptr !in {mtfv, mtfFreq} && wr < mtfv.Length && wr / 2 < ptr.Length
    requires 0 <= v < n + 2 && Tallied(mtfv[..], wr, mtfFreq[..], n)
    modifies mtfv, ptr, mtfFreq
    ensures wr' == wr + 1 && mtfv[..wr'] == old(mtfv[..wr]) + [v] && Tallied(mtfv[..], wr', mtfFreq[..], n)
    ensures forall k :: 0 <= k < ptr.Length && k != wr / 2 ==> ptr[k] == old(ptr[k])
  {
    ghost var m, f := mtfv[..], mtfFreq[..];
    TallyStep(m, wr, f, n, v);
    mtfv[wr] := v;
    ptr[wr / 2] := *;
    mtfFreq[v] := mtfFreq[v] + 1;
    assert mtfv[..] == m[wr := v] && mtfFreq[..] == f[v := f[v] + 1];
    wr' := wr + 1;
    assert mtfv[..wr'] == mtfv[..][..wr'] && m[..wr] == old(mtfv[..wr]);
  }

  lemma RunUnfolds(z: nat)
    ensures RunCode(z + 1) == [z % 2] + RunCode(z / 2)
    ensures RunCode(0) == [] && |RunCode(z + 1)| == 1 + |RunCode(z / 2)|
  {
  }

  /** Sends the pending run of zeros. */
  method FlushRun(mtfv: array<int>, ptr: array<int>, mtfFreq: array<int>, wr: nat, z: nat, ghost n: nat)
    returns (wr': nat)
    requires mtfv != mtfFreq && ptr !in {mtfv, mtfFreq} && z > 0 && wr + |RunCode(z)| <= mtfv.Length
    requires wr + |RunCode(z)| <= 2 * ptr.Length && Tallied(mtfv[..], wr, mtfFreq[..], n)
    modifies mtfv, ptr, mtfFreq
    ensures wr' == wr + |RunCode(z)| && mtfv[..wr'] == old(mtfv[..wr]) + RunCode(z)
    ensures Tallied(mtfv[..], wr', mtfFreq[..], n)
    ensures forall k :: 0 <= k < ptr.Length && 2 * k >= wr' ==> ptr[k] == old(ptr[k])
  {
    hide RunCode, Tallied;
    ghost var s := mtfv[..wr];
    var zPend := z - 1;
    wr' := wr;
    while true
      invariant 0 <= zPend && Tallied(mtfv[..], wr', mtfFreq[..], n)
      invariant wr' + |RunCode(zPend + 1)| == wr + |RunCode(z)| <= mtfv.Length
      invariant mtfv[..wr'] + RunCode(zPend + 1) == s + RunCode(z)
      invariant wr <= wr' && forall k :: 0 <= k < ptr.Length && 2 * k >= wr' ==> ptr[k] == old(ptr[k])
      decreases zPend
    {
      RunUnfolds(zPend);
      ghost var w := mtfv[..wr'];
      if zPend % 2 == 1 {
        wr' := Put(mtfv, ptr, mtfFreq, wr', RUNB, n);
      } else {
        wr' := Put(mtfv, ptr, mtfFreq, wr', RUNA, n);
      }
      assert mtfv[..wr'] + RunCode(zPend / 2) == w + ([zPend % 2] + RunCode(zPend / 2));
      if zPend < 2 {
        assert mtfv[..wr'] + RunCode(0) == mtfv[..wr'];
        break;
      }
      zPend := (zPend - 2) / 2;
    }
  }

  lemma EmitStep(r: seq<int>, i: nat, z: nat)
    requires i < |r|
    ensures r[i] == 0 ==> Emit(r, i, z) == Emit(r, i + 1, z + 1)
    ensures r[i] != 0 ==> Emit(r, i, z) == RunCode(z) + ([r[i] + 1] + Emit(r, i + 1, 0))
  {
  }

  lemma EmitEnd(r: seq<int>, z: nat)
    ensures Emit(r, |r|, z) == RunCode(z)
  {
  }

  /** Between two rows: what has been written, and what pending zeros and later rows will add, is the
      code of the column; nothing is written ahead of the rows read. */
  ghost predicate Coding(col: seq<int>, n: nat, r: seq<int>, i: nat, yy: seq<int>, out: seq<int>, z: nat) {
    && Ranked(col, n, r) && i <= |r| && n <= |yy| && yy[..n] == List(r, n, i)
    && out + Emit(r, i, z) == Emit(r, 0, 0) && |out| + z <= i
  }

  lemma CodingStart(col: seq<int>, n: nat, r: seq<int>, yy: seq<int>)
    requires Ranked(col, n, r) && n <= |yy| && forall i :: 0 <= i < n ==> yy[i] == i
    ensures Coding(col, n, r, 0, yy, [], 0)
  {
    assert [] + Emit(r, 0, 0) == Emit(r, 0, 0);
  }

  lemma CodingZero(col: seq<int>, n: nat, r: seq<int>, i: nat, yy: seq<int>, out: seq<int>, z: nat)
    requires Coding(col, n, r, i, yy, out, z) && i < |r| && r[i] == 0
    ensures Coding(col, n, r, i + 1, yy, out, z + 1)
  {
    EmitStep(r, i, z);
    FrontZero(List(r, n, i));
  }

  lemma CodingMove(col: seq<int>, n: nat, r: seq<int>, i: nat, yy: seq<int>, yy2: seq<int>, out: seq<int>, z: nat)
    requires Coding(col, n, r, i, yy, out, z) && i < |r| && r[i] != 0
    requires |yy2| == |yy| && r[i] < n && yy2[..n] == Front(yy[..n], r[i])
    ensures Coding(col, n, r, i + 1, yy2, out + RunCode(z) + [r[i] + 1], 0)
  {
    hide Emit, RunCode, Front, Ranked, List;
    EmitStep(r, i, z);
    RunCodeShort(z);
    ListStep(col, n, r, i);
    SymbolJoins(out, RunCode(z), r[i] + 1, Emit(r, i + 1, 0));
  }

  lemma ListStep(col: seq<int>, n: nat, r: seq<int>, i: nat)
    requires Ranked(col, n, r) && i < |r|
    ensures Within(r, n) && |r| == |col| && List(r, n, i + 1) == Front(List(r, n, i), r[i])
  {
  }

  lemma SymbolJoins(out: seq<int>, run: seq<int>, v: int, e: seq<int>)
    ensures (out + run + [v]) + e == out + (run + ([v] + e))
  {
    assert ((out + run) + [v]) + e == (out + run) + ([v] + e);
  }

  lemma CodingFacts(col: seq<int>, n: nat, r: seq<int>, i: nat, yy: seq<int>, out: seq<int>, z: nat)
    requires Coding(col, n, r, i, yy, out, z) && i < |col|
    ensures |r| == |col| && 0 <= r[i] < n <= |yy| && |out| + z <= i && |out| + |RunCode(z)| <= i
    ensures yy[0] == col[i] <==> r[i] == 0
    ensures yy[r[i]] == col[i] && forall k :: 0 <= k < r[i] ==> yy[k] != col[i]
  {
    FrontIsZero(col, n, r, i);
    RunCodeShort(z);
    assert forall k :: 0 <= k < n ==> yy[k] == yy[..n][k];
  }

  /** Reads row i: the number of the character before the rotation in that row. */
  method RowSymbol(ptr: array<int>, block: array<int>, unseqToSeq: array<int>, nblock: nat, i: nat,
                   ghost b: seq<int>, ghost inUse: seq<bool>) returns (ll: int)
    requires i < nblock == |b| == ptr.Length <= block.Length && block[..nblock] == b && unseqToSeq.Length == 256
    requires 0 <= ptr[i] < nblock && AllUsed(inUse, b)
    requires forall c :: 0 <= c < 256 && inUse[c] ==> unseqToSeq[c] == UsedBelow(inUse, c)
    ensures 0 <= b[Prev(ptr[i], nblock)] < 256 == |inUse| && ll == UsedBelow(inUse, b[Prev(ptr[i], nblock)])
  {
    var j := ptr[i] - 1;
    if j < 0 { j := j + nblock; }
    assert block[j] == b[j];
    ll := unseqToSeq[block[j]];
  }

  /** The list before the first symbol. */
  method StartList(n: nat) returns (yy: array<int>)
    requires n <= 256
    ensures fresh(yy) && yy.Length == 256 && forall k :: 0 <= k < n ==> yy[k] == k
  {
    yy := new int[256];
    for i := 0 to n
      invariant forall k :: 0 <= k < i ==> yy[k] == k
    {
      yy[i] := i;
    }
  }

  method ClearFreq(mtfFreq: array<int>, eob: nat)
    requires eob < mtfFreq.Length
    modifies mtfFreq
    ensures forall c :: 0 <= c <= eob ==> mtfFreq[c] == 0
  {
    for i := 0 to eob + 1
      invariant forall c :: 0 <= c < i ==> mtfFreq[c] == 0
    {
      mtfFreq[i] := 0;
    }
  }

  /** The row pointers that symbols have not reached. */
  ghost predicate Unread(now: seq<int>, was: seq<int>, wr: nat) {
    |now| == |was| && forall k :: 0 <= k < |was| && 2 * k >= wr ==> now[k] == was[k]
  }

  lemma UnreadStep(was: seq<int>, now: seq<int>, next: seq<int>, wr: nat, wr2: nat)
    requires Unread(now, was, wr) && Unread(next, now, wr2) && wr <= wr2
    ensures Unread(next, was, wr2)
  {
  }

  /** One row: the pending zeros and the symbol, or one more zero. */
  method CodeRow(ptr: array<int>, mtfv: array<int>, mtfFreq: array<int>, yy: array<int>, ll: int, wr: nat, zPend: nat,
                 ghost col: seq<int>, ghost nInUse: nat, ghost r: seq<int>, ghost i: nat)
    returns (wr': nat, zPend': nat)
    requires mtfv != mtfFreq && ptr !in {mtfv, mtfFreq} && yy !in {ptr, mtfv, mtfFreq} && yy.Length == 256
    requires i < |col| == ptr.Length < mtfv.Length && ll == col[i] && wr <= mtfv.Length && wr + zPend <= i
    requires Coding(col, nInUse, r, i, yy[..], mtfv[..wr], zPend) && Tallied(mtfv[..], wr, mtfFreq[..], nInUse)
    modifies mtfv, ptr, mtfFreq, yy
    ensures wr <= wr' <= mtfv.Length && wr' + zPend' <= i + 1 && Unread(ptr[..], old(ptr[..]), wr')
    ensures Coding(col, nInUse, r, i + 1, yy[..], mtfv[..wr'], zPend') && Tallied(mtfv[..], wr', mtfFreq[..], nInUse)
  {
    hide Coding, Tallied, Emit, RunCode, Front, Ranked;
    ghost var y, out := yy[..], mtfv[..wr];
    CodingFacts(col, nInUse, r, i, y, out, zPend);
    wr', zPend' := wr, zPend;
    if yy[0] == ll {
      CodingZero(col, nInUse, r, i, y, out, zPend);
      zPend' := zPend + 1;
    } else {
      if zPend > 0 {
        wr' := FlushRun(mtfv, ptr, mtfFreq, wr, zPend, nInUse);
        zPend' := 0;
      } else {
        FlushNothing(out);
      }
      var j := MoveFront(yy, ll, nInUse, r[i]);
      wr' := Put(mtfv, ptr, mtfFreq, wr', j + 1, nInUse);
      CodingMove(col, nInUse, r, i, y, yy[..], out, zPend);
      CodingSize(col, nInUse, r, i + 1, yy[..], mtfv[..wr'], 0);
    }
  }

  /** generateMTFValues: mtfv becomes the symbols of the numbered last column, mtfFreq their counts. The
      symbols overwrite the row pointers while these are read, but never one that is still to be read. */
  method GenerateValues(ptr: array<int>, block: array<int>, inUse: array<bool>, unseqToSeq: array<int>, nblock: nat,
                        mtfv: array<int>, mtfFreq: array<int>, ghost b: seq<int>, ghost l: seq<int>)
    returns (nMTF: nat, nInUse: nat, ghost r: seq<int>)
    requires mtfv !in {ptr, block, unseqToSeq, mtfFreq} && mtfFreq !in {ptr, block, unseqToSeq}
    requires unseqToSeq != ptr && unseqToSeq != block && ptr != block
    requires 0 < nblock == |b| == |l| == ptr.Length <= block.Length && block[..nblock] == b
    requires forall i :: 0 <= i < nblock ==> 0 <= ptr[i] < nblock && l[i] == b[Prev(ptr[i], nblock)]
    requires inUse.Length == unseqToSeq.Length == 256 && AllUsed(inUse[..], b) && AllUsed(inUse[..], l)
    requires mtfv.Length > nblock && mtfFreq.Length == 258
    modifies unseqToSeq, mtfv, ptr, mtfFreq
    ensures Unread(ptr[..], old(ptr[..]), nMTF)
    ensures nInUse == UsedBelow(inUse[..], 256) && Ranked(Numbered(inUse[..], l), nInUse, r)
    ensures nMTF <= nblock + 1 && mtfv[..nMTF] == Symbols(r, nInUse)
    ensures Tallied(mtfv[..], nMTF, mtfFreq[..], nInUse)
  {
    hide Coding, Tallied, Emit, RunCode, Front, Ranked, UsedBelow;
    nInUse := MakeMaps(inUse, unseqToSeq);
    ghost var u, p := inUse[..], ptr[..];
    ghost var col := Numbered(u, l);
    NumberedBelow(u, l);
    r := RanksExist(col, nInUse);
    var EOB := nInUse + 1;
    var yy := StartList(nInUse);
    ClearFreq(mtfFreq, EOB);
    TallyNone(mtfv[..], mtfFreq[..], nInUse);
    CodingStart(col, nInUse, r, yy[..]);
    var wr: nat, zPend: nat := 0, 0;
    assert mtfv[..0] == [];
    for i := 0 to nblock
      invariant wr + zPend <= i && wr <= mtfv.Length && Unread(ptr[..], p, wr)
      invariant Tallied(mtfv[..], wr, mtfFreq[..], nInUse) && Coding(col, nInUse, r, i, yy[..], mtfv[..wr], zPend)
      invariant forall c :: 0 <= c < 256 && u[c] ==> unseqToSeq[c] == UsedBelow(u, c)
    {
      assert ptr[..][i] == p[i] && ptr[i] == ptr[..][i];
      var ll := RowSymbol(ptr, block, unseqToSeq, nblock, i, b, u);
      assert ll == col[i];
      ghost var now, wr0 := ptr[..], wr;
      wr, zPend := CodeRow(ptr, mtfv, mtfFreq, yy, ll, wr, zPend, col, nInUse, r, i);
      UnreadStep(p, now, ptr[..], wr0, wr);
    }
    ghost var now, wr0 := ptr[..], wr;
    CodingEnd(col, nInUse, r, yy[..], mtfv[..wr], zPend);
    if zPend > 0 {
      wr := FlushRun(mtfv, ptr, mtfFreq, wr, zPend, nInUse);
    } else {
      FlushNothing(mtfv[..wr]);
    }
    wr := Put(mtfv, ptr, mtfFreq, wr, EOB, nInUse);
    UnreadStep(p, now, ptr[..], wr0, wr);
    nMTF := wr;
  }

  lemma TallyNone(mtfv: seq<int>, freq: seq<int>, n: nat)
    requires n + 2 <= |freq| && forall c :: 0 <= c < n + 2 ==> freq[c] == 0
    ensures Tallied(mtfv, 0, freq, n)
  {
  }

  lemma FlushNothing(out: seq<int>)
    ensures out + RunCode(0) == out
  {
  }

  lemma CodingSize(col: seq<int>, n: nat, r: seq<int>, i: nat, yy: seq<int>, out: seq<int>, z: nat)
    requires Coding(col, n, r, i, yy, out, z)
    ensures |out| + z <= i
  {
  }

  lemma CodingEnd(col: seq<int>, n: nat, r: seq<int>, yy: seq<int>, out: seq<int>, z: nat)
    requires Coding(col, n, r, |col|, yy, out, z)
    ensures |out| + |RunCode(z)| <= |col| && out + RunCode(z) == Emit(r, 0, 0)
  {
    EmitEnd(r, z);
    RunCodeShort(z);
  }
}
