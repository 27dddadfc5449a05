/** The decoder's output stage: walking the inverted transform and undoing the initial run-length
    code, in the simple form of the small decoder and the optimised form of the fast one. */
module UnRle {
  import opened BwtTables
  import opened Checksums
  import opened Counting
  import opened InverseBwt
  import opened Rle

  /* ---- The characters the walk yields ---- */

  /** The first m characters met when walking from row o. */
  ghost function Chars(l: seq<int>, q: seq<int>, o: nat, m: nat): (s: seq<int>)
    requires Links(l, q) && o < |l|
    ensures |s| == m && forall j :: 0 <= j < m ==> s[j] == l[Row(q, o, j + 1)]
  {
    seq(m, j requires 0 <= j < m => l[Row(q, o, j + 1)])
  }

  lemma CharsReadable(l: seq<int>, q: seq<int>, o: nat)
    requires Links(l, q) && o < |l| && Within(l, 256)
    ensures Readable(Chars(l, q, o, |l| + 5), |l|)
  {
    hide Rank;
  }

  /** The first |l| characters are what the walk spells. */
  lemma {:induction false} CharsAreWalk(l: seq<int>, q: seq<int>, o: nat, j: nat, k: nat)
    requires Links(l, q) && o < |l|
    ensures Chars(l, q, o, j + k)[j..] == Walk(l, q, Row(q, o, j), k)
    decreases k
  {
    hide Rank;
    if k > 0 {
      CharsAreWalk(l, q, o, j + 1, k - 1);
      var c := Chars(l, q, o, j + k);
      assert c[j..] == [c[j]] + c[j + 1..];
    }
  }

  /* ---- What is left to put out ---- */

  /** used characters s[..used] have been read, of n in the block; the last of them is k0. */
  ghost predicate Reading(s: seq<int>, n: nat, used: nat, k0: int) {
    Readable(s, n) && 1 <= used <= n + 5 && (used <= n ==> k0 == s[used - 1])
  }

  /** The bytes still to come: the rest of the current run, and the runs not yet begun. */
  ghost function Rest(s: seq<int>, n: nat, used: nat, ch: int, len: nat): seq<int>
    requires Readable(s, n) && 1 <= used
  {
    Times(ch, len) + Expand(s, n, used - 1)
  }

  lemma EmitOne(s: seq<int>, n: nat, used: nat, ch: int, len: nat)
    requires Readable(s, n) && 1 <= used && len > 0
    ensures Rest(s, n, used, ch, len) == [ch] + Rest(s, n, used, ch, len - 1)
  {
    hide Expand;
    assert Times(ch, len) == [ch] + Times(ch, len - 1);
  }

  /** A run of the length found, read up to the character after it. */
  lemma NewRun(s: seq<int>, n: nat, used: nat, len: nat, used2: nat)
    requires Readable(s, n) && 1 <= used <= n && RunLength(s, n, used - 1) == len
    requires NextRun(s, n, used - 1) == used2 - 1
    ensures Rest(s, n, used, 0, 0) == Rest(s, n, used2, s[used - 1], len)
    ensures EndsWell(s, n, used - 1) <==> EndsWell(s, n, used2 - 1)
  {
    assert Times(0, 0) + Expand(s, n, used - 1) == Expand(s, n, used - 1);
  }

  /** What reading on from the start of a run finds: a run of m < 4, ended by another byte or by the
      block; or four equal bytes and a count. */
  lemma ShortRun(s: seq<int>, n: nat, u: nat, k0: int, m: nat)
    requires Reading(s, n, u, k0) && u <= n && 1 <= m <= 3
    requires m >= 2 ==> u != n && s[u] == k0
    requires m >= 3 ==> u + 1 != n && s[u + 1] == k0
    requires u + m == n + 1 || s[u + m - 1] != k0
    ensures Readable(s, n) && Reading(s, n, u + m, s[u + m - 1])
    ensures Rest(s, n, u, 0, 0) == Rest(s, n, u + m, k0, m) && (EndsWell(s, n, u - 1) <==> EndsWell(s, n, u + m - 1))
  {
    NewRun(s, n, u, m, u + m);
  }

  lemma LongRun(s: seq<int>, n: nat, u: nat, k0: int)
    requires Reading(s, n, u, k0) && u + 2 < n && s[u] == k0 && s[u + 1] == k0 && s[u + 2] == k0
    ensures Readable(s, n) && Reading(s, n, u + 5, s[u + 4]) && 0 <= s[u + 3]
    ensures Rest(s, n, u, 0, 0) == Rest(s, n, u + 5, k0, s[u + 3] + 4)
    ensures (EndsWell(s, n, u - 1) <==> EndsWell(s, n, u + 4))
  {
    NewRun(s, n, u, s[u + 3] + 4, u + 5);
  }

  lemma NoRun(s: seq<int>, n: nat, used: nat, ch: int, c2: int)
    requires Readable(s, n) && 1 <= used
    ensures Rest(s, n, used, ch, 0) == Rest(s, n, used, c2, 0) == Expand(s, n, used - 1)
    ensures used >= n + 1 ==> Rest(s, n, used, ch, 0) == []
    ensures used >= n + 1 ==> (EndsWell(s, n, used - 1) <==> used == n + 1)
  {
    assert Times(ch, 0) == [] == Times(c2, 0);
    assert [] + Expand(s, n, used - 1) == Expand(s, n, used - 1);
  }

  /** As long as a block that ends well is not done, there is something left. */
  lemma SomethingLeft(s: seq<int>, n: nat, used: nat, k0: int, ch: int, len: nat)
    requires Reading(s, n, used, k0) && (used != n + 1 || len > 0)
    ensures Readable(s, n) && (EndsWell(s, n, used - 1) || used <= n || len > 0 ==> Rest(s, n, used, ch, len) != [])
  {
    if len > 0 {
      EmitOne(s, n, used, ch, len);
    } else {
      NoRun(s, n, used, ch, ch);
      if used <= n { assert |Times(s[used - 1], RunLength(s, n, used - 1))| >= 1; }
    }
  }

  lemma Append(out: seq<int>, ch: int, r: seq<int>)
    ensures out + ([ch] + r) == (out + [ch]) + r
  {
  }

  /** What a call puts out: a first part of what was left, as much as fits, and its checksum. */
  ghost predicate Delivered(before: seq<int>, out: seq<int>, after: seq<int>, avail: nat, step: (Crc, int) -> Crc,
                            crc0: Crc, crc: Crc) {
    before == out + after && |out| <= avail && crc == Fold(step, crc0, out)
  }

  lemma DeliveredSize(before: seq<int>, out: seq<int>, after: seq<int>, avail: nat, step: (Crc, int) -> Crc,
                      crc0: Crc, crc: Crc)
    requires Delivered(before, out, after, avail, step, crc0, crc)
    ensures |before| == |out| + |after| && |out| <= avail
  {
  }

  lemma DeliveredNone(before: seq<int>, avail: nat, step: (Crc, int) -> Crc, crc: Crc)
    ensures Delivered(before, [], before, avail, step, crc, crc)
  {
    assert [] + before == before;
  }

  lemma DeliveredOne(before: seq<int>, out: seq<int>, ch: int, after: seq<int>, avail: nat, step: (Crc, int) -> Crc,
                     crc0: Crc, crc: Crc)
    requires Delivered(before, out, [ch] + after, avail, step, crc0, crc) && |out| < avail
    ensures Delivered(before, out + [ch], after, avail, step, crc0, step(crc, ch))
  {
    Append(out, ch, after);
    FoldGrows(step, crc0, out, ch);
  }

  /* ---- The small decoder ---- */

  /** Along the walk from row o the table holds the links q. */
  ghost predicate Along(t: PackedLinks, q: seq<int>, o: nat)
    reads t, t.ll16, t.ll4
  {
    && t.Valid() && o < |q| <= t.ll16.Length && (forall k :: 0 <= k < |q| ==> 0 <= q[k] < |q|)
    && forall j: nat :: t.Get(Row(q, o, j)) == q[Row(q, o, j)]
  }

  lemma LinkAlong(t: PackedLinks, q: seq<int>, o: nat, j: nat)
    requires Along(t, q, o)
    ensures t.Valid() && o < |q| <= t.ll16.Length && (forall k :: 0 <= k < |q| ==> 0 <= q[k] < |q|)
    ensures t.Get(Row(q, o, j)) == q[Row(q, o, j)] == Row(q, o, j + 1)
  {
  }

  /** The output stage on the packed 20-bit table. */
  class SmallOutput {
    const t: PackedLinks
    const cftab: array<int>
    const nblock: nat
    const limit: nat
    const step: (Crc, int) -> Crc
    ghost const l: seq<int>
    ghost const q: seq<int>
    ghost const o: nat
    ghost const s: seq<int>
    var tPos: nat
    var k0: int
    var used: nat
    var outCh: int
    var outLen: nat
    var crc: Crc

    ghost predicate Tables()
      reads `tPos, `used, t, t.ll16, t.ll4, cftab
    {
      && Along(t, q, o) && nblock == |l| <= limit && Within(l, 256) && Links(l, q) && o < |l|
      && Starts(l, 256, cftab[..]) && s == Chars(l, q, o, nblock + 5) && tPos == Row(q, o, used)
    }

    ghost predicate Valid()
      reads `tPos, `used, `k0, t, t.ll16, t.ll4, cftab
    {
      Tables() && Reading(s, nblock, used, k0)
    }

    /** The bytes still to come. */
    ghost function Left(): seq<int>
      reads `tPos, `used, `k0, `outCh, `outLen, t, t.ll16, t.ll4, cftab
      requires Valid()
    {
      Rest(s, nblock, used, outCh, outLen)
    }

    /** The last run ends with the block. */
    ghost predicate Sound()
      reads `tPos, `used, `k0, t, t.ll16, t.ll4, cftab
      requires Valid()
    {
      EndsWell(s, nblock, used - 1)
    }

    constructor (t: PackedLinks, cftab: array<int>, nblock: nat, limit: nat, step: (Crc, int) -> Crc,
                 ghost l: seq<int>, ghost q: seq<int>, origPtr: nat)
      requires Along(t, q, origPtr) && nblock == |l| <= limit && Within(l, 256) && Links(l, q) && origPtr < |l|
      requires Starts(l, 256, cftab[..])
      ensures Tables() && used == 0 && outLen == 0 && this.step == step && crc == INITIAL && this.t == t
      ensures this.cftab == cftab
      ensures this.l == l && this.q == q && this.o == origPtr && this.nblock == nblock
      ensures s == Chars(l, q, origPtr, nblock + 5)
    {
      hide Rank, Along, Starts, CountLess, Within;
      this.t, this.cftab, this.nblock, this.limit, this.step := t, cftab, nblock, limit, step;
      this.l, this.q, this.o, this.s := l, q, origPtr, Chars(l, q, origPtr, nblock + 5);
      tPos, k0, used, outCh, outLen, crc := origPtr, 0, 0, 0, 0, INITIAL;
    }

    /** The start of a block's output: the first character is read. */
    method Begin()
      requires Tables() && used == 0 && outLen == 0
      modifies this
      ensures Valid() && crc == old(crc) && Left() == Expand(s, nblock, 0) && (Sound() <==> EndsWell(s, nblock, 0))
    {
      hide Rank, Expand, EndsWell, Rest, SmallOutput.Tables, Reading, Readable;
      TablesReadable(this);
      var corrupt, ch := Get();
      k0 := ch;
      ReadingIntro(s, nblock, ch);
      NoRun(s, nblock, 1, outCh, 0);
    }

    /** BZ_GET_SMALL and nblock_used++; the bound check never fails. */
    method Get() returns (corrupt: bool, ch: int)
      requires Tables() && used < nblock + 5
      modifies `tPos, `used
      ensures Tables() && !corrupt && used == old(used) + 1 && ch == s[old(used)]
    {
      hide Rank, CountLess, CountEq, Along, Row;
      ch := 0;
      LinkAlong(t, q, o, used);
      if tPos >= limit { return true, ch; }
      StartsAt(l, cftab[..], tPos);
      var nb := IndexIntoF(tPos, cftab);
      SearchFindsCharacter(l, q, cftab[..], tPos, nb);
      ch := nb;
      LinkAlong(t, q, o, used);
      tPos := t.Get(tPos);
      used := used + 1;
      corrupt := false;
    }

    /** Reads one run, to the character after it. */
    method StartRun() returns (corrupt: bool)
      requires Valid() && outLen == 0 && used <= nblock
      modifies this
      ensures Valid() && !corrupt && Left() == old(Left()) && Sound() == old(Sound()) && outLen > 0 && crc == old(crc)
      ensures used > old(used)
    {
      hide Rank, Rest, Expand, EndsWell, SmallOutput.Tables, Reading, Readable;
      SizeOf(this);
      ghost var u, c := used, k0;
      var k1;
      ReadingReadable(s, nblock, used, k0);
      NoRun(s, nblock, used, outCh, 0);
      outLen := 1;
      outCh := k0;
      corrupt, k1 := Get();
      if corrupt { return; }
      if used == nblock + 1 || k1 != k0 {
        ShortRun(s, nblock, u, c, 1);
        k0 := k1;
        return;
      }
      outLen := 2;
      corrupt, k1 := Get();
      if corrupt { return; }
      if used == nblock + 1 || k1 != k0 {
        ShortRun(s, nblock, u, c, 2);
        k0 := k1;
        return;
      }
      outLen := 3;
      corrupt, k1 := Get();
      if corrupt { return; }
      if used == nblock + 1 || k1 != k0 {
        ShortRun(s, nblock, u, c, 3);
        k0 := k1;
        return;
      }
      LongRun(s, nblock, u, c);
      corrupt := ReadCount();
    }

    /** The count behind four equal bytes, and the byte after it. */
    method ReadCount() returns (corrupt: bool)
      requires Tables() && used + 2 <= nblock + 5 && |s| == nblock + 5 && 0 <= s[used]
      modifies `tPos, `used, `k0, `outLen
      ensures Tables() && !corrupt && used == old(used) + 2 && outLen == s[old(used)] + 4 && k0 == s[old(used) + 1]
    {
      hide SmallOutput.Tables;
      var k1;
      corrupt, k1 := Get();
      if corrupt { return; }
      outLen := k1 + 4;
      corrupt, k1 := Get();
      if corrupt { return; }
      k0 := k1;
    }

    /** unRLE_obuf_to_output_SMALL: puts out as many of the bytes left as there is room for. */
    method UnRle(avail: nat) returns (corrupt: bool, out: seq<int>)
      requires Valid()
      modifies this
      ensures Valid() && Sound() == old(Sound()) && (corrupt <==> !Sound() && |old(Left())| < avail)
      ensures |out| <= avail
      ensures Delivered(old(Left()), out, Left(), avail, step, old(crc), crc)
      ensures |out| == avail || Left() == []
      ensures !corrupt ==> |out| == avail || (outLen == 0 && used == nblock + 1)
    {
      hide Rank, Rest, Expand, EndsWell, SmallOutput.Tables, Delivered, Fold;
      ghost var before, crc0 := Left(), crc;
      out := [];
      DeliveredNone(before, avail, step, crc);
      var room := avail;
      while true
        invariant Valid() && Sound() == old(Sound()) && |out| + room == avail
        invariant Delivered(before, out, Left(), avail, step, crc0, crc)
        decreases nblock + 6 - used, outLen
      {
        ReadingReadable(s, nblock, used, k0);
        if room == 0 {
          DeliveredSize(before, out, Left(), avail, step, crc0, crc);
          return false, out;
        }
        if outLen > 0 {
          EmitOne(s, nblock, used, outCh, outLen);
          DeliveredOne(before, out, outCh, Rest(s, nblock, used, outCh, outLen - 1), avail, step, crc0, crc);
          out := out + [outCh];
          crc := step(crc, outCh);
          outLen := outLen - 1;
          room := room - 1;
        } else {
          NoRun(s, nblock, used, outCh, 0);
          if used == nblock + 1 { return false, out; }
          if used > nblock + 1 {
            DeliveredSize(before, out, Left(), avail, step, crc0, crc);
            return true, out;
          }
          corrupt := StartRun();
          if corrupt { return; }
        }
      }
    }
  }

  lemma SizeOf(d: SmallOutput)
    requires d.Tables()
    ensures |d.s| == d.nblock + 5
  {
    hide Links, Along, Starts, Rank;
  }

  /* ---- The fast decoder ---- */

  /** The output stage on the 32-bit table. */
  class FastOutput {
    const tt: array<int>
    const nblock: nat
    const limit: nat
    const step: (Crc, int) -> Crc
    ghost const l: seq<int>
    ghost const q: seq<int>
    ghost const o: nat
    ghost const s: seq<int>
    var tPos: nat
    var k0: int
    var used: nat
    var outCh: int
    var outLen: nat
    var crc: Crc

    /** The table, whose links are one step ahead of the characters read. */
    ghost predicate Table()
      reads tt
    {
      && nblock == |l| <= tt.Length && nblock <= limit && Within(l, 256) && Links(l, q) && o < |l|
      && (forall k :: 0 <= k < nblock ==> tt[k] == Word(l[k], q[k])) && s == Chars(l, q, o, nblock + 5)
    }

    ghost predicate At(pos: nat, u: nat)
      reads tt
    {
      Table() && pos == Row(q, o, u + 1)
    }

    ghost predicate Valid()
      reads this, tt
    {
      At(tPos, used) && Reading(s, nblock, used, k0)
    }

    ghost function Left(): seq<int>
      reads this, tt
      requires Valid()
    {
      Rest(s, nblock, used, outCh, outLen)
    }

    ghost predicate Sound()
      reads this, tt
      requires Valid()
    {
      EndsWell(s, nblock, used - 1)
    }

    constructor (tt: array<int>, nblock: nat, limit: nat, step: (Crc, int) -> Crc, ghost l: seq<int>,
                 ghost q: seq<int>, origPtr: nat)
      requires nblock == |l| <= tt.Length && nblock <= limit && Within(l, 256) && Links(l, q) && origPtr < |l|
      requires forall k :: 0 <= k < nblock ==> tt[k] == Word(l[k], q[k])
      ensures At(tPos, 0) && used == 0 && outLen == 0 && this.step == step && crc == INITIAL && this.tt == tt
      ensures this.l == l && this.q == q && this.o == origPtr && this.nblock == nblock
      ensures s == Chars(l, q, origPtr, nblock + 5)
    {
      hide Rank, Within;
      ByteLink(l, q, origPtr);
      this.tt, this.nblock, this.limit, this.step := tt, nblock, limit, step;
      this.l, this.q, this.o, this.s := l, q, origPtr, Chars(l, q, origPtr, nblock + 5);
      tPos, k0, used, outCh, outLen, crc := tt[origPtr] / 256, 0, 0, 0, 0, INITIAL;
      new;
      assert Row(q, origPtr, 0) == origPtr;
    }

    /** The start of a block's output: the first character is read. */
    method Begin()
      requires At(tPos, used) && used == 0 && outLen == 0
      modifies this
      ensures Valid() && crc == old(crc) && Left() == Expand(s, nblock, 0) && (Sound() <==> EndsWell(s, nblock, 0))
    {
      hide Rank, Expand, EndsWell, Rest, FastOutput.At, Reading, Readable;
      FastReadable(this, tPos, 0);
      var corrupt, ch;
      corrupt, ch, tPos := Get(tPos, 0);
      used := 1;
      k0 := ch;
      ReadingIntro(s, nblock, ch);
      NoRun(s, nblock, 1, outCh, 0);
    }

    /** BZ_GET_FAST_C; the bound check never fails. */
    method Get(pos: nat, ghost u: nat) returns (corrupt: bool, ch: int, pos': nat)
      requires At(pos, u) && u < nblock + 5
      ensures At(pos', u + 1) && !corrupt && ch == s[u]
    {
      hide Rank, Row, Within;
      ch, pos' := 0, pos;
      if pos >= limit { return true, ch, pos'; }
      ByteLink(l, q, pos);
      RowNext(q, o, u + 1);
      var w := tt[pos];
      ch := w % 256;
      pos' := w / 256;
      corrupt := false;
    }

    /** Reads one run, to the character after it. short tells that its length is 1 and that the C code
        jumps straight to putting out that one byte. */
    method ReadRun(kIn: int, uIn: nat, posIn: nat)
      returns (corrupt: bool, len: nat, short: bool, k: int, u: nat, pos: nat)
      requires At(posIn, uIn) && Reading(s, nblock, uIn, kIn) && uIn <= nblock
      ensures At(pos, u) && Reading(s, nblock, u, k) && !corrupt && u > uIn && len > 0 && (short ==> len == 1)
      ensures Readable(s, nblock) && Rest(s, nblock, uIn, 0, 0) == Rest(s, nblock, u, kIn, len)
      ensures uIn >= 1 && u >= 1 && (EndsWell(s, nblock, uIn - 1) <==> EndsWell(s, nblock, u - 1))
    {
      hide Rest, Expand, EndsWell, FastOutput.At, Reading, Readable;
      ReadingReadable(s, nblock, uIn, kIn);
      var k1;
      corrupt, k1, pos := Get(posIn, uIn);
      if corrupt { return; }
      u := uIn + 1;
      if k1 != kIn {
        ShortRun(s, nblock, uIn, kIn, 1);
        return false, 1, true, k1, u, pos;
      }
      if u == nblock + 1 {
        ShortRun(s, nblock, uIn, kIn, 1);
        return false, 1, true, k1, u, pos;
      }
      corrupt, k1, pos := Get(pos, u);
      if corrupt { return; }
      u := u + 1;
      if u == nblock + 1 || k1 != kIn {
        ShortRun(s, nblock, uIn, kIn, 2);
        return false, 2, false, k1, u, pos;
      }
      corrupt, k1, pos := Get(pos, u);
      if corrupt { return; }
      u := u + 1;
      if u == nblock + 1 || k1 != kIn {
        ShortRun(s, nblock, uIn, kIn, 3);
        return false, 3, false, k1, u, pos;
      }
      LongRun(s, nblock, uIn, kIn);
      corrupt, k1, pos := Get(pos, u);
      if corrupt { return; }
      len := k1 + 4;
      corrupt, k, pos := Get(pos, u + 1);
      if corrupt { return; }
      u := u + 2;
      short := false;
    }

    /** Puts out bytes of the current run while there is room, down to the last one. */
    method PourRun(ch: int, lenIn: nat, roomIn: nat, outIn: seq<int>, crcIn: Crc,
                   ghost before: seq<int>, ghost u: nat, ghost avail: nat, ghost crc0: Crc)
      returns (len: nat, room: nat, out: seq<int>, crc: Crc)
      requires lenIn > 0 && |outIn| + roomIn == avail && Readable(s, nblock) && 1 <= u
      requires Delivered(before, outIn, Rest(s, nblock, u, ch, lenIn), avail, step, crc0, crcIn)
      ensures 0 < len && |out| + room == avail && (room == 0 || len == 1)
      ensures Delivered(before, out, Rest(s, nblock, u, ch, len), avail, step, crc0, crc)
    {
      hide Rest, Delivered, Readable;
      len, room, out, crc := lenIn, roomIn, outIn, crcIn;
      while true
        invariant 0 < len && |out| + room == avail
        invariant Delivered(before, out, Rest(s, nblock, u, ch, len), avail, step, crc0, crc)
        decreases len
      {
        if room == 0 { return; }
        if len == 1 { break; }
        EmitOne(s, nblock, u, ch, len);
        DeliveredOne(before, out, ch, Rest(s, nblock, u, ch, len - 1), avail, step, crc0, crc);
        out := out + [ch];
        crc := step(crc, ch);
        len := len - 1;
        room := room - 1;
      }
    }

    /** unRLE_obuf_to_output_FAST: puts out as many of the bytes left as there is room for. It may
        have read a run ahead of the simple form, but what is left is the same. */
    method UnRle(avail: nat) returns (corrupt: bool, out: seq<int>)
      requires Valid()
      modifies this
      ensures Valid() && Sound() == old(Sound()) && (corrupt <==> !Sound() && |old(Left())| <= avail)
      ensures |out| <= avail
      ensures corrupt ==> out == [] && unchanged(this)
      ensures !corrupt ==> Delivered(old(Left()), out, Left(), avail, step, old(crc), crc)
      ensures !corrupt ==> |out| == avail || (outLen == 0 && used == nblock + 1 && Left() == [])
    {
      hide Rank, Rest, Expand, EndsWell, FastOutput.At, Delivered, Fold, Reading, Readable;
      ghost var before, crc0 := Left(), crc;
      var cCrc, cCh, cLen, cUsed, cK0, cPos := crc, outCh, outLen, used, k0, tPos;
      var room := avail;
      var short := false;
      out := [];
      ReadingReadable(s, nblock, used, k0);
      DeliveredNone(before, avail, step, crc);
      while true
        invariant At(cPos, cUsed) && Reading(s, nblock, cUsed, cK0) && Readable(s, nblock) && 1 <= cUsed
        invariant EndsWell(s, nblock, cUsed - 1) == old(Sound()) && (short ==> cLen == 1) && |out| + room == avail
        invariant Delivered(before, out, Rest(s, nblock, cUsed, cCh, cLen), avail, step, crc0, cCrc)
        invariant unchanged(this)
        decreases nblock + 6 - cUsed
      {
        if cLen > 0 {
          if !short {
            cLen, room, out, cCrc := PourRun(cCh, cLen, room, out, cCrc, before, cUsed, avail, crc0);
          }
          if room == 0 {
            SomethingLeft(s, nblock, cUsed, cK0, cCh, cLen);
            DeliveredSize(before, out, Rest(s, nblock, cUsed, cCh, cLen), avail, step, crc0, cCrc);
            crc, outCh, outLen, used, k0, tPos := cCrc, cCh, cLen, cUsed, cK0, cPos;
            return false, out;
          }
          EmitOne(s, nblock, cUsed, cCh, cLen);
          DeliveredOne(before, out, cCh, Rest(s, nblock, cUsed, cCh, 0), avail, step, crc0, cCrc);
          out := out + [cCh];
          cCrc := step(cCrc, cCh);
          room := room - 1;
          cLen := 0;  // the C code leaves the counter as it is and does not look at it again
        }
        NoRun(s, nblock, cUsed, cCh, 0);
        if cUsed > nblock + 1 {
          // next_out has not been saved: the bytes of this call are lost
          DeliveredSize(before, out, Rest(s, nblock, cUsed, cCh, 0), avail, step, crc0, cCrc);
          return true, [];
        }
        if cUsed == nblock + 1 {
          crc, outCh, outLen, used, k0, tPos := cCrc, cCh, 0, cUsed, cK0, cPos;
          return false, out;
        }
        ReadingReadable(s, nblock, cUsed, cK0);
        cCh := cK0;
        corrupt, cLen, short, cK0, cUsed, cPos := ReadRun(cK0, cUsed, cPos);
        if corrupt { return; }
        ReadingReadable(s, nblock, cUsed, cK0);
      }
    }
  }

  lemma FastReadable(d: FastOutput, pos: nat, u: nat)
    requires d.At(pos, u)
    ensures Readable(d.s, d.nblock)
  {
    CharsReadable(d.l, d.q, d.o);
  }

  /** A word of the table at row k. */
  lemma ByteLink(l: seq<int>, q: seq<int>, k: nat)
    requires Within(l, 256) && Links(l, q) && k < |l|
    ensures 0 <= l[k] < 256 && 0 <= q[k] < |l| && Word(l[k], q[k]) % 256 == l[k] && Word(l[k], q[k]) / 256 == q[k]
  {
    WordParts(l[k], q[k]);
  }

  lemma RowNext(q: seq<int>, o: nat, j: nat)
    requires o < |q| && forall k :: 0 <= k < |q| ==> 0 <= q[k] < |q|
    ensures Row(q, o, j + 1) == q[Row(q, o, j)]
  {
  }

  lemma TablesReadable(d: SmallOutput)
    requires d.Tables()
    ensures Readable(d.s, d.nblock)
  {
    CharsReadable(d.l, d.q, d.o);
  }

  lemma ReadingIntro(s: seq<int>, n: nat, k0: int)
    requires Readable(s, n) && (n + 5 <= |s| ==> k0 == s[0])
    ensures Reading(s, n, 1, k0)
  {
  }

  lemma ReadingReadable(s: seq<int>, n: nat, used: nat, k0: int)
    requires Reading(s, n, used, k0)
    ensures Readable(s, n) && 1 <= used <= n + 5 && (used <= n ==> k0 == s[used - 1])
  {
  }

  lemma StartsAt(l: seq<int>, cf: seq<int>, k: nat)
    requires Within(l, 256) && Starts(l, 256, cf) && k < |l|
    ensures |cf| == 257 && cf[0] <= k < cf[256]
  {
    CountAll(l, 256, |l|, 0);
    CountAll(l, 256, |l|, 256);
  }

  /* ---- Both decoders put out the same ---- */

  /** With the same left and the same room, there is only one way to deliver. */
  lemma DeliveredUnique(before: seq<int>, out1: seq<int>, after1: seq<int>, out2: seq<int>, after2: seq<int>,
                        avail: nat, step: (Crc, int) -> Crc, crc0: Crc, crc1: Crc, crc2: Crc)
    requires Delivered(before, out1, after1, avail, step, crc0, crc1) && (|out1| == avail || after1 == [])
    requires Delivered(before, out2, after2, avail, step, crc0, crc2) && (|out2| == avail || after2 == [])
    ensures out1 == out2 && after1 == after2 && crc1 == crc2
  {
    assert |before| == |out1| + |after1| == |out2| + |after2|;
    assert out1 == before[..|out1|] && out2 == before[..|out2|];
    assert after1 == before[|out1|..] && after2 == before[|out2|..];
  }

  function Sum(sizes: seq<nat>): nat {
    if |sizes| == 0 then 0 else Sum(sizes[..|sizes| - 1]) + sizes[|sizes| - 1]
  }

  lemma SumStep(sizes: seq<nat>, i: nat)
    requires i < |sizes|
    ensures Sum(sizes[..i + 1]) == Sum(sizes[..i]) + sizes[i]
  {
    assert sizes[..i + 1][..i] == sizes[..i];
  }

  lemma {:induction false} SumAtLeast(sizes: seq<nat>, i: nat)
    requires i <= |sizes|
    ensures Sum(sizes[..i]) <= Sum(sizes)
    decreases |sizes| - i
  {
    if i < |sizes| {
      SumAtLeast(sizes, i + 1);
      SumStep(sizes, i);
    } else {
      assert sizes[..i] == sizes;
    }
  }

  /** The two forms, called with the same output sizes until one of them reports corrupt data. They put
      out the same bytes and report the same, although they stop at different points of the block, exactly
      as long as the block's last run ends with the block or there is less room than there are bytes: on
      reaching the end of a block that stops in the middle of a run, the fast form loses the bytes of that
      call, and the small one has put them out. */
  method RunBoth(fast: FastOutput, small: SmallOutput, sizes: seq<nat>)
    returns (outs1: seq<seq<int>>, bad1: bool, outs2: seq<seq<int>>, bad2: bool)
    requires fast.Valid() && small.Valid() && fast.step == small.step && fast.crc == small.crc
    requires fast.Left() == small.Left() != [] && fast.Sound() == small.Sound()
    modifies fast, small
    ensures (outs1 == outs2 && bad1 == bad2) <==> (old(fast.Sound()) || Sum(sizes) < |old(fast.Left())|)
    ensures outs1 == outs2 && bad1 == bad2 ==> !bad1 && |outs1| == |sizes|
    ensures outs1 == outs2 && bad1 == bad2 ==>
              fast.Valid() && small.Valid() && fast.Left() == small.Left() && fast.crc == small.crc
  {
    hide FastOutput.At, SmallOutput.Tables, Reading, Rest, EndsWell, Delivered, Sum;
    outs1, bad1, outs2, bad2 := [], false, [], false;
    ghost var all, sound := |fast.Left()|, fast.Sound();
    NoSizes(sizes);
    for i := 0 to |sizes|
      invariant fast.Valid() && small.Valid() && fast.Sound() == small.Sound() == sound && !bad1 && !bad2
      invariant fast.Left() == small.Left() && fast.crc == small.crc
      invariant outs1 == outs2 && |outs1| == i
      invariant sound || (|fast.Left()| + Sum(sizes[..i]) == all && Sum(sizes[..i]) < all)
    {
      ghost var before, crc0 := fast.Left(), fast.crc;
      var out1, out2;
      bad1, out1 := fast.UnRle(sizes[i]);
      bad2, out2 := small.UnRle(sizes[i]);
      outs1, outs2 := outs1 + [out1], outs2 + [out2];
      SumStep(sizes, i);
      DeliveredSize(before, out2, small.Left(), sizes[i], fast.step, crc0, small.crc);
      if bad1 || bad2 {
        SumAtLeast(sizes, i + 1);
        assert out1 != out2;
        assert outs1[i] != outs2[i];
        return;
      }
      DeliveredUnique(before, out1, fast.Left(), out2, small.Left(), sizes[i], fast.step, crc0, fast.crc, small.crc);
    }
    assert sizes[..|sizes|] == sizes;
  }

  lemma NoSizes(sizes: seq<nat>)
    ensures Sum(sizes[..0]) == 0
  {
  }
}
