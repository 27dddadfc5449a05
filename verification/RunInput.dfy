/** The compressor's front end: bytes are gathered into runs, and runs are written to the block. */
module RunInput {
  import opened Checksums
  import opened MtfEncoder
  import opened Rle

  const NO_CHAR := 256

  /** The run being gathered. */
  function PendingBytes(ch: int, len: nat): seq<int> {
    if ch < NO_CHAR then Times(ch, len) else []
  }

  /** The character and length of a run being gathered. */
  ghost predicate PendingRange(ch: int, len: nat) {
    (0 <= ch < NO_CHAR && 1 <= len <= 255) || (ch == NO_CHAR && len == 0)
  }

  /** The pending run may follow the runs before it. */
  ghost predicate MayFollow(rs: seq<Run>, ch: int) {
    rs != [] ==> rs[|rs| - 1].0 != ch || rs[|rs| - 1].1 == 255
  }

  /** inUse marks the bytes of the block, and no others. */
  ghost predicate UsedExactly(inUse: seq<bool>, b: seq<int>) {
    && |inUse| == 256 && (forall i :: 0 <= i < |b| ==> 0 <= b[i] < 256)
    && forall c :: 0 <= c < 256 ==> (inUse[c] <==> c in b)
  }

  lemma UsedStep(u: seq<bool>, b: seq<int>, c: int)
    requires UsedExactly(u, b) && 0 <= c < 256
    ensures UsedExactly(u[c := true], b + [c])
  {
    var v := u[c := true];
    forall d | 0 <= d < 256 ensures v[d] <==> d in b + [c] {
      if d == c { assert (b + [c])[|b|] == c; }
    }
  }

  lemma {:induction false} UsedRepeated(u: seq<bool>, b: seq<int>, c: int, n: nat)
    requires UsedExactly(u, b) && 0 <= c < 256 && n > 0
    ensures UsedExactly(u[c := true], b + Times(c, n))
  {
    hide UsedExactly;
    if n == 1 {
      UsedStep(u, b, c);
      assert Times(c, 1) == [c];
    } else {
      UsedRepeated(u, b, c, n - 1);
      UsedParts(u, b);
      UsedStep(u[c := true], b + Times(c, n - 1), c);
      assert (b + Times(c, n - 1)) + [c] == b + Times(c, n);
      assert u[c := true][c := true] == u[c := true];
    }
  }

  lemma UsedParts(u: seq<bool>, b: seq<int>)
    requires UsedExactly(u, b)
    ensures |u| == 256
  {
  }

  lemma UsedRun(u: seq<bool>, b: seq<int>, r: Run)
    requires UsedExactly(u, b) && 0 <= r.0 < 256 && 1 <= r.1 <= 255
    ensures |u| == 256
    ensures UsedExactly(if r.1 < 4 then u[r.0 := true] else u[r.0 := true][r.1 - 4 := true], b + RunBytes(r))
  {
    UsedParts(u, b);
    hide UsedExactly;
    if r.1 < 4 {
      UsedRepeated(u, b, r.0, r.1);
    } else {
      UsedRepeated(u, b, r.0, 4);
      UsedStep(u[r.0 := true], b + Times(r.0, 4), r.1 - 4);
      assert (b + Times(r.0, 4)) + [r.1 - 4] == b + RunBytes(r);
    }
  }

  /** What the block holds. */
  ghost predicate Gathered(b: seq<int>, inUse: seq<bool>, crc: Crc, step: (Crc, int) -> Crc, rs: seq<Run>) {
    && b == Packed(rs, 0) && Runs(rs) && UsedExactly(inUse, b) && crc == Fold(step, INITIAL, Plain(rs, 0))
  }

  lemma GatheredNone(b: seq<int>, inUse: seq<bool>, step: (Crc, int) -> Crc)
    requires b == [] && |inUse| == 256 && forall c :: 0 <= c < 256 ==> !inUse[c]
    ensures Gathered(b, inUse, INITIAL, step, [])
  {
  }

  /** The checksum after n more equal bytes. */
  lemma {:induction false} FoldTimes(step: (Crc, int) -> Crc, crc: Crc, c: int, n: nat)
    ensures n == 0 ==> Fold(step, crc, Times(c, n)) == crc
    ensures Fold(step, crc, Times(c, n + 1)) == step(Fold(step, crc, Times(c, n)), c)
  {
    FoldGrows(step, crc, Times(c, n), c);
    assert Times(c, n) + [c] == Times(c, n + 1);
  }

  /** A run enters the block: its bytes, the marks and the checksum. */
  lemma GatheredRun(b: seq<int>, u: seq<bool>, crc: Crc, step: (Crc, int) -> Crc, rs: seq<Run>, r: Run, v: seq<bool>)
    requires Gathered(b, u, crc, step, rs) && Runs(rs + [r]) && 0 <= r.0 < 256 && 1 <= r.1 <= 255 && |u| == 256
    requires v == if r.1 < 4 then u[r.0 := true] else u[r.0 := true][r.1 - 4 := true]
    ensures Gathered(b + RunBytes(r), v, Fold(step, crc, Times(r.0, r.1)), step, rs + [r])
  {
    UsedRun(u, b, r);
    hide RunBytes, Times, UsedExactly, Fold;
    PackedGrows(rs, r, 0);
    FoldJoin(step, INITIAL, Plain(rs, 0), Times(r.0, r.1));
  }

  /** A run that may follow those before it goes on the sequence of runs. */
  lemma RunFollows(prior: seq<Run>, rs: seq<Run>, r: Run)
    requires Runs(prior + rs) && MayFollow(prior + rs, r.0) && 0 <= r.0 < 256 && 1 <= r.1 <= 255
    ensures Runs(prior + (rs + [r])) && Runs(rs + [r])
    ensures (prior + (rs + [r]))[|prior + (rs + [r])| - 1] == r
  {
    RunsGrow(prior + rs, r);
    assert (prior + rs) + [r] == prior + (rs + [r]);
    RunsPart(prior, rs + [r]);
  }

  /** The part of EState that gathers input. The checksum is kept for the bytes in the block only. */
  class RunCollector {
    const block: array<int>
    const inUse: array<bool>
    const step: (Crc, int) -> Crc
    var nblock: nat
    var blockCRC: Crc
    var stateInCh: int
    var stateInLen: nat
    ghost var runs: seq<Run>
    ghost var prior: seq<Run>

    /** The runs of the block, and those of earlier blocks back to the last flush. */
    ghost predicate Held()
      reads this, block, inUse
    {
      && nblock <= block.Length && inUse.Length == 256 && Runs(prior + runs)
      && Gathered(block[..nblock], inUse[..], blockCRC, step, runs)
    }

    ghost predicate Valid()
      reads this, block, inUse
    {
      && Held() && PendingRange(stateInCh, stateInLen) && MayFollow(prior + runs, stateInCh)
      && (IsEmptyRL() && runs == [] ==> prior == [])
    }

    /** isempty_RL */
    predicate IsEmptyRL()
      reads this
    {
      !(stateInCh < NO_CHAR && stateInLen > 0)
    }

    /** All bytes taken in since the block was begun. */
    ghost function Fed(): seq<int>
      reads this
    {
      Plain(runs, 0) + PendingBytes(stateInCh, stateInLen)
    }

    constructor (size: nat, step: (Crc, int) -> Crc)
      ensures Valid() && fresh(block) && fresh(inUse) && block.Length == size && this.step == step
      ensures nblock == 0 && runs == [] && prior == [] && IsEmptyRL() && stateInCh == NO_CHAR
    {
      block, inUse := new int[size], new bool[256](_ => false);
      this.step := step;
      nblock, blockCRC, stateInCh, stateInLen, runs, prior := 0, INITIAL, NO_CHAR, 0, [], [];
      new;
      GatheredNone(block[..0], inUse[..], step);
    }

    /** prepare_new_block: an empty block. The pending run stays. */
    method PrepareNewBlock()
      requires Valid()
      modifies `nblock, `blockCRC, `runs, `prior, inUse
      ensures Valid() && nblock == 0 && runs == []
      ensures prior == if IsEmptyRL() then [] else old(prior + runs)
    {
      nblock := 0;
      blockCRC := INITIAL;
      prior, runs := if IsEmptyRL() then [] else prior + runs, [];
      assert prior + runs == prior;
      for i := 0 to 256
        modifies inUse
        invariant forall c :: 0 <= c < i ==> !inUse[c]
      {
        inUse[i] := false;
      }
      GatheredNone(block[..0], inUse[..], step);
    }

    /** The bytes that stand for the pending run go into the block. */
    method PutRun(ch: int, len: nat)
      requires 0 <= ch < 256 && 1 <= len <= 255 && nblock + 5 <= block.Length
      modifies `nblock, block
      ensures nblock <= block.Length && nblock <= old(nblock) + 5
      ensures block[..nblock] == old(block[..nblock]) + RunBytes((ch, len))
    {
      ghost var b := block[..nblock];
      if len < 4 {
        for i := 0 to len
          invariant nblock == old(nblock) + i && nblock <= block.Length && block[..nblock] == b + Times(ch, i)
        {
          block[nblock] := ch;
          nblock := nblock + 1;
        }
      } else {
        block[nblock], block[nblock + 1], block[nblock + 2], block[nblock + 3] := ch, ch, ch, ch;
        block[nblock + 4] := len - 4;
        nblock := nblock + 5;
      }
    }

    /** add_pair_to_block */
    method AddPairToBlock()
      requires Valid() && stateInCh < NO_CHAR && nblock + 5 <= block.Length
      modifies `nblock, `blockCRC, `runs, block, inUse
      ensures Held() && runs == old(runs) + [(stateInCh, stateInLen)] && nblock <= old(nblock) + 5
    {
      hide Gathered, MayFollow, RunBytes, Fold, Runs;
      ghost var b, u, crc := block[..nblock], inUse[..], blockCRC;
      var ch := stateInCh;
      FoldTimes(step, crc, ch, 0);
      for i := 0 to stateInLen
        modifies `blockCRC
        invariant blockCRC == Fold(step, crc, Times(ch, i))
      {
        FoldTimes(step, crc, ch, i);
        blockCRC := step(blockCRC, ch);
      }
      inUse[ch] := true;
      if stateInLen >= 4 { inUse[stateInLen - 4] := true; }
      PutRun(ch, stateInLen);
      RunFollows(prior, runs, (ch, stateInLen));
      GatheredRun(b, u, crc, step, runs, (ch, stateInLen), inUse[..]);
      runs := runs + [(ch, stateInLen)];
      assert block[..nblock] == b + RunBytes((ch, stateInLen));
      assert Held();
    }

    /** The common case of ADD_CHAR_TO_BLOCK: a run of one byte ends. */
    method AddSingle()
      requires Valid() && stateInLen == 1 && nblock + 5 <= block.Length
      modifies `nblock, `blockCRC, `runs, block, inUse
      ensures Held() && runs == old(runs) + [(stateInCh, 1)] && nblock <= old(nblock) + 5
    {
      hide Gathered, MayFollow, Fold, Runs;
      ghost var b, u, crc := block[..nblock], inUse[..], blockCRC;
      var ch := stateInCh;
      FoldTimes(step, crc, ch, 0);
      blockCRC := step(blockCRC, ch);
      inUse[ch] := true;
      block[nblock] := ch;
      nblock := nblock + 1;
      assert RunBytes((ch, 1)) == [ch] && Times(ch, 1) == [ch];
      assert inUse[..] == u[ch := true];
      RunFollows(prior, runs, (ch, 1));
      GatheredRun(b, u, crc, step, runs, (ch, 1), inUse[..]);
      runs := runs + [(ch, 1)];
      assert block[..nblock] == b + [ch];
    }

    /** flush_RL: the pending run, if any, goes into the block. */
    method FlushRL()
      requires Valid() && nblock + 5 <= block.Length && (IsEmptyRL() ==> runs == [])
      modifies this, block, inUse
      ensures Valid() && stateInCh == NO_CHAR && Fed() == old(Fed()) && Plain(runs, 0) == Fed()
      ensures nblock <= old(nblock) + 5 && prior == old(prior)
      ensures runs == if old(IsEmptyRL()) then old(runs) else old(runs) + [(old(stateInCh), old(stateInLen))]
    {
      hide Gathered, Packed, Plain, Times, Runs;
      if stateInCh < NO_CHAR {
        PackedGrows(runs, (stateInCh, stateInLen), 0);
        AddPairToBlock();
      } else {
        assert Plain(runs, 0) + [] == Plain(runs, 0);
      }
      stateInCh := NO_CHAR;
      stateInLen := 0;
      assert Plain(runs, 0) + [] == Plain(runs, 0);
      HeldRuns();
    }

    /** What the block sorter and the rest of the back end are given. */
    lemma Gains()
      requires Held()
      ensures nblock <= block.Length && inUse.Length == 256 && block[..nblock] == Packed(runs, 0) && Runs(runs)
      ensures AllUsed(inUse[..], block[..nblock]) && OnlyUsed(inUse[..], block[..nblock])
      ensures blockCRC == Fold(step, INITIAL, Plain(runs, 0))
      ensures nblock > 0 <==> runs != []
    {
      RunsCodable(runs);
      PackedSize(runs, 0);
    }

    lemma RunsOrNot()
      requires Held()
      ensures nblock > 0 <==> runs != []
      ensures runs == [] ==> Plain(runs, 0) == []
    {
      RunsCodable(runs);
      PackedSize(runs, 0);
    }

    lemma HeldRuns()
      requires Held()
      ensures Runs(prior + runs) && MayFollow(prior + runs, NO_CHAR)
    {
    }

    lemma Size()
      requires Held()
      ensures nblock == |Packed(runs, 0)|
    {
    }

    /** The run put last. */
    lemma LastRun(r: Run)
      requires runs != [] && runs[|runs| - 1] == r
      ensures (prior + runs)[|prior + runs| - 1] == r
    {
    }

    /** ADD_CHAR_TO_BLOCK: one byte is taken in. */
    method AddCharToBlock(zchh: int)
      requires Valid() && 0 <= zchh < 256 && nblock + 5 <= block.Length && (IsEmptyRL() ==> runs == [])
      modifies this, block, inUse
      ensures Valid() && !IsEmptyRL() && Fed() == old(Fed()) + [zchh] && nblock <= old(nblock) + 5
      ensures runs == old(runs) || (runs == old(runs) + [(old(stateInCh), old(stateInLen))] && stateInLen == 1)
      ensures prior == old(prior)
    {
      hide Gathered, Packed, Plain, RunBytes, Fold, Runs;
      ghost var ch, len, p := stateInCh, stateInLen, Plain(runs, 0);
      if zchh != stateInCh && stateInLen == 1 {
        PackedGrows(runs, (stateInCh, 1), 0);
        AddSingle();
        LastRun((ch, 1));
        stateInCh := zchh;
        assert Times(zchh, 1) == [zchh];
        assert p + Times(ch, 1) + [zchh] == (p + Times(ch, 1)) + [zchh];
      } else if zchh != stateInCh || stateInLen == 255 {
        if stateInCh < NO_CHAR {
          PackedGrows(runs, (stateInCh, stateInLen), 0);
          AddPairToBlock();
          LastRun((ch, len));
        } else {
          assert p + [] == p;
        }
        stateInCh := zchh;
        stateInLen := 1;
        assert Times(zchh, 1) == [zchh];
      } else {
        stateInLen := stateInLen + 1;
        assert Times(ch, len) + [zchh] == Times(ch, len + 1);
        assert p + (Times(ch, len) + [zchh]) == (p + Times(ch, len)) + [zchh];
      }
    }
  }
}
