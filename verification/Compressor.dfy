/** The streaming compressor: modes, states, and what every call keeps. */
module Compressor {
  import opened BitIO
  import opened Bits
  import opened BlockCompressor
  import opened BlockFormat
  import opened Checksums
  import MainCompare
  import opened Rle
  import opened RunInput
  import opened StreamFormat

  datatype Mode = Idle | Running | Flushing | Finishing

  datatype Action = RunAction | FlushAction | FinishAction | OtherAction

  datatype Answer = RunOk | FlushOk | FinishOk | StreamEnd | SequenceError | ParamError

  /** What should have been written: the stream's header, the blocks, the trailer. */
  ghost function DueBits(step: (Crc, int) -> Crc, blockSize100k: nat, ds: seq<Sent>, headed: bool,
                         finished: bool): seq<bool>
    requires 1 <= blockSize100k <= 9 && AllSent(ds, blockSize100k)
  {
    (if headed then MagicBits(blockSize100k) else [])
    + (BlocksBits(step, ds, blockSize100k, 0) + (if finished then TrailerBits(Combined(step, ds, |ds|)) else []))
  }

  lemma DueNone(step: (Crc, int) -> Crc, blockSize100k: nat)
    requires 1 <= blockSize100k <= 9
    ensures AllSent([], blockSize100k) && DueBits(step, blockSize100k, [], false, false) == []
    ensures Combined(step, [], 0) == 0 && Chained([], blockSize100k) && Since([]) == []
  {
  }

  lemma DueHeader(step: (Crc, int) -> Crc, blockSize100k: nat)
    requires 1 <= blockSize100k <= 9
    ensures AllSent([], blockSize100k)
    ensures DueBits(step, blockSize100k, [], true, false) ==
            DueBits(step, blockSize100k, [], false, false) + MagicBits(blockSize100k)
  {
    hide MagicBits;
    var m := MagicBits(blockSize100k);
    assert BlocksBits(step, [], blockSize100k, 0) == [];
    assert m + ([] + []) == m == [] + m;
  }

  lemma DueBlock(step: (Crc, int) -> Crc, blockSize100k: nat, ds: seq<Sent>, d: Sent)
    requires 1 <= blockSize100k <= 9 && AllSent(ds, blockSize100k) && SentOk(d, blockSize100k)
    ensures AllSent(ds + [d], blockSize100k) && Sound(d.x)
    ensures DueBits(step, blockSize100k, ds + [d], true, false) ==
            DueBits(step, blockSize100k, ds, true, false) + SentBits(step, d)
    ensures Combined(step, ds + [d], |ds| + 1) == Combine(Combined(step, ds, |ds|), SentCrc(step, d))
    ensures Content(ds + [d], 0) == Content(ds, 0) + Plain(d.runs, 0)
  {
    AllSentGrows(ds, blockSize100k, d);
    BlocksGrow(step, ds, blockSize100k, d, 0);
    CombinedGrows(step, ds, d);
    ContentGrows(ds, d, 0);
    hide MagicBits, BlocksBits, SentBits, SentOk, AllSent, Combined, Content, SentCrc, Sound;
    var m, b, s := MagicBits(blockSize100k), BlocksBits(step, ds, blockSize100k, 0), SentBits(step, d);
    NoBits(b);
    NoBits(b + s);
    Join(m, b, s);
  }

  lemma DueTrailer(step: (Crc, int) -> Crc, blockSize100k: nat, ds: seq<Sent>)
    requires 1 <= blockSize100k <= 9 && AllSent(ds, blockSize100k)
    ensures DueBits(step, blockSize100k, ds, true, true) == StreamBits(step, blockSize100k, ds)
    ensures DueBits(step, blockSize100k, ds, true, true)
            == DueBits(step, blockSize100k, ds, true, false) + TrailerBits(Combined(step, ds, |ds|))
  {
    hide MagicBits, BlocksBits, AllSent, Combined, TrailerBits;
    var m, b, t := MagicBits(blockSize100k), BlocksBits(step, ds, blockSize100k,
      0), TrailerBits(Combined(step, ds, |ds|));
    NoBits(b);
    Join(m, b, t);
  }

  /** What has been written is what is due, and after the trailer a little padding. */
  ghost predicate Settles(written: seq<bool>, due: seq<bool>, finished: bool) {
    if finished then due <= written && |written| < |due| + 8 else written == due
  }

  /** A full block leaves room for the rest of the previous one, the stream's header and the trailer. */
  lemma RoomForAll(blockSize100k: nat, nblock: nat)
    requires 1 <= blockSize100k <= 9 && nblock + 10 <= BlockSize(blockSize100k)
    ensures 32 + 32 + (105 + Room(nblock + 1)) + 112 <= 8 * (3 * BlockSize(blockSize100k) + 146)
  {
    var n := BlockSize(blockSize100k);
    assert (nblock + 50) / 50 <= (nblock + 50);
    assert n >= 100000;
    assert 50 * ((nblock + 50) / 50) <= nblock + 50;
  }

  /** What a call has taken of its input: all but the rest, in order. */
  ghost predicate Consumed(input: seq<int>, rest: seq<int>, before: seq<int>, after: seq<int>) {
    |rest| <= |input| && rest == input[|input| - |rest|..] && after == before + input[..|input| - |rest|]
  }

  lemma ConsumedNone(input: seq<int>, before: seq<int>)
    ensures Consumed(input, input, before, before)
  {
    assert before + [] == before;
  }

  lemma ConsumedOne(input: seq<int>, rest: seq<int>, before: seq<int>, after: seq<int>)
    requires Consumed(input, rest, before, after) && rest != []
    ensures Consumed(input, rest[1..], before, after + [rest[0]])
    ensures |rest| <= |input|
  {
    var k := |input| - |rest|;
    assert input[..k + 1] == input[..k] + [rest[0]];
    assert (before + input[..k]) + [rest[0]] == before + input[..k + 1];
  }

  lemma ConsumedMore(input: seq<int>, mid: seq<int>, rest: seq<int>, s0: seq<int>, s1: seq<int>, s2: seq<int>)
    requires Consumed(input, mid, s0, s1) && Consumed(mid, rest, s1, s2)
    ensures Consumed(input, rest, s0, s2)
  {
    var j, k := |input| - |mid|, |mid| - |rest|;
    assert input[j + k..] == mid[k..];
    assert input[..j + k] == input[..j] + mid[..k];
    assert (s0 + input[..j]) + mid[..k] == s0 + input[..j + k];
  }

  lemma ConsumedAfter(c: seq<int>, input: seq<int>, rest: seq<int>, before: seq<int>, after: seq<int>)
    requires Consumed(input, rest, before, after)
    ensures Consumed(input, rest, c + before, c + after)
  {
    var k := |input| - |rest|;
    assert c + (before + input[..k]) == (c + before) + input[..k];
  }

  lemma ConsumedSize(input: seq<int>, rest: seq<int>, before: seq<int>, after: seq<int>)
    requires Consumed(input, rest, before, after)
    ensures |rest| <= |input| && |after| == |before| + (|input| - |rest|)
  {
  }

  lemma ConsumedBytes(input: seq<int>, rest: seq<int>, before: seq<int>, after: seq<int>)
    requires Consumed(input, rest, before, after) && Bytes(input)
    ensures Bytes(rest) && |rest| <= |input|
  {
  }

  /** One block more. */
  ghost predicate Appended(before: seq<Sent>, after: seq<Sent>, cut: bool, runs: seq<Run>) {
    && |after| == |before| + 1 && after[..|before|] == before
    && after[|before|].cut == cut && after[|before|].runs == runs
  }

  /** No block was closed by a flush or the end. */
  ghost predicate OpenEnded(ds: seq<Sent>) {
    forall k :: 0 <= k < |ds| ==> !ds[k].cut
  }

  class EState {
    const blockSize100k: nat
    const workFactor: int
    const ri: RunCollector
    const w: BitWriter
    var mode: Mode
    var outputting: bool
    var availInExpect: nat
    var combinedCRC: Crc
    var blockNo: nat
    var stateOutPos: nat
    ghost var done: seq<Sent>
    ghost var flushed: seq<int>
    ghost var finished: bool
    ghost var everFlushed: bool
    ghost var lastByRun: bool

    /** A block is full from here on. */
    function NblockMax(): int {
      FullAt(blockSize100k)
    }

    ghost predicate Shape() {
      && 1 <= blockSize100k <= 9 && ri.block.Length == BlockSize(blockSize100k) + MainCompare.OVERSHOOT
      && w.zbits.Length == 3 * BlockSize(blockSize100k) + 146 && w.zbits != ri.block
    }

    /** The bits written so far, in buffers given away and in the current one. */
    ghost function Output(): seq<bool>
      requires w.Valid() && Bytes(flushed)
      reads `flushed, w, w.zbits
    {
      ByteBits(flushed) + w.Written()
    }

    /** What has been written is right. */
    ghost predicate Books(headed: bool)
      reads `done, `flushed, `finished, `combinedCRC, w, w.zbits
    {
      && Shape() && w.Valid() && Bytes(flushed) && AllSent(done, blockSize100k) && Chained(done, blockSize100k)
      && combinedCRC == Combined(ri.step, done, |done|)
      && (!headed ==> done == [] && !finished) && (finished ==> w.bsLive == 0)
      && Settles(Output(), DueBits(ri.step, blockSize100k, done, headed, finished), finished)
    }

    /** The first block's header is written together with the block. */
    ghost predicate Headed()
      reads `blockNo, `outputting
    {
      blockNo > 1 || outputting
    }


    /** The stream's header. */
    method PutHeader()
      requires Books(false) && |w.Written()| + 32 <= 8 * w.zbits.Length
      modifies w, w.zbits
      ensures Books(true) && |w.Written()| <= |old(w.Written())| + 32
    {
      hide ByteBits, MagicBits, DueBits, AllSent, Combined, BitWriter.Valid, EState.Shape;
      BooksParts(false);
      ghost var s, f := w.Written(), ByteBits(flushed);
      DueHeader(ri.step, blockSize100k);
      HeaderBytes(blockSize100k);
      PutBytes(w, [0x42, 0x5a, 0x68, 0x30 + blockSize100k]);
      Join(f, s, MagicBits(blockSize100k));
    }

    /** The block, when there is one. */
    method PutBlock(crc: Crc)
      requires Books(true) && !finished && ri.Valid() && 0 < ri.nblock && ri.nblock + 10 <= BlockSize(blockSize100k)
      requires |w.Written()| + 105 + Room(ri.nblock + 1) <= 8 * w.zbits.Length
      requires crc == Complement(ri.blockCRC)
      requires ri.prior == Since(done) && Filled(ri.runs, ri.IsEmptyRL(), blockSize100k)
      modifies ri.block, w, w.zbits, `combinedCRC, `done
      ensures Books(true) && ri.Valid()
      ensures Since(done) == if ri.IsEmptyRL() then [] else ri.prior + ri.runs
      ensures Appended(old(done), done, ri.IsEmptyRL(), ri.runs)
      ensures |w.Written()| <= |old(w.Written())| + 105 + Room(ri.nblock + 1)
      ensures Content(done, 0) == Content(old(done), 0) + Plain(ri.runs, 0)
    {
      hide AllSent, Combined, DueBits, Gathered, Encodes, Sound, BlockBits, Room, ByteBits, Content, Plain, Packed,
        Fold, Combine, BitWriter.Valid, Runs, SentOk, Chained, Since, Filled;
      BooksParts(true);
      ghost var s, f := w.Written(), ByteBits(flushed);
      ri.Gains();
      combinedCRC := Combine(combinedCRC, crc);
      ghost var o, x;
      o, x := BlockCompressor.CompressBlock(w, ri.block, ri.inUse, ri.nblock, workFactor, crc);
      ghost var d := Sent(ri.runs, o, x, ri.IsEmptyRL());
      SentIntro(d, blockSize100k);
      ChainedGrows(done, blockSize100k, d);
      DueBlock(ri.step, blockSize100k, done, d);
      Join(f, s, SentBits(ri.step, d));
      done := done + [d];
    }

    /** The trailer, and zeros up to a whole byte. */
    method PutTrailer()
      requires Books(true) && !finished && |w.Written()| + 112 <= 8 * w.zbits.Length
      modifies w, w.zbits, `finished
      ensures Books(true) && finished && w.numZ > 0
    {
      hide AllSent, Combined, DueBits, StreamBits, TrailerBits, Bytes, ByteBits, BitsOf, BitWriter.Valid;
      BooksParts(true);
      TrailerBytes(combinedCRC);
      ghost var s, f := w.Written(), ByteBits(flushed);
      ghost var b := ByteBits(TRAILER);
      PutBytes(w, TRAILER);
      w.PutUInt32(combinedCRC);
      DueTrailer(ri.step, blockSize100k, done);
      Join(s, b, BitsOf(combinedCRC, 32));
      Join(f, s, TrailerBits(combinedCRC));
      ghost var t := w.Written();
      w.Finish();
      SettlesPadded(f, t, w.Written());
      finished := true;
    }

    /** BZ2_compressBlock: the header before the first block, the block, the trailer after the last. */
    method CompressBlock(last: bool)
      requires Books(blockNo > 1) && !finished && ri.Valid() && ri.nblock + 10 <= BlockSize(blockSize100k)
      requires w.numZ == 0 && 1 <= blockNo
      requires ri.prior == Since(done) && (ri.runs != [] ==> Filled(ri.runs, ri.IsEmptyRL(), blockSize100k))
      modifies ri.block, w, w.zbits, `combinedCRC, `done, `finished
      ensures Books(true) && finished == last && ri.Valid() && (last ==> w.numZ > 0)
      ensures Since(done) == if ri.IsEmptyRL() then [] else ri.prior + ri.runs
      ensures if ri.runs == [] then done == old(done) else Appended(old(done), done, ri.IsEmptyRL(), ri.runs)
      ensures Content(done, 0) == Content(old(done), 0) + Plain(ri.runs, 0)
    {
      hide AllSent, Gathered, Room, Content, Plain, Packed, BitWriter.Valid, EState.Books, RunCollector.Held,
        ByteBits, BitsOf, Combine, Since, Filled;
      BooksParts(blockNo > 1);
      RoomForAll(blockSize100k, ri.nblock);
      ri.RunsOrNot();
      if blockNo == 1 { PutHeader(); }
      if ri.nblock > 0 {
        var crc := Complement(ri.blockCRC);
        PutBlock(crc);
      } else {
        NoContent(Content(done, 0));
        assert ri.prior + ri.runs == ri.prior;
      }
      if last { PutTrailer(); }
    }

    /** Where the machine stands. A block in the buffer is put out before the next one is begun; the
        trailer is written when everything has been taken in, and nothing is begun after it. */
    ghost predicate Control()
      reads this, ri, w
    {
      && 1 <= blockNo && stateOutPos <= w.numZ
      && (!outputting ==>
            && w.numZ == 0 && stateOutPos == 0 && !finished && ri.nblock < NblockMax()
            && (ri.IsEmptyRL() ==> ri.runs == []))
      && (outputting && !finished && ri.IsEmptyRL() ==> mode == Flushing && availInExpect == 0)
      && (finished ==> outputting && ri.IsEmptyRL() && (mode == Finishing || mode == Idle) && availInExpect == 0)
      && (mode == Idle ==> finished)
    }

    /** The runs being gathered go on those of the blocks written since the last flush. */
    ghost predicate Linked()
      reads `done, `outputting, ri
    {
      Since(done) == if !outputting then ri.prior else if ri.IsEmptyRL() then [] else ri.prior + ri.runs
    }

    /** Without a flush only the end closes a block that is not full. */
    ghost predicate Unbroken()
      reads `done, `mode, `finished, `everFlushed
    {
      && (mode == Flushing ==> everFlushed)
      && (everFlushed || Whole(done)) && (!everFlushed && !finished ==> OpenEnded(done))
    }

    /** How the last block will end, or has ended: behind a full block there is always a pending run; and when no
        more input is expected the last byte was taken in by RUN, unless nothing has been written. */
    ghost predicate Ends()
      reads `done, `mode, `availInExpect, `finished, `everFlushed, `lastByRun, ri
    {
      everFlushed ||
      if finished then EndsBy(done, blockSize100k, lastByRun)
      else
        && (done != [] ==> !ri.IsEmptyRL())
        && (mode == Running || availInExpect == 0 ==> lastByRun || done == [])
    }

    ghost predicate Valid()
      reads this, ri, ri.block, ri.inUse, w, w.zbits
    {
      Books(Headed()) && ri.Valid() && Control() && Linked() && Unbroken() && Ends()
    }

    /** All bytes taken in so far: in blocks already written, in the block being filled, in the pending run. */
    ghost function Taken(): seq<int>
      reads `done, `outputting, ri
    {
      Content(done, 0) + (if outputting then PendingBytes(ri.stateInCh, ri.stateInLen) else ri.Fed())
    }

    /** All bytes put out so far. */
    ghost function Given(): seq<int>
      reads `flushed, `stateOutPos, w, w.zbits
      requires stateOutPos <= w.numZ <= w.zbits.Length
    {
      flushed + w.zbits[..stateOutPos]
    }

    /** copy_input_until_stop: takes in bytes until the block is full or the input is used up. */
    method CopyInput(input: seq<int>) returns (progress: bool, rest: seq<int>)
      requires Shape() && ri.Valid() && ri.nblock < NblockMax() && (ri.IsEmptyRL() ==> ri.runs == []) && Bytes(input)
      requires mode != Running ==> availInExpect == |input|
      modifies ri, ri.block, ri.inUse, `availInExpect
      ensures ri.Valid() && (ri.IsEmptyRL() ==> ri.runs == []) && ri.nblock <= NblockMax() + 4
      ensures ri.prior == old(ri.prior) && Light(ri.runs, blockSize100k)
      ensures (ri.nblock >= NblockMax() ==> ri.stateInLen == 1) && (ri.IsEmptyRL() ==> old(ri.IsEmptyRL()))
      ensures Consumed(input, rest, old(ri.Fed()), ri.Fed()) && (progress <==> |rest| < |input|)
      ensures if mode != Running then availInExpect == |rest| else availInExpect == old(availInExpect)
      ensures if ri.nblock >= NblockMax() then |rest| < |input| && !ri.IsEmptyRL() else rest == []
    {
      hide RunCollector.Held, RunCollector.Fed, MayFollow, Consumed, Light, Runs;
      ghost var fed := ri.Fed();
      ri.Size();
      LightNow(ri.runs, blockSize100k);
      progress, rest := false, input;
      ConsumedNone(input, fed);
      if mode == Running {
        while true
          invariant ri.Valid() && (ri.IsEmptyRL() ==> ri.runs == []) && ri.nblock <= NblockMax() + 4
          invariant Consumed(input, rest, fed, ri.Fed()) && (progress <==> |rest| < |input|) && Bytes(rest)
          invariant ri.prior == old(ri.prior) && Light(ri.runs, blockSize100k)
          invariant (ri.nblock >= NblockMax() ==> ri.stateInLen == 1) && (ri.IsEmptyRL() ==> old(ri.IsEmptyRL()))
          invariant availInExpect == old(availInExpect) && (ri.nblock >= NblockMax() ==> progress && !ri.IsEmptyRL())
          decreases |rest|
        {
          if ri.nblock >= NblockMax() { break; }
          if rest == [] { break; }
          progress := true;
          ConsumedOne(input, rest, fed, ri.Fed());
          ghost var rs, r := ri.runs, (ri.stateInCh, ri.stateInLen);
          ri.Size();
          ri.AddCharToBlock(rest[0]);
          ri.Size();
          StaysLight(rs, r, ri.runs, blockSize100k);
          rest := rest[1..];
        }
      } else {
        while true
          invariant ri.Valid() && (ri.IsEmptyRL() ==> ri.runs == []) && ri.nblock <= NblockMax() + 4
          invariant Consumed(input, rest, fed, ri.Fed()) && (progress <==> |rest| < |input|) && Bytes(rest)
          invariant ri.prior == old(ri.prior) && Light(ri.runs, blockSize100k)
          invariant (ri.nblock >= NblockMax() ==> ri.stateInLen == 1) && (ri.IsEmptyRL() ==> old(ri.IsEmptyRL()))
          invariant availInExpect == |rest| && (ri.nblock >= NblockMax() ==> progress && !ri.IsEmptyRL())
          decreases |rest|
        {
          if ri.nblock >= NblockMax() { break; }
          if rest == [] { break; }
          if availInExpect == 0 { break; }
          progress := true;
          ConsumedOne(input, rest, fed, ri.Fed());
          ghost var rs, r := ri.runs, (ri.stateInCh, ri.stateInLen);
          ri.Size();
          ri.AddCharToBlock(rest[0]);
          ri.Size();
          StaysLight(rs, r, ri.runs, blockSize100k);
          rest := rest[1..];
          availInExpect := availInExpect - 1;
        }
      }
    }

    /** copy_output_until_stop: puts out bytes until there is no room or the block is done. */
    method CopyOutput(avail: nat) returns (out: seq<int>)
      requires stateOutPos <= w.numZ <= w.zbits.Length
      modifies `stateOutPos
      ensures old(stateOutPos) <= stateOutPos <= w.numZ && out == w.zbits[old(stateOutPos)..stateOutPos]
      ensures |out| <= avail && (|out| == avail || stateOutPos == w.numZ)
    {
      out := [];
      while true
        invariant old(stateOutPos) <= stateOutPos <= w.numZ && out == w.zbits[old(stateOutPos)..stateOutPos]
        invariant |out| <= avail
        decreases w.numZ - stateOutPos
      {
        if |out| == avail { break; }
        if stateOutPos >= w.numZ { break; }
        out := out + [w.zbits[stateOutPos]];
        stateOutPos := stateOutPos + 1;
      }
    }

    /** prepare_new_block, once the last one has been put out. */
    method PrepareNewBlock()
      requires Books(true) && ri.Valid() && stateOutPos == w.numZ && 1 <= blockNo && !finished
      modifies `blockNo, `stateOutPos, `flushed, ri, ri.inUse, w`numZ
      ensures Books(true) && ri.Valid() && ri.nblock == 0 && ri.runs == [] && w.numZ == 0 && stateOutPos == 0
      ensures blockNo == old(blockNo) + 1 && ri.stateInCh == old(ri.stateInCh) && ri.stateInLen == old(ri.stateInLen)
      ensures flushed == old(flushed + w.zbits[..stateOutPos])
      ensures ri.prior == if ri.IsEmptyRL() then [] else old(ri.prior + ri.runs)
    {
      hide AllSent, Combined, DueBits, ByteBits, BitsOf, Gathered, BitWriter.Valid;
      BooksParts(true);
      WrittenParts(w);
      ghost var z, b := w.zbits[..w.numZ], BitsOf(w.top, w.bsLive);
      ByteBitsJoin(flushed, z);
      Join(ByteBits(flushed), ByteBits(z), b);
      ri.PrepareNewBlock();
      w.Restart();
      flushed := flushed + z;
      stateOutPos := 0;
      blockNo := blockNo + 1;
    }

    /** Nothing more can be done with this much input and room left. */
    ghost predicate Stopped(rest: seq<int>, room: nat)
      reads this, ri, w
    {
      || (outputting && stateOutPos < w.numZ && room == 0)
      || (mode == Finishing && finished && stateOutPos == w.numZ)
      || (mode == Flushing && !outputting && availInExpect == 0 && ri.IsEmptyRL() && blockNo > 1)
      || (mode == Running && !outputting && rest == [])
    }

    /** The first half of handle_compress's loop: puts out bytes, and when the block is done gets ready for the next. */
    method OutputStep(avail: nat, ghost rest: seq<int>) returns (stop: bool, out: seq<int>)
      requires Valid() && outputting && mode != Idle
      modifies this, ri, ri.inUse, w`numZ
      ensures Valid() && Taken() == old(Taken()) && Given() == old(Given()) + out && |out| <= avail
      ensures mode == old(mode) && availInExpect == old(availInExpect) && finished == old(finished)
      ensures everFlushed == old(everFlushed) && lastByRun == old(lastByRun)
      ensures stop ==> Stopped(rest, avail - |out|)
      ensures stop && mode != Flushing ==> w.numZ == old(w.numZ) && stateOutPos == old(stateOutPos) + |out|
      ensures stop && mode != Flushing ==> |out| == avail || (stateOutPos == w.numZ && mode == Finishing)
      ensures !stop ==> !outputting && !old(!finished && ri.IsEmptyRL())
    {
      hide EState.Books, RunCollector.Held, ByteBits, BitsOf, BitWriter.Valid, Content, Since, MayFollow, PendingRange,
        PendingBytes;
      ShapeHolds();
      ghost var f, p := flushed, stateOutPos;
      out := CopyOutput(avail);
      assert f + w.zbits[..stateOutPos] == (f + w.zbits[..p]) + out;
      if stateOutPos < w.numZ { return true, out; }
      if mode == Finishing && availInExpect == 0 && ri.IsEmptyRL() { return true, out; }
      PrepareNewBlock();
      outputting := false;
      EmptyBlock();
      stop := mode == Flushing && availInExpect == 0 && ri.IsEmptyRL();
    }

    lemma EmptyBlock()
      requires ri.runs == [] && stateOutPos == 0 && w.numZ <= w.zbits.Length
      ensures ri.Fed() == PendingBytes(ri.stateInCh, ri.stateInLen) && Given() == flushed
    {
      assert [] + PendingBytes(ri.stateInCh, ri.stateInLen) == PendingBytes(ri.stateInCh, ri.stateInLen);
      NothingPut();
    }

    lemma NothingPut()
      requires stateOutPos == 0 && w.numZ <= w.zbits.Length
      ensures Given() == flushed
    {
      assert flushed + w.zbits[..0] == flushed;
    }

    /** A block has been written: its bytes now count as part of it. */
    lemma BlockTaken(c: seq<int>)
      requires Books(true) && outputting && stateOutPos == 0 && Content(done, 0) == c + Plain(ri.runs, 0)
      ensures w.numZ <= w.zbits.Length && Given() == flushed && Taken() == c + ri.Fed()
    {
      hide Content, Plain, EState.Books, Aligned, AllSent, DueBits;
      BooksParts(true);
      NothingPut();
      var p, q := Plain(ri.runs, 0), PendingBytes(ri.stateInCh, ri.stateInLen);
      assert (c + p) + q == c + (p + q);
    }

    /** Writes the block; what it holds is put out next. */
    method EndBlock(last: bool)
      requires Books(Headed()) && ri.Valid() && !outputting && !finished && ri.nblock + 10 <= BlockSize(blockSize100k)
      requires w.numZ == 0 && stateOutPos == 0 && 1 <= blockNo && w.numZ <= w.zbits.Length && mode != Idle
      requires ri.IsEmptyRL() ==> mode == (if last then Finishing else Flushing) && availInExpect == 0
      requires last ==> ri.IsEmptyRL()
      requires Unbroken() && WillEnd(done, last)
      requires ri.prior == Since(done) && (ri.runs != [] ==> Filled(ri.runs, ri.IsEmptyRL(), blockSize100k))
      modifies ri.block, w, w.zbits, `outputting, `combinedCRC, `done, `finished
      ensures Valid() && outputting && finished == last && (last ==> w.numZ > 0)
      ensures w.numZ <= w.zbits.Length && Taken() == old(Taken()) && Given() == old(Given())
    {
      hide EState.Books, EState.Given, RunCollector.Held, RunCollector.Fed, MayFollow, Content, Plain,
        BitWriter.Valid, PendingBytes, PendingRange, Since, Filled, Appended, OpenEnded, Whole, EState.Unbroken,
        EState.Ends, EState.WillEnd;
      ghost var c, d0 := Content(done, 0), done;
      NothingPut();
      ModeKnown();
      CompressBlock(last);
      outputting := true;
      BlockTaken(c);
      UnbrokenAfter(d0);
      EndsAfter(d0);
    }

    /** What closing the block behind the blocks ds means for the end of the stream. */
    ghost predicate WillEnd(ds: seq<Sent>, last: bool)
      reads `mode, `availInExpect, `everFlushed, `lastByRun, ri
    {
      everFlushed ||
      if last then
        if ri.runs == [] then ds == []
        else if lastByRun then Light(ri.runs, blockSize100k) else ds == [] || |Plain(ri.runs, 0)| >= 2
      else !ri.IsEmptyRL() && (mode == Running || availInExpect == 0 ==> lastByRun)
    }

    lemma EndsAfter(d0: seq<Sent>)
      requires WillEnd(d0, finished)
      requires if ri.runs == [] then done == d0 else Appended(d0, done, ri.IsEmptyRL(), ri.runs)
      ensures Ends()
    {
      hide Light, Plain;
    }

    lemma ModeKnown()
      requires Unbroken() && !finished
      ensures (mode == Flushing ==> everFlushed) && (everFlushed || OpenEnded(done))
    {
    }

    /** Unless there was a flush, only the last block is closed before it is full. */
    lemma UnbrokenAfter(d0: seq<Sent>)
      requires (mode == Flushing ==> everFlushed) && (everFlushed || OpenEnded(d0))
      requires if ri.runs == [] then done == d0 else Appended(d0, done, ri.IsEmptyRL(), ri.runs)
      requires ri.IsEmptyRL() ==> mode == if finished then Finishing else Flushing
      ensures Unbroken()
    {
      if done != d0 {
        forall k | 0 <= k < |done| ensures k < |d0| ==> done[k] == d0[k] {
          if k < |d0| { assert done[..|d0|][k] == d0[k]; }
        }
      }
    }

    /** Bytes have been taken in, and the block may be full. */
    ghost predicate Filling()
      reads this, ri, ri.block, ri.inUse, w, w.zbits
    {
      && Books(Headed()) && ri.Valid() && !outputting && !finished && mode != Idle && ri.nblock <= NblockMax() + 4
      && w.numZ == 0 && stateOutPos == 0 && 1 <= blockNo && Shape() && w.numZ <= w.zbits.Length && Unbroken()
      && ri.prior == Since(done) && Light(ri.runs, blockSize100k) && (ri.IsEmptyRL() ==> ri.runs == [])
      && (ri.nblock >= NblockMax() ==> ri.stateInLen == 1)
    }

    /** What is known of the end of the stream before the block is closed by a flush or the end. */
    ghost predicate Closing()
      reads `done, `mode, `everFlushed, `lastByRun, ri
    {
      everFlushed ||
        (mode == Finishing && (ri.IsEmptyRL() ==> done == []) &&
         if lastByRun then |Packed(ri.runs, 0)| < FullAt(blockSize100k) else done == [] || |ri.Fed()| >= 2)
    }

    lemma ClosingIntro()
      requires ri.Valid()
      requires !everFlushed ==>
                 && mode == Finishing && (ri.IsEmptyRL() ==> done == []) && (lastByRun ==> ri.nblock < NblockMax())
                 && (!lastByRun ==> done == [] || |ri.Fed()| >= 2)
      ensures Closing()
    {
      hide Gathered, RunCollector.Fed, Packed;
      ri.Size();
    }

    /** flush_RL, and the block: the last one when the stream ends. */
    method EndFlushed()
      requires Filling() && mode != Running && availInExpect == 0 && Closing()
      modifies ri, ri.block, ri.inUse, w, w.zbits, `outputting, `combinedCRC, `done, `finished
      ensures Valid() && outputting && finished == (mode == Finishing) && ri.IsEmptyRL() && (finished ==> w.numZ > 0)
      ensures stateOutPos == 0 && w.numZ <= w.zbits.Length && Taken() == old(Taken()) && Given() == old(Given())
    {
      hide EState.Books, EState.Given, RunCollector.Held, RunCollector.Fed, MayFollow, Content, Plain,
        BitWriter.Valid, PendingBytes, PendingRange, Since, Filled, Light, Packed, EState.Ends, EState.WillEnd,
        EState.Unbroken;
      ri.Size();
      ghost var rs, r, empty := ri.runs, (ri.stateInCh, ri.stateInLen), ri.IsEmptyRL();
      FlushFills(rs, r, blockSize100k);
      PendingLight(rs, r, blockSize100k);
      ri.FlushRL();
      FlushEnds(done, rs, r, empty);
      EndBlock(mode == Finishing);
    }

    /** copy_input_until_stop, and what is then known of the end of the stream. */
    method TakeIn(input: seq<int>) returns (progress: bool, rest: seq<int>)
      requires Valid() && !outputting && mode != Idle && Bytes(input) && (mode != Running ==> availInExpect == |input|)
      modifies ri, ri.block, ri.inUse, `availInExpect, `lastByRun
      ensures Filling() && Given() == old(Given()) && Taken() == Content(done, 0) + ri.Fed()
      ensures Consumed(input, rest, old(Taken()), Taken()) && (progress <==> |rest| < |input|)
      ensures mode != Running ==> availInExpect == |rest|
      ensures lastByRun == if |rest| < |input| then mode == Running else old(lastByRun)
      ensures if ri.nblock >= NblockMax() then |rest| < |input| && !ri.IsEmptyRL() else rest == []
      ensures if mode != Running && availInExpect == 0 then Closing()
              else if ri.nblock >= NblockMax() then WillEnd(done, false) else Ends()
    {
      hide EState.Books, EState.Given, RunCollector.Held, RunCollector.Fed, MayFollow, Content, Plain, Consumed,
        BitWriter.Valid, PendingBytes, PendingRange, Bytes, Since, Filled, Light, Packed, EState.Ends, EState.WillEnd,
        EState.Closing, EState.Unbroken;
      ShapeHolds();
      ghost var c, fed := Content(done, 0), ri.Fed();
      NothingPut();
      PendingSize();
      if !everFlushed { EndsParts(); }
      progress, rest := CopyInput(input);
      if progress { lastByRun := mode == Running; }
      ConsumedAfter(c, input, rest, fed, ri.Fed());
      ConsumedSize(input, rest, fed, ri.Fed());
      NothingPut();
      if mode != Running && availInExpect == 0 {
        ClosingIntro();
      } else if ri.nblock >= NblockMax() {
        FullEnds(done);
      } else {
        EndsIntro();
      }
    }

    /** The second half: takes in bytes, and writes the block when it is full or the last bytes are in. */
    method InputStep(input: seq<int>) returns (stop: bool, progress: bool, rest: seq<int>)
      requires Valid() && !outputting && mode != Idle && Bytes(input) && (mode != Running ==> availInExpect == |input|)
      modifies this, ri, ri.block, ri.inUse, w, w.zbits
      ensures Valid() && Consumed(input, rest, old(Taken()), Taken()) && (progress <==> |rest| < |input|)
      ensures Given() == old(Given()) && mode == old(mode) && (mode != Running ==> availInExpect == |rest|)
      ensures everFlushed == old(everFlushed)
      ensures lastByRun == if |rest| < |input| then mode == Running else old(lastByRun)
      ensures stop ==> !outputting && mode == Running && rest == []
      ensures !stop ==>
                outputting && (ri.IsEmptyRL() || |rest| < |input|) && (finished ==> w.numZ > 0 && stateOutPos == 0)
    {
      hide EState.Books, EState.Given, RunCollector.Held, RunCollector.Fed, MayFollow, Content, Plain, Consumed,
        BitWriter.Valid, PendingBytes, PendingRange, Bytes, Since, Filled, Light, Packed, EState.Ends, EState.WillEnd,
        EState.Closing, EState.Unbroken;
      progress, rest := TakeIn(input);
      ri.Size();
      stop := false;
      if mode != Running && availInExpect == 0 {
        EndFlushed();
      } else if ri.nblock >= NblockMax() {
        FullFills(ri.runs, blockSize100k);
        EndBlock(false);
      } else {
        stop := true;
      }
    }

    lemma EndsParts()
      requires Valid() && !finished && !everFlushed
      ensures mode != Flushing && (done != [] ==> !ri.IsEmptyRL())
      ensures mode == Running || availInExpect == 0 ==> lastByRun || done == []
    {
      hide EState.Books, RunCollector.Valid;
    }

    lemma EndsIntro()
      requires !finished && (done != [] && !everFlushed ==> !ri.IsEmptyRL())
      requires (mode == Running || availInExpect == 0) && !everFlushed ==> lastByRun || done == []
      ensures Ends()
    {
    }

    lemma FullEnds(ds: seq<Sent>)
      requires everFlushed || (!ri.IsEmptyRL() && (mode == Running || availInExpect == 0 ==> lastByRun))
      ensures WillEnd(ds, false)
    {
    }

    /** The pending run r went into the block with the runs rs. */
    lemma FlushEnds(ds: seq<Sent>, rs: seq<Run>, r: Run, empty: bool)
      requires ri.runs == (if empty then rs else rs + [r]) && (empty ==> rs == [])
      requires |Packed(rs, 0)| < FullAt(blockSize100k) ==> Light(rs + [r], blockSize100k)
      requires everFlushed || mode == Finishing
      requires !everFlushed ==>
                 && (empty ==> ds == []) && (lastByRun ==> |Packed(rs, 0)| < FullAt(blockSize100k))
                 && (!lastByRun ==> ds == [] || |Plain(ri.runs, 0)| >= 2)
      ensures WillEnd(ds, mode == Finishing)
    {
      hide Light, Plain, Packed;
    }

    lemma PendingSize()
      requires ri.Valid()
      ensures !ri.IsEmptyRL() ==> |ri.Fed()| >= 1
    {
      hide RunCollector.Held, Plain;
    }

    lemma PositionHolds()
      requires Valid()
      ensures stateOutPos <= w.numZ
    {
    }

    lemma ShapeHolds()
      requires Valid()
      ensures Shape() && w.numZ <= w.zbits.Length
    {
    }

    /** A call in finishing mode that had room has got somewhere: it took input in, or wrote the
        trailer, or put out more of the buffer. */
    ghost predicate Nearer(input: seq<int>, rest: seq<int>, finishedBefore: bool, leftBefore: int)
      reads this, w
    {
      |rest| < |input| || (finished && !finishedBefore) ||
        (finished == finishedBefore && w.numZ - stateOutPos < leftBefore)
    }

    /** handle_compress */
    method HandleCompress(input: seq<int>, avail: nat) returns (progress: bool, rest: seq<int>, out: seq<int>)
      requires Valid() && mode != Idle && Bytes(input) && (mode != Running ==> availInExpect == |input|)
      modifies this, ri, ri.block, ri.inUse, w, w.zbits
      ensures Valid() && mode == old(mode) && (mode != Running ==> availInExpect == |rest|)
      ensures everFlushed == old(everFlushed)
      ensures |rest| <= |input| && lastByRun == if |rest| < |input| then mode == Running else old(lastByRun)
      ensures Consumed(input, rest, old(Taken()), Taken()) && Given() == old(Given()) + out && |out| <= avail
      ensures Stopped(rest, avail - |out|) && (progress <==> |rest| < |input| || out != [])
      ensures mode == Finishing && avail > 0 && old(finished ==> stateOutPos < w.numZ) ==>
                progress && Nearer(input, rest, old(finished), old(w.numZ - stateOutPos))
      ensures mode == Running && avail > 0 && input != [] ==>
                |rest| < |input| || w.numZ - stateOutPos < old(w.numZ - stateOutPos)
      ensures mode == Finishing && !progress && old(finished ==> stateOutPos < w.numZ) ==>
                (finished ==> stateOutPos < w.numZ)
    {
      hide EState.Books, EState.Given, EState.Taken, RunCollector.Valid, Consumed, BitWriter.Valid, EState.Linked,
        EState.Unbroken, EState.Ends;
      ShapeHolds();
      ghost var taken, given := Taken(), Given();
      var progressIn, stop := false, false;
      rest, out := input, [];
      ghost var begun := false;
      ConsumedNone(input, taken);
      assert given + [] == given;
      while true
        invariant Valid() && w.numZ <= w.zbits.Length && mode == old(mode) && Bytes(rest) && |rest| <= |input|
        invariant (mode != Running ==> availInExpect == |rest|) && everFlushed == old(everFlushed)
        invariant Consumed(input, rest, taken, Taken()) && Given() == given + out && |out| <= avail
        invariant progressIn <==> |rest| < |input|
        invariant lastByRun == if |rest| < |input| then mode == Running else old(lastByRun)
        invariant !begun ==> out == [] && rest == input && unchanged(this) && unchanged(w) && unchanged(ri)
        invariant begun ==> outputting && (finished ==> !old(finished) && w.numZ > 0 && stateOutPos == 0)
        invariant begun && mode == Finishing ==> finished || |rest| < |input|
        invariant begun && mode == Running ==> |rest| < |input|
        decreases |rest|, !(outputting && ri.IsEmptyRL())
      {
        ghost var t := Taken();
        if outputting {
          var put;
          stop, put := OutputStep(avail - |out|, rest);
          assert (given + out) + put == given + (out + put);
          out := out + put;
          if stop { break; }
        }
        var took, rest';
        stop, took, rest' := InputStep(rest);
        ConsumedMore(input, rest, rest', taken, t, Taken());
        ConsumedBytes(rest, rest', t, Taken());
        rest := rest';
        progressIn := progressIn || took;
        ShapeHolds();
        if stop { break; }
        begun := true;
      }
      progress := progressIn || out != [];
    }

    /** Between calls: a written trailer has not been put out completely, or the machine is idle. */
    ghost predicate Resting()
      reads this, w
    {
      && (mode == Finishing && finished ==> stateOutPos < w.numZ)
      && (mode == Idle ==> stateOutPos == w.numZ)
    }

    /** BZ2_bzCompressInit; a work factor of 0 stands for 30. */
    constructor (blockSize100k: nat, workFactor: nat, step: (Crc, int) -> Crc)
      requires 1 <= blockSize100k <= 9 && workFactor <= 250
      ensures Valid() && Resting() && mode == Running && Taken() == [] && Given() == [] && ri.step == step
      ensures !everFlushed && !lastByRun
      ensures this.blockSize100k == blockSize100k
      ensures fresh(ri) && fresh(ri.block) && fresh(ri.inUse) && fresh(w) && fresh(w.zbits)
    {
      this.blockSize100k, this.workFactor := blockSize100k, if workFactor == 0 then 30 else workFactor;
      ri := new RunCollector(BlockSize(blockSize100k) + MainCompare.OVERSHOOT, step);
      w := new BitWriter(3 * BlockSize(blockSize100k) + 146);
      mode, outputting, availInExpect, combinedCRC, blockNo, stateOutPos := Running, false, 0, 0, 1, 0;
      done, flushed, finished, everFlushed, lastByRun := [], [], false, false, false;
      new;
      hide RunCollector.Valid, BitWriter.Valid, BitWriter.Written, EState.Books, EState.Valid, EState.Resting,
        EState.Taken, EState.Given, EState.Shape;
      ShapeOpen();
      StartsValid();
    }

    lemma ShapeOpen()
      requires 1 <= blockSize100k <= 9 && ri.block.Length == BlockSize(blockSize100k) + MainCompare.OVERSHOOT
      requires w.zbits.Length == 3 * BlockSize(blockSize100k) + 146 && w.zbits != ri.block
      ensures Shape()
    {
    }

    /** A new compressor. */
    lemma StartsValid()
      requires Shape() && ri.Valid() && ri.runs == [] && ri.prior == [] && ri.nblock == 0 && ri.stateInCh == NO_CHAR
      requires w.Valid() && w.Written() == [] && w.numZ == 0 && mode == Running && !outputting && blockNo == 1
      requires stateOutPos == 0 && flushed == [] && done == [] && combinedCRC == 0 && !finished && !everFlushed
      requires ri.IsEmptyRL()
      ensures Valid() && Resting() && Taken() == [] && w.numZ <= w.zbits.Length && Given() == []
    {
      hide RunCollector.Valid, BitWriter.Valid, BitWriter.Written, EState.Books;
      BooksOpen();
    }

    /** Nothing has been written yet. */
    lemma BooksOpen()
      requires Shape() && w.Valid() && w.Written() == [] && flushed == [] && done == [] && combinedCRC == 0 && !finished
      ensures Books(false) && Since(done) == []
    {
      hide BitWriter.Valid, BitWriter.Written, DueBits, AllSent, Combined, Chained, Since, ByteBits, Bytes;
      DueNone(ri.step, blockSize100k);
      NoBytesYet(flushed);
      assert [] + w.Written() == w.Written();
    }

    /** Once the trailer has been written and everything put out, the stream is complete. */
    lemma AllDone()
      requires Valid() && finished && stateOutPos == w.numZ
      ensures w.numZ <= w.zbits.Length && Complete(Given(), Taken(), ri.step, blockSize100k)
      ensures !everFlushed ==> CompleteWhole(Given(), Taken(), ri.step, blockSize100k, lastByRun)
    {
      hide AllSent, DueBits, StreamBits, Combined, ByteBits, Aligned, RunCollector.Held, Content, Since, Chained;
      ghost var z := w.zbits[..w.numZ];
      NothingOpen(done, blockSize100k);
      WrittenParts(w);
      assert ByteBits(z) + BitsOf(w.top, 0) == ByteBits(z);
      ByteBitsJoin(flushed, z);
      DueTrailer(ri.step, blockSize100k, done);
      NoContent(Content(done, 0));
      assert CompleteVia(Given(), Taken(), ri.step, blockSize100k, done);
    }

    /** When a flush has ended, everything taken in is in blocks, and all their bits but the last few
        have been put out. */
    ghost predicate FlushedOut()
      reads this, ri, w, w.zbits
    {
      && Shape() && w.Valid() && Bytes(flushed) && stateOutPos <= w.numZ && AllSent(done, blockSize100k)
      && Taken() == Content(done, 0) && Output() == DueBits(ri.step, blockSize100k, done, true, false)
      && |Output()| < 8 * |Given()| + 32
    }

    lemma FlushDone()
      requires Valid() && !outputting && ri.IsEmptyRL() && blockNo > 1
      ensures FlushedOut()
    {
      hide AllSent, DueBits, Combined, ByteBits, Aligned, RunCollector.Held, Content;
      NothingPut();
      NoContent(Content(done, 0));
      assert PendingBytes(ri.stateInCh, ri.stateInLen) == [] && Plain(ri.runs, 0) == [];
    }

    /** Everything has been taken in, is in blocks, and has been put out. */
    predicate Settled(rest: seq<int>)
      reads `stateOutPos, ri, w
    {
      rest == [] && ri.IsEmptyRL() && stateOutPos == w.numZ
    }

    /** BZ2_bzCompress in flushing mode. */
    method FlushCall(action: Action, input: seq<int>, avail: nat)
      returns (answer: Answer, rest: seq<int>, out: seq<int>)
      requires Valid() && Resting() && Bytes(input) && mode == Flushing
      modifies this, ri, ri.block, ri.inUse, w, w.zbits
      ensures Valid() && Resting() && everFlushed
      ensures |rest| <= |input| && lastByRun == (old(lastByRun) && |rest| == |input|)
      ensures Consumed(input, rest, old(Taken()), Taken()) && Given() == old(Given()) + out && |out| <= avail
      ensures old(Refuses(action, |input|)) ==>
                answer == SequenceError && rest == input && out == [] && mode == Flushing
      ensures !old(Refuses(action, |input|)) ==>
                answer == (if Settled(rest) then RunOk else FlushOk) &&
                mode == (if Settled(rest) then Running else Flushing)
      ensures answer == FlushOk ==> |out| == avail
      ensures answer == RunOk ==> FlushedOut()
    {
      hide EState.Books, EState.Given, EState.Taken, EState.FlushedOut, RunCollector.Valid, Consumed, BitWriter.Valid,
        Content, EState.Linked;
      ShapeHolds();
      ConsumedNone(input, Taken());
      assert Given() + [] == Given();
      answer, rest, out := SequenceError, input, [];
      if action != FlushAction { return; }
      if availInExpect != |input| { return; }
      var progress;
      progress, rest, out := HandleCompress(input, avail);
      ShapeHolds();
      if availInExpect > 0 || !ri.IsEmptyRL() || stateOutPos < w.numZ {
        answer := FlushOk;
      } else {
        mode := Running;
        FlushDone();
        answer := RunOk;
      }
    }

    /** BZ2_bzCompress in finishing mode. */
    method FinishCall(action: Action, input: seq<int>, avail: nat)
      returns (answer: Answer, rest: seq<int>, out: seq<int>)
      requires Valid() && Resting() && Bytes(input) && mode == Finishing
      modifies this, ri, ri.block, ri.inUse, w, w.zbits
      ensures Valid() && Resting() && everFlushed == old(everFlushed)
      ensures |rest| <= |input| && lastByRun == (old(lastByRun) && |rest| == |input|)
      ensures Consumed(input, rest, old(Taken()), Taken()) && Given() == old(Given()) + out && |out| <= avail
      ensures old(Refuses(action, |input|)) ==>
                answer == SequenceError && rest == input && out == [] && mode == Finishing
      ensures !old(Refuses(action, |input|)) ==>
                answer == (if |rest| == |input| && out == [] then SequenceError
                           else if Settled(rest) then StreamEnd else FinishOk)
      ensures mode == if answer == StreamEnd then Idle else Finishing
      ensures answer == StreamEnd ==> Complete(Given(), Taken(), ri.step, blockSize100k)
      ensures answer == StreamEnd && !everFlushed ==> CompleteWhole(Given(), Taken(), ri.step, blockSize100k, lastByRun)
      ensures !old(Refuses(action, |input|)) && avail > 0 ==>
                && answer != SequenceError && availInExpect == |rest|
                && Nearer(input, rest, old(finished), old(w.numZ - stateOutPos))
    {
      hide EState.Books, EState.Given, EState.Taken, RunCollector.Valid, Consumed, BitWriter.Valid, Content, Complete,
        CompleteWhole, EState.Linked;
      ShapeHolds();
      ConsumedNone(input, Taken());
      assert Given() + [] == Given();
      answer, rest, out := SequenceError, input, [];
      if action != FinishAction { return; }
      if availInExpect != |input| { return; }
      var progress;
      ghost var taken := Taken();
      progress, rest, out := HandleCompress(input, avail);
      ShapeHolds();
      ConsumedBytes(input, rest, taken, Taken());
      if !progress { return; }
      if availInExpect > 0 || !ri.IsEmptyRL() || stateOutPos < w.numZ {
        answer := FinishOk;
      } else {
        mode := Idle;
        AllDone();
        answer := StreamEnd;
      }
    }

    /** BZ2_bzCompress in running mode, with the action to go on. */
    method RunCall(input: seq<int>, avail: nat) returns (answer: Answer, rest: seq<int>, out: seq<int>)
      requires Valid() && Resting() && Bytes(input) && mode == Running
      modifies this, ri, ri.block, ri.inUse, w, w.zbits
      ensures Valid() && Resting() && mode == Running && everFlushed == old(everFlushed)
      ensures |rest| <= |input| && lastByRun == (old(lastByRun) || |rest| < |input|)
      ensures Consumed(input, rest, old(Taken()), Taken()) && Given() == old(Given()) + out && |out| <= avail
      ensures answer == (if |rest| < |input| || out != [] then RunOk else ParamError)
      ensures rest == [] || |out| == avail
      ensures avail > 0 && input != [] ==> |rest| < |input| || w.numZ - stateOutPos < old(w.numZ - stateOutPos)
    {
      hide EState.Books, EState.Given, EState.Taken, RunCollector.Valid, Consumed, BitWriter.Valid, EState.Shape, Bytes,
        EState.Linked, EState.Unbroken;
      var progress;
      progress, rest, out := HandleCompress(input, avail);
      answer := if progress then RunOk else ParamError;
      ShapeHolds();
    }

    /** BZ2_bzCompress in running mode, with the action to flush or to finish. */
    method LeaveRunning(action: Action, availIn: nat)
      requires Valid() && Resting() && mode == Running && (action == FlushAction || action == FinishAction)
      modifies `availInExpect, `mode, `everFlushed
      ensures Valid() && Resting() && mode == (if action == FlushAction then Flushing else Finishing)
      ensures availInExpect == availIn && everFlushed == (old(everFlushed) || action == FlushAction)
      ensures Shape() && stateOutPos <= w.numZ <= w.zbits.Length && Taken() == old(Taken()) && Given() == old(Given())
    {
      hide EState.Books, RunCollector.Valid, BitWriter.Valid, Content, EState.Linked;
      ShapeHolds();
      availInExpect, mode := availIn, if action == FlushAction then Flushing else Finishing;
      everFlushed := everFlushed || action == FlushAction;
    }

    /** The answer to a call that is not refused, by what it did. */
    function AnswerFor(action: Action, input: seq<int>, rest: seq<int>, out: seq<int>): Answer
      reads `stateOutPos, ri, w
    {
      match action
      case RunAction => if |rest| < |input| || out != [] then RunOk else ParamError
      case FlushAction => if Settled(rest) then RunOk else FlushOk
      case _ => if |rest| == |input| && out == [] then SequenceError else if Settled(rest) then StreamEnd else FinishOk
    }

    /** BZ2_bzCompress. Every call takes in a first part of its input and puts out as much as there is
        room for; STREAM_END comes when one complete stream for everything taken in has been put out. */
    method Compress(action: Action, input: seq<int>, avail: nat) returns (answer: Answer, rest: seq<int>, out: seq<int>)
      requires Valid() && Resting() && Bytes(input)
      modifies this, ri, ri.block, ri.inUse, w, w.zbits
      ensures Valid() && Resting() && (everFlushed ==> old(everFlushed) || action == FlushAction)
      ensures Consumed(input, rest, old(Taken()), Taken()) && Given() == old(Given()) + out && |out| <= avail
      ensures old(Refuses(action, |input|)) ==>
                && answer == (if old(mode) == Running then ParamError else SequenceError)
                && rest == input && out == [] && mode == old(mode)
      ensures !old(Refuses(action, |input|)) ==> answer == AnswerFor(action, input, rest, out)
      ensures !old(Refuses(action, |input|)) ==>
                mode == match action
                        case RunAction => Running
                        case FlushAction => if answer == RunOk then Running else Flushing
                        case _ => if answer == StreamEnd then Idle else Finishing
      ensures mode == Idle ==> Complete(Given(), Taken(), ri.step, blockSize100k)
      ensures lastByRun == if |rest| < |input| then action == RunAction else old(lastByRun)
      ensures mode == Idle && !everFlushed ==> CompleteWhole(Given(), Taken(), ri.step, blockSize100k, lastByRun)
      ensures answer == StreamEnd ==> rest == [] && action == FinishAction
      ensures answer == FlushOk ==> |out| == avail
      ensures answer == RunOk && action == RunAction ==> rest == [] || |out| == avail
      ensures answer == RunOk && action == FlushAction ==> FlushedOut()
      ensures action == RunAction && avail > 0 && input != [] && !old(Refuses(action, |input|)) ==>
                |rest| < |input| || w.numZ - stateOutPos < old(w.numZ - stateOutPos)
      ensures action == FinishAction && avail > 0 && !old(Refuses(action, |input|)) ==>
                && answer != SequenceError && availInExpect == |rest|
                && Nearer(input, rest, old(finished), old(w.numZ - stateOutPos))
    {
      hide EState.Books, EState.Given, EState.Taken, EState.FlushedOut, RunCollector.Valid, Consumed, BitWriter.Valid,
        Content, Complete, CompleteWhole, EState.Shape, Bytes, EState.Linked;
      ShapeHolds();
      ConsumedNone(input, Taken());
      assert Given() + [] == Given();
      answer, rest, out := SequenceError, input, [];
      if mode == Idle {
        AllDone();
        return;
      }
      if mode == Running {
        if action == OtherAction {
          answer := ParamError;
          return;
        }
        if action == RunAction {
          answer, rest, out := RunCall(input, avail);
          return;
        }
        LeaveRunning(action, |input|);
      }
      if mode == Flushing {
        answer, rest, out := FlushCall(action, input, avail);
      } else {
        answer, rest, out := FinishCall(action, input, avail);
      }
    }

    /** An action out of order, or input changed in the middle of a flush or at the end. */
    predicate Refuses(action: Action, availIn: nat)
      reads `mode, `availInExpect
    {
      || action == OtherAction || mode == Idle
      || (mode == Flushing && (action != FlushAction || availIn != availInExpect))
      || (mode == Finishing && (action != FinishAction || availIn != availInExpect))
    }

    lemma BooksParts(headed: bool)
      requires Books(headed)
      ensures Shape() && w.Valid() && Bytes(flushed) && AllSent(done, blockSize100k) && 1 <= blockSize100k <= 9
      ensures combinedCRC == Combined(ri.step, done, |done|) && (!headed ==> done == [] && !finished)
    {
    }
  }

  lemma TrailerBytes(c: Crc)
    ensures Bytes(TRAILER) && TrailerBits(c) == ByteBits(TRAILER) + BitsOf(c, 32)
  {
  }

  lemma NoBytesYet(f: seq<int>)
    requires f == []
    ensures Bytes(f) && ByteBits(f) == []
  {
  }

  lemma NoContent(c: seq<int>)
    ensures c + [] == c
  {
  }

  lemma SentIntro(d: Sent, blockSize100k: nat)
    requires d.runs != [] && Runs(d.runs) && Sound(d.x) && Encodes(Packed(d.runs, 0), d.origPtr, d.x)
    requires |Packed(d.runs, 0)| + 10 <= BlockSize(blockSize100k)
    ensures SentOk(d, blockSize100k)
  {
  }

  /** A block that is not full was not full before its last run. */
  lemma LightNow(rs: seq<Run>, blockSize100k: nat)
    requires |Packed(rs, 0)| < FullAt(blockSize100k)
    ensures Light(rs, blockSize100k)
  {
    if rs != [] {
      var n := |rs| - 1;
      assert rs == rs[..n] + [rs[n]];
      PackedGrows(rs[..n], rs[n], 0);
    }
  }

  lemma StaysLight(rs: seq<Run>, r: Run, ts: seq<Run>, blockSize100k: nat)
    requires |Packed(rs, 0)| < FullAt(blockSize100k) && (ts == rs || ts == rs + [r])
    ensures Light(ts, blockSize100k)
  {
    hide Packed;
    if ts == rs { LightNow(rs, blockSize100k); } else { assert ts[..|rs|] == rs; }
  }

  /** The pending run goes into the block. */
  lemma FlushFills(rs: seq<Run>, r: Run, blockSize100k: nat)
    requires Light(rs, blockSize100k) && (|Packed(rs, 0)| >= FullAt(blockSize100k) ==> r.1 == 1)
    ensures Filled(rs + [r], true, blockSize100k)
  {
    assert (rs + [r])[..|rs|] == rs;
  }

  /** The pending run goes into a block that was not full. */
  lemma PendingLight(rs: seq<Run>, r: Run, blockSize100k: nat)
    requires Light(rs, blockSize100k)
    ensures |Packed(rs, 0)| < FullAt(blockSize100k) ==> Light(rs + [r], blockSize100k)
  {
    assert (rs + [r])[..|rs|] == rs;
  }

  /** The block is full. */
  lemma FullFills(rs: seq<Run>, blockSize100k: nat)
    requires Light(rs, blockSize100k) && |Packed(rs, 0)| >= FullAt(blockSize100k) && blockSize100k >= 1
    ensures Filled(rs, false, blockSize100k)
  {
  }

  lemma SettlesPadded(f: seq<bool>, s: seq<bool>, t: seq<bool>)
    requires s <= t && |t| < |s| + 8
    ensures Settles(f + t, f + s, true)
  {
    assert f + t == (f + s) + t[|s|..];
  }

  lemma HeaderBytes(blockSize100k: nat)
    requires 1 <= blockSize100k <= 9
    ensures Bytes([0x42, 0x5a, 0x68, 0x30 + blockSize100k])
    ensures MagicBits(blockSize100k) == ByteBits([0x42, 0x5a, 0x68, 0x30 + blockSize100k])
    ensures |MagicBits(blockSize100k)| == 32
  {
  }

  /* ---- Whole runs ---- */

  /** From any point of a run, FINISH calls with any room end with one complete stream for everything
      taken in since the start. */
  method FinishAll(s: EState, input: seq<int>, rooms: nat -> nat) returns (out: seq<int>)
    requires s.Valid() && s.Resting() && s.mode == Running && Bytes(input) && forall i: nat :: rooms(i) > 0
    modifies s, s.ri, s.ri.block, s.ri.inUse, s.w, s.w.zbits
    ensures s.Valid() && s.Resting() && s.mode == Idle
    ensures s.Taken() == old(s.Taken()) + input && s.Given() == old(s.Given()) + out
    ensures Complete(s.Given(), s.Taken(), s.ri.step, s.blockSize100k)
    ensures !old(s.everFlushed) ==>
              CompleteWhole(s.Given(), s.Taken(), s.ri.step, s.blockSize100k, old(s.lastByRun) && input == [])
  {
    hide EState.Books, EState.Given, EState.Taken, RunCollector.Valid, Consumed, BitWriter.Valid, Complete,
      CompleteWhole, EState.Settled, EState.Linked, EState.Unbroken, EState.Shape, EState.AnswerFor, Bytes;
    s.ShapeHolds();
    ghost var taken, given := s.Taken(), s.Given();
    var rest, i := input, 0;
    var answer := FinishOk;
    out := [];
    ConsumedNone(input, taken);
    assert given + [] == given;
    while answer != StreamEnd
      invariant s.Valid() && s.Resting() && s.w.numZ <= s.w.zbits.Length && Bytes(rest) && |rest| <= |input|
      invariant Consumed(input, rest, taken, s.Taken()) && s.Given() == given + out
      invariant answer == StreamEnd ==> s.mode == Idle && rest == []
      invariant (s.everFlushed ==> old(s.everFlushed)) && s.lastByRun == (old(s.lastByRun) && |rest| == |input|)
      invariant answer != StreamEnd ==> s.mode == Running || (s.mode == Finishing && s.availInExpect == |rest|)
      decreases |rest|, !s.finished, s.w.numZ - s.stateOutPos
    {
      ghost var t := s.Taken();
      var rest', put;
      answer, rest', put := s.Compress(FinishAction, rest, rooms(i));
      s.ShapeHolds();
      ConsumedMore(input, rest, rest', taken, t, s.Taken());
      ConsumedBytes(rest, rest', t, s.Taken());
      assert (given + out) + put == given + (out + put);
      rest, out, i := rest', out + put, i + 1;
    }
    s.AllDone();
    ConsumedAll(input, taken, s.Taken());
  }

  /** While the compressor is running, RUN calls with any room take all their input in. */
  method RunAll(s: EState, input: seq<int>, rooms: nat -> nat) returns (out: seq<int>)
    requires s.Valid() && s.Resting() && s.mode == Running && Bytes(input) && forall i: nat :: rooms(i) > 0
    modifies s, s.ri, s.ri.block, s.ri.inUse, s.w, s.w.zbits
    ensures s.Valid() && s.Resting() && s.mode == Running && (s.everFlushed ==> old(s.everFlushed))
    ensures s.Taken() == old(s.Taken()) + input && s.Given() == old(s.Given()) + out
    ensures s.lastByRun == (old(s.lastByRun) || input != [])
  {
    hide EState.Books, EState.Given, EState.Taken, RunCollector.Valid, Consumed, BitWriter.Valid, Complete,
      CompleteWhole, EState.Settled, EState.Linked, EState.Unbroken, EState.Shape, EState.AnswerFor, Bytes, EState.Ends;
    s.ShapeHolds();
    ghost var taken, given := s.Taken(), s.Given();
    var rest, i := input, 0;
    out := [];
    ConsumedNone(input, taken);
    assert given + [] == given;
    while rest != []
      invariant s.Valid() && s.Resting() && s.w.numZ <= s.w.zbits.Length && Bytes(rest) && |rest| <= |input|
      invariant Consumed(input, rest, taken, s.Taken()) && s.Given() == given + out && s.mode == Running
      invariant (s.everFlushed ==> old(s.everFlushed)) && s.lastByRun == (old(s.lastByRun) || |rest| < |input|)
      decreases |rest|, s.w.numZ - s.stateOutPos
    {
      ghost var t := s.Taken();
      var answer, rest', put := s.Compress(RunAction, rest, rooms(i));
      s.ShapeHolds();
      ConsumedMore(input, rest, rest', taken, t, s.Taken());
      ConsumedBytes(rest, rest', t, s.Taken());
      assert (given + out) + put == given + (out + put);
      rest, out, i := rest', out + put, i + 1;
    }
    ConsumedAll(input, taken, s.Taken());
  }

  lemma ConsumedAll(input: seq<int>, before: seq<int>, after: seq<int>)
    requires Consumed(input, [], before, after)
    ensures after == before + input
  {
    assert input[..|input|] == input;
  }

  /** One call of the interface, and what it left of its input. */
  datatype Call = Call(action: Action, input: seq<int>, avail: nat)

  /** Every call so far left a part of its input. */
  ghost predicate Fit(calls: seq<Call>, rests: seq<seq<int>>) {
    |rests| <= |calls| && forall j :: 0 <= j < |rests| ==> |rests[j]| <= |calls[j].input|
  }

  /** All the input taken by the first k calls. */
  ghost function TakenBy(calls: seq<Call>, rests: seq<seq<int>>, k: nat): seq<int>
    requires Fit(calls, rests) && k <= |rests|
  {
    if k == 0 then [] else TakenBy(calls, rests, k - 1) + calls[k - 1].input[..|calls[k - 1].input| - |rests[k - 1]|]
  }

  /** Whether the last of the first k calls that took input in was told to go on. */
  ghost predicate LastByRun(calls: seq<Call>, rests: seq<seq<int>>, k: nat)
    requires Fit(calls, rests) && k <= |rests|
  {
    k > 0 && if |rests[k - 1]| < |calls[k - 1].input| then calls[k - 1].action == RunAction
             else LastByRun(calls, rests, k - 1)
  }

  lemma {:induction false} LastByRunSame(calls: seq<Call>, rests: seq<seq<int>>, r: seq<int>, k: nat)
    requires Fit(calls, rests) && Fit(calls, rests + [r]) && k <= |rests|
    ensures LastByRun(calls, rests + [r], k) == LastByRun(calls, rests, k)
  {
    if k > 0 { LastByRunSame(calls, rests, r, k - 1); }
  }

  lemma {:induction false} TakenBySame(calls: seq<Call>, rests: seq<seq<int>>, r: seq<int>, k: nat)
    requires Fit(calls, rests) && Fit(calls, rests + [r]) && k <= |rests|
    ensures TakenBy(calls, rests + [r], k) == TakenBy(calls, rests, k)
  {
    if k > 0 { TakenBySame(calls, rests, r, k - 1); }
  }

  /** What the calls so far were answered; idle tells whether the stream has ended. STREAM_END answers
      a FINISH call that took all its input, and after it every call is refused. */
  ghost predicate Record(calls: seq<Call>, answers: seq<Answer>, rests: seq<seq<int>>, idle: bool) {
    && |answers| == |rests| && Fit(calls, rests)
    && (forall k :: 0 <= k < |answers| && answers[k] == StreamEnd ==>
          idle && calls[k].action == FinishAction && rests[k] == [])
    && forall j, k :: 0 <= j < k < |answers| && answers[j] == StreamEnd ==>
         answers[k] == SequenceError && rests[k] == calls[k].input
  }

  lemma RecordNone(calls: seq<Call>)
    ensures Record(calls, [], [], false) && Fit(calls, []) && TakenBy(calls, [], 0) == []
    ensures !LastByRun(calls, [], 0)
  {
  }

  lemma RecordStep(calls: seq<Call>, answers: seq<Answer>, rests: seq<seq<int>>, before: bool, a: Answer, r: seq<int>,
                   after: bool)
    requires Record(calls, answers, rests, before) && |answers| < |calls| && |r| <= |calls[|answers|].input|
    requires a == StreamEnd ==> after && calls[|answers|].action == FinishAction && r == []
    requires before ==> after && a == SequenceError && r == calls[|answers|].input
    ensures Record(calls, answers + [a], rests + [r], after) && |answers| == |rests| && Fit(calls, rests)
    ensures Fit(calls, rests + [r])
    ensures TakenBy(calls, rests + [r], |rests| + 1)
            == TakenBy(calls, rests, |rests|) + calls[|rests|].input[..|calls[|rests|].input| - |r|]
  {
    TakenBySame(calls, rests, r, |rests|);
  }

  lemma LastByRunStep(calls: seq<Call>, rests: seq<seq<int>>, r: seq<int>)
    requires Fit(calls, rests) && Fit(calls, rests + [r])
    ensures |rests| < |calls|
    ensures LastByRun(calls, rests + [r], |rests| + 1) ==
            if |r| < |calls[|rests|].input| then calls[|rests|].action == RunAction
            else LastByRun(calls, rests, |rests|)
  {
    LastByRunSame(calls, rests, r, |rests|);
    assert |rests + [r]| == |rests| + 1;
  }

  lemma RecordEnd(calls: seq<Call>, answers: seq<Answer>, rests: seq<seq<int>>, idle: bool)
    requires Record(calls, answers, rests, idle)
    ensures StreamEnd in answers ==> idle
  {
  }

  lemma CallBytes(calls: seq<Call>, i: nat)
    requires (forall k :: 0 <= k < |calls| ==> Bytes(calls[k].input)) && i < |calls|
    ensures Bytes(calls[i].input)
  {
  }

  /** Any sequence of calls on a new compressor, in any order and with any buffer sizes. The bytes put
      out when STREAM_END has come are one complete stream for the bytes taken in, in their order. */
  method RunCalls(s: EState, calls: seq<Call>) returns (answers: seq<Answer>, rests: seq<seq<int>>, given: seq<int>)
    requires s.Valid() && s.Resting() && s.mode == Running && s.Taken() == [] && s.Given() == [] && !s.everFlushed
    requires !s.lastByRun
    requires forall k :: 0 <= k < |calls| ==> Bytes(calls[k].input)
    modifies s, s.ri, s.ri.block, s.ri.inUse, s.w, s.w.zbits
    ensures |answers| == |rests| == |calls| && Record(calls, answers, rests, s.mode == Idle)
    ensures StreamEnd in answers ==> Complete(given, TakenBy(calls, rests, |calls|), s.ri.step, s.blockSize100k)
    ensures StreamEnd in answers && (forall k :: 0 <= k < |calls| ==> calls[k].action != FlushAction) ==>
              && Fit(calls, rests)
              && CompleteWhole(given, TakenBy(calls, rests, |calls|), s.ri.step, s.blockSize100k,
                               LastByRun(calls, rests, |calls|))
  {
    hide EState.Valid, EState.Given, EState.Taken, EState.FlushedOut, EState.Resting, Consumed, Complete, CompleteWhole,
      TakenBy, LastByRun, Record, Fit, Bytes, EState.Nearer, EState.Settled;
    answers, rests, given := [], [], [];
    s.ShapeHolds();
    s.PositionHolds();
    RecordNone(calls);
    for i := 0 to |calls|
      invariant |answers| == |rests| == i && Fit(calls, rests) && Record(calls, answers, rests, s.mode == Idle)
      invariant s.Valid() && s.Resting() && s.w.numZ <= s.w.zbits.Length && s.stateOutPos <= s.w.numZ
      invariant s.Given() == given && s.Taken() == TakenBy(calls, rests, i)
      invariant s.mode == Idle ==> Complete(s.Given(), s.Taken(), s.ri.step, s.blockSize100k)
      invariant s.mode == Idle && !s.everFlushed ==>
                  CompleteWhole(s.Given(), s.Taken(), s.ri.step, s.blockSize100k, s.lastByRun)
      invariant s.lastByRun == LastByRun(calls, rests, i)
      invariant s.everFlushed ==> exists k :: 0 <= k < i && calls[k].action == FlushAction
    {
      var c := calls[i];
      ghost var t, idle := s.Taken(), s.mode == Idle;
      CallBytes(calls, i);
      var answer, rest, out := s.Compress(c.action, c.input, c.avail);
      s.ShapeHolds();
      s.PositionHolds();
      ConsumedIs(c.input, rest, t, s.Taken());
      RecordStep(calls, answers, rests, idle, answer, rest, s.mode == Idle);
      LastByRunStep(calls, rests, rest);
      answers, rests, given := answers + [answer], rests + [rest], given + out;
    }
    RecordEnd(calls, answers, rests, s.mode == Idle);
  }

  lemma ConsumedIs(input: seq<int>, rest: seq<int>, before: seq<int>, after: seq<int>)
    requires Consumed(input, rest, before, after)
    ensures |rest| <= |input| && after == before + input[..|input| - |rest|]
  {
  }
}
