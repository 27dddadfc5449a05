/** The streaming decompressor: header, blocks, trailer, and what every call takes in and puts out. */
module Decompressor {
  import opened BitIO
  import opened Bits
  import opened BlockDecoder
  import opened BlockDecompressor
  import opened BlockParser
  import BwtTables
  import opened Checksums
  import opened ColumnDecoder
  import opened Counting
  import opened InverseBwt
  import opened Rle
  import opened StreamParser
  import opened UnRle
  import opened WholeBlockParser

  /* ---- From a column to its output ---- */

  /** Builds the packed table of the small decoder. */
  method PrepareSmall(col: Column, origPtr: nat)
    returns (t: BwtTables.PackedLinks, cftab: array<int>, ghost q: seq<int>, ghost l: seq<int>)
    requires col.Valid() && origPtr < col.nblock <= 0x10_0000
    ensures l == col.Got() && |l| == col.nblock && Within(l, 256) && Links(l, q)
    ensures fresh(t) && fresh(t.ll16) && fresh(t.ll4) && fresh(cftab)
    ensures Along(t, q, origPtr) && Starts(l, 256, cftab[..])
  {
    hide Within, Column.Valid, Rank, Links;
    cftab, l := ColumnStarts(col);
    q := LinksOf(l);
    LinkSize(l, q);
    var cftabCopy := new int[257];
    StartsLength(l, cftab[..]);
    for i := 0 to 257
      modifies cftabCopy
      invariant forall k :: 0 <= k < i ==> cftabCopy[k] == cftab[k]
    {
      cftabCopy[i] := cftab[i];
    }
    ghost var cf := cftab[..];
    t := new BwtTables.PackedLinks(col.nblock);
    CopyColumn(col, t, l);
    assert cftab[..] == cf && cftabCopy[..] == cf;
    BwtTables.ComputeRanks(t, cftabCopy, col.nblock, l);
    BwtTables.ReverseCycle(t, origPtr, col.nblock, l, q);
  }

  lemma StartsLength(l: seq<int>, cf: seq<int>)
    requires Starts(l, 256, cf)
    ensures |cf| == 257
  {
  }

  /** The small decoder stores the characters in ll16 as it reads them. */
  method CopyColumn(col: Column, t: BwtTables.PackedLinks, ghost l: seq<int>)
    requires col.nblock <= col.out.Length && l == col.Got() && Within(l, 256) && t.Valid()
    requires t.ll16.Length == col.nblock
    requires t.ll16 != col.out && t.ll16 != t.ll4
    modifies t.ll16
    ensures t.Valid() && t.ll16[..col.nblock] == l
  {
    for i := 0 to col.nblock
      invariant t.Valid() && forall k :: 0 <= k < i ==> t.ll16[k] == l[k]
    {
      assert 0 <= l[i] < 256;
      t.ll16[i] := col.out[i];
    }
  }

  /** For any last column and any origin: the packed table with its pointer reversal and binary search, and
      the 32-bit table, put out the same bytes and report the same, for a sequence of output sizes, exactly
      if the last run ends with the block or there is less room than the block has bytes. */
  method BothForms(col: Column, origPtr: nat, limit: nat, step: (Crc, int) -> Crc, sizes: seq<nat>)
    returns (outs1: seq<seq<int>>, bad1: bool, outs2: seq<seq<int>>, bad2: bool)
    requires col.Valid() && origPtr < col.nblock <= limit && col.nblock <= 0x10_0000
    modifies col.out
    ensures Within(old(col.Got()), 256) && |old(col.Got())| == col.nblock
    ensures var s, n := Letters(old(col.Got()), origPtr), col.nblock;
            (outs1 == outs2 && bad1 == bad2) <==> (EndsWell(s, n, 0) || Sum(sizes) < |Expand(s, n, 0)|)
    ensures outs1 == outs2 && bad1 == bad2 ==> !bad1 && |outs1| == |sizes|
  {
    hide Column.Valid, Within, Rank, Along, Starts, Expand, EndsWell, Readable, FastOutput.At, SmallOutput.Tables,
      Chars, Reading, Rest, Sum;
    ColumnSize(col);
    ghost var l, p, q, m;
    var t, cftab, tPos;
    t, cftab, q, l := PrepareSmall(col, origPtr);
    tPos, p, m := PrepareFast(col, origPtr);
    LettersAre(l, p, origPtr);
    LettersAre(l, q, origPtr);
    LinksUnique(l, p, q);
    OutputBegun(l, q, origPtr);
    var small := new SmallOutput(t, cftab, col.nblock, limit, step, l, q, origPtr);
    var fast := new FastOutput(col.out, col.nblock, limit, step, l, q, origPtr);
    small.Begin();
    fast.Begin();
    outs1, bad1, outs2, bad2 := RunBoth(fast, small, sizes);
  }

  lemma LettersAre(l: seq<int>, q: seq<int>, o: nat)
    requires Links(l, q) && o < |l| && Within(l, 256)
    ensures Letters(l, o) == Chars(l, q, o, |l| + 5) && Readable(Letters(l, o), |l|)
  {
    hide Links, Chars, Within, Readable;
    LinksUnique(l, q, LinksFor(l));
  }

  /** A block has something to put out. */
  lemma SomeOutput(s: seq<int>, n: nat)
    requires Readable(s, n) && n > 0
    ensures Expand(s, n, 0) != []
  {
    assert |Times(s[0], RunLength(s, n, 0))| >= 1;
  }

  /* ---- The state machine ---- */

  /** Where the decompressor stands: at the letters of the header, at the block size, at the first byte of
      a block or the trailer, in a block, putting out a block, at the letters of the trailer, at the
      stream's checksum; at the end; or past an error. */
  datatype Stage = AtMagic | AtSize | AtBlock | InBlock | Pouring | AtTrailer | AtTotal | Idle | Broken

  datatype Answer = Ok | StreamEnd | DataErr | MagicErr | SequenceErr | Randomised

  /** What a part of a call leads to. */
  datatype Step = GoOn | Stop(answer: Answer)

  class DState {
    const rd: BitReader
    const letters: LetterReader
    const number: NumberReader
    const block: BlockReader
    const smallDecompress: bool
    const step: (Crc, int) -> Crc
    var stage: Stage
    var blockSize100k: nat
    var calculatedCombinedCRC: Crc
    var fast: FastOutput?
    var slim: SmallOutput?

    /** The objects that hold a block's output. */
    ghost function Outlets(): (s: set<object>)
      reads `fast, `slim
      ensures this !in s && rd !in s && block !in s && letters !in s && number !in s
    {
      (if fast == null then {} else {fast, fast.tt})
      + (if slim == null then {} else {slim, slim.t, slim.t.ll16, slim.t.ll4, slim.cftab})
    }

    ghost function Reach(): set<object>
      reads `fast, `slim
    {
      {this, rd, letters, number, block} + block.Parts() + Outlets()
    }

    /** A block's output is under way. */
    ghost predicate Output()
      reads `fast, `slim, Outlets()
    {
      if smallDecompress then slim != null && slim.Valid() && slim.step == step
      else fast != null && fast.Valid() && fast.step == step
    }

    /** The bytes of the block still to come. */
    ghost function ToPour(): seq<int>
      requires Output()
      reads `fast, `slim, Outlets()
    {
      if smallDecompress then slim.Left() else fast.Left()
    }

    ghost predicate PourSound()
      requires Output()
      reads `fast, `slim, Outlets()
    {
      if smallDecompress then slim.Sound() else fast.Sound()
    }

    ghost function PourCrc(): Crc
      requires Output()
      reads `fast, `slim, Outlets()
    {
      if smallDecompress then slim.crc else fast.crc
    }

    /** The parts share one bit buffer. */
    ghost predicate Joint()
      reads rd, block.seqToUnseq
    {
      && letters.rd == rd && number.rd == rd && block.rd == rd && block.Shape() && rd.Valid()
      && Within(block.seqToUnseq[..], 256)
    }

    ghost predicate Valid()
      reads this, Reach()
    {
      && Joint() && (stage !in {AtMagic, AtSize, Idle, Broken} ==> 1 <= blockSize100k <= 9)
      && (stage in {AtMagic, AtSize} ==> calculatedCombinedCRC == 0)
      && (stage == InBlock ==> block.Valid() && block.size == blockSize100k) && (stage == Pouring ==> Output())
    }

    /** The end has not been reached, and no error has occurred. */
    ghost predicate Working()
      reads this, Reach()
    {
      Valid() && stage != Idle && stage != Broken
    }

    /** All that is still to come, for the bits not yet read: what bytes, and how it ends. */
    ghost function ToCome(): Meaning
      requires Working()
      reads this, Reach()
    {
      if stage == AtMagic then AfterMagic(step, letters.Outcome())
      else if stage == AtSize then SizeFrom(step, rd.Pending())
      else if stage == AtBlock then BlocksFrom(step, blockSize100k, calculatedCombinedCRC, rd.Pending())
      else if stage == InBlock then AfterBlock(step, blockSize100k, calculatedCombinedCRC, block.Outcome())
      else if stage == Pouring then PourToCome(rd.Pending())
      else if stage == AtTrailer then AfterTrailer(calculatedCombinedCRC, letters.Outcome())
      else AfterTotal(calculatedCombinedCRC, number.Outcome())
    }

    ghost function PourToCome(bits: seq<bool>): Meaning
      requires Output()
      reads `blockSize100k, `calculatedCombinedCRC, block`storedBlockCRC, `fast, `slim, Outlets()
    {
      OutputFrom(step, blockSize100k, calculatedCombinedCRC, block.storedBlockCRC, PourCrc(), ToPour(),
        PourSound(), bits)
    }

    /** BZ2_bzDecompressInit, with the bits that will come. */
    constructor (small: bool, step: (Crc, int) -> Crc, ghost future: seq<bool>)
      ensures Valid() && stage == AtMagic && fresh(Reach()) && this.step == step && rd.input == []
      ensures rd.future == future
      ensures smallDecompress == small && ToCome() == StreamFrom(step, future)
    {
      hide BlockReader.Parts, BlockReader.Shape, Within, LettersFrom, AfterMagic, Joint, Valid, ToCome,
        BitReader.Valid, BitReader.Pending;
      var r := new BitReader(future);
      rd := r;
      letters := new LetterReader(r);
      number := new NumberReader(r);
      block := new BlockReader(r);
      smallDecompress, this.step := small, step;
      stage, blockSize100k, calculatedCombinedCRC, fast, slim := AtMagic, 0, 0, null, null;
      new;
      letters.Begin([0x42, 0x5a, 0x68]);
      StillJoint();
      Simple();
    }

    /** A part of a call has led to s, where what was to come is before. */
    ghost predicate Stepped(s: Step, before: Meaning)
      reads this, Reach()
    {
      Valid() && match s
                 case GoOn => Working() && ToCome() == before
                 case Stop(Ok) =>
                   && Working() && ToCome() == before && rd.UsedUp()
                   && (rd.future == [] ==> before == Meaning([], Unfinished))
                 case Stop(StreamEnd) => stage == Idle && before == Meaning([], Finished)
                 case Stop(DataErr) => (stage == Idle || stage == Broken) && before == Meaning([], Corrupt)
                 case Stop(MagicErr) => stage == Broken && before == Meaning([], NotBzip2)
                 case Stop(Randomised) => stage == Broken && before == Meaning([], RandomisedBlock)
                 case Stop(SequenceErr) => false
    }

    lemma Parts()
      requires Joint()
      ensures rd.Valid() && letters.rd == rd && number.rd == rd && block.rd == rd && block.Shape()
      ensures Within(block.seqToUnseq[..], 256)
    {
    }

    lemma Simple()
      requires Joint() && stage in {AtMagic, AtSize, AtBlock, AtTrailer, AtTotal, Idle, Broken}
      requires if stage in {AtMagic, AtSize} then calculatedCombinedCRC == 0
               else stage in {Idle, Broken} || 1 <= blockSize100k <= 9
      ensures Valid() && letters.rd == rd && number.rd == rd && rd.Valid()
      ensures stage == AtMagic ==> ToCome() == AfterMagic(step, letters.Outcome())
      ensures stage == AtSize ==> ToCome() == SizeFrom(step, rd.Pending())
      ensures stage == AtBlock ==> ToCome() == BlocksFrom(step, blockSize100k, calculatedCombinedCRC, rd.Pending())
      ensures stage == AtTrailer ==> ToCome() == AfterTrailer(calculatedCombinedCRC, letters.Outcome())
      ensures stage == AtTotal ==> ToCome() == AfterTotal(calculatedCombinedCRC, number.Outcome())
    {
      hide BlockReader.Parts, BlockReader.Shape, Within, BitReader.Valid, BitReader.Pending, AfterMagic, SizeFrom,
        BlocksFrom, AfterTrailer, AfterTotal;
    }

    /** BZ_X_MAGIC_1 to 3 */
    method ReadMagic() returns (s: Step)
      requires Joint() && stage == AtMagic && calculatedCombinedCRC == 0
      modifies `stage, letters, rd`nextIn, rd`bsBuff, rd`bsLive
      ensures old(Working()) && Stepped(s, old(ToCome())) && (s == GoOn ==> stage == AtSize)
    {
      hide BlockReader.Parts, Joint, Valid, ToCome, BlockReader.Shape, Within, BitReader.Valid, BitReader.Pending,
        SizeFrom, LettersFrom;
      Simple();
      Parts();
      var st := letters.Resume();
      match st {
        case Done => stage, s := AtSize, GoOn;
        case Suspended => s := Stop(Ok);
        case DataError => stage, s := Broken, Stop(MagicErr);
      }
      StillJoint();
      Simple();
    }

    /** BZ_X_MAGIC_4 */
    method ReadSize() returns (s: Step)
      requires Joint() && stage == AtSize && calculatedCombinedCRC == 0
      modifies `stage, `blockSize100k, rd`nextIn, rd`bsBuff, rd`bsLive
      ensures old(Working()) && Stepped(s, old(ToCome())) && (s == GoOn ==> stage == AtBlock)
    {
      hide BlockReader.Parts, Joint, Valid, ToCome, BlockReader.Shape, Within, BitReader.Valid, BitReader.Pending,
        BlocksFrom, Value;
      Simple();
      Parts();
      var ok, uc := rd.GetBits(8);
      if !ok {
        s := Stop(Ok);
      } else if uc < 0x31 || uc > 0x39 {
        stage, s := Broken, Stop(MagicErr);
      } else {
        blockSize100k, stage, s := uc - 0x30, AtBlock, GoOn;
      }
      StillJoint();
      Simple();
    }

    /** BZ_X_BLKHDR_1: what follows is a block or the trailer. */
    method ReadFirstByte() returns (s: Step)
      requires Joint() && stage == AtBlock && 1 <= blockSize100k <= 9
      modifies `stage, letters, block`size, block`phase, block.letters, rd`nextIn, rd`bsBuff, rd`bsLive
      ensures old(Working()) && Stepped(s, old(ToCome())) && (s == GoOn ==> stage == InBlock || stage == AtTrailer)
      ensures |rd.Pending()| <= |old(rd.Pending())|
    {
      hide BlockReader.Parts, Joint, Valid, ToCome, BlockReader.Shape, Within, BitReader.Valid, BitReader.Pending,
        AfterBlock, AfterTrailer, LettersFrom, BlockFrom, Value, Stepped;
      Simple();
      Parts();
      var ok, uc := rd.GetBits(8);
      if !ok {
        s := Stop(Ok);
        ByteMissing();
      } else if uc == 0x17 {
        StartTrailer();
        s := GoOn;
        GoesOn();
      } else if uc != 0x31 {
        stage, s := Broken, Stop(DataErr);
        ByteWrong();
      } else {
        StartBlock();
        s := GoOn;
        GoesOn();
      }
    }

    lemma ByteMissing()
      requires rd.Valid() && letters.rd == rd && number.rd == rd && block.rd == rd && block.Shape()
      requires Within(block.seqToUnseq[..], 256) && stage == AtBlock && 1 <= blockSize100k <= 9
      requires rd.UsedUp() && (rd.future == [] ==> |rd.Pending()| < 8)
      ensures Stepped(Stop(Ok), BlocksFrom(step, blockSize100k, calculatedCombinedCRC, rd.Pending()))
    {
      hide BlockReader.Parts, Joint, Valid, ToCome, BlockReader.Shape, Within, BitReader.Valid, BitReader.Pending,
        AfterBlock, AfterTrailer, Value;
      StillJoint();
      Simple();
    }

    lemma ByteWrong()
      requires rd.Valid() && letters.rd == rd && number.rd == rd && block.rd == rd && block.Shape()
      requires Within(block.seqToUnseq[..], 256) && stage == Broken
      ensures Stepped(Stop(DataErr), Meaning([], Corrupt))
    {
      hide BlockReader.Parts, Joint, ToCome, BlockReader.Shape, Within, BitReader.Valid, BitReader.Pending;
      StillJoint();
      Simple();
    }

    lemma GoesOn()
      requires Working()
      ensures Stepped(GoOn, ToCome())
    {
      hide Valid, ToCome;
    }

    method StartTrailer()
      requires rd.Valid() && letters.rd == rd && number.rd == rd && block.rd == rd && block.Shape()
      requires Within(block.seqToUnseq[..], 256)
      requires 1 <= blockSize100k <= 9
      modifies `stage, letters
      ensures Working() && stage == AtTrailer
      ensures ToCome() == AfterTrailer(calculatedCombinedCRC, LettersFrom([0x72, 0x45, 0x38, 0x50, 0x90], rd.Pending()))
    {
      hide BlockReader.Parts, Joint, Valid, ToCome, BlockReader.Shape, Within, BitReader.Valid, BitReader.Pending,
        AfterTrailer, LettersFrom;
      letters.Begin([0x72, 0x45, 0x38, 0x50, 0x90]);
      stage := AtTrailer;
      StillJoint();
      Simple();
    }

    method StartBlock()
      requires rd.Valid() && letters.rd == rd && number.rd == rd && block.rd == rd && block.Shape()
      requires Within(block.seqToUnseq[..], 256)
      requires 1 <= blockSize100k <= 9
      modifies `stage, block`size, block`phase, block.letters
      ensures Working() && stage == InBlock && 1 <= blockSize100k <= 9
      ensures ToCome() == AfterBlock(step, blockSize100k, calculatedCombinedCRC, BlockFrom(blockSize100k, rd.Pending()))
    {
      hide BlockReader.Parts, Joint, Valid, ToCome, BlockReader.Shape, Within, BitReader.Valid, BitReader.Pending,
        AfterBlock, AfterLetters, LettersFrom, BlockReader.Valid, BlockReader.Outcome;
      stage := InBlock;
      block.Begin(blockSize100k, [0x41, 0x59, 0x26, 0x53, 0x59]);
      StillJoint();
      InBlockIs();
    }

    lemma InBlockIs()
      requires Joint() && stage == InBlock && 1 <= blockSize100k <= 9 && block.Valid() && block.size == blockSize100k
      ensures Working() && ToCome() == AfterBlock(step, blockSize100k, calculatedCombinedCRC, block.Outcome())
    {
      hide BlockReader.Parts, Joint, BlockReader.Valid, BlockReader.Outcome, AfterBlock;
    }

    /** BZ_X_ENDHDR_2 to 6 */
    method ReadTrailer() returns (s: Step)
      requires Joint() && stage == AtTrailer && 1 <= blockSize100k <= 9
      modifies `stage, letters, number, rd`nextIn, rd`bsBuff, rd`bsLive
      ensures old(Working()) && Stepped(s, old(ToCome())) && (s == GoOn ==> stage == AtTotal)
    {
      hide BlockReader.Parts, Joint, Valid, ToCome, BlockReader.Shape, Within, BitReader.Valid, BitReader.Pending,
        AfterTotal, LettersFrom, NumberFrom;
      Simple();
      Parts();
      var st := letters.Resume();
      match st {
        case Done =>
          number.Begin(4);
          stage, s := AtTotal, GoOn;
        case Suspended => s := Stop(Ok);
        case DataError => stage, s := Broken, Stop(DataErr);
      }
      StillJoint();
      Simple();
    }

    /** BZ_X_CCRC_1 to 4, and the comparison of the checksums. */
    method ReadTotal() returns (s: Step)
      requires Joint() && stage == AtTotal && 1 <= blockSize100k <= 9
      modifies `stage, number, rd`nextIn, rd`bsBuff, rd`bsLive
      ensures old(Working()) && Stepped(s, old(ToCome())) && s != GoOn
    {
      hide BlockReader.Parts, Joint, Valid, ToCome, BlockReader.Shape, Within, BitReader.Valid, BitReader.Pending,
        NumberFrom;
      Simple();
      Parts();
      NumberNeverWrong(number.left, number.value, rd.Pending());
      var st := number.Resume();
      if st != Done {
        s := Stop(Ok);
      } else {
        stage, s := Idle, Stop(if number.value == calculatedCombinedCRC then StreamEnd else DataErr);
      }
      StillJoint();
      Simple();
    }

    /** The output of the column l from row o has just begun. */
    ghost predicate Spells(l: seq<int>, o: nat)
      requires Output() && Within(l, 256) && o < |l|
      reads `fast, `slim, Outlets()
    {
      && ToPour() == Expand(Letters(l, o), |l|, 0) && (PourSound() <==> EndsWell(Letters(l, o), |l|, 0))
      && PourCrc() == INITIAL
      && Begun()
    }

    /** Sets up the output of a block from its column, in the small form. */
    method StartSmall(col: Column, origPtr: nat)
      requires col.Valid() && origPtr < col.nblock <= 100000 * blockSize100k && 1 <= blockSize100k <= 9
      requires smallDecompress
      modifies `slim
      ensures Output() && fast == old(fast) && fresh(slim)
      ensures col.nblock <= col.out.Length && Within(col.Got(), 256) && Spells(col.Got(), origPtr)
    {
      hide BlockReader.Parts, Column.Valid, Within, Links, Along, Starts, Expand, EndsWell, Readable,
        SmallOutput.Tables, Chars, Reading, Rest, Letters;
      ColumnSize(col);
      var t, cftab; ghost var q, l;
      t, cftab, q, l := PrepareSmall(col, origPtr);
      LettersAre(l, q, origPtr);
      LinkSize(l, q);
      OutputBegun(l, q, origPtr);
      slim := new SmallOutput(t, cftab, col.nblock, 100000 * blockSize100k, step, l, q, origPtr);
      slim.Begin();
    }

    /** Sets up the output of a block from its column, in the fast form, in the array of the column. */
    method StartFast(col: Column, origPtr: nat)
      requires col.Valid() && origPtr < col.nblock <= 100000 * blockSize100k && 1 <= blockSize100k <= 9
      requires !smallDecompress
      modifies `fast, col.out
      ensures Output() && slim == old(slim) && fresh(fast)
      ensures col.nblock <= col.out.Length && Within(old(col.Got()), 256) && Spells(old(col.Got()), origPtr)
    {
      hide BlockReader.Parts, Column.Valid, Within, Links, Starts, Expand, EndsWell, Readable, FastOutput.At, Chars,
        Reading, Rest, Letters;
      ColumnSize(col);
      var tPos; ghost var q, l;
      tPos, q, l := PrepareFast(col, origPtr);
      LettersAre(l, q, origPtr);
      LinkSize(l, q);
      OutputBegun(l, q, origPtr);
      fast := new FastOutput(col.out, col.nblock, 100000 * blockSize100k, step, l, q, origPtr);
      fast.Begin();
    }

    /** The end of BZ2_decompress for a block: its output can begin. */
    method StartOutput(ghost p: Parsed<Found>) returns (s: Step)
      requires rd.Valid() && letters.rd == rd && number.rd == rd && block.rd == rd && block.Shape()
      requires Within(block.seqToUnseq[..], 256)
      requires 1 <= blockSize100k <= 9 && block.size == blockSize100k && block.Ready(p)
      modifies `stage, `fast, `slim, block.columns.col.out
      ensures p.Got? ==> FoundOk(blockSize100k, p.value)
      ensures Stepped(s, AfterBlock(step, blockSize100k, calculatedCombinedCRC, p))
      ensures (s == GoOn ==> stage == Pouring && Output() && Begun())
      ensures (fast == old(fast) || fresh(fast)) && (slim == old(slim) || fresh(slim))
    {
      hide BlockReader.Parts, Joint, Valid, ToCome, Output, ToPour, PourSound, PourCrc, BlockReader.Shape, Within,
        BitReader.Valid, BitReader.Pending, Column.Valid, Expand, EndsWell, Readable, Letters, BlocksFrom, OutputFrom;
      ghost var l := p.value.column;
      ColumnFits(block.columns.col);
      BlockFound(block, p);
      NotOurs(block);
      if block.blockRandomised {
        stage, s := Broken, Stop(Randomised);
        StillJoint();
        Simple();
        return;
      }
      stage, s := Pouring, GoOn;
      if smallDecompress {
        StartSmall(block.columns.col, block.origPtr);
      } else {
        StartFast(block.columns.col, block.origPtr);
      }
      StillJoint();
      PouringIs();
      assert Spells(l, block.origPtr);
    }

    lemma PouringIs()
      requires Joint() && stage == Pouring && 1 <= blockSize100k <= 9 && Output()
      ensures Working() && ToCome() == PourToCome(rd.Pending())
    {
      hide BlockReader.Parts, Joint, Output;
    }

    /** BZ2_decompress within a block, from where it stopped. */
    method ReadBlock() returns (s: Step)
      requires Joint() && stage == InBlock && 1 <= blockSize100k <= 9 && block.Valid() && block.size == blockSize100k
      modifies `stage, `fast, `slim, block, block.Parts(), rd`nextIn, rd`bsBuff, rd`bsLive
      ensures old(Working()) && Stepped(s, old(ToCome())) && (s == GoOn ==> stage == Pouring && Output() && Begun())
      ensures (fast == old(fast) || fresh(fast)) && (slim == old(slim) || fresh(slim))
    {
      hide Joint, Valid, ToCome, Output, ToPour, BlockReader.Shape, BlockReader.Valid, BlockReader.Outcome, Within,
        BitReader.Valid, BitReader.Pending, AfterBlock, BlockReader.Ready, BlockReader.Went, Stepped;
      InBlockIs();
      Parts();
      ghost var p := block.Outcome();
      var st := block.Resume();
      match st {
        case Done =>
          s := StartOutput(p);
        case Suspended =>
          s := Stop(Ok);
          BlockWaits(p);
        case DataError =>
          stage, s := Broken, Stop(DataErr);
          BlockFails();
      }
    }

    lemma BlockWaits(p: Parsed<Found>)
      requires letters.rd == rd && number.rd == rd && block.rd == rd && block.Shape() && rd.Valid()
      requires Within(block.seqToUnseq[..], 256)
      requires stage == InBlock && 1 <= blockSize100k <= 9 && block.size == blockSize100k && block.Went(Suspended, p)
      ensures p.Got? ==> FoundOk(blockSize100k, p.value)
      ensures Stepped(Stop(Ok), AfterBlock(step, blockSize100k, calculatedCombinedCRC, p))
    {
      hide BlockReader.Parts, Joint, Valid, ToCome, Output, BlockReader.Shape, BlockReader.Valid, BlockReader.Outcome,
        Within, BitReader.Valid, BitReader.Pending, AfterBlock;
      NoBlock(step, blockSize100k, calculatedCombinedCRC);
      StillJoint();
      InBlockIs();
    }

    lemma BlockFails()
      requires letters.rd == rd && number.rd == rd && block.rd == rd && block.Shape() && rd.Valid()
      requires Within(block.seqToUnseq[..], 256)
      requires stage == Broken
      ensures Stepped(Stop(DataErr), AfterBlock(step, blockSize100k, calculatedCombinedCRC, Wrong))
    {
      hide BlockReader.Parts, Joint, Valid, ToCome, Output, BlockReader.Shape, Within, BitReader.Valid,
        BitReader.Pending, AfterBlock;
      NoBlock(step, blockSize100k, calculatedCombinedCRC);
      StillJoint();
      Simple();
    }

    lemma Known()
      requires Valid()
      ensures Joint() && (stage in {AtMagic, AtSize} ==> calculatedCombinedCRC == 0)
      ensures stage !in {AtMagic, AtSize, Idle, Broken} ==> 1 <= blockSize100k <= 9
      ensures stage == InBlock ==> block.Valid() && block.size == blockSize100k
      ensures stage == Pouring ==> Output()
    {
      hide BlockReader.Parts, Joint, Output, BlockReader.Valid;
    }

    lemma Going(before: Meaning)
      requires Stepped(GoOn, before)
      ensures Working() && ToCome() == before
    {
      hide BlockReader.Parts, Valid, ToCome;
    }

    /** BZ2_decompress up to the first block or the trailer. */
    method ReadHeader() returns (s: Step)
      requires Working() && stage in {AtMagic, AtSize}
      modifies `stage, `blockSize100k, letters, rd`nextIn, rd`bsBuff, rd`bsLive
      ensures Stepped(s, old(ToCome())) && (s == GoOn ==> stage == AtBlock)
    {
      hide BlockReader.Parts, Valid, Joint, ToCome, Stepped, BitReader.Pending, BitReader.Valid;
      ghost var p := ToCome();
      Known();
      if stage == AtMagic {
        s := ReadMagic();
        if s != GoOn { return; }
        Going(p);
        Known();
      }
      s := ReadSize();
    }

    /** BZ2_decompress in the trailer. */
    method ReadEnd() returns (s: Step)
      requires Working() && stage in {AtTrailer, AtTotal}
      modifies `stage, letters, number, rd`nextIn, rd`bsBuff, rd`bsLive
      ensures Stepped(s, old(ToCome())) && s != GoOn
    {
      hide BlockReader.Parts, Valid, Joint, ToCome, Stepped, BitReader.Pending, BitReader.Valid;
      ghost var p := ToCome();
      Known();
      if stage == AtTrailer {
        s := ReadTrailer();
        if s != GoOn { return; }
        Going(p);
        Known();
      }
      s := ReadTotal();
    }

    /** BZ2_decompress, up to the point where a block's output can begin, the stream ends, or input is wanted. */
    method ToNextBlock() returns (s: Step)
      requires Working() && stage != Pouring
      modifies `stage, `blockSize100k, `fast, `slim, letters, number, block, block.Parts(), rd`nextIn, rd`bsBuff
      modifies rd`bsLive
      ensures Stepped(s, old(ToCome())) && (s == GoOn ==> stage == Pouring && Output() && Begun())
      ensures (fast == old(fast) || fresh(fast)) && (slim == old(slim) || fresh(slim))
    {
      hide Valid, Joint, ToCome, Stepped, BitReader.Pending, BitReader.Valid, Output, ToPour;
      ghost var p := ToCome();
      if stage in {AtMagic, AtSize} {
        s := ReadHeader();
        if s != GoOn { return; }
        Going(p);
      }
      if stage == AtBlock {
        Known();
        s := ReadFirstByte();
        if s != GoOn { return; }
        Going(p);
      }
      if stage == InBlock {
        Known();
        s := ReadBlock();
        if s == GoOn { Going(p); Known(); }
      } else {
        s := ReadEnd();
      }
    }

    /** One call of the output routine. */
    method Pour(avail: nat) returns (corrupt: bool, out: seq<int>, blockDone: bool)
      requires Joint() && Output()
      modifies fast, slim
      ensures Joint() && Output() && PourSound() == old(PourSound()) && |out| <= avail
      ensures corrupt ==>
                && !PourSound()
                && (if smallDecompress then out == old(ToPour()) else out == [] && ToPour() == old(ToPour()))
      ensures !corrupt ==> Delivered(old(ToPour()), out, ToPour(), avail, step, old(PourCrc()), PourCrc())
      ensures !corrupt && blockDone ==> PourSound() && ToPour() == []
      ensures !corrupt && !blockDone ==> |out| == avail && (PourSound() ==> ToPour() != [])
      ensures corrupt <==> !PourSound() && if smallDecompress then |old(ToPour())| < avail else |old(ToPour())| <= avail
    {
      hide BlockReader.Parts, Joint, Delivered, SmallOutput.Tables, FastOutput.At, Rest, Reading, BitReader.Valid,
        EndsWell;
      ghost var crc0 := PourCrc();
      if smallDecompress {
        ghost var before := slim.Left();
        corrupt, out := slim.UnRle(avail);
        blockDone := slim.used == slim.nblock + 1 && slim.outLen == 0;
        DeliveredSize(before, out, slim.Left(), avail, step, crc0, slim.crc);
        if corrupt { DeliveredAll(before, out, slim.Left(), avail, step, crc0, slim.crc); }
        PouredTo(slim.s, slim.nblock, slim.used, slim.k0, slim.outCh, slim.outLen);
      } else {
        corrupt, out := fast.UnRle(avail);
        blockDone := fast.used == fast.nblock + 1 && fast.outLen == 0;
        PouredTo(fast.s, fast.nblock, fast.used, fast.k0, fast.outCh, fast.outLen);
      }
    }

    /** The end of a block: its checksum must be the stored one, and enters the stream's. */
    method FinishBlock() returns (s: Step)
      requires Joint() && stage == Pouring && 1 <= blockSize100k <= 9 && Output() && ToPour() == [] && PourSound()
      modifies `stage, `calculatedCombinedCRC
      ensures old(Working()) && Stepped(s, old(ToCome()))
      ensures if s == GoOn then stage == AtBlock else s == Stop(DataErr) && stage == Broken
    {
      hide BlockReader.Parts, Joint, Valid, ToCome, Combine, BlocksFrom, SmallOutput.Valid, FastOutput.Valid,
        BitReader.Valid, BitReader.Pending;
      PouringIs();
      ghost var crc := PourCrc();
      NothingFolded(step, crc);
      var calculatedBlockCRC := Complement(if smallDecompress then slim.crc else fast.crc);
      if calculatedBlockCRC != block.storedBlockCRC {
        stage, s := Broken, Stop(DataErr);
      } else {
        calculatedCombinedCRC := Combine(calculatedCombinedCRC, calculatedBlockCRC);
        stage, s := AtBlock, GoOn;
      }
      Simple();
    }

    /** The block in hand stops in the middle of a run: the small form has put out all of its bytes, the
        fast one none of those of the last call. */
    ghost predicate Lost(m: Meaning, out: seq<int>, room: nat)
      reads `fast, `slim, Outlets()
    {
      && Output() && m.final == IllEnded
      && if smallDecompress then m.bytes == out && |m.bytes| < room else m.bytes == out + ToPour() && |m.bytes| <= room
    }

    /** A block's output has just begun, or is at least not over; one that ends in the middle of a run has
        four bytes or more. */
    ghost predicate Begun()
      requires Output()
      reads `fast, `slim, Outlets()
    {
      ToPour() != [] && (PourSound() || |ToPour()| >= 4)
    }

    /** A part of a call has put out bytes and led to s, where what was to come is m. */
    ghost predicate Poured(s: Step, out: seq<int>, avail: nat, m: Meaning)
      reads this, Reach()
    {
      |out| <= avail
      && match s
         case GoOn => Working() && stage == AtBlock && m == Prepend(out, ToCome())
         case Stop(Ok) => Working() && stage == Pouring && Output() && m == Prepend(out, ToCome()) && |out| == avail
                          && (PourSound() ==> ToPour() != [])
         case Stop(DataErr) => Valid() && stage == Broken && (m == Meaning(out, Corrupt) || Lost(m, out, avail))
         case _ => false
    }

    /** One block's part of a call: some of its output, and when it is done its checksum. */
    method PourStep(avail: nat) returns (s: Step, out: seq<int>)
      requires Working() && stage == Pouring && Output()
      modifies `stage, `calculatedCombinedCRC, fast, slim
      ensures Poured(s, out, avail, old(ToCome())) && (s == GoOn ==> out == old(ToPour()))
      ensures s == Stop(DataErr) && old(Begun()) ==> FourAtLeast(DataErr, old(ToCome()))
    {
      hide BlockReader.Parts, Valid, Joint, ToCome, Delivered, Output, ToPour, PourSound, PourCrc, Outlets, OutputFrom;
      Known();
      Parts();
      PouringIs();
      ghost var m, p, crc0, bits := ToCome(), ToPour(), PourCrc(), rd.Pending();
      var corrupt, blockDone;
      corrupt, out, blockDone := Pour(avail);
      PouringIs();
      if corrupt {
        IllEndedNow(step, blockSize100k, calculatedCombinedCRC, block.storedBlockCRC, crc0, p, bits);
        Break();
        return Stop(DataErr), out;
      }
      Moves(step, blockSize100k, calculatedCombinedCRC, block.storedBlockCRC, crc0, p, out, ToPour(), avail,
        PourCrc(), PourSound(), bits);
      if !blockDone { return Stop(Ok), out; }
      assert out + [] == out;
      s := FinishBlock();
    }

    /** There was no more room, and there is more to come. */
    ghost predicate Filled(out: seq<int>, room: nat)
      requires Working()
      reads this, Reach()
    {
      |out| == room && (ToCome().bytes != [] || ToCome().final == IllEnded)
    }

    /** A call has put out bytes and answered, where what was to come is m. */
    ghost predicate Answered(answer: Answer, out: seq<int>, room: nat, m: Meaning)
      reads this, Reach()
    {
      Valid() && |out| <= room
      && match answer
         case Ok => Working() && m == Prepend(out, ToCome())
                    && (Filled(out, room) || (rd.UsedUp() && (rd.future == [] ==> ToCome() == Meaning([], Unfinished))))
         case StreamEnd => stage == Idle && m == Meaning(out, Finished)
         case DataErr => (stage == Idle || stage == Broken) && (m == Meaning(out, Corrupt) || Lost(m, out, room))
         case MagicErr => stage == Broken && m == Meaning(out, NotBzip2)
         case Randomised => stage == Broken && m == Meaning(out, RandomisedBlock)
         case SequenceErr => false
    }

    /** If a call that did not begin within a block has lost bytes, it has lost four or more. */
    ghost predicate FourAtLeast(answer: Answer, m: Meaning)
      reads this, Outlets()
    {
      answer == DataErr && m.final == IllEnded ==> Output() && (smallDecompress || |ToPour()| >= 4)
    }

    /** The loop of BZ2_bzDecompress. */
    method Run(room: nat) returns (answer: Answer, out: seq<int>)
      requires Working()
      modifies this, letters, number, block, block.Parts(), rd`nextIn, rd`bsBuff, rd`bsLive, fast, slim
      ensures Answered(answer, out, room, old(ToCome()))
      ensures (old(stage) != Pouring ==> FourAtLeast(answer, old(ToCome())))
      ensures (fast == old(fast) || fresh(fast)) && (slim == old(slim) || fresh(slim))
    {
      hide BlockReader.Parts, Valid, Joint, ToCome, Output, ToPour, PourSound, Outlets, Stepped, Poured, Answered,
        BitReader.Valid, BitReader.Pending, Lost;
      ghost var m := ToCome();
      out := [];
      NothingPut(m);
      Known();
      while true
        invariant Working() && |out| <= room && m == Prepend(out, ToCome()) && (stage == Pouring ==> Output())
        invariant (fast == old(fast) || fresh(fast)) && (slim == old(slim) || fresh(slim))
        invariant stage == Pouring && old(stage) != Pouring ==> Begun()
        decreases room - |out|, !(stage == Pouring && ToPour() != [])
      {
        ghost var now := ToCome();
        var s, put := GoOn, [];
        if stage == Pouring {
          s, put := PourStep(room - |out|);
          AfterPour(s, put, room - |out|, now, out, room, m);
          out := out + put;
          match s {
            case GoOn =>
            case Stop(a) => return a, out;
          }
          now := ToCome();
        }
        s := ToNextBlock();
        match s {
          case GoOn => Going(now);
          case Stop(a) =>
            AfterStep(a, now, out, room, m);
            return a, out;
        }
      }
    }

    /** A call that stops while a block is put out. */
    lemma AfterPour(s: Step, put: seq<int>, avail: nat, now: Meaning, out: seq<int>, room: nat, m: Meaning)
      requires Poured(s, put, avail, now) && m == Prepend(out, now) && |out| + avail == room
      ensures |put| <= avail && (s == GoOn ==> Working() && stage == AtBlock && m == Prepend(out + put, ToCome()))
      ensures s.Stop? ==> Answered(s.answer, out + put, room, m)
    {
      hide BlockReader.Parts, Valid, ToCome, Output, ToPour, PourSound, Outlets, BitReader.Valid;
      match s {
        case GoOn => PutOn(out, put, ToCome());
        case Stop(Ok) =>
          PutOn(out, put, ToCome());
          MoreToPour();
        case Stop(DataErr) =>
          if Lost(now, put, avail) && !smallDecompress { assert out + (put + ToPour()) == (out + put) + ToPour(); }
        case _ =>
      }
    }

    lemma MoreToPour()
      requires Working() && stage == Pouring && Output() && (PourSound() ==> ToPour() != [])
      ensures ToCome().bytes != [] || ToCome().final == IllEnded
    {
      hide BlockReader.Parts, Valid, ToCome, Output, ToPour, PourSound, Outlets, BitReader.Valid, Joint, BlocksFrom,
        Fold, Combine;
      Known();
      Parts();
      PouringIs();
    }

    /** A call that stops between the blocks. */
    lemma AfterStep(answer: Answer, now: Meaning, out: seq<int>, room: nat, m: Meaning)
      requires Stepped(Stop(answer), now) && m == Prepend(out, now) && |out| <= room
      ensures Answered(answer, out, room, m) && (answer == DataErr ==> m.final == Corrupt)
    {
      hide BlockReader.Parts, Valid, ToCome;
      assert out + [] == out;
    }

    /** Moving input into and out of the buffer changes nothing. */
    twostate lemma ToComeKept()
      requires old(Working()) && unchanged(this, letters, number, block) && unchanged(block.Parts())
      requires unchanged(Outlets())
      requires rd.Valid() && rd.Pending() == old(rd.Pending())
      ensures Working() && ToCome() == old(ToCome())
    {
      hide BitReader.Valid, BitReader.Pending, BlockReader.Valid, BlockReader.Outcome, BlockReader.Shape, Within,
        AfterMagic, SizeFrom, BlocksFrom, AfterBlock, AfterTrailer, AfterTotal, OutputFrom, Output, ToPour, PourSound,
        PourCrc, LettersFrom, NumberFrom;
      if stage == InBlock { OutcomeKept(block); }
      assert block.seqToUnseq[..] == old(block.seqToUnseq[..]);
      assert stage == Pouring ==> Output() && ToPour() == old(ToPour());
    }

    twostate lemma ValidKept()
      requires old(Valid()) && !old(Working()) && unchanged(this, letters, number, block) && unchanged(block.Parts())
      requires rd.Valid()
      ensures Valid()
    {
      hide BitReader.Valid, BitReader.Pending, BlockReader.Valid, BlockReader.Outcome, BlockReader.Shape, Within;
      assert block.seqToUnseq[..] == old(block.seqToUnseq[..]);
    }

    /** A call has put out bytes, left rest of its input, and answered, where what was to come is m. On Ok
        there was no more room and there is more to come; or there is no more input, and if none is to come
        at all, nothing more comes of it. */
    ghost predicate Called(answer: Answer, out: seq<int>, room: nat, rest: seq<int>, m: Meaning)
      reads this, Reach()
    {
      Valid() && |out| <= room
      && match answer
         case Ok => Working() && m == Prepend(out, ToCome())
                    && (Filled(out, room) || (rest == [] && (rd.future == [] ==> ToCome() == Meaning([], Unfinished))))
         case StreamEnd => stage == Idle && m == Meaning(out, Finished)
         case DataErr => (stage == Idle || stage == Broken) && (m == Meaning(out, Corrupt) || Lost(m, out, room))
         case MagicErr => stage == Broken && m == Meaning(out, NotBzip2)
         case Randomised => stage == Broken && m == Meaning(out, RandomisedBlock)
         case SequenceErr => false
    }

    /** BZ2_bzDecompress. Whatever the input, a call takes some of it and puts out some of what is to come;
        the next call goes on where it stopped. */
    method Decompress(input: seq<int>, room: nat, ghost later: seq<bool>)
      returns (answer: Answer, rest: seq<int>, out: seq<int>)
      requires Valid() && stage != Broken && rd.input == [] && Bytes(input) && rd.future == ByteBits(input) + later
      modifies this, letters, number, block, block.Parts(), rd, fast, slim
      ensures Valid() && rd.input == [] && Bytes(rest) && rd.future == ByteBits(rest) + later
      ensures |rest| <= |input| && rest == input[|input| - |rest|..]
      ensures (fast == old(fast) || fresh(fast)) && (slim == old(slim) || fresh(slim))
      ensures if old(stage) == Idle then answer == SequenceErr && rest == input && out == [] && stage == Idle
              else
                && Called(answer, out, room, rest, old(ToCome()))
                && (old(stage) != Pouring ==> FourAtLeast(answer, old(ToCome())))
    {
      hide BlockReader.Parts, Valid, Joint, ToCome, Answered, Called, Outlets, BitReader.Valid, BitReader.Pending,
        ByteBits, Bytes;
      if stage == Idle { return SequenceErr, input, []; }
      answer, rest, out := Serve(input, room, later);
      CalledValid(answer, out, room, rest, old(ToCome()));
    }

    /** A call that has something to do. */
    method Serve(input: seq<int>, room: nat, ghost later: seq<bool>)
      returns (answer: Answer, rest: seq<int>, out: seq<int>)
      requires Working() && rd.input == [] && Bytes(input) && rd.future == ByteBits(input) + later
      modifies this, letters, number, block, block.Parts(), rd, fast, slim
      ensures rd.input == [] && Bytes(rest) && rd.future == ByteBits(rest) + later
      ensures |rest| <= |input| && rest == input[|input| - |rest|..]
      ensures (fast == old(fast) || fresh(fast)) && (slim == old(slim) || fresh(slim))
      ensures Called(answer, out, room, rest, old(ToCome()))
      ensures (old(stage) != Pouring ==> FourAtLeast(answer, old(ToCome())))
    {
      hide BlockReader.Parts, Valid, Joint, ToCome, Answered, Called, Outlets, BitReader.Valid, BitReader.Pending,
        ByteBits, Bytes, Output, ToPour, FourAtLeast;
      ghost var m := ToCome();
      Known();
      Parts();
      TakeIn(input, later);
      answer, out := Run(room);
      rest := HandBack(answer, out, room, m);
    }

    lemma CalledValid(answer: Answer, out: seq<int>, room: nat, rest: seq<int>, m: Meaning)
      requires Called(answer, out, room, rest, m)
      ensures Valid()
    {
      hide BlockReader.Parts, Valid, ToCome, Output;
    }

    method TakeIn(input: seq<int>, ghost later: seq<bool>)
      requires Working() && rd.Valid() && rd.input == [] && Bytes(input) && rd.future == ByteBits(input) + later
      modifies rd
      ensures Working() && ToCome() == old(ToCome()) && rd.input == input && rd.future == later
    {
      hide Valid, ToCome, BitReader.Valid, BitReader.Pending, ByteBits, Bytes;
      Known();
      Parts();
      rd.Offer(input, later);
      ToComeKept();
    }

    /** What is left of the input goes back to the caller. */
    method Return() returns (rest: seq<int>)
      requires Valid()
      modifies rd
      ensures Valid() && rd.input == [] && Bytes(rest) && rd.future == ByteBits(rest) + old(rd.future)
      ensures |rest| <= |old(rd.input)| && rest == old(rd.input)[|old(rd.input)| - |rest|..]
      ensures (old(rd.UsedUp()) ==> rest == [])
      ensures old(Working()) ==> Working() && ToCome() == old(ToCome())
    {
      hide Joint, Valid, ToCome, BitReader.Valid, BitReader.Pending, ByteBits, Bytes, Output, ToPour;
      Known();
      Parts();
      InputKnown(rd);
      BytesFrom(rd.input, rd.nextIn);
      rest := rd.Withdraw();
      if old(Working()) { ToComeKept(); } else { ValidKept(); }
    }

    method HandBack(ghost answer: Answer, ghost out: seq<int>, ghost room: nat, ghost m: Meaning)
      returns (rest: seq<int>)
      requires Answered(answer, out, room, m)
      modifies rd
      ensures Called(answer, out, room, rest, m) && (old(FourAtLeast(answer, m)) ==> FourAtLeast(answer, m))
      ensures rd.input == [] && Bytes(rest) && rd.future == ByteBits(rest) + old(rd.future)
      ensures |rest| <= |old(rd.input)| && rest == old(rd.input)[|old(rd.input)| - |rest|..]
    {
      hide BlockReader.Parts, Joint, Valid, ToCome, BitReader.Valid, BitReader.Pending, ByteBits, Bytes, Output, ToPour;
      AnsweredValid(answer, out, room, m);
      rest := Return();
      if old(Output()) { OutputKept(); }
    }

    twostate lemma OutputKept()
      requires unchanged(this) && unchanged(Outlets()) && old(Output())
      ensures Output() && ToPour() == old(ToPour())
    {
    }

    lemma AnsweredValid(answer: Answer, out: seq<int>, room: nat, m: Meaning)
      requires Answered(answer, out, room, m)
      ensures Valid() && Joint() && rd.Valid() && (answer == Ok <==> Working())
    {
      hide BlockReader.Parts, ToCome, Output, BlockReader.Valid;
    }

    method Break()
      requires Joint() && Output()
      modifies `stage
      ensures Valid() && stage == Broken && Output() && ToPour() == old(ToPour())
    {
      hide BlockReader.Parts, Valid, Joint, ToCome, Output, ToPour, Outlets;
      Ours();
      stage := Broken;
      Simple();
    }

    lemma Ours()
      ensures this !in Outlets()
    {
    }

    lemma StillJoint()
      requires rd.Valid() && letters.rd == rd && number.rd == rd && block.rd == rd && block.Shape()
      requires Within(block.seqToUnseq[..], 256)
      ensures Joint()
    {
    }
  }

  lemma NoBlock(step: (Crc, int) -> Crc, size: nat, c: Crc)
    ensures AfterBlock(step, size, c, Partial) == Meaning([], Unfinished)
    ensures AfterBlock(step, size, c, Wrong) == Meaning([], Corrupt)
  {
  }

  lemma BlockFound(b: BlockReader, p: Parsed<Found>)
    requires b.Ready(p)
    ensures b.columns.col.nblock <= b.columns.col.out.Length
    ensures p == Got(Found(b.Start(), b.columns.col.Got()), b.rd.Pending())
    ensures Within(b.columns.col.Got(), 256) && |b.columns.col.Got()| == b.columns.col.nblock
    ensures FoundOk(b.size, p.value)
  {
    hide BitReader.Pending;
  }

  lemma NotOurs(b: BlockReader)
    requires b.Shape()
    ensures b.seqToUnseq != b.columns.col.out
  {
  }

  lemma {:induction false} NumberNeverWrong(m: nat, v: nat, bits: seq<bool>)
    ensures NumberFrom(m, v, bits) != Wrong
  {
    hide Value;
    if m > 0 && |bits| >= 8 { NumberNeverWrong(m - 1, 256 * v + Value(bits[..8]), bits[8..]); }
  }

  /** Putting out bytes takes them from the front of what is to come. */
  lemma Moves(step: (Crc, int) -> Crc, size: nat, c: Crc, stored: nat, crc0: Crc, before: seq<int>, out: seq<int>,
              after: seq<int>, avail: nat, crc: Crc, ends: bool, bits: seq<bool>)
    requires Delivered(before, out, after, avail, step, crc0, crc)
    ensures before == out + after && |out| <= avail
    ensures OutputFrom(step, size, c, stored, crc0, before, ends, bits) ==
            Prepend(out, OutputFrom(step, size, c, stored, crc, after, ends, bits))
  {
    hide BlocksFrom, Combine, Fold;
    FoldJoin(step, crc0, out, after);
    var b := BlocksFrom(step, size, Combine(c, Complement(Fold(step, crc, after))), bits);
    assert (out + after) + b.bytes == out + (after + b.bytes);
  }

  lemma InputKnown(rd: BitReader)
    requires rd.Valid()
    ensures rd.nextIn <= |rd.input| && Bytes(rd.input)
  {
  }

  lemma BytesFrom(s: seq<int>, k: int)
    requires Bytes(s) && 0 <= k <= |s|
    ensures Bytes(s[k..])
  {
  }

  lemma PutOn(out: seq<int>, put: seq<int>, m: Meaning)
    ensures Prepend(out, Prepend(put, m)) == Prepend(out + put, m)
  {
    assert out + (put + m.bytes) == (out + put) + m.bytes;
  }

  lemma NothingPut(m: Meaning)
    ensures Prepend([], m) == m
  {
    assert [] + m.bytes == m.bytes;
  }

  lemma IllEndedNow(step: (Crc, int) -> Crc, size: nat, c: Crc, stored: nat, crc0: Crc, left: seq<int>, bits: seq<bool>)
    ensures OutputFrom(step, size, c, stored, crc0, left, false, bits) == Meaning(left, IllEnded)
    ensures [] + left == left
  {
  }

  /** Whether a block is done, and what is left of it. */
  lemma PouredTo(s: seq<int>, n: nat, used: nat, k0: int, ch: int, len: nat)
    requires Reading(s, n, used, k0)
    ensures Readable(s, n) && used >= 1
    ensures used == n + 1 && len == 0 ==> Rest(s, n, used, ch, len) == [] && EndsWell(s, n, used - 1)
    ensures (used != n + 1 || len > 0) && EndsWell(s, n, used - 1) ==> Rest(s, n, used, ch, len) != []
  {
    hide Expand, EndsWell;
    NoRun(s, n, used, ch, ch);
    if used != n + 1 || len > 0 { SomethingLeft(s, n, used, k0, ch, len); }
  }

  lemma DeliveredAll(before: seq<int>, out: seq<int>, after: seq<int>, avail: nat, step: (Crc, int) -> Crc, crc0: Crc,
                     crc: Crc)
    requires Delivered(before, out, after, avail, step, crc0, crc) && |before| < avail
    requires (|out| == avail || after == [])
    ensures out == before
  {
    assert out + [] == out;
  }

  /** With nothing left to put out, the checksum stays, and the rest of the stream is all that comes. */
  lemma NothingFolded(step: (Crc, int) -> Crc, crc: Crc)
    ensures Fold(step, crc, []) == crc && forall m: Meaning :: Prepend([], m) == m
  {
    forall m: Meaning ensures Prepend([], m) == m { assert [] + m.bytes == m.bytes; }
  }

  lemma ColumnSize(col: Column)
    requires col.Valid()
    ensures col.nblock <= col.out.Length
  {
  }

  lemma OutputBegun(l: seq<int>, q: seq<int>, o: nat)
    requires Links(l, q) && o < |l| && Within(l, 256)
    ensures Readable(Chars(l, q, o, |l| + 5), |l|) && Expand(Chars(l, q, o, |l| + 5), |l|, 0) != []
    ensures EndsWell(Chars(l, q, o, |l| + 5), |l|, 0) || |Expand(Chars(l, q, o, |l| + 5), |l|, 0)| >= 4
  {
    CharsReadable(l, q, o);
    SomeOutput(Chars(l, q, o, |l| + 5), |l|);
    LongEnd(Chars(l, q, o, |l| + 5), |l|, 0);
  }

  /** A block that stops in the middle of a run has that run's four equal bytes. */
  lemma {:induction false} LongEnd(s: seq<int>, n: nat, i: nat)
    requires Readable(s, n) && i <= n
    ensures EndsWell(s, n, i) || |Expand(s, n, i)| >= 4
    decreases n + 5 - i
  {
    if i < n {
      if NextRun(s, n, i) <= n { LongEnd(s, n, NextRun(s, n, i)); }
    }
  }
}
