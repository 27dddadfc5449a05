/** Decompressing one block, and the round trip of a whole block. */
module BlockDecompressor {
  import opened BitIO
  import opened Bits
  import opened BlockCompressor
  import opened BlockDecoder
  import opened BlockFormat
  import opened BlockParser
  import BlockSort
  import BwtTables
  import opened ColumnDecoder
  import opened ColumnParser
  import opened Counting
  import opened HuffmanTree
  import opened InverseBwt
  import MainCompare
  import opened MoveToFront
  import opened MtfEncoder
  import opened Powers
  import opened SlidingMtf
  import opened SymbolDecoder
  import opened SymbolParser
  import opened WholeBlockParser

  /* ---- Reading a block ---- */

  /** Where the reading of a block stands. */
  datatype Phase = AtLetters | AtCrc | AtRandomBit | AtOrigin | InMap | InSelectors | InTables | InColumn

  /** Reading a block, from its header to its last column. It can stop wherever it waits for bits, and
      goes on from there. */
  class BlockReader {
    const rd: BitReader
    const letters: LetterReader
    const number: NumberReader
    const marks: MapReader
    const ranks: RankReader
    const lengths: LengthReader
    const columns: ColumnReader
    const seqToUnseq: array<int>
    var size: nat
    var phase: Phase
    var storedBlockCRC: nat
    var blockRandomised: bool
    var origPtr: nat
    var nInUse: nat
    var selector: seq<int>
    ghost var u: seq<bool>
    ghost var sel: Selectors

    /** The parts are there, and share one bit buffer. */
    ghost predicate Shape() {
      && letters.rd == number.rd == marks.rd == ranks.rd == lengths.rd == columns.rd == rd
      && marks.Shape() && ranks.Shape() && lengths.Shape() && columns.Shape()
      && seqToUnseq.Length == 256
      && seqToUnseq !in {columns.col.out, columns.col.unzftab, columns.mtf.mtfa, columns.mtf.mtfbase}
    }

    /** The objects a block is kept in. */
    ghost function Parts(): (s: set<object>)
      ensures rd !in s && this !in s
    {
      {letters, number, marks, marks.inUse16, marks.inUse, ranks, ranks.selectorMtf, lengths, lengths.row, seqToUnseq,
       columns, columns.sr, columns.mtf, columns.mtf.mtfa, columns.mtf.mtfbase, columns.col, columns.col.out,
       columns.col.unzftab}
    }

    ghost predicate Valid()
      reads this, rd, Parts()
    {
      && Shape() && rd.Valid() && 1 <= size <= 9 && Within(seqToUnseq[..], 256)
      && (phase == InMap ==> marks.Valid()) && (phase == InSelectors ==> ranks.Valid() && MapKnown())
      && (phase == InTables ==> lengths.Valid() && MapKnown() && Counted())
      && (phase == InColumn ==> columns.Valid() && columns.nblockMAX == 100000 * size)
    }

    /** The map of characters has been read, and is u. */
    ghost predicate MapKnown()
      reads `u, `nInUse, seqToUnseq
    {
      |u| == 256 && nInUse == UsedBelow(u, 256) > 0 && SameChars(seqToUnseq[..], CharTable(u), nInUse)
    }

    /** The selectors have been read, and are sel. */
    ghost predicate Counted()
      reads `sel, `selector, `nInUse, lengths`nGroups, lengths`alphaSize
    {
      SelectorsOk(sel) && selector == sel.selector && lengths.nGroups == sel.nGroups && lengths.alphaSize == nInUse + 2
    }

    ghost function Start(): Head
      reads `storedBlockCRC, `blockRandomised, `origPtr
    {
      Head(storedBlockCRC, blockRandomised, origPtr)
    }

    /** What the bits not yet read, with those that have been, mean: the block. */
    ghost function Outcome(): (p: Parsed<Found>)
      reads this, rd, Parts()
      requires Valid()
      ensures p.Got? ==> FoundOk(size, p.value)
    {
      match phase
      case AtLetters => AfterLetters(size, letters.Outcome())
      case AtCrc => AfterCrc(size, number.Outcome())
      case AtRandomBit => RandomBitFrom(size, storedBlockCRC, rd.Pending())
      case AtOrigin => AfterOrigin(size, storedBlockCRC, blockRandomised, number.Outcome())
      case InMap => AfterMap(size, Start(), marks.Outcome())
      case InSelectors => AfterSelectors(size, Start(), u, ranks.Outcome())
      case InTables => AfterTables(size, Start(), u, sel, lengths.Outcome())
      case InColumn => AfterColumn(size, Start(), columns.Outcome())
    }

    constructor (rd: BitReader)
      requires rd.Valid()
      ensures Shape() && this.rd == rd && fresh(Parts()) && Within(seqToUnseq[..], 256)
    {
      hide Within, Shape, MapReader.Shape, RankReader.Shape, LengthReader.Shape, ColumnReader.Shape, BitReader.Valid;
      this.rd := rd;
      letters := new LetterReader(rd);
      number := new NumberReader(rd);
      marks := new MapReader(rd);
      ranks := new RankReader(rd);
      lengths := new LengthReader(rd);
      columns := new ColumnReader(rd);
      seqToUnseq := new int[256](_ => 0);
      size, phase, storedBlockCRC, blockRandomised, origPtr, nInUse, selector := 1, AtLetters, 0, false, 0, 0, [];
      u, sel := [], Selectors(0, []);
      new;
      AllZero(seqToUnseq[..]);
      Assembled();
    }

    lemma Assembled()
      requires letters.rd == rd && number.rd == rd && marks.rd == rd && ranks.rd == rd && lengths.rd == rd
      requires columns.rd == rd
      requires marks.Shape() && ranks.Shape() && lengths.Shape() && columns.Shape() && seqToUnseq.Length == 256
      requires seqToUnseq !in {columns.col.out, columns.col.unzftab, columns.mtf.mtfa, columns.mtf.mtfbase}
      ensures Shape()
    {
      hide MapReader.Shape, RankReader.Shape, LengthReader.Shape, ColumnReader.Shape;
    }

    /** A block begins, with these letters still to come. */
    method Begin(size: nat, m: seq<int>)
      requires Shape() && rd.Valid() && 1 <= size <= 9 && Within(seqToUnseq[..], 256)
      modifies `size, `phase, letters
      ensures Valid() && this.size == size && Outcome() == AfterLetters(size, LettersFrom(m, rd.Pending()))
    {
      hide Shape, BitReader.Valid, BitReader.Pending, AfterLetters, Within;
      this.size, phase := size, AtLetters;
      letters.Begin(m);
      LettersHere();
    }

    lemma LettersHere()
      requires Shape()
      ensures letters.rd == number.rd == rd
    {
    }

    /** A step has ended with st, where the reference foresaw before. */
    ghost predicate Went(st: Status, before: Parsed<Found>)
      reads this, rd, Parts()
    {
      && rd.Valid() && Shape() && Within(seqToUnseq[..], 256)
      && match st
         case Done => Valid() && Outcome() == before
         case Suspended => Valid() && Outcome() == before && rd.UsedUp() && (rd.future == [] ==> before == Partial)
         case DataError => before == Wrong
    }

    ghost predicate Basic()
      reads this, rd, seqToUnseq
    {
      Shape() && rd.Valid() && 1 <= size <= 9 && Within(seqToUnseq[..], 256)
    }

    lemma Basics()
      requires Valid()
      ensures Basic()
      ensures phase == AtOrigin ==> Outcome() == AfterOrigin(size, storedBlockCRC, blockRandomised, number.Outcome())
      ensures phase == InMap ==> marks.Valid() && Outcome() == AfterMap(size, Start(), marks.Outcome())
      ensures phase == InSelectors ==>
                ranks.Valid() && MapKnown() && Outcome() == AfterSelectors(size, Start(), u, ranks.Outcome())
      ensures phase == InTables ==> lengths.Valid() && MapKnown() && Counted()
                                    && Outcome() == AfterTables(size, Start(), u, sel, lengths.Outcome())
    {
      hide Shape, Within, BitReader.Valid, MapReader.Valid, RankReader.Valid, LengthReader.Valid, MapReader.Outcome,
        RankReader.Outcome, LengthReader.Outcome, UsedBelow, CharTable, AfterOrigin, AfterMap, AfterSelectors,
        AfterTables;
    }

    lemma OriginPhase()
      requires Basic() && phase == AtOrigin
      ensures number.rd == rd && Valid()
      ensures Outcome() == AfterOrigin(size, storedBlockCRC, blockRandomised, number.Outcome())
    {
      hide Within, BitReader.Valid, AfterOrigin, MapReader.Shape, RankReader.Shape, LengthReader.Shape,
        ColumnReader.Shape;
    }

    lemma MapParts()
      requires MapKnown()
      ensures |u| == 256 && UsedBelow(u, 256) == nInUse && 0 < nInUse <= 256
    {
      hide UsedBelow, SameChars, CharTable;
      UsedMost(u, 256);
    }

    lemma MapPhase()
      requires Basic() && phase == InMap && marks.Valid()
      ensures Valid() && Outcome() == AfterMap(size, Start(), marks.Outcome())
    {
      hide Shape, Within, BitReader.Valid, MapReader.Valid, MapReader.Outcome, AfterMap;
    }

    lemma SelectorsPhase()
      requires Basic() && phase == InSelectors && ranks.Valid() && MapKnown()
      ensures Valid() && Outcome() == AfterSelectors(size, Start(), u, ranks.Outcome())
    {
      hide Shape, Within, BitReader.Valid, RankReader.Valid, RankReader.Outcome, AfterSelectors;
    }

    lemma TablesPhase()
      requires Basic() && phase == InTables && lengths.Valid() && MapKnown() && Counted()
      ensures Valid() && Outcome() == AfterTables(size, Start(), u, sel, lengths.Outcome())
    {
      hide Shape, Within, BitReader.Valid, LengthReader.Valid, LengthReader.Outcome, AfterTables;
    }

    lemma ColumnPhase()
      requires Basic() && phase == InColumn && columns.Valid() && columns.nblockMAX == 100000 * size
      ensures Valid() && Outcome() == AfterColumn(size, Start(), columns.Outcome())
    {
      hide Shape, Within, BitReader.Valid, ColumnReader.Valid, ColumnReader.Outcome, AfterColumn;
    }

    /** BZ_X_BLKHDR_2 to 6 */
    method ReadLetters() returns (st: Status)
      requires Valid() && phase == AtLetters
      modifies `phase, letters, number, rd`nextIn, rd`bsBuff, rd`bsLive
      ensures Went(st, old(Outcome())) && phase == (if st == Done then AtCrc else AtLetters)
    {
      hide Shape, BitReader.Valid, BitReader.Pending, AfterCrc, Within, LettersFrom, NumberFrom;
      LettersHere();
      st := letters.Resume();
      if st != Done { return; }
      number.Begin(4);
      phase := AtCrc;
    }

    /** BZ_X_BCRC_1 to 4 */
    method ReadCrc() returns (st: Status)
      requires Valid() && phase == AtCrc
      modifies `phase, `storedBlockCRC, number, rd`nextIn, rd`bsBuff, rd`bsLive
      ensures Went(st, old(Outcome())) && phase == (if st == Done then AtRandomBit else AtCrc)
    {
      hide Shape, BitReader.Valid, BitReader.Pending, RandomBitFrom, Within, NumberFrom;
      LettersHere();
      st := number.Resume();
      if st != Done { return; }
      storedBlockCRC, phase := number.value, AtRandomBit;
    }

    /** BZ_X_RANDBIT */
    method ReadRandomBit() returns (st: Status)
      requires Valid() && phase == AtRandomBit
      modifies `phase, `blockRandomised, number, rd`nextIn, rd`bsBuff, rd`bsLive
      ensures Went(st, old(Outcome())) && phase == (if st == Done then AtOrigin else AtRandomBit)
    {
      hide Shape, BitReader.Valid, BitReader.Pending, AfterOrigin, Within, NumberFrom;
      LettersHere();
      var ok, d := GetBit(rd);
      if !ok { return Suspended; }
      number.Begin(3);
      blockRandomised, phase := d, AtOrigin;
      st := Done;
    }

    /** BZ_X_ORIGPTR_1 to 3 */
    method ReadOrigin() returns (st: Status)
      requires Valid() && phase == AtOrigin
      modifies `phase, `origPtr, number, marks, rd`nextIn, rd`bsBuff, rd`bsLive
      ensures Went(st, old(Outcome())) && phase == (if st == Done then InMap else AtOrigin)
    {
      hide Shape, BitReader.Valid, BitReader.Pending, AfterMap, Within, NumberFrom, MapFrom, MapReader.Valid,
        MapReader.Outcome, Valid, Outcome;
      Basics();
      LettersHere();
      st := number.Resume();
      if st == Suspended { OriginPhase(); }
      if st != Done { return; }
      if number.value > 10 + 100000 * size { return DataError; }
      MapHere();
      marks.Begin();
      origPtr, phase := number.value, InMap;
      MapPhase();
    }

    lemma MapHere()
      requires Shape()
      ensures marks.Shape() && marks.rd == ranks.rd == lengths.rd == rd && ranks.Shape() && lengths.Shape()
      ensures seqToUnseq.Length == 256 && seqToUnseq != ranks.selectorMtf && seqToUnseq != lengths.row
    {
    }

    /** BZ_X_MAPPING_1 and 2, and the table of characters. */
    method ReadMap() returns (st: Status)
      requires Valid() && phase == InMap
      modifies `phase, `nInUse, `u, marks, marks.inUse16, marks.inUse, seqToUnseq, ranks, rd`nextIn, rd`bsBuff
      modifies rd`bsLive
      ensures Went(st, old(Outcome())) && phase == (if st == Done then InSelectors else InMap)
    {
      hide BitReader.Valid, BitReader.Pending, Within, MapReader.Valid, RankReader.Valid, MapReader.Outcome,
        UsedBelow, Mapped, SameChars, CharTable, AfterSelectors, SelectorsFrom, Shape, Valid, Outcome,
        RankReader.Outcome;
      Basics();
      MapHere();
      st := marks.Resume();
      if st == Suspended { MapPhase(); }
      if st != Done { return; }
      u := marks.inUse[..];
      st := NumberChars();
      if st != Done { return; }
      ranks.Begin();
      phase := InSelectors;
      SelectorsPhase();
    }

    /** makeMaps_d */
    method NumberChars() returns (st: Status)
      requires Shape() && |marks.inUse[..]| == 256 && Within(seqToUnseq[..], 256)
      modifies `nInUse, seqToUnseq
      ensures Within(seqToUnseq[..], 256) && nInUse == UsedBelow(marks.inUse[..], 256)
      ensures if st == Done then nInUse > 0 && SameChars(seqToUnseq[..], CharTable(marks.inUse[..]), nInUse)
              else st == DataError && nInUse == 0
    {
      hide UsedBelow, Mapped, CharTable;
      nInUse := BlockDecoder.MakeMaps(marks.inUse, seqToUnseq);
      CharsTabled(marks.inUse[..], seqToUnseq[..]);
      st := if nInUse == 0 then DataError else Done;
    }

    /** BZ_X_SELECTOR_1 to 3 */
    method ReadSelectors() returns (st: Status)
      requires Valid() && phase == InSelectors
      modifies `phase, `selector, `sel, ranks, ranks.selectorMtf, lengths, rd`nextIn, rd`bsBuff, rd`bsLive
      ensures Went(st, old(Outcome())) && phase == (if st == Done then InTables else InSelectors)
    {
      hide BitReader.Valid, BitReader.Pending, Within, RankReader.Valid, LengthReader.Valid, RankReader.Outcome,
        UsedBelow, SameChars, CharTable, AfterTables, TablesFrom, Shape, Valid, Outcome, LengthReader.Outcome, MapKnown;
      Basics();
      MapParts();
      MapHere();
      var s;
      st, s := ranks.Resume();
      if st == Suspended { SelectorsPhase(); }
      if st != Done { return; }
      lengths.Begin(s.nGroups, nInUse + 2);
      selector, sel, phase := s.selector, s, InTables;
      TablesPhase();
    }

    /** BZ_X_CODING_1 to 3, and the decoding tables. */
    method ReadTables() returns (st: Status)
      requires Valid() && phase == InTables
      modifies `phase, lengths, lengths.row, columns, columns.sr, columns.mtf, columns.mtf.mtfa, columns.mtf.mtfbase
      modifies columns.col, columns.col.unzftab, rd`nextIn, rd`bsBuff, rd`bsLive
      ensures Went(st, old(Outcome())) && phase == (if st == Done then InColumn else InTables)
    {
      hide BitReader.Valid, BitReader.Pending, Within, LengthReader.Valid, LengthReader.Outcome, UsedBelow, SameChars,
        CharTable, TablesOk, ColumnFrom, Identity, ColumnReader.Valid, ColumnReader.Outcome, AfterColumn, PlanOk,
        TablesFor, Shape, Valid, Outcome, Counted;
      Basics();
      MapHere();
      ColumnsHere();
      st := lengths.Resume();
      if st == Suspended { TablesPhase(); }
      if st != Done { return; }
      CountedParts();
      LensAreOk(lengths);
      var tables := MakeTables(lengths.lens, nInUse + 2);
      ghost var plan := PlanOf(size, u, sel, lengths.lens);
      PlanIsOk(size, u, sel, lengths.lens);
      columns.Begin(selector, tables, seqToUnseq[..], nInUse, 100000 * size, plan);
      phase := InColumn;
      ColumnPhase();
    }

    lemma CountedParts()
      requires Counted()
      ensures SelectorsOk(sel) && selector == sel.selector && lengths.nGroups == sel.nGroups
      ensures lengths.alphaSize == nInUse + 2
    {
    }

    lemma ColumnsHere()
      requires Shape()
      ensures columns.Shape() && columns.rd == rd
      ensures seqToUnseq !in {columns.col.out, columns.col.unzftab, columns.mtf.mtfa, columns.mtf.mtfbase}
    {
    }

    /** BZ_X_MTF_1 to 6, and the check of the origin. */
    method ReadColumn() returns (st: Status)
      requires Valid() && phase == InColumn
      modifies columns`inRun, columns`es, columns`N, columns.mtf, columns.mtf.mtfa, columns.mtf.mtfbase, columns.col
      modifies columns.col.out
      modifies columns.col.unzftab, columns.sr`groupNo, columns.sr`groupPos, columns.sr`gSel, columns.sr`word
      modifies columns.sr`zn, columns.sr`zvec
      modifies rd`nextIn, rd`bsBuff, rd`bsLive
      ensures Shape() && rd.Valid() && Within(seqToUnseq[..], 256)
      ensures match st
              case Done => Ready(old(Outcome()))
              case Suspended => Went(st, old(Outcome()))
              case DataError => old(Outcome()) == Wrong
    {
      hide BitReader.Valid, BitReader.Pending, Within, ColumnReader.Valid, ColumnReader.Outcome, Shape;
      ColumnsHere();
      st := columns.Resume();
      if st != Done { return; }
      ColumnIs(columns);
      if origPtr >= columns.col.nblock { st := DataError; }
    }

    /** The block has been read. */
    ghost predicate Ready(before: Parsed<Found>)
      reads this, rd, columns.col, columns.col.out, columns.col.unzftab
    {
      && rd.Valid() && columns.col.Valid() && origPtr < columns.col.nblock <= 100000 * size
      && before == Got(Found(Start(), columns.col.Got()), rd.Pending())
    }

    /** The header. */
    method ReadHead() returns (st: Status)
      requires Valid()
      modifies this, letters, number, marks, rd`nextIn, rd`bsBuff, rd`bsLive
      ensures size == old(size) && Went(st, old(Outcome()))
      ensures (st == Done ==> phase !in {AtLetters, AtCrc, AtRandomBit, AtOrigin})
    {
      hide Valid, Outcome, Shape, Within, BitReader.Valid;
      Basics();
      if phase == AtLetters {
        st := ReadLetters();
        if st != Done { return; }
      }
      if phase == AtCrc {
        st := ReadCrc();
        if st != Done { return; }
      }
      if phase == AtRandomBit {
        st := ReadRandomBit();
        if st != Done { return; }
      }
      if phase == AtOrigin {
        st := ReadOrigin();
        if st != Done { return; }
      }
      st := Done;
    }

    /** The maps, selectors and tables. */
    method ReadMaps() returns (st: Status)
      requires Valid() && phase !in {AtLetters, AtCrc, AtRandomBit, AtOrigin}
      modifies this, Parts(), rd`nextIn, rd`bsBuff, rd`bsLive
      ensures size == old(size) && Went(st, old(Outcome())) && (st == Done ==> phase == InColumn)
    {
      hide Valid, Outcome, Shape, Within, BitReader.Valid, Went;
      ghost var p := Outcome();
      if phase == InMap {
        st := ReadMap();
        if st != Done { return; }
        Going(p);
      }
      if phase == InSelectors {
        st := ReadSelectors();
        if st != Done { return; }
        Going(p);
      }
      if phase == InTables {
        st := ReadTables();
        if st != Done { return; }
        Going(p);
      }
      Gone(p);
      st := Done;
    }

    lemma Going(p: Parsed<Found>)
      requires Went(Done, p)
      ensures Valid() && Outcome() == p
    {
    }

    lemma Gone(p: Parsed<Found>)
      requires Valid() && Outcome() == p
      ensures Went(Done, p)
    {
      Basics();
    }

    /** A block, from where it stopped. */
    method Resume() returns (st: Status)
      requires Valid()
      modifies this, Parts(), rd`nextIn, rd`bsBuff, rd`bsLive
      ensures Shape() && rd.Valid() && Within(seqToUnseq[..], 256) && size == old(size)
      ensures match st
              case Done => Ready(old(Outcome()))
              case Suspended => Went(st, old(Outcome()))
              case DataError => old(Outcome()) == Wrong
    {
      hide Valid, Outcome, Shape, Within, BitReader.Valid;
      st := ReadHead();
      if st != Done { return; }
      st := ReadMaps();
      if st != Done { return; }
      st := ReadColumn();
    }
  }

  lemma AllZero(s: seq<int>)
    requires forall k :: 0 <= k < |s| ==> s[k] == 0
    ensures Within(s, 256)
  {
  }

  /** The table of characters agrees with the reference on the numbers in use. */
  lemma CharsTabled(u: seq<bool>, s: seq<int>)
    requires |u| == 256 && Mapped(u, s, 256)
    ensures Within(s, 256) && SameChars(s, CharTable(u), UsedBelow(u, 256))
  {
    hide UsedBelow;
    UsedMost(u, 256);
    CharsKnown(u, s, 256);
  }

  lemma LensAreOk(r: LengthReader)
    requires r.Valid()
    ensures TablesOk(r.lens, r.alphaSize) && r.t == |r.lens| <= r.nGroups && 0 < r.alphaSize <= MAX_ALPHA_SIZE
  {
    hide TablesOk;
  }

  lemma ColumnIs(c: ColumnReader)
    requires c.Valid()
    ensures c.col.Valid() && c.col.nblock == |c.col.Got()| <= c.nblockMAX && c.rd.Valid()
  {
  }

  /* ---- Undoing the transform ---- */

  /** The decoder's further checks never fail: the counts are those of the column. */
  lemma CountsInRange(l: seq<int>, cf: seq<int>)
    requires Within(l, 256) && Starts(l, 256, cf)
    ensures forall c :: 0 <= c <= 256 ==> 0 <= cf[c] <= |l|
    ensures forall c :: 1 <= c <= 256 ==> cf[c - 1] <= cf[c]
  {
    forall c | 1 <= c <= 256 ensures cf[c - 1] <= cf[c] {
      CountLessGrows(l, |l|, c - 1, c);
    }
  }

  /** The bucket starts of the column. */
  method ColumnStarts(col: Column) returns (cftab: array<int>, ghost l: seq<int>)
    requires col.Valid()
    ensures l == col.Got() && Within(l, 256) && |l| == col.nblock <= col.out.Length
    ensures fresh(cftab) && Starts(l, 256, cftab[..])
  {
    l := col.Got();
    forall c ensures CountEq(col.out[..], col.nblock, c) == CountEq(l, |l|, c) {
      CountEqSame(col.out[..], l, |l|, c);
    }
    hide CountEq, CountLess, Within;
    CountWithin(l);
    assert forall i :: 0 <= i <= 255 ==> 0 <= col.unzftab[i] <= col.nblock;
    cftab := BwtTables.ComputeCftab(l, col.unzftab);
    CountsInRange(l, cftab[..]);
    assert forall i :: 0 <= i <= 256 ==> 0 <= cftab[..][i] <= col.nblock;
    assert forall i :: 1 <= i <= 256 ==> cftab[..][i - 1] <= cftab[..][i];
  }

  /** Builds the links of the fast decoder and sets tPos. */
  method PrepareFast(col: Column, origPtr: nat) returns (tPos: int, ghost q: seq<int>, ghost l: seq<int>)
    requires col.Valid() && origPtr < col.nblock
    modifies col.out
    ensures l == old(col.Got()) && Within(l, 256) && Links(l, q) && col.out.Length >= col.nblock == |l|
    ensures forall k :: 0 <= k < |l| ==> col.out[k] == BwtTables.Word(l[k], q[k])
    ensures tPos == q[origPtr]
  {
    hide Within, Starts, Column.Valid;
    var cftab;
    cftab, l := ColumnStarts(col);
    q := BwtTables.BuildFast(col.out, cftab, col.nblock, l);
    ByteOf(l, origPtr);
    BwtTables.WordParts(l[origPtr], q[origPtr]);
    tPos := col.out[origPtr] / 256;
  }

  lemma CountWithin(l: seq<int>)
    ensures forall c :: 0 <= CountEq(l, |l|, c) <= |l|
  {
  }

  lemma ByteOf(l: seq<int>, k: nat)
    requires Within(l, 256) && k < |l|
    ensures 0 <= l[k] < 256
  {
  }

  /** out and the walk of the m characters still to come from row t are the walk from the origin. */
  ghost predicate Walking(l: seq<int>, q: seq<int>, o: nat, out: seq<int>, t: nat, m: nat) {
    && Links(l, q) && Within(l, 256) && o < |l| && t < |l| && |out| + m == |l|
    && out + Walk(l, q, t, m) == Walk(l, q, o, |l|)
  }

  lemma WalkStart(l: seq<int>, q: seq<int>, o: nat)
    requires Links(l, q) && Within(l, 256) && o < |l|
    ensures Walking(l, q, o, [], o, |l|)
  {
    assert [] + Walk(l, q, o, |l|) == Walk(l, q, o, |l|);
  }

  lemma WalkStep(l: seq<int>, q: seq<int>, o: nat, out: seq<int>, t: nat, m: nat)
    requires Walking(l, q, o, out, t, m) && m > 0
    ensures |l| == |q| && t < |l| && 0 <= q[t] < |l| && 0 <= l[q[t]] < 256 && 0 <= q[q[t]]
    ensures Walking(l, q, o, out + [l[q[t]]], q[t], m - 1)
  {
    hide Rank;
    var w := Walk(l, q, q[t], m - 1);
    assert (out + [l[q[t]]]) + w == out + ([l[q[t]]] + w);
  }

  lemma WalkEnd(l: seq<int>, q: seq<int>, o: nat, out: seq<int>, t: nat)
    requires Walking(l, q, o, out, t, 0)
    ensures out == Walk(l, q, o, |l|)
  {
    assert out + [] == out;
  }

  /** BZ_GET_FAST, for every position of the block. */
  method WalkFast(tt: array<int>, nblock: nat, first: int, ghost origPtr: nat, ghost l: seq<int>, ghost q: seq<int>)
    returns (out: seq<int>)
    requires nblock == |l| <= tt.Length && Within(l, 256) && Links(l, q) && origPtr < nblock && first == q[origPtr]
    requires forall k :: 0 <= k < nblock ==> tt[k] == BwtTables.Word(l[k], q[k])
    ensures out == Walk(l, q, origPtr, nblock)
  {
    LinkSize(l, q);
    hide Walk, Within, Links, BwtTables.Word, Walking;
    var tPos := first;
    ghost var t := origPtr;
    out := [];
    WalkStart(l, q, origPtr);
    for i := 0 to nblock
      invariant 0 <= t < nblock && tPos == q[t] && Walking(l, q, origPtr, out, t, nblock - i)
    {
      WalkStep(l, q, origPtr, out, t, nblock - i);
      BwtTables.WordParts(l[q[t]], q[q[t]]);
      tPos := tt[tPos];
      var ch := tPos % 256;
      tPos := tPos / 256;
      out := out + [ch];
      t := q[t];
    }
    WalkEnd(l, q, origPtr, out, t);
  }

  /* ---- There and back ---- */

  /** bytes begin with the bits of a block that encodes b. */
  ghost predicate Compressed(bytes: seq<int>, b: seq<int>, crc: nat) {
    Bytes(bytes) && crc < WORD && exists o: nat, x: Coded :: CompressedVia(bytes, b, crc, o, x)
  }

  ghost predicate CompressedVia(bytes: seq<int>, b: seq<int>, crc: nat, o: nat, x: Coded)
    requires Bytes(bytes)
  {
    Sound(x) && Encodes(b, o, x) && BlockBits(crc, o, x) <= ByteBits(bytes)
  }

  /** One half: every block within the size limit, with any work factor and any checksum, becomes
      bytes that encode it, and the block is left as it was. */
  method CompressToBytes(block: array<int>, inUse: array<bool>, nblock: nat, workFactor: int, blockCRC: nat)
    returns (bytes: seq<int>)
    requires 0 < nblock <= BlockSort.MAX_BLOCK && nblock + MainCompare.OVERSHOOT <= block.Length && blockCRC < WORD
    requires inUse.Length == 256 && AllUsed(inUse[..], block[..nblock]) && OnlyUsed(inUse[..], block[..nblock])
    modifies block
    ensures block[..nblock] == old(block[..nblock]) && Compressed(bytes, block[..nblock], blockCRC)
  {
    hide Encodes, Sound, BlockBits, AllUsed, OnlyUsed, Room, CompressedVia, BitWriter.Valid;
    var w := new BitWriter(Room(nblock + 1) + 120);
    ghost var o, x;
    o, x := CompressBlock(w, block, inUse, nblock, workFactor, blockCRC);
    ghost var bits := w.Written();
    NothingBefore(BlockBits(blockCRC, o, x));
    w.Finish();
    bytes := WrittenBytes(w);
    ViaIntro(bytes, block[..nblock], blockCRC, o, x);
  }

  lemma NothingBefore(s: seq<bool>)
    ensures [] + s == s
  {
  }

  method WrittenBytes(w: BitWriter) returns (bytes: seq<int>)
    requires w.Valid() && w.bsLive == 0
    ensures Bytes(bytes) && ByteBits(bytes) == w.Written()
  {
    bytes := w.zbits[..w.numZ];
    assert BitsOf(w.top, 0) == [];
  }

  lemma ViaIntro(bytes: seq<int>, b: seq<int>, crc: nat, o: nat, x: Coded)
    requires Bytes(bytes) && crc < WORD && Sound(x) && Encodes(b, o, x) && BlockBits(crc, o, x) <= ByteBits(bytes)
    ensures Compressed(bytes, b, crc)
  {
    assert CompressedVia(bytes, b, crc, o, x);
  }

  /* ---- What bits mean depends only on which bits are still to be read, not on where they are ---- */

  twostate lemma MapKept(r: MapReader)
    requires old(r.Valid()) && unchanged(r, r.inUse16, r.inUse) && r.rd.Valid() && r.rd.Pending() == old(r.rd.Pending())
    ensures r.Valid() && r.Outcome() == old(r.Outcome())
  {
    hide BitReader.Valid, BitReader.Pending, MarksFrom, GroupsFrom;
    assert r.inUse16[..] == old(r.inUse16[..]) && r.inUse16[..r.i] == old(r.inUse16[..r.i]);
    assert r.inUse[..] == old(r.inUse[..]);
    assert r.second ==> r.inUse[..16 * r.i + r.j] == old(r.inUse[..16 * r.i + r.j]);
  }

  twostate lemma RanksKept(r: RankReader)
    requires old(r.Valid()) && unchanged(r, r.selectorMtf) && r.rd.Valid() && r.rd.Pending() == old(r.rd.Pending())
    ensures r.Valid() && r.Outcome() == old(r.Outcome())
  {
    hide BitReader.Valid, BitReader.Pending, SelectorsFrom, NumberedFrom, SelectorsGoOn, RanksFrom;
    assert r.Ranks() == old(r.Ranks());
  }

  twostate lemma LengthsKept(r: LengthReader)
    requires old(r.Valid()) && unchanged(r, r.row) && r.rd.Valid() && r.rd.Pending() == old(r.rd.Pending())
    ensures r.Valid() && r.Outcome() == old(r.Outcome())
  {
    hide BitReader.Valid, BitReader.Pending, TablesFrom, TablesGoOn, RowFrom, TablesOk, LengthsOk;
    assert r.row[..r.i] == old(r.row[..r.i]);
  }

  twostate lemma SymbolsKept(r: SymbolReader)
    requires old(r.Valid()) && unchanged(r) && r.rd.Valid() && r.rd.Pending() == old(r.rd.Pending())
    ensures r.Valid() && r.Outcome() == old(r.Outcome())
  {
    hide BitReader.Valid, BitReader.Pending, SymbolFrom, WholeWord, WordFrom, BitThenWord, PlanOk, TablesFor;
  }

  twostate lemma ColumnKept(r: ColumnReader)
    requires old(r.Valid()) && unchanged(r, r.sr, r.mtf, r.mtf.mtfa, r.mtf.mtfbase, r.col, r.col.out, r.col.unzftab)
    requires r.rd.Valid() && r.rd.Pending() == old(r.rd.Pending())
    ensures r.Valid() && r.Outcome() == old(r.Outcome())
  {
    hide BitReader.Valid, BitReader.Pending, SymbolReader.Valid, SymbolReader.Outcome, Column.Valid, MtfArray.Valid,
      ColumnGoesOn, PlanOk;
    SymbolsKept(r.sr);
  }

  twostate lemma OutcomeKept(br: BlockReader)
    requires old(br.Valid()) && unchanged(br) && unchanged(br.Parts()) && br.rd.Valid()
    requires br.rd.Pending() == old(br.rd.Pending())
    ensures br.Valid() && br.Outcome() == old(br.Outcome())
  {
    hide BitReader.Valid, BitReader.Pending, MapReader.Valid, MapReader.Outcome, RankReader.Valid, RankReader.Outcome,
      LengthReader.Valid, LengthReader.Outcome, ColumnReader.Valid, ColumnReader.Outcome, LettersFrom, NumberFrom,
      AfterLetters, AfterCrc, AfterOrigin, RandomBitFrom, AfterMap, AfterSelectors, AfterTables, AfterColumn, Within,
      CharTable, SameChars, UsedBelow;
    assert br.seqToUnseq[..] == old(br.seqToUnseq[..]);
    match br.phase
    case InMap => MapKept(br.marks);
    case InSelectors => RanksKept(br.ranks);
    case InTables => LengthsKept(br.lengths);
    case InColumn => ColumnKept(br.columns);
    case AtLetters =>
    case AtCrc =>
    case AtRandomBit =>
    case AtOrigin =>
  }

  /** One more piece of input. */
  method Feed(rd: BitReader, br: BlockReader, piece: seq<int>, ghost later: seq<bool>, ghost p: Parsed<Found>)
    returns (st: Status)
    requires br.rd == rd && br.Valid() && br.Outcome() == p && rd.input == [] && Bytes(piece)
    requires rd.future == ByteBits(piece) + later
    modifies br, br.Parts(), rd
    ensures rd.Valid() && br.size == old(br.size)
    ensures match st
            case Suspended =>
              && br.Valid() && br.Outcome() == p && rd.input == [] && rd.future == later
              && (later == [] ==> p == Partial)
            case Done => br.Ready(p)
            case DataError => p == Wrong
  {
    hide BlockReader.Valid, BlockReader.Outcome, BlockReader.Shape, BitReader.Valid, BitReader.Pending, Within,
      ByteBits;
    br.Basics();
    BasicParts(br);
    rd.Offer(piece, later);
    OutcomeKept(br);
    st := br.Resume();
    if st == Suspended {
      label before:
      var rest := rd.Withdraw();
      OutcomeKept@before(br);
    }
  }

  lemma BasicParts(br: BlockReader)
    requires br.Basic()
    ensures br.rd.Valid() && br.Shape()
  {
  }

  /** The other half: bytes that encode a block give it back, in however many pieces they arrive. */
  method DecompressBytes(pieces: seq<seq<int>>, blockSize100k: nat, ghost b: seq<int>, ghost crc: nat)
    returns (st: Status, storedCRC: nat, back: seq<int>)
    requires 1 <= blockSize100k <= 9 && forall i :: 0 <= i < |pieces| ==> Bytes(pieces[i])
    ensures Compressed(Joined(pieces), b, crc) && |b| <= 100000 * blockSize100k ==>
              st == Done && storedCRC == crc && back == b
  {
    hide Compressed, BlockReader.Valid, BlockReader.Outcome, BlockReader.Shape, BitReader.Valid, BitReader.Pending,
      AfterLetters, LettersFrom, ColumnOf, Column.Valid, Walk, Within, Links;
    JoinedBytes(pieces);
    var rd := new BitReader(ByteBits(Joined(pieces)));
    var br := new BlockReader(rd);
    br.Begin(blockSize100k, [0x31, 0x41, 0x59, 0x26, 0x53, 0x59]);
    ghost var p := br.Outcome();
    ghost var o: nat, l, rest := 0, [], [];
    if Compressed(Joined(pieces), b, crc) && |b| <= 100000 * blockSize100k {
      o, l, rest := FindBlock(Joined(pieces), blockSize100k, b, crc);
    }
    storedCRC, back := 0, [];
    st := Suspended;
    var i := 0;
    FirstMiss(blockSize100k);
    assert pieces[0..] == pieces;
    NothingJoined();
    while st == Suspended && i < |pieces|
      invariant i <= |pieces| && rd.Valid() && fresh(rd) && fresh(br) && fresh(br.Parts()) && br.rd == rd
      invariant br.size == blockSize100k
      invariant match st
                case Suspended =>
                  && br.Valid() && br.Outcome() == p && rd.input == [] && Bytes(Joined(pieces[i..]))
                  && rd.future == ByteBits(Joined(pieces[i..]))
                case Done => br.Ready(p)
                case DataError => p == Wrong
      invariant i == |pieces| && st == Suspended ==> p == Partial
    {
      JoinedNext(pieces, i);
      assert i + 1 == |pieces| ==> pieces[i + 1..] == [];
      st := Feed(rd, br, pieces[i], ByteBits(Joined(pieces[i + 1..])), p);
      i := i + 1;
    }
    if st == Done {
      var origPtr := br.origPtr;
      storedCRC := br.storedBlockCRC;
      back := Undo(br.columns.col, origPtr, b);
    }
  }

  /** Undoes the transform of a column. */
  method Undo(col: Column, origPtr: nat, ghost b: seq<int>) returns (back: seq<int>)
    requires col.Valid() && origPtr < col.nblock
    modifies col.out
    ensures old(ColumnOf(b, origPtr, col.Got())) ==> back == b
  {
    hide ColumnOf, Column.Valid, Walk, Within, Links;
    var tPos; ghost var q, l;
    ColumnFits(col);
    ghost var good := ColumnOf(b, origPtr, col.Got());
    tPos, q, l := PrepareFast(col, origPtr);
    LinkSize(l, q);
    back := WalkFast(col.out, col.nblock, tPos, origPtr, l, q);
    if good { ColumnWalks(b, origPtr, l, q); }
  }

  lemma ColumnFits(col: Column)
    requires col.Valid()
    ensures col.nblock <= col.out.Length
  {
  }

  lemma NothingJoined()
    ensures Bytes(Joined([])) && ByteBits(Joined([])) == []
  {
  }

  lemma FirstMiss(size: nat)
    ensures AfterLetters(size, LettersFrom([0x31, 0x41, 0x59, 0x26, 0x53, 0x59], [])) == Partial
  {
  }

  lemma FindBlock(bytes: seq<int>, blockSize100k: nat, b: seq<int>, crc: nat)
    returns (o: nat, l: seq<int>, rest: seq<bool>)
    requires Compressed(bytes, b, crc) && |b| <= 100000 * blockSize100k && 1 <= blockSize100k <= 9
    ensures Bytes(bytes) && ColumnOf(b, o, l)
    ensures AfterLetters(blockSize100k, LettersFrom([0x31, 0x41, 0x59, 0x26, 0x53, 0x59], ByteBits(bytes))) ==
            Got(Found(Head(crc, false, o), l), rest)
  {
    hide Encodes, Sound, BlockBits, ColumnOf, HeadTail, CodedBits, BitsOf, Value, Pow2, ByteBits, AfterLetters,
      LettersFrom;
    var x: Coded;
    o, x :| CompressedVia(bytes, b, crc, o, x);
    var bits := ByteBits(bytes);
    rest := bits[|BlockBits(crc, o, x)|..];
    assert bits == BlockBits(crc, o, x) + rest;
    l := BlockParsed(blockSize100k, b, crc, o, x, rest);
    HeadFirst(crc, o, x, rest);
    FirstLetter(HeadTail(crc, o) + (CodedBits(x) + rest));
  }

  lemma FirstLetter(bits: seq<bool>)
    ensures LettersFrom([0x31, 0x41, 0x59, 0x26, 0x53, 0x59], BitsOf(0x31, 8) + bits) ==
            LettersFrom([0x41, 0x59, 0x26, 0x53, 0x59], bits)
  {
    PowersOfBytes();
    hide BitsOf, Value, Pow2;
    ValueAhead(0x31, 8, bits);
    assert [0x31, 0x41, 0x59, 0x26, 0x53, 0x59][1..] == [0x41, 0x59, 0x26, 0x53, 0x59];
  }

  function Joined(pieces: seq<seq<int>>): seq<int> {
    if |pieces| == 0 then [] else pieces[0] + Joined(pieces[1..])
  }

  lemma {:induction false} JoinedBytes(pieces: seq<seq<int>>)
    requires forall i :: 0 <= i < |pieces| ==> Bytes(pieces[i])
    ensures Bytes(Joined(pieces))
  {
    if |pieces| > 0 { JoinedBytes(pieces[1..]); }
  }

  lemma JoinedNext(pieces: seq<seq<int>>, i: nat)
    requires i < |pieces| && forall k :: 0 <= k < |pieces| ==> Bytes(pieces[k])
    ensures Bytes(Joined(pieces[i + 1..])) && Bytes(Joined(pieces[i..]))
    ensures ByteBits(Joined(pieces[i..])) == ByteBits(pieces[i]) + ByteBits(Joined(pieces[i + 1..]))
  {
    JoinedBytes(pieces[i + 1..]);
    assert pieces[i..][1..] == pieces[i + 1..];
    ByteBitsJoin(pieces[i], Joined(pieces[i + 1..]));
  }
}
