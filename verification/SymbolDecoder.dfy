/** Reading a block's symbols, bit by bit, with the decoding tables. */
module SymbolDecoder {
  import opened BitIO
  import opened Bits
  import opened BlockDecoder
  import opened BlockFormat
  import opened BlockParser
  import opened Counting
  import opened HuffmanCodes
  import opened HuffmanTree
  import opened SymbolParser
  import InverseBwt

  lemma TableShape(L: seq<int>, t: Table)
    requires TableFor(L, t)
    ensures 1 <= t.minLen == Shortest(L, |L|) <= MAX_LEN && |t.limit| == |t.base| == |t.perm| == MAX_ALPHA_SIZE
  {
  }

  /** Whatever bits come, the tables tell the same as the lengths, whatever unassigned entries hold. */
  lemma TableReads(L: seq<int>, t: Table, n: nat, v: nat)
    requires TableFor(L, t) && 0 < |L| && t.minLen <= n <= MAX_LEN
    ensures |t.limit| == |t.base| == |t.perm| == MAX_ALPHA_SIZE && t.limit[n] == Limit(L, n)
    ensures v <= Limit(L, n) && v - t.base[n] >= 0 ==>
              && v - t.base[n] == v - Base(L, n) < |L| && v - t.base[n] < MAX_ALPHA_SIZE
              && t.perm[v - t.base[n]] == Holder(L, v - Base(L, n))
    ensures v <= Limit(L, n) && v - t.base[n] < 0 ==> v - Base(L, n) < 0
  {
    hide CountLess, CountEq, First, InverseBwt.Rank;
    if v <= Limit(L, n) && v - t.base[n] >= 0 {
      OnlyAssigned(L, t.minLen, Longest(L, |L|), t.limit, t.base, t.perm, n, v);
      var i := Holder(L, v - t.base[n]);
    }
  }

  /** Where the reading of a symbol stands: not begun, at its first bits, at a test, or at one more bit. */
  datatype WordPart = NoWord | WordStart | WordTest | WordBit

  /** One more bit of a word of which all but the last of n bits have been read. */
  ghost function BitThenWord(L: seq<int>, n: nat, v: nat, bits: seq<bool>): (p: Parsed<int>)
    ensures p.Got? ==> 0 <= p.value < |L| && |p.rest| < |bits|
  {
    if bits == [] then Partial else WordFrom(L, n, 2 * v + (if bits[0] then 1 else 0), bits[1..])
  }

  /** What the symbols come from: the tables in use, the selectors, the place in the groups, and the
      code word being read. */
  class SymbolReader {
    const rd: BitReader
    var selector: seq<int>
    var tables: seq<Table>
    ghost var plan: Plan
    var groupNo: int
    var groupPos: int
    var gSel: int
    var word: WordPart
    var zn: nat
    var zvec: nat

    ghost predicate Valid()
      reads this, rd
    {
      && rd.Valid() && PlanOk(plan) && selector == plan.selector && TablesFor(plan.lens, tables, plan.nInUse + 2)
      && -1 <= groupNo && 0 <= groupPos < G_SIZE
      && (groupPos > 0 || word != NoWord ==>
            && 0 <= groupNo < |selector| && gSel == selector[groupNo] && 0 <= gSel < |tables| == |plan.lens|)
      && (word != NoWord ==> tables[gSel].minLen <= zn <= 21 && 1 <= zn)
      && (word == WordStart ==> zn == tables[gSel].minLen) && (word == WordBit ==> tables[gSel].minLen < zn)
    }

    /** The number of symbols read. */
    ghost function Count(): int
      reads `groupNo, `groupPos, `word
    {
      G_SIZE * (groupNo + 1) - groupPos - (if word == NoWord then 0 else 1)
    }

    lemma CountNat()
      requires Valid()
      ensures Count() >= 0
    {
    }

    /** What the bits not yet read, with those that have been, mean: the next symbol. */
    ghost function Outcome(): (p: Parsed<int>)
      reads this, rd
      requires Valid()
      ensures p.Got? ==> 0 <= p.value < plan.nInUse + 2
    {
      CountNat();
      if word == NoWord then SymbolFrom(plan, Count(), rd.Pending()) else WordOutcome()
    }

    ghost function WordOutcome(): (p: Parsed<int>)
      reads this, rd
      requires Valid() && word != NoWord
      ensures p.Got? ==> 0 <= p.value < plan.nInUse + 2
    {
      var L := plan.lens[gSel];
      if word == WordStart then WholeWord(L, rd.Pending())
      else if word == WordTest then WordFrom(L, zn, zvec, rd.Pending())
      else BitThenWord(L, zn, zvec, rd.Pending())
    }

    constructor (rd: BitReader)
      ensures this.rd == rd
    {
      this.rd := rd;
      selector, tables, groupNo, groupPos, gSel, word, zn, zvec := [], [], -1, 0, 0, NoWord, 0, 0;
      plan := Plan([], [], 0, [], 0);
    }

    method Begin(selector: seq<int>, tables: seq<Table>, ghost plan: Plan)
      requires rd.Valid() && PlanOk(plan) && selector == plan.selector && TablesFor(plan.lens, tables, plan.nInUse + 2)
      modifies this
      ensures Valid() && this.plan == plan && word == NoWord && Count() == 0
    {
      this.selector, this.tables, this.plan := selector, tables, plan;
      groupNo, groupPos, gSel, word := -1, 0, 0, NoWord;
    }

    lemma TableInUse()
      requires Valid() && word != NoWord
      ensures 0 <= gSel < |tables| == |plan.lens| && TableFor(plan.lens[gSel], tables[gSel])
      ensures |plan.lens[gSel]| == plan.nInUse + 2 && LengthsOk(plan.lens[gSel])
      ensures 1 <= tables[gSel].minLen == Shortest(plan.lens[gSel], |plan.lens[gSel]|) <= MAX_LEN
    {
      TableShape(plan.lens[gSel], tables[gSel]);
    }

    /** BZ_X_MTF_1, 3 and 5: the first bits of a word. */
    method FirstBits() returns (st: Status)
      requires Valid() && word == WordStart
      modifies `word, `zvec, rd`nextIn, rd`bsBuff, rd`bsLive
      ensures Valid() && (if st == Done then word == WordTest && |rd.Pending()| < |old(rd.Pending())|
                          else st == Suspended && word == WordStart && Waits(old(WordOutcome())))
      ensures WordOutcome() == old(WordOutcome())
    {
      hide TableFor, Value, PlanOk, BitReader.Valid, BitReader.Pending, Shortest, WordFrom, LengthsOk;
      TableInUse();
      ghost var bits := rd.Pending();
      var ok, v := rd.GetBits(zn);
      if !ok { return Suspended; }
      zvec, word := v, WordTest;
      st := Done;
    }

    ghost predicate Waits(p: Parsed<int>)
      reads this, rd
    {
      rd.UsedUp() && (rd.future == [] ==> p == Partial)
    }

    /** BZ_X_MTF_2, 4 and 6: one more bit. */
    method OneMoreBit() returns (st: Status)
      requires Valid() && word == WordBit
      modifies `word, `zvec, rd`nextIn, rd`bsBuff, rd`bsLive
      ensures Valid() && (if st == Done then word == WordTest && |rd.Pending()| < |old(rd.Pending())|
                          else st == Suspended && word == WordBit && Waits(old(WordOutcome())))
      ensures |rd.Pending()| <= |old(rd.Pending())| && WordOutcome() == old(WordOutcome())
    {
      hide TableFor, PlanOk, BitReader.Valid, BitReader.Pending, WordFrom;
      var ok, zj := GetBit(rd);
      if !ok { return Suspended; }
      zvec, word := 2 * zvec + (if zj then 1 else 0), WordTest;
      st := Done;
    }

    /** The test between the bits: the word is complete and its symbol known, or one more bit belongs to it. */
    method Test() returns (st: Status, more: bool, sym: int)
      requires Valid() && word == WordTest
      modifies `word, `zn
      ensures Valid() && word == (if st == Done && more then WordBit else NoWord) && st != Suspended
      ensures st == Done && more ==> zn == old(zn) + 1 <= 21 && WordOutcome() == old(WordOutcome())
      ensures st == Done && !more ==> old(WordOutcome()) == Got(sym, rd.Pending())
      ensures st == DataError ==> old(WordOutcome()) == Wrong
    {
      hide TableFor, PlanOk, BitReader.Valid, BitReader.Pending, Limit, Base, Holder, LengthsOk, Shortest;
      TableInUse();
      TableShape(plan.lens[gSel], tables[gSel]);
      more, sym := false, 0;
      if zn > 20 {
        word := NoWord;
        return DataError, more, sym;
      }
      TableReads(plan.lens[gSel], tables[gSel], zn, zvec);
      if zvec <= tables[gSel].limit[zn] {
        word := NoWord;
        if zvec - tables[gSel].base[zn] < 0 || zvec - tables[gSel].base[zn] >= MAX_ALPHA_SIZE {
          return DataError, more, sym;
        }
        sym := tables[gSel].perm[zvec - tables[gSel].base[zn]];
      } else {
        zn, word, more := zn + 1, WordBit, true;
      }
      st := Done;
    }

    /** The loop of GET_MTF_VAL: reads the rest of one code word. */
    method ReadWord() returns (st: Status, sym: int)
      requires Valid() && (word == WordStart || word == WordBit)
      modifies `word, `zn, `zvec, rd`nextIn, rd`bsBuff, rd`bsLive
      ensures Valid() && word != WordTest
      ensures (if st == Suspended then word != NoWord && WordOutcome() == old(WordOutcome()) else word == NoWord)
      ensures match st
              case Done => old(WordOutcome()) == Got(sym, rd.Pending()) && |rd.Pending()| < |old(rd.Pending())|
              case Suspended => Waits(old(WordOutcome()))
              case DataError => old(WordOutcome()) == Wrong
    {
      hide TableFor, PlanOk, BitReader.Valid, BitReader.Pending, SymbolReader.WordOutcome;
      ghost var p := WordOutcome();
      sym := 0;
      if word == WordStart {
        st := FirstBits();
        if st != Done { return; }
      } else {
        st := OneMoreBit();
        if st != Done { return; }
      }
      while true
        invariant Valid() && word == WordTest && WordOutcome() == p && |rd.Pending()| < |old(rd.Pending())|
        decreases 21 - zn
      {
        var more;
        st, more, sym := Test();
        if st != Done || !more { return; }
        st := OneMoreBit();
        if st != Done { return; }
      }
    }

    /** The part of GET_MTF_VAL before the first bits: the next group, when the last one is used up. */
    method StartWord() returns (st: Status)
      requires Valid() && word == NoWord
      modifies `groupNo, `groupPos, `gSel, `word, `zn
      ensures Valid()
      ensures (if st == Done then word == WordStart && WordOutcome() == old(Outcome()) && Count() == old(Count())
                          else st == DataError && word == NoWord && old(Outcome()) == Wrong)
    {
      hide TableFor, BitReader.Valid, BitReader.Pending, WholeWord, LengthsOk;
      ghost var c := Count();
      GroupOf(groupNo, groupPos);
      if groupPos == 0 {
        groupNo := groupNo + 1;
        if groupNo >= |selector| { return DataError; }
        groupPos := G_SIZE;
        gSel := selector[groupNo];
      }
      groupPos := groupPos - 1;
      TableKnown(plan.lens, tables, plan.nInUse + 2, gSel);
      TableShape(plan.lens[gSel], tables[gSel]);
      zn, word := tables[gSel].minLen, WordStart;
      st := Done;
    }

    /** GET_MTF_VAL, from where it stopped. */
    method Next() returns (st: Status, sym: int)
      requires Valid() && word != WordTest
      modifies `groupNo, `groupPos, `gSel, `word, `zn, `zvec, rd`nextIn, rd`bsBuff, rd`bsLive
      ensures Valid() && word != WordTest && Agrees(old(Outcome()), st, sym, Outcome(), rd)
      ensures st == Done ==> word == NoWord && Count() == old(Count()) + 1 && |rd.Pending()| < |old(rd.Pending())|
      ensures st == Suspended ==> Count() == old(Count())
    {
      hide SymbolReader.Valid, BitReader.Valid, BitReader.Pending, SymbolReader.WordOutcome, SymbolFrom;
      sym := 0;
      if word == NoWord {
        st := StartWord();
        Readable(this);
        if st != Done { return; }
      }
      st, sym := ReadWord();
      Readable(this);
    }
  }

  lemma Readable(s: SymbolReader)
    requires s.Valid()
    ensures s.rd.Valid()
  {
  }

  lemma GroupOf(groupNo: int, groupPos: int)
    requires -1 <= groupNo && 0 <= groupPos < G_SIZE
    ensures (G_SIZE * (groupNo + 1) - groupPos) / G_SIZE == if groupPos == 0 then groupNo + 1 else groupNo
  {
  }

  lemma TableKnown(lens: seq<seq<int>>, tables: seq<Table>, a: nat, t: int)
    requires TablesFor(lens, tables, a) && 0 <= t < |tables|
    ensures |lens| == |tables| && |lens[t]| == a && TableFor(lens[t], tables[t])
  {
  }
}
