/** Reading a block: maps, selectors, code lengths and codes come out of the bit stream. */
module BlockDecoder {
  import opened BitIO
  import opened Bits
  import opened BlockFormat
  import opened BlockParser
  import opened ColumnParser
  import opened Counting
  import opened HuffmanCodes
  import opened HuffmanTree
  import opened MoveToFront
  import opened MtfEncoder

  /** How reading ends: with the item read, for want of input, or at a sequence no compressor writes.
      What is suspended goes on where it stopped when it is called again with more input. */
  datatype Status = Done | Suspended | DataError

  /** A call has ended with st and value where the reference, which foresaw before, now foresees now. A
      call only stops for want of input when there is none left; if none is to come, the reference says so. */
  ghost predicate Agrees<T>(before: Parsed<T>, st: Status, value: T, now: Parsed<T>, rd: BitReader)
    reads rd
  {
    rd.Valid()
    && match st
       case Done => before == Got(value, rd.Pending())
       case Suspended => now == before && rd.UsedUp() && (rd.future == [] ==> now == Partial)
       case DataError => before == Wrong
  }

  /** GET_BIT */
  method GetBit(rd: BitReader) returns (ok: bool, got: bool)
    requires rd.Valid()
    modifies rd`nextIn, rd`bsBuff, rd`bsLive
    ensures rd.Valid()
    ensures ok ==> |old(rd.Pending())| > 0 && got == old(rd.Pending())[0] && rd.Pending() == old(rd.Pending())[1..]
    ensures !ok ==> rd.Pending() == old(rd.Pending()) && rd.UsedUp() && (rd.future == [] ==> rd.Pending() == [])
  {
    hide BitsOf;
    var v;
    ghost var p := rd.Pending();
    ok, v := rd.GetBits(1);
    got := v == 1;
    if ok {
      assert p[..1] == [p[0]];
      OneBitValue(p[0]);
    }
  }

  lemma OneBitValue(d: bool)
    ensures Value([d]) == if d then 1 else 0
  {
    assert [d][..0] == [];
  }

  /* ---- Bytes ---- */

  /** Bytes that must be these, of which left are still to come. */
  class LetterReader {
    const rd: BitReader
    var left: seq<int>

    ghost function Outcome(): Parsed<bool>
      reads this, rd
      requires rd.Valid()
    {
      LettersFrom(left, rd.Pending())
    }

    constructor (rd: BitReader)
      ensures this.rd == rd
    {
      this.rd, left := rd, [];
    }

    method Begin(letters: seq<int>)
      modifies this
      ensures left == letters
    {
      left := letters;
    }

    method Resume() returns (st: Status)
      requires rd.Valid()
      modifies this, rd`nextIn, rd`bsBuff, rd`bsLive
      ensures rd.Valid() && Agrees(old(Outcome()), st, true, Outcome(), rd)
    {
      hide BitReader.Valid, BitReader.Pending, Value;
      ghost var p := Outcome();
      while |left| > 0
        invariant rd.Valid() && Outcome() == p
        decreases |left|
      {
        var ok, uc := rd.GetBits(8);
        if !ok { return Suspended; }
        if uc != left[0] { return DataError; }
        left := left[1..];
      }
      st := Done;
    }
  }

  /** A number sent byte by byte, of which left are still to come: value = (value << 8) | uc. */
  class NumberReader {
    const rd: BitReader
    var left: nat
    var value: nat

    ghost function Outcome(): Parsed<nat>
      reads this, rd
      requires rd.Valid()
    {
      NumberFrom(left, value, rd.Pending())
    }

    constructor (rd: BitReader)
      ensures this.rd == rd
    {
      this.rd, left, value := rd, 0, 0;
    }

    method Begin(bytes: nat)
      modifies this
      ensures left == bytes && value == 0
    {
      left, value := bytes, 0;
    }

    method Resume() returns (st: Status)
      requires rd.Valid()
      modifies this, rd`nextIn, rd`bsBuff, rd`bsLive
      ensures rd.Valid() && Agrees(old(Outcome()), st, value, Outcome(), rd)
    {
      hide BitReader.Valid, BitReader.Pending, Value;
      ghost var p := Outcome();
      while left > 0
        invariant rd.Valid() && Outcome() == p
        decreases left
      {
        var ok, uc := rd.GetBits(8);
        if !ok { return Suspended; }
        left, value := left - 1, value * 256 + uc;
      }
      st := Done;
    }
  }

  /* ---- The map of characters in use ---- */

  /** Receiving the mapping table: sixteen bits that tell which groups are used, then sixteen bits for
      every used group. second tells which part it is at. */
  class MapReader {
    const rd: BitReader
    const inUse16: array<bool>
    const inUse: array<bool>
    var second: bool
    var i: nat
    var j: nat

    ghost predicate Shape() {
      inUse16.Length == 16 && inUse.Length == 256 && inUse16 != inUse
    }

    ghost predicate Valid()
      reads this, rd, inUse16, inUse
    {
      && rd.Valid() && Shape() && i <= 16 && j <= 16
      && (!second ==> j == 0) && (j > 0 ==> i < 16 && inUse16[i])
      && (second ==> forall k :: 16 * i + j <= k < 256 ==> !inUse[k])
    }

    /** What the bits not yet read, with those that have been, mean. */
    ghost function Outcome(): (p: Parsed<seq<bool>>)
      reads this, rd, inUse16, inUse
      requires Valid()
      ensures p.Got? ==> |p.value| == 256
    {
      if second then MarksFrom(inUse16[..], inUse[..16 * i + j], rd.Pending())
      else MapGoesOn(GroupsFrom(inUse16[..i], rd.Pending()))
    }

    constructor (rd: BitReader)
      requires rd.Valid()
      ensures Shape() && this.rd == rd && fresh(inUse16) && fresh(inUse)
    {
      this.rd, inUse16, inUse := rd, new bool[16], new bool[256];
      second, i, j := false, 0, 0;
    }

    method Begin()
      requires Shape() && rd.Valid()
      modifies this
      ensures Valid() && Outcome() == MapFrom(rd.Pending())
    {
      second, i, j := false, 0, 0;
      assert inUse16[..0] == [];
    }

    /** The loop over BZ_X_MAPPING_1. */
    method Groups() returns (st: Status)
      requires Valid() && !second
      modifies `i, inUse16, rd`nextIn, rd`bsBuff, rd`bsLive
      ensures Valid() && st != DataError && (st == Done ==> i == 16)
      ensures Agrees(old(GroupsFrom(inUse16[..i], rd.Pending())), st, inUse16[..i],
                     GroupsFrom(inUse16[..i], rd.Pending()), rd)
    {
      hide BitReader.Valid, BitReader.Pending;
      ghost var p := GroupsFrom(inUse16[..i], rd.Pending());
      while i < 16
        invariant Valid() && GroupsFrom(inUse16[..i], rd.Pending()) == p
      {
        ghost var g := inUse16[..i];
        var ok, uc := GetBit(rd);
        if !ok { return Suspended; }
        inUse16[i] := uc;
        i := i + 1;
        assert inUse16[..i] == g + [uc];
      }
      st := Done;
    }

    /** The inner loop over BZ_X_MAPPING_2. */
    method Marks() returns (st: Status)
      requires Valid() && second && i < 16 && inUse16[i]
      modifies `j, inUse, rd`nextIn, rd`bsBuff, rd`bsLive
      ensures Valid() && st != DataError
      ensures (if st == Done then j == 16 && Outcome() == old(Outcome()) else Waits(old(Outcome())))
    {
      hide BitReader.Valid, BitReader.Pending;
      ghost var p := Outcome();
      while j < 16
        invariant Valid() && Outcome() == p
      {
        ghost var u := inUse[..16 * i + j];
        var ok, uc := GetBit(rd);
        if !ok { return Suspended; }
        if uc { inUse[i * 16 + j] := true; }
        j := j + 1;
        assert inUse[..16 * i + j] == u + [uc];
      }
      st := Done;
    }

    ghost predicate Waits(p: Parsed<seq<bool>>)
      reads this, rd, inUse16, inUse
    {
      Valid() && Outcome() == p && rd.UsedUp() && (rd.future == [] ==> p == Partial)
    }

    method ClearUse()
      requires inUse16 != inUse && inUse.Length == 256
      modifies inUse
      ensures forall k :: 0 <= k < 256 ==> !inUse[k]
    {
      for k := 0 to 256
        invariant forall c :: 0 <= c < k ==> !inUse[c]
      {
        inUse[k] := false;
      }
    }

    /** A group that is not used. */
    lemma Skipped()
      requires Valid() && second && i < 16 && j == 0 && !inUse16[i]
      ensures Outcome() == MarksFrom(inUse16[..], inUse[..16 * (i + 1)], rd.Pending())
    {
      hide BitReader.Valid, BitReader.Pending;
      assert inUse[..16 * (i + 1)] == inUse[..16 * i] + Unused();
    }

    /** The groups, and the marks cleared. */
    method FirstPart() returns (st: Status)
      requires Valid() && !second
      modifies this, inUse16, inUse, rd`nextIn, rd`bsBuff, rd`bsLive
      ensures Valid() && Outcome() == old(Outcome())
      ensures if st == Done then second
              else st == Suspended && rd.UsedUp() && (rd.future == [] ==> Outcome() == Partial)
    {
      hide BitReader.Valid, BitReader.Pending, GroupsFrom, MarksFrom;
      st := Groups();
      if st != Done { return; }
      ClearUse();
      assert inUse16[..16] == inUse16[..] && inUse[..0] == [];
      GroupsKnown(inUse16[..], rd.Pending());
      second, i, j := true, 0, 0;
    }

    /** The mapping table, from where it stopped. */
    method Resume() returns (st: Status)
      requires Valid()
      modifies this, inUse16, inUse, rd`nextIn, rd`bsBuff, rd`bsLive
      ensures Valid() && Agrees(old(Outcome()), st, inUse[..], Outcome(), rd)
    {
      hide BitReader.Valid, BitReader.Pending, GroupsFrom, MarksFrom;
      ghost var p := Outcome();
      if !second {
        st := FirstPart();
        if st != Done { return; }
      }
      while i < 16
        invariant Valid() && second && Outcome() == p
      {
        if inUse16[i] {
          st := Marks();
          if st != Done { return; }
        } else {
          Skipped();
        }
        i, j := i + 1, 0;
      }
      assert inUse[..256] == inUse[..];
      MarksKnown(inUse16[..], inUse[..], rd.Pending());
      st := Done;
    }
  }

  lemma MapStep(u: seq<bool>, s: seq<int>, i: nat)
    requires Mapped(u, s, i) && i < |u| == 256
    ensures UsedBelow(u, i) < 256 && UsedBelow(u, i + 1) == UsedBelow(u, i) + (if u[i] then 1 else 0)
    ensures Mapped(u, if u[i] then s[UsedBelow(u, i) := i] else s, i + 1)
  {
    forall c | 0 <= c < i && u[c] ensures UsedBelow(u, c) < UsedBelow(u, i) {
      UsedGrows(u, c, i);
    }
  }

  /** makeMaps_d */
  method MakeMaps(inUse: array<bool>, seqToUnseq: array<int>) returns (nInUse: nat)
    requires inUse.Length == seqToUnseq.Length == 256 && forall k :: 0 <= k < 256 ==> 0 <= seqToUnseq[k] < 256
    modifies seqToUnseq
    ensures nInUse == UsedBelow(inUse[..], 256) && Mapped(inUse[..], seqToUnseq[..], 256)
  {
    hide Mapped, UsedBelow;
    ghost var u := inUse[..];
    nInUse := 0;
    NoneMapped(u, seqToUnseq[..]);
    for i := 0 to 256
      invariant inUse[..] == u && nInUse == UsedBelow(u, i) && Mapped(u, seqToUnseq[..], i)
    {
      ghost var s := seqToUnseq[..];
      MapStep(u, s, i);
      assert inUse[i] == u[i];
      if inUse[i] {
        seqToUnseq[nInUse] := i;
        nInUse := nInUse + 1;
        assert seqToUnseq[..] == s[UsedBelow(u, i) := i];
      }
    }
  }

  lemma NoneMapped(u: seq<bool>, s: seq<int>)
    requires |s| == 256 && forall k :: 0 <= k < 256 ==> 0 <= s[k] < 256
    ensures Mapped(u, s, 0) && UsedBelow(u, 0) == 0
  {
  }

  /* ---- Selectors ---- */

  /** Where the reading of the selectors stands: at their number of tables, at their own number, or
      at the steps of one of them. */
  datatype RankPart = AtGroups | AtNumber | AtRanks

  /** Receiving the selectors, as ranks of a move-to-front coding. */
  class RankReader {
    const rd: BitReader
    const selectorMtf: array<int>
    var part: RankPart
    var nGroups: nat
    var nSelectors: nat
    var i: nat
    var j: nat

    ghost predicate Shape() {
      selectorMtf.Length == MAX_SELECTORS
    }

    ghost predicate Valid()
      reads this, rd, selectorMtf
    {
      && rd.Valid() && Shape() && (part != AtGroups ==> 2 <= nGroups <= N_GROUPS)
      && (part == AtRanks ==> 1 <= nSelectors && i <= nSelectors && j < nGroups && Within(Ranks(), nGroups))
    }

    /** The ranks read and kept. */
    ghost function Ranks(): seq<int>
      reads `i, selectorMtf
      requires Shape()
    {
      selectorMtf[..if i < MAX_SELECTORS then i else MAX_SELECTORS]
    }

    ghost function Outcome(): (p: Parsed<Selectors>)
      reads this, rd, selectorMtf
      requires Valid()
      ensures p.Got? ==> SelectorsOk(p.value)
    {
      match part
      case AtGroups => SelectorsFrom(rd.Pending())
      case AtNumber => NumberedFrom(nGroups, rd.Pending())
      case AtRanks => SelectorsGoOn(nGroups, Coming())
    }

    ghost function Coming(): (p: Parsed<seq<int>>)
      reads this, rd, selectorMtf
      requires Valid() && part == AtRanks
      ensures p.Got? ==> Within(p.value, nGroups)
    {
      RanksFrom(nGroups, nSelectors - i, Ranks(), j, rd.Pending())
    }

    constructor (rd: BitReader)
      requires rd.Valid()
      ensures Shape() && this.rd == rd && fresh(selectorMtf)
    {
      this.rd, selectorMtf := rd, new int[MAX_SELECTORS];
      part, nGroups, nSelectors, i, j := AtGroups, 0, 0, 0, 0;
    }

    method Begin()
      requires Shape() && rd.Valid()
      modifies this
      ensures Valid() && Outcome() == SelectorsFrom(rd.Pending())
    {
      part := AtGroups;
    }

    /** The loop over BZ_X_SELECTOR_3. */
    method OneRank() returns (st: Status)
      requires Valid() && part == AtRanks
      modifies `j, rd`nextIn, rd`bsBuff, rd`bsLive
      ensures Valid() && Agrees(old(RankFrom(nGroups, j, rd.Pending())), st, j, RankFrom(nGroups, j, rd.Pending()), rd)
    {
      hide BitReader.Valid, BitReader.Pending;
      ghost var p := RankFrom(nGroups, j, rd.Pending());
      while true
        invariant Valid() && part == AtRanks && RankFrom(nGroups, j, rd.Pending()) == p
        decreases nGroups - j
      {
        var ok, uc := GetBit(rd);
        if !ok { return Suspended; }
        if !uc { break; }
        if j + 1 >= nGroups { return DataError; }
        j := j + 1;
      }
      st := Done;
    }

    /** The loop over the selectors. Those beyond the maximum number are read and forgotten. */
    method AllRanks() returns (st: Status)
      requires Valid() && part == AtRanks
      modifies `i, `j, selectorMtf, rd`nextIn, rd`bsBuff, rd`bsLive
      ensures Valid() && (st == Done ==> i == nSelectors) && Agrees(old(Coming()), st, Ranks(), Coming(), rd)
    {
      hide BitReader.Valid, BitReader.Pending, RankFrom, RanksGoOn, Within;
      ghost var p := Coming();
      while i < nSelectors
        invariant Valid() && part == AtRanks && Coming() == p
      {
        ghost var rs, left := Ranks(), nSelectors - i;
        RanksUnfold(nGroups, left, rs, j, rd.Pending());
        RanksNext(nGroups, left, rs, 0, rd.Pending());
        st := OneRank();
        RanksUnfold(nGroups, left, rs, j, rd.Pending());
        if st != Done { return; }
        RanksNext(nGroups, left, rs, j, rd.Pending());
        if i < MAX_SELECTORS { selectorMtf[i] := j; }
        i := i + 1;
        assert Ranks() == Kept(rs, j);
        j := 0;
      }
      st := Done;
    }

    /** The number of tables. */
    method GroupsNumber() returns (st: Status)
      requires Valid() && part == AtGroups
      modifies `part, `nGroups, rd`nextIn, rd`bsBuff, rd`bsLive
      ensures Valid() && Numbered(st, old(Outcome())) && (st == Done ==> part == AtNumber)
    {
      hide BitReader.Valid, BitReader.Pending, RanksFrom, Value, NumberedFrom;
      var ok, v := rd.GetBits(3);
      if !ok { return Suspended; }
      if v < 2 || v > N_GROUPS { return DataError; }
      nGroups, part := v, AtNumber;
      st := Done;
    }

    ghost predicate Numbered(st: Status, before: Parsed<Selectors>)
      reads this, rd, selectorMtf
    {
      Valid() && match st
                 case Done => Outcome() == before
                 case Suspended => Outcome() == before && rd.UsedUp() && (rd.future == [] ==> before == Partial)
                 case DataError => before == Wrong
    }

    /** The number of selectors. */
    method SelectorsNumber() returns (st: Status)
      requires Valid() && part == AtNumber
      modifies `part, `nSelectors, `i, `j, rd`nextIn, rd`bsBuff, rd`bsLive
      ensures Valid() && Numbered(st, old(Outcome())) && (st == Done ==> part == AtRanks)
    {
      hide BitReader.Valid, BitReader.Pending, RanksFrom, Value;
      var ok, v := rd.GetBits(15);
      if !ok { return Suspended; }
      if v < 1 { return DataError; }
      nSelectors, i, j, part := v, 0, 0, AtRanks;
      assert Ranks() == [];
      st := Done;
    }

    /** The selectors, from where they stopped. */
    method Resume() returns (st: Status, s: Selectors)
      requires Valid()
      modifies this, selectorMtf, rd`nextIn, rd`bsBuff, rd`bsLive
      ensures Valid() && (st == Done ==> 2 <= s.nGroups <= N_GROUPS && Within(s.selector, s.nGroups))
      ensures Agrees(old(Outcome()), st, s, Outcome(), rd)
    {
      hide BitReader.Valid, BitReader.Pending, RanksFrom, Within, SelectorsFrom, NumberedFrom, Unranked;
      s := Selectors(0, []);
      if part == AtGroups {
        st := GroupsNumber();
        if st != Done { return; }
      }
      if part == AtNumber {
        st := SelectorsNumber();
        if st != Done { return; }
      }
      st := AllRanks();
      if st != Done { return; }
      var selector := UndoRanks(selectorMtf, if nSelectors > MAX_SELECTORS then MAX_SELECTORS else nSelectors, nGroups);
      s := Selectors(nGroups, selector);
    }
  }

  /** Moves element v of the list of tables to the front. */
  method RankFront(pos: array<int>, v: nat, ghost n: nat) returns (tmp: int)
    requires v < n <= pos.Length
    modifies pos
    ensures tmp == old(pos[v]) && pos[..n] == Front(old(pos[..n]), v)
  {
    ghost var s := pos[..n];
    var k := v;
    tmp := pos[k];
    while k > 0
      invariant 0 <= k <= v
      invariant forall i :: 0 <= i <= k ==> pos[i] == s[i]
      invariant forall i :: k <= i < v ==> pos[i + 1] == s[i]
      invariant forall i :: v < i < n ==> pos[i] == s[i]
    {
      pos[k] := pos[k - 1];
      k := k - 1;
    }
    pos[0] := tmp;
    FrontIsAgain(s, v, pos[..n]);
  }

  lemma FrontIsAgain(s: seq<int>, k: nat, t: seq<int>)
    requires k < |s| == |t|
    requires t[0] == s[k] && (forall i :: 0 <= i < k ==> t[i + 1] == s[i]) && (forall i :: k < i < |s| ==> t[i] == s[i])
    ensures t == Front(s, k)
  {
    var f := Front(s, k);
    forall j | 0 <= j < |s| ensures t[j] == f[j] {
      if 0 < j <= k { assert t[(j - 1) + 1] == s[j - 1]; }
    }
  }

  /** Undoes the move-to-front coding of the selectors. */
  method UndoRanks(selectorMtf: array<int>, nSelectors: nat, nGroups: nat) returns (selectors: seq<int>)
    requires nSelectors <= MAX_SELECTORS == selectorMtf.Length && 0 < nGroups <= N_GROUPS
    requires Within(selectorMtf[..nSelectors], nGroups)
    ensures Within(selectors, nGroups) && selectors == Unranked(nGroups, selectorMtf[..nSelectors])
  {
    hide List, Front;
    ghost var r := selectorMtf[..nSelectors];
    var selector := new int[MAX_SELECTORS];
    var pos := new int[N_GROUPS](i => i);
    StartPos(r, nGroups, pos[..nGroups]);
    for i := 0 to nSelectors
      modifies selector, pos
      invariant forall k :: 0 <= k < i ==> 0 <= selector[k] < nGroups && selector[k] == Unranked(nGroups, r)[k]
      invariant pos[..nGroups] == List(r, nGroups, i)
    {
      ghost var p := pos[..nGroups];
      ListPerm(r, nGroups, i);
      var v := selectorMtf[i];
      assert v == r[i];
      assert 0 <= p[v] < nGroups;
      var tmp := RankFront(pos, v, nGroups);
      selector[i] := tmp;
      ListNext(r, nGroups, i);
    }
    selectors := selector[..nSelectors];
  }

  lemma StartPos(r: seq<int>, n: nat, s: seq<int>)
    requires Within(r, n) && |s| == n && forall k :: 0 <= k < n ==> s[k] == k
    ensures s == List(r, n, 0)
  {
  }

  lemma ListNext(r: seq<int>, n: nat, i: nat)
    requires Within(r, n) && i < |r|
    ensures List(r, n, i + 1) == Front(List(r, n, i), r[i])
  {
  }

  /* ---- Code lengths ---- */

  /** Where the reading of the code lengths stands: at a table's first length, at the bit that tells
      whether a step follows, or at the direction of a step. */
  datatype LengthPart = AtStart | AtMore | AtStep

  /** Receiving the code lengths of all tables. */
  class LengthReader {
    const rd: BitReader
    const row: array<int>
    var part: LengthPart
    var nGroups: nat
    var alphaSize: nat
    var t: nat
    var i: nat
    var curr: int
    var lens: seq<seq<int>>

    ghost predicate Shape() {
      row.Length == MAX_ALPHA_SIZE
    }

    ghost predicate Valid()
      reads this, rd, row
    {
      && rd.Valid() && Shape() && 0 < alphaSize <= MAX_ALPHA_SIZE && t == |lens| <= nGroups
      && TablesOk(lens, alphaSize) && i <= alphaSize && (part != AtStart ==> LengthsOk(row[..i]))
      && (part != AtStart ==> t < nGroups)
      && (part == AtStep ==> i < alphaSize)
    }

    ghost function Outcome(): (p: Parsed<seq<seq<int>>>)
      reads this, rd, row
      requires Valid()
      ensures p.Got? ==> |p.value| == nGroups && TablesOk(p.value, alphaSize)
    {
      if part == AtStart then TablesFrom(nGroups - t, alphaSize, lens, rd.Pending())
      else TablesGoOn(nGroups - t, alphaSize, lens, RowComing())
    }

    ghost function RowComing(): (p: Parsed<seq<int>>)
      reads this, rd, row
      requires Valid() && part != AtStart
      ensures p.Got? ==> |p.value| == alphaSize && LengthsOk(p.value)
    {
      RowFrom(alphaSize, row[..i], part == AtStep, curr, rd.Pending())
    }

    constructor (rd: BitReader)
      requires rd.Valid()
      ensures Shape() && this.rd == rd && fresh(row)
    {
      this.rd, row := rd, new int[MAX_ALPHA_SIZE];
      part, nGroups, alphaSize, t, i, curr, lens := AtStart, 0, 1, 0, 0, 0, [];
    }

    method Begin(nGroups: nat, alphaSize: nat)
      requires Shape() && rd.Valid() && 0 < alphaSize <= MAX_ALPHA_SIZE
      modifies this
      ensures Valid() && this.nGroups == nGroups && this.alphaSize == alphaSize
      ensures Outcome() == TablesFrom(nGroups, alphaSize, [], rd.Pending())
    {
      this.nGroups, this.alphaSize, part, t, i, lens := nGroups, alphaSize, AtStart, 0, 0, [];
    }

    /** One length, in steps from the one before. */
    method Length() returns (st: Status)
      requires Valid() && part != AtStart && i < alphaSize
      modifies `part, `curr, rd`nextIn, rd`bsBuff, rd`bsLive
      ensures Valid() && part != AtStart && (st == Done ==> part == AtMore)
      ensures Agrees(old(LengthFrom(part == AtStep, curr, rd.Pending())), st, curr,
                     LengthFrom(part == AtStep, curr, rd.Pending()), rd)
    {
      hide BitReader.Valid, BitReader.Pending, LengthsOk, TablesOk;
      ghost var p := LengthFrom(part == AtStep, curr, rd.Pending());
      while true
        invariant Valid() && part != AtStart && i < alphaSize && LengthFrom(part == AtStep, curr, rd.Pending()) == p
        decreases |rd.Pending()|
      {
        if part == AtMore {
          if curr < 1 || curr > 20 { return DataError; }
          var ok, more := GetBit(rd);
          if !ok { return Suspended; }
          if !more { return Done; }
          part := AtStep;
        }
        var ok, uc := GetBit(rd);
        if !ok { return Suspended; }
        if !uc { curr := curr + 1; } else { curr := curr - 1; }
        part := AtMore;
      }
    }

    /** The lengths of one table. */
    method Row() returns (st: Status)
      requires Valid() && part != AtStart
      modifies `part, `i, `curr, row, rd`nextIn, rd`bsBuff, rd`bsLive
      ensures Valid() && part != AtStart && (st == Done ==> i == alphaSize && part == AtMore)
      ensures Agrees(old(RowComing()), st, row[..i], RowComing(), rd)
    {
      hide BitReader.Valid, BitReader.Pending, LengthFrom, TablesOk, LengthsOk, RowGoesOn;
      ghost var p := RowComing();
      while i < alphaSize
        invariant Valid() && part != AtStart && RowComing() == p
        decreases alphaSize - i
      {
        ghost var s := row[..i];
        RowUnfold(alphaSize, s, part == AtStep, curr, rd.Pending());
        RowNext(alphaSize, s, 1, rd.Pending());
        st := Length();
        RowUnfold(alphaSize, s, part == AtStep, curr, rd.Pending());
        if st != Done { return; }
        RowNext(alphaSize, s, curr, rd.Pending());
        row[i] := curr;
        i := i + 1;
        assert row[..i] == s + [curr];
      }
      st := Done;
    }

    /** BZ_X_CODING_1: the length the first one is told from. */
    method Open() returns (st: Status)
      requires Valid() && part == AtStart && t < nGroups
      modifies `part, `i, `curr, rd`nextIn, rd`bsBuff, rd`bsLive
      ensures Valid() && Outcome() == old(Outcome())
      ensures if st == Done then part == AtMore
              else st == Suspended && rd.UsedUp() && (rd.future == [] ==> Outcome() == Partial)
    {
      hide BitReader.Valid, BitReader.Pending, TablesOk, LengthsOk, Value, TablesFrom, TablesGoOn, RowFrom;
      TablesUnfold(nGroups - t, alphaSize, lens, rd.Pending());
      var ok, c := rd.GetBits(5);
      if !ok { return Suspended; }
      curr, i, part := c, 0, AtMore;
      assert row[..0] == [];
      st := Done;
    }

    /** The lengths of a table that has been opened. */
    method RestOfTable() returns (st: Status)
      requires Valid() && part != AtStart
      modifies `part, `t, `i, `curr, `lens, row, rd`nextIn, rd`bsBuff, rd`bsLive
      ensures Valid()
      ensures match st
              case Done => t == old(t) + 1 && Outcome() == old(Outcome())
              case Suspended =>
                && t == old(t) && Outcome() == old(Outcome()) && rd.UsedUp()
                && (rd.future == [] ==> Outcome() == Partial)
              case DataError => old(Outcome()) == Wrong
    {
      hide BitReader.Valid, BitReader.Pending, TablesOk, LengthsOk, TablesFrom, TablesGoOn, RowFrom;
      EqualLengths(alphaSize);
      TablesNext(nGroups - t, alphaSize, lens, seq(alphaSize, _ => 1), rd.Pending());
      st := Row();
      if st != Done { return; }
      TablesNext(nGroups - t, alphaSize, lens, row[..alphaSize], rd.Pending());
      lens := lens + [row[..alphaSize]];
      t, part, i := t + 1, AtStart, 0;
    }

    /** All tables, from where they stopped. */
    method Resume() returns (st: Status)
      requires Valid()
      modifies `part, `t, `i, `curr, `lens, row, rd`nextIn, rd`bsBuff, rd`bsLive
      ensures Valid() && (st == Done ==> t == nGroups) && Agrees(old(Outcome()), st, lens, Outcome(), rd)
    {
      hide BitReader.Valid, BitReader.Pending, TablesOk, LengthsOk, Value, TablesFrom, TablesGoOn, RowFrom;
      ghost var p := Outcome();
      while t < nGroups
        invariant Valid() && Outcome() == p
        decreases nGroups - t
      {
        if part == AtStart {
          st := Open();
          if st != Done { return; }
        }
        st := RestOfTable();
        if st != Done { return; }
      }
      TablesDone(alphaSize, lens, rd.Pending());
      st := Done;
    }
  }

  lemma EqualLengths(a: nat)
    ensures LengthsOk(seq(a, _ => 1))
  {
  }

  /* ---- Decoding tables ---- */

  /** limit, base, perm and the shortest length of one table. */
  datatype Table = Table(limit: seq<int>, base: seq<int>, perm: seq<int>, minLen: nat)

  ghost predicate TableFor(L: seq<int>, t: Table) {
    && t.minLen == Shortest(L, |L|) && 1 <= t.minLen <= Longest(L, |L|) <= MAX_LEN
    && Decodes(L, t.minLen, Longest(L, |L|), t.limit, t.base, t.perm)
  }

  lemma {:induction false} Lengths20(L: seq<int>, j: nat)
    requires LengthsOk(L) && 0 < j <= |L|
    ensures 1 <= Shortest(L, j) <= Longest(L, j) <= MAX_LEN
    ensures forall i :: 0 <= i < j ==> Shortest(L, j) <= L[i] <= Longest(L, j)
  {
    if j > 1 { Lengths20(L, j - 1); }
  }

  /** Makes the decoding table for one set of lengths. */
  method MakeTable(L: seq<int>) returns (t: Table)
    requires 0 < |L| <= MAX_ALPHA_SIZE && LengthsOk(L)
    ensures TableFor(L, t)
  {
    hide Decodes;
    var minLen, maxLen := 32, 0;
    for i := 0 to |L|
      invariant minLen == Shortest(L, i) && maxLen == Longest(L, i)
    {
      if L[i] > maxLen { maxLen := L[i]; }
      if L[i] < minLen { minLen := L[i]; }
    }
    Lengths20(L, |L|);
    var limit, base, perm := new int[MAX_ALPHA_SIZE], new int[MAX_ALPHA_SIZE], new int[MAX_ALPHA_SIZE];
    var len := new int[|L|](i requires 0 <= i < |L| => L[i]);
    assert len[..|L|] == L;
    CreateDecodeTables(limit, base, perm, len, minLen, maxLen, |L|);
    t := Table(limit[..], base[..], perm[..], minLen);
  }

  /** The decoding tables of a block. */
  method MakeTables(lens: seq<seq<int>>, alphaSize: nat) returns (tables: seq<Table>)
    requires 0 < alphaSize <= MAX_ALPHA_SIZE && TablesOk(lens, alphaSize)
    ensures TablesFor(lens, tables, alphaSize)
  {
    hide TableFor, LengthsOk;
    tables := [];
    for t := 0 to |lens|
      invariant |tables| == t && forall k :: 0 <= k < t ==> TableFor(lens[k], tables[k])
    {
      var table := MakeTable(lens[t]);
      tables := tables + [table];
    }
  }

  ghost predicate TablesFor(lens: seq<seq<int>>, tables: seq<Table>, alphaSize: nat) {
    |lens| == |tables| && forall t :: 0 <= t < |lens| ==> |lens[t]| == alphaSize && TableFor(lens[t], tables[t])
  }
}
