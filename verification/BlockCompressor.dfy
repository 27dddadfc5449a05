/** Compressing one block: header, sorting, symbols, tables and data. */
module BlockCompressor {
  import opened BitIO
  import opened Bits
  import opened BlockEncoder
  import opened BlockFormat
  import BlockSort
  import opened Counting
  import opened HeaderBits
  import opened InverseBwt
  import MainCompare
  import MainRadix
  import opened MoveToFront
  import opened MtfEncoder
  import opened Powers
  import opened Rotation
  import opened TableChoice

  /* ---- sendMTFValues ---- */

  /** Room that suffices for what follows a block's header. */
  function Room(nMTF: nat): nat {
    51404 + 6 * ((nMTF + 49) / 50) + 17 * nMTF
  }

  lemma TablesSound(lens: seq<seq<int>>, nGroups: nat, alphaSize: nat)
    requires AllComplete(lens, nGroups, alphaSize) && 3 <= alphaSize <= 258
    ensures |lens| == nGroups
    ensures forall t :: 0 <= t < nGroups ==>
              && |lens[t]| == alphaSize && TableOk(lens[t]) && ShortTable(lens[t])
              && Longest(lens[t], |lens[t]|) <= 17 && 0 <= lens[t][0] < 32
  {
    hide TableOk, Longest;
    forall t | 0 <= t < nGroups
      ensures |lens[t]| == alphaSize && TableOk(lens[t]) && ShortTable(lens[t])
      ensures Longest(lens[t], |lens[t]|) <= 17 && 0 <= lens[t][0] < 32
    {
      CompleteIsOk(lens[t]);
    }
  }

  lemma SelectorsInRange(before: seq<seq<int>>, lens: seq<seq<int>>, s: seq<int>, a: nat, selector: seq<int>, n: nat)
    requires Improved(before, lens, s, a, selector, n)
    ensures n <= |selector| && Within(selector[..n], |lens|) && (n > 0 ==> G_SIZE * (n - 1) < |s|)
  {
    hide CheapestAt, FitsUses;
  }

  /** The tables and selectors of x are those of the four passes. */
  ghost predicate TablesChosen(x: Coded) {
    && |x.inUse| == 256 && AllComplete(x.lens, TableCount(|x.symbols|), AlphaSize(x))
    && exists rounds: seq<seq<seq<int>>> :: ChosenBy(x, rounds)
  }

  ghost predicate ChosenBy(x: Coded, rounds: seq<seq<seq<int>>>)
    requires |x.inUse| == 256
  {
    && |rounds| == 5 && Passes(rounds, x.symbols, AlphaSize(x)) && x.lens == rounds[4]
    && Improved(rounds[3], x.lens, x.symbols, AlphaSize(x), x.selectors, |x.selectors|)
  }

  lemma ChosenIntro(x: Coded, rounds: seq<seq<seq<int>>>, selector: seq<int>, n: nat)
    requires |x.inUse| == 256 && AllComplete(x.lens, TableCount(|x.symbols|), AlphaSize(x))
    requires |rounds| == 5 && Passes(rounds, x.symbols, AlphaSize(x)) && x.lens == rounds[4]
    requires Improved(rounds[3], x.lens, x.symbols, AlphaSize(x), selector, n)
    requires n <= |selector| && x.selectors == selector[..n]
    ensures TablesChosen(x)
  {
    ImprovedCut(rounds[3], x.lens, x.symbols, AlphaSize(x), selector, n);
    hide Improved, Passes, AllComplete;
    assert ChosenBy(x, rounds);
  }

  lemma SoundIntro(x: Coded, nGroups: nat)
    requires |x.inUse| == 256 && AlphaSize(x) > 2 && 2 <= nGroups <= N_GROUPS && AlphaSize(x) <= 258
    requires |x.lens| == nGroups
    requires forall t :: 0 <= t < nGroups ==> |x.lens[t]| == AlphaSize(x) && TableOk(x.lens[t]) && ShortTable(x.lens[t])
    requires 1 <= |x.selectors| <= MAX_SELECTORS && Ranked(x.selectors, nGroups, x.ranks)
    requires Within(x.selectors, nGroups)
    requires |x.symbols| <= G_SIZE * |x.selectors| && Within(x.symbols, AlphaSize(x))
    requires G_SIZE * (|x.selectors| - 1) < |x.symbols|
    ensures Sound(x) && Short(x) && |CodedBits(x)| <= Room(|x.symbols|)
  {
    hide TableOk, ShortTable, Ranked, Within, CodedBits;
    CodedSize(x);
  }

  lemma CodedParts(x: Coded, rest: seq<bool>)
    requires Sound(x)
    ensures forall k :: 0 <= k < |x.ranks| ==> 0 <= x.ranks[k]
    ensures forall t :: 0 <= t < |x.lens| ==> |x.lens[t]| > 0 && 0 <= x.lens[t][0]
    ensures CodedBits(x) + rest == MapBits(x.inUse) + (BitsOf(|x.lens|, 3) + (BitsOf(|x.selectors|, 15) +
              (SelectorBits(x.ranks, 0) + (TablesBits(x.lens, 0) + (DataBits(x, 0) + rest)))))
  {
    Positive(x);
    hide Sound, MapBits, BitsOf, SelectorBits, TablesBits, DataBits;
    Regroup(MapBits(x.inUse), BitsOf(|x.lens|, 3), BitsOf(|x.selectors|, 15), SelectorBits(x.ranks, 0),
             TablesBits(x.lens, 0),
            DataBits(x, 0), rest);
  }

  lemma Regroup(a: seq<bool>, b: seq<bool>, c: seq<bool>, d: seq<bool>, e: seq<bool>, f: seq<bool>, r: seq<bool>)
    ensures (a + (b + (c + (d + (e + f))))) + r == a + (b + (c + (d + (e + (f + r)))))
  {
    Join(e, f, r);
    Join(d, e + f, r);
    Join(c, d + (e + f), r);
    Join(b, c + (d + (e + f)), r);
    Join(a, b + (c + (d + (e + f))), r);
  }

  lemma Join(a: seq<bool>, b: seq<bool>, c: seq<bool>)
    ensures (a + b) + c == a + (b + c)
  {
  }

  lemma SmallNumbers()
    ensures Pow2(3) == 8 && Pow2(15) == 32768
  {
    assert Pow2(3) == 8;
    assert Pow2(7) == 128;
    assert Pow2(11) == 2048;
    assert Pow2(15) == 32768;
  }

  /** sendMTFValues: writes the symbols in a form the decoder can make sense of. */
  method SendValues(w: BitWriter, inUse: array<bool>, mtfv: seq<int>, mtfFreq: array<int>, nInUse: nat)
    returns (ghost x: Coded)
    requires inUse.Length == 256 && nInUse == UsedBelow(inUse[..], 256) && 0 < nInUse && w.zbits != mtfFreq
    requires 0 < |mtfv| <= MAX_SYMBOLS && Within(mtfv, nInUse + 2) && mtfFreq.Length == 258
    requires Tallied(mtfv, |mtfv|, mtfFreq[..], nInUse)
    requires w.Valid() && |w.Written()| + Room(|mtfv|) <= 8 * w.zbits.Length
    modifies w, w.zbits
    ensures Sound(x) && x.inUse == inUse[..] && x.symbols == mtfv && TablesChosen(x)
    ensures w.Valid() && w.Written() == old(w.Written()) + CodedBits(x) && |CodedBits(x)| <= Room(|mtfv|)
  {
    hide Left, Sound, CodedBits, MapBits, BitsOf, SelectorBits, TablesBits, DataBits, Room, AllComplete, Improved,
      Passes, TablesChosen, CodesFor, TableOk, ShortTable, Tallied, Ranked, UsedBelow, Longest, Short, Within, Pow2;
    UsedBound(inUse[..]);
    var alphaSize := nInUse + 2;
    var selector := new int[MAX_SELECTORS];
    var nSelectors, lens; ghost var rounds;
    nSelectors, lens, rounds := ChooseTables(mtfv, mtfFreq, |mtfv|, alphaSize, selector);
    var nGroups := TableCount(|mtfv|);
    TablesSound(lens, nGroups, alphaSize);
    SelectorsInRange(rounds[3], lens, mtfv, alphaSize, selector[..], nSelectors);
    assert selector[..][..nSelectors] == selector[..nSelectors];
    var selectorMtf := RankSelectors(selector, nSelectors, nGroups);
    var codes := AllCodes(lens);
    x := Coded(inUse[..], selectorMtf[..nSelectors], selector[..nSelectors], lens, mtfv);
    SoundIntro(x, nGroups);
    ChosenIntro(x, rounds, selector[..], nSelectors);
    assert nGroups < 8;  // AssertH 3002
    assert nSelectors < 32768 && nSelectors <= MAX_SELECTORS;  // AssertH 3003
    WriteCoded(w, inUse, selectorMtf, selector, nSelectors, lens, codes, mtfv, x);
  }

  lemma {:induction false} UsedBound(inUse: seq<bool>)
    requires |inUse| == 256
    ensures UsedBelow(inUse, 256) <= 256
  {
  }

  /** The output part of sendMTFValues. */
  method WriteCoded(w: BitWriter, inUse: array<bool>, selectorMtf: array<int>, selector: array<int>, nSelectors: nat,
                    lens: seq<seq<int>>, codes: seq<seq<int>>, mtfv: seq<int>, ghost x: Coded)
    requires inUse.Length == 256 && nSelectors <= selectorMtf.Length && nSelectors <= selector.Length
    requires nSelectors <= MAX_SELECTORS
    requires w.zbits != selectorMtf && w.zbits != selector && 2 <= |lens| < 8
    requires x == Coded(inUse[..], selectorMtf[..nSelectors], selector[..nSelectors], lens, mtfv) && Sound(x)
    requires G_SIZE * (nSelectors - 1) < |mtfv|
    requires forall t :: 0 <= t < |lens| ==> |lens[t]| > 0 && 0 <= lens[t][0] < 32
    requires |codes| == |lens| && forall t :: 0 <= t < |lens| ==> CodesFor(lens[t], codes[t])
    requires w.Valid() && |w.Written()| + |CodedBits(x)| <= 8 * w.zbits.Length
    modifies w, w.zbits
    ensures w.Valid() && w.Written() == old(w.Written()) + CodedBits(x)
  {
    hide Left, Sound, CodedBits, MapBits, BitsOf, SelectorBits, TablesBits, DataBits, CodesFor, Pow2;
    ghost var goal := w.Written() + CodedBits(x);
    SmallNumbers();
    CodedParts(x, []);
    ghost var d := DataBits(x, 0) + [];
    ghost var t := TablesBits(x.lens, 0) + d;
    ghost var s := SelectorBits(x.ranks, 0) + t;
    ghost var c := BitsOf(nSelectors, 15) + s;
    ghost var g := BitsOf(|lens|, 3) + c;
    assert CodedBits(x) + [] == CodedBits(x);
    LeftStart(w, MapBits(x.inUse) + g, goal);
    SendMap(w, inUse, g, goal);
    PutBits(w, 3, |lens|, c, goal);
    PutBits(w, 15, nSelectors, s, goal);
    assert forall k :: 0 <= k < nSelectors ==> selectorMtf[k] == x.ranks[k];
    SendSelectors(w, selectorMtf, nSelectors, t, goal);
    SendTables(w, lens, d, goal);
    SendData(w, lens, codes, selector, nSelectors, mtfv, x, [], goal);
    LeftEnd(w, goal);
  }

  lemma LeftStart(w: BitWriter, left: seq<bool>, goal: seq<bool>)
    requires w.Valid() && w.Written() + left == goal && |goal| <= 8 * w.zbits.Length
    ensures Left(w, left, goal)
  {
  }

  lemma LeftEnd(w: BitWriter, goal: seq<bool>)
    requires Left(w, [], goal)
    ensures w.Valid() && w.Written() == goal
  {
    assert w.Written() + [] == w.Written();
  }

  /* ---- BZ2_compressBlock ---- */

  /** A block's header: magic number, checksum, the bit for randomised blocks, origin pointer. */
  ghost function HeadBits(crc: nat, origPtr: nat): seq<bool> {
    ByteBits([0x31, 0x41, 0x59, 0x26, 0x53, 0x59]) + (BitsOf(crc, 32) + ([false] + BitsOf(origPtr, 24)))
  }

  ghost function BlockBits(crc: nat, origPtr: nat, x: Coded): seq<bool>
    requires Sound(x)
  {
    HeadBits(crc, origPtr) + CodedBits(x)
  }

  method PutBytes(w: BitWriter, bytes: seq<int>)
    requires w.Valid() && Bytes(bytes) && |w.Written()| + 8 * |bytes| <= 8 * w.zbits.Length
    modifies w, w.zbits
    ensures w.Valid() && w.Written() == old(w.Written()) + ByteBits(bytes)
  {
    hide ByteBits, BitsOf;
    ghost var s := w.Written();
    NoBytes(bytes);
    for i := 0 to |bytes|
      invariant w.Valid() && Bytes(bytes[..i]) && w.Written() == s + ByteBits(bytes[..i])
    {
      ByteBitsGrow(bytes[..i], bytes[i]);
      assert bytes[..i + 1] == bytes[..i] + [bytes[i]];
      w.PutUChar(bytes[i]);
    }
    assert bytes[..|bytes|] == bytes;
  }

  lemma NoBytes(bytes: seq<int>)
    ensures Bytes(bytes[..0]) && ByteBits(bytes[..0]) == []
  {
  }

  /** What a block in the stream stands for: x codes the last column of b's sorted rotations with the tables
      chosen for its symbols, and origPtr is the row of b. */
  ghost predicate Encodes(b: seq<int>, origPtr: nat, x: Coded) {
    && |b| > 0 && Within(b, 256) && Sound(x) && origPtr < |b| && OnlyUsed(x.inUse, b) && TablesChosen(x)
    && exists p: seq<int>, r: seq<int> :: EncodesVia(b, origPtr, x, p, r)
  }

  ghost predicate EncodesVia(b: seq<int>, origPtr: nat, x: Coded, p: seq<int>, r: seq<int>)
    requires Within(b, 256) && Sound(x) && origPtr < |b|
  {
    && SortsRotations(b, p) && p[origPtr] == 0 && AllUsed(x.inUse, LastColumn(b, p))
    && Ranked(Numbered(x.inUse, LastColumn(b, p)), UsedBelow(x.inUse, 256), r)
    && x.symbols == Symbols(r, UsedBelow(x.inUse, 256))
  }

  lemma ColumnUsed(b: seq<int>, p: seq<int>, inUse: seq<bool>)
    requires SortsRotations(b, p) && AllUsed(inUse, b)
    ensures SortedTo(b, p, |b|) && AllUsed(inUse, LastColumn(b, p))
    ensures forall i :: 0 <= i < |b| ==> 0 <= p[i] < |b| && LastColumn(b, p)[i] == b[Prev(p[i], |b|)]
  {
  }

  lemma SomeUsed(b: seq<int>, inUse: seq<bool>)
    requires AllUsed(inUse, b) && |b| > 0
    ensures UsedBelow(inUse, 256) > 0
  {
    UsedGrows(inUse, b[0], 256);
  }

  method PutHead(w: BitWriter, blockCRC: nat, origPtr: nat)
    requires blockCRC < WORD && origPtr <= BlockSort.MAX_BLOCK && w.Valid() && |w.Written()| + 105 <= 8 * w.zbits.Length
    modifies w, w.zbits
    ensures w.Valid() && w.Written() == old(w.Written()) + HeadBits(blockCRC, origPtr)
    ensures |w.Written()| == |old(w.Written())| + 105
  {
    hide ByteBits, BitsOf, Pow2;
    ghost var s := w.Written();
    PutBytes(w, [0x31, 0x41, 0x59, 0x26, 0x53, 0x59]);
    w.PutUInt32(blockCRC);
    OneBit(false);
    OneBits();
    PowersOfBytes();
    w.W(1, 0);
    w.W(24, origPtr);
    HeadJoins(s, ByteBits([0x31, 0x41, 0x59, 0x26, 0x53, 0x59]), BitsOf(blockCRC, 32), [false], BitsOf(origPtr, 24));
  }

  lemma HeadJoins(s: seq<bool>, a: seq<bool>, b: seq<bool>, c: seq<bool>, d: seq<bool>)
    ensures (((s + a) + b) + c) + d == s + (a + (b + (c + d)))
  {
    Join(s + a + b, c, d);
    Join(s + a, b, c + d);
    Join(s, a, b + (c + d));
  }

  lemma OneBits()
    ensures Pow2(1) == 2 && Pow2(0) == 1
  {
  }

  lemma UsedWithin(b: seq<int>, inUse: seq<bool>)
    requires AllUsed(inUse, b)
    ensures Within(b, 256)
  {
  }

  lemma RoomGrows(n: nat, m: nat)
    requires n <= m
    ensures Room(n) <= Room(m)
  {
  }

  /** The symbols of the sorted block, with their counts, in place of the row pointers. */
  method Symbolise(ptr: array<int>, block: array<int>, inUse: array<bool>, nblock: nat)
    returns (symbols: seq<int>, mtfFreq: array<int>, nInUse: nat, ghost r: seq<int>)
    requires 0 < nblock == ptr.Length <= block.Length && inUse.Length == 256 && AllUsed(inUse[..], block[..nblock])
    requires SortsRotations(block[..nblock], ptr[..]) && ptr != block
    modifies ptr
    ensures fresh(mtfFreq) && mtfFreq.Length == 258 && nInUse == UsedBelow(inUse[..], 256) > 0
    ensures SortedTo(block[..nblock], old(ptr[..]), nblock)
    ensures AllUsed(inUse[..], LastColumn(block[..nblock], old(ptr[..])))
    ensures Ranked(Numbered(inUse[..], LastColumn(block[..nblock], old(ptr[..]))), nInUse, r)
    ensures symbols == Symbols(r, nInUse)
    ensures 0 < |symbols| <= nblock + 1 && Within(symbols, nInUse + 2)
    ensures Tallied(symbols, |symbols|, mtfFreq[..], nInUse)
  {
    hide AllUsed, SortsRotations, SortedTo, Within, Ranked, Numbered, Tallied, Symbols, UsedBelow, LastColumn;
    ghost var b := block[..nblock];
    ghost var p := ptr[..];
    ColumnUsed(b, p, inUse[..]);
    ghost var l := LastColumn(b, p);
    var unseqToSeq, mtfv := new int[256], new int[nblock + 1];
    mtfFreq := new int[258];
    var nMTF;
    nMTF, nInUse, r := GenerateValues(ptr, block, inUse, unseqToSeq, nblock, mtfv, mtfFreq, b, l);
    SomeUsed(b, inUse[..]);
    symbols := mtfv[..nMTF];
    SymbolsFit(mtfv[..], nMTF, mtfFreq[..], nInUse, symbols, r, Numbered(inUse[..], l));
  }

  lemma SymbolsFit(mtfv: seq<int>, nMTF: nat, freq: seq<int>, n: nat, s: seq<int>, r: seq<int>, col: seq<int>)
    requires Tallied(mtfv, nMTF, freq, n) && nMTF <= |mtfv| && s == mtfv[..nMTF] == Symbols(r, n) && Ranked(col, n, r)
    requires n > 0
    ensures |s| == nMTF > 0 && Tallied(s, nMTF, freq, n) && Within(s, n + 2)
  {
    SymbolBounds(r, n);
    forall c ensures CountEq(s, nMTF, c) == CountEq(mtfv, nMTF, c) {
      CountEqSame(s, mtfv, nMTF, c);
    }
  }

  lemma EncodesIntro(b: seq<int>, origPtr: nat, x: Coded, p: seq<int>, r: seq<int>)
    requires |b| > 0 && Within(b, 256) && Sound(x) && origPtr < |b| && SortsRotations(b, p) && |p| == |b|
    requires p[origPtr] == 0 && OnlyUsed(x.inUse, b) && TablesChosen(x)
    requires SortedTo(b, p, |b|) && AllUsed(x.inUse, LastColumn(b, p))
    requires Ranked(Numbered(x.inUse, LastColumn(b, p)), UsedBelow(x.inUse, 256), r)
    requires x.symbols == Symbols(r, UsedBelow(x.inUse, 256))
    ensures Encodes(b, origPtr, x)
  {
    hide TablesChosen, OnlyUsed;
    assert EncodesVia(b, origPtr, x, p, r);
  }

  /** BZ2_blockSort on working arrays of its own. */
  method SortBlock(block: array<int>, nblock: nat, workFactor: int) returns (ptr: array<int>, origPtr: nat)
    requires 0 < nblock <= BlockSort.MAX_BLOCK && nblock + MainCompare.OVERSHOOT <= block.Length
    requires Within(block[..nblock], 256)
    modifies block
    ensures fresh(ptr) && ptr.Length == nblock && block[..nblock] == old(block[..nblock])
    ensures SortsRotations(block[..nblock], ptr[..]) && origPtr < nblock && ptr[origPtr] == 0
  {
    hide SortsRotations, Within;
    ptr := new int[nblock];
    var eclass := new int[nblock];
    var quadrant := new int[nblock + MainCompare.OVERSHOOT];
    var ftab, bhtab := new int[MainRadix.KEYS + 1], new HeaderBits.Word[MainRadix.KEYS + 1](_ => 0);
    var orig := BlockSort.Sort(ptr, eclass, block, quadrant, ftab, bhtab, nblock, workFactor);
    origPtr := orig;
  }

  /** A block's bits: header and data. The bytes go where the writer's buffer is; the checksum is given. */
  method CompressBlock(w: BitWriter, block: array<int>, inUse: array<bool>, nblock: nat, workFactor: int, blockCRC: nat)
    returns (ghost origPtr: nat, ghost x: Coded)
    requires 0 < nblock <= BlockSort.MAX_BLOCK && nblock + MainCompare.OVERSHOOT <= block.Length && w.zbits != block
    requires inUse.Length == 256 && AllUsed(inUse[..], block[..nblock]) && blockCRC < WORD
    requires OnlyUsed(inUse[..], block[..nblock])
    requires w.Valid() && |w.Written()| + 105 + Room(nblock + 1) <= 8 * w.zbits.Length
    modifies w, w.zbits, block
    ensures block[..nblock] == old(block[..nblock])
    ensures Encodes(block[..nblock], origPtr, x)
    ensures Sound(x) && w.Valid() && w.Written() == old(w.Written()) + BlockBits(blockCRC, origPtr, x)
    ensures |w.Written()| <= |old(w.Written())| + 105 + Room(nblock + 1)
  {
    hide AllUsed, OnlyUsed, TablesChosen, Encodes, SortsRotations, SortedTo, Within, Ranked, Numbered, Tallied, Symbols,
      Room, Sound, CodedBits, HeadBits, UsedBelow, LastColumn;
    ghost var b, s := block[..nblock], w.Written();
    UsedWithin(b, inUse[..]);
    var ptr, orig := SortBlock(block, nblock, workFactor);
    origPtr := orig;
    PutHead(w, blockCRC, orig);
    ghost var p := ptr[..];
    var symbols, mtfFreq, nInUse; ghost var r;
    symbols, mtfFreq, nInUse, r := Symbolise(ptr, block, inUse, nblock);
    RoomGrows(|symbols|, nblock + 1);
    x := SendValues(w, inUse, symbols, mtfFreq, nInUse);
    EncodesIntro(b, origPtr, x, p, r);
    Join(s, HeadBits(blockCRC, origPtr), CodedBits(x));
  }
}
