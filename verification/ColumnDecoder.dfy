/** From symbols to the last column: runs, move-to-front, and the counts of the characters. */
module ColumnDecoder {
  import opened BitIO
  import opened BlockDecoder
  import opened BlockParser
  import opened ColumnParser
  import opened Counting
  import opened MoveToFront
  import Rle
  import opened SlidingMtf
  import opened SymbolDecoder
  import opened SymbolParser

  /** The last column as it is decoded, into tt or ll16, with the counts of its characters. */
  class Column {
    const out: array<int>
    const unzftab: array<int>
    var nblock: nat

    ghost predicate Valid()
      reads this, out, unzftab
    {
      && out != unzftab && unzftab.Length == 256 && nblock <= out.Length && Within(Got(), 256)
      && forall c :: 0 <= c < 256 ==> unzftab[c] == CountEq(out[..], nblock, c)
    }

    ghost function Got(): seq<int>
      reads this, out
      requires nblock <= out.Length
    {
      out[..nblock]
    }

    constructor (size: nat)
      ensures Valid() && Got() == [] && fresh(out) && fresh(unzftab) && out.Length == size
    {
      out := new int[size];
      unzftab := new int[256](_ => 0);
      nblock := 0;
    }

    /** An empty column, with its counts cleared. */
    method Begin()
      requires out != unzftab && unzftab.Length == 256
      modifies this, unzftab
      ensures Valid() && Got() == []
    {
      nblock := 0;
      for i := 0 to 256
        modifies unzftab
        invariant forall c :: 0 <= c < i ==> unzftab[c] == 0
      {
        unzftab[i] := 0;
      }
    }

    /** One character. */
    method Put(uc: int)
      requires Valid() && nblock < out.Length && 0 <= uc < 256
      modifies this, out, unzftab
      ensures Valid() && Got() == old(Got()) + [uc]
    {
      ghost var a := out[..];
      unzftab[uc] := unzftab[uc] + 1;
      out[nblock] := uc;
      forall c ensures CountEq(out[..], nblock, c) == CountEq(a, nblock, c) {
        CountEqSame(a, out[..], nblock, c);
      }
      nblock := nblock + 1;
    }

    /** A run of es characters, unless the block would become too long. */
    method PutRun(uc: int, es: nat, nblockMAX: nat) returns (ok: bool)
      requires Valid() && nblockMAX <= out.Length && 0 <= uc < 256
      modifies this, out, unzftab
      ensures ok <==> es == 0 || old(nblock) + es <= nblockMAX
      ensures ok ==> Valid() && Got() == old(Got()) + Rle.Times(uc, es)
    {
      ghost var a, n0 := out[..], nblock;
      unzftab[uc] := unzftab[uc] + es;
      var left := es;
      while left > 0
        invariant 0 <= left <= es && nblock == n0 + (es - left) && nblock <= out.Length
        invariant (left < es ==> nblock <= nblockMAX)
        invariant forall k :: 0 <= k < n0 ==> out[k] == a[k]
        invariant forall k :: n0 <= k < nblock ==> out[k] == uc
        invariant forall c :: 0 <= c < 256 ==> unzftab[c] == CountEq(a, n0, c) + (if c == uc then es else 0)
      {
        if nblock >= nblockMAX { return false; }
        out[nblock] := uc;
        nblock := nblock + 1;
        left := left - 1;
      }
      forall c ensures CountEq(out[..], nblock, c) == CountEq(a, n0, c) + (if c == uc then es else 0) {
        CountRepeat(a, out[..], n0, es, uc, c);
      }
      ok := true;
    }
  }

  lemma {:induction false} CountRepeat(a: seq<int>, b: seq<int>, n: nat, es: nat, uc: int, c: int)
    requires n <= |a| && n + es <= |b| && (forall k :: 0 <= k < n ==> b[k] == a[k])
    requires forall k :: n <= k < n + es ==> b[k] == uc
    ensures CountEq(b, n + es, c) == CountEq(a, n, c) + (if c == uc then es else 0)
  {
    if es == 0 { CountEqSame(a, b, n, c); } else { CountRepeat(a, b, n, es - 1, uc, c); }
  }

  /* ---- The loop over symbols ---- */

  /** s and t agree on the numbers of characters in use; what s holds beyond is left from earlier blocks. */
  ghost predicate SameChars(s: seq<int>, t: seq<int>, n: nat) {
    |s| == 256 == |t| && Within(s, 256) && forall k :: 0 <= k < n && k < 256 ==> s[k] == t[k]
  }

  /** The first n elements of the list are the numbers below n: no others are ever looked up. */
  ghost predicate Leading(list: seq<int>, n: nat) {
    n <= |list| && forall k :: 0 <= k < n ==> 0 <= list[k] < n
  }

  lemma FrontLeading(list: seq<int>, n: nat, k: nat)
    requires Leading(list, n) && k < n
    ensures Leading(Front(list, k), n)
  {
  }

  /** The character that place k of the list stands for. */
  lemma CharUsed(list: seq<int>, n: nat, s: seq<int>, t: seq<int>, k: nat)
    requires Leading(list, n) && Bytes256(list) && SameChars(s, t, n) && k < n <= 256
    ensures |list| == 256 && 0 <= list[k] < 256 == |s| == |t| && s[list[k]] == t[list[k]] && 0 <= s[list[k]] < 256
  {
  }

  /** The symbol loop of the decoder. It stops only where it waits for a symbol: at the first one, after
      a character that moved to the front, or in the middle of a run's digits. */
  class ColumnReader {
    const rd: BitReader
    const sr: SymbolReader
    const mtf: MtfArray
    const col: Column
    var seqToUnseq: seq<int>
    var nInUse: nat
    var nblockMAX: nat
    var inRun: bool
    var es: int
    var N: nat

    ghost predicate Shape() {
      && sr.rd == rd && col.out != col.unzftab && col.unzftab.Length == 256 && col.out.Length == MAX_BLOCK
      && mtf.mtfa != mtf.mtfbase && mtf.mtfa.Length == MTFA_SIZE && mtf.mtfbase.Length == 16
      && mtf.mtfa !in {col.out, col.unzftab} && mtf.mtfbase !in {col.out, col.unzftab}
    }

    ghost predicate Valid()
      reads this, rd, sr, mtf, mtf.mtfa, mtf.mtfbase, col, col.out, col.unzftab
    {
      && Shape() && Planned() && rd.Valid() && mtf.Valid() && Bytes256(mtf.list)
      && Leading(mtf.list, nInUse) && col.Valid() && col.nblock <= nblockMAX <= MAX_BLOCK && RunOk(Run())
    }

    ghost predicate Planned()
      reads `nInUse, `seqToUnseq, `nblockMAX, sr, sr.rd
    {
      && sr.Valid() && PlanOk(sr.plan) && sr.word != WordTest
      && sr.plan.nInUse == nInUse && SameChars(seqToUnseq, sr.plan.chars, nInUse) && sr.plan.most == nblockMAX
    }

    ghost function Run(): RunPart
      reads `inRun, `es, `N
    {
      if inRun then Digits(es, N) else Outside
    }

    /** What the bits not yet read, with those that have been, mean: the column. */
    ghost function Outcome(): (p: Parsed<seq<int>>)
      reads this, rd, sr, mtf, mtf.mtfa, mtf.mtfbase, col, col.out, col.unzftab
      requires Valid()
      ensures p.Got? ==> Within(p.value, 256) && |p.value| <= nblockMAX
    {
      sr.CountNat();
      After(sr.Count(), sr.Outcome())
    }

    /** What becomes of the column with the next symbol, number c, as s says. */
    ghost function After(c: nat, s: Parsed<int>): (p: Parsed<seq<int>>)
      reads this, rd, sr, mtf, mtf.mtfa, mtf.mtfbase, col, col.out, col.unzftab
      requires Valid() && (s.Got? ==> 0 <= s.value < nInUse + 2)
      ensures p.Got? ==> Within(p.value, 256) && |p.value| <= nblockMAX
    {
      ColumnGoesOn(sr.plan, c, Run(), mtf.list, col.Got(), s)
    }

    constructor (rd: BitReader)
      requires rd.Valid()
      ensures Shape() && this.rd == rd && fresh(sr) && fresh(mtf) && fresh(mtf.mtfa) && fresh(mtf.mtfbase)
      ensures fresh(col) && fresh(col.out) && fresh(col.unzftab)
    {
      this.rd := rd;
      sr := new SymbolReader(rd);
      mtf := new MtfArray();
      col := new Column(MAX_BLOCK);
      seqToUnseq, nInUse, nblockMAX, inRun, es, N := [], 0, 0, false, -1, 1;
    }

    /** The list and the column as they are before the first symbol. */
    method Clear()
      requires Shape()
      modifies mtf, mtf.mtfa, mtf.mtfbase, col, col.unzftab
      ensures mtf.Valid() && mtf.list == Identity(256) && col.Valid() && col.nblock == 0 && col.Got() == []
    {
      hide Identity, Within, MtfArray.Valid, Column.Valid;
      mtf.Init();
      col.Begin();
      assert |col.Got()| == 0;
    }

    /** What comes before the first symbol. */
    method Begin(selector: seq<int>, tables: seq<Table>, seqToUnseq: seq<int>, nInUse: nat, nblockMAX: nat,
                 ghost plan: Plan)
      requires Shape() && rd.Valid() && PlanOk(plan) && selector == plan.selector
      requires TablesFor(plan.lens, tables, plan.nInUse + 2)
      requires plan.nInUse == nInUse && SameChars(seqToUnseq, plan.chars, nInUse) && plan.most == nblockMAX <= MAX_BLOCK
      modifies this, sr, mtf, mtf.mtfa, mtf.mtfbase, col, col.unzftab
      ensures Valid() && this.nblockMAX == nblockMAX && sr.plan == plan
      ensures Bytes256(Identity(256)) && Outcome() == ColumnFrom(plan, 0, Outside, Identity(256), [], rd.Pending())
    {
      hide Within, Column.Valid, SymbolReader.Valid, MtfArray.Valid, TablesFor, PlanOk, Identity, BitReader.Valid,
        Shape, Bytes256, SymbolFrom, ColumnGoesOn, Valid, Planned, Leading, SameChars;
      this.seqToUnseq, this.nInUse, this.nblockMAX := seqToUnseq, nInUse, nblockMAX;
      inRun, es, N := false, -1, 1;
      ReaderIs();
      sr.Begin(selector, tables, plan);
      Clear();
      PlanUse(plan);
      IdentityBytes(nInUse);
      FirstValid();
      FirstOutcome(this);
    }

    lemma ReaderIs()
      requires Shape()
      ensures sr.rd == rd
    {
    }

    lemma Parts()
      requires Valid()
      ensures Shape() && Planned() && rd.Valid() && mtf.Valid() && Bytes256(mtf.list) && col.Valid()
      ensures col.nblock <= nblockMAX <= MAX_BLOCK
      ensures RunOk(Run()) && |col.Got()| == col.nblock && Within(col.Got(), 256)
      ensures col.nblock <= col.out.Length == MAX_BLOCK
      ensures sr.Valid() && PlanOk(sr.plan) && 0 < sr.plan.nInUse == nInUse <= 256 && sr.plan.most == nblockMAX
      ensures Leading(mtf.list, nInUse) && SameChars(seqToUnseq, sr.plan.chars, nInUse)
    {
      hide MtfArray.Valid, SymbolReader.Valid, BitReader.Valid, PlanOk;
      PlanUse(sr.plan);
    }

    lemma Whole()
      requires Shape() && Planned() && rd.Valid() && mtf.Valid() && Bytes256(mtf.list) && col.Valid()
      requires col.nblock <= nblockMAX <= MAX_BLOCK
      requires RunOk(Run()) && Leading(mtf.list, nInUse)
      ensures Valid()
    {
      hide MtfArray.Valid, SymbolReader.Valid, BitReader.Valid, PlanOk, Column.Valid;
    }

    /** One digit of a run. */
    method AddDigit(sym: int) returns (st: Status)
      requires Valid() && (sym == RUNA || sym == RUNB)
      modifies `inRun, `es, `N
      ensures Valid()
      ensures (if st == Done then Started(old(Run())).N < 2 * 1024 * 1024 && Run() == Digit(Started(old(Run())), sym)
                          else st == DataError && Started(old(Run())).N >= 2 * 1024 * 1024)
    {
      hide Valid, Shape, Planned, Column.Valid, MtfArray.Valid, BitReader.Valid, Bytes256;
      Parts();
      if !inRun { inRun, es, N := true, -1, 1; }
      if N >= 2 * 1024 * 1024 {
        Whole();
        return DataError;
      }
      es := if sym == RUNA then es + (0 + 1) * N else es + (1 + 1) * N;
      N := N * 2;
      Whole();
      st := Done;
    }

    /** The end of a run: its characters. */
    method EndRun() returns (st: Status)
      requires Valid() && inRun
      modifies `inRun, `es, col, col.out, col.unzftab
      ensures st != Suspended && rd.Valid() && sr.Valid() && RunOk(old(Run())) && Bytes256(old(mtf.list))
      ensures |sr.plan.chars| == 256
      ensures st == Done ==> Valid() && !inRun && |old(col.Got())| + old(es) + 1 <= nblockMAX
      ensures st == Done ==>
                Bytes256(mtf.list) && col.Got() == old(col.Got()) + Rle.Times(sr.plan.chars[mtf.list[0]], old(es) + 1)
      ensures st == DataError ==> |old(col.Got())| + old(es) + 1 > nblockMAX
    {
      hide Valid, Planned, Column.Valid, MtfArray.Valid, BitReader.Valid, SymbolReader.Valid, Rle.Times, Within,
        TablesOk, Leading, SameChars;
      Parts();
      ghost var got := col.Got();
      es := es + 1;
      var front := mtf.First();
      CharUsed(mtf.list, nInUse, seqToUnseq, sr.plan.chars, 0);
      var ok := col.PutRun(seqToUnseq[front], es, nblockMAX);
      if !ok { return DataError; }
      assert |got + Rle.Times(seqToUnseq[front], es)| == |got| + es;
      assert |col.Got()| == col.nblock;
      inRun := false;
      Whole();
      st := Done;
    }

    /** A character that moves to the front. */
    method Move(sym: int) returns (st: Status)
      requires Valid() && !inRun && RUNB < sym <= nInUse
      modifies mtf, mtf.mtfa, mtf.mtfbase, col, col.out, col.unzftab
      ensures Valid() && Bytes256(old(mtf.list)) && sym <= 256 == |sr.plan.chars|
      ensures if st == Done then
                && |old(col.Got())| < nblockMAX && mtf.list == Front(old(mtf.list), sym - 1)
                && col.Got() == old(col.Got()) + [sr.plan.chars[old(mtf.list[sym - 1])]]
              else st == DataError && |old(col.Got())| >= nblockMAX
    {
      hide Valid, Planned, Column.Valid, MtfArray.Valid, BitReader.Valid, SymbolReader.Valid, Front, Within, TablesOk,
        Leading, SameChars;
      Parts();
      ghost var got, list := col.Got(), mtf.list;
      if col.nblock >= nblockMAX { return DataError; }
      CharUsed(list, nInUse, seqToUnseq, sr.plan.chars, sym - 1);
      var uc := mtf.Take(sym - 1);
      FrontWithin(list, sym - 1);
      FrontLeading(list, nInUse, sym - 1);
      col.Put(seqToUnseq[uc]);
      assert |got + [seqToUnseq[uc]]| == |got| + 1;
      assert |col.Got()| == col.nblock;
      Whole();
      st := Done;
    }

    /** What the next symbol asks for; more is false at the end-of-block symbol. */
    method Take(sym: int, ghost c: nat) returns (st: Status, more: bool)
      requires Valid() && 0 <= sym < nInUse + 2 && sr.word == NoWord && sr.Count() == c + 1
      modifies `inRun, `es, `N, mtf, mtf.mtfa, mtf.mtfbase, col, col.out, col.unzftab
      ensures st != Suspended && rd.Valid() && sr.Valid()
      ensures match st
              case Done =>
                && Valid()
                && old(After(c, Got(sym, rd.Pending()))) == if more then Outcome() else Got(col.Got(), rd.Pending())
              case Suspended => false
              case DataError => old(After(c, Got(sym, rd.Pending()))) == Wrong
    {
      hide Valid, Planned, Column.Valid, MtfArray.Valid, BitReader.Valid, SymbolReader.Valid, Front, Within, TablesOk,
        ColumnFrom, SymbolFrom, Rle.Times, Bytes256, PlanOk, Shape, BitReader.Pending;
      Parts();
      more := true;
      ghost var q := After(c, Got(sym, rd.Pending()));
      if sym == RUNA || sym == RUNB {
        DigitTaken(sr.plan, c, Run(), mtf.list, col.Got(), sym, rd.Pending());
        st := AddDigit(sym);
        if st != Done { return; }
        OutcomeNow(c + 1);
        return;
      }
      if inRun {
        st := EndRun();
        if st != Done { return; }
        Parts();
      }
      assert q == MoveFrom(sr.plan, c, sym, mtf.list, col.Got(), rd.Pending());
      if sym == nInUse + 1 { return Done, false; }
      st := Move(sym);
      if st != Done { return; }
      OutcomeNow(c + 1);
    }

    /** The loop, from where it stopped. */
    method Resume() returns (st: Status)
      requires Valid()
      modifies `inRun, `es, `N, mtf, mtf.mtfa, mtf.mtfbase, col, col.out, col.unzftab
      modifies sr`groupNo, sr`groupPos, sr`gSel, sr`word, sr`zn, sr`zvec, rd`nextIn, rd`bsBuff, rd`bsLive
      ensures rd.Valid()
      ensures match st
              case Done => Valid() && old(Outcome()) == Got(col.Got(), rd.Pending())
              case Suspended =>
                && Valid() && Outcome() == old(Outcome()) && rd.UsedUp() && (rd.future == [] ==> Outcome() == Partial)
              case DataError => old(Outcome()) == Wrong
    {
      hide Valid, Outcome, Column.Valid, MtfArray.Valid, BitReader.Valid, SymbolReader.Valid, SymbolReader.Outcome,
        BitReader.Pending, Bytes256, PlanOk, Within, ColumnGoesOn;
      ghost var p := Outcome();
      Parts();
      while true
        invariant Valid() && rd.Valid() && Outcome() == p
        decreases |rd.Pending()|
      {
        Parts();
        ReaderIs();
        OutcomeIs();
        ghost var c: nat := sr.Count();
        var sym, more;
        st, sym := sr.Next();
        Whole();
        OutcomeIs();
        if st != Done { return; }
        st, more := Take(sym, c);
        if st != Done || !more { return; }
      }
    }

    lemma OutcomeIs()
      requires Valid()
      ensures sr.Valid() && sr.Count() >= 0 && Outcome() == After(sr.Count(), sr.Outcome())
      ensures After(sr.Count(), Partial) == Partial && After(sr.Count(), Wrong) == Wrong
    {
      hide Column.Valid, MtfArray.Valid, BitReader.Valid, SymbolReader.Valid, SymbolReader.Outcome, Bytes256, PlanOk;
      sr.CountNat();
    }

    lemma OutcomeNow(c: nat)
      requires Valid() && sr.word == NoWord && sr.Count() == c
      ensures PlanOk(sr.plan) && RunOk(Run()) && Bytes256(mtf.list) && Within(col.Got(), 256)
      ensures |col.Got()| <= sr.plan.most
      ensures Outcome() == ColumnFrom(sr.plan, c, Run(), mtf.list, col.Got(), rd.Pending())
    {
      hide SymbolReader.Valid, MtfArray.Valid, BitReader.Valid, Bytes256, PlanOk, SymbolFrom, ColumnGoesOn;
      ColumnUnfolds(sr.plan, c, Run(), mtf.list, col.Got(), rd.Pending());
    }

    lemma FirstValid()
      requires Shape() && sr.Valid() && PlanOk(sr.plan) && sr.word == NoWord
      requires sr.plan.nInUse == nInUse && SameChars(seqToUnseq, sr.plan.chars, nInUse)
      requires sr.plan.most == nblockMAX <= MAX_BLOCK
      requires rd.Valid() && Leading(mtf.list, nInUse) && mtf.Valid() && Bytes256(mtf.list) && col.Valid()
      requires col.nblock <= nblockMAX && !inRun
      ensures Valid()
    {
      hide Column.Valid, SymbolReader.Valid, MtfArray.Valid, PlanOk, Bytes256, BitReader.Valid, Shape;
    }
  }

  lemma FirstOutcome(c: ColumnReader)
    requires c.Valid() && c.sr.word == NoWord && c.sr.Count() == 0 && !c.inRun && c.mtf.list == Identity(256)
    requires c.col.Got() == []
    ensures Bytes256(Identity(256)) && PlanOk(c.sr.plan)
    ensures c.Outcome() == ColumnFrom(c.sr.plan, 0, Outside, Identity(256), [], c.rd.Pending())
  {
    hide Column.Valid, MtfArray.Valid, BitReader.Valid, Bytes256, Identity, SymbolFrom, ColumnGoesOn, TablesFor, PlanOk;
    ColumnUnfolds(c.sr.plan, 0, Outside, Identity(256), [], c.rd.Pending());
  }

  lemma PlanUse(h: Plan)
    requires PlanOk(h)
    ensures 0 < h.nInUse <= 256
  {
  }

  lemma IdentityBytes(n: nat)
    ensures Bytes256(Identity(256)) && (n <= 256 ==> Leading(Identity(256), n))
  {
  }
}
