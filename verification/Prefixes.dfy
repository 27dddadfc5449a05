/** More bits never take back what bits mean: a decoder that has seen a part of its input has put out a part of
    the output, and an error or an end that it has met stays. */
module Prefixes {
  import opened Bits
  import opened BlockFormat
  import opened BlockParser
  import opened Checksums
  import opened ColumnParser
  import opened Counting
  import opened MoveToFront
  import opened MtfEncoder
  import opened Rle
  import opened StreamParser
  import opened SymbolParser
  import opened WholeBlockParser

  /** q is what p becomes when more bits follow. */
  ghost predicate Extends<T(!new)>(p: Parsed<T>, q: Parsed<T>, more: seq<bool>) {
    match p
    case Partial => true
    case Wrong => q == Wrong
    case Got(v, rest) => q == Got(v, rest + more)
  }

  lemma SameFront(bits: seq<bool>, more: seq<bool>, n: nat)
    requires n <= |bits|
    ensures |bits + more| >= n && (bits + more)[..n] == bits[..n] && (bits + more)[n..] == bits[n..] + more
    ensures |bits| > 0 ==> (bits + more)[0] == bits[0] && (bits + more)[1..] == bits[1..] + more
  {
  }

  /* ---- Bytes, maps, selectors, code lengths ---- */

  lemma {:induction false} LettersExtend(m: seq<int>, bits: seq<bool>, more: seq<bool>)
    ensures Extends(LettersFrom(m, bits), LettersFrom(m, bits + more), more)
    decreases |m|
  {
    hide Value;
    if |m| > 0 && |bits| >= 8 {
      SameFront(bits, more, 8);
      LettersExtend(m[1..], bits[8..], more);
    }
  }

  lemma {:induction false} NumberExtends(m: nat, v: nat, bits: seq<bool>, more: seq<bool>)
    ensures Extends(NumberFrom(m, v, bits), NumberFrom(m, v, bits + more), more)
    decreases m
  {
    hide Value;
    if m > 0 && |bits| >= 8 {
      SameFront(bits, more, 8);
      NumberExtends(m - 1, 256 * v + Value(bits[..8]), bits[8..], more);
    }
  }

  lemma {:induction false} GroupsExtend(g: seq<bool>, bits: seq<bool>, more: seq<bool>)
    requires |g| <= 16
    ensures Extends(GroupsFrom(g, bits), GroupsFrom(g, bits + more), more)
    decreases 16 - |g|
  {
    if |g| < 16 && bits != [] {
      SameFront(bits, more, 1);
      GroupsExtend(g + [bits[0]], bits[1..], more);
    }
  }

  lemma {:induction false} MarksExtend(g: seq<bool>, u: seq<bool>, bits: seq<bool>, more: seq<bool>)
    requires |g| == 16 && |u| <= 256
    ensures Extends(MarksFrom(g, u, bits), MarksFrom(g, u, bits + more), more)
    decreases 256 - |u|
  {
    if |u| < 256 {
      if |u| % 16 == 0 && !g[|u| / 16] {
        MarksExtend(g, u + Unused(), bits, more);
      } else if bits != [] {
        SameFront(bits, more, 1);
        MarksExtend(g, u + [bits[0]], bits[1..], more);
      }
    }
  }

  lemma MapExtends(bits: seq<bool>, more: seq<bool>)
    ensures Extends(MapFrom(bits), MapFrom(bits + more), more)
  {
    hide GroupsFrom, MarksFrom;
    GroupsExtend([], bits, more);
    var p := GroupsFrom([], bits);
    if p.Got? { MarksExtend(p.value, [], p.rest, more); }
  }

  lemma {:induction false} RankExtends(n: nat, j: nat, bits: seq<bool>, more: seq<bool>)
    requires j < n
    ensures Extends(RankFrom(n, j, bits), RankFrom(n, j, bits + more), more)
    decreases n - j
  {
    if bits != [] {
      SameFront(bits, more, 1);
      if bits[0] && j + 1 < n { RankExtends(n, j + 1, bits[1..], more); }
    }
  }

  lemma {:induction false} RanksExtend(n: nat, left: nat, rs: seq<int>, j: nat, bits: seq<bool>, more: seq<bool>)
    requires j < n && Within(rs, n)
    ensures Extends(RanksFrom(n, left, rs, j, bits), RanksFrom(n, left, rs, j, bits + more), more)
    decreases left
  {
    hide RankFrom, Within, RanksGoOn, Kept;
    if left == 0 {
      RanksEnd(n, rs, j, bits);
      RanksEnd(n, rs, j, bits + more);
    } else {
      RankExtends(n, j, bits, more);
      RanksUnfold(n, left, rs, j, bits);
      RanksUnfold(n, left, rs, j, bits + more);
      var p := RankFrom(n, j, bits);
      RanksNext(n, left, rs, if p.Got? then p.value else 0, if p.Got? then p.rest else []);
      if p.Got? {
        RanksNext(n, left, rs, p.value, p.rest + more);
        RanksExtend(n, left - 1, Kept(rs, p.value), 0, p.rest, more);
      }
    }
  }

  lemma RanksEnd(n: nat, rs: seq<int>, j: nat, bits: seq<bool>)
    requires j < n && Within(rs, n)
    ensures RanksFrom(n, 0, rs, j, bits) == Got(rs, bits)
  {
  }

  lemma SelectorsExtend(bits: seq<bool>, more: seq<bool>)
    ensures Extends(SelectorsFrom(bits), SelectorsFrom(bits + more), more)
  {
    hide Value, RanksFrom, Unranked;
    if |bits| >= 3 {
      SameFront(bits, more, 3);
      var b := bits[3..];
      if |b| >= 15 {
        SameFront(b, more, 15);
        if 2 <= Value(bits[..3]) { RanksExtend(Value(bits[..3]), Value(b[..15]), [], 0, b[15..], more); }
      }
    }
  }

  lemma {:induction false} LengthExtends(step: bool, c: int, bits: seq<bool>, more: seq<bool>)
    ensures Extends(LengthFrom(step, c, bits), LengthFrom(step, c, bits + more), more)
    decreases |bits|
  {
    if bits != [] {
      SameFront(bits, more, 1);
      if step {
        LengthExtends(false, if bits[0] then c - 1 else c + 1, bits[1..], more);
      } else if bits[0] {
        LengthExtends(true, c, bits[1..], more);
      }
    }
  }

  lemma {:induction false} RowExtends(a: nat, row: seq<int>, step: bool, c: int, bits: seq<bool>, more: seq<bool>)
    requires |row| <= a && LengthsOk(row)
    ensures Extends(RowFrom(a, row, step, c, bits), RowFrom(a, row, step, c, bits + more), more)
    decreases a - |row|
  {
    hide LengthFrom, LengthsOk;
    if |row| < a {
      LengthExtends(step, c, bits, more);
      RowUnfold(a, row, step, c, bits);
      RowUnfold(a, row, step, c, bits + more);
      var p := LengthFrom(step, c, bits);
      if p.Got? {
        RowNext(a, row, p.value, p.rest);
        RowNext(a, row, p.value, p.rest + more);
        RowExtends(a, row + [p.value], false, p.value, p.rest, more);
      }
    }
  }

  lemma {:induction false} TablesExtend(left: nat, a: nat, lens: seq<seq<int>>, bits: seq<bool>, more: seq<bool>)
    requires TablesOk(lens, a)
    ensures Extends(TablesFrom(left, a, lens, bits), TablesFrom(left, a, lens, bits + more), more)
    decreases left
  {
    hide RowFrom, TablesOk, Value, TablesGoOn;
    if left == 0 {
      TablesDone(a, lens, bits);
      TablesDone(a, lens, bits + more);
    } else {
      TablesUnfold(left, a, lens, bits);
      TablesUnfold(left, a, lens, bits + more);
      if |bits| >= 5 {
        SameFront(bits, more, 5);
        RowExtends(a, [], false, Value(bits[..5]), bits[5..], more);
        var p := RowFrom(a, [], false, Value(bits[..5]), bits[5..]);
        TablesFail(left, a, lens);
        if p.Got? {
          TablesNext(left, a, lens, p.value, p.rest);
          TablesNext(left, a, lens, p.value, p.rest + more);
          TablesExtend(left - 1, a, lens + [p.value], p.rest, more);
        }
      }
    }
  }

  lemma TablesFail(left: nat, a: nat, lens: seq<seq<int>>)
    requires TablesOk(lens, a) && left > 0
    ensures TablesGoOn(left, a, lens, Partial) == Partial && TablesGoOn(left, a, lens, Wrong) == Wrong
  {
  }

  /* ---- Symbols and columns ---- */

  lemma {:induction false} WordExtends(L: seq<int>, n: nat, v: nat, bits: seq<bool>, more: seq<bool>)
    ensures Extends(WordFrom(L, n, v, bits), WordFrom(L, n, v, bits + more), more)
    decreases |bits|
  {
    hide Limit, Base, Holder;
    if n <= 20 && v > Limit(L, n) && bits != [] {
      SameFront(bits, more, 1);
      WordExtends(L, n + 1, 2 * v + (if bits[0] then 1 else 0), bits[1..], more);
    }
  }

  lemma WholeWordExtends(L: seq<int>, bits: seq<bool>, more: seq<bool>)
    requires |L| > 0 && LengthsOk(L)
    ensures Extends(WholeWord(L, bits), WholeWord(L, bits + more), more)
  {
    ShortestAtLeast(L, |L|);
    hide Value, WordFrom, LengthsOk;
    var n := Shortest(L, |L|);
    hide Shortest, Longest;
    if |bits| >= n {
      SameFront(bits, more, n);
      WordExtends(L, n, Value(bits[..n]), bits[n..], more);
    }
  }

  lemma SymbolExtends(h: Plan, c: nat, bits: seq<bool>, more: seq<bool>)
    requires PlanOk(h)
    ensures Extends(SymbolFrom(h, c, bits), SymbolFrom(h, c, bits + more), more)
  {
    hide WholeWord, LengthsOk;
    if c / G_SIZE < |h.selector| { WholeWordExtends(h.lens[h.selector[c / G_SIZE]], bits, more); }
  }

  lemma {:induction false} ColumnExtends(h: Plan, c: nat, run: RunPart, list: seq<int>, got: seq<int>, bits: seq<bool>,
                                         more: seq<bool>)
    requires PlanOk(h) && RunOk(run) && Bytes256(list) && Within(got, 256) && |got| <= h.most
    ensures Extends(ColumnFrom(h, c, run, list, got, bits), ColumnFrom(h, c, run, list, got, bits + more), more)
    decreases |bits| + 1, 0
  {
    hide SymbolFrom, PlanOk, Within, Bytes256, ColumnGoesOn;
    SymbolExtends(h, c, bits, more);
    ColumnUnfolds(h, c, run, list, got, bits);
    ColumnUnfolds(h, c, run, list, got, bits + more);
    ColumnStops(h, c, run, list, got);
    var p := SymbolFrom(h, c, bits);
    if p.Got? { ColumnGoesExtend(h, c, run, list, got, p.value, p.rest, more); }
  }

  lemma ColumnStops(h: Plan, c: nat, run: RunPart, list: seq<int>, got: seq<int>)
    requires PlanOk(h) && RunOk(run) && Bytes256(list) && Within(got, 256) && |got| <= h.most
    ensures ColumnGoesOn(h, c, run, list, got, Partial) == Partial && ColumnGoesOn(h, c, run, list, got, Wrong) == Wrong
  {
  }

  lemma {:induction false} ColumnGoesExtend(h: Plan, c: nat, run: RunPart, list: seq<int>, got: seq<int>, sym: int,
                                            rest: seq<bool>, more: seq<bool>)
    requires PlanOk(h) && RunOk(run) && Bytes256(list) && Within(got, 256) && |got| <= h.most
    requires 0 <= sym < h.nInUse + 2
    ensures Extends(ColumnGoesOn(h, c, run, list, got, Got(sym, rest)),
                    ColumnGoesOn(h, c, run, list, got, Got(sym, rest + more)), more)
    decreases |rest| + 1, 2
  {
    hide PlanOk, ColumnFrom, MoveFrom, Times;
    if sym == RUNA || sym == RUNB {
      DigitTaken(h, c, run, list, got, sym, rest);
      DigitTaken(h, c, run, list, got, sym, rest + more);
      if Started(run).N < 2 * 1024 * 1024 {
        ColumnExtends(h, c + 1, Digit(Started(run), sym), list, got, rest, more);
      }
    } else if run.Outside? {
      MoveExtends(h, c, sym, list, got, rest, more);
    } else if |got| + run.es + 1 <= h.most {
      PlanChars(h);
      ByteAt(h.chars, list[0]);
      RepeatWithin(got, h.chars[list[0]], run.es + 1);
      MoveExtends(h, c, sym, list, got + Times(h.chars[list[0]], run.es + 1), rest, more);
    }
  }

  lemma PlanChars(h: Plan)
    requires PlanOk(h)
    ensures |h.chars| == 256 && Within(h.chars, 256) && 0 < h.nInUse <= 256
  {
  }

  lemma {:induction false} MoveExtends(h: Plan, c: nat, sym: int, list: seq<int>, got: seq<int>, rest: seq<bool>,
                                       more: seq<bool>)
    requires PlanOk(h) && Bytes256(list) && Within(got, 256) && |got| <= h.most && RUNB < sym < h.nInUse + 2
    ensures Extends(MoveFrom(h, c, sym, list, got, rest), MoveFrom(h, c, sym, list, got, rest + more), more)
    decreases |rest| + 1, 1
  {
    hide PlanOk, ColumnFrom, Front;
    PlanChars(h);
    if sym != h.nInUse + 1 && |got| < h.most {
      FrontWithin(list, sym - 1);
      ByteAt(h.chars, list[sym - 1]);
      OneWithin(got, h.chars[list[sym - 1]]);
      ColumnExtends(h, c + 1, Outside, Front(list, sym - 1), got + [h.chars[list[sym - 1]]], rest, more);
    }
  }

  /* ---- Blocks ---- */

  lemma ColumnPartExtends(size: nat, h: Head, p: Parsed<seq<int>>, q: Parsed<seq<int>>, more: seq<bool>)
    requires p.Got? ==> Within(p.value, 256) && |p.value| <= 100000 * size
    requires q.Got? ==> Within(q.value, 256) && |q.value| <= 100000 * size
    requires Extends(p, q, more)
    ensures Extends(AfterColumn(size, h, p), AfterColumn(size, h, q), more)
  {
  }

  lemma TablesPartExtends(size: nat, h: Head, u: seq<bool>, s: Selectors, p: Parsed<seq<seq<int>>>,
                          q: Parsed<seq<seq<int>>>, more: seq<bool>)
    requires |u| == 256 && UsedBelow(u, 256) > 0 && SelectorsOk(s) && Extends(p, q, more)
    requires p.Got? ==> |p.value| == s.nGroups && TablesOk(p.value, UsedBelow(u, 256) + 2)
    requires q.Got? ==> |q.value| == s.nGroups && TablesOk(q.value, UsedBelow(u, 256) + 2)
    ensures Extends(AfterTables(size, h, u, s, p), AfterTables(size, h, u, s, q), more)
  {
    hide UsedBelow, TablesOk, ColumnFrom, AfterColumn, Within, SelectorsOk, Identity, PlanOf, PlanOk, Bytes256;
    if p.Got? {
      PlanIsOk(size, u, s, p.value);
      FirstList();
      PlanMost(size, u, s, p.value);
      var plan := PlanOf(size, u, s, p.value);
      ColumnExtends(plan, 0, Outside, Identity(256), [], p.rest, more);
      ColumnPartExtends(size, h, ColumnFrom(plan, 0, Outside, Identity(256), [], p.rest),
                        ColumnFrom(plan, 0, Outside, Identity(256), [], p.rest + more), more);
    }
  }

  lemma PlanMost(size: nat, u: seq<bool>, s: Selectors, lens: seq<seq<int>>)
    requires |u| == 256
    ensures PlanOf(size, u, s, lens).most == 100000 * size
  {
  }

  lemma SelectorsPartExtends(size: nat, h: Head, u: seq<bool>, p: Parsed<Selectors>, q: Parsed<Selectors>,
                             more: seq<bool>)
    requires |u| == 256 && UsedBelow(u, 256) > 0
    requires (p.Got? ==> SelectorsOk(p.value)) && (q.Got? ==> SelectorsOk(q.value))
    requires Extends(p, q, more)
    ensures Extends(AfterSelectors(size, h, u, p), AfterSelectors(size, h, u, q), more)
  {
    hide UsedBelow, TablesFrom, AfterTables, SelectorsOk;
    if p.Got? {
      NoTablesOk(UsedBelow(u, 256) + 2);
      var n := p.value.nGroups;
      TablesExtend(n, UsedBelow(u, 256) + 2, [], p.rest, more);
      TablesPartExtends(size, h, u, p.value, TablesFrom(n, UsedBelow(u, 256) + 2, [], p.rest),
                        TablesFrom(n, UsedBelow(u, 256) + 2, [], p.rest + more), more);
    }
  }

  lemma NoTablesOk(a: nat)
    ensures TablesOk([], a)
  {
  }

  lemma MapPartExtends(size: nat, h: Head, p: Parsed<seq<bool>>, q: Parsed<seq<bool>>, more: seq<bool>)
    requires (p.Got? ==> |p.value| == 256) && (q.Got? ==> |q.value| == 256) && Extends(p, q, more)
    ensures Extends(AfterMap(size, h, p), AfterMap(size, h, q), more)
  {
    hide UsedBelow, SelectorsFrom, AfterSelectors;
    if p.Got? && UsedBelow(p.value, 256) > 0 {
      SelectorsExtend(p.rest, more);
      SelectorsPartExtends(size, h, p.value, SelectorsFrom(p.rest), SelectorsFrom(p.rest + more), more);
    }
  }

  lemma OriginPartExtends(size: nat, crc: nat, randomised: bool, p: Parsed<nat>, q: Parsed<nat>, more: seq<bool>)
    requires Extends(p, q, more)
    ensures Extends(AfterOrigin(size, crc, randomised, p), AfterOrigin(size, crc, randomised, q), more)
  {
    hide MapFrom, AfterMap;
    if p.Got? && p.value <= 10 + 100000 * size {
      MapExtends(p.rest, more);
      MapPartExtends(size, Head(crc, randomised, p.value), MapFrom(p.rest), MapFrom(p.rest + more), more);
    }
  }

  lemma CrcPartExtends(size: nat, p: Parsed<nat>, q: Parsed<nat>, more: seq<bool>)
    requires Extends(p, q, more)
    ensures Extends(AfterCrc(size, p), AfterCrc(size, q), more)
  {
    hide NumberFrom, AfterOrigin;
    if p.Got? && p.rest != [] {
      SameFront(p.rest, more, 1);
      NumberExtends(3, 0, p.rest[1..], more);
      OriginPartExtends(size, p.value, p.rest[0], NumberFrom(3, 0, p.rest[1..]), NumberFrom(3, 0, p.rest[1..] + more),
                        more);
    }
  }

  /** The bits of a block. */
  lemma BlockExtends(size: nat, bits: seq<bool>, more: seq<bool>)
    ensures Extends(BlockFrom(size, bits), BlockFrom(size, bits + more), more)
  {
    hide LettersFrom, NumberFrom, AfterCrc;
    LettersExtend([0x41, 0x59, 0x26, 0x53, 0x59], bits, more);
    var p := LettersFrom([0x41, 0x59, 0x26, 0x53, 0x59], bits);
    if p.Got? {
      NumberExtends(4, 0, p.rest, more);
      CrcPartExtends(size, NumberFrom(4, 0, p.rest), NumberFrom(4, 0, p.rest + more), more);
    }
  }

  /* ---- Streams ---- */

  /** m2 is what m1 becomes when more bits follow. */
  ghost predicate Grows(m1: Meaning, m2: Meaning) {
    if m1.final == Unfinished then m1.bytes <= m2.bytes else m2 == m1
  }

  lemma GrowsBehind(out: seq<int>, m1: Meaning, m2: Meaning)
    requires Grows(m1, m2)
    ensures Grows(Prepend(out, m1), Prepend(out, m2))
  {
    if m1.final == Unfinished { assert m2.bytes == m1.bytes + m2.bytes[|m1.bytes|..]; }
  }

  lemma TotalGrows(c: Crc, p: Parsed<nat>, q: Parsed<nat>, more: seq<bool>)
    requires Extends(p, q, more)
    ensures Grows(AfterTotal(c, p), AfterTotal(c, q))
  {
  }

  lemma TrailerGrows(c: Crc, p: Parsed<bool>, q: Parsed<bool>, more: seq<bool>)
    requires Extends(p, q, more)
    ensures Grows(AfterTrailer(c, p), AfterTrailer(c, q))
  {
    hide NumberFrom, AfterTotal;
    if p.Got? {
      NumberExtends(4, 0, p.rest, more);
      TotalGrows(c, NumberFrom(4, 0, p.rest), NumberFrom(4, 0, p.rest + more), more);
    }
  }

  lemma {:induction false} BlocksGrow(step: (Crc, int) -> Crc, size: nat, c: Crc, bits: seq<bool>, more: seq<bool>)
    ensures Grows(BlocksFrom(step, size, c, bits), BlocksFrom(step, size, c, bits + more))
    decreases |bits|, 0
  {
    hide Value, LettersFrom, BlockFrom, AfterTrailer, AfterBlock;
    if |bits| >= 8 {
      SameFront(bits, more, 8);
      var t := [0x72, 0x45, 0x38, 0x50, 0x90];
      LettersExtend(t, bits[8..], more);
      TrailerGrows(c, LettersFrom(t, bits[8..]), LettersFrom(t, bits[8..] + more), more);
      BlockExtends(size, bits[8..], more);
      AfterBlockGrows(step, size, c, BlockFrom(size, bits[8..]), BlockFrom(size, bits[8..] + more), more);
    }
  }

  lemma {:induction false} AfterBlockGrows(step: (Crc, int) -> Crc, size: nat, c: Crc, p: Parsed<Found>,
                                           q: Parsed<Found>, more: seq<bool>)
    requires (p.Got? ==> FoundOk(size, p.value)) && (q.Got? ==> FoundOk(size, q.value)) && Extends(p, q, more)
    ensures Grows(AfterBlock(step, size, c, p), AfterBlock(step, size, c, q))
    decreases if p.Got? then |p.rest| else 0, 2
  {
    hide Letters, Expand, EndsWell, OutputFrom, BlocksFrom;
    if p.Got? {
      var f := p.value;
      if !f.head.randomised {
        var s, n := Letters(f.column, f.head.origPtr), |f.column|;
        OutputGrows(step, size, c, f.head.crc, INITIAL, Expand(s, n, 0), EndsWell(s, n, 0), p.rest, more);
      }
    }
  }

  lemma {:induction false} OutputGrows(step: (Crc, int) -> Crc, size: nat, c: Crc, stored: nat, crc: Crc,
                                       left: seq<int>, ends: bool, bits: seq<bool>, more: seq<bool>)
    ensures Grows(OutputFrom(step, size, c, stored, crc, left, ends, bits),
                  OutputFrom(step, size, c, stored, crc, left, ends, bits + more))
    decreases |bits|, 1
  {
    hide BlocksFrom, Fold, Combine;
    var d := Combine(c, Complement(Fold(step, crc, left)));
    BlocksGrow(step, size, d, bits, more);
    GrowsBehind(left, BlocksFrom(step, size, d, bits), BlocksFrom(step, size, d, bits + more));
  }

  /** Whatever the bits: once they mean an error or the end, more bits change nothing; and as long as they mean
      neither, the bytes put out are a first part of those that more bits give. */
  lemma StreamGrows(step: (Crc, int) -> Crc, bits: seq<bool>, more: seq<bool>)
    ensures Grows(StreamFrom(step, bits), StreamFrom(step, bits + more))
  {
    hide LettersFrom, BlocksFrom, Value;
    LettersExtend([0x42, 0x5a, 0x68], bits, more);
    var p := LettersFrom([0x42, 0x5a, 0x68], bits);
    if p.Got? && |p.rest| >= 8 {
      SameFront(p.rest, more, 8);
      if 0x31 <= Value(p.rest[..8]) <= 0x39 { BlocksGrow(step, Value(p.rest[..8]) - 0x30, 0, p.rest[8..], more); }
    }
  }
}
