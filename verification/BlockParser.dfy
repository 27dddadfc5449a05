/** What any sequence of bits means to a decoder of blocks: a reference for the code that reads them as
    they arrive. The functions take the values the code has saved, so that they also say what becomes of
    a block that has been read in part. */
module BlockParser {
  import opened Bits
  import opened BlockFormat
  import opened Counting
  import opened HuffmanCodes
  import opened MoveToFront
  import opened Powers
  import opened Rotation

  /** Too few bits; bits no compressor writes; or a value and the bits after it. */
  datatype Parsed<T> = Partial | Wrong | Got(value: T, rest: seq<bool>)

  /* ---- Bytes ---- */

  /** Bytes that must be these. */
  ghost function LettersFrom(m: seq<int>, bits: seq<bool>): (p: Parsed<bool>)
    ensures p.Got? ==> |p.rest| <= |bits|
  {
    if |m| == 0 then Got(true, bits)
    else if |bits| < 8 then Partial
    else if Value(bits[..8]) != m[0] then Wrong
    else LettersFrom(m[1..], bits[8..])
  }

  /** m more bytes of a number. */
  ghost function NumberFrom(m: nat, v: nat, bits: seq<bool>): (p: Parsed<nat>)
    ensures p.Got? ==> |p.rest| <= |bits|
  {
    if m == 0 then Got(v, bits)
    else if |bits| < 8 then Partial
    else NumberFrom(m - 1, 256 * v + Value(bits[..8]), bits[8..])
  }

  /* ---- The map of characters in use ---- */

  /** Which groups of characters are used; g of them are known. */
  ghost function GroupsFrom(g: seq<bool>, bits: seq<bool>): (p: Parsed<seq<bool>>)
    requires |g| <= 16
    ensures p.Got? ==> |p.value| == 16 && |p.rest| <= |bits|
    decreases 16 - |g|
  {
    if |g| == 16 then Got(g, bits)
    else if bits == [] then Partial
    else GroupsFrom(g + [bits[0]], bits[1..])
  }

  lemma GroupsKnown(g: seq<bool>, bits: seq<bool>)
    requires |g| == 16
    ensures GroupsFrom(g, bits) == Got(g, bits)
  {
  }

  ghost function Unused(): (s: seq<bool>)
    ensures |s| == 16 && forall k :: 0 <= k < 16 ==> !s[k]
  {
    seq(16, _ => false)
  }

  /** Which characters are used; it is known for the first |u| of them. */
  ghost function MarksFrom(g: seq<bool>, u: seq<bool>, bits: seq<bool>): (p: Parsed<seq<bool>>)
    requires |g| == 16 && |u| <= 256
    ensures p.Got? ==> |p.value| == 256 && |p.rest| <= |bits|
    decreases 256 - |u|
  {
    if |u| == 256 then Got(u, bits)
    else if |u| % 16 == 0 && !g[|u| / 16] then MarksFrom(g, u + Unused(), bits)
    else if bits == [] then Partial
    else MarksFrom(g, u + [bits[0]], bits[1..])
  }

  lemma MarksKnown(g: seq<bool>, u: seq<bool>, bits: seq<bool>)
    requires |g| == 16 && |u| == 256
    ensures MarksFrom(g, u, bits) == Got(u, bits)
  {
  }

  ghost function MapFrom(bits: seq<bool>): (p: Parsed<seq<bool>>)
    ensures p.Got? ==> |p.value| == 256 && |p.rest| <= |bits|
  {
    MapGoesOn(GroupsFrom([], bits))
  }

  ghost function MapGoesOn(p: Parsed<seq<bool>>): (r: Parsed<seq<bool>>)
    requires p.Got? ==> |p.value| == 16
    ensures r.Got? ==> |r.value| == 256 && p.Got? && |r.rest| <= |p.rest|
  {
    if p.Got? then MarksFrom(p.value, [], p.rest) else p
  }

  lemma MapUnfolds(u: seq<bool>, i: nat)
    requires |u| == 256 && i <= 16
    ensures i < 16 ==> GroupBits(u, i) == [Group(u, i)] + GroupBits(u, i + 1)
    ensures i < 16 && Group(u, i) ==> UseBits(u, i) == u[16 * i..16 * i + 16] + UseBits(u, i + 1)
    ensures i < 16 && !Group(u, i) ==> UseBits(u, i) == UseBits(u, i + 1)
    ensures i == 16 ==> GroupBits(u, i) == [] && UseBits(u, i) == []
  {
    if i < 16 { assert [] + UseBits(u, i + 1) == UseBits(u, i + 1); }
  }

  lemma UnusedGroup(u: seq<bool>, i: nat)
    requires |u| == 256 && i < 16 && !Group(u, i)
    ensures forall k :: 0 <= k < 256 && 16 * i <= k < 16 * (i + 1) ==> !u[k]
  {
    forall k | 0 <= k < 256 && 16 * i <= k < 16 * (i + 1) ensures !u[k] {
      if u[k] { GroupHas(u, i, 16, k - 16 * i); }
    }
  }

  /** The bits of the map still ahead in the second part, at character j of group i. */
  ghost function MarksLeft(u: seq<bool>, i: nat, j: nat, rest: seq<bool>): seq<bool>
    requires |u| == 256 && i <= 16 && j <= 16 && (j > 0 ==> i < 16)
  {
    if j == 0 then UseBits(u, i) + rest else u[16 * i + j..16 * i + 16] + (UseBits(u, i + 1) + rest)
  }

  lemma GroupBegins(u: seq<bool>, i: nat, rest: seq<bool>)
    requires |u| == 256 && i < 16 && Group(u, i)
    ensures MarksLeft(u, i, 0, rest) == [u[16 * i]] + MarksLeft(u, i, 1, rest)
  {
    hide Group, UseBits;
    MapUnfolds(u, i);
    assert u[16 * i..16 * i + 16] == [u[16 * i]] + u[16 * i + 1..16 * i + 16];
    Regrouped([u[16 * i]], u[16 * i + 1..16 * i + 16], UseBits(u, i + 1), rest);
  }

  lemma Regrouped(a: seq<bool>, b: seq<bool>, c: seq<bool>, d: seq<bool>)
    ensures ((a + b) + c) + d == a + (b + (c + d))
  {
    assert (a + b) + c == a + (b + c);
    assert (a + (b + c)) + d == a + ((b + c) + d);
    assert (b + c) + d == b + (c + d);
  }

  lemma GroupGoesOn(u: seq<bool>, i: nat, j: nat, rest: seq<bool>)
    requires |u| == 256 && i < 16 && Group(u, i) && j < 16
    ensures MarksLeft(u, i, j, rest) == [u[16 * i + j]] + MarksLeft(u, i, j + 1, rest)
  {
    if j == 0 {
      GroupBegins(u, i, rest);
    } else {
      hide Group, UseBits;
      var r := UseBits(u, i + 1) + rest;
      assert u[16 * i + j..16 * i + 16] == [u[16 * i + j]] + u[16 * i + j + 1..16 * i + 16];
      assert ([u[16 * i + j]] + u[16 * i + j + 1..16 * i + 16]) + r ==
             [u[16 * i + j]] + (u[16 * i + j + 1..16 * i + 16] + r);
    }
  }

  lemma GroupEnds(u: seq<bool>, i: nat, rest: seq<bool>)
    requires |u| == 256 && i < 16
    ensures MarksLeft(u, i, 16, rest) == MarksLeft(u, i + 1, 0, rest)
    ensures !Group(u, i) ==> MarksLeft(u, i, 0, rest) == MarksLeft(u, i + 1, 0, rest)
  {
    MapUnfolds(u, i);
    hide Group, UseBits;
    assert u[16 * i + 16..16 * i + 16] == [];
    assert [] + (UseBits(u, i + 1) + rest) == UseBits(u, i + 1) + rest;
  }

  lemma NoMarksLeft(u: seq<bool>, rest: seq<bool>)
    requires |u| == 256
    ensures MarksLeft(u, 16, 0, rest) == rest && GroupBits(u, 16) + rest == rest
  {
    assert [] + rest == rest;
  }

  ghost function Groups(u: seq<bool>, i: nat): (g: seq<bool>)
    requires |u| == 256 && i <= 16
    ensures |g| == i
  {
    seq(i, k requires 0 <= k < i => Group(u, k))
  }

  lemma {:induction false} GroupsParsed(u: seq<bool>, i: nat, rest: seq<bool>)
    requires |u| == 256 && i <= 16
    ensures GroupsFrom(Groups(u, i), GroupBits(u, i) + rest) == Got(Groups(u, 16), rest)
    decreases 16 - i
  {
    MapUnfolds(u, i);
    hide Group, GroupBits, UseBits, GroupsFrom, Groups;
    if i < 16 {
      GroupsParsed(u, i + 1, rest);
      GroupsGrow(u, i);
      GroupsNext(Groups(u, i), Group(u, i), GroupBits(u, i + 1), rest);
    } else {
      GroupsDone(Groups(u, 16), rest);
    }
  }

  lemma GroupsGrow(u: seq<bool>, i: nat)
    requires |u| == 256 && i < 16
    ensures Groups(u, i + 1) == Groups(u, i) + [Group(u, i)]
  {
    hide Group;
  }

  lemma GroupsDone(g: seq<bool>, rest: seq<bool>)
    requires |g| == 16
    ensures GroupsFrom(g, [] + rest) == Got(g, rest)
  {
    assert [] + rest == rest;
  }

  lemma GroupsNext(g: seq<bool>, d: bool, left: seq<bool>, rest: seq<bool>)
    requires |g| < 16
    ensures GroupsFrom(g, ([d] + left) + rest) == GroupsFrom(g + [d], left + rest)
  {
    ConsFront(d, left, rest);
  }

  lemma ConsFront(d: bool, left: seq<bool>, rest: seq<bool>)
    ensures (([d] + left) + rest)[0] == d && (([d] + left) + rest)[1..] == left + rest
  {
  }

  lemma {:induction false} MarksParsed(u: seq<bool>, i: nat, j: nat, rest: seq<bool>)
    requires |u| == 256 && i <= 16 && j <= 16 && (j > 0 ==> i < 16 && Group(u, i))
    ensures MarksFrom(Groups(u, 16), u[..16 * i + j], MarksLeft(u, i, j, rest)) == Got(u, rest)
    decreases 16 - i, 16 - j
  {
    hide Group, UseBits, MarksLeft;
    if i == 16 {
      NoMarksLeft(u, rest);
      assert u[..256] == u;
    } else if j == 16 {
      GroupEnds(u, i, rest);
      MarksParsed(u, i + 1, 0, rest);
    } else if Group(u, i) {
      MarksParsed(u, i, j + 1, rest);
      GroupGoesOn(u, i, j, rest);
      MarksNext(Groups(u, 16), u, 16 * i + j, MarksLeft(u, i, j + 1, rest));
    } else {
      GroupEnds(u, i, rest);
      MarksParsed(u, i + 1, 0, rest);
      UnusedGroup(u, i);
      assert u[..16 * (i + 1)] == u[..16 * i] + Unused();
    }
  }

  lemma MarksNext(g: seq<bool>, u: seq<bool>, n: nat, left: seq<bool>)
    requires |g| == 16 && |u| == 256 && n < 256 && (n % 16 == 0 ==> g[n / 16])
    ensures MarksFrom(g, u[..n], [u[n]] + left) == MarksFrom(g, u[..n + 1], left)
  {
    assert u[..n + 1] == u[..n] + [u[n]];
    assert ([u[n]] + left)[1..] == left;
  }

  /** The map a compressor writes is the map that is read. */
  lemma MapParsed(u: seq<bool>, rest: seq<bool>)
    requires |u| == 256
    ensures MapFrom(MapBits(u) + rest) == Got(u, rest)
  {
    hide GroupBits, UseBits, Group, GroupsFrom, MarksFrom;
    GroupsParsed(u, 0, UseBits(u, 0) + rest);
    MarksParsed(u, 0, 0, rest);
    assert Groups(u, 0) == [] && u[..0] == [];
    assert (GroupBits(u, 0) + UseBits(u, 0)) + rest == GroupBits(u, 0) + (UseBits(u, 0) + rest);
  }

  /* ---- Selectors ---- */

  /** One rank below n, when j ones have been read. */
  ghost function RankFrom(n: nat, j: nat, bits: seq<bool>): (p: Parsed<nat>)
    requires j < n
    ensures p.Got? ==> p.value < n && |p.rest| < |bits|
    decreases n - j
  {
    if bits == [] then Partial
    else if !bits[0] then Got(j, bits[1..])
    else if j + 1 >= n then Wrong
    else RankFrom(n, j + 1, bits[1..])
  }

  /** A rank is kept unless there are too many. */
  ghost function Kept(rs: seq<int>, r: int): seq<int> {
    if |rs| < MAX_SELECTORS then rs + [r] else rs
  }

  /** left more ranks, of which the first has had j ones. */
  ghost function RanksFrom(n: nat, left: nat, rs: seq<int>, j: nat, bits: seq<bool>): (p: Parsed<seq<int>>)
    requires j < n && Within(rs, n)
    ensures p.Got? ==> Within(p.value, n) && |p.rest| <= |bits|
    decreases left
  {
    if left == 0 then Got(rs, bits) else RanksGoOn(n, left, rs, RankFrom(n, j, bits))
  }

  ghost function RanksGoOn(n: nat, left: nat, rs: seq<int>, p: Parsed<nat>): (r: Parsed<seq<int>>)
    requires n > 0 && left > 0 && Within(rs, n) && (p.Got? ==> p.value < n)
    ensures r.Got? ==> Within(r.value, n) && p.Got? && |r.rest| <= |p.rest|
    decreases left, 0
  {
    match p
    case Got(v, rest) => RanksFrom(n, left - 1, Kept(rs, v), 0, rest)
    case Partial => Partial
    case Wrong => Wrong
  }

  lemma RanksUnfold(n: nat, left: nat, rs: seq<int>, j: nat, bits: seq<bool>)
    requires j < n && Within(rs, n) && left > 0
    ensures RanksFrom(n, left, rs, j, bits) == RanksGoOn(n, left, rs, RankFrom(n, j, bits))
  {
  }

  lemma RanksNext(n: nat, left: nat, rs: seq<int>, v: nat, rest: seq<bool>)
    requires v < n && left > 0 && Within(rs, n)
    ensures Within(Kept(rs, v), n)
    ensures RanksGoOn(n, left, rs, Got(v, rest)) == RanksFrom(n, left - 1, Kept(rs, v), 0, rest)
    ensures RanksGoOn(n, left, rs, Partial) == Partial && RanksGoOn(n, left, rs, Wrong) == Wrong
  {
  }

  /** The selectors with these ranks. */
  ghost function Unranked(n: nat, rs: seq<int>): (s: seq<int>)
    requires Within(rs, n)
    ensures |s| == |rs|
  {
    seq(|rs|, i requires 0 <= i < |rs| => List(rs, n, i)[rs[i]])
  }

  /** The number of tables, and which table each group of symbols uses. */
  datatype Selectors = Selectors(nGroups: nat, selector: seq<int>)

  ghost predicate SelectorsOk(s: Selectors) {
    2 <= s.nGroups <= N_GROUPS && Within(s.selector, s.nGroups)
  }

  lemma UnrankedWithin(n: nat, rs: seq<int>)
    requires Within(rs, n)
    ensures Within(Unranked(n, rs), n)
  {
    hide List, IsPerm;
    forall i | 0 <= i < |rs| ensures 0 <= List(rs, n, i)[rs[i]] < n {
      ListPerm(rs, n, i);
      PermAt(List(rs, n, i), n, rs[i]);
    }
  }

  lemma PermAt(s: seq<int>, n: nat, k: nat)
    requires IsPerm(s, n) && k < n
    ensures |s| == n && 0 <= s[k] < n
  {
  }

  ghost function SelectorsFrom(bits: seq<bool>): (p: Parsed<Selectors>)
    ensures p.Got? ==> SelectorsOk(p.value) && |p.rest| <= |bits|
  {
    if |bits| < 3 then Partial
    else if 2 <= Value(bits[..3]) <= N_GROUPS then NumberedFrom(Value(bits[..3]), bits[3..])
    else Wrong
  }

  /** The same from the number of selectors on. */
  ghost function NumberedFrom(n: nat, bits: seq<bool>): (p: Parsed<Selectors>)
    requires 2 <= n <= N_GROUPS
    ensures p.Got? ==> SelectorsOk(p.value) && |p.rest| <= |bits|
  {
    if |bits| < 15 then Partial
    else if Value(bits[..15]) < 1 then Wrong
    else SelectorsGoOn(n, RanksFrom(n, Value(bits[..15]), [], 0, bits[15..]))
  }

  ghost function SelectorsGoOn(n: nat, p: Parsed<seq<int>>): (r: Parsed<Selectors>)
    requires 2 <= n <= N_GROUPS && (p.Got? ==> Within(p.value, n))
    ensures r.Got? ==> SelectorsOk(r.value) && p.Got? && |r.rest| <= |p.rest|
  {
    match p
    case Got(rs, rest) =>
      UnrankedWithin(n, rs);
      Got(Selectors(n, Unranked(n, rs)), rest)
    case Partial => Partial
    case Wrong => Wrong
  }

  lemma UnaryAhead(j: nat)
    ensures Unary(0) == [false] && (j > 0 ==> Unary(j) == [true] + Unary(j - 1))
  {
  }

  lemma RanksAhead(ranks: seq<int>, i: nat)
    requires i <= |ranks| && forall k :: 0 <= k < |ranks| ==> 0 <= ranks[k]
    ensures i < |ranks| ==> SelectorBits(ranks, i) == Unary(ranks[i]) + SelectorBits(ranks, i + 1)
    ensures i == |ranks| ==> SelectorBits(ranks, i) == []
  {
  }

  /** The bits ahead at step j of selector i. */
  ghost function RankLeft(ranks: seq<int>, i: nat, j: nat, rest: seq<bool>): seq<bool>
    requires i <= |ranks| && (forall k :: 0 <= k < |ranks| ==> 0 <= ranks[k]) && (i < |ranks| ==> j <= ranks[i])
  {
    if i == |ranks| then rest else Unary(ranks[i] - j) + (SelectorBits(ranks, i + 1) + rest)
  }

  lemma RankStart(ranks: seq<int>, i: nat, rest: seq<bool>)
    requires i <= |ranks| && forall k :: 0 <= k < |ranks| ==> 0 <= ranks[k]
    ensures SelectorBits(ranks, i) + rest == RankLeft(ranks, i, 0, rest)
  {
    RanksAhead(ranks, i);
    hide SelectorBits, Unary;
    if i < |ranks| {
      var a, b := Unary(ranks[i]), SelectorBits(ranks, i + 1);
      assert (a + b) + rest == a + (b + rest);
    } else {
      assert [] + rest == rest;
    }
  }

  lemma RankStep(ranks: seq<int>, i: nat, j: nat, rest: seq<bool>)
    requires i < |ranks| && (forall k :: 0 <= k < |ranks| ==> 0 <= ranks[k]) && j <= ranks[i]
    ensures j < ranks[i] ==> RankLeft(ranks, i, j, rest) == [true] + RankLeft(ranks, i, j + 1, rest)
    ensures j == ranks[i] ==> RankLeft(ranks, i, j, rest) == [false] + RankLeft(ranks, i + 1, 0, rest)
  {
    UnaryAhead(ranks[i] - j);
    RankStart(ranks, i + 1, rest);
    hide SelectorBits, Unary;
    if j < ranks[i] {
      var a, b := Unary(ranks[i] - j - 1), SelectorBits(ranks, i + 1) + rest;
      assert ([true] + a) + b == [true] + (a + b);
    }
  }

  lemma RankRange(sel: seq<int>, n: nat, ranks: seq<int>)
    requires Ranked(sel, n, ranks)
    ensures |ranks| == |sel| && Within(ranks, n) && forall k :: 0 <= k < |ranks| ==> 0 <= ranks[k]
  {
  }

  lemma {:induction false} RankParsed(n: nat, ranks: seq<int>, i: nat, j: nat, rest: seq<bool>)
    requires i < |ranks| && (forall k :: 0 <= k < |ranks| ==> 0 <= ranks[k] < n) && j <= ranks[i]
    ensures RankFrom(n, j, RankLeft(ranks, i, j, rest)) == Got(ranks[i], RankLeft(ranks, i + 1, 0, rest))
    decreases ranks[i] - j
  {
    hide RankLeft, RankFrom;
    RankStep(ranks, i, j, rest);
    if j < ranks[i] {
      RankParsed(n, ranks, i, j + 1, rest);
      RankGoesOn(n, j, RankLeft(ranks, i, j + 1, rest));
    } else {
      RankStops(n, j, RankLeft(ranks, i + 1, 0, rest));
    }
  }

  lemma RankGoesOn(n: nat, j: nat, left: seq<bool>)
    requires j + 1 < n
    ensures RankFrom(n, j, [true] + left) == RankFrom(n, j + 1, left)
  {
    assert ([true] + left)[1..] == left;
  }

  lemma RankStops(n: nat, j: nat, left: seq<bool>)
    requires j < n
    ensures RankFrom(n, j, [false] + left) == Got(j, left)
  {
    assert ([false] + left)[1..] == left;
  }

  /** All that is kept of selectors or their ranks. */
  ghost function Capped(s: seq<int>): (t: seq<int>)
    ensures t <= s && |t| <= MAX_SELECTORS
  {
    if |s| <= MAX_SELECTORS then s else s[..MAX_SELECTORS]
  }

  lemma CappedNext(s: seq<int>, i: nat)
    requires i < |s|
    ensures Capped(s[..i + 1]) == Kept(Capped(s[..i]), s[i])
  {
    assert s[..i + 1] == s[..i] + [s[i]];
  }

  lemma {:induction false} RanksParsed(n: nat, ranks: seq<int>, i: nat, rest: seq<bool>)
    requires i <= |ranks| && n > 0 && forall k :: 0 <= k < |ranks| ==> 0 <= ranks[k] < n
    ensures RanksFrom(n, |ranks| - i, Capped(ranks[..i]), 0, RankLeft(ranks, i, 0, rest)) == Got(Capped(ranks), rest)
    decreases |ranks| - i
  {
    if i < |ranks| {
      RankParsed(n, ranks, i, 0, rest);
      hide RankLeft, RankFrom, Capped, Kept;
      RanksParsed(n, ranks, i + 1, rest);
      CappedNext(ranks, i);
    } else {
      assert ranks[..i] == ranks;
    }
  }

  lemma UnrankedIs(sel: seq<int>, n: nat, r: seq<int>)
    requires Ranked(sel, n, r)
    ensures Within(r, n) && Within(Capped(r), n) && Unranked(n, Capped(r)) == Capped(sel)
  {
    hide List;
    forall i | 0 <= i < |Capped(r)| ensures List(Capped(r), n, i)[r[i]] == sel[i] { ListSame(Capped(r), r, n, i); }
  }

  /** The selectors that are written are the selectors that are read; of too many, those beyond the maximum are
      read and dropped. */
  lemma SelectorsParsed(n: nat, sel: seq<int>, ranks: seq<int>, rest: seq<bool>)
    requires 2 <= n <= N_GROUPS && 1 <= |sel| < 32768 && Ranked(sel, n, ranks)
    requires forall k :: 0 <= k < |ranks| ==> 0 <= ranks[k]
    ensures SelectorsFrom(BitsOf(n, 3) + (BitsOf(|sel|, 15) + (SelectorBits(ranks, 0) + rest))) ==
            Got(Selectors(n, if |sel| <= 18002 then sel else sel[..18002]), rest)
  {
    hide BitsOf, Value, Pow2, SelectorBits, RanksFrom, Ranked, RankLeft, Unranked;
    SmallSizes();
    RankRange(sel, n, ranks);
    UnrankedIs(sel, n, ranks);
    RankStart(ranks, 0, rest);
    RanksParsed(n, ranks, 0, rest);
    ValueAhead(n, 3, BitsOf(|sel|, 15) + (SelectorBits(ranks, 0) + rest));
    ValueAhead(|sel|, 15, SelectorBits(ranks, 0) + rest);
    assert ranks[..0] == [];
  }

  lemma SmallSizes()
    ensures Pow2(3) == 8 && Pow2(5) == 32 && Pow2(15) == 32768
  {
    assert Pow2(7) == 128;
    assert Pow2(11) == 2048;
  }

  /** A number at the front. */
  lemma ValueAhead(v: nat, n: nat, rest: seq<bool>)
    requires v < Pow2(n)
    ensures |BitsOf(v, n) + rest| >= n && Value((BitsOf(v, n) + rest)[..n]) == v && (BitsOf(v, n) + rest)[n..] == rest
  {
    hide BitsOf, Value, Pow2;
    assert (BitsOf(v, n) + rest)[..n] == BitsOf(v, n);
    ValueOfBits(v, n);
  }

  /* ---- Code lengths ---- */

  ghost predicate LengthsOk(L: seq<int>) {
    forall i :: 0 <= i < |L| ==> 1 <= L[i] <= MAX_LEN
  }

  /** One length, in steps from c; step tells that the direction of a step comes next. */
  ghost function LengthFrom(step: bool, c: int, bits: seq<bool>): (p: Parsed<int>)
    ensures p.Got? ==> 1 <= p.value <= MAX_LEN && |p.rest| <= |bits|
    decreases |bits|
  {
    if !step && (c < 1 || c > 20) then Wrong
    else if bits == [] then Partial
    else if step then LengthFrom(false, if bits[0] then c - 1 else c + 1, bits[1..])
    else if bits[0] then LengthFrom(true, c, bits[1..])
    else Got(c, bits[1..])
  }

  /** The lengths of one table of a symbols, of which row is known. */
  ghost function RowFrom(a: nat, row: seq<int>, step: bool, c: int, bits: seq<bool>): (p: Parsed<seq<int>>)
    requires |row| <= a && LengthsOk(row)
    ensures p.Got? ==> |p.value| == a && LengthsOk(p.value) && |p.rest| <= |bits|
    decreases a - |row|
  {
    if |row| == a then Got(row, bits) else RowGoesOn(a, row, LengthFrom(step, c, bits))
  }

  ghost function RowGoesOn(a: nat, row: seq<int>, p: Parsed<int>): (r: Parsed<seq<int>>)
    requires |row| < a && LengthsOk(row) && (p.Got? ==> 1 <= p.value <= MAX_LEN)
    ensures r.Got? ==> |r.value| == a && LengthsOk(r.value) && p.Got? && |r.rest| <= |p.rest|
    decreases a - |row|, 0
  {
    match p
    case Got(c, rest) => RowFrom(a, row + [c], false, c, rest)
    case Partial => Partial
    case Wrong => Wrong
  }

  lemma RowUnfold(a: nat, row: seq<int>, step: bool, c: int, bits: seq<bool>)
    requires |row| < a && LengthsOk(row)
    ensures RowFrom(a, row, step, c, bits) == RowGoesOn(a, row, LengthFrom(step, c, bits))
  {
  }

  lemma RowNext(a: nat, row: seq<int>, c: int, rest: seq<bool>)
    requires |row| < a && LengthsOk(row) && 1 <= c <= MAX_LEN
    ensures LengthsOk(row + [c]) && RowGoesOn(a, row, Got(c, rest)) == RowFrom(a, row + [c], false, c, rest)
    ensures RowGoesOn(a, row, Partial) == Partial && RowGoesOn(a, row, Wrong) == Wrong
  {
  }

  ghost predicate TablesOk(lens: seq<seq<int>>, a: nat) {
    forall t :: 0 <= t < |lens| ==> |lens[t]| == a && LengthsOk(lens[t])
  }

  /** left more tables. */
  ghost function TablesFrom(left: nat, a: nat, lens: seq<seq<int>>, bits: seq<bool>): (p: Parsed<seq<seq<int>>>)
    requires TablesOk(lens, a)
    ensures p.Got? ==> |p.value| == |lens| + left && TablesOk(p.value, a) && |p.rest| <= |bits|
    decreases left
  {
    if left == 0 then Got(lens, bits)
    else if |bits| < 5 then Partial
    else TablesGoOn(left, a, lens, RowFrom(a, [], false, Value(bits[..5]), bits[5..]))
  }

  ghost function TablesGoOn(left: nat, a: nat, lens: seq<seq<int>>, p: Parsed<seq<int>>): (r: Parsed<seq<seq<int>>>)
    requires left > 0 && TablesOk(lens, a) && (p.Got? ==> |p.value| == a && LengthsOk(p.value))
    ensures r.Got? ==> |r.value| == |lens| + left && TablesOk(r.value, a) && p.Got? && |r.rest| <= |p.rest|
    decreases left, 0
  {
    match p
    case Got(row, rest) => TablesFrom(left - 1, a, lens + [row], rest)
    case Partial => Partial
    case Wrong => Wrong
  }

  lemma TablesUnfold(left: nat, a: nat, lens: seq<seq<int>>, bits: seq<bool>)
    requires TablesOk(lens, a) && left > 0
    ensures LengthsOk([])
    ensures TablesFrom(left, a, lens, bits) ==
            if |bits| < 5 then Partial
            else TablesGoOn(left, a, lens, RowFrom(a, [], false, Value(bits[..5]), bits[5..]))
  {
  }

  lemma TablesDone(a: nat, lens: seq<seq<int>>, bits: seq<bool>)
    requires TablesOk(lens, a)
    ensures TablesFrom(0, a, lens, bits) == Got(lens, bits)
  {
  }

  lemma TablesNext(left: nat, a: nat, lens: seq<seq<int>>, row: seq<int>, rest: seq<bool>)
    requires TablesOk(lens, a) && left > 0 && |row| == a && LengthsOk(row)
    ensures TablesOk(lens + [row], a)
    ensures TablesGoOn(left, a, lens, Got(row, rest)) == TablesFrom(left - 1, a, lens + [row], rest)
    ensures TablesGoOn(left, a, lens, Partial) == Partial && TablesGoOn(left, a, lens, Wrong) == Wrong
  {
  }

  lemma StepsAhead(c: int, l: int)
    ensures c < l ==> Steps(c, l) == [true, false] + Steps(c + 1, l)
    ensures c > l ==> Steps(c, l) == [true, true] + Steps(c - 1, l)
    ensures c == l ==> Steps(c, l) == []
  {
  }

  /** What the next bits of a length are: whether a step follows, and which. */
  ghost function AfterSteps(c: int, l: int, rest: seq<bool>): seq<bool> {
    Steps(c, l) + ([false] + rest)
  }

  lemma NextStep(c: int, l: int, rest: seq<bool>)
    ensures c == l ==> AfterSteps(c, l, rest) == [false] + rest
    ensures c < l ==> AfterSteps(c, l, rest) == [true] + ([false] + AfterSteps(c + 1, l, rest))
    ensures c > l ==> AfterSteps(c, l, rest) == [true] + ([true] + AfterSteps(c - 1, l, rest))
  {
    StepsAhead(c, l);
    hide Steps;
    var t := [false] + rest;
    if c < l {
      assert ([true, false] + Steps(c + 1, l)) + t == [true] + ([false] + (Steps(c + 1, l) + t));
    } else if c > l {
      assert ([true, true] + Steps(c - 1, l)) + t == [true] + ([true] + (Steps(c - 1, l) + t));
    } else {
      assert [] + t == t;
    }
  }

  lemma LengthsAhead(L: seq<int>, i: nat, c: int, rest: seq<bool>)
    requires i <= |L|
    ensures i < |L| ==> LengthBits(L, i, c) + rest == AfterSteps(c, L[i], LengthBits(L, i + 1, L[i]) + rest)
    ensures i == |L| ==> LengthBits(L, i, c) + rest == rest
  {
    hide Steps;
    if i < |L| {
      var t := LengthBits(L, i + 1, L[i]);
      assert LengthBits(L, i, c) == Steps(c, L[i]) + ([false] + t);
      hide LengthBits;
      assert (Steps(c, L[i]) + ([false] + t)) + rest == Steps(c, L[i]) + ([false] + (t + rest));
    } else {
      assert [] + rest == rest;
    }
  }

  lemma {:induction false} LengthParsed(c: int, l: int, rest: seq<bool>)
    requires 1 <= c <= MAX_LEN && 1 <= l <= MAX_LEN
    ensures LengthFrom(false, c, AfterSteps(c, l, rest)) == Got(l, rest)
    decreases if c < l then l - c else c - l
  {
    NextStep(c, l, rest);
    hide AfterSteps;
    if c != l {
      var d := if c < l then c + 1 else c - 1;
      LengthParsed(d, l, rest);
      LengthStep(c, !(c < l), AfterSteps(d, l, rest));
    } else {
      assert ([false] + rest)[1..] == rest;
    }
  }

  lemma LengthStep(c: int, down: bool, left: seq<bool>)
    requires 1 <= c <= MAX_LEN
    ensures LengthFrom(false, c, [true] + ([down] + left)) == LengthFrom(false, if down then c - 1 else c + 1, left)
  {
    assert ([true] + ([down] + left))[1..] == [down] + left;
    assert ([down] + left)[1..] == left;
  }

  lemma {:induction false} RowParsed(L: seq<int>, i: nat, c: int, rest: seq<bool>)
    requires i <= |L| && LengthsOk(L) && 1 <= c <= MAX_LEN
    ensures RowFrom(|L|, L[..i], false, c, LengthBits(L, i, c) + rest) == Got(L, rest)
    decreases |L| - i
  {
    LengthsAhead(L, i, c, rest);
    if i < |L| {
      LengthParsed(c, L[i], LengthBits(L, i + 1, L[i]) + rest);
      hide LengthFrom, LengthBits, AfterSteps;
      RowParsed(L, i + 1, L[i], rest);
      assert L[..i + 1] == L[..i] + [L[i]];
    } else {
      assert L[..i] == L;
    }
  }

  lemma TableParsed(L: seq<int>, rest: seq<bool>)
    requires |L| > 0 && LengthsOk(L)
    ensures var bits := TableBits(L) + rest;
            |bits| >= 5 && RowFrom(|L|, [], false, Value(bits[..5]), bits[5..]) == Got(L, rest)
  {
    hide BitsOf, Value, Pow2, LengthBits, RowFrom;
    SmallSizes();
    var t := LengthBits(L, 0, L[0]);
    ValueAhead(L[0], 5, t + rest);
    assert (BitsOf(L[0], 5) + t) + rest == BitsOf(L[0], 5) + (t + rest);
    RowParsed(L, 0, L[0], rest);
    assert L[..0] == [];
  }

  lemma TablesAhead(lens: seq<seq<int>>, t: nat, rest: seq<bool>)
    requires t <= |lens| && forall k :: 0 <= k < |lens| ==> |lens[k]| > 0 && 0 <= lens[k][0]
    ensures t < |lens| ==> TablesBits(lens, t) + rest == TableBits(lens[t]) + (TablesBits(lens, t + 1) + rest)
    ensures t == |lens| ==> TablesBits(lens, t) + rest == rest
  {
    if t < |lens| {
      hide TableBits;
      assert (TableBits(lens[t]) + TablesBits(lens, t + 1)) + rest ==
             TableBits(lens[t]) + (TablesBits(lens, t + 1) + rest);
    } else {
      assert [] + rest == rest;
    }
  }

  /** The code lengths a compressor writes are those that are read. */
  lemma {:induction false} TablesParsed(lens: seq<seq<int>>, a: nat, t: nat, rest: seq<bool>)
    requires t <= |lens| && a > 0 && TablesOk(lens, a)
    requires forall k :: 0 <= k < |lens| ==> |lens[k]| > 0 && 0 <= lens[k][0]
    ensures TablesOk(lens[..t], a)
    ensures TablesFrom(|lens| - t, a, lens[..t], TablesBits(lens, t) + rest) == Got(lens, rest)
    decreases |lens| - t
  {
    hide TableBits, RowFrom, Value, LengthsOk;
    TablesAhead(lens, t, rest);
    if t < |lens| {
      TableParsed(lens[t], TablesBits(lens, t + 1) + rest);
      TablesParsed(lens, a, t + 1, rest);
      assert lens[..t + 1] == lens[..t] + [lens[t]];
    } else {
      assert lens[..t] == lens;
    }
  }
}
