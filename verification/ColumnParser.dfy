/** What any sequence of bits means to a decoder of columns, and that the bits of a column mean it. */
module ColumnParser {
  import opened BlockFormat
  import opened BlockParser
  import opened Counting
  import opened MoveToFront
  import opened MtfEncoder
  import opened Powers
  import Rle
  import opened SymbolParser

  /* ---- The column ---- */

  /** A run of which es + 1 characters are known, when the next digit weighs N. */
  datatype RunPart = Outside | Digits(es: int, N: nat)

  ghost predicate RunOk(run: RunPart) {
    run.Digits? ==> run.es >= -1 && run.N >= 1
  }

  ghost function Started(run: RunPart): RunPart {
    if run.Outside? then Digits(-1, 1) else run
  }

  ghost function Digit(run: RunPart, sym: int): RunPart
    requires run.Digits?
  {
    Digits(run.es + (sym + 1) * run.N, 2 * run.N)
  }

  ghost predicate Bytes256(s: seq<int>) {
    |s| == 256 && Within(s, 256)
  }

  /** The column goes on with symbol c; got is what there is of it, and list the move-to-front list. */
  ghost function ColumnFrom(h: Plan, c: nat, run: RunPart, list: seq<int>, got: seq<int>,
                            bits: seq<bool>): (p: Parsed<seq<int>>)
    requires PlanOk(h) && RunOk(run) && Bytes256(list) && Within(got, 256) && |got| <= h.most
    ensures p.Got? ==> Within(p.value, 256) && |p.value| <= h.most && |p.rest| <= |bits|
    decreases |bits| + 1, 0
  {
    ColumnGoesOn(h, c, run, list, got, SymbolFrom(h, c, bits))
  }

  ghost function ColumnGoesOn(h: Plan, c: nat, run: RunPart, list: seq<int>, got: seq<int>,
                              s: Parsed<int>): (p: Parsed<seq<int>>)
    requires PlanOk(h) && RunOk(run) && Bytes256(list) && Within(got, 256) && |got| <= h.most
    requires s.Got? ==> 0 <= s.value < h.nInUse + 2
    ensures p.Got? ==> Within(p.value, 256) && |p.value| <= h.most && s.Got? && |p.rest| <= |s.rest|
    decreases if s.Got? then |s.rest| + 1 else 0, 2
  {
    match s
    case Partial => Partial
    case Wrong => Wrong
    case Got(sym, rest) =>
      if sym == RUNA || sym == RUNB then
        if Started(run).N >= 2 * 1024 * 1024 then Wrong
        else ColumnFrom(h, c + 1, Digit(Started(run), sym), list, got, rest)
      else if run.Outside? then
        MoveFrom(h, c, sym, list, got, rest)
      else if |got| + run.es + 1 > h.most then
        Wrong
      else
        MoveFrom(h, c, sym, list, got + Rle.Times(h.chars[list[0]], run.es + 1), rest)
  }

  /** Symbol c is sym, the end of the block or a character that moves to the front. */
  ghost function MoveFrom(h: Plan, c: nat, sym: int, list: seq<int>, got: seq<int>,
                          rest: seq<bool>): (p: Parsed<seq<int>>)
    requires PlanOk(h) && Bytes256(list) && Within(got, 256) && |got| <= h.most && RUNB < sym < h.nInUse + 2
    ensures p.Got? ==> Within(p.value, 256) && |p.value| <= h.most && |p.rest| <= |rest|
    decreases |rest| + 1, 1
  {
    if sym == h.nInUse + 1 then Got(got, rest)
    else if |got| >= h.most then Wrong
    else ColumnFrom(h, c + 1, Outside, Front(list, sym - 1), got + [h.chars[list[sym - 1]]], rest)
  }

  lemma ColumnUnfolds(h: Plan, c: nat, run: RunPart, list: seq<int>, got: seq<int>, bits: seq<bool>)
    requires PlanOk(h) && RunOk(run) && Bytes256(list) && Within(got, 256) && |got| <= h.most
    ensures ColumnFrom(h, c, run, list, got, bits) == ColumnGoesOn(h, c, run, list, got, SymbolFrom(h, c, bits))
  {
  }

  lemma DigitTaken(h: Plan, c: nat, run: RunPart, list: seq<int>, got: seq<int>, sym: int, rest: seq<bool>)
    requires PlanOk(h) && RunOk(run) && Bytes256(list) && Within(got, 256) && |got| <= h.most
    requires (sym == RUNA || sym == RUNB)
    ensures RunOk(Digit(Started(run), sym))
    ensures ColumnGoesOn(h, c, run, list, got, Got(sym, rest)) ==
            if Started(run).N >= 2 * 1024 * 1024 then Wrong
            else ColumnFrom(h, c + 1, Digit(Started(run), sym), list, got, rest)
  {
  }

  /* ---- The bits of a column ---- */

  const MAX_BLOCK := 900000

  /** s takes the numbers of the used characters below i back to the characters. */
  ghost predicate Mapped(u: seq<bool>, s: seq<int>, i: nat) {
    && i <= |u| && |s| == 256 && (forall k :: 0 <= k < 256 ==> 0 <= s[k] < 256)
    && forall c :: 0 <= c < i && u[c] ==> UsedBelow(u, c) < 256 && s[UsedBelow(u, c)] == c
  }

  /** Characters in use. */
  function Used(x: Coded): nat
    requires |x.inUse| == 256
  {
    UsedBelow(x.inUse, 256)
  }

  /** x codes the column l, whose ranks are r. */
  ghost predicate Expected(x: Coded, l: seq<int>, r: seq<int>) {
    && Sound(x) && AllUsed(x.inUse, l) && Ranked(Numbered(x.inUse, l), Used(x), r) && x.symbols == Symbols(r, Used(x))
  }

  /** Symbol k - 1 and those after it are the code of the column from position i on. */
  ghost predicate Remaining(x: Coded, r: seq<int>, n: nat, i: nat, k: nat) {
    i <= |r| && 1 <= k <= |x.symbols| && x.symbols[k - 1..] == Emit(r, i, 0) + [n + 1]
  }

  /* ---- Runs ---- */

  /** Symbol k - 1, which is sym, and those after it are the rest of a run's code, and then tail. */
  ghost predicate InRun(x: Coded, tail: seq<int>, z: nat, k: nat, sym: int) {
    && 1 <= k <= |x.symbols| && x.symbols[k - 1] == sym && x.symbols[k - 1..] == RunCode(z) + tail
    && |tail| > 0 && tail[0] != RUNA && tail[0] != RUNB
  }

  lemma RunNext(x: Coded, tail: seq<int>, z: nat, k: nat, sym: int)
    requires InRun(x, tail, z, k, sym)
    ensures z == 0 ==> sym == tail[0] && sym != RUNA && sym != RUNB
    ensures z > 0 ==> k < |x.symbols| && sym == (z - 1) % 2 && InRun(x, tail, (z - 1) / 2, k + 1, x.symbols[k])
  {
    if z > 0 {
      RunUnfolds(z - 1);
      hide RunCode;
      var t := RunCode((z - 1) / 2) + tail;
      assert x.symbols[k - 1..] == [(z - 1) % 2] + t;
      assert x.symbols[k..] == x.symbols[k - 1..][1..] == t;
    } else {
      RunUnfolds(0);
      hide RunCode;
      assert [] + tail == tail;
      assert x.symbols[k - 1] == x.symbols[k - 1..][0];
    }
  }

  lemma EmitEnds(r: seq<int>)
    ensures Emit(r, |r|, 0) == []
  {
  }

  lemma EmitMove(r: seq<int>, i: nat)
    requires i < |r| && r[i] != 0
    ensures Emit(r, i, 0) == [r[i] + 1] + Emit(r, i + 1, 0)
  {
    RunUnfolds(0);
  }

  lemma RemainingEnd(x: Coded, r: seq<int>, n: nat, k: nat)
    requires Remaining(x, r, n, |r|, k)
    ensures x.symbols[k - 1] == n + 1 && k == |x.symbols|
  {
    EmitEnds(r);
    var s := x.symbols[k - 1..];
    assert s == [n + 1] && s[0] == x.symbols[k - 1];
  }

  lemma RemainingMove(x: Coded, r: seq<int>, n: nat, i: nat, k: nat)
    requires Remaining(x, r, n, i, k) && i < |r| && r[i] != 0
    ensures x.symbols[k - 1] == r[i] + 1 && k < |x.symbols| && Remaining(x, r, n, i + 1, k + 1)
  {
    EmitMove(r, i);
    hide Emit;
    var s := x.symbols[k - 1..];
    assert s == [r[i] + 1] + (Emit(r, i + 1, 0) + [n + 1]) && s[0] == x.symbols[k - 1];
    assert x.symbols[k..] == s[1..];
  }

  /** What follows a run's code. */
  ghost function AfterRun(r: seq<int>, n: nat, j: nat): seq<int>
    requires j <= |r|
  {
    Emit(r, j, 0) + [n + 1]
  }

  lemma AfterRunHead(r: seq<int>, n: nat, j: nat)
    requires j <= |r| && Within(r, n) && n > 0 && (j < |r| ==> r[j] != 0)
    ensures |AfterRun(r, n, j)| > 0 && AfterRun(r, n, j)[0] != RUNA && AfterRun(r, n, j)[0] != RUNB
  {
    if j < |r| { EmitMove(r, j); } else { EmitEnds(r); }
  }

  lemma RemainingRun(x: Coded, r: seq<int>, n: nat, i: nat, k: nat)
    requires Remaining(x, r, n, i, k) && Within(r, n) && n > 0 && Zeros(r, i) > 0
    ensures InRun(x, AfterRun(r, n, i + Zeros(r, i)), Zeros(r, i), k, x.symbols[k - 1])
  {
    hide RunCode;
    EmitZeros(r, i, 0);
    AfterRunHead(r, n, i + Zeros(r, i));
    hide Emit, Zeros;
    var c, e := RunCode(Zeros(r, i)), Emit(r, i + Zeros(r, i), 0);
    assert (c + e) + [n + 1] == c + (e + [n + 1]);
  }

  /** After the run the column goes on behind it. */
  lemma RunEnds(x: Coded, r: seq<int>, n: nat, j: nat, k: nat, sym: int)
    requires j <= |r| && InRun(x, AfterRun(r, n, j), 0, k, sym)
    ensures Remaining(x, r, n, j, k) && x.symbols[k - 1] == sym
  {
    RunUnfolds(0);
    hide RunCode, Emit;
    assert [] + AfterRun(r, n, j) == AfterRun(r, n, j);
  }

  /** A run of z zeros, es + 1 of them accounted for, with digits of weight N and more still to come. */
  ghost predicate Weighed(z: nat, es: int, N: nat, zd: nat) {
    z == es + 1 + N * zd
  }

  lemma WeighStep(z: nat, es: int, N: nat, zd: nat, sym: int)
    requires Weighed(z, es, N, zd) && zd > 0 && sym == (zd - 1) % 2 && es >= -1
    ensures N <= z && Weighed(z, if sym == RUNA then es + N else es + 2 * N, N * 2, (zd - 1) / 2)
  {
    var d, q := (zd - 1) % 2, (zd - 1) / 2;
    assert zd == 1 + d + 2 * q;
    assert N * (1 + d + 2 * q) == (1 + d) * N + (2 * N) * q;
  }

  lemma WeighEnd(z: nat, es: int, N: nat)
    requires Weighed(z, es, N, 0)
    ensures z == es + 1
  {
  }

  lemma WeighStart(z: nat)
    ensures Weighed(z, -1, 1, z)
  {
  }

  /** i characters of the column have been decoded, list is the move-to-front list, and sym is the
      next symbol, number k - 1. */
  ghost predicate Following(x: Coded, l: seq<int>, r: seq<int>, i: nat, k: nat, sym: int, list: seq<int>,
                            got: seq<int>) {
    && Expected(x, l, r) && |r| == |l| && i <= |l| && Within(r, Used(x)) && Used(x) <= |list| == 256
    && Remaining(x, r, Used(x), i, k) && x.symbols[k - 1] == sym
    && list[..Used(x)] == List(r, Used(x), i) && got == l[..i]
  }

  lemma FollowParts(x: Coded, l: seq<int>, r: seq<int>, i: nat, k: nat, sym: int, list: seq<int>, got: seq<int>)
    requires Following(x, l, r, i, k, sym, list, got)
    ensures |x.inUse| == 256 && Expected(x, l, r) && |r| == |l| && i <= |l| && Within(r, Used(x))
    ensures 0 < Used(x) <= |list| == 256 && Remaining(x, r, Used(x), i, k) && 1 <= k <= |x.symbols|
    ensures x.symbols[k - 1] == sym
    ensures list[..Used(x)] == List(r, Used(x), i) && got == l[..i]
  {
    hide UsedBelow, Symbols, List, Ranked, AllUsed, TableOk;
  }

  lemma FollowIntro(x: Coded, l: seq<int>, r: seq<int>, i: nat, k: nat, sym: int, list: seq<int>, got: seq<int>)
    requires |x.inUse| == 256 && Expected(x, l, r) && |r| == |l| && i <= |l| && Within(r, Used(x))
    requires Used(x) <= |list| == 256
    requires Remaining(x, r, Used(x), i, k) && 1 <= k <= |x.symbols| && x.symbols[k - 1] == sym
    requires list[..Used(x)] == List(r, Used(x), i) && got == l[..i]
    ensures Following(x, l, r, i, k, sym, list, got)
  {
    hide UsedBelow, Symbols, List, Ranked, AllUsed, Sound, Remaining, Expected;
  }

  lemma ExpectedParts(x: Coded, l: seq<int>, r: seq<int>)
    requires Expected(x, l, r)
    ensures |x.inUse| == 256 && 0 < Used(x) <= 256 && |r| == |l| && Within(r, Used(x))
    ensures x.symbols == Symbols(r, Used(x))
    ensures AllUsed(x.inUse, l) && Ranked(Numbered(x.inUse, l), Used(x), r)
  {
    hide UsedBelow, Symbols, List, TableOk;
    UsedMost(x.inUse, 256);
  }

  lemma FollowStart(x: Coded, l: seq<int>, r: seq<int>, list: seq<int>)
    requires Expected(x, l, r) && list == Identity(256)
    ensures |x.symbols| > 0 && Following(x, l, r, 0, 1, x.symbols[0], list, [])
  {
    hide UsedBelow, Used, Expected, Following, AllUsed, Ranked;
    ExpectedParts(x, l, r);
    assert x.symbols[1 - 1..] == x.symbols;
    FollowIntro(x, l, r, 0, 1, x.symbols[0], list, []);
  }

  lemma {:induction false} UsedMost(u: seq<bool>, c: nat)
    requires c <= |u|
    ensures UsedBelow(u, c) <= c
  {
  }

  /** What the next symbol can be. */
  lemma FollowCases(x: Coded, l: seq<int>, r: seq<int>, i: nat, k: nat, sym: int, list: seq<int>, got: seq<int>)
    requires Following(x, l, r, i, k, sym, list, got)
    ensures |x.inUse| == 256 && Used(x) > 0 && |r| == |l| && i <= |r| && Within(r, Used(x))
    ensures sym == Used(x) + 1 <==> i == |l|
    ensures sym == Used(x) + 1 ==> k == |x.symbols| && got == l
    ensures sym == RUNA || sym == RUNB ==>
              Zeros(r, i) > 0 && InRun(x, AfterRun(r, Used(x), i + Zeros(r, i)), Zeros(r, i), k, sym)
    ensures i < |l| && sym != RUNA && sym != RUNB ==> r[i] == sym - 1 && r[i] != 0 && k < |x.symbols|
  {
    hide Following, Expected, Used, UsedBelow, Remaining, InRun, List, AfterRun;
    FollowParts(x, l, r, i, k, sym, list, got);
    var n := Used(x);
    if i == |r| {
      RemainingEnd(x, r, n, k);
      assert l[..|l|] == l;
    } else if r[i] != 0 {
      RemainingMove(x, r, n, i, k);
    } else {
      assert Zeros(r, i) > 0;
      RemainingRun(x, r, n, i, k);
      RunNext(x, AfterRun(r, n, i + Zeros(r, i)), Zeros(r, i), k, sym);
    }
  }

  lemma MappedAt(u: seq<bool>, s: seq<int>, c: nat)
    requires Mapped(u, s, 256) && c < 256 && u[c]
    ensures |u| >= 256 && UsedBelow(u, c) < 256 == |s| && s[UsedBelow(u, c)] == c
  {
    hide UsedBelow;
  }

  lemma NumberedAt(u: seq<bool>, l: seq<int>, n: nat, r: seq<int>, i: nat)
    requires AllUsed(u, l) && Ranked(Numbered(u, l), n, r) && i < |l|
    ensures |u| == 256 && 0 <= l[i] < 256 && u[l[i]] && |r| == |l| && Within(r, n) && 0 <= r[i] < n
    ensures List(r, n, i)[r[i]] == UsedBelow(u, l[i])
  {
    hide UsedBelow, List;
  }

  /** The character at position i. */
  lemma CharAt(x: Coded, l: seq<int>, r: seq<int>, i: nat, s: seq<int>)
    requires Expected(x, l, r) && i < |l| && Mapped(x.inUse, s, 256)
    ensures |r| == |l| && Within(r, Used(x)) && 0 <= r[i] < Used(x) <= 256
    ensures 0 <= List(r, Used(x), i)[r[i]] < 256 == |s| && s[List(r, Used(x), i)[r[i]]] == l[i]
  {
    hide Expected, List, UsedBelow, Used, Mapped, AllUsed, Ranked;
    ExpectedParts(x, l, r);
    NumberedAt(x.inUse, l, Used(x), r, i);
    MappedAt(x.inUse, s, l[i]);
  }

  lemma FollowMove(x: Coded, l: seq<int>, r: seq<int>, i: nat, k: nat, sym: int, list: seq<int>, got: seq<int>,
                   s: seq<int>)
    requires Following(x, l, r, i, k, sym, list, got) && Mapped(x.inUse, s, 256)
    requires i < |l| && sym != RUNA && sym != RUNB
    ensures 0 <= sym - 1 < |list| && 0 <= list[sym - 1] < 256 == |s| && s[list[sym - 1]] == l[i] && k < |x.symbols|
    ensures Following(x, l, r, i + 1, k + 1, x.symbols[k], Front(list, sym - 1), got + [l[i]])
  {
    hide Following, Expected, Used, UsedBelow, Remaining, InRun, AfterRun, Mapped;
    FollowParts(x, l, r, i, k, sym, list, got);
    FollowCases(x, l, r, i, k, sym, list, got);
    CharAt(x, l, r, i, s);
    RemainingMove(x, r, Used(x), i, k);
    FrontPart(list, Used(x), sym - 1);
    assert list[..Used(x)][sym - 1] == list[sym - 1];
    assert l[..i + 1] == l[..i] + [l[i]];
    FollowIntro(x, l, r, i + 1, k + 1, x.symbols[k], Front(list, sym - 1), got + [l[i]]);
  }

  lemma FrontPart(list: seq<int>, n: nat, k: nat)
    requires k < n <= |list|
    ensures Front(list, k)[..n] == Front(list[..n], k)
  {
  }

  /** All positions of a run hold the character at the front of the list. */
  lemma RunChars(x: Coded, l: seq<int>, r: seq<int>, i: nat, list: seq<int>, s: seq<int>, j: nat)
    requires Expected(x, l, r) && |r| == |l| && Within(r, Used(x)) && i < |l| && Mapped(x.inUse, s, 256)
    requires 0 < Used(x) <= |list| == 256 && list[..Used(x)] == List(r, Used(x), i) && i <= j < i + Zeros(r, i)
    ensures 0 <= list[0] < 256 == |s| && j < |l| && l[j] == s[list[0]]
  {
    hide Expected, Used, UsedBelow, Mapped, List, Zeros;
    ExpectedParts(x, l, r);
    ZerosInside(r, i, j - i);
    ZerosRepeat(r, Used(x), i, j - i);
    CharAt(x, l, r, j, s);
    assert list[..Used(x)][0] == list[0];
  }

  lemma ZerosInside(r: seq<int>, i: nat, k: nat)
    requires i <= |r| && k < Zeros(r, i)
    ensures i + k < |r| && r[i + k] == 0
  {
  }

  /** A run repeats the character at the front of the list. */
  lemma FollowRun(x: Coded, l: seq<int>, r: seq<int>, i: nat, k: nat, sym: int, list: seq<int>, got: seq<int>,
                  s: seq<int>, k2: nat, sym2: int)
    requires Following(x, l, r, i, k, sym, list, got) && Mapped(x.inUse, s, 256) && |x.inUse| == 256 && i <= |r|
    requires Zeros(r, i) > 0 && InRun(x, AfterRun(r, Used(x), i + Zeros(r, i)), 0, k2, sym2)
    ensures 0 <= list[0] < 256 == |s|
    ensures Following(x, l, r, i + Zeros(r, i), k2, sym2, list, got + Rle.Times(s[list[0]], Zeros(r, i)))
  {
    hide Following, Expected, Used, UsedBelow, Remaining, InRun, AfterRun, Mapped, List, Zeros, Rle.Times;
    FollowParts(x, l, r, i, k, sym, list, got);
    var z, n := Zeros(r, i), Used(x);
    RunEnds(x, r, n, i + z, k2, sym2);
    ZerosRepeat(r, n, i, z);
    RemainingSize(x, r, n, i + z, k2);
    RunChars(x, l, r, i, list, s, i);
    forall j | i <= j < i + z ensures l[j] == s[list[0]] {
      RunChars(x, l, r, i, list, s, j);
    }
    RepeatIs(l, i, z, s[list[0]]);
    FollowIntro(x, l, r, i + z, k2, sym2, list, got + Rle.Times(s[list[0]], z));
  }

  lemma RemainingSize(x: Coded, r: seq<int>, n: nat, i: nat, k: nat)
    requires Remaining(x, r, n, i, k)
    ensures i <= |r| && 1 <= k <= |x.symbols|
  {
  }

  lemma RepeatIs(l: seq<int>, i: nat, z: nat, c: int)
    requires i + z <= |l| && forall j :: i <= j < i + z ==> l[j] == c
    ensures l[..i + z] == l[..i] + Rle.Times(c, z)
  {
  }

  /** The digits of the run at position i: zd of its length is still to come, with symbol k - 1 first. */
  ghost predicate InDigits(x: Coded, r: seq<int>, i: nat, n: nat, zd: nat, k: nat, sym: int, es: int, N: nat) {
    && i <= |r| && Zeros(r, i) > 0 && InRun(x, AfterRun(r, n, i + Zeros(r, i)), zd, k, sym)
    && Weighed(Zeros(r, i), es, N, zd)
  }

  lemma DigitStart(x: Coded, l: seq<int>, r: seq<int>, i: nat, k: nat, sym: int, list: seq<int>, got: seq<int>)
    requires Following(x, l, r, i, k, sym, list, got) && (sym == RUNA || sym == RUNB)
    ensures |x.inUse| == 256 && i <= |r| && 1 <= k <= |x.symbols| && x.symbols[k - 1] == sym
    ensures InDigits(x, r, i, Used(x), Zeros(r, i), k, sym, -1, 1)
  {
    hide Following, Expected, Used, UsedBelow, InRun, AfterRun, List, Weighed, Zeros;
    FollowParts(x, l, r, i, k, sym, list, got);
    FollowCases(x, l, r, i, k, sym, list, got);
    WeighStart(Zeros(r, i));
  }

  lemma DigitStep(x: Coded, r: seq<int>, i: nat, n: nat, zd: nat, k: nat, sym: int, es: int, N: nat)
    requires InDigits(x, r, i, n, zd, k, sym, es, N) && es >= -1 && (sym == RUNA || sym == RUNB)
    ensures i <= |r| && N <= Zeros(r, i) <= |r| && zd > 0 && k < |x.symbols|
    ensures InDigits(x, r, i, n, (zd - 1) / 2, k + 1, x.symbols[k], if sym == RUNA then es + N else es + 2 * N, N * 2)
  {
    hide InRun, AfterRun, Weighed, Zeros;
    RunNext(x, AfterRun(r, n, i + Zeros(r, i)), zd, k, sym);
    WeighStep(Zeros(r, i), es, N, zd, sym);
  }

  lemma DigitEnd(x: Coded, l: seq<int>, r: seq<int>, i: nat, k0: nat, sym0: int, list: seq<int>, got: seq<int>,
                 s: seq<int>, zd: nat, k: nat, sym: int, es: int, N: nat)
    requires Following(x, l, r, i, k0, sym0, list, got) && |x.inUse| == 256 && Mapped(x.inUse, s, 256) && es >= -1
    requires InDigits(x, r, i, Used(x), zd, k, sym, es, N) && sym != RUNA && sym != RUNB
    ensures 0 <= list[0] < 256 == |s| && i + (es + 1) <= |l|
    ensures Following(x, l, r, i + (es + 1), k, sym, list, got + Rle.Times(s[list[0]], es + 1))
  {
    hide Following, Expected, Used, UsedBelow, InRun, AfterRun, List, Weighed, Zeros, Mapped, Rle.Times;
    RunNext(x, AfterRun(r, Used(x), i + Zeros(r, i)), zd, k, sym);
    WeighEnd(Zeros(r, i), es, N);
    FollowParts(x, l, r, i, k0, sym0, list, got);
    FollowRun(x, l, r, i, k0, sym0, list, got, s, k, sym);
    FollowParts(x, l, r, i + (es + 1), k, sym, list, got + Rle.Times(s[list[0]], es + 1));
  }

  lemma IdentityWithin()
    ensures Within(Identity(256), 256)
  {
  }

  lemma FrontWithin(s: seq<int>, k: nat)
    requires Within(s, 256) && k < |s|
    ensures Within(Front(s, k), 256)
  {
  }

  lemma ByteAt(s: seq<int>, k: int)
    requires Within(s, 256) && 0 <= k < |s|
    ensures 0 <= s[k] < 256
  {
  }

  /** Symbol c, which is sym, is next, and the state is that of reading the column l. A run in hand
      began with symbol k0 - 1, and zd of its length is still to come. */
  ghost predicate Stands(x: Coded, l: seq<int>, r: seq<int>, c: nat, sym: int, run: RunPart, list: seq<int>,
                         got: seq<int>, k0: nat, zd: nat)
  {
    if run.Outside? then Following(x, l, r, |got|, c + 1, sym, list, got)
    else
      && 1 <= k0 <= |x.symbols| && Following(x, l, r, |got|, k0, x.symbols[k0 - 1], list, got)
      && |x.inUse| == 256 && InDigits(x, r, |got|, Used(x), zd, c + 1, sym, run.es, run.N)
  }

  /** The plan is that of x. */
  ghost predicate PlanFor(h: Plan, x: Coded, l: seq<int>, r: seq<int>) {
    && PlanOk(h) && Sound(x) && h.lens == x.lens && SameStart(h.selector, x.selectors)
    && |x.inUse| == 256 && h.nInUse == Used(x) && Mapped(x.inUse, h.chars, 256)
    && |l| <= MAX_BLOCK && h.most <= MAX_BLOCK && Expected(x, l, r)
  }

  /** The column fits into the block, and there are selectors for all symbols. */
  ghost predicate Fits(h: Plan, x: Coded, l: seq<int>) {
    |l| <= h.most && |x.symbols| <= G_SIZE * |h.selector|
  }

  /** What the symbols of the column mean. */
  ghost function Outcome(h: Plan, x: Coded, l: seq<int>, rest: seq<bool>): Parsed<seq<int>> {
    if Fits(h, x, l) then Got(l, rest) else Wrong
  }

  lemma PlanParts(h: Plan, x: Coded, l: seq<int>, r: seq<int>)
    requires PlanFor(h, x, l, r)
    ensures PlanOk(h) && Sound(x) && h.lens == x.lens && SameStart(h.selector, x.selectors) && |x.inUse| == 256
    ensures h.nInUse == Used(x) && |l| <= MAX_BLOCK && h.most <= MAX_BLOCK
    ensures Mapped(x.inUse, h.chars, 256) && Expected(x, l, r) && |r| == |l|
    ensures |h.chars| == 256 && Within(h.chars, 256) && 0 < h.nInUse <= 256
  {
    hide Expected, Sound, Mapped, Used;
    ExpectedParts(x, l, r);
  }

  /** A digit of a run. */
  lemma DigitRead(h: Plan, x: Coded, l: seq<int>, r: seq<int>, c: nat, sym: int, run: RunPart, list: seq<int>,
                  got: seq<int>, k0: nat, zd: nat) returns (k1: nat, zd1: nat)
    requires PlanFor(h, x, l, r) && RunOk(run) && Stands(x, l, r, c, sym, run, list, got, k0, zd)
    requires (sym == RUNA || sym == RUNB)
    ensures Started(run).N < 2 * 1024 * 1024 && c + 1 < |x.symbols| && RunOk(Digit(Started(run), sym))
    ensures Stands(x, l, r, c + 1, x.symbols[c + 1], Digit(Started(run), sym), list, got, k1, zd1)
  {
    hide Following, InDigits, Expected, Mapped, Sound, Used;
    PlanParts(h, x, l, r);
    k1, zd1 := k0, zd;
    if run.Outside? {
      DigitStart(x, l, r, |got|, c + 1, sym, list, got);
      k1, zd1 := c + 1, Zeros(r, |got|);
    }
    DigitStep(x, r, |got|, h.nInUse, zd1, c + 1, sym, Started(run).es, Started(run).N);
    zd1 := (zd1 - 1) / 2;
  }

  lemma {:induction false} ColumnStep(h: Plan, x: Coded, l: seq<int>, r: seq<int>, c: nat, run: RunPart,
                                      list: seq<int>, got: seq<int>, k0: nat, zd: nat, rest: seq<bool>)
    requires PlanFor(h, x, l, r) && RunOk(run) && Bytes256(list) && Within(got, 256) && |got| <= h.most
    requires c < |x.symbols|
    requires Stands(x, l, r, c, x.symbols[c], run, list, got, k0, zd)
    ensures ColumnFrom(h, c, run, list, got, DataBits(x, c) + rest) == Outcome(h, x, l, rest)
    decreases |x.symbols| - c, 1
  {
    hide Following, InDigits, Expected, Mapped, Sound, Used, Within, DataBits, Rle.Times, SymbolFrom, PlanFor, Front,
      ColumnFrom, MoveFrom;
    PlanParts(h, x, l, r);
    var sym := x.symbols[c];
    SymbolParsed(h, x, c, rest);
    ColumnUnfolds(h, c, run, list, got, DataBits(x, c) + rest);
    if c >= G_SIZE * |h.selector| {
    } else if sym == RUNA || sym == RUNB {
      hide Stands;
      var k1, zd1 := DigitRead(h, x, l, r, c, sym, run, list, got, k0, zd);
      ColumnStep(h, x, l, r, c + 1, Digit(Started(run), sym), list, got, k1, zd1, rest);
    } else if run.Outside? {
      MoveStep(h, x, l, r, c, sym, list, got, rest);
    } else {
      DigitEnd(x, l, r, |got|, k0, x.symbols[k0 - 1], list, got, h.chars, zd, c + 1, sym, run.es, run.N);
      if |got| + run.es + 1 <= h.most {
        ByteAt(h.chars, list[0]);
        RepeatWithin(got, h.chars[list[0]], run.es + 1);
        MoveStep(h, x, l, r, c, sym, list, got + Rle.Times(h.chars[list[0]], run.es + 1), rest);
      }
    }
  }

  lemma RepeatWithin(got: seq<int>, ch: int, n: nat)
    requires Within(got, 256) && 0 <= ch < 256
    ensures Within(got + Rle.Times(ch, n), 256) && |got + Rle.Times(ch, n)| == |got| + n
  {
  }

  lemma {:induction false} MoveStep(h: Plan, x: Coded, l: seq<int>, r: seq<int>, c: nat, sym: int, list: seq<int>,
                                    got: seq<int>, rest: seq<bool>)
    requires PlanFor(h, x, l, r) && Bytes256(list) && Within(got, 256) && |got| <= h.most && c < |x.symbols|
    requires RUNB < sym < h.nInUse + 2 && c < G_SIZE * |h.selector|
    requires Following(x, l, r, |got|, c + 1, sym, list, got)
    ensures MoveFrom(h, c, sym, list, got, DataBits(x, c + 1) + rest) == Outcome(h, x, l, rest)
    decreases |x.symbols| - c, 0
  {
    hide Following, InDigits, Expected, Mapped, Sound, Used, Within, DataBits, PlanFor, Front, ColumnFrom;
    PlanParts(h, x, l, r);
    FollowCases(x, l, r, |got|, c + 1, sym, list, got);
    if sym == h.nInUse + 1 {
      NothingMore(x, c + 1, rest);
    } else if |got| < h.most {
      FollowMove(x, l, r, |got|, c + 1, sym, list, got, h.chars);
      FrontWithin(list, sym - 1);
      var ch := h.chars[list[sym - 1]];
      ByteAt(h.chars, list[sym - 1]);
      OneWithin(got, ch);
      ColumnStep(h, x, l, r, c + 1, Outside, Front(list, sym - 1), got + [ch], 0, 0, rest);
    }
  }

  lemma NothingMore(x: Coded, k: nat, rest: seq<bool>)
    requires Sound(x) && k == |x.symbols|
    ensures DataBits(x, k) + rest == rest
  {
    hide Sound;
    assert [] + rest == rest;
  }

  lemma OneWithin(got: seq<int>, ch: int)
    requires Within(got, 256) && 0 <= ch < 256
    ensures Within(got + [ch], 256) && |got + [ch]| == |got| + 1
  {
  }

  /** The column a compressor codes is the column that is read, exactly if it fits into the block and there are
      selectors for all of its symbols; and the bits are wrong otherwise. */
  lemma ColumnParsed(h: Plan, x: Coded, l: seq<int>, r: seq<int>, rest: seq<bool>)
    requires PlanFor(h, x, l, r)
    ensures Bytes256(Identity(256))
    ensures ColumnFrom(h, 0, Outside, Identity(256), [], DataBits(x, 0) + rest) ==
            if |l| <= h.most && |x.symbols| <= G_SIZE * |h.selector| then Got(l, rest) else Wrong
  {
    hide Following, Expected, Mapped, Sound, Used, DataBits, PlanFor, ColumnFrom, Identity;
    PlanParts(h, x, l, r);
    IdentityWithin();
    FollowStart(x, l, r, Identity(256));
    ColumnStep(h, x, l, r, 0, Outside, Identity(256), [], 0, 0, rest);
  }

  /* ---- Runs that are too long ---- */

  /** Symbols syms are next, and behind them rest. */
  ghost predicate Spells(h: Plan, c: nat, syms: seq<int>, bits: seq<bool>, rest: seq<bool>)
    requires PlanOk(h)
    decreases |syms|
  {
    if syms == [] then bits == rest
    else
      var p := SymbolFrom(h, c, bits);
      p.Got? && p.value == syms[0] && Spells(h, c + 1, syms[1..], p.rest, rest)
  }

  lemma DigitsAdd(es: int, k: nat, d: nat, v: nat)
    ensures es + d * Pow2(k) + Pow2(k + 1) * v == es + Pow2(k) * (d + 2 * v)
  {
    var N := Pow2(k);
    assert Pow2(k + 1) == 2 * N;
    assert N * (d + 2 * v) == d * N + (2 * N) * v;
  }

  lemma {:induction false} DigitsFrom(h: Plan, c: nat, es: int, k: nat, list: seq<int>, got: seq<int>, syms: seq<int>,
                                      bits: seq<bool>, rest: seq<bool>)
    requires PlanOk(h) && Bytes256(list) && Within(got, 256) && |got| <= h.most && es >= -1 && k <= 21
    requires (forall i :: 0 <= i < |syms| ==> syms[i] == RUNA || syms[i] == RUNB) && Spells(h, c, syms, bits, rest)
    ensures RunOk(Digits(es, Pow2(k))) && RunOk(Digits(es + Pow2(k) * RunValue(syms), Pow2(k + |syms|)))
    ensures ColumnFrom(h, c, Digits(es, Pow2(k)), list, got, bits) ==
            if k + |syms| > 21 then Wrong
            else ColumnFrom(h, c + |syms|, Digits(es + Pow2(k) * RunValue(syms), Pow2(k + |syms|)), list, got, rest)
    decreases |syms|
  {
    hide ColumnFrom, SymbolFrom, ColumnGoesOn, PlanOk, Bytes256, Pow2;
    TwentyOne(k);
    if syms != [] {
      var d, r := syms[0], SymbolFrom(h, c, bits).rest;
      ColumnUnfolds(h, c, Digits(es, Pow2(k)), list, got, bits);
      DigitTaken(h, c, Digits(es, Pow2(k)), list, got, d, r);
      if k < 21 {
        DigitsFrom(h, c + 1, es + (d + 1) * Pow2(k), k + 1, list, got, syms[1..], r, rest);
        DigitsAdd(es, k, d + 1, RunValue(syms[1..]));
      }
    } else {
      assert Pow2(k) * 0 == 0;
    }
  }

  lemma TwentyOne(k: nat)
    requires k <= 21
    ensures Pow2(21) == 2 * 1024 * 1024 && (k < 21 ==> Pow2(k) < Pow2(21) && Pow2(k + 1) == 2 * Pow2(k))
  {
    assert Pow2(7) == 128;
    assert Pow2(14) == 128 * 128;
  }

  /** A run of up to twenty-one digits is a number; with one more the bits are wrong, whatever follows. */
  lemma RunDigits(h: Plan, c: nat, list: seq<int>, got: seq<int>, syms: seq<int>, bits: seq<bool>, rest: seq<bool>)
    requires PlanOk(h) && Bytes256(list) && Within(got, 256) && |got| <= h.most && |syms| > 0
    requires (forall i :: 0 <= i < |syms| ==> syms[i] == RUNA || syms[i] == RUNB) && Spells(h, c, syms, bits, rest)
    ensures RunOk(Digits(RunValue(syms) - 1, Pow2(|syms|)))
    ensures ColumnFrom(h, c, Outside, list, got, bits) ==
            if |syms| > 21 then Wrong
            else ColumnFrom(h, c + |syms|, Digits(RunValue(syms) - 1, Pow2(|syms|)), list, got, rest)
  {
    hide ColumnFrom, SymbolFrom, ColumnGoesOn, PlanOk, Bytes256;
    assert Pow2(0) == 1;
    DigitsFrom(h, c, -1, 0, list, got, syms, bits, rest);
    ColumnUnfolds(h, c, Outside, list, got, bits);
    ColumnUnfolds(h, c, Digits(-1, 1), list, got, bits);
    DigitTaken(h, c, Outside, list, got, syms[0], SymbolFrom(h, c, bits).rest);
    DigitTaken(h, c, Digits(-1, 1), list, got, syms[0], SymbolFrom(h, c, bits).rest);
  }
}
