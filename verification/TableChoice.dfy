/** How the compressor chooses its Huffman tables: groups of fifty symbols each take the cheapest
    table, and the tables are then made anew from what was coded with them. */
module TableChoice {
  import opened BlockFormat
  import opened Counting
  import opened HuffmanCodes
  import opened HuffmanLengths
  import opened HuffmanTree
  import opened MtfEncoder

  const LESSER_ICOST := 0
  const GREATER_ICOST := 15
  const N_ITERS := 4
  const MAX_SYMBOLS := 900001

  /** Rows of lengths or counts, one for each table, over the alphabet. */
  ghost predicate Rows(rows: seq<seq<int>>, nGroups: nat, alphaSize: nat, top: int) {
    && |rows| == nGroups
    && forall t :: 0 <= t < nGroups ==> RowOk(rows[t], alphaSize, top)
  }

  ghost predicate RowOk(row: seq<int>, alphaSize: nat, top: int) {
    |row| == alphaSize && forall v :: 0 <= v < alphaSize ==> 0 <= row[v] <= top
  }

  /* ---- Costs ---- */

  /** Bits that symbols s[gs..ge] take with lengths L. */
  function Cost(L: seq<int>, s: seq<int>, gs: nat, ge: nat): int
    requires gs <= ge <= |s| && forall i :: 0 <= i < |s| ==> 0 <= s[i] < |L|
    decreases ge
  {
    if ge == gs then 0 else Cost(L, s, gs, ge - 1) + L[s[ge - 1]]
  }

  lemma {:induction false} CostBound(L: seq<int>, s: seq<int>, gs: nat, ge: nat, a: nat, top: nat)
    requires gs <= ge <= |s| && RowOk(L, a, top) && Within(s, a)
    ensures 0 <= Cost(L, s, gs, ge) <= top * (ge - gs)
    decreases ge
  {
    if gs < ge { CostBound(L, s, gs, ge - 1, a, top); }
  }

  /** Packing two lengths in one word: (hi << 16) | lo. */
  function Pack(hi: int, lo: int): int {
    65536 * hi + lo
  }

  /** The cost of a full group with six tables: packed lengths are added up two tables at a time and
      taken apart again, without carrying over. */
  method FastCosts(lens: seq<seq<int>>, mtfv: seq<int>, gs: nat, alphaSize: nat) returns (cost: seq<int>)
    requires Rows(lens, 6, alphaSize, MAX_LEN) && gs + G_SIZE <= |mtfv| && Within(mtfv, alphaSize)
    ensures |cost| == 6
    ensures forall t :: 0 <= t < 6 ==> |lens[t]| == alphaSize && cost[t] == Cost(lens[t], mtfv, gs, gs + G_SIZE)
  {
    hide Cost;
    ghost var s := mtfv;
    SixRows(lens, alphaSize);
    var cost01, cost23, cost45 := 0, 0, 0;
    CostStart(lens, s, gs, alphaSize);
    for i := 0 to G_SIZE
      invariant cost01 == Pack(Cost(lens[1], s, gs, gs + i), Cost(lens[0], s, gs, gs + i))
      invariant cost23 == Pack(Cost(lens[3], s, gs, gs + i), Cost(lens[2], s, gs, gs + i))
      invariant cost45 == Pack(Cost(lens[5], s, gs, gs + i), Cost(lens[4], s, gs, gs + i))
    {
      var icv := mtfv[gs + i];
      CostNext(lens, s, gs, gs + i, alphaSize);
      cost01 := cost01 + Pack(lens[1][icv], lens[0][icv]);
      cost23 := cost23 + Pack(lens[3][icv], lens[2][icv]);
      cost45 := cost45 + Pack(lens[5][icv], lens[4][icv]);
    }
    CostFits(lens, s, gs, gs + G_SIZE, alphaSize);
    cost := [cost01 % 65536, cost01 / 65536, cost23 % 65536, cost23 / 65536, cost45 % 65536, cost45 / 65536];
  }

  lemma SixRows(lens: seq<seq<int>>, a: nat)
    requires Rows(lens, 6, a, MAX_LEN)
    ensures |lens| == 6 && forall t :: 0 <= t < 6 ==> |lens[t]| == a
  {
  }

  lemma CostStart(lens: seq<seq<int>>, s: seq<int>, gs: nat, a: nat)
    requires gs <= |s| && Within(s, a) && forall t :: 0 <= t < |lens| ==> |lens[t]| == a
    ensures forall t :: 0 <= t < |lens| ==> Cost(lens[t], s, gs, gs) == 0
  {
  }

  lemma CostNext(lens: seq<seq<int>>, s: seq<int>, gs: nat, ge: nat, a: nat)
    requires gs <= ge < |s| && Within(s, a) && forall t :: 0 <= t < |lens| ==> |lens[t]| == a
    ensures forall t :: 0 <= t < |lens| ==> Cost(lens[t], s, gs, ge + 1) == Cost(lens[t], s, gs, ge) + lens[t][s[ge]]
  {
  }

  lemma CostFits(lens: seq<seq<int>>, s: seq<int>, gs: nat, ge: nat, a: nat)
    requires gs <= ge <= |s| && ge <= gs + G_SIZE && Within(s, a) && Rows(lens, 6, a, MAX_LEN)
    ensures forall t :: 0 <= t < 6 ==> |lens[t]| == a && 0 <= Cost(lens[t], s, gs, ge) <= 1000
  {
    forall t | 0 <= t < 6 ensures |lens[t]| == a && 0 <= Cost(lens[t], s, gs, ge) <= 1000 {
      CostBound(lens[t], s, gs, ge, a, MAX_LEN);
    }
  }

  /** The cost of any group, table by table. */
  method SlowCosts(lens: seq<seq<int>>, mtfv: seq<int>, gs: nat, ge: nat, nGroups: nat, alphaSize: nat)
    returns (cost: seq<int>)
    requires Rows(lens, nGroups, alphaSize, MAX_LEN) && gs <= ge <= |mtfv| && Within(mtfv, alphaSize)
    ensures |cost| == nGroups
    ensures forall t :: 0 <= t < nGroups ==> |lens[t]| == alphaSize && cost[t] == Cost(lens[t], mtfv, gs, ge)
  {
    hide Cost;
    ghost var s := mtfv;
    cost := seq(nGroups, _ => 0);
    CostStart(lens, s, gs, alphaSize);
    for i := gs to ge
      invariant |cost| == nGroups
      invariant forall t :: 0 <= t < nGroups ==> |lens[t]| == alphaSize && cost[t] == Cost(lens[t], s, gs, i)
    {
      var icv := mtfv[i];
      ghost var before := cost;
      CostNext(lens, s, gs, i, alphaSize);
      for t := 0 to nGroups
        invariant |cost| == nGroups
        invariant forall u :: 0 <= u < t ==> |lens[u]| == alphaSize && cost[u] == Cost(lens[u], s, gs, i + 1)
        invariant forall u :: t <= u < nGroups ==> cost[u] == before[u]
      {
        cost := cost[t := cost[t] + lens[t][icv]];
      }
    }
  }

  /** The costs of a group, by whichever way applies: both give the same. */
  method GroupCosts(lens: seq<seq<int>>, mtfv: seq<int>, gs: nat, ge: nat, nGroups: nat, alphaSize: nat)
    returns (cost: seq<int>)
    requires Rows(lens, nGroups, alphaSize, MAX_LEN) && gs < ge <= gs + G_SIZE && ge <= |mtfv|
    requires Within(mtfv, alphaSize)
    ensures |cost| == nGroups
    ensures forall t :: 0 <= t < nGroups ==> |lens[t]| == alphaSize && cost[t] == Cost(lens[t], mtfv, gs, ge)
  {
    if nGroups == 6 && ge - gs == G_SIZE {
      cost := FastCosts(lens, mtfv, gs, alphaSize);
    } else {
      cost := SlowCosts(lens, mtfv, gs, ge, nGroups, alphaSize);
    }
  }

  /** The first table of least cost. */
  method Cheapest(cost: seq<int>) returns (bt: int)
    requires |cost| > 0 && forall t :: 0 <= t < |cost| ==> cost[t] < 999999999
    ensures 0 <= bt < |cost|
    ensures forall t :: 0 <= t < |cost| ==> cost[bt] <= cost[t] && (t < bt ==> cost[bt] < cost[t])
  {
    var bc := 999999999;
    bt := -1;
    for t := 0 to |cost|
      invariant if t == 0 then bt == -1 && bc == 999999999 else 0 <= bt < t && bc == cost[bt]
      invariant forall u :: 0 <= u < t ==> bc <= cost[u] && (u < bt ==> bc < cost[u])
    {
      if cost[t] < bc {
        bc := cost[t];
        bt := t;
      }
    }
  }

  /* ---- The initial tables ---- */

  /** How often the symbols from gs up to end occur. */
  ghost function Stretch(s: seq<int>, n: nat, gs: int, end: int): int
    requires n <= |s|
  {
    CountLess(s, n, end) - CountLess(s, n, gs)
  }

  /** The shortest stretch of symbols from gs that occur often enough, or all the rest. */
  ghost predicate Shortest(s: seq<int>, n: nat, a: nat, gs: int, share: int, end: int)
    requires n <= |s|
  {
    && gs <= end <= a && (Stretch(s, n, gs, end) >= share || end == a)
    && forall e :: gs <= e < end ==> Stretch(s, n, gs, e) < share
  }

  /** The last symbol of an initial group that starts at gs: enough symbols to reach tFreq. */
  method GroupEnd(mtfFreq: array<int>, gs: int, tFreq: int, alphaSize: nat, ghost s: seq<int>, ghost nMTF: nat)
    returns (ge: int, aFreq: int)
    requires 0 <= gs <= alphaSize <= mtfFreq.Length && nMTF <= |s|
    requires forall v :: 0 <= v < alphaSize ==> mtfFreq[v] == CountEq(s, nMTF, v)
    ensures Shortest(s, nMTF, alphaSize, gs, tFreq, ge + 1) && aFreq == Stretch(s, nMTF, gs, ge + 1)
  {
    ge := gs - 1;
    aFreq := 0;
    while aFreq < tFreq && ge < alphaSize - 1
      invariant gs - 1 <= ge < alphaSize && aFreq == Stretch(s, nMTF, gs, ge + 1)
      invariant forall e :: gs <= e < ge + 1 ==> Stretch(s, nMTF, gs, e) < tFreq
      decreases alphaSize - ge
    {
      CountSplit(s, nMTF, ge + 1);
      ge := ge + 1;
      aFreq := aFreq + mtfFreq[ge];
    }
  }

  /** Part p of the alphabet is the shortest stretch that has its share of the symbols not yet given out;
      every second inner part leaves its last symbol to the next. */
  ghost predicate Part(s: seq<int>, n: nat, a: nat, nGroups: nat, p: nat, gs: int, next: int)
    requires n <= |s| && p < nGroups
  {
    exists end :: PartVia(s, n, a, nGroups, p, gs, next, end)
  }

  ghost predicate PartVia(s: seq<int>, n: nat, a: nat, nGroups: nat, p: nat, gs: int, next: int, end: int)
    requires n <= |s| && p < nGroups
  {
    && Shortest(s, n, a, gs, (n - CountLess(s, n, gs)) / (nGroups - p), end)
    && next == if end > gs + 1 && 0 < p < nGroups - 1 && p % 2 == 1 then end - 1 else end
  }

  function GuessRow(a: nat, gs: int, next: int): (row: seq<int>)
    ensures |row| == a && forall v :: 0 <= v < a ==> row[v] == if gs <= v < next then 0 else 15
  {
    seq(a, v => if gs <= v < next then LESSER_ICOST else GREATER_ICOST)
  }

  /** The first p parts, which begin at cuts, are cheap in one table each, the last table first. */
  ghost predicate Parts(lens: seq<seq<int>>, s: seq<int>, n: nat, a: nat, nGroups: nat, cuts: seq<int>, p: nat) {
    && n <= |s| && p <= nGroups == |lens| && |cuts| == p + 1 && cuts[0] == 0
    && forall q :: 0 <= q < p ==> PartAt(lens, s, n, a, nGroups, cuts, q)
  }

  ghost predicate PartAt(lens: seq<seq<int>>, s: seq<int>, n: nat, a: nat, nGroups: nat, cuts: seq<int>, q: nat)
    requires n <= |s| && q < nGroups == |lens| && q + 1 < |cuts|
  {
    && 0 <= cuts[q] <= cuts[q + 1] <= a && Part(s, n, a, nGroups, q, cuts[q], cuts[q + 1])
    && lens[nGroups - 1 - q] == GuessRow(a, cuts[q], cuts[q + 1])
  }

  ghost predicate FirstGuess(lens: seq<seq<int>>, s: seq<int>, n: nat, a: nat, nGroups: nat) {
    exists cuts: seq<int> :: Parts(lens, s, n, a, nGroups, cuts, nGroups)
  }

  lemma PartStep(lens: seq<seq<int>>, s: seq<int>, n: nat, a: nat, nGroups: nat, cuts: seq<int>, p: nat, next: int)
    requires Parts(lens, s, n, a, nGroups, cuts, p) && p < nGroups && 0 <= cuts[p] <= next <= a
    requires Part(s, n, a, nGroups, p, cuts[p], next)
    ensures Parts(lens[nGroups - 1 - p := GuessRow(a, cuts[p], next)], s, n, a, nGroups, cuts + [next], p + 1)
  {
    hide Part;
    var lens2, c2 := lens[nGroups - 1 - p := GuessRow(a, cuts[p], next)], cuts + [next];
    forall q | 0 <= q < p + 1 ensures PartAt(lens2, s, n, a, nGroups, c2, q) {
      if q < p { assert PartAt(lens, s, n, a, nGroups, cuts, q); }
    }
  }

  /** A first guess: the alphabet cut into stretches of about equal use, each cheap in one table. */
  method InitialTables(mtfFreq: array<int>, nMTF: nat, nGroups: nat, alphaSize: nat, ghost s: seq<int>)
    returns (lens: seq<seq<int>>)
    requires 2 <= nGroups <= N_GROUPS && alphaSize <= mtfFreq.Length && nMTF <= |s| && Within(s[..nMTF], alphaSize)
    requires forall v :: 0 <= v < alphaSize ==> mtfFreq[v] == CountEq(s, nMTF, v)
    ensures Rows(lens, nGroups, alphaSize, MAX_LEN) && FirstGuess(lens, s, nMTF, alphaSize, nGroups)
  {
    hide CountEq, CountLess, RowOk, Parts, Part, GuessRow;
    lens := seq(nGroups, _ => GuessRow(alphaSize, 0, 0));
    GuessOk(alphaSize, 0, 0);
    var nPart := nGroups;
    var remF := nMTF;
    var gs := 0;
    ghost var cuts := [0];
    NothingLess(s, nMTF, alphaSize);
    NoParts(lens, s, nMTF, alphaSize, nGroups);
    while nPart > 0
      invariant 0 <= nPart <= nGroups && 0 <= gs <= alphaSize && remF == nMTF - CountLess(s, nMTF, gs)
      invariant |lens| == nGroups && forall t :: 0 <= t < nGroups ==> RowOk(lens[t], alphaSize, MAX_LEN)
      invariant |cuts| == nGroups - nPart + 1 && cuts[nGroups - nPart] == gs
      invariant Parts(lens, s, nMTF, alphaSize, nGroups, cuts, nGroups - nPart)
    {
      var tFreq := remF / nPart;
      var ge, aFreq := GroupEnd(mtfFreq, gs, tFreq, alphaSize, s, nMTF);
      ghost var end := ge + 1;
      if ge > gs && nPart != nGroups && nPart != 1 && (nGroups - nPart) % 2 == 1 {
        CountSplit(s, nMTF, ge);
        aFreq := aFreq - mtfFreq[ge];
        ge := ge - 1;
      }
      PartIntro(s, nMTF, alphaSize, nGroups, nGroups - nPart, gs, end, ge + 1);
      PartStep(lens, s, nMTF, alphaSize, nGroups, cuts, nGroups - nPart, ge + 1);
      GuessOk(alphaSize, gs, ge + 1);
      lens := lens[nPart - 1 := GuessRow(alphaSize, gs, ge + 1)];
      cuts := cuts + [ge + 1];
      nPart := nPart - 1;
      gs := ge + 1;
      remF := remF - aFreq;
    }
  }

  lemma NoParts(lens: seq<seq<int>>, s: seq<int>, n: nat, a: nat, nGroups: nat)
    requires n <= |s| && |lens| == nGroups
    ensures Parts(lens, s, n, a, nGroups, [0], 0)
  {
  }

  lemma PartIntro(s: seq<int>, n: nat, a: nat, nGroups: nat, p: nat, gs: int, end: int, next: int)
    requires n <= |s| && p < nGroups && Shortest(s, n, a, gs, (n - CountLess(s, n, gs)) / (nGroups - p), end)
    requires next == if end > gs + 1 && 0 < p < nGroups - 1 && p % 2 == 1 then end - 1 else end
    ensures Part(s, n, a, nGroups, p, gs, next)
  {
    assert PartVia(s, n, a, nGroups, p, gs, next, end);
  }

  lemma GuessOk(a: nat, gs: int, next: int)
    ensures RowOk(GuessRow(a, gs, next), a, MAX_LEN)
  {
  }

  lemma NothingLess(s: seq<int>, n: nat, a: nat)
    requires n <= |s| && Within(s[..n], a)
    ensures CountLess(s, n, 0) == 0
  {
    LessSame(s, s[..n], n, 0);
    CountAll(s[..n], a, n, 0);
  }

  lemma {:induction false} LessSame(s: seq<int>, t: seq<int>, i: nat, c: int)
    requires i <= |s| && i <= |t| && forall k :: 0 <= k < i ==> s[k] == t[k]
    ensures CountLess(s, i, c) == CountLess(t, i, c)
  {
    if i > 0 { LessSame(s, t, i - 1, c); }
  }

  /* ---- One pass over the groups ---- */

  /** How often symbol v is coded with table t among the first n symbols. */
  ghost function CodedWith(s: seq<int>, selector: seq<int>, t: int, v: int, n: nat): (r: nat)
    requires n <= |s| && n <= G_SIZE * |selector|
    ensures r <= n
  {
    if n == 0 then 0
    else CodedWith(s, selector, t, v, n - 1) + if s[n - 1] == v && selector[(n - 1) / G_SIZE] == t then 1 else 0
  }

  /** A row that counts what table t coded. */
  ghost predicate Counts(row: seq<int>, s: seq<int>, selector: seq<int>, t: int, n: nat, a: nat) {
    && n <= |s| && n <= G_SIZE * |selector| && |row| == a
    && forall v :: 0 <= v < a ==> row[v] == CodedWith(s, selector, t, v, n)
  }

  /** More groups, or other selectors behind these, do not matter. */
  lemma {:induction false} CodedSame(s: seq<int>, sel: seq<int>, sel2: seq<int>, t: int, v: int, n: nat)
    requires n <= |s| && n <= G_SIZE * |sel| && n <= G_SIZE * |sel2|
    requires forall k :: 0 <= k < |sel| && k < |sel2| && G_SIZE * k < n ==> sel[k] == sel2[k]
    ensures CodedWith(s, sel, t, v, n) == CodedWith(s, sel2, t, v, n)
  {
    if n > 0 { CodedSame(s, sel, sel2, t, v, n - 1); }
  }

  /** A group adds its symbols to its own table's counts. */
  lemma {:induction false} CodedGroup(s: seq<int>, sel: seq<int>, k: nat, t: int, v: int, n: nat)
    requires k < |sel| && G_SIZE * k <= n <= |s| && n <= G_SIZE * k + G_SIZE
    ensures CodedWith(s, sel, t, v, n) ==
            CodedWith(s, sel, t, v, G_SIZE * k) +
            if sel[k] == t then CountEq(s, n, v) - CountEq(s, G_SIZE * k, v) else 0
  {
    if n > G_SIZE * k { CodedGroup(s, sel, k, t, v, n - 1); }
  }

  lemma {:induction false} TotalBump(row: seq<int>, j: nat, v: nat)
    requires j <= |row| && v < |row| && row[v] >= 0
    ensures TotalFreq(row[v := row[v] + 1], j) <= TotalFreq(row, j) + (if v < j then 1 else 0)
  {
    if j > 0 { TotalBump(row, j - 1, v); }
  }

  lemma {:induction false} TotalZero(row: seq<int>, j: nat)
    requires j <= |row| && forall v :: 0 <= v < |row| ==> row[v] == 0
    ensures TotalFreq(row, j) == j
  {
    if j > 0 { TotalZero(row, j - 1); }
  }

  /** Counts that are not too many together. */
  ghost predicate Uses(row: seq<int>, alphaSize: nat, gs: nat) {
    && |row| == alphaSize && (forall v :: 0 <= v < alphaSize ==> row[v] >= 0)
    && TotalFreq(row, alphaSize) <= gs + alphaSize
  }

  /** The symbols of a group are counted for its table. */
  method CountGroup(row: seq<int>, mtfv: seq<int>, gs: nat, ge: nat, alphaSize: nat) returns (row': seq<int>)
    requires gs <= ge <= |mtfv| && Within(mtfv, alphaSize) && Uses(row, alphaSize, gs)
    ensures Uses(row', alphaSize, ge)
    ensures forall v :: 0 <= v < alphaSize ==> row'[v] == row[v] + (CountEq(mtfv, ge, v) - CountEq(mtfv, gs, v))
  {
    row' := row;
    for i := gs to ge
      invariant Uses(row', alphaSize, i)
      invariant forall v :: 0 <= v < alphaSize ==> row'[v] == row[v] + (CountEq(mtfv, i, v) - CountEq(mtfv, gs, v))
    {
      TotalBump(row', alphaSize, mtfv[i]);
      row' := row'[mtfv[i] := row'[mtfv[i]] + 1];
    }
  }

  /** The counts of all tables after the first n symbols. */
  ghost predicate AllCounts(rfreq: seq<seq<int>>, s: seq<int>, selector: seq<int>, n: nat, a: nat) {
    forall t :: 0 <= t < |rfreq| ==> Counts(rfreq[t], s, selector, t, n, a) && Uses(rfreq[t], a, n)
  }

  lemma NoCounts(nGroups: nat, s: seq<int>, selector: seq<int>, a: nat)
    ensures AllCounts(seq(nGroups, _ => seq(a, _ => 0)), s, selector, 0, a)
  {
    TotalZero(seq(a, _ => 0), a);
  }

  lemma CountsStep(rfreq: seq<seq<int>>, s: seq<int>, selector: seq<int>, k: nat, ge: nat, a: nat, bt: int,
                   row: seq<int>)
    requires AllCounts(rfreq, s, selector, G_SIZE * k, a) && k < |selector| && 0 <= bt < |rfreq|
    requires G_SIZE * k < ge <= |s| && ge <= G_SIZE * k + G_SIZE && |rfreq[bt]| == a
    requires Uses(row, a, ge)
    requires forall v :: 0 <= v < a ==> row[v] == rfreq[bt][v] + (CountEq(s, ge, v) - CountEq(s, G_SIZE * k, v))
    ensures AllCounts(rfreq[bt := row], s, selector[k := bt], ge, a)
  {
    var rfreq2, sel2 := rfreq[bt := row], selector[k := bt];
    forall t | 0 <= t < |rfreq2| ensures Counts(rfreq2[t], s, sel2, t, ge, a) && Uses(rfreq2[t], a, ge) {
      assert Counts(rfreq[t], s, selector, t, G_SIZE * k, a) && Uses(rfreq[t], a, G_SIZE * k);
      forall v | 0 <= v < a ensures rfreq2[t][v] == CodedWith(s, sel2, t, v, ge) {
        CodedGroup(s, sel2, k, t, v, ge);
        CodedSame(s, selector, sel2, t, v, G_SIZE * k);
      }
    }
  }

  /** Group k of the first n symbols has the cheapest table; among equals the first. */
  ghost predicate CheapestAt(lens: seq<seq<int>>, s: seq<int>, n: nat, k: nat, bt: int, alphaSize: nat)
    requires G_SIZE * k < n <= |s| && Within(s, alphaSize) && 0 <= bt < |lens|
    requires forall t :: 0 <= t < |lens| ==> |lens[t]| == alphaSize
  {
    var ge := if G_SIZE * k + G_SIZE < n then G_SIZE * k + G_SIZE else n;
    forall t :: 0 <= t < |lens| ==>
      && Cost(lens[bt], s, G_SIZE * k, ge) <= Cost(lens[t], s, G_SIZE * k, ge)
      && (t < bt ==> Cost(lens[bt], s, G_SIZE * k, ge) < Cost(lens[t], s, G_SIZE * k, ge))
  }

  /** selector[..n] names the cheapest table of each group. */
  ghost predicate AllCheapest(lens: seq<seq<int>>, s: seq<int>, nMTF: nat, alphaSize: nat, selector: seq<int>, n: nat) {
    && nMTF <= |s| && Within(s, alphaSize) && (forall t :: 0 <= t < |lens| ==> |lens[t]| == alphaSize)
    && n <= |selector| && (n > 0 ==> G_SIZE * (n - 1) < nMTF)
    && forall k :: 0 <= k < n ==> 0 <= selector[k] < |lens| && CheapestAt(lens, s, nMTF, k, selector[k], alphaSize)
  }

  lemma CheapestStep(lens: seq<seq<int>>, s: seq<int>, nMTF: nat, alphaSize: nat, selector: seq<int>, n: nat, bt: int,
                     cost: seq<int>)
    requires AllCheapest(lens, s, nMTF, alphaSize, selector, n) && n < |selector| && G_SIZE * n < nMTF
    requires |cost| == |lens| && 0 <= bt < |lens|
    requires var ge := if G_SIZE * n + G_SIZE < nMTF then G_SIZE * n + G_SIZE else nMTF;
             forall t :: 0 <= t < |lens| ==> |lens[t]| == alphaSize && cost[t] == Cost(lens[t], s, G_SIZE * n, ge)
    requires forall t :: 0 <= t < |cost| ==> cost[bt] <= cost[t] && (t < bt ==> cost[bt] < cost[t])
    ensures AllCheapest(lens, s, nMTF, alphaSize, selector[n := bt], n + 1)
  {
    hide Cost;
    assert CheapestAt(lens, s, nMTF, n, bt, alphaSize);
    hide CheapestAt;
  }

  lemma CostsSmall(lens: seq<seq<int>>, s: seq<int>, gs: nat, ge: nat, nGroups: nat, a: nat)
    requires Rows(lens, nGroups, a, MAX_LEN) && gs <= ge <= |s| && ge <= gs + G_SIZE && Within(s, a)
    ensures forall t :: 0 <= t < nGroups ==> |lens[t]| == a && Cost(lens[t], s, gs, ge) < 999999999
  {
    forall t | 0 <= t < nGroups ensures |lens[t]| == a && Cost(lens[t], s, gs, ge) < 999999999 {
      CostBound(lens[t], s, gs, ge, a, MAX_LEN);
    }
  }

  /** One pass: every group of fifty symbols is given to its cheapest table, whose uses are counted. */
  method AssignGroups(lens: seq<seq<int>>, mtfv: seq<int>, nMTF: nat, nGroups: nat, alphaSize: nat,
                      selector: array<int>)
    returns (nSelectors: nat, rfreq: seq<seq<int>>)
    requires selector.Length == MAX_SELECTORS && 2 <= nGroups <= N_GROUPS
    requires Rows(lens, nGroups, alphaSize, MAX_LEN) && 0 < nMTF <= MAX_SYMBOLS && nMTF <= |mtfv|
    requires Within(mtfv, alphaSize)
    modifies selector
    ensures 1 <= nSelectors <= MAX_SELECTORS && nMTF <= G_SIZE * nSelectors
    ensures AllCheapest(lens, mtfv, nMTF, alphaSize, selector[..], nSelectors)
    ensures |rfreq| == nGroups && AllCounts(rfreq, mtfv, selector[..], nMTF, alphaSize)
  {
    hide Cost, AllCheapest, Uses, Counts, AllCounts, RowOk, Within, CountEq;
    ghost var s := mtfv;
    rfreq := seq(nGroups, _ => seq(alphaSize, _ => 0));
    NoCounts(nGroups, s, selector[..], alphaSize);
    nSelectors := 0;
    var gs := 0;
    NoneCheapest(lens, s, nMTF, nGroups, alphaSize, selector[..]);
    while gs < nMTF
      invariant 0 <= gs <= nMTF && gs == (if G_SIZE * nSelectors < nMTF then G_SIZE * nSelectors else nMTF)
      invariant nSelectors <= MAX_SELECTORS && (gs > 0 ==> nSelectors > 0)
      invariant AllCheapest(lens, s, nMTF, alphaSize, selector[..], nSelectors)
      invariant |rfreq| == nGroups && AllCounts(rfreq, s, selector[..], gs, alphaSize)
    {
      var ge := gs + G_SIZE;
      if ge >= nMTF { ge := nMTF; }
      var cost := GroupCosts(lens, mtfv, gs, ge, nGroups, alphaSize);
      CostsSmall(lens, s, gs, ge, nGroups, alphaSize);
      var bt := Cheapest(cost);
      ghost var sel := selector[..];
      CheapestStep(lens, s, nMTF, alphaSize, sel, nSelectors, bt, cost);
      selector[nSelectors] := bt;
      assert selector[..] == sel[nSelectors := bt];
      CountsAt(rfreq, s, sel, gs, alphaSize, bt);
      var row := CountGroup(rfreq[bt], mtfv, gs, ge, alphaSize);
      CountsStep(rfreq, s, sel, nSelectors, ge, alphaSize, bt, row);
      nSelectors := nSelectors + 1;
      rfreq := rfreq[bt := row];
      gs := ge;
    }
  }

  lemma CountsAt(rfreq: seq<seq<int>>, s: seq<int>, selector: seq<int>, n: nat, a: nat, t: int)
    requires AllCounts(rfreq, s, selector, n, a) && 0 <= t < |rfreq|
    ensures Counts(rfreq[t], s, selector, t, n, a) && Uses(rfreq[t], a, n) && |rfreq[t]| == a
  {
  }

  lemma NoneCheapest(lens: seq<seq<int>>, s: seq<int>, nMTF: nat, nGroups: nat, a: nat, selector: seq<int>)
    requires Rows(lens, nGroups, a, MAX_LEN) && nMTF <= |s| && Within(s, a)
    ensures AllCheapest(lens, s, nMTF, a, selector, 0)
  {
  }

  /* ---- The tables made from the counts ---- */

  /** Rows of complete codes no longer than 17 bits. */
  ghost predicate AllComplete(lens: seq<seq<int>>, nGroups: nat, alphaSize: nat) {
    |lens| == nGroups && forall t :: 0 <= t < nGroups ==> |lens[t]| == alphaSize && CompleteCode(lens[t], alphaSize, 17)
  }

  /** Every table has Huffman's code lengths for the symbols that the selectors give to it. */
  ghost predicate AllFit(lens: seq<seq<int>>, s: seq<int>, selector: seq<int>, n: nat, a: nat) {
    forall t :: 0 <= t < |lens| ==> FitsUses(lens[t], s, selector, t, n, a)
  }

  ghost predicate FitsUses(L: seq<int>, s: seq<int>, selector: seq<int>, t: int, n: nat, a: nat) {
    n <= |s| && n <= G_SIZE * |selector| && BestWithin(seq(a, v => CodedWith(s, selector, t, v, n)), L, a, 17)
  }

  /** One call of BZ2_hbMakeCodeLengths on a row of counts. */
  method RemakeRow(row: seq<int>, alphaSize: nat, ghost nMTF: nat) returns (L: seq<int>)
    requires 3 <= alphaSize <= MAX_ALPHA_SIZE && Uses(row, alphaSize, nMTF) && nMTF <= MAX_SYMBOLS
    ensures |L| == alphaSize && CompleteCode(L, alphaSize, 17) && BestWithin(row, L, alphaSize, 17)
  {
    hide TotalFreq, Fib, CompleteCode, BestWithin;
    var len := new int[alphaSize];
    var freq := new int[alphaSize](i requires 0 <= i < alphaSize => row[i]);
    assert freq[..] == row;
    SeventeenSuffices(alphaSize);
    MakeCodeLengths(len, freq, alphaSize, 17);
    L := len[..];
  }

  lemma FitsIntro(L: seq<int>, row: seq<int>, s: seq<int>, selector: seq<int>, t: int, n: nat, a: nat)
    requires Counts(row, s, selector, t, n, a) && BestWithin(row, L, a, 17)
    ensures FitsUses(L, s, selector, t, n, a)
  {
    hide BestWithin;
    assert row == seq(a, v => CodedWith(s, selector, t, v, n));
  }

  method RemakeTables(rfreq: seq<seq<int>>, nGroups: nat, alphaSize: nat, ghost s: seq<int>, ghost selector: seq<int>,
                      ghost nMTF: nat)
    returns (lens: seq<seq<int>>)
    requires 3 <= alphaSize <= MAX_ALPHA_SIZE && nMTF <= MAX_SYMBOLS
    requires |rfreq| == nGroups && AllCounts(rfreq, s, selector, nMTF, alphaSize)
    ensures AllComplete(lens, nGroups, alphaSize) && AllFit(lens, s, selector, nMTF, alphaSize)
  {
    hide Uses, CompleteCode, AllCounts, Counts, FitsUses, BestWithin;
    lens := [];
    for t := 0 to nGroups
      invariant |lens| == t && forall u :: 0 <= u < t ==> |lens[u]| == alphaSize && CompleteCode(lens[u], alphaSize, 17)
      invariant AllFit(lens, s, selector, nMTF, alphaSize)
    {
      CountsAt(rfreq, s, selector, nMTF, alphaSize, t);
      var L := RemakeRow(rfreq[t], alphaSize, nMTF);
      FitsIntro(L, rfreq[t], s, selector, t, nMTF, alphaSize);
      lens := lens + [L];
    }
  }

  lemma CompleteRows(lens: seq<seq<int>>, nGroups: nat, a: nat)
    requires AllComplete(lens, nGroups, a)
    ensures Rows(lens, nGroups, a, MAX_LEN)
  {
    hide Kraft;
    forall t | 0 <= t < nGroups ensures RowOk(lens[t], a, MAX_LEN) {
      assert CompleteCode(lens[t], a, 17);
    }
  }

  /** How many tables to use for so many symbols. */
  function TableCount(nMTF: nat): (n: nat)
    ensures 2 <= n <= N_GROUPS
  {
    if nMTF < 200 then 2 else if nMTF < 600 then 3 else if nMTF < 1200 then 4 else if nMTF < 2400 then 5 else 6
  }

  /** One improvement of the tables: groups go to the cheapest of the old tables, and the new tables fit what
      they are used for. */
  ghost predicate Improved(before: seq<seq<int>>, after: seq<seq<int>>, s: seq<int>, a: nat, selector: seq<int>,
                           n: nat)
  {
    && |after| == |before| && n <= MAX_SELECTORS && n <= |selector| && |s| <= G_SIZE * n
    && AllCheapest(before, s, |s|, a, selector, n) && AllFit(after, s, selector, |s|, a)
  }

  /** The selectors in use are enough. */
  lemma ImprovedCut(before: seq<seq<int>>, after: seq<seq<int>>, s: seq<int>, a: nat, selector: seq<int>, n: nat)
    requires Improved(before, after, s, a, selector, n)
    ensures n <= |selector| && Improved(before, after, s, a, selector[..n], n)
  {
    hide CheapestAt, BestWithin;
    forall t | 0 <= t < |after| ensures FitsUses(after[t], s, selector[..n], t, |s|, a) {
      assert FitsUses(after[t], s, selector, t, |s|, a);
      forall v | 0 <= v < a ensures CodedWith(s, selector, t, v, |s|) == CodedWith(s, selector[..n], t, v, |s|) {
        CodedSame(s, selector, selector[..n], t, v, |s|);
      }
      assert seq(a, v => CodedWith(s, selector, t, v, |s|)) == seq(a, v => CodedWith(s, selector[..n], t, v, |s|));
    }
  }

  /** The tables after each pass: a first guess, and then improvements. */
  ghost predicate Passes(rounds: seq<seq<seq<int>>>, s: seq<int>, a: nat) {
    && |rounds| > 0 && FirstGuess(rounds[0], s, |s|, a, TableCount(|s|))
    && forall i :: 0 <= i < |rounds| - 1 ==> SomeImproved(rounds[i], rounds[i + 1], s, a)
  }

  ghost predicate SomeImproved(before: seq<seq<int>>, after: seq<seq<int>>, s: seq<int>, a: nat) {
    exists selector: seq<int>, n: nat :: Improved(before, after, s, a, selector, n)
  }

  lemma PassesStep(rounds: seq<seq<seq<int>>>, s: seq<int>, a: nat, lens: seq<seq<int>>, selector: seq<int>, n: nat)
    requires Passes(rounds, s, a) && Improved(rounds[|rounds| - 1], lens, s, a, selector, n)
    ensures Passes(rounds + [lens], s, a)
  {
    hide Improved, FirstGuess;
    var r2 := rounds + [lens];
    forall i | 0 <= i < |r2| - 1 ensures SomeImproved(r2[i], r2[i + 1], s, a) {
      if i < |rounds| - 1 { assert r2[i] == rounds[i] && r2[i + 1] == rounds[i + 1]; }
    }
  }

  /** The tables and selectors of sendMTFValues: from a first guess four improvements are made. The selectors
      name the cheapest of the tables before the last improvement; the tables fit these selectors. */
  method ChooseTables(mtfv: seq<int>, mtfFreq: array<int>, nMTF: nat, alphaSize: nat, selector: array<int>)
    returns (nSelectors: nat, lens: seq<seq<int>>, ghost rounds: seq<seq<seq<int>>>)
    requires mtfFreq != selector && selector.Length == MAX_SELECTORS
    requires 3 <= alphaSize <= MAX_ALPHA_SIZE && alphaSize <= mtfFreq.Length && 0 < nMTF <= MAX_SYMBOLS
    requires nMTF == |mtfv|
    requires Within(mtfv, alphaSize) && Tallied(mtfv, nMTF, mtfFreq[..], alphaSize - 2)
    modifies selector
    ensures AllComplete(lens, TableCount(nMTF), alphaSize)
    ensures |lens| == if nMTF < 200 then 2 else if nMTF < 600 then 3 else if nMTF < 1200 then 4
                      else if nMTF < 2400 then 5 else 6
    ensures 1 <= nSelectors <= MAX_SELECTORS && nMTF <= G_SIZE * nSelectors
    ensures |rounds| == 5 && Passes(rounds, mtfv, alphaSize) && lens == rounds[4]
    ensures Improved(rounds[3], lens, mtfv, alphaSize, selector[..], nSelectors)
  {
    hide AllComplete, AllCheapest, AllCounts, AllFit, Rows, Within, FirstGuess, Passes, Improved;
    var nGroups := TableCount(nMTF);
    TallyAt(mtfv, nMTF, mtfFreq[..], alphaSize);
    assert mtfv[..nMTF] == mtfv;
    lens := InitialTables(mtfFreq, nMTF, nGroups, alphaSize, mtfv);
    RowCount(lens, nGroups, alphaSize);
    nSelectors := 0;
    rounds := [lens];
    FirstPass(lens, mtfv, alphaSize);
    for iter := 0 to N_ITERS
      invariant Rows(lens, nGroups, alphaSize, MAX_LEN) && |lens| == nGroups
      invariant |rounds| == iter + 1 && lens == rounds[iter] && Passes(rounds, mtfv, alphaSize)
      invariant iter > 0 ==> AllComplete(lens, nGroups, alphaSize)
      invariant iter > 0 ==> 1 <= nSelectors <= MAX_SELECTORS && nMTF <= G_SIZE * nSelectors
      invariant iter > 0 ==> Improved(rounds[iter - 1], lens, mtfv, alphaSize, selector[..], nSelectors)
    {
      var rfreq;
      ghost var before := lens;
      nSelectors, rfreq := AssignGroups(lens, mtfv, nMTF, nGroups, alphaSize, selector);
      lens := RemakeTables(rfreq, nGroups, alphaSize, mtfv, selector[..], nMTF);
      CompleteRows(lens, nGroups, alphaSize);
      RowCount(lens, nGroups, alphaSize);
      ImprovedIntro(before, lens, mtfv, alphaSize, selector[..], nSelectors);
      PassesStep(rounds, mtfv, alphaSize, lens, selector[..], nSelectors);
      rounds := rounds + [lens];
    }
  }

  lemma FirstPass(lens: seq<seq<int>>, s: seq<int>, a: nat)
    requires FirstGuess(lens, s, |s|, a, TableCount(|s|))
    ensures Passes([lens], s, a)
  {
  }

  lemma ImprovedIntro(before: seq<seq<int>>, lens: seq<seq<int>>, s: seq<int>, a: nat, selector: seq<int>, n: nat)
    requires |lens| == |before| && n <= MAX_SELECTORS && n <= |selector| && |s| <= G_SIZE * n
    requires AllCheapest(before, s, |s|, a, selector, n) && AllFit(lens, s, selector, |s|, a)
    ensures Improved(before, lens, s, a, selector, n)
  {
  }

  lemma RowCount(lens: seq<seq<int>>, nGroups: nat, a: nat)
    requires Rows(lens, nGroups, a, MAX_LEN)
    ensures |lens| == nGroups
  {
  }

  lemma TallyAt(mtfv: seq<int>, wr: nat, freq: seq<int>, a: nat)
    requires a >= 2 && Tallied(mtfv, wr, freq, a - 2)
    ensures wr <= |mtfv| && a <= |freq| && forall v :: 0 <= v < a ==> freq[v] == CountEq(mtfv, wr, v)
  {
  }
}
