/** What any sequence of bits means to a decoder of symbols: code words, and the column they spell. */
module SymbolParser {
  import opened Bits
  import opened BlockFormat
  import opened BlockParser
  import opened Counting
  import opened HuffmanCodes
  import opened InverseBwt

  /* ---- Code words ---- */

  /** The greatest code word of length n, when the lengths are L. */
  ghost function Limit(L: seq<int>, n: nat): int {
    if Shortest(L, |L|) <= n <= Longest(L, |L|) && 0 <= Shortest(L, |L|) then
      First(L, Shortest(L, |L|), n) + CountEq(L, |L|, n) - 1
    else 0
  }

  /** What to take from a code word of length n for the rank of its symbol. */
  ghost function Base(L: seq<int>, n: nat): int {
    if Shortest(L, |L|) <= n <= Longest(L, |L|) && 0 <= Shortest(L, |L|) then
      First(L, Shortest(L, |L|), n) - CountLess(L, |L|, n)
    else |L|
  }

  /** The symbol of rank k. */
  ghost function Holder(L: seq<int>, k: nat): (i: nat)
    requires k < |L|
    ensures i < |L| && Rank(L, i) == k
  {
    RankHeld(L, k);
    var i: nat :| i < |L| && Rank(L, i) == k;
    i
  }

  lemma RankHeld(L: seq<int>, k: nat)
    requires k < |L|
    ensures exists i: nat :: i < |L| && Rank(L, i) == k
  {
    var i := RankTaken(L, k);
  }

  /** n bits of a word have been read, and v is their value. */
  ghost function WordFrom(L: seq<int>, n: nat, v: nat, bits: seq<bool>): (p: Parsed<int>)
    ensures p.Got? ==> 0 <= p.value < |L| && |p.rest| <= |bits|
    decreases |bits|
  {
    if n > 20 then Wrong
    else if v <= Limit(L, n) then
      if 0 <= v - Base(L, n) < |L| then Got(Holder(L, v - Base(L, n)), bits) else Wrong
    else if bits == [] then Partial
    else WordFrom(L, n + 1, 2 * v + (if bits[0] then 1 else 0), bits[1..])
  }

  /** A word from its beginning. */
  ghost function WholeWord(L: seq<int>, bits: seq<bool>): (p: Parsed<int>)
    requires |L| > 0 && LengthsOk(L)
    ensures p.Got? ==> 0 <= p.value < |L| && |p.rest| < |bits|
  {
    LengthRange(L, |L|);
    ShortestAtLeast(L, |L|);
    if |bits| < Shortest(L, |L|) then Partial
    else WordFrom(L, Shortest(L, |L|), Value(bits[..Shortest(L, |L|)]), bits[Shortest(L, |L|)..])
  }

  lemma {:induction false} ShortestAtLeast(L: seq<int>, j: nat)
    requires LengthsOk(L) && 0 < j <= |L|
    ensures 1 <= Shortest(L, j) <= Longest(L, j) <= MAX_LEN
    ensures forall i :: 0 <= i < j ==> Shortest(L, j) <= L[i] <= Longest(L, j)
  {
    if j > 1 { ShortestAtLeast(L, j - 1); }
  }

  /* ---- A word that was written ---- */

  lemma TableUsable(L: seq<int>)
    requires TableOk(L)
    ensures |L| > 0 && LengthsOk(L) && 1 <= Shortest(L, |L|) <= Longest(L, |L|) <= MAX_LEN
    ensures Usable(L, Shortest(L, |L|), Longest(L, |L|))
    ensures forall i :: 0 <= i < |L| ==> Shortest(L, |L|) <= L[i] <= Longest(L, |L|)
  {
    ShortestAtLeast(L, |L|);
  }

  lemma WordBelow(L: seq<int>, s: nat, n: nat)
    requires TableOk(L) && s < |L| && Shortest(L, |L|) <= n < L[s]
    ensures Value(Word(L, s)[..n]) > Limit(L, n)
  {
    TableUsable(L);
    PrefixAbove(L, Shortest(L, |L|), Longest(L, |L|), s, n);
  }

  lemma WordWhole(L: seq<int>, s: nat)
    requires TableOk(L) && s < |L|
    ensures Value(Word(L, s)) <= Limit(L, L[s]) && Value(Word(L, s)) - Base(L, L[s]) == Rank(L, s)
    ensures Rank(L, s) < |L| && Holder(L, Rank(L, s)) == s
  {
    TableUsable(L);
    var lo, hi := Shortest(L, |L|), Longest(L, |L|);
    WholeValue(L, lo, hi, s);
    CodeBounds(L, lo, hi, s);
    RankBounds(L, s);
    hide Value, BitsOf, Usable, First, CountEq, CountLess;
    if Holder(L, Rank(L, s)) != s { RankInjective(L, s, Holder(L, Rank(L, s))); }
  }

  lemma {:induction false} WordStepsParsed(L: seq<int>, s: nat, n: nat, rest: seq<bool>)
    requires TableOk(L) && s < |L| && Shortest(L, |L|) <= n <= L[s] == |Word(L, s)|
    ensures WordFrom(L, n, Value(Word(L, s)[..n]), Word(L, s)[n..] + rest) == Got(s, rest)
    decreases L[s] - n
  {
    TableUsable(L);
    hide Word, Value, Limit, Base, Rank, Holder, TableOk, Usable;
    var w := Word(L, s);
    if n < L[s] {
      WordBelow(L, s, n);
      WordStepsParsed(L, s, n + 1, rest);
      ValueGrows(w[..n], w[n]);
      assert w[..n + 1] == w[..n] + [w[n]];
      NextBit(w, n, rest);
    } else {
      WordWhole(L, s);
      assert w[..n] == w && w[n..] + rest == rest;
    }
  }

  lemma NextBit(w: seq<bool>, n: nat, rest: seq<bool>)
    requires n < |w|
    ensures w[n..] + rest != [] && (w[n..] + rest)[0] == w[n] && (w[n..] + rest)[1..] == w[n + 1..] + rest
  {
  }

  /** A code word a compressor writes is read as its symbol. */
  lemma WordParsed(L: seq<int>, s: nat, rest: seq<bool>)
    requires TableOk(L) && s < |L|
    ensures LengthsOk(L) && |L| > 0 && WholeWord(L, Word(L, s) + rest) == Got(s, rest)
  {
    TableUsable(L);
    var n, w := Shortest(L, |L|), Word(L, s);
    hide Word, Value, WordFrom, TableOk, Usable;
    WordStepsParsed(L, s, n, rest);
    assert (w + rest)[..n] == w[..n] && (w + rest)[n..] == w[n..] + rest;
  }

  /* ---- Which words are read ---- */

  /** Some symbol has the least length. */
  lemma {:induction false} ShortestHeld(L: seq<int>, j: nat)
    requires LengthsOk(L) && 0 < j <= |L|
    ensures CountEq(L, j, Shortest(L, j)) >= 1
  {
    if j > 1 && L[j - 1] >= Shortest(L, j - 1) { ShortestHeld(L, j - 1); }
  }

  /** Longer codes do not begin with zero. */
  lemma {:induction false} FirstPositive(L: seq<int>, lo: nat, n: nat)
    requires CountEq(L, |L|, lo) >= 1 && n > lo
    ensures First(L, lo, n) >= 1
  {
    if n > lo + 1 { FirstPositive(L, lo, n - 1); }
  }

  /** The symbol of rank k has length n if k is among the ranks of that length. */
  lemma HolderLength(L: seq<int>, n: nat, k: nat)
    requires k < |L| && CountLess(L, |L|, n) <= k < CountLess(L, |L|, n) + CountEq(L, |L|, n)
    ensures L[Holder(L, k)] == n
  {
    var s := Holder(L, k);
    hide Holder;
    CountSplit(L, |L|, n);
    CountSplit(L, |L|, L[s]);
    CountEqGrows(L, s + 1, |L|, L[s]);
    assert CountEq(L, s + 1, L[s]) == CountEq(L, s, L[s]) + 1;
    if L[s] < n { CountLessGrows(L, |L|, L[s] + 1, n); }
    if L[s] > n { CountLessGrows(L, |L|, n + 1, L[s]); }
  }

  /** A value within the limit is the code of a symbol of that length. */
  lemma WithinLimit(L: seq<int>, n: nat, v: nat)
    requires LengthsOk(L) && |L| > 0 && 1 <= Shortest(L, |L|) <= n <= 20
    requires First(L, Shortest(L, |L|), n) <= v <= Limit(L, n)
    ensures 0 <= v - Base(L, n) < |L| && L[Holder(L, v - Base(L, n))] == n
    ensures Code(L, Shortest(L, |L|), Holder(L, v - Base(L, n))) == v
  {
    var lo := Shortest(L, |L|);
    ShortestAtLeast(L, |L|);
    ShortestHeld(L, |L|);
    if n > Longest(L, |L|) {
      FirstPositive(L, lo, n);
      assert false;
    } else {
      hide First, LengthsOk;
      CountSplit(L, |L|, n);
      CountMost(L, |L|, n + 1);
      HolderLength(L, n, v - Base(L, n));
    }
  }

  /** A word that is read is the code of its symbol; and it is known from at most twenty bits. */
  lemma {:induction false} WordIsCode(L: seq<int>, n: nat, bits: seq<bool>)
    requires LengthsOk(L) && |L| > 0 && 1 <= Shortest(L, |L|) <= n <= |bits| && n <= 21
    requires First(L, Shortest(L, |L|), n) <= Value(bits[..n])
    ensures match WordFrom(L, n, Value(bits[..n]), bits[n..])
            case Got(s, rest) => 0 <= L[s] && bits == BitsOf(Code(L, Shortest(L, |L|), s), L[s]) + rest
            case Partial => |bits| <= 20
            case Wrong => |bits| >= 21
    decreases |bits| - n
  {
    hide First, Limit, Base, Holder, Code, Value, BitsOf, LengthsOk, WordFrom;
    var v, rest := Value(bits[..n]), bits[n..];
    WordUnfolds(L, n, v, rest);
    if n > 20 {
    } else if v <= Limit(L, n) {
      WithinLimit(L, n, v);
      BitsOfValue(bits[..n]);
      assert bits == bits[..n] + bits[n..];
    } else if rest != [] {
      AboveLimit(L, n, v);
      ValueGrows(bits[..n], bits[n]);
      assert bits[..n + 1] == bits[..n] + [bits[n]];
      assert rest[1..] == bits[n + 1..] && rest[0] == bits[n];
      WordIsCode(L, n + 1, bits);
    }
  }

  lemma WordUnfolds(L: seq<int>, n: nat, v: nat, bits: seq<bool>)
    ensures n > 20 ==> WordFrom(L, n, v, bits) == Wrong
    ensures n <= 20 && v <= Limit(L, n) && 0 <= v - Base(L, n) < |L| ==>
              WordFrom(L, n, v, bits) == Got(Holder(L, v - Base(L, n)), bits)
    ensures n <= 20 && v > Limit(L, n) ==>
              WordFrom(L, n, v, bits) ==
              if bits == [] then Partial else WordFrom(L, n + 1, 2 * v + (if bits[0] then 1 else 0), bits[1..])
  {
    hide Limit, Base, Holder;
  }

  lemma AboveLimit(L: seq<int>, n: nat, v: nat)
    requires LengthsOk(L) && |L| > 0 && 1 <= Shortest(L, |L|) <= n && v > Limit(L, n)
    requires First(L, Shortest(L, |L|), n) <= v
    ensures First(L, Shortest(L, |L|), n + 1) <= 2 * v
  {
    if n > Longest(L, |L|) { NoneLonger(L, |L|, n); }
    FirstNext(L, Shortest(L, |L|), n);
  }

  lemma {:induction false} NoneLonger(L: seq<int>, j: nat, n: nat)
    requires j <= |L| && n > Longest(L, j)
    ensures CountEq(L, j, n) == 0
  {
    if j > 0 { NoneLonger(L, j - 1, n); }
  }

  /** Exactly which words are read: those that begin with the code word of a symbol. The bits are wrong exactly if
      there are more than twenty and they begin with no code word. */
  lemma WordIff(L: seq<int>, bits: seq<bool>)
    requires TableOk(L)
    ensures LengthsOk(L)
    ensures forall s, rest :: WholeWord(L, bits) == Got(s, rest) <==> 0 <= s < |L| && bits == Word(L, s) + rest
    ensures WholeWord(L, bits) == Wrong <==> |bits| > 20 && forall s :: 0 <= s < |L| ==> !(Word(L, s) <= bits)
  {
    TableUsable(L);
    var lo := Shortest(L, |L|);
    if |bits| >= lo {
      FirstStarts(L, lo);
      WordIsCode(L, lo, bits);
    }
    forall s, rest | 0 <= s < |L| && bits == Word(L, s) + rest ensures WholeWord(L, bits) == Got(s, rest) {
      WordParsed(L, s, rest);
    }
    forall s | 0 <= s < |L| && Word(L, s) <= bits ensures WholeWord(L, bits).Got? {
      var rest := bits[|Word(L, s)|..];
      assert bits == Word(L, s) + rest;
      WordParsed(L, s, rest);
    }
  }

  /* ---- Symbols in groups of fifty ---- */

  /** What the decoder knows when the symbols begin: code lengths, selectors, the number of characters
      in use, those characters, and the most the block may hold. */
  datatype Plan = Plan(lens: seq<seq<int>>, selector: seq<int>, nInUse: nat, chars: seq<int>, most: nat)

  ghost predicate PlanOk(h: Plan) {
    && 0 < h.nInUse <= 256 && TablesOk(h.lens, h.nInUse + 2) && Within(h.selector, |h.lens|)
    && |h.chars| == 256 && Within(h.chars, 256)
  }

  /** Symbol c. */
  ghost function SymbolFrom(h: Plan, c: nat, bits: seq<bool>): (p: Parsed<int>)
    requires PlanOk(h)
    ensures p.Got? ==> 0 <= p.value < h.nInUse + 2 && |p.rest| < |bits|
  {
    if c / G_SIZE >= |h.selector| then Wrong else WholeWord(h.lens[h.selector[c / G_SIZE]], bits)
  }

  lemma DataNext(x: Coded, k: nat)
    requires Sound(x) && k < |x.symbols|
    ensures |x.symbols| <= G_SIZE * |x.selectors| && 0 <= x.selectors[k / G_SIZE] < |x.lens|
    ensures TableOk(TableAt(x, k)) && 0 <= x.symbols[k] < |TableAt(x, k)|
    ensures DataBits(x, k) == Word(TableAt(x, k), x.symbols[k]) + DataBits(x, k + 1)
  {
    hide Sound, TableOk, Word;
    SymbolAt(x, k);
  }

  lemma DataAhead(x: Coded, k: nat, rest: seq<bool>)
    requires Sound(x) && k < |x.symbols|
    ensures |x.symbols| <= G_SIZE * |x.selectors| && 0 <= x.selectors[k / G_SIZE] < |x.lens|
    ensures TableOk(x.lens[x.selectors[k / G_SIZE]]) && 0 <= x.symbols[k] < |x.lens[x.selectors[k / G_SIZE]]|
    ensures DataBits(x, k) + rest == Word(x.lens[x.selectors[k / G_SIZE]], x.symbols[k]) + (DataBits(x, k + 1) + rest)
  {
    hide DataBits, Word, Sound, TableOk;
    DataNext(x, k);
    var w, d := Word(TableAt(x, k), x.symbols[k]), DataBits(x, k + 1);
    assert (w + d) + rest == w + (d + rest);
  }

  /** Selectors that agree as far as both go. */
  ghost predicate SameStart(s: seq<int>, t: seq<int>) {
    forall k :: 0 <= k < |s| && k < |t| ==> s[k] == t[k]
  }

  /** The symbols a compressor writes are the symbols that are read, as long as there are selectors. */
  lemma SymbolParsed(h: Plan, x: Coded, c: nat, rest: seq<bool>)
    requires Sound(x) && PlanOk(h) && h.lens == x.lens && SameStart(h.selector, x.selectors) && c < |x.symbols|
    ensures SymbolFrom(h, c, DataBits(x, c) + rest) ==
            if c < G_SIZE * |h.selector| then Got(x.symbols[c], DataBits(x, c + 1) + rest) else Wrong
  {
    hide Sound, DataBits, WholeWord, TableOk, Word;
    DataAhead(x, c, rest);
    WordParsed(x.lens[x.selectors[c / G_SIZE]], x.symbols[c], DataBits(x, c + 1) + rest);
  }
}
