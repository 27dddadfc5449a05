/** Numbers as bit sequences, most significant bit first. */
module Bits {
  import opened Powers

  /** The low n bits of v. */
  function BitsOf(v: nat, n: nat): (s: seq<bool>)
    ensures |s| == n
  {
    if n == 0 then [] else BitsOf(v / 2, n - 1) + [v % 2 == 1]
  }

  function Value(s: seq<bool>): (v: nat)
    ensures v < Pow2(|s|)
  {
    if |s| == 0 then 0 else 2 * Value(s[..|s| - 1]) + (if s[|s| - 1] then 1 else 0)
  }

  /** Reading back what was written. */
  lemma {:induction false} ValueOfBits(v: nat, n: nat)
    requires v < Pow2(n)
    ensures Value(BitsOf(v, n)) == v
  {
    if n > 0 {
      ValueOfBits(v / 2, n - 1);
      assert BitsOf(v, n)[..n - 1] == BitsOf(v / 2, n - 1);
    }
  }

  /** Writing again what was read. */
  lemma {:induction false} BitsOfValue(s: seq<bool>)
    ensures BitsOf(Value(s), |s|) == s
  {
    if |s| > 0 {
      var h, d := Value(s[..|s| - 1]), if s[|s| - 1] then 1 else 0;
      BitsOfValue(s[..|s| - 1]);
      assert (2 * h + d) / 2 == h && (2 * h + d) % 2 == d;
    }
  }

  lemma Double(x: nat, m: nat)
    ensures 2 * (x * m) == x * (2 * m)
  {
  }

  /** One more bit at the end. */
  lemma ValueGrows(s: seq<bool>, d: bool)
    ensures Value(s + [d]) == 2 * Value(s) + (if d then 1 else 0)
  {
    assert (s + [d])[..|s|] == s;
  }

  /** The first k of n bits are the high part of the number. */
  lemma {:induction false} HighBits(v: nat, n: nat, k: nat)
    requires k <= n
    ensures BitsOf(v, n)[..k] == BitsOf(v / Pow2(n - k), k)
    decreases n
  {
    if k == n {
      assert v / 1 == v;
      assert BitsOf(v, n)[..n] == BitsOf(v, n);
    } else {
      HighBits(v / 2, n - 1, k);
      assert BitsOf(v, n)[..k] == BitsOf(v / 2, n - 1)[..k];
      DivTwice(v, 2, Pow2(n - 1 - k));
    }
  }

  lemma DivTwice(v: nat, a: nat, c: nat)
    requires a >= 1 && c >= 1
    ensures a * c >= 1 && v / a / c == v / (a * c)
  {
    var q := v / a / c;
    var r1, r2 := v % a, v / a % c;
    Unfold(v, a);
    Unfold(v / a, c);
    assert v == a * (c * q + r2) + r1;
    Spread(a, c, q, r2);
    ProductBelow(a, r2, c);
    Quotient(v, a * c, q, a * r2 + r1);
  }

  lemma Unfold(v: nat, a: nat)
    requires a >= 1
    ensures v == a * (v / a) + v % a && 0 <= v % a < a
  {
  }

  lemma Spread(a: nat, c: nat, q: nat, r: nat)
    ensures a * (c * q + r) == a * c * q + a * r
  {
  }

  lemma ProductBelow(a: nat, r: nat, c: nat)
    requires r < c && a >= 1
    ensures a * r + a <= a * c && a * c >= 1
  {
    assert a * (r + 1) <= a * c;
  }

  lemma Quotient(v: nat, m: nat, q: nat, r: nat)
    requires m >= 1 && v == m * q + r && r < m
    ensures v / m == q
  {
    Unfold(v, m);
    var d := v / m;
    if d < q { ProductGap(m, d, q); }
    if d > q { ProductGap(m, q, d); }
  }

  lemma ProductGap(m: nat, x: nat, y: nat)
    requires x < y
    ensures m * x + m <= m * y
  {
    assert m * (x + 1) <= m * y;
  }

  lemma {:induction false} HighValue(v: nat, n: nat)
    requires n >= 0
    ensures Value(BitsOf(v, n)) == v % Pow2(n)
  {
    if n > 0 {
      HighValue(v / 2, n - 1);
      assert BitsOf(v, n)[..n - 1] == BitsOf(v / 2, n - 1);
      ModHalf(v, Pow2(n - 1));
    }
  }

  lemma ModHalf(v: nat, m: nat)
    requires m >= 1
    ensures v % (2 * m) == 2 * (v / 2 % m) + v % 2
  {
    var q, r := v / 2 / m, v / 2 % m;
    Unfold(v / 2, m);
    assert v == 2 * (m * q + r) + v % 2;
    Spread(2, m, q, r);
    Quotient(v, 2 * m, q, 2 * r + v % 2);
    Unfold(v, 2 * m);
  }

  /** Appending the n bits of v to a number appends its bits. */
  lemma {:induction false} JoinBits(t: nat, L: nat, v: nat, n: nat)
    requires v < Pow2(n)
    ensures BitsOf(t * Pow2(n) + v, L + n) == BitsOf(t, L) + BitsOf(v, n)
    decreases n
  {
    if n == 0 {
      assert t * Pow2(0) + v == t;
      assert BitsOf(t, L) + [] == BitsOf(t, L);
    } else {
      var x := t * Pow2(n - 1);
      assert t * Pow2(n) == 2 * x by { Double(t, Pow2(n - 1)); }
      assert (2 * x + v) / 2 == x + v / 2 && (2 * x + v) % 2 == v % 2;
      JoinBits(t, L, v / 2, n - 1);
    }
  }

  /** Only the low bits count. */
  lemma {:induction false} BitsMod(v: nat, n: nat, k: nat)
    requires n <= k
    ensures BitsOf(v % Pow2(k), n) == BitsOf(v, n)
  {
    if n > 0 {
      ModHalf(v, Pow2(k - 1));
      assert Pow2(k) == 2 * Pow2(k - 1);
      assert v % Pow2(k) == 2 * (v / 2 % Pow2(k - 1)) + v % 2;
      BitsMod(v / 2, n - 1, k - 1);
    }
  }

  /** The last k of n bits are the low part of the number. */
  lemma {:induction false} LowBits(v: nat, n: nat, k: nat)
    requires k <= n
    ensures BitsOf(v, n)[n - k..] == BitsOf(v, k)
    decreases k
  {
    if k > 0 {
      LowBits(v / 2, n - 1, k - 1);
      assert BitsOf(v, n) == BitsOf(v / 2, n - 1) + [v % 2 == 1];
      assert BitsOf(v, n)[n - k..] == BitsOf(v / 2, n - 1)[n - k..] + [v % 2 == 1];
    }
  }

  /** The bit at place i. */
  lemma BitAt(c: nat, n: nat, i: nat)
    requires i < n
    ensures BitsOf(c, n)[i] == (c / Pow2(n - 1 - i) % 2 == 1)
  {
    HighBits(c, n, i + 1);
    var h := BitsOf(c, n)[..i + 1];
    assert h[i] == BitsOf(c, n)[i];
  }
}
