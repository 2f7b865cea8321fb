/**
 * Fixed-width integer cells.  A field keeps only the low bits of what is
 * written into it, and the value a field currently holds is a Java `int`,
 * so increments and sums wrap around at 32 bits.
 */
module Bits {

  /** 2 to the power n. */
  function Pow2(n: nat): (r: nat)
    ensures r >= 1
  {
    if n == 0 then 1 else 2 * Pow2(n - 1)
  }

  const IntMin: int := -0x8000_0000
  const IntMax: int := 0x7fff_ffff

  /** Whether x fits in a Java int. */
  predicate IsInt(x: int) { IntMin <= x <= IntMax }

  /** Java int arithmetic: the 32-bit two's complement wrap-around of x. */
  function Wrap32(x: int): (r: int)
    ensures IsInt(r)
    ensures (r - x) % 0x1_0000_0000 == 0
    ensures IsInt(x) ==> r == x
  {
    (x + 0x8000_0000) % 0x1_0000_0000 - 0x8000_0000
  }

  /** The number of low bits a field of width `rep` keeps: its width, but at most 31. */
  function Width(rep: nat): (w: nat)
    ensures w <= rep && w <= 31
    ensures w == rep || w == 31
  {
    if rep < 31 then rep else 31
  }

  /** The number a field of width `rep` holds after `value` is written into it. */
  function Truncate(value: int, rep: nat): (r: nat)
    ensures (value - r) % Pow2(Width(rep)) == 0
  {
    var m := Pow2(Width(rep));
    ModOfDecomposition(value - value % m, m, value / m, 0);
    value % m
  }

  /** Every element of s is a value a field of width `rep` can hold. */
  predicate FitsWidth(s: seq<nat>, rep: nat)
  {
    forall i :: 0 <= i < |s| ==> s[i] < Pow2(Width(rep))
  }

  lemma TruncateBounds(value: int, rep: nat)
    ensures 0 <= Truncate(value, rep) < Pow2(Width(rep))
    ensures 0 <= value < Pow2(Width(rep)) ==> Truncate(value, rep) == value
  {
    if 0 <= value < Pow2(Width(rep)) {
      ModOfDecomposition(value, Pow2(Width(rep)), 0, value);
    }
  }

  /** Smallest p with n <= 2^p: the number of bits that number n slots (the source's logTwo). */
  function LogTwo(n: nat): (p: nat)
    ensures n <= Pow2(p)
    ensures p > 0 ==> Pow2(p - 1) < n
    decreases n
  {
    if n <= 1 then 0 else 1 + LogTwo((n + 1) / 2)
  }

  /** Every number up to n fits in a field of LogTwo(n) + 1 bits. */
  lemma {:induction false} FitsInLogTwoPlusOne(n: nat, x: nat)
    requires x <= n && n <= IntMax
    ensures Truncate(x, LogTwo(n) + 1) == x
  {
    var p := LogTwo(n) + 1;
    assert Pow2(p) == 2 * Pow2(p - 1);
    assert x < Pow2(p);
    if p > 31 {
      Pow2Of31();
    }
    assert x < Pow2(Width(p));
    TruncateBounds(x, p);
  }

  lemma {:induction false} Pow2Add(a: nat, b: nat)
    ensures Pow2(a + b) == Pow2(a) * Pow2(b)
  {
    if a > 0 {
      Pow2Add(a - 1, b);
      assert Pow2(a + b) == 2 * Pow2(a - 1 + b);
    }
  }

  lemma Pow2Of31()
    ensures Pow2(31) == 0x8000_0000
  {
    assert Pow2(1) == 2;
    assert Pow2(2) == 4;
    assert Pow2(4) == 16 by { Pow2Add(2, 2); }
    assert Pow2(8) == 256 by { Pow2Add(4, 4); }
    assert Pow2(16) == 65536 by { Pow2Add(8, 8); }
    assert Pow2(15) == 32768 by { Pow2Add(8, 4); Pow2Add(12, 2); Pow2Add(14, 1); }
    Pow2Add(16, 15);
  }

  lemma {:induction false} Pow2Monotone(a: nat, b: nat)
    requires a <= b
    ensures Pow2(a) <= Pow2(b)
    decreases b - a
  {
    if a < b { Pow2Monotone(a + 1, b); }
  }

  /** Bit i of the two's complement of value (Java's `(value >> i) & 1`). */
  function BitOf(value: int, i: nat): nat
  {
    (value / Pow2(i)) % 2
  }

  /** Taking one more low bit adds bit i of the value at weight 2^i. */
  lemma {:induction false} LowBitsStep(value: int, i: nat)
    ensures value % Pow2(i + 1) == value % Pow2(i) + BitOf(value, i) * Pow2(i)
  {
    var p := Pow2(i);
    var q := value / p;
    var r := value % p;
    var b := q % 2;
    var h := q / 2;
    assert value == q * p + r;
    assert q == 2 * h + b;
    Regroup(value, p, q, r, h, b);
    var low := b * p + r;
    if b == 0 {
      assert low == r;
    } else {
      assert low == p + r;
    }
    assert Pow2(i + 1) == 2 * p;
    ModOfDecomposition(value, 2 * p, h, low);
  }

  /** value = q p + r with q = 2h + b regroups as h (2p) + (b p + r). */
  lemma Regroup(value: int, p: int, q: int, r: int, h: int, b: int)
    requires value == q * p + r && q == 2 * h + b
    ensures value == h * (2 * p) + (b * p + r)
  {
    assert q * p == (2 * h + b) * p;
    assert (2 * h + b) * p == 2 * h * p + b * p;
  }

  lemma ModOfDecomposition(x: int, d: int, q: int, r: int)
    requires d > 0 && 0 <= r < d && x == q * d + r
    ensures x % d == r && x / d == q
  {
    var q' := x / d;
    var r' := x % d;
    assert x == q' * d + r';
    MulDiff(q, q', d);
    if q > q' {
      MulAtLeast(q - q', d);
    } else if q < q' {
      MulAtLeast(q' - q, d);
    }
  }

  lemma MulDiff(a: int, b: int, d: int)
    ensures (a - b) * d == a * d - b * d
  {
  }

  lemma MulAtLeast(a: int, d: int)
    requires a >= 1 && d > 0
    ensures a * d >= d
  {
    assert a * d == (a - 1) * d + d;
    assert (a - 1) * d >= 0;
  }

  /**
   * The source's setBitsFromInt: clear the cell, then copy the low bits of
   * the value one at a time.  What it stores is the value truncated to the
   * field's width.
   */
  method SetBitsFromInt(value: int, rep: nat) returns (stored: nat)
    ensures stored == Truncate(value, rep)
  {
    var l := Width(rep);
    stored := 0;
    for i := 0 to l
      invariant stored == value % Pow2(i)
    {
      LowBitsStep(value, i);
      if BitOf(value, i) != 0 {
        stored := stored + Pow2(i);
      }
    }
  }
}
