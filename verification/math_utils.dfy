/**
 * `MathUtils`: the power-of-two rounding used to size the transform texture,
 * and the world/part unit conversion (one block is 16 model units).
 * Java's 32-bit `int` is modelled explicitly where it matters.
 */
module MathUtils {
  import opened Vectors

  const INT_MIN: int := -0x8000_0000
  const INT_MAX: int := 0x7FFF_FFFF
  /** The largest power of two a Java `int` can hold. */
  const MAX_POW2: int := 0x4000_0000

  predicate IsInt32(x: int) {
    INT_MIN <= x <= INT_MAX
  }

  /** Two's-complement wrap-around of an unbounded result into a Java `int`. */
  function Wrap32(x: int): (r: int)
    ensures IsInt32(r)
    ensures IsInt32(x) ==> r == x
    ensures (r - x) % 0x1_0000_0000 == 0
  {
    (x + 0x8000_0000) % 0x1_0000_0000 - 0x8000_0000
  }

  predicate IsPowerOfTwo(p: int)
    decreases if p < 0 then 0 else p
  {
    p == 1 || (p > 1 && p % 2 == 0 && IsPowerOfTwo(p / 2))
  }

  /** 2 to the power k. */
  function Pow2(k: nat): (p: int)
    ensures p >= 1 && IsPowerOfTwo(p)
  {
    if k == 0 then 1 else DoubleIsPowerOfTwo(Pow2(k - 1)); 2 * Pow2(k - 1)
  }

  /** Doubling a power of two gives a power of two. */
  lemma DoubleIsPowerOfTwo(p: int)
    requires p >= 1 && IsPowerOfTwo(p)
    ensures IsPowerOfTwo(2 * p)
  {
    assert (2 * p) % 2 == 0 && (2 * p) / 2 == p;
  }

  /**
   * The `while (r < x) r <<= 1` loop of `nextPowerOfTwo`, continued from
   * the current value `r` (no overflow: the callers keep `x` within range).
   */
  function Climb(r: int, x: int): (p: int)
    requires IsPowerOfTwo(r)
    decreases x - r
    ensures IsPowerOfTwo(p) && p >= x && p >= r
    ensures p == r || p / 2 < x
  {
    if r < x then DoubleIsPowerOfTwo(r); Climb(2 * r, x) else r
  }

  /**
   * `nextPowerOfTwo(x)`: the least power of two that is at least `x`.
   * The loop exits only while `x` is at most 2^30 (see `LoopNeverExits`).
   */
  function NextPowerOfTwo(x: int): (r: int)
    requires x <= MAX_POW2
    ensures IsPowerOfTwo(r) && r >= x
    ensures x <= 1 ==> r == 1
    ensures x > 1 ==> r / 2 < x && r < 2 * x
  {
    Climb(1, x)
  }

  /** Of two powers of two, the smaller one is at most half the larger. */
  lemma {:induction false} PowersOfTwoSpaced(a: int, b: int)
    requires IsPowerOfTwo(a) && IsPowerOfTwo(b) && a < b
    ensures 2 * a <= b
    decreases b
  {
    if a > 1 {
      PowersOfTwoSpaced(a / 2, b / 2);
    }
  }

  /** Every power of two from 256 up is a whole number of 256-pixel rows. */
  lemma {:induction false} PowerOfTwoRows(b: int)
    requires IsPowerOfTwo(b) && b >= 256
    ensures b % 256 == 0
    decreases b
  {
    if b > 256 {
      assert IsPowerOfTwo(256) by { assert 256 == Pow2(8); }
      PowersOfTwoSpaced(256, b);
      PowerOfTwoRows(b / 2);
    }
  }

  /** No smaller power of two is at least `x`. */
  lemma NextPowerOfTwoIsLeast(x: int, p: int)
    requires x <= MAX_POW2 && IsPowerOfTwo(p) && p >= x
    ensures NextPowerOfTwo(x) <= p
  {
    var r := NextPowerOfTwo(x);
    if p < r {
      PowersOfTwoSpaced(p, r);
      assert false;
    }
  }

  lemma NextPowerOfTwoFixesPowers(p: int)
    requires IsPowerOfTwo(p) && p <= MAX_POW2
    ensures NextPowerOfTwo(p) == p
  {
    NextPowerOfTwoIsLeast(p, p);
  }

  lemma NextPowerOfTwoMonotone(x: int, y: int)
    requires x <= y <= MAX_POW2
    ensures NextPowerOfTwo(x) <= NextPowerOfTwo(y)
  {
    NextPowerOfTwoIsLeast(x, NextPowerOfTwo(y));
  }

  /** `r <<= 1` on a Java `int`. */
  function ShiftLeft(r: int): int {
    Wrap32(2 * r)
  }

  /** The loop's `r` after `n` passes, as long as its guard keeps holding. */
  function LoopValue(n: nat): int {
    if n == 0 then 1 else ShiftLeft(LoopValue(n - 1))
  }

  /** Up to 30 passes the loop doubles `r` without overflow. */
  lemma {:induction false} LoopValuesLow(n: nat)
    requires n <= 30
    ensures LoopValue(n) == Pow2(n) <= MAX_POW2
  {
    Pow2Monotone(n, 30);
    Pow2Thirty();
    if n > 0 {
      LoopValuesLow(n - 1);
      assert 2 * Pow2(n - 1) == Pow2(n);
      assert IsInt32(Pow2(n));
    }
  }

  /** The 31st pass wraps `r` to `INT_MIN`; from the 32nd on it sticks at 0. */
  lemma {:induction false} LoopValuesHigh(n: nat)
    requires n >= 31
    ensures LoopValue(n) == if n == 31 then INT_MIN else 0
  {
    WrappedDoubles();
    if n == 31 {
      LoopValuesLow(30);
      Pow2Thirty();
      assert LoopValue(n) == Wrap32(2 * MAX_POW2);
    } else {
      LoopValuesHigh(n - 1);
      assert LoopValue(n) == Wrap32(2 * LoopValue(n - 1));
    }
  }

  /** Doubling 2^30 wraps to `INT_MIN`, and doubling `INT_MIN` or 0 wraps to 0. */
  lemma WrappedDoubles()
    ensures Wrap32(2 * MAX_POW2) == INT_MIN && Wrap32(2 * INT_MIN) == 0 && Wrap32(2 * 0) == 0
  {
    assert (2 * MAX_POW2 + 0x8000_0000) % 0x1_0000_0000 == 0;
    assert (2 * INT_MIN + 0x8000_0000) % 0x1_0000_0000 == 0x8000_0000;
    assert (0 + 0x8000_0000) % 0x1_0000_0000 == 0x8000_0000;
  }

  lemma {:induction false} Pow2Add(i: nat, j: nat)
    ensures Pow2(i + j) == Pow2(i) * Pow2(j)
    decreases j
  {
    if j > 0 {
      Pow2Add(i, j - 1);
      assert Pow2(i + j) == 2 * Pow2(i + (j - 1));
    }
  }

  lemma Pow2Thirty()
    ensures Pow2(30) == MAX_POW2
  {
    assert Pow2(10) == 1024;
    Pow2Add(10, 10);
    Pow2Add(20, 10);
  }

  lemma {:induction false} Pow2Monotone(i: nat, j: nat)
    requires i <= j
    ensures Pow2(i) <= Pow2(j)
    decreases j
  {
    if i < j {
      Pow2Monotone(i, j - 1);
    }
  }

  /**
   * For `x` above 2^30 the guard `r < x` holds after every pass, so
   * `nextPowerOfTwo` never returns.
   */
  lemma LoopNeverExits(x: int, n: nat)
    requires MAX_POW2 < x <= INT_MAX
    ensures LoopValue(n) < x
  {
    if n <= 30 {
      LoopValuesLow(n);
    } else {
      LoopValuesHigh(n);
    }
  }

  /** `worldToPart`: one world block is 16 part units. */
  function WorldToPart(v: Vector3): Vector3 {
    v.Scale(16.0)
  }

  /** `partToWorld`: the reverse conversion. */
  function PartToWorld(v: Vector3): Vector3 {
    v.Scale(1.0 / 16.0)
  }

  lemma WorldPartInverse(v: Vector3)
    ensures PartToWorld(WorldToPart(v)) == v
    ensures WorldToPart(PartToWorld(v)) == v
  {
  }
}
