/**
 Java's 32-bit `int`, which is what the crawler's `Integer` word counts hold.
 Addition of two `int`s wraps around modulo 2^32 instead of overflowing.
 */
module JavaInt {

  const MODULUS: int := 0x1_0000_0000

  /** The values of a Java `int`. */
  type Int32 = x: int | -0x8000_0000 <= x < 0x8000_0000

  /**
   The `int` that Java's arithmetic produces for the mathematical value `x`:
   `x` shifted by multiples of 2^32 into the `int` range.
   */
  function Wrap(x: int): (r: Int32)
    ensures -0x8000_0000 <= x < 0x8000_0000 ==> r == x
    decreases if x < -0x8000_0000 then -0x8000_0000 - x else if x >= 0x8000_0000 then x else 0
  {
    if x < -0x8000_0000 then Wrap(x + MODULUS)
    else if x >= 0x8000_0000 then Wrap(x - MODULUS)
    else x
  }

  /**
   Java's `a + b` on two `int`s: the true sum when it fits, otherwise the true
   sum shifted by 2^32 back into range (a sum of two `int`s wraps at most once).
   */
  function Add(a: Int32, b: Int32): (r: Int32)
    ensures -0x8000_0000 <= a + b < 0x8000_0000 ==> r == a + b
    ensures a + b < -0x8000_0000 ==> r == a + b + MODULUS
    ensures 0x8000_0000 <= a + b ==> r == a + b - MODULUS
  {
    Wrap(a + b)
  }

  /** `Wrap` moves its argument by a whole number of 2^32 steps. */
  lemma {:induction false} WrapOffset(x: int) returns (k: int)
    ensures Wrap(x) == x + k * MODULUS
    decreases if x < -0x8000_0000 then -0x8000_0000 - x else if x >= 0x8000_0000 then x else 0
  {
    if x < -0x8000_0000 {
      var k' := WrapOffset(x + MODULUS);
      k := k' + 1;
    } else if x >= 0x8000_0000 {
      var k' := WrapOffset(x - MODULUS);
      k := k' - 1;
    } else {
      k := 0;
    }
  }

  /** Adding one step of 2^32 does not change the wrapped value. */
  lemma WrapStep(x: int)
    ensures Wrap(x + MODULUS) == Wrap(x)
  {
  }

  /** Two integers that differ by a multiple of 2^32 wrap to the same `int`. */
  lemma {:induction false} WrapCongruent(x: int, k: int)
    ensures Wrap(x + k * MODULUS) == Wrap(x)
    decreases if k < 0 then -k else k
  {
    if k > 0 {
      WrapCongruent(x, k - 1);
      WrapStep(x + (k - 1) * MODULUS);
    } else if k < 0 {
      WrapCongruent(x, k + 1);
      WrapStep(x + k * MODULUS);
    }
  }

  /** Wrapping an intermediate result does not change the final wrapped sum. */
  lemma WrapAbsorbs(x: int, y: int)
    ensures Wrap(Wrap(x) + y) == Wrap(x + y)
  {
    var k := WrapOffset(x);
    WrapCongruent(x + y, k);
  }
}
