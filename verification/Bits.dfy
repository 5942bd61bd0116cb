/**
  Bitwise operators on unsigned values, bit by bit, and what they mean arithmetically.

  Shifts and truncation are recursive on the number of bits, so that no proof meets a product or a
  quotient of two variables.
*/
module Bits {
  type byte = x: int | 0 <= x < 256

  function Pow2(n: nat): (r: nat)
    ensures r >= 1
  {
    if n == 0 then 1 else 2 * Pow2(n - 1)
  }

  function Xor(a: nat, b: nat): nat
    decreases a + b
  {
    if a == 0 && b == 0 then 0 else (if a % 2 == b % 2 then 0 else 1) + 2 * Xor(a / 2, b / 2)
  }

  function Or(a: nat, b: nat): nat
    decreases a + b
  {
    if a == 0 && b == 0 then 0 else (if a % 2 + b % 2 > 0 then 1 else 0) + 2 * Or(a / 2, b / 2)
  }

  function And(a: nat, b: nat): nat
    decreases a + b
  {
    if a == 0 && b == 0 then 0 else (if a % 2 + b % 2 == 2 then 1 else 0) + 2 * And(a / 2, b / 2)
  }

  function Shl(a: nat, n: nat): nat
    decreases n
  {
    if n == 0 then a else 2 * Shl(a, n - 1)
  }

  function Shr(a: int, n: nat): int
    decreases n
  {
    if n == 0 then a else Shr(a / 2, n - 1)
  }

  /** The low `n` bits; for a negative number, those of its two's complement. */
  function Trunc(a: int, n: nat): nat
    decreases n
  {
    if n == 0 then 0 else a % 2 + 2 * Trunc(a / 2, n - 1)
  }

  /** Two's complement negation in `width` bits. */
  function Neg(a: nat, width: nat): nat
    requires a <= Pow2(width)
  {
    if a == 0 then 0 else Pow2(width) - a
  }

  /** Truncation is the remainder modulo 2^n: below 2^n, and the rest is a multiple of it. */
  lemma {:induction false} TruncIsRemainder(a: nat, n: nat)
    ensures Trunc(a, n) < Pow2(n) && Shr(a, n) >= 0 && a == Trunc(a, n) + Shl(Shr(a, n), n)
    decreases n
  {
    if n > 0 { TruncIsRemainder(a / 2, n - 1); }
  }

  lemma {:induction false} TruncSmall(a: nat, n: nat)
    requires a < Pow2(n)
    ensures Trunc(a, n) == a
    decreases n
  {
    if n > 0 { TruncSmall(a / 2, n - 1); }
  }

  /** Xor with the same operand twice gives the first operand back. */
  lemma {:induction false} XorTwice(a: nat, b: nat)
    ensures Xor(Xor(a, b), b) == a
    decreases a + b
  {
    if a != 0 || b != 0 {
      XorTwice(a / 2, b / 2);
      XorHalf(a, b, Xor(a, b));
      XorHalf(Xor(a, b), b, Xor(Xor(a, b), b));
    } else {
      assert Xor(0, 0) == 0;
    }
  }

  lemma XorHalf(a: nat, b: nat, x: nat)
    requires x == Xor(a, b)
    ensures x / 2 == Xor(a / 2, b / 2) && x % 2 == if a % 2 == b % 2 then 0 else 1
  {
  }

  /** Only zero leaves a number unchanged under xor. */
  lemma {:induction false} XorUnchanged(a: nat, b: nat)
    ensures Xor(a, b) == a <==> b == 0
    decreases a + b
  {
    if a != 0 || b != 0 {
      XorUnchanged(a / 2, b / 2);
      XorHalf(a, b, Xor(a, b));
    }
  }

  lemma {:induction false} XorBound(a: nat, b: nat, n: nat)
    requires a < Pow2(n) && b < Pow2(n)
    ensures Xor(a, b) < Pow2(n)
    decreases n
  {
    if n > 0 { XorBound(a / 2, b / 2, n - 1); }
  }

  lemma {:induction false} XorZero(a: nat)
    ensures Xor(a, 0) == a
  {
    if a > 0 { XorZero(a / 2); }
  }

  /** Xor with all ones is the complement. */
  lemma {:induction false} XorOnes(a: nat, n: nat)
    requires a < Pow2(n)
    ensures Xor(a, Pow2(n) - 1) == Pow2(n) - 1 - a
    decreases n
  {
    if n > 0 {
      XorOnes(a / 2, n - 1);
      XorHalf(a, Pow2(n) - 1, Xor(a, Pow2(n) - 1));
    }
  }

  lemma {:induction false} AndZero(a: nat)
    ensures And(a, 0) == 0
  {
    if a > 0 { AndZero(a / 2); }
  }

  /** And with `n` ones keeps the low `n` bits. */
  lemma {:induction false} AndOnes(a: nat, n: nat)
    ensures And(a, Pow2(n) - 1) == Trunc(a, n)
    decreases n
  {
    if n == 0 {
      AndZero(a);
    } else {
      AndOnes(a / 2, n - 1);
    }
  }

  lemma {:induction false} OrZero(a: nat)
    ensures Or(0, a) == a
  {
    if a > 0 { OrZero(a / 2); }
  }

  lemma {:induction false} OrBound(a: nat, b: nat, n: nat)
    requires a < Pow2(n) && b < Pow2(n)
    ensures Or(a, b) < Pow2(n)
    decreases n
  {
    if n > 0 { OrBound(a / 2, b / 2, n - 1); }
  }

  /** Or of parts that share no bit is their sum. */
  lemma {:induction false} OrDisjoint(a: nat, c: nat, n: nat)
    requires a < Pow2(n)
    ensures Or(a, Shl(c, n)) == a + Shl(c, n)
    decreases n
  {
    if n == 0 {
      OrZero(c);
    } else {
      OrDisjoint(a / 2, c, n - 1);
    }
  }

  /** Truncating a shifted number truncates it before the shift. */
  lemma {:induction false} TruncShl(c: nat, i: nat, width: nat)
    requires i <= width
    ensures Trunc(Shl(c, i), width) == Shl(Trunc(c, width - i), i)
    decreases i
  {
    if i > 0 { TruncShl(c, i - 1, width - 1); }
  }

  /** Low bits below the shift survive truncation untouched. */
  lemma {:induction false} TruncCarry(low: nat, m: nat, k: nat, n: nat)
    requires low < Pow2(k)
    ensures Trunc(low + Shl(m, k), k + n) == low + Shl(Trunc(m, n), k)
    decreases k
  {
    if k > 0 {
      TruncCarry(low / 2, m, k - 1, n);
      assert (low + Shl(m, k)) / 2 == low / 2 + Shl(m, k - 1);
    }
  }

  lemma {:induction false} ShlBound(c: nat, k: nat, i: nat)
    requires c < Pow2(k)
    ensures Shl(c, i) + Pow2(i) <= Pow2(k + i)
    decreases i
  {
    if i > 0 { ShlBound(c, k, i - 1); }
  }

  lemma {:induction false} ShlSum(a: nat, b: nat, i: nat)
    ensures Shl(a, i) + Shl(b, i) == Shl(a + b, i)
    decreases i
  {
    if i > 0 { ShlSum(a, b, i - 1); }
  }

  lemma {:induction false} ShlShl(a: nat, m: nat, n: nat)
    ensures Shl(Shl(a, m), n) == Shl(a, m + n)
    decreases n
  {
    if n > 0 { ShlShl(a, m, n - 1); }
  }

  lemma {:induction false} Pow2Mono(m: nat, n: nat)
    requires m <= n
    ensures Pow2(m) <= Pow2(n)
    decreases n
  {
    if m < n { Pow2Mono(m, n - 1); }
  }

  /** Seven bits: the group size of the variable-length integers. */
  lemma Seven(v: nat, n: nat)
    ensures Pow2(7) == 128 && Pow2(n + 7) == 128 * Pow2(n)
    ensures Trunc(v, 7) == v % 128 && Shr(v, 7) == v / 128 && Shl(v, 7) == 128 * v
  {
    TruncIsRemainder(v, 7);
    Pow2Seven(n);
    ShlSeven(v);
    ShrSeven(v);
    ShlSeven(v / 128);
  }

  lemma Pow2Seven(n: nat)
    ensures Pow2(n + 7) == 128 * Pow2(n) && Pow2(7) == 128
  {
    assert Pow2(n + 1) == 2 * Pow2(n) && Pow2(n + 2) == 2 * Pow2(n + 1) && Pow2(n + 3) == 2 * Pow2(n + 2);
    assert Pow2(n + 4) == 2 * Pow2(n + 3) && Pow2(n + 5) == 2 * Pow2(n + 4) && Pow2(n + 6) == 2 * Pow2(n + 5);
  }

  lemma ShlSeven(v: nat)
    ensures Shl(v, 7) == 128 * v
  {
    assert Shl(v, 3) == 8 * v;
    assert Shl(v, 5) == 32 * v;
  }

  lemma ShrSeven(v: nat)
    ensures Shr(v, 7) == v / 128
  {
    var h := v / 8;
    assert Shr(v, 7) == Shr(h, 4);
    assert Shr(h, 4) == h / 16;
  }
}
