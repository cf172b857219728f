/**
 * The bitwise operators of U256 (`|`, `&`, `!`, `<<`, `bit`) on bounded
 * naturals, defined bit by bit from the least significant end.
 */
module Bits {
  import opened Words

  /** U256::bit: whether bit i (counting from the least significant) is set. */
  predicate Bit(x: nat, i: nat)
  {
    if i == 0 then x % 2 == 1 else Bit(x / 2, i - 1)
  }

  function Or(x: nat, y: nat): nat
    decreases x + y
  {
    if x == 0 then y
    else if y == 0 then x
    else 2 * Or(x / 2, y / 2) + (if x % 2 == 1 || y % 2 == 1 then 1 else 0)
  }

  function And(x: nat, y: nat): nat
    decreases x + y
  {
    if x == 0 || y == 0 then 0
    else 2 * And(x / 2, y / 2) + (if x % 2 == 1 && y % 2 == 1 then 1 else 0)
  }

  /** `!x` on a U256: every one of the 256 bits flipped. */
  function Not(x: Word): Word
  {
    WORD_LIMIT - 1 - x
  }

  /** `x << n` on a U256: bits shifted past bit 255 are dropped. */
  function Shl(x: Word, n: nat): Word
  {
    (x * Pow2(n)) % WORD_LIMIT
  }

  lemma {:induction false} NoBitOfZero(i: nat)
    ensures !Bit(0, i)
  {
    if i > 0 {
      NoBitOfZero(i - 1);
    }
  }

  /** A bit of `x | y` is set exactly when it is set in x or in y. */
  lemma {:induction false} BitOfOr(x: nat, y: nat, i: nat)
    ensures Bit(Or(x, y), i) <==> Bit(x, i) || Bit(y, i)
    decreases i
  {
    if x == 0 {
      NoBitOfZero(i);
    } else if y == 0 {
      NoBitOfZero(i);
    } else if i > 0 {
      var o := Or(x / 2, y / 2);
      assert Or(x, y) / 2 == o;
      BitOfOr(x / 2, y / 2, i - 1);
    }
  }

  /** A bit of `x & y` is set exactly when it is set in both x and y. */
  lemma {:induction false} BitOfAnd(x: nat, y: nat, i: nat)
    ensures Bit(And(x, y), i) <==> Bit(x, i) && Bit(y, i)
    decreases i
  {
    if x == 0 || y == 0 {
      NoBitOfZero(i);
    } else if i > 0 {
      var a := And(x / 2, y / 2);
      assert And(x, y) / 2 == a;
      BitOfAnd(x / 2, y / 2, i - 1);
    }
  }

  /** `|` of two n-bit numbers is an n-bit number. */
  lemma {:induction false} OrBelow(x: nat, y: nat, n: nat)
    requires x < Pow2(n) && y < Pow2(n)
    ensures Or(x, y) < Pow2(n)
    decreases n
  {
    if x != 0 && y != 0 {
      assert n > 0;
      OrBelow(x / 2, y / 2, n - 1);
    }
  }

  /** `x & y` never exceeds x. */
  lemma {:induction false} AndAtMost(x: nat, y: nat)
    ensures And(x, y) <= x
    decreases x + y
  {
    if x != 0 && y != 0 {
      AndAtMost(x / 2, y / 2);
    }
  }

  lemma MulMonotone(d: nat, a: nat, b: nat)
    requires a <= b
    ensures d * a <= d * b
  {
  }

  /** Division with remainder has one answer. */
  lemma DivModUnique(x: nat, d: nat, q: nat, r: nat)
    requires 0 < d && r < d && x == d * q + r
    ensures x / d == q && x % d == r
  {
    if q < x / d {
      MulMonotone(d, q + 1, x / d);
    } else if q > x / d {
      MulMonotone(d, x / d + 1, q);
    }
  }

  lemma ModOfDouble(x: nat, p: nat)
    requires p > 0
    ensures x % (2 * p) == 2 * ((x / 2) % p) + x % 2
  {
    var h := x / 2;
    assert h == p * (h / p) + h % p;
    assert x == (2 * p) * (h / p) + (2 * (h % p) + x % 2);
    DivModUnique(x, 2 * p, h / p, 2 * (h % p) + x % 2);
  }

  lemma AndOddMask(x: nat, p: nat)
    requires x != 0 && p > 0
    ensures And(x, 2 * p - 1) == 2 * And(x / 2, p - 1) + x % 2
  {
    var m := 2 * p - 1;
    assert m / 2 == p - 1 && m % 2 == 1;
  }

  /** Masking with k low ones keeps the value modulo 2^k (`x & 0xFF` is `x % 256`). */
  lemma {:induction false} AndLowMask(x: nat, k: nat)
    ensures And(x, Pow2(k) - 1) == x % Pow2(k)
    decreases k
  {
    if k == 0 {
      assert And(x, 0) == 0;
    } else if x == 0 {
      assert And(0, Pow2(k) - 1) == 0;
    } else {
      var p := Pow2(k - 1);
      assert Pow2(k) == 2 * p;
      AndOddMask(x, p);
      AndLowMask(x / 2, k - 1);
      ModOfDouble(x, p);
      assert And(x, Pow2(k) - 1) == 2 * ((x / 2) % p) + x % 2;
    }
  }

  /** Shifting one left by fewer than 256 places gives that power of two. */
  lemma ShlOne(n: nat)
    requires n < 256
    ensures Shl(1, n) == Pow2(n)
  {
    Pow2Increasing(n, 256);
    Pow2Word();
  }
}
