/**
 * Reference semantics from the Ethereum Yellow Paper (appendix H, the
 * arithmetic instructions, and appendix H.1, the memory expansion fee),
 * and how the handlers compare with them. In the paper, s0 is the top of
 * the stack (the first value popped), s1 the next and s2 the one below;
 * results wrap modulo 2^256 and a zero divisor gives 0.
 */
module YellowPaper {
  import opened Words
  import opened Faults
  import opened Bits
  import opened U256
  import MemoryCost
  import Handlers = ArithmeticInstructions

  const HALF_WORD: nat := 0x8000_0000_0000_0000_0000_0000_0000_0000_0000_0000_0000_0000_0000_0000_0000_0000

  lemma HalfWord()
    ensures Pow2(255) == HALF_WORD && 2 * HALF_WORD == WORD_LIMIT
  {
    Pow2Word();
  }

  /** The two's-complement reading of a word. */
  function Signed(x: Word): (v: int)
    ensures -(HALF_WORD as int) <= v < HALF_WORD
    ensures v % WORD_LIMIT == x
  {
    if x < HALF_WORD then x else x - WORD_LIMIT
  }

  function Abs(v: int): nat
  {
    if v < 0 then -v else v
  }

  /** Division rounding toward zero. */
  function TruncDiv(a: int, b: int): int
    requires b != 0
  {
    var q := Abs(a) / Abs(b);
    if (a < 0) == (b < 0) then q else -q
  }

  /** The remainder of TruncDiv, carrying the sign of the dividend. */
  function TruncRem(a: int, b: int): int
    requires b != 0
  {
    var m := Abs(a) % Abs(b);
    if a < 0 then -m else m
  }

  /** Truncating division and its remainder put the dividend back together. */
  lemma TruncDivRem(a: int, b: int)
    requires b != 0
    ensures TruncDiv(a, b) * b + TruncRem(a, b) == a
    ensures Abs(TruncRem(a, b)) < Abs(b)
  {
    var q := Abs(a) / Abs(b);
    var m := Abs(a) % Abs(b);
    assert Abs(a) == q * Abs(b) + m;
    if a < 0 && b < 0 {
      assert TruncDiv(a, b) * b == q * b;
    } else if a < 0 {
      assert TruncDiv(a, b) * b == -q * b;
    } else if b < 0 {
      assert TruncDiv(a, b) * b == -q * b;
    }
  }

  function Add(s0: Word, s1: Word): Word
  {
    (s0 + s1) % WORD_LIMIT
  }

  function Mul(s0: Word, s1: Word): Word
  {
    (s0 * s1) % WORD_LIMIT
  }

  function Sub(s0: Word, s1: Word): Word
  {
    (s0 - s1) % WORD_LIMIT
  }

  function Div(s0: Word, s1: Word): Word
  {
    if s1 == 0 then 0 else s0 / s1
  }

  function SDiv(s0: Word, s1: Word): Word
  {
    if s1 == 0 then 0 else TruncDiv(Signed(s0), Signed(s1)) % WORD_LIMIT
  }

  function Mod(s0: Word, s1: Word): Word
  {
    if s1 == 0 then 0 else s0 % s1
  }

  function SMod(s0: Word, s1: Word): Word
  {
    if s1 == 0 then 0 else TruncRem(Signed(s0), Signed(s1)) % WORD_LIMIT
  }

  function AddMod(s0: Word, s1: Word, s2: Word): Word
  {
    if s2 == 0 then 0 else (s0 + s1) % s2
  }

  function MulMod(s0: Word, s1: Word, s2: Word): Word
  {
    if s2 == 0 then 0 else (s0 * s1) % s2
  }

  function Exp(s0: Word, s1: Word): Word
  {
    Pow(s0, s1) % WORD_LIMIT
  }

  /**
   * SIGNEXTEND: byte s0 of s1 is the sign byte; its top bit is copied into
   * every higher bit. From s0 = 31 on, the value is unchanged.
   */
  function SignExtend(s0: Word, s1: Word): (r: Word)
    ensures s0 >= 31 ==> r == s1
  {
    if s0 >= 31 then s1
    else
      var k := 8 * (s0 + 1);
      Pow2Increasing(k, 256);
      Pow2Word();
      var low := s1 % Pow2(k);
      if low >= Pow2(k - 1) then WORD_LIMIT - Pow2(k) + low else low
  }

  /**
   * A negative `k`-bit value `low`, widened to 256 bits, keeps its low `k`
   * bits and has its top bit set.
   */
  lemma {:induction false} WidenedNegative(k: nat, low: nat)
    requires 1 <= k < 256 && Pow2(k - 1) <= low < Pow2(k)
    ensures Pow2(k) <= WORD_LIMIT
    ensures (WORD_LIMIT - Pow2(k) + low) % Pow2(k) == low
    ensures WORD_LIMIT - Pow2(k) + low >= HALF_WORD
  {
    var p := Pow2(k);
    HalfWord();
    Pow2Add(k, 256 - k);
    assert WORD_LIMIT == p * Pow2(256 - k);
    assert WORD_LIMIT - p + low == p * (Pow2(256 - k) - 1) + low;
    DivModUnique(WORD_LIMIT - p + low, p, Pow2(256 - k) - 1, low);
    assert p == 2 * Pow2(k - 1);
    if k - 1 < 255 {
      Pow2Increasing(k - 1, 255);
    }
  }

  /**
   * Sign extension keeps the low s0+1 bytes and reads, as a signed word,
   * as those bytes read as a signed number of that width.
   */
  lemma SignExtendKeepsSignedValue(s0: Word, s1: Word)
    requires s0 < 31
    ensures var k := 8 * (s0 + 1);
      var low := s1 % Pow2(k);
      SignExtend(s0, s1) % Pow2(k) == low &&
      Signed(SignExtend(s0, s1)) == if low >= Pow2(k - 1) then low - Pow2(k) else low
  {
    var k := 8 * (s0 + 1);
    var p := Pow2(k);
    var low := s1 % p;
    var r := SignExtend(s0, s1);
    if low >= Pow2(k - 1) {
      WidenedNegative(k, low);
      assert r == WORD_LIMIT - p + low;
    } else {
      HalfWord();
      Pow2Increasing(k - 1, 255);
      assert r == low < HALF_WORD;
      DivModUnique(r, p, 0, low);
    }
  }

  /** The memory fee of `w` words: 3 per word plus w^2/512 rounded down. */
  function MemoryFee(w: nat): (r: nat)
    ensures MemoryCost.G_MEMORY * w <= r
    ensures MemoryCost.QUADRATIC_DIVISOR * (r - MemoryCost.G_MEMORY * w) <= w * w
    ensures w * w < MemoryCost.QUADRATIC_DIVISOR * (r - MemoryCost.G_MEMORY * w + 1)
  {
    MemoryCost.G_MEMORY * w + w * w / MemoryCost.QUADRATIC_DIVISOR
  }

  /** Wrapping subtraction undoes wrapping addition, and the other way round. */
  lemma AddSubInverse(a: Word, b: Word)
    ensures Sub(Add(a, b), b) == a
    ensures Add(Sub(a, b), b) == a
  {
    if a + b < WORD_LIMIT {
      assert Add(a, b) == a + b;
    } else {
      assert Add(a, b) == a + b - WORD_LIMIT;
      assert (a - WORD_LIMIT) % WORD_LIMIT == a;
    }
    if a < b {
      assert Sub(a, b) == a - b + WORD_LIMIT;
    } else {
      assert Sub(a, b) == a - b;
    }
  }

  // How the handlers compare.

  /** ADD agrees with the paper until the sum overflows, where it faults instead of wrapping. */
  lemma AddAgrees(a: Word, b: Word)
    ensures CheckedAdd(a, b) == if a + b < WORD_LIMIT then Ok(Add(a, b)) else Err(ArithmeticOverflow)
    ensures CheckedAdd(a, b) == CheckedAdd(b, a)
  {
  }

  /** MUL agrees with the paper until the product overflows. */
  lemma MulAgrees(a: Word, b: Word)
    ensures CheckedMul(a, b) == if a * b < WORD_LIMIT then Ok(Mul(a, b)) else Err(ArithmeticOverflow)
  {
  }

  /** SUB computes the paper's SUB with the operands swapped, and faults below zero. */
  lemma SubSwapsOperands(a: Word, b: Word)
    ensures Handlers.SubResult(a, b) == if a <= b then Ok(Sub(b, a)) else Err(ArithmeticUnderflow)
  {
  }

  /** With 1 on top of 3, SUB pushes 2 where the paper gives 1 - 3 = 2^256 - 2. */
  lemma SubOrderCounterexample()
    ensures Handlers.SubResult(1, 3) == Ok(2)
    ensures Sub(1, 3) == WORD_LIMIT - 2
  {
  }

  /** Pushing `b` on a sum and subtracting gives the first addend back. */
  lemma AddThenSub(a: Word, b: Word)
    requires CheckedAdd(a, b).Ok?
    ensures Handlers.SubResult(b, CheckedAdd(a, b).value) == Ok(a)
  {
  }

  /** DIV divides the second entry by the top, and faults on a zero divisor. */
  lemma DivSwapsOperands(a: Word, b: Word)
    ensures Handlers.DivResult(a, b) == if a == 0 then Err(DivisionByZero) else Ok(Div(b, a))
  {
  }

  /** MOD likewise. */
  lemma ModSwapsOperands(a: Word, b: Word)
    ensures Handlers.ModResult(a, b) == if a == 0 then Err(DivisionByZero) else Ok(Mod(b, a))
  {
  }

  /** SDIV is unsigned: -2 / 2 gives 2^255 - 1 where the paper gives -1. */
  lemma SDivIsUnsigned()
    ensures Handlers.DivResult(2, WORD_LIMIT - 2) == Ok(HALF_WORD - 1)
    ensures SDiv(WORD_LIMIT - 2, 2) == WORD_LIMIT - 1
  {
    HalfWord();
  }

  /** SMOD is unsigned: -1 mod 3 gives 0 where the paper gives -1. */
  lemma SModIsUnsigned()
    ensures Handlers.ModResult(3, WORD_LIMIT - 1) == Ok(0)
    ensures SMod(WORD_LIMIT - 1, 3) == WORD_LIMIT - 1
  {
    HalfWord();
  }

  /**
   * ADDMOD takes the modulus from the top and adds the next two, where the
   * paper adds the top two and takes the modulus from the third; it also
   * faults when the sum overflows, which the paper computes exactly.
   */
  lemma AddModSwapsOperands(a: Word, b: Word, c: Word)
    ensures Handlers.AddModResult(a, b, c) ==
      if b + c >= WORD_LIMIT then Err(ArithmeticOverflow)
      else if a == 0 then Err(DivisionByZero)
      else Ok(AddMod(b, c, a))
  {
  }

  /** MULMOD likewise, with the product. */
  lemma MulModSwapsOperands(a: Word, b: Word, c: Word)
    ensures Handlers.MulModResult(a, b, c) ==
      if b * c >= WORD_LIMIT then Err(ArithmeticOverflow)
      else if a == 0 then Err(DivisionByZero)
      else Ok(MulMod(b, c, a))
  {
  }

  /**
   * EXP raises the second entry to the top one truncated to 32 bits, and
   * faults where the paper wraps.
   */
  lemma ExpSwapsOperands(a: Word, b: Word)
    ensures Handlers.ExpResult(a, b) ==
      if Pow(b, a % U32_LIMIT) >= WORD_LIMIT then Err(ArithmeticOverflow) else Ok(Exp(b, a % U32_LIMIT))
  {
  }

  /** With 3 on top of 2, EXP pushes 2^3 = 8 where the paper gives 3^2 = 9. */
  lemma ExpOrderCounterexample()
    ensures Handlers.ExpResult(3, 2) == Ok(8)
    ensures Exp(3, 2) == 9
  {
  }

  /** Sign extension of 0x7F from byte 0 keeps 0x7F; the handler's version gives 1. */
  lemma SignExtendCounterexample()
    ensures SignExtend(0, 0x7F) == 0x7F
    ensures Handlers.SignExtendResult(0, 0x7F) == Ok(1)
  {
    assert Pow2(7) == 0x80 && Pow2(8) == 0x100;
    assert SignExtend(0, 0x7F) == 0x7F % 0x100 == 0x7F;
    Handlers.ExtendSignMirrored();
  }

  /**
   * The fee charged rounds the quadratic term up where the paper rounds it
   * down: the two differ by one exactly when w^2 is not a multiple of 512.
   */
  lemma CalcMemExpCostRoundsUp(size: Usize)
    requires MemoryCost.CalcMemExpCost(size).Ok?
    ensures var w := MemoryCost.WordCount(size);
      MemoryCost.CalcMemExpCost(size).value ==
        MemoryFee(w) + if w * w % MemoryCost.QUADRATIC_DIVISOR == 0 then 0 else 1
  {
  }

  /** One word of memory: 4 gas charged, 3 in the paper. */
  lemma OneWordCounterexample()
    ensures MemoryCost.CalcMemExpCost(32) == Ok(4)
    ensures MemoryFee(MemoryCost.WordCount(32)) == 3
  {
  }
}
