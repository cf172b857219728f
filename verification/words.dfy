/**
 * Fixed-width integers of the interpreter, modelled as bounded naturals,
 * and the powers of two used to reason about them.
 */
module Words {

  const BYTE_LIMIT: nat := 0x100
  const U32_LIMIT: nat := 0x1_0000_0000
  /** usize on the 64-bit targets the interpreter is built for. */
  const USIZE_LIMIT: nat := 0x1_0000_0000_0000_0000
  const ADDRESS_LIMIT: nat := 0x1_0000_0000_0000_0000_0000_0000_0000_0000_0000_0000
  /** 2^256: one more than the largest Word. */
  const WORD_LIMIT: nat := 0x1_0000_0000_0000_0000_0000_0000_0000_0000_0000_0000_0000_0000_0000_0000_0000_0000

  type Byte = x: nat | x < BYTE_LIMIT
  type U32 = x: nat | x < U32_LIMIT
  type Usize = x: nat | x < USIZE_LIMIT
  type I32 = x: int | -0x8000_0000 <= x < 0x8000_0000
  /** An H160 account address. */
  type Address = x: nat | x < ADDRESS_LIMIT
  /** A U256: the value type of the stack, of memory cells and of storage. */
  type Word = x: nat | x < WORD_LIMIT

  function Pow2(n: nat): (r: nat)
    ensures r > 0
  {
    if n == 0 then 1 else 2 * Pow2(n - 1)
  }

  lemma {:induction false} Pow2Add(a: nat, b: nat)
    ensures Pow2(a + b) == Pow2(a) * Pow2(b)
  {
    if a > 0 {
      Pow2Add(a - 1, b);
      assert Pow2(a + b) == 2 * Pow2(a - 1 + b);
    }
  }

  lemma {:induction false} Pow2Increasing(a: nat, b: nat)
    requires a < b
    ensures Pow2(a) < Pow2(b)
  {
    if b - 1 > a {
      Pow2Increasing(a, b - 1);
    }
  }

  /** The 256-bit modulus is the 256th power of two. */
  lemma Pow2Word()
    ensures Pow2(256) == WORD_LIMIT
  {
    var p8 := Pow2(8);
    assert p8 == 0x100;
    Pow2Add(8, 8);
    var p16 := Pow2(16);
    assert p16 == p8 * p8 == 0x1_0000;
    Pow2Add(16, 16);
    var p32 := Pow2(32);
    assert p32 == p16 * p16 == 0x1_0000_0000;
    Pow2Add(32, 32);
    var p64 := Pow2(64);
    assert p64 == p32 * p32 == USIZE_LIMIT;
    Pow2Add(64, 64);
    var p128 := Pow2(128);
    assert p128 == p64 * p64 == 0x1_0000_0000_0000_0000_0000_0000_0000_0000;
    Pow2Add(128, 128);
    assert Pow2(256) == p128 * p128;
  }

  /** U256::low_u64: the low 64 bits of a word. */
  function LowU64(w: Word): Usize
  {
    w % USIZE_LIMIT
  }
}
