/**
 * The older set of instruction handlers: stop and the arithmetic family.
 * Each binary handler pops `a` (the top) and then `b`, pushes one result,
 * advances the program counter by one and charges its gas; ADDMOD and
 * MULMOD pop a third operand `c`. The operators are U256's checked ones.
 */
module ArithmeticInstructions {
  import opened Words
  import opened Faults
  import opened Bits
  import opened U256
  import opened Machine
  import opened Steps

  // What each handler pushes, with `a` the first value popped (the top),
  // `b` the second and `c` the third.

  /** `b - a`: the second entry minus the top. */
  function SubResult(a: Word, b: Word): Result<Word>
  {
    CheckedSub(b, a)
  }

  /** `b / a`. */
  function DivResult(a: Word, b: Word): Result<Word>
  {
    CheckedDiv(b, a)
  }

  /** `b % a`. */
  function ModResult(a: Word, b: Word): Result<Word>
  {
    CheckedRem(b, a)
  }

  /** `(b + c) % a`: the modulus is the top entry. */
  function AddModResult(a: Word, b: Word, c: Word): Result<Word>
  {
    match CheckedAdd(b, c)
    case Err(e) => Err(e)
    case Ok(sum) => CheckedRem(sum, a)
  }

  /** `(b * c) % a`: the modulus is the top entry. */
  function MulModResult(a: Word, b: Word, c: Word): Result<Word>
  {
    match CheckedMul(b, c)
    case Err(e) => Err(e)
    case Ok(product) => CheckedRem(product, a)
  }

  /** `b.pow(a as u32)`: the exponent is the low 32 bits of the top entry. */
  function ExpResult(a: Word, b: Word): Result<Word>
  {
    CheckedPow(b, a % U32_LIMIT)
  }

  /**
   * `extend_sign(num, b)` as written. Past the `as_usize` conversion of `b`
   * and the `b >= 32` early return, it tests bit 8b+7 of `num` and then ORs
   * in the low (31-b)*8+7 bits, or ANDs with the complement of bits
   * 1..(31-b)*8+7.
   */
  function ExtendSign(num: Word, b: Word): (r: Result<Word>)
    ensures r.Err? <==> b >= USIZE_LIMIT
    ensures 32 <= b < USIZE_LIMIT ==> r == Ok(num)
  {
    match AsUsize(b)
    case Err(e) => Err(e)
    case Ok(b) =>
      if b >= 32 then Ok(num)
      else
        var bitIndex := b * 8 + 7;
        var width := (32 - b - 1) * 8 + 7;
        ShlOne(width);
        var low: Word := Shl(1, width) - 1;
        if Bit(num, bitIndex) then
          Pow2Word();
          OrBelow(num, low, 256);
          Ok(Or(num, low))
        else
          var mask := Not(Shl(low, 1));
          AndAtMost(num, mask);
          Ok(And(num, mask))
  }

  /** SIGNEXTEND pops the byte index `b` first, then `num`. */
  function SignExtendResult(b: Word, num: Word): Result<Word>
  {
    ExtendSign(num, b)
  }

  /**
   * When the sign bit 8b+7 of `num` is set, the result keeps every bit of
   * `num` (the OR branch); otherwise it sets no bit `num` lacks (the AND
   * branch).
   */
  lemma ExtendSignBits(num: Word, b: Word)
    requires b < 32
    ensures ExtendSign(num, b).Ok?
    ensures Bit(num, 8 * b + 7) ==> forall i :: Bit(num, i) ==> Bit(ExtendSign(num, b).value, i)
    ensures !Bit(num, 8 * b + 7) ==> forall i :: Bit(ExtendSign(num, b).value, i) ==> Bit(num, i)
  {
    var width := (32 - b - 1) * 8 + 7;
    ShlOne(width);
    var low: Word := Shl(1, width) - 1;
    var r := ExtendSign(num, b).value;
    if Bit(num, 8 * b + 7) {
      assert r == Or(num, low);
      forall i | Bit(num, i) ensures Bit(r, i) {
        BitOfOr(num, low, i);
      }
    } else {
      var mask := Not(Shl(low, 1));
      assert r == And(num, mask);
      forall i | Bit(r, i) ensures Bit(num, i) {
        BitOfAnd(num, mask, i);
      }
    }
  }

  /**
   * The masks are mirrored: with b = 0 and num = 0x7F (sign bit 7 clear)
   * every bit above bit 0 is cleared, so the result is 1 where sign
   * extension keeps 0x7F.
   */
  lemma ExtendSignMirrored()
    ensures ExtendSign(0x7F, 0) == Ok(1)
  {
    var p := Pow2(255);
    ShlOne(255);
    assert Pow2(256) == 2 * p;
    Pow2Word();
    var low := p - 1;
    assert !Bit(0x7F, 7);
    assert Shl(low, 1) == WORD_LIMIT - 2;
    assert Not(WORD_LIMIT - 2) == 1;
    assert And(0x7F, 1) == 1;
  }

  /** Sets the stop flag and nothing else. */
  method Stop(evm: EVM)
    modifies evm`stopFlag
    ensures evm.stopFlag
  {
    evm.stopFlag := true;
  }

  /** ADD: pushes `a + b`, faulting on overflow; 3 gas. */
  method Add(evm: EVM) returns (r: Outcome)
    requires evm.Valid()
    modifies evm`pc, evm`gas, evm.stack
    ensures evm.Valid()
    ensures (evm.CurrentFrame(), r) == Binary(old(evm.CurrentFrame()), CheckedAdd, 3, 1)
  {
    var a := evm.stack.Pop();
    if a.Err? { return Fail(a.fault); }
    var b := evm.stack.Pop();
    if b.Err? { return Fail(b.fault); }
    assert evm.stack.data == old(evm.stack.data)[..|old(evm.stack.data)| - 2];
    var v := CheckedAdd(a.value, b.value);
    if v.Err? { return Fail(v.fault); }
    var pushed := evm.stack.Push(v.value);
    if pushed.Fail? { return pushed; }
    evm.pc := evm.pc + 1;
    r := evm.GasDecrease(3);
  }

  /** MUL: pushes `a * b`, faulting on overflow; 5 gas. */
  method Mul(evm: EVM) returns (r: Outcome)
    requires evm.Valid()
    modifies evm`pc, evm`gas, evm.stack
    ensures evm.Valid()
    ensures (evm.CurrentFrame(), r) == Binary(old(evm.CurrentFrame()), CheckedMul, 5, 1)
  {
    var a := evm.stack.Pop();
    if a.Err? { return Fail(a.fault); }
    var b := evm.stack.Pop();
    if b.Err? { return Fail(b.fault); }
    assert evm.stack.data == old(evm.stack.data)[..|old(evm.stack.data)| - 2];
    var v := CheckedMul(a.value, b.value);
    if v.Err? { return Fail(v.fault); }
    var pushed := evm.stack.Push(v.value);
    if pushed.Fail? { return pushed; }
    evm.pc := evm.pc + 1;
    r := evm.GasDecrease(5);
  }

  /** SUB: pushes `b - a`, faulting when `a > b`; 3 gas. */
  method Sub(evm: EVM) returns (r: Outcome)
    requires evm.Valid()
    modifies evm`pc, evm`gas, evm.stack
    ensures evm.Valid()
    ensures (evm.CurrentFrame(), r) == Binary(old(evm.CurrentFrame()), SubResult, 3, 1)
  {
    var a := evm.stack.Pop();
    if a.Err? { return Fail(a.fault); }
    var b := evm.stack.Pop();
    if b.Err? { return Fail(b.fault); }
    assert evm.stack.data == old(evm.stack.data)[..|old(evm.stack.data)| - 2];
    var v := SubResult(a.value, b.value);
    if v.Err? { return Fail(v.fault); }
    var pushed := evm.stack.Push(v.value);
    if pushed.Fail? { return pushed; }
    evm.pc := evm.pc + 1;
    r := evm.GasDecrease(3);
  }

  /** DIV: pushes `b / a`, faulting when `a == 0`; 5 gas. */
  method Div(evm: EVM) returns (r: Outcome)
    requires evm.Valid()
    modifies evm`pc, evm`gas, evm.stack
    ensures evm.Valid()
    ensures (evm.CurrentFrame(), r) == Binary(old(evm.CurrentFrame()), DivResult, 5, 1)
  {
    var a := evm.stack.Pop();
    if a.Err? { return Fail(a.fault); }
    var b := evm.stack.Pop();
    if b.Err? { return Fail(b.fault); }
    assert evm.stack.data == old(evm.stack.data)[..|old(evm.stack.data)| - 2];
    var v := DivResult(a.value, b.value);
    if v.Err? { return Fail(v.fault); }
    var pushed := evm.stack.Push(v.value);
    if pushed.Fail? { return pushed; }
    evm.pc := evm.pc + 1;
    r := evm.GasDecrease(5);
  }

  /** SDIV: the same unsigned `b / a` as DIV; 5 gas. */
  method SDiv(evm: EVM) returns (r: Outcome)
    requires evm.Valid()
    modifies evm`pc, evm`gas, evm.stack
    ensures evm.Valid()
    ensures (evm.CurrentFrame(), r) == Binary(old(evm.CurrentFrame()), DivResult, 5, 1)
  {
    var a := evm.stack.Pop();
    if a.Err? { return Fail(a.fault); }
    var b := evm.stack.Pop();
    if b.Err? { return Fail(b.fault); }
    assert evm.stack.data == old(evm.stack.data)[..|old(evm.stack.data)| - 2];
    var v := DivResult(a.value, b.value);
    if v.Err? { return Fail(v.fault); }
    var pushed := evm.stack.Push(v.value);
    if pushed.Fail? { return pushed; }
    evm.pc := evm.pc + 1;
    r := evm.GasDecrease(5);
  }

  /** MOD: pushes `b % a`, faulting when `a == 0`; 5 gas. */
  method Mod(evm: EVM) returns (r: Outcome)
    requires evm.Valid()
    modifies evm`pc, evm`gas, evm.stack
    ensures evm.Valid()
    ensures (evm.CurrentFrame(), r) == Binary(old(evm.CurrentFrame()), ModResult, 5, 1)
  {
    var a := evm.stack.Pop();
    if a.Err? { return Fail(a.fault); }
    var b := evm.stack.Pop();
    if b.Err? { return Fail(b.fault); }
    assert evm.stack.data == old(evm.stack.data)[..|old(evm.stack.data)| - 2];
    var v := ModResult(a.value, b.value);
    if v.Err? { return Fail(v.fault); }
    var pushed := evm.stack.Push(v.value);
    if pushed.Fail? { return pushed; }
    evm.pc := evm.pc + 1;
    r := evm.GasDecrease(5);
  }

  /** SMOD: the same unsigned `b % a` as MOD; 5 gas. */
  method SMod(evm: EVM) returns (r: Outcome)
    requires evm.Valid()
    modifies evm`pc, evm`gas, evm.stack
    ensures evm.Valid()
    ensures (evm.CurrentFrame(), r) == Binary(old(evm.CurrentFrame()), ModResult, 5, 1)
  {
    var a := evm.stack.Pop();
    if a.Err? { return Fail(a.fault); }
    var b := evm.stack.Pop();
    if b.Err? { return Fail(b.fault); }
    assert evm.stack.data == old(evm.stack.data)[..|old(evm.stack.data)| - 2];
    var v := ModResult(a.value, b.value);
    if v.Err? { return Fail(v.fault); }
    var pushed := evm.stack.Push(v.value);
    if pushed.Fail? { return pushed; }
    evm.pc := evm.pc + 1;
    r := evm.GasDecrease(5);
  }

  /** ADDMOD: pushes `(b + c) % a`; 8 gas. */
  method AddMod(evm: EVM) returns (r: Outcome)
    requires evm.Valid()
    modifies evm`pc, evm`gas, evm.stack
    ensures evm.Valid()
    ensures (evm.CurrentFrame(), r) == Ternary(old(evm.CurrentFrame()), AddModResult, 8, 1)
  {
    var a := evm.stack.Pop();
    if a.Err? { return Fail(a.fault); }
    var b := evm.stack.Pop();
    if b.Err? { return Fail(b.fault); }
    var c := evm.stack.Pop();
    if c.Err? { return Fail(c.fault); }
    assert evm.stack.data == old(evm.stack.data)[..|old(evm.stack.data)| - 3];
    var v := AddModResult(a.value, b.value, c.value);
    if v.Err? { return Fail(v.fault); }
    var pushed := evm.stack.Push(v.value);
    if pushed.Fail? { return pushed; }
    evm.pc := evm.pc + 1;
    r := evm.GasDecrease(8);
  }

  /** MULMOD: pushes `(b * c) % a`; 8 gas. */
  method MulMod(evm: EVM) returns (r: Outcome)
    requires evm.Valid()
    modifies evm`pc, evm`gas, evm.stack
    ensures evm.Valid()
    ensures (evm.CurrentFrame(), r) == Ternary(old(evm.CurrentFrame()), MulModResult, 8, 1)
  {
    var a := evm.stack.Pop();
    if a.Err? { return Fail(a.fault); }
    var b := evm.stack.Pop();
    if b.Err? { return Fail(b.fault); }
    var c := evm.stack.Pop();
    if c.Err? { return Fail(c.fault); }
    assert evm.stack.data == old(evm.stack.data)[..|old(evm.stack.data)| - 3];
    var v := MulModResult(a.value, b.value, c.value);
    if v.Err? { return Fail(v.fault); }
    var pushed := evm.stack.Push(v.value);
    if pushed.Fail? { return pushed; }
    evm.pc := evm.pc + 1;
    r := evm.GasDecrease(8);
  }

  /** EXP: pushes `b` to the power of the low 32 bits of `a`; 10 gas. */
  method Exp(evm: EVM) returns (r: Outcome)
    requires evm.Valid()
    modifies evm`pc, evm`gas, evm.stack
    ensures evm.Valid()
    ensures (evm.CurrentFrame(), r) == Binary(old(evm.CurrentFrame()), ExpResult, 10, 1)
  {
    var a := evm.stack.Pop();
    if a.Err? { return Fail(a.fault); }
    var b := evm.stack.Pop();
    if b.Err? { return Fail(b.fault); }
    assert evm.stack.data == old(evm.stack.data)[..|old(evm.stack.data)| - 2];
    var v := ExpResult(a.value, b.value);
    if v.Err? { return Fail(v.fault); }
    var pushed := evm.stack.Push(v.value);
    if pushed.Fail? { return pushed; }
    evm.pc := evm.pc + 1;
    r := evm.GasDecrease(10);
  }

  /** SIGNEXTEND: pops `b`, then `num`, pushes `extend_sign(num, b)`; 5 gas. */
  method SignExtend(evm: EVM) returns (r: Outcome)
    requires evm.Valid()
    modifies evm`pc, evm`gas, evm.stack
    ensures evm.Valid()
    ensures (evm.CurrentFrame(), r) == Binary(old(evm.CurrentFrame()), SignExtendResult, 5, 1)
  {
    var b := evm.stack.Pop();
    if b.Err? { return Fail(b.fault); }
    var num := evm.stack.Pop();
    if num.Err? { return Fail(num.fault); }
    assert evm.stack.data == old(evm.stack.data)[..|old(evm.stack.data)| - 2];
    var v := ExtendSign(num.value, b.value);
    if v.Err? { return Fail(v.fault); }
    var pushed := evm.stack.Push(v.value);
    if pushed.Fail? { return pushed; }
    evm.pc := evm.pc + 1;
    r := evm.GasDecrease(5);
  }
}
