/**
 * The instruction handlers the machine dispatches to: STOP, ADD, PUSH,
 * MSTORE, MSTORE8 and MLOAD, with their helpers. Unlike the older
 * arithmetic set, these handlers leave the program counter alone, except
 * PUSH, which steps it over the one immediate byte it reads.
 */
module LiveInstructions {
  import opened Words
  import opened Faults
  import opened Bits
  import opened Stacks
  import opened Memories
  import opened Machine
  import opened Steps
  import opened U256

  /**
   * PUSH: the byte after the opcode, pushed as a word; the counter moves
   * onto that byte; 3 gas. Reading past the end of the program faults.
   */
  function PushNStep(f: Frame, program: seq<Byte>): (r: (Frame, Outcome))
    ensures f.pc + 1 >= |program| ==> r == (f, Fail(IndexOutOfBounds))
    ensures r.1 == Pass <==> f.pc + 1 < |program| && |f.stack| < MAX_SIZE && 3 <= f.gas
    ensures r.1 == Pass ==>
      r.0 == f.(stack := f.stack + [program[f.pc + 1]], pc := f.pc + 1, gas := f.gas - 3)
    ensures f.pc + 1 < |program| && |f.stack| < MAX_SIZE && f.gas < 3 ==>
      r == (f.(stack := f.stack + [program[f.pc + 1]], pc := f.pc + 1), Fail(OutOfGas))
    ensures r.0.memory == f.memory
  {
    if f.pc + 1 >= |program| then (f, Fail(IndexOutOfBounds))
    else if |f.stack| >= MAX_SIZE then (f, Fail(StackOverflow))
    else Charge(f.(stack := f.stack + [program[f.pc + 1]], pc := f.pc + 1), 3)
  }

  /**
   * The frame after `store` writes the one cell `v` at `address`: memory
   * grows, then the cell is written and a flat 3 gas charged, or, when the
   * new size does not square within usize, the store faults after growing.
   */
  function StoreCell(f: Frame, address: nat, v: Word): (r: (Frame, Outcome))
    ensures r.0.stack == f.stack && r.0.pc == f.pc
    ensures r.1 == Pass <==> StoreCost(|f.memory|, address + 1).Ok? && 3 <= f.gas
    ensures r.1 == Pass ==> r.0.gas == f.gas - 3
    ensures StoreCost(|f.memory|, address + 1).Err? ==>
      r.1 == Fail(ArithmeticOverflow) && r.0.gas == f.gas &&
      r.0.memory == Grown(f.memory, address + 1, 0)
    ensures StoreCost(|f.memory|, address + 1).Ok? && f.gas < 3 ==>
      r == (f.(memory := Stored(f.memory, address, [v], 0)), Fail(OutOfGas))
  {
    match StoreCost(|f.memory|, address + 1)
    case Err(e) => (f.(memory := Grown(f.memory, address + 1, 0)), Fail(e))
    case Ok(_) => Charge(f.(memory := Stored(f.memory, address, [v], 0)), 3)
  }

  /**
   * A store that does not overflow leaves memory at its old size, at 32
   * cells for a small first store, or at the end of the write; the cell at
   * `address` holds `v` and every other cell its old value or zero.
   */
  lemma StoreCellWrites(f: Frame, address: nat, v: Word)
    requires StoreCost(|f.memory|, address + 1).Ok?
    ensures var m := StoreCell(f, address, v).0.memory;
      |m| == (if address + 1 < |f.memory| then |f.memory|
              else if |f.memory| == 0 && address + 1 < FIRST_ALLOCATION then FIRST_ALLOCATION
              else address + 1) &&
      m[address] == v &&
      forall i :: 0 <= i < |m| && i != address ==>
        m[i] == if i < |f.memory| then f.memory[i] else 0
  {
    var memory := Stored(f.memory, address, [v], 0);
    assert memory[address..address + 1] == [v];
  }

  /**
   * The frame after popping an address and a value and storing `cell` of
   * the value at the low 64 bits of the address; the cost `store` reports
   * is dropped.
   */
  function StoreStep(f: Frame, cell: Word -> Word): (r: (Frame, Outcome))
    ensures |f.stack| < 2 ==> r.1 == Fail(StackUnderflow) && r.0.memory == f.memory && r.0.gas == f.gas
    ensures 2 <= |f.stack| ==>
      r == StoreCell(f.(stack := f.stack[..|f.stack| - 2]), LowU64(Top(f.stack)), cell(Second(f.stack)))
  {
    var n := |f.stack|;
    if n == 0 then (f, Fail(StackUnderflow))
    else if n == 1 then (f.(stack := []), Fail(StackUnderflow))
    else StoreCell(f.(stack := f.stack[..n - 2]), LowU64(f.stack[n - 1]), cell(f.stack[n - 2]))
  }

  /** The word MSTORE writes: the value itself. */
  function WholeWord(value: Word): Word
  {
    value
  }

  /** The word MSTORE8 writes: `low_u64() & 0xFF`, the value's low byte. */
  function LowByte(value: Word): (r: Word)
    ensures r == value % 256
  {
    LowByteOfLowU64(value);
    And(LowU64(value), 0xFF)
  }

  /** Masking the low 64 bits with 0xFF keeps the lowest byte of the whole word. */
  lemma LowByteOfLowU64(value: Word)
    ensures And(LowU64(value), 0xFF) == value % 256
  {
    var m := LowU64(value);
    AndLowMask(m, 8);
    assert Pow2(8) == 256;
    var q := value / USIZE_LIMIT;
    assert value == USIZE_LIMIT * q + m;
    assert m == 256 * (m / 256) + m % 256;
    DivModUnique(value, 256, 0x100_0000_0000_0000 * q + m / 256, m % 256);
  }

  /** MLOAD: pops an address and pushes the cell there, growing memory by 32 cells. */
  function MLoadStep(f: Frame): (r: (Frame, Outcome))
    ensures |f.stack| == 0 ==> r == (f, Fail(StackUnderflow))
    ensures r.1 == Pass <==> 1 <= |f.stack| <= MAX_SIZE && Top(f.stack) < USIZE_LIMIT && 3 <= f.gas
    ensures r.1 == Pass ==>
      var address := Top(f.stack);
      r.0 == f.(stack := f.stack[..|f.stack| - 1] + [if address < |f.memory| then f.memory[address] else 0],
                memory := Grown(f.memory, address + 32, 0), gas := f.gas - 3)
    ensures 1 <= |f.stack| <= MAX_SIZE && Top(f.stack) < USIZE_LIMIT && f.gas < 3 ==>
      var address := Top(f.stack);
      r == (f.(stack := f.stack[..|f.stack| - 1] + [if address < |f.memory| then f.memory[address] else 0],
               memory := Grown(f.memory, address + 32, 0)), Fail(OutOfGas))
  {
    var n := |f.stack|;
    if n == 0 then (f, Fail(StackUnderflow))
    else
      var rest := f.stack[..n - 1];
      match AsUsize(f.stack[n - 1])
      case Err(e) => (f.(stack := rest), Fail(e))
      case Ok(address) =>
        var memory := Grown(f.memory, address + 32, 0);
        var value := memory[address];
        if |rest| >= MAX_SIZE then (f.(stack := rest, memory := memory), Fail(StackOverflow))
        else Charge(f.(stack := rest + [value], memory := memory), 3)
  }

  /**
   * `extract_u256`: the first cell of a successful load, if there is one.
   */
  function ExtractU256(result: Result<seq<Word>>): (r: Option<Word>)
    ensures r.Some? <==> result.Ok? && result.value != []
    ensures r.Some? ==> r.value == result.value[0]
  {
    match result
    case Ok(slice) => if |slice| > 0 then Some(slice[0]) else None
    case Err(_) => None
  }

  /** Sets the stop flag and nothing else. */
  method Stop(evm: EVM)
    modifies evm`stopFlag
    ensures evm.stopFlag
  {
    evm.stopFlag := true;
  }

  /** ADD: pushes `a + b`, faulting on overflow; 3 gas; the counter stays. */
  method Add(evm: EVM) returns (r: Outcome)
    requires evm.Valid()
    modifies evm`gas, evm.stack
    ensures evm.Valid()
    ensures (evm.CurrentFrame(), r) == Binary(old(evm.CurrentFrame()), CheckedAdd, 3, 0)
  {
    var a := evm.stack.Pop();
    if a.Err? { return Fail(a.fault); }
    var b := evm.stack.Pop();
    if b.Err? { return Fail(b.fault); }
    assert evm.stack.data == old(evm.stack.data)[..|old(evm.stack.data)| - 2];
    var v := CheckedAdd(a.value, b.value);
    if v.Err? { return Fail(v.fault); }
    var pushed := evm.stack.Push(v.value);
    if pushed.Fail? { return pushed; }
    r := evm.GasDecrease(3);
  }

  /** PUSH with a one-byte immediate. */
  method PushN(evm: EVM) returns (r: Outcome)
    requires evm.Valid()
    modifies evm`pc, evm`gas, evm.stack
    ensures evm.Valid()
    ensures (evm.CurrentFrame(), r) == PushNStep(old(evm.CurrentFrame()), evm.program)
  {
    if evm.pc + 1 >= |evm.program| {
      return Fail(IndexOutOfBounds);
    }
    var value := evm.program[evm.pc + 1];
    var pushed := evm.stack.Push(value);
    if pushed.Fail? { return pushed; }
    evm.pc := evm.pc + 1;
    r := evm.GasDecrease(3);
  }

  /** The tail MSTORE and MSTORE8 share: `store` of one cell, then 3 gas. */
  method StoreAndCharge(evm: EVM, address: Usize, v: Word) returns (r: Outcome)
    requires evm.Valid()
    modifies evm`gas, evm.memory
    ensures evm.Valid()
    ensures (evm.CurrentFrame(), r) == StoreCell(old(evm.CurrentFrame()), address, v)
  {
    var stored := evm.memory.Store(address, [v]);
    if stored.Err? { return Fail(stored.fault); }
    r := evm.GasDecrease(3);
  }

  /** MSTORE: pops an address, then a value, and stores the value in one cell. */
  method MStore(evm: EVM) returns (r: Outcome)
    requires evm.Valid()
    modifies evm`gas, evm.stack, evm.memory
    ensures evm.Valid()
    ensures (evm.CurrentFrame(), r) == StoreStep(old(evm.CurrentFrame()), WholeWord)
  {
    var address := evm.stack.Pop();
    if address.Err? { return Fail(address.fault); }
    var value := evm.stack.Pop();
    if value.Err? { return Fail(value.fault); }
    assert evm.stack.data == old(evm.stack.data)[..|old(evm.stack.data)| - 2];
    r := StoreAndCharge(evm, LowU64(address.value), value.value);
  }

  /** MSTORE8: pops an address, then a value, and stores the value's low byte. */
  method MStore8(evm: EVM) returns (r: Outcome)
    requires evm.Valid()
    modifies evm`gas, evm.stack, evm.memory
    ensures evm.Valid()
    ensures (evm.CurrentFrame(), r) == StoreStep(old(evm.CurrentFrame()), LowByte)
  {
    var address := evm.stack.Pop();
    if address.Err? { return Fail(address.fault); }
    var value := evm.stack.Pop();
    if value.Err? { return Fail(value.fault); }
    assert evm.stack.data == old(evm.stack.data)[..|old(evm.stack.data)| - 2];
    var byte := LowByte(value.value);
    r := StoreAndCharge(evm, LowU64(address.value), byte);
  }

  /** MLOAD: pops an address and pushes the first cell of the 32 loaded there. */
  method MLoad(evm: EVM) returns (r: Outcome)
    requires evm.Valid()
    modifies evm`gas, evm.stack, evm.memory
    ensures evm.Valid()
    ensures (evm.CurrentFrame(), r) == MLoadStep(old(evm.CurrentFrame()))
  {
    var address := evm.stack.Pop();
    if address.Err? { return Fail(address.fault); }
    var offset := AsUsize(address.value);
    if offset.Err? { return Fail(offset.fault); }
    var result := evm.memory.Load(offset.value);
    var item := ExtractU256(result);
    // a load always returns 32 cells, so the panic on `None` is unreachable
    assert item.Some?;
    var pushed := evm.stack.Push(item.value);
    if pushed.Fail? { return pushed; }
    r := evm.GasDecrease(3);
  }

  /** MSTORE pops the two words pushed for it and stores the second at the first. */
  lemma StoreStepOfPushed(f: Frame, address: Word, value: Word, cell: Word -> Word)
    ensures StoreStep(f.(stack := f.stack + [value, address]), cell) == StoreCell(f, LowU64(address), cell(value))
  {
    var s := f.stack + [value, address];
    assert Top(s) == address && Second(s) == value;
    assert s[..|s| - 2] == f.stack;
    assert f.(stack := f.stack) == f;
  }

  /** MLOAD right after a store of `value` at `address` pushes `value`. */
  lemma MLoadAfterStoreCell(f: Frame, address: Usize, value: Word)
    requires |f.stack| + 1 <= MAX_SIZE && 6 <= f.gas
    requires StoreCost(|f.memory|, address + 1).Ok?
    ensures var g := StoreCell(f, address, value).0;
      var h := MLoadStep(g.(stack := g.stack + [address]));
      h.1 == Pass && h.0.stack == f.stack + [value] && h.0.gas == f.gas - 6
  {
    var g := StoreCell(f, address, value).0;
    StoreCellWrites(f, address, value);
    assert address < |g.memory| && g.memory[address] == value;
    var t := g.stack + [address];
    assert Top(t) == address && t[..|t| - 1] == f.stack;
  }

  /**
   * MSTORE of `value` at `address` followed by MLOAD of the same address
   * gives `value` back, on top of the stack as it was, for 6 gas.
   */
  lemma MStoreThenMLoad(f: Frame, address: Word, value: Word)
    requires address < USIZE_LIMIT && |f.stack| + 2 <= MAX_SIZE && 6 <= f.gas
    requires StoreCost(|f.memory|, address + 1).Ok?
    ensures StoreStep(f.(stack := f.stack + [value, address]), WholeWord).1 == Pass
    ensures var g := StoreStep(f.(stack := f.stack + [value, address]), WholeWord).0;
      var h := MLoadStep(g.(stack := g.stack + [address]));
      h.1 == Pass && h.0.stack == f.stack + [value] && h.0.gas == f.gas - 6
  {
    DivModUnique(address, USIZE_LIMIT, 0, address);
    assert LowU64(address) == address;
    StoreStepOfPushed(f, address, value, WholeWord);
    MLoadAfterStoreCell(f, address, value);
  }

  /** `u32::from_be_bytes`: four bytes, most significant first. */
  function FromBeBytes(chunk: seq<Byte>): (r: U32)
    requires |chunk| == 4
    ensures r / 0x100_0000 == chunk[0] && r / 0x1_0000 % 0x100 == chunk[1]
    ensures r / 0x100 % 0x100 == chunk[2] && r % 0x100 == chunk[3]
  {
    var b0, b1, b2, b3 := chunk[0] as nat, chunk[1] as nat, chunk[2] as nat, chunk[3] as nat;
    var high := b0 * 0x100 + b1;
    var upper := high * 0x100 + b2;
    var r := upper * 0x100 + b3;
    DivModUnique(r, 0x100, upper, b3);
    DivModUnique(upper, 0x100, high, b2);
    DivModUnique(high, 0x100, b0, b1);
    DivModUnique(r, 0x1_0000, high, b2 * 0x100 + b3);
    DivModUnique(r, 0x100_0000, b0, b1 * 0x1_0000 + b2 * 0x100 + b3);
    r
  }

  /** `u32::to_be_bytes`. */
  function ToBeBytes(x: U32): (r: seq<Byte>)
    ensures |r| == 4 && FromBeBytes(r) == x
  {
    var x1 := x / 0x100;
    var x2 := x1 / 0x100;
    assert x == 0x100 * x1 + x % 0x100 && x1 == 0x100 * x2 + x1 % 0x100;
    assert x2 == 0x100 * (x2 / 0x100) + x2 % 0x100 && x2 < 0x1_0000;
    [x2 / 0x100, x2 % 0x100, x1 % 0x100, x % 0x100]
  }

  /**
   * `u8_to_u32_vec`: each chunk of four bytes as a big-endian u32. A short
   * last chunk makes `copy_from_slice` panic.
   */
  function U8ToU32Vec(data: seq<Byte>): (r: Result<seq<U32>>)
    ensures r.Ok? <==> |data| % 4 == 0
    ensures r.Err? ==> r.fault == LengthMismatch
    ensures r.Ok? ==> (4 * |r.value| == |data| &&
      forall i :: 0 <= i < |r.value| ==> r.value[i] == FromBeBytes(data[4 * i..4 * i + 4]))
  {
    if |data| == 0 then Ok([])
    else if |data| < 4 then Err(LengthMismatch)
    else match U8ToU32Vec(data[4..])
      case Err(e) => Err(e)
      case Ok(rest) =>
        assert forall i :: 1 <= i <= |rest| ==> data[4..][4 * (i - 1)..4 * (i - 1) + 4] == data[4 * i..4 * i + 4];
        Ok([FromBeBytes(data[..4])] + rest)
  }

  /** The bytes of each word in turn, most significant first. */
  function U32VecToU8(words: seq<U32>): (r: seq<Byte>)
    ensures |r| == 4 * |words|
  {
    if words == [] then [] else ToBeBytes(words[0]) + U32VecToU8(words[1..])
  }

  /** Splitting the big-endian bytes of a list of words gives the words back. */
  lemma {:induction false} U8ToU32VecRoundTrip(words: seq<U32>)
    ensures U8ToU32Vec(U32VecToU8(words)) == Ok(words)
  {
    if words != [] {
      var data := U32VecToU8(words);
      assert data[..4] == ToBeBytes(words[0]);
      assert data[4..] == U32VecToU8(words[1..]);
      U8ToU32VecRoundTrip(words[1..]);
      assert [words[0]] + words[1..] == words;
    }
  }
}
