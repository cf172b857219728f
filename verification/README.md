# rtevm core, modelled in Dafny

This project models the core of rtevm, a small Ethereum Virtual Machine
written in Rust. It covers:

- the operand stack (`src/stack.rs`);
- the growable scratch memory (`src/memory.rs`);
- persistent storage with its warm-key cache (`src/storage.rs`);
- transient storage (`src/transient.rs`);
- the machine state and its gas meter (`src/evm.rs`);
- the opcode table and byte decoder (`src/opcodes.rs`);
- the memory-expansion fee (`src/helper.rs`);
- the live instruction handlers STOP, ADD, PUSH, MSTORE, MSTORE8 and MLOAD
  (`src/evm/opcode_instructions.rs`);
- the older arithmetic handlers STOP, ADD to SIGNEXTEND
  (`src/opcode_instructions.rs`).

Each part takes the form the Rust code has.

- **Stateful parts are classes.** The stack, memory, storage, transient
  storage and the machine are classes whose methods update fields in place,
  with `modifies` frames.
- **Handlers are methods that take the machine.** Each handler is a
  module-level method with an `evm: EVM` parameter, as in the Rust code.
  Every handler except STOP is proved equal to a step function on a
  `Frame`, the value of the stack, memory, program counter and gas. STOP
  sets the stop flag and its contract says it changes nothing else.
- **Decoders and helpers are functions.** The decoder, the fee, `extend_sign`,
  `extract_u256` and `u8_to_u32_vec` are functions with lemmas.

The modelling conventions are:

- **Panics are faults.** Every Rust panic becomes a returned fault: a
  `Result` or `Outcome` carrying a `Fault`. The state after a fault keeps
  whatever the handler had already changed. Gas is charged last, so an
  out-of-gas fault comes after the stack and memory have changed.
- **U256 operators are checked.** The `ethereum_types::U256` operators
  `+ - * / % pow` fault on overflow, underflow or a zero divisor; `U256` is
  a `nat` below 2^256.
- **Cell types are parameters.** The stack and memory files store `u8`, but
  the handlers push and store `U256`. So `Stack<T>` and `Memory<T>` take the
  cell type as a parameter, and the machine uses 256-bit words.

`yellow_paper.dfy` states the Ethereum Yellow Paper's semantics for the
arithmetic instructions (appendix H) and for the memory fee (appendix H.1),
and proves how the handlers differ from them.

### Where the code and its description differ

The model follows the code in each of these places.

- **Live handlers do not advance the counter.** The live handlers leave `pc`
  alone. Only PUSH moves it, by one, onto its immediate byte.
- **Operand order is reversed.** The older handlers pop the top as `a` and
  push `b - a`, `b / a`, `b % a` and `b^a`. ADDMOD and MULMOD take the modulus
  from the top. In each case the Yellow Paper has the operands the other
  way round.
- **Operators fault instead of wrapping.** The checked operators fault where
  the Yellow Paper wraps modulo 2^256 or gives 0 for a zero divisor.
- **SDIV and SMOD are unsigned.** They compute exactly what DIV and MOD
  compute.
- **`store` returns the new size.** It does not return a quadratic marginal
  cost. Below 2^32 the `sqrt` of the square is the size itself. From 2^32 on
  the usize square overflows. The model takes that as a panic, a fault
  raised after memory has grown; a release build would wrap instead.
- **MSTORE and MSTORE8 discard the cost `store` reports.** They charge a flat
  3 gas instead.
- **A warm but absent storage key reads as cold.** Loading it returns
  `(false, [0])`.
- **Some lines do not compile, and are modelled by their evident intent:**
  - `src/transient.rs:14` uses an undefined `warm_access`. A present key is
    taken to read as warm.
  - `src/transient.rs:24` calls `self.new()`. This is taken to mean an
    empty map.
  - `gas_decreased` and `gas_dec` at `src/opcode_instructions.rs:11` and
    `src/opcode_instructions.rs:95` are taken to mean `gas_decrease`.
  - A `U256` is passed where `&[u8]` is expected at
    `src/evm/opcode_instructions.rs:30`. The memory is taken to hold words.
  - `a as u32` at `src/opcode_instructions.rs:85` is taken as the low
    32 bits of `a`. So EXP also differs from the Yellow Paper whenever the
    exponent is 2^32 or more: it uses only the exponent's low 32 bits.

## Model

| member | source | states |
|---|---|---|
| Stacks.Stack.constructor | src/stack.rs:42-44 | a new stack is empty |
| Stacks.Stack.Push | src/stack.rs:12-17 | below 1024 entries the value is appended on top; a full stack faults with overflow and is unchanged; the 1024 bound is kept |
| Stacks.Stack.Pop | src/stack.rs:19-24 | an empty stack faults with underflow; otherwise the top is returned and removed, the rest kept |
| Stacks.Stack.Peek | src/stack.rs:26-28 | returns the top without changing the stack; the unwrap fails exactly when the stack is empty |
| Stacks.PushThenPop | src/stack.rs:12-24 | a push followed by a pop returns the pushed value and restores the stack (last in, first out) |
| Stacks.Demo | src/main.rs:4-16 | push 1, 2, 3; pop gives 3 then 2; push 4, 5; peek gives 5 and [1, 4, 5] is left |
| Memories.Grown | src/memory.rs:20-23 | growing keeps the old cells, fills new cells with zero and never shortens |
| Memories.Stored | src/memory.rs:34-58 | after a store the value sits at `offset`; other cells keep their old value or are zero; the size is kept, or becomes 32 for a small first store, or becomes the end of the write |
| Memories.SquareFitsUsize | src/memory.rs:49 | a size squares within usize exactly when it is below 2^32 |
| Memories.StoreCost | src/memory.rs:36-55 | faults with overflow exactly when the store reallocates to a size of 2^32 or more; otherwise the cost is non-zero exactly when the store reallocated, and then equals the new size |
| Memories.Memory.constructor | src/memory.rs:15-17 | a new memory is empty |
| Memories.Memory.Access | src/memory.rs:19-28 | grows to exactly `offset + size` when shorter, never fails, and returns exactly the `size` cells at `offset` |
| Memories.Memory.Load | src/memory.rs:30-32 | is an access of 32 cells |
| Memories.Memory.Len | src/memory.rs:64-66 | the number of cells held |
| Memories.Memory.Store | src/memory.rs:34-58 | the result is `StoreCost`; on success the new contents are `Stored`; on the overflow fault memory has grown to the end of the write and the value is not written |
| Storages.Storage.constructor | src/storage.rs:11-16 | new storage has no keys and no warm keys |
| Storages.Storage.Load | src/storage.rs:18-28 | the key is warm afterwards and the warm list stays duplicate-free; the warm flag holds only for a key warm before and present; an absent key reads [0]; data is untouched |
| Storages.Storage.Store | src/storage.rs:30-32 | inserts or overwrites the one key, leaving other keys and the warm list untouched |
| Storages.StoreThenLoad | src/storage.rs:18-32 | on fresh storage a first load is cold and reads [0]; after a store, a load is warm and reads the stored value |
| Transients.Transient.constructor | src/transient.rs:5-10 | a new transient storage is empty |
| Transients.Transient.Load | src/transient.rs:12-17 | changes nothing; a present key reads its value, an absent key reads (false, [0]) |
| Transients.Transient.Store | src/transient.rs:19-21 | inserts or overwrites the one key, leaving other keys unchanged |
| Transients.Transient.Clear | src/transient.rs:23-25 | forgets every key |
| Transients.StoreLoadClear | src/transient.rs:12-25 | a stored value reads back, another key still reads [0], and after clear the key reads [0] |
| Machine.Decrease | src/evm.rs:46-51 | charging succeeds exactly when the amount fits, and then leaves the difference; otherwise out of gas |
| Machine.ChargeAllWithinBudget | src/evm.rs:46-51 | a sequence of charges all succeed exactly when their total fits the budget, and leave budget minus total |
| Machine.EVM.constructor | src/evm.rs:28-44 | pc 0; empty stack, memory and storage; flags false; empty return data and logs; context fields as given |
| Machine.EVM.GasDecrease | src/evm.rs:46-51 | faults with gas unchanged when short; otherwise subtracts exactly the amount; gas never grows or goes negative |
| U256.CheckedAdd | src/opcode_instructions.rs:9 | the sum when below 2^256, an overflow fault otherwise |
| U256.CheckedSub | src/opcode_instructions.rs:26 | the difference when not negative, an underflow fault otherwise |
| U256.CheckedMul | src/opcode_instructions.rs:17 | the product when below 2^256, an overflow fault otherwise |
| U256.CheckedDiv | src/opcode_instructions.rs:35 | the floor quotient for a non-zero divisor, a division-by-zero fault otherwise |
| U256.CheckedRem | src/opcode_instructions.rs:51 | the remainder below the divisor that completes the quotient, a division-by-zero fault for 0 |
| U256.CheckedPow | src/opcode_instructions.rs:85 | the power when below 2^256, an overflow fault otherwise |
| U256.AsUsize | src/opcode_instructions.rs:99 | the value itself when it fits 64 bits, a fault otherwise |
| Steps.Binary | src/opcode_instructions.rs:6-12 | the shared shape of two-operand handlers: underflow below two entries; success exactly when the operation succeeds and gas suffices; then the operands are replaced by the result, pc moves by `step` and the cost is charged; out of gas comes after the stack changed |
| Steps.Ternary | src/opcode_instructions.rs:64-71 | the same shape with three operands, including the out-of-gas state: operands popped, result pushed, pc advanced, gas unchanged |
| ArithmeticInstructions.Stop | src/opcode_instructions.rs:1-3 | sets the stop flag and nothing else |
| ArithmeticInstructions.Add | src/opcode_instructions.rs:6-12 | pops a, b; pushes a + b (overflow faults); pc + 1; 3 gas |
| ArithmeticInstructions.Mul | src/opcode_instructions.rs:14-20 | pushes a * b; pc + 1; 5 gas |
| ArithmeticInstructions.Sub | src/opcode_instructions.rs:23-29 | pushes b - a (second minus top; underflow faults); pc + 1; 3 gas |
| ArithmeticInstructions.Div | src/opcode_instructions.rs:32-38 | pushes b / a (zero divisor faults); pc + 1; 5 gas |
| ArithmeticInstructions.SDiv | src/opcode_instructions.rs:40-46 | the same unsigned b / a as DIV; 5 gas |
| ArithmeticInstructions.Mod | src/opcode_instructions.rs:48-54 | pushes b % a; pc + 1; 5 gas |
| ArithmeticInstructions.SMod | src/opcode_instructions.rs:56-62 | the same unsigned b % a as MOD; 5 gas |
| ArithmeticInstructions.AddMod | src/opcode_instructions.rs:64-71 | pops a, b, c; pushes (b + c) % a; depth drops by 2; pc + 1; 8 gas |
| ArithmeticInstructions.MulMod | src/opcode_instructions.rs:73-80 | pushes (b * c) % a; depth drops by 2; pc + 1; 8 gas |
| ArithmeticInstructions.Exp | src/opcode_instructions.rs:82-88 | pushes b to the low 32 bits of a; pc + 1; 10 gas |
| ArithmeticInstructions.SignExtend | src/opcode_instructions.rs:90-96 | pops b, then num; pushes extend_sign(num, b); pc + 1; 5 gas |
| ArithmeticInstructions.ExtendSign | src/opcode_instructions.rs:98-111 | faults exactly when b does not fit 64 bits; b >= 32 returns num unchanged |
| ArithmeticInstructions.ExtendSignBits | src/opcode_instructions.rs:103-110 | with the sign bit 8b+7 set, every set bit of num stays set; with it clear, no bit is set that num lacks |
| ArithmeticInstructions.ExtendSignMirrored | src/opcode_instructions.rs:105-109 | extend_sign(0x7F, 0) is 1 |
| MemoryCost.WordCount | src/helper.rs:2 | the word count is the ceiling of the byte size over 32 |
| MemoryCost.CalcMemExpCost | src/helper.rs:1-5 | 0 bytes cost 0; the cost is 3w plus w^2/512 rounded up; it faults when the usize arithmetic overflows, as a debug build panics (a release build wraps) |
| MemoryCost.CalcMemExpCostMonotone | src/helper.rs:2-4 | a larger memory never costs less |
| Opcodes.FromU8 | src/opcodes.rs:182-209 | total; a byte decodes to something other than INVALID exactly when it is one of the 21 listed bytes |
| Opcodes.FromU8MatchesDiscriminant | src/opcodes.rs:184-204 | every listed byte except 0x51 and 0x52 decodes to the opcode whose discriminant it is |
| Opcodes.FromU8SwapsMemoryOpcodes | src/opcodes.rs:202-203 | MLOAD's byte decodes to MSTORE and MSTORE's to MLOAD |
| Opcodes.FromU8DropsDefinedOpcodes | src/opcodes.rs:207 | JUMPDEST (0x5B) and PUSH2 (0x61) decode to INVALID |
| Opcodes.FromU8OfInvalid | src/opcodes.rs:177 | 0xFE decodes to INVALID |
| Opcodes.FromU8Corrected | src/opcodes.rs:182-209 | the table with 0x51 and 0x52 the right way round; INVALID exactly off the listed bytes |
| Opcodes.FromU8CorrectedRoundTrip | src/opcodes.rs:182-209 | every listed byte decodes to the opcode of that byte value; elsewhere it agrees with `from_u8` |
| LiveInstructions.PushNStep | src/evm/opcode_instructions.rs:18-23 | reading past the program faults; otherwise succeeds exactly with stack room and 3 gas, pushing program[pc + 1] and moving pc by one; short of gas it faults with that push and pc move already made |
| LiveInstructions.StoreCell | src/evm/opcode_instructions.rs:30-31 | stack and pc untouched; succeeds exactly when the store does not overflow and 3 gas remain, and then charges 3 gas regardless of growth; short of gas it faults with the value already stored; a store overflow faults with memory grown to the end of the write and gas unchanged |
| LiveInstructions.StoreCellWrites | src/memory.rs:34-58 | after a store that does not overflow, the size is kept, becomes 32 for a small first store, or becomes the end of the write; the cell at the address holds the value; every other cell keeps its old value or is zero |
| LiveInstructions.StoreStep | src/evm/opcode_instructions.rs:26-42 | fewer than two operands fault with underflow, leaving memory and gas; otherwise pops the address, then the value, and stores the value's cell at the address's low 64 bits as `StoreCell` does |
| LiveInstructions.LowByte | src/evm/opcode_instructions.rs:38 | MSTORE8's masked value is the word modulo 256 |
| LiveInstructions.LowByteOfLowU64 | src/evm/opcode_instructions.rs:38 | masking the low 64 bits with 0xFF keeps the word's lowest byte |
| LiveInstructions.MLoadStep | src/evm/opcode_instructions.rs:55-66 | succeeds exactly when the address fits 64 bits and gas suffices; pushes the cell at the address (0 past the end) and grows memory to cover 32 cells; short of gas it faults with that push and growth already made |
| LiveInstructions.ExtractU256 | src/evm/opcode_instructions.rs:69-85 | Some exactly for a successful non-empty slice, and then its first element |
| LiveInstructions.Stop | src/evm/opcode_instructions.rs:6-8 | sets the stop flag and nothing else |
| LiveInstructions.Add | src/evm/opcode_instructions.rs:11-16 | pops a, b; pushes a + b; depth drops by 1; 3 gas; pc untouched |
| LiveInstructions.PushN | src/evm/opcode_instructions.rs:18-23 | is `PushNStep` on the machine |
| LiveInstructions.StoreAndCharge | src/evm/opcode_instructions.rs:30-31 | is `StoreCell` on the machine |
| LiveInstructions.MStore | src/evm/opcode_instructions.rs:26-32 | is `StoreStep` storing the whole word |
| LiveInstructions.MStore8 | src/evm/opcode_instructions.rs:35-42 | is `StoreStep` storing the value's low byte |
| LiveInstructions.MLoad | src/evm/opcode_instructions.rs:55-66 | is `MLoadStep`; the panic on a missing cell cannot happen |
| LiveInstructions.MStoreThenMLoad | src/evm/opcode_instructions.rs:26-66 | MSTORE of a value at an address whose store does not overflow, then MLOAD of that address, pushes the value back for 6 gas |
| LiveInstructions.FromBeBytes | src/evm/opcode_instructions.rs:50 | each of the four bytes is the matching base-256 digit of the result, most significant first |
| LiveInstructions.ToBeBytes | src/evm/opcode_instructions.rs:50 | inverse of `u32::from_be_bytes`: four bytes whose big-endian reading is the word |
| LiveInstructions.U8ToU32Vec | src/evm/opcode_instructions.rs:45-53 | succeeds exactly when the length is a multiple of 4; then it gives length/4 words, word i being the big-endian value of bytes 4i to 4i+3 |
| LiveInstructions.U32VecToU8 | src/evm/opcode_instructions.rs:45-53 | inverse of `u8_to_u32_vec`: four bytes per word |
| LiveInstructions.U8ToU32VecRoundTrip | src/evm/opcode_instructions.rs:45-53 | splitting the big-endian bytes of a word list gives the list back |
| YellowPaper.SignExtend | src/opcode_instructions.rs:98-111 | sign extension as intended: from byte 31 on, the value is unchanged |
| YellowPaper.SignExtendKeepsSignedValue | src/opcode_instructions.rs:98-111 | intended sign extension keeps the low 8(b+1) bits, and the signed reading equals those bits read as a signed number |
| YellowPaper.MemoryFee | src/helper.rs:3-4 | the Yellow Paper fee: 3w plus w^2/512 rounded down |
| YellowPaper.AddSubInverse | src/opcode_instructions.rs:23-29 | wrapping SUB (top minus second) undoes wrapping ADD, and the other way round |
| YellowPaper.AddAgrees | src/opcode_instructions.rs:6-12 | ADD equals the Yellow Paper's until overflow, where it faults; it is symmetric |
| YellowPaper.MulAgrees | src/opcode_instructions.rs:14-20 | MUL equals the Yellow Paper's until overflow |
| YellowPaper.SubSwapsOperands | src/opcode_instructions.rs:23-29 | SUB is the Yellow Paper's SUB with the operands swapped, faulting below zero |
| YellowPaper.SubOrderCounterexample | src/opcode_instructions.rs:26 | with 1 on top of 3, SUB pushes 2, where the Yellow Paper gives 2^256 - 2 |
| YellowPaper.AddThenSub | src/opcode_instructions.rs:6-29 | after ADD, pushing the second addend and running SUB gives the first back |
| YellowPaper.DivSwapsOperands | src/opcode_instructions.rs:32-38 | DIV is the Yellow Paper's DIV with the operands swapped, faulting on 0 |
| YellowPaper.ModSwapsOperands | src/opcode_instructions.rs:48-54 | MOD likewise |
| YellowPaper.SDivIsUnsigned | src/opcode_instructions.rs:40-46 | -2 / 2 gives 2^255 - 1, where signed division gives -1 |
| YellowPaper.SModIsUnsigned | src/opcode_instructions.rs:56-62 | -1 mod 3 gives 0, where the signed remainder is -1 |
| YellowPaper.AddModSwapsOperands | src/opcode_instructions.rs:64-71 | ADDMOD is the Yellow Paper's ADDMOD with the modulus taken from the top; it faults when the sum overflows |
| YellowPaper.MulModSwapsOperands | src/opcode_instructions.rs:73-80 | MULMOD likewise, with the product |
| YellowPaper.ExpSwapsOperands | src/opcode_instructions.rs:82-88 | EXP is the Yellow Paper's EXP with the operands swapped and the exponent truncated to 32 bits, and a fault where the paper wraps modulo 2^256 |
| YellowPaper.ExpOrderCounterexample | src/opcode_instructions.rs:85 | with 3 on top of 2, EXP pushes 8, where the Yellow Paper gives 9 |
| YellowPaper.SignExtendCounterexample | src/opcode_instructions.rs:98-111 | sign extension of 0x7F from byte 0 keeps 0x7F; the handler gives 1 |
| YellowPaper.CalcMemExpCostRoundsUp | src/helper.rs:3-4 | the fee charged is the Yellow Paper fee plus one exactly when w^2 is not a multiple of 512 |
| YellowPaper.OneWordCounterexample | src/helper.rs:3-4 | one word of memory is charged 4, where the Yellow Paper charges 3 |

## Left out

- `Stack::to_string` and `Stack::data`, `Memory::data` and `Memory::cap`: accessors and formatting, with no behaviour to state.
- `src/main.rs`: its printing is not modelled. Its push/pop sequence is `Stacks.Demo`.
- Commented-out handlers in `src/evm/opcode_instructions.rs` (lines 87 to 375): dead code. The live copies of the arithmetic ones are in `src/opcode_instructions.rs`.
- Keccak hashing, the fetch-decode-execute loop, and calls, creation, environment and block opcodes: none of this logic exists in the core; those opcodes appear only as enum variants.
- Floating point: `src/helper.rs:3-4` and `src/memory.rs:49` are modelled by their exact integer meaning. That is the ceiling of a rational and the square root of a square, which is the size itself. f64 rounding is not modelled. In the fee it matters once the fee passes about 2^44, that is for word counts above roughly 9.49·10^7: from there the f64 sum can round a fractional part of one half to even, and `ceil` then charges one less than the model. In `store` the model takes the rounded square root of a square below 2^64 to give the size back exactly.
- Opcodes.Discriminant: the enum's byte values are a table with no contract of its own. They are stated for the 21 bytes `from_u8` lists (`FromU8MatchesDiscriminant`, `FromU8CorrectedRoundTrip`, `FromU8SwapsMemoryOpcodes`) and for JUMPDEST and PUSH2 (`FromU8DropsDefinedOpcodes`). That all 143 values are distinct, which the Rust compiler enforces, is not proved: a contract over the 143-way case split is too costly for the solver.
- `Vec::capacity`: taken to equal the length, since memory is only ever `Vec::new()` or `vec![0; n]`.
- `MemoryError::ErrOutOfBounds`: never produced, so `Access` always succeeds and `Store` fails only on the overflow of its squaring. Rust's slice-bounds panics inside them cannot happen after the growth.
- Machine-width overflow of `offset + size` in memory, of `pc + 1` in PUSH, and of the usize `pc += 1` in every older arithmetic handler (`src/opcode_instructions.rs`, `pc` declared at `src/evm.rs:8`): the model uses unbounded naturals there. `CalcMemExpCost` and `StoreCost` do model the usize overflow of their own arithmetic.
- `MemoryCost.CalcMemExpCost`, `Memories.StoreCost`: a usize overflow is a fault, as in a debug build. The wrapped values a release build computes are not modelled.
- `Machine.EVM`: the stack and memory hold 256-bit words, not the `u8` cells that `src/stack.rs` and `src/memory.rs` declare. The handlers need words, and `Stack<T>` and `Memory<T>` keep the cell type as a parameter.
- `ethereum_types` `U256` and `H160` internals: words and addresses are naturals below 2^256 and 2^160.

## Findings

| source | as written | input that shows it | evidently intended | confidence | as-written member | corrected member |
|---|---|---|---|---|---|---|
| src/opcodes.rs:202-203 | byte 0x51 decodes to MSTORE and 0x52 to MLOAD | byte 0x51, MLOAD's own discriminant, decodes to MSTORE | 0x51 to MLOAD and 0x52 to MSTORE, as the enum at src/opcodes.rs:73-74 declares | high, not executed | Opcodes.FromU8SwapsMemoryOpcodes | Opcodes.FromU8CorrectedRoundTrip |
| src/opcode_instructions.rs:105-109 | the masks act on the wrong bits: the set-sign branch ORs in the low (31-b)*8+7 bits and the clear-sign branch clears bits 1 to (31-b)*8+7 | extend_sign(0x7F, 0) gives 1 | keep the low 8(b+1) bits and copy the sign bit into every bit above them, giving 0x7F | high, not executed | ArithmeticInstructions.ExtendSignMirrored | YellowPaper.SignExtendKeepsSignedValue |
| src/helper.rs:3-4 | the whole cost is rounded up, so the quadratic term is a ceiling | 32 bytes (one word) cost 4 | the Yellow Paper fee 3w + floor(w^2/512), which is 3 for one word | medium, not executed | YellowPaper.OneWordCounterexample | YellowPaper.MemoryFee |
| src/opcode_instructions.rs:26 | pushes the second entry minus the top | with 1 on top of 3 it pushes 2, and with 3 on top of 1 it faults | the top minus the second, wrapping: 2^256 - 2 and 2 | high, not executed | YellowPaper.SubOrderCounterexample | YellowPaper.AddSubInverse |
