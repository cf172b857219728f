/**
 * The ways an instruction can abort. Every panic of the interpreter becomes
 * one of these faults, returned instead of unwinding.
 */
module Faults {

  datatype Fault =
    | StackOverflow        // Stack::push on a full stack ("Stack overflow")
    | StackUnderflow       // Stack::pop on an empty stack ("Stack underflow")
    | EmptyUnwrap          // Option::unwrap on None (Stack::peek on an empty stack)
    | OutOfGas             // EVM::gas_decrease ("Not enough gas")
    | IndexOutOfBounds     // indexing a Vec past its end
    | ArithmeticOverflow   // checked U256 +, * and pow
    | ArithmeticUnderflow  // checked U256 -
    | DivisionByZero       // checked U256 / and %
    | IntegerOverflow      // U256::as_usize of a value above usize::MAX
    | LengthMismatch       // copy_from_slice between slices of different lengths
    | MemoryOutOfBounds    // MemoryError::ErrOutOfBounds

  datatype Result<T> = Ok(value: T) | Err(fault: Fault)

  datatype Outcome = Pass | Fail(fault: Fault)

  datatype Option<T> = None | Some(value: T)
}
