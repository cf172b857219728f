/**
 * The shape every stack instruction handler shares, as a function from the
 * frame before to the frame after and the outcome: pop the operands (the
 * top first), compute, push the result, advance the program counter, and
 * charge gas last. A fault stops the handler where it occurs, so what was
 * already popped or pushed stays changed.
 */
module Steps {
  import opened Words
  import opened Faults
  import opened Stacks
  import opened Machine

  /** `gas_decrease(cost)` on a frame whose other parts are already updated. */
  function Charge(f: Frame, cost: nat): (Frame, Outcome)
  {
    match Decrease(f.gas, cost)
    case Err(e) => (f, Fail(e))
    case Ok(left) => (f.(gas := left), Pass)
  }

  /** The top of a stack of at least one entry. */
  function Top(s: seq<Word>): Word
    requires |s| >= 1
  {
    s[|s| - 1]
  }

  /** The entry below the top, of a stack of at least two. */
  function Second(s: seq<Word>): Word
    requires |s| >= 2
  {
    s[|s| - 2]
  }

  /** The entry two below the top, of a stack of at least three. */
  function Third(s: seq<Word>): Word
    requires |s| >= 3
  {
    s[|s| - 3]
  }

  /**
   * `let a = pop(); let b = pop(); push(op(a, b)); pc += step; gas_decrease(cost)`.
   * On success the two operands are replaced by the result, everything
   * below them is kept, the counter moves by `step` and `cost` is charged.
   * A shortage of gas is found only after the stack has changed.
   */
  function Binary(f: Frame, op: (Word, Word) -> Result<Word>, cost: nat, step: nat): (r: (Frame, Outcome))
    ensures r.0.memory == f.memory && r.0.gas <= f.gas
    ensures |f.stack| < 2 ==> r.1 == Fail(StackUnderflow) && r.0.pc == f.pc && r.0.gas == f.gas
    ensures r.1 == Pass <==>
      2 <= |f.stack| <= MAX_SIZE + 1 && op(Top(f.stack), Second(f.stack)).Ok? && cost <= f.gas
    ensures r.1 == Pass ==>
      r.0 == f.(stack := f.stack[..|f.stack| - 2] + [op(Top(f.stack), Second(f.stack)).value],
                pc := f.pc + step, gas := f.gas - cost)
    ensures 2 <= |f.stack| <= MAX_SIZE + 1 && op(Top(f.stack), Second(f.stack)).Ok? && f.gas < cost ==>
      r.1 == Fail(OutOfGas) && r.0.gas == f.gas && r.0.pc == f.pc + step &&
      r.0.stack == f.stack[..|f.stack| - 2] + [op(Top(f.stack), Second(f.stack)).value]
  {
    var n := |f.stack|;
    if n == 0 then (f, Fail(StackUnderflow))
    else if n == 1 then (f.(stack := []), Fail(StackUnderflow))
    else
      var rest := f.stack[..n - 2];
      match op(f.stack[n - 1], f.stack[n - 2])
      case Err(e) => (f.(stack := rest), Fail(e))
      case Ok(v) =>
        if |rest| >= MAX_SIZE then (f.(stack := rest), Fail(StackOverflow))
        else Charge(f.(stack := rest + [v], pc := f.pc + step), cost)
  }

  /**
   * `let a = pop(); let b = pop(); let c = pop(); push(op(a, b, c)); pc += step;
   * gas_decrease(cost)`: as Binary, with three operands.
   */
  function Ternary(f: Frame, op: (Word, Word, Word) -> Result<Word>, cost: nat, step: nat): (r: (Frame, Outcome))
    ensures r.0.memory == f.memory && r.0.gas <= f.gas
    ensures |f.stack| < 3 ==> r.1 == Fail(StackUnderflow) && r.0.pc == f.pc && r.0.gas == f.gas
    ensures r.1 == Pass <==>
      3 <= |f.stack| <= MAX_SIZE + 2 && op(Top(f.stack), Second(f.stack), Third(f.stack)).Ok? && cost <= f.gas
    ensures r.1 == Pass ==>
      r.0 == f.(stack := f.stack[..|f.stack| - 3] + [op(Top(f.stack), Second(f.stack), Third(f.stack)).value],
                pc := f.pc + step, gas := f.gas - cost)
    ensures 3 <= |f.stack| <= MAX_SIZE + 2 && op(Top(f.stack), Second(f.stack), Third(f.stack)).Ok? && f.gas < cost ==>
      r.1 == Fail(OutOfGas) && r.0.gas == f.gas && r.0.pc == f.pc + step &&
      r.0.stack == f.stack[..|f.stack| - 3] + [op(Top(f.stack), Second(f.stack), Third(f.stack)).value]
  {
    var n := |f.stack|;
    if n == 0 then (f, Fail(StackUnderflow))
    else if n == 1 then (f.(stack := []), Fail(StackUnderflow))
    else if n == 2 then (f.(stack := []), Fail(StackUnderflow))
    else
      var rest := f.stack[..n - 3];
      match op(f.stack[n - 1], f.stack[n - 2], f.stack[n - 3])
      case Err(e) => (f.(stack := rest), Fail(e))
      case Ok(v) =>
        if |rest| >= MAX_SIZE then (f.(stack := rest), Fail(StackOverflow))
        else Charge(f.(stack := rest + [v], pc := f.pc + step), cost)
  }
}
