/**
 * The machine state of one run: program counter, stack, memory, storage,
 * the immutable calling context, the gas meter and the halt flags.
 */
module Machine {
  import opened Words
  import opened Faults
  import opened Stacks
  import opened Memories
  import opened Storages

  /** What the instruction handlers read and change, as one value. */
  datatype Frame = Frame(stack: seq<Word>, memory: seq<Word>, pc: nat, gas: nat)

  /** The meter after charging `amount`: out of gas when `amount` exceeds it. */
  function Decrease(gas: nat, amount: nat): (r: Result<nat>)
    ensures r.Ok? <==> amount <= gas
    ensures r.Ok? ==> r.value + amount == gas
    ensures r.Err? ==> r.fault == OutOfGas
  {
    if gas < amount then Err(OutOfGas) else Ok(gas - amount)
  }

  function Sum(costs: seq<nat>): nat
  {
    if costs == [] then 0 else costs[0] + Sum(costs[1..])
  }

  /** The meter after charging each of `costs` in turn, stopping at the first fault. */
  function ChargeAll(gas: nat, costs: seq<nat>): Result<nat>
  {
    if costs == [] then Ok(gas)
    else match Decrease(gas, costs[0])
      case Err(e) => Err(e)
      case Ok(left) => ChargeAll(left, costs[1..])
  }

  /**
   * Charging a sequence of costs succeeds exactly when their total fits the
   * budget, and then leaves the budget minus the total.
   */
  lemma {:induction false} ChargeAllWithinBudget(gas: nat, costs: seq<nat>)
    ensures ChargeAll(gas, costs) == if Sum(costs) <= gas then Ok(gas - Sum(costs)) else Err(OutOfGas)
  {
    if costs != [] && costs[0] <= gas {
      ChargeAllWithinBudget(gas - costs[0], costs[1..]);
    }
  }

  class EVM {
    var pc: nat
    const stack: Stack<Word>
    const memory: Memory<Word>
    const storage: Storage

    const sender: Address
    const program: seq<Byte>
    var gas: Usize
    const value: Usize

    const callData: seq<Byte>

    var stopFlag: bool
    var reverseFlag: bool

    var returnData: seq<Byte>
    var logs: seq<Byte>

    ghost predicate Valid()
      reads this, stack, memory, storage
    {
      stack.Valid() && memory.zero == 0 && storage.Valid()
    }

    function CurrentFrame(): Frame
      reads this, stack, memory
    {
      Frame(stack.data, memory.data, pc, gas)
    }

    /** A machine about to run `program`: empty stack, memory and storage, no flags. */
    constructor (sender: Address, gas: Usize, value: Usize, program: seq<Byte>, callData: seq<Byte>)
      ensures Valid() && fresh(stack) && fresh(memory) && fresh(storage)
      ensures pc == 0 && stack.data == [] && memory.data == []
      ensures storage.data == map[] && storage.cache == []
      ensures this.sender == sender && this.gas == gas && this.value == value
      ensures this.program == program && this.callData == callData
      ensures !stopFlag && !reverseFlag && returnData == [] && logs == []
    {
      pc := 0;
      stack := new Stack<Word>();
      memory := new Memory<Word>(0);
      storage := new Storage();
      this.sender := sender;
      this.program := program;
      this.gas := gas;
      this.value := value;
      this.callData := callData;
      stopFlag := false;
      reverseFlag := false;
      returnData := [];
      logs := [];
    }

    /** Charges `amount`; the check comes first, so gas never goes below zero. */
    method GasDecrease(amount: Usize) returns (r: Outcome)
      modifies this`gas
      ensures old(gas) < amount ==> r == Fail(OutOfGas) && gas == old(gas)
      ensures amount <= old(gas) ==> r == Pass && gas == old(gas) - amount
      ensures r == Pass <==> Decrease(old(gas), amount) == Ok(gas)
    {
      if gas < amount {
        return Fail(OutOfGas);
      }
      gas := gas - amount;
      return Pass;
    }
  }
}
