/**
 * The operand stack: a last-in first-out list capped at MAX_SIZE entries.
 * The element type is a parameter: the stack file itself stores bytes,
 * the instruction handlers push 256-bit words.
 */
module Stacks {
  import opened Faults

  const MAX_SIZE: nat := 1024

  class Stack<T> {
    /** The entries, bottom first: the top of the stack is the last element. */
    var data: seq<T>

    ghost predicate Valid()
      reads this
    {
      |data| <= MAX_SIZE
    }

    constructor ()
      ensures Valid() && data == []
    {
      data := [];
    }

    /** Appends `value` on top; a full stack faults and is left as it was. */
    method Push(value: T) returns (r: Outcome)
      requires Valid()
      modifies this
      ensures Valid()
      ensures old(|data|) >= MAX_SIZE ==> r == Fail(StackOverflow) && data == old(data)
      ensures old(|data|) < MAX_SIZE ==> r == Pass && data == old(data) + [value]
    {
      if |data| >= MAX_SIZE {
        return Fail(StackOverflow);
      }
      data := data + [value];
      return Pass;
    }

    /** Removes and returns the top entry; an empty stack faults. */
    method Pop() returns (r: Result<T>)
      requires Valid()
      modifies this
      ensures Valid()
      ensures old(data) == [] ==> r == Err(StackUnderflow) && data == []
      ensures old(data) != [] ==> r == Ok(old(data)[|old(data)| - 1]) && data == old(data)[..|old(data)| - 1]
    {
      if |data| == 0 {
        return Err(StackUnderflow);
      }
      var top := data[|data| - 1];
      data := data[..|data| - 1];
      return Ok(top);
    }

    /** The top entry, without removing it; on an empty stack the unwrap fails. */
    method Peek() returns (r: Result<T>)
      ensures data == [] <==> r == Err(EmptyUnwrap)
      ensures data != [] ==> r == Ok(data[|data| - 1])
    {
      if |data| == 0 {
        return Err(EmptyUnwrap);
      }
      return Ok(data[|data| - 1]);
    }
  }

  /** A push followed by a pop returns the pushed value and restores the stack. */
  method PushThenPop<T>(s: Stack<T>, value: T) returns (pushed: Outcome, popped: Result<T>)
    requires s.Valid() && |s.data| < MAX_SIZE
    modifies s
    ensures s.Valid()
    ensures pushed == Pass && popped == Ok(value) && s.data == old(s.data)
  {
    pushed := s.Push(value);
    popped := s.Pop();
  }

  /**
   * The demonstration sequence: push 1, 2, 3; pop twice; push 4, 5; peek.
   * Returns what the two pops and the peek give and what is left.
   */
  method Demo() returns (first: Result<int>, second: Result<int>, top: Result<int>, left: seq<int>)
    ensures first == Ok(3) && second == Ok(2) && top == Ok(5)
    ensures left == [1, 4, 5]
  {
    var s := new Stack<int>();
    var _ := s.Push(1);
    var _ := s.Push(2);
    var _ := s.Push(3);
    first := s.Pop();
    second := s.Pop();
    var _ := s.Push(4);
    var _ := s.Push(5);
    top := s.Peek();
    left := s.data;
  }
}
