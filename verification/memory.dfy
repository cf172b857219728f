/**
 * Scratch memory: a growable array of cells, zero-filled as it grows.
 * The cell type is a parameter with its zero value: the memory file itself
 * stores bytes, the instruction handlers store 256-bit words.
 * The vector's capacity is taken to be its length: the buffer is only ever
 * created empty or by `vec![0; n]`, which allocates exactly n cells.
 */
module Memories {
  import opened Words
  import opened Faults
  import opened Bits

  /** The first allocation of an empty memory by `store`. */
  const FIRST_ALLOCATION: nat := 32

  function Zeros<T>(n: nat, zero: T): (r: seq<T>)
    ensures |r| == n && forall i :: 0 <= i < n ==> r[i] == zero
  {
    seq(n, _ => zero)
  }

  /** `data` extended with zero cells up to `size` cells; never shortened. */
  function Grown<T>(data: seq<T>, size: nat, zero: T): (r: seq<T>)
    ensures |r| == if |data| < size then size else |data|
    ensures r[..|data|] == data
    ensures forall i :: |data| <= i < |r| ==> r[i] == zero
  {
    if |data| < size then data + Zeros(size - |data|, zero) else data
  }

  /** The cells after `store(offset, value)` on a memory holding `data`. */
  function Stored<T>(data: seq<T>, offset: nat, value: seq<T>, zero: T): (r: seq<T>)
    ensures var end := offset + |value|;
      |r| == if end < |data| then |data| else if |data| == 0 && end < FIRST_ALLOCATION then FIRST_ALLOCATION else end
    ensures r[offset..offset + |value|] == value
    ensures forall i :: 0 <= i < |r| && !(offset <= i < offset + |value|) ==>
      r[i] == if i < |data| then data[i] else zero
  {
    var end := offset + |value|;
    var base := if |data| <= end && |data| == 0 then Zeros(FIRST_ALLOCATION, zero) else data;
    var grown := if |data| <= end then Grown(base, end, zero) else base;
    grown[..offset] + value + grown[end..]
  }

  /**
   * Whether `store` reallocates for a write ending at `end`: the write
   * reaches the capacity, which an empty memory first raises to 32.
   */
  predicate Reallocates(len: nat, end: nat)
  {
    len <= end && (len != 0 || FIRST_ALLOCATION <= end)
  }

  /** A size squares within usize exactly when it is below 2^32. */
  lemma SquareFitsUsize(n: nat)
    ensures n * n < USIZE_LIMIT <==> n < U32_LIMIT
  {
    if n < U32_LIMIT {
      MulMonotone(n, n, U32_LIMIT - 1);
      MulMonotone(U32_LIMIT - 1, n, U32_LIMIT);
    } else {
      MulMonotone(n, U32_LIMIT, n);
      MulMonotone(U32_LIMIT, U32_LIMIT, n);
    }
  }

  /**
   * The cost `store` reports: the new size when it reallocated, 0 otherwise.
   * The size is squared as a usize, which overflows (a panic) from 2^32 on;
   * below that the square root of the square, through f64, is the size.
   */
  function StoreCost(len: nat, end: nat): (r: Result<nat>)
    ensures r.Err? <==> Reallocates(len, end) && U32_LIMIT <= end
    ensures r.Err? ==> r.fault == ArithmeticOverflow
    ensures r.Ok? ==> (r.value != 0 <==> Reallocates(len, end))
    ensures r.Ok? && r.value != 0 ==> r.value == end
  {
    SquareFitsUsize(end);
    if len <= end then
      var base := if len == 0 then FIRST_ALLOCATION else len;
      if base <= end then
        if end * end >= USIZE_LIMIT then Err(ArithmeticOverflow) else Ok(end)
      else Ok(0)
    else Ok(0)
  }

  class Memory<T> {
    /** The value new cells are filled with. */
    const zero: T
    var data: seq<T>

    constructor (zero: T)
      ensures this.zero == zero && data == []
    {
      this.zero := zero;
      data := [];
    }

    /** `len()`: the number of cells held. */
    function Len(): (n: nat)
      reads this
      ensures n == |data|
    {
      |data|
    }

    /**
     * The `size` cells at `offset`, growing memory to exactly `offset + size`
     * cells first when it is shorter. Never fails.
     */
    method Access(offset: nat, size: nat) returns (r: Result<seq<T>>)
      modifies this
      ensures data == Grown(old(data), offset + size, zero)
      ensures r == Ok(data[offset..offset + size])
    {
      if Len() < offset + size {
        var nMem := Zeros(offset + size, zero);
        nMem := data + nMem[|data|..];
        data := nMem;
        return Ok(data[offset..offset + size]);
      }
      return Ok(data[offset..offset + size]);
    }

    /** The 32 cells at `offset`. */
    method Load(offset: nat) returns (r: Result<seq<T>>)
      modifies this
      ensures data == Grown(old(data), offset + 32, zero)
      ensures r == Ok(data[offset..offset + 32])
    {
      r := Access(offset, 32);
    }

    /**
     * Writes `value` at `offset`, growing memory first, and reports the cost
     * of growing (the new size) or 0 when it did not reallocate. It faults
     * when the new size does not square within usize; memory has grown by
     * then and `value` is not written.
     */
    method Store(offset: nat, value: seq<T>) returns (r: Result<nat>)
      modifies this
      ensures r == StoreCost(|old(data)|, offset + |value|)
      ensures r.Ok? ==> data == Stored(old(data), offset, value, zero)
      ensures r.Err? ==> data == Grown(old(data), offset + |value|, zero)
    {
      var end := offset + |value|;
      var expansionCost := 0;
      if |data| <= end {
        if Len() == 0 {
          data := Zeros(FIRST_ALLOCATION, zero);
        }
        if |data| <= end {
          var nMem := Zeros(end, zero);
          nMem := data + nMem[|data|..];
          data := nMem;
          if end * end >= USIZE_LIMIT {
            return Err(ArithmeticOverflow);
          }
          expansionCost := end;
        }
      }
      data := data[..offset] + value + data[end..];
      return Ok(expansionCost);
    }
  }
}
