/**
 * The memory expansion cost: three gas per 32-byte word plus a quadratic
 * term of one 512th of the squared word count, rounded up.
 * The float arithmetic is taken as exact. It rounds only once the fee
 * passes about 2^44 (word counts above roughly 9.49e7), where a half can
 * round to even and the ceiling comes out one lower.
 */
module MemoryCost {
  import opened Words
  import opened Faults
  import opened Bits

  /** Per-word cost of memory. */
  const G_MEMORY: nat := 3
  /** Divisor of the quadratic term. */
  const QUADRATIC_DIVISOR: nat := 512

  /** The number of 32-byte words needed to hold `size` bytes. */
  function WordCount(size: nat): (w: nat)
    ensures size <= 32 * w < size + 32
  {
    (size + 31) / 32
  }

  /**
   * `calc_mem_exp_cost(size)`. The `+ 31` and the squaring are usize
   * operations and fault on overflow.
   */
  function CalcMemExpCost(size: Usize): (r: Result<nat>)
    ensures r.Ok? <==> size + 31 < USIZE_LIMIT && WordCount(size) * WordCount(size) < USIZE_LIMIT
    ensures r.Err? ==> r.fault == ArithmeticOverflow
    ensures size == 0 ==> r == Ok(0)
    ensures r.Ok? ==> var w := WordCount(size);
      G_MEMORY * w <= r.value &&
      w * w <= QUADRATIC_DIVISOR * (r.value - G_MEMORY * w) < w * w + QUADRATIC_DIVISOR
  {
    if size + 31 >= USIZE_LIMIT then Err(ArithmeticOverflow)
    else
      var w := (size + 31) / 32;
      if w * w >= USIZE_LIMIT then Err(ArithmeticOverflow)
      else Ok((w * w + QUADRATIC_DIVISOR - 1) / QUADRATIC_DIVISOR + G_MEMORY * w)
  }

  /** A larger memory never costs less. */
  lemma CalcMemExpCostMonotone(small: Usize, large: Usize)
    requires small <= large && CalcMemExpCost(large).Ok?
    ensures CalcMemExpCost(small).Ok?
    ensures CalcMemExpCost(small).value <= CalcMemExpCost(large).value
  {
    var v := WordCount(small);
    var w := WordCount(large);
    assert v <= w;
    MulMonotone(v, v, w);
    MulMonotone(w, v, w);
    assert v * v <= w * w;
  }
}
