/**
 * The checked operators of the U256 type the handlers compute with: `+`,
 * `*` and `pow` fault on overflow, `-` on underflow, `/` and `%` on a zero
 * divisor. None of them wraps.
 */
module U256 {
  import opened Words
  import opened Faults

  function CheckedAdd(x: Word, y: Word): (r: Result<Word>)
    ensures r.Ok? <==> x + y < WORD_LIMIT
    ensures r.Ok? ==> r.value == x + y
    ensures r.Err? ==> r.fault == ArithmeticOverflow
  {
    if x + y < WORD_LIMIT then Ok(x + y) else Err(ArithmeticOverflow)
  }

  function CheckedSub(x: Word, y: Word): (r: Result<Word>)
    ensures r.Ok? <==> y <= x
    ensures r.Ok? ==> r.value + y == x
    ensures r.Err? ==> r.fault == ArithmeticUnderflow
  {
    if y <= x then Ok(x - y) else Err(ArithmeticUnderflow)
  }

  function CheckedMul(x: Word, y: Word): (r: Result<Word>)
    ensures r.Ok? <==> x * y < WORD_LIMIT
    ensures r.Ok? ==> r.value == x * y
    ensures r.Err? ==> r.fault == ArithmeticOverflow
  {
    if x * y < WORD_LIMIT then Ok(x * y) else Err(ArithmeticOverflow)
  }

  function CheckedDiv(x: Word, y: Word): (r: Result<Word>)
    ensures r.Ok? <==> y != 0
    ensures r.Ok? ==> r.value * y <= x < (r.value + 1) * y
    ensures r.Err? ==> r.fault == DivisionByZero
  {
    if y == 0 then Err(DivisionByZero) else Ok(x / y)
  }

  function CheckedRem(x: Word, y: Word): (r: Result<Word>)
    ensures r.Ok? <==> y != 0
    ensures r.Ok? ==> r.value < y && (x / y) * y + r.value == x
    ensures r.Err? ==> r.fault == DivisionByZero
  {
    if y == 0 then Err(DivisionByZero) else Ok(x % y)
  }

  function Pow(x: nat, e: nat): nat
  {
    if e == 0 then 1 else x * Pow(x, e - 1)
  }

  function CheckedPow(x: Word, e: nat): (r: Result<Word>)
    ensures r.Ok? <==> Pow(x, e) < WORD_LIMIT
    ensures r.Ok? ==> r.value == Pow(x, e)
    ensures r.Err? ==> r.fault == ArithmeticOverflow
  {
    if Pow(x, e) < WORD_LIMIT then Ok(Pow(x, e)) else Err(ArithmeticOverflow)
  }

  /** U256::as_usize: faults on a value that does not fit a usize. */
  function AsUsize(x: Word): (r: Result<Usize>)
    ensures r.Ok? <==> x < USIZE_LIMIT
    ensures r.Ok? ==> r.value == x
  {
    if x < USIZE_LIMIT then Ok(x) else Err(IntegerOverflow)
  }
}
