/** Amounts of money are exact reals; the engines share one settlement tolerance. */
module Money {

  /** Below this many currency units an amount counts as settled. */
  const Epsilon: real := 0.01

  /** `Math.max(a, b)`. */
  function Max(a: real, b: real): (r: real)
    ensures r >= a && r >= b && (r == a || r == b)
  {
    if a >= b then a else b
  }
}
