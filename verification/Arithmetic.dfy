/** The few facts about products the solver wants spelled out, and the source's rounding. */
module Arithmetic {

  lemma Distribute(p: int, a: int, b: int)
    ensures p * (a + b) == p * a + p * b
  {
  }

  lemma Positive(a: int, b: int)
    requires a > 0 && b > 0
    ensures a * b > 0
  {
  }

  lemma NonNegative(a: int, b: int)
    requires a >= 0 && b >= 0
    ensures a * b >= 0
  {
  }

  /** Integer division toward zero, for a positive divisor. */
  function Quotient(a: int, b: int): int
    requires b > 0
  {
    if a >= 0 then a / b else -(-a / b)
  }

  function Half(x: int): (h: int)
    ensures 0 <= x ==> 2 * h <= x <= 2 * h + 1
    ensures x <= 0 ==> 2 * h - 1 <= x <= 2 * h
  {
    Quotient(x, 2)
  }

  /** The cast of a double to int: toward zero. */
  function Truncate(x: real): (n: int)
    ensures 0.0 <= x ==> n as real <= x < n as real + 1.0
    ensures x <= 0.0 ==> n as real - 1.0 < x <= n as real
  {
    if x >= 0.0 then x.Floor else -(-x).Floor
  }
}
