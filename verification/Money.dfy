/** Decimal amounts. shopspring/decimal is exact for addition, subtraction, multiplication and
    comparison, so an amount is a `real`; the three lossy operations are written out. */
module Money {

  /** One unit is 10^-8, the precision of the ledger and of every stored fee. */
  const SCALE: real := 100_000_000.0

  /** decimal.Div keeps 16 decimal places. */
  const DIV_SCALE: real := 10_000_000_000_000_000.0

  /** Nearest integer, ties away from zero. */
  function RoundHalfAway(x: real): int {
    if x >= 0.0 then (x + 0.5).Floor else -((-x + 0.5).Floor)
  }

  /** Integer part, fraction dropped. */
  function Truncated(x: real): int {
    if x >= 0.0 then x.Floor else -((-x).Floor)
  }

  /** decimal.Round(8) */
  function Round8(x: real): real {
    RoundHalfAway(x * SCALE) as real / SCALE
  }

  /** decimal.Div, for a non-zero divisor. */
  function Div(x: real, y: real): real
    requires y != 0.0
  {
    RoundHalfAway(x / y * DIV_SCALE) as real / DIV_SCALE
  }

  /** x has at most eight decimal places. */
  predicate IsUnits(x: real) {
    (x * SCALE).Floor as real == x * SCALE
  }

  lemma RoundHalfAwayIsNearest(x: real)
    ensures -0.5 <= RoundHalfAway(x) as real - x <= 0.5
    ensures x >= 0.0 ==> -0.5 < RoundHalfAway(x) as real - x
  {
  }

  /** A tie goes away from zero, on either side of it. */
  lemma RoundHalfAwayTies(n: nat, x: real)
    ensures RoundHalfAway(n as real + 0.5) == n + 1
    ensures RoundHalfAway(-x) == -RoundHalfAway(x)
  {
    assert (n as real + 0.5 + 0.5).Floor == n + 1;
  }

  lemma RoundHalfAwayMonotone(x: real, y: real)
    requires x <= y
    ensures RoundHalfAway(x) <= RoundHalfAway(y)
  {
  }

  /** Rounding fixes every whole number. */
  lemma RoundHalfAwayOfInt(n: int)
    ensures RoundHalfAway(n as real) == n
  {
    if n < 0 {
      assert -(n as real) == (-n) as real;
    }
  }

  lemma Round8Monotone(x: real, y: real)
    requires x <= y
    ensures Round8(x) <= Round8(y)
  {
    RoundHalfAwayMonotone(x * SCALE, y * SCALE);
  }

  lemma Round8IsNear(x: real)
    ensures IsUnits(Round8(x)) && -0.5 <= (Round8(x) - x) * SCALE <= 0.5
  {
    RoundHalfAwayIsNearest(x * SCALE);
    assert Round8(x) * SCALE == RoundHalfAway(x * SCALE) as real;
  }

  lemma Round8OfUnits(x: real)
    requires IsUnits(x)
    ensures Round8(x) == x
  {
    RoundHalfAwayOfInt((x * SCALE).Floor);
  }
}
