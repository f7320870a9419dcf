/** `div_rounding_up` from `unsafe_math.rs`, as written and as intended. */
module UnsafeMath {
  import opened Word

  /** The ceiling of `a / b`, the value a rounding-up division should give. */
  function CeilDiv(a: nat, b: nat): nat
    requires b != 0
  {
    (a + b - 1) / b
  }

  /** The quotient and remainder of `a / b` never sum to more than `a`. */
  lemma QuotientPlusRemainder(a: nat, b: nat)
    requires b != 0
    ensures a / b + a % b <= a
  {
    assert a == (a / b) * b + a % b;
    MulAtLeastLeft(a / b, b);
  }

  /** `div_rounding_up` as written: on a nonzero remainder it adds the
      remainder to the quotient instead of adding one. The sum stays within
      `a`, so it never wraps. */
  function DivRoundingUp(a: U256, b: U256): (r: U256)
    requires b != 0
    ensures a % b == 0 ==> r * b == a
    ensures a % b != 0 ==> r == a / b + a % b
    ensures r <= a
  {
    QuotientPlusRemainder(a, b);
    var quotient, remainder := a / b, a % b;
    if remainder == 0 then quotient else quotient + remainder
  }

  /** The intended rounding-up division: one more than the quotient when the
      division leaves a remainder. */
  function DivRoundingUpCorrected(a: U256, b: U256): (r: U256)
    requires b != 0
    ensures (r - 1) * b < a <= r * b
  {
    var quotient, remainder := a / b, a % b;
    assert a == quotient * b + remainder;
    if remainder == 0 then quotient
    else
      assert (quotient + 1) * b == quotient * b + b;
      QuotientPlusRemainder(a, b);
      quotient + 1
  }

  /** The corrected helper is the ceiling. */
  lemma CorrectedIsCeiling(a: U256, b: U256)
    requires b != 0
    ensures DivRoundingUpCorrected(a, b) == CeilDiv(a, b)
  {
    var q, r := a / b, a % b;
    assert a == q * b + r;
    if r == 0 {
      DivUnique(a + b - 1, b, q, b - 1);
    } else {
      DivUnique(a + b - 1, b, q + 1, r - 1);
    }
  }

  /** The helper as written never rounds below the ceiling, and agrees with it
      exactly when the remainder is zero or one. */
  lemma AsWrittenVersusCeiling(a: U256, b: U256)
    requires b != 0
    ensures DivRoundingUp(a, b) >= CeilDiv(a, b)
    ensures DivRoundingUp(a, b) == CeilDiv(a, b) <==> a % b <= 1
  {
    CorrectedIsCeiling(a, b);
  }

  /** A remainder of two exposes the difference: `div_rounding_up(5, 3)`
      gives 3 where the ceiling of 5/3 is 2. */
  lemma AsWrittenCounterexample()
    ensures DivRoundingUp(5, 3) == 3
    ensures CeilDiv(5, 3) == 2
    ensures DivRoundingUpCorrected(5, 3) == 2
  {
  }
}
