/** The few JavaScript number operations the views rely on, over exact reals. */
module JsMath {
  import opened Wrappers

  /** `x || 0` for a numeric field that may be missing: a missing field reads as 0. */
  function OrZero(x: Option<real>): (r: real)
    ensures x.None? ==> r == 0.0
    ensures x.Some? ==> r == x.value
  {
    x.GetOr(0.0)
  }

  /** `x || 0` for a whole-number field that may be missing. */
  function OrZeroNat(x: Option<nat>): (r: nat)
    ensures x.None? ==> r == 0
    ensures x.Some? ==> r == x.value
  {
    x.GetOr(0)
  }

  /** `Math.round(x)`: the nearest integer, halves rounded towards +infinity. */
  function Round(x: real): (r: int)
    ensures x - 0.5 < r as real <= x + 0.5
  {
    (x + 0.5).Floor
  }

  /** True when x has at most one decimal place. */
  predicate OneDecimal(x: real) {
    (x * 10.0).Floor as real == x * 10.0
  }

  /** `Math.round(x * 10) / 10`: rounding to one decimal place. */
  function RoundTenth(x: real): (r: real)
    ensures OneDecimal(r)
    ensures x - 0.05 < r <= x + 0.05
  {
    Round(x * 10.0) as real / 10.0
  }

  /** The integer `Math.round` picks is the only one within the half-open window around x. */
  lemma RoundUnique(x: real, n: int)
    requires x - 0.5 < n as real <= x + 0.5
    ensures Round(x) == n
  {
  }

  /** True when x lies exactly halfway between two integers. */
  predicate IsHalfway(x: real) {
    (x + 0.5).Floor as real == x + 0.5
  }
}
