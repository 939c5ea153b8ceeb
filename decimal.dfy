/** cosmwasm's `Decimal`: a fixed-point number stored as a `u128` count of
    10^-18 units ("atomics"). It is not a float: every operation below is
    exact integer arithmetic, and the two products floor. */
module Decimal {
  import opened Common

  const FRACTIONAL: nat := 1_000_000_000_000_000_000

  type Decimal = a: nat | a < U128_LIMIT

  const ZERO: Decimal := 0
  const ONE: Decimal := FRACTIONAL

  /** `Decimal::percent(p)`. */
  function Percent(p: nat): (d: Decimal)
    requires p * 10_000_000_000_000_000 < U128_LIMIT
    ensures d * 100 == p * FRACTIONAL
  {
    p * 10_000_000_000_000_000
  }

  /** `Uint128::multiply_ratio(num, denom)`: `floor(x * num / denom)` computed
      with a wide intermediate; a zero denominator or a quotient that does not
      fit in `u128` panics. */
  function MultiplyRatio(x: u128, num: nat, denom: nat): (r: Result<u128>)
    ensures r.Ok? <==> denom != 0 && x * num / denom < U128_LIMIT
    ensures r.Ok? ==> r.value * denom <= x * num < (r.value + 1) * denom
  {
    if denom == 0 then Err(Abort("division by zero"))
    else if x * num / denom < U128_LIMIT then Ok(x * num / denom)
    else Err(Abort("multiplication overflow"))
  }

  /** `Decimal * Uint128` (and `Uint128 * Decimal`): the floor of the exact
      product. */
  function MulFloor(d: Decimal, x: u128): (r: Result<u128>)
    ensures r.Ok? <==> x * d / FRACTIONAL < U128_LIMIT
    ensures r.Ok? ==> r.value * FRACTIONAL <= x * d < (r.value + 1) * FRACTIONAL
    ensures d <= ONE ==> r.Ok? && r.value <= x
  {
    if x == 0 || d == 0 then Ok(0)
    else
      var r := MultiplyRatio(x, d, FRACTIONAL);
      if r.Ok? && d <= ONE then
        assert x * d <= x * FRACTIONAL by { MulMono(x, d, FRACTIONAL); }
        r
      else r
  }

  /** `Decimal::from_ratio(num, denom)`: the floor of `num / denom` in atomics;
      it panics when `denom` is zero or the quotient does not fit. */
  function FromRatio(num: u128, denom: nat): (r: Result<Decimal>)
    ensures r.Ok? <==> denom != 0 && num * FRACTIONAL / denom < U128_LIMIT
    ensures r.Ok? ==> r.value * denom <= num * FRACTIONAL < (r.value + 1) * denom
  {
    MultiplyRatio(num, FRACTIONAL, denom)
  }

  /** `Decimal + Decimal`: raw `u128` addition of the atomics, which panics on
      overflow. */
  function Add(a: Decimal, b: Decimal): (r: Result<Decimal>)
    ensures r.Ok? <==> a + b < U128_LIMIT
    ensures r.Ok? ==> r.value == a + b
  {
    if a + b < U128_LIMIT then Ok(a + b) else Err(Abort("attempt to add with overflow"))
  }

  /** The integer part, `floor(d)`. */
  function IntegerPart(d: Decimal): (n: u128)
    ensures n * FRACTIONAL <= d < (n + 1) * FRACTIONAL
  {
    d / FRACTIONAL
  }

  /** The fractional part, as a decimal below one. */
  function FractionalPart(d: Decimal): (f: Decimal)
    ensures f < ONE
    ensures IntegerPart(d) * FRACTIONAL + f == d
  {
    d % FRACTIONAL
  }

  lemma MulMono(x: nat, a: nat, b: nat)
    requires a <= b
    ensures x * a <= x * b
  {}
}
