/** Small facts about non-negative integer multiplication and floor division
    that the schedule and reward proofs share. */
module Arith {

  function Min(a: int, b: int): (m: int)
    ensures m <= a && m <= b
    ensures m == a || m == b
  {
    if a <= b then a else b
  }

  /** Floor division of naturals. */
  function FloorDiv(a: nat, d: nat): (q: nat)
    requires d > 0
    ensures q * d <= a < (q + 1) * d
  {
    a / d
  }

  /** The floor quotient is the only `q` with `q * d <= a < (q + 1) * d`. */
  lemma FloorDivUnique(a: nat, d: nat, q: nat)
    requires d > 0 && q * d <= a < (q + 1) * d
    ensures FloorDiv(a, d) == q
  {
    var p := FloorDiv(a, d);
    if p < q {
      MulLeMono(p + 1, q, d);
      assert false;
    } else if p > q {
      MulLeMono(q + 1, p, d);
      assert false;
    }
  }

  /** `d` divides `a` exactly when the floor quotient times `d` gives `a` back. */
  lemma DividesIff(a: nat, d: nat)
    requires d > 0
    ensures a % d == 0 <==> a == FloorDiv(a, d) * d
  {
  }

  lemma MulLeMono(a: nat, b: nat, c: nat)
    requires a <= b
    ensures a * c <= b * c
  {}

  /** `(a + 1) * c == a * c + c` */
  lemma MulSucc(a: nat, c: nat)
    ensures (a + 1) * c == a * c + c
  {}

  lemma MulLtMono(a: nat, b: nat, c: nat)
    requires a < b && c > 0
    ensures a * c < b * c
  {}

  /** A product bound gives a factor bound: `a * c < b * c` means `a < b`. */
  lemma MulLtCancel(a: nat, b: nat, c: nat)
    requires a * c < b * c
    ensures a < b
  {
    if a >= b { MulLeMono(b, a, c); }
  }

  lemma DivLeMono(a: nat, b: nat, d: nat)
    requires a <= b && d > 0
    ensures a / d <= b / d
  {
    if a / d > b / d {
      calc {
        b;
      < (b / d + 1) * d;
      <= (a / d) * d;
      <= a;
      }
    }
  }

  /** `(x * d) / d == x` */
  lemma MulDivCancel(x: nat, d: nat)
    requires d > 0
    ensures (x * d) / d == x
  {
    var q, r := (x * d) / d, (x * d) % d;
    assert x * d == q * d + r && 0 <= r < d;
    if q > x {
      assert (x + 1) * d == x * d + d;
      MulLeMono(x + 1, q, d);
      assert false;
    } else if q < x {
      assert (q + 1) * d == q * d + d;
      MulLeMono(q + 1, x, d);
      assert false;
    }
  }

  /** The floor of a fraction below one whole is below the whole:
      `x * k / d <= x` when `k <= d`. */
  lemma FracLe(x: nat, k: nat, d: nat)
    requires 0 < d && k <= d
    ensures x * k / d <= x
  {
    MulLeMono(k, d, x);
    assert x * k <= x * d;
    DivLeMono(x * k, x * d, d);
    MulDivCancel(x, d);
  }
}
