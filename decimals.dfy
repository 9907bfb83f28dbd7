/** Finite decimals as Python's `Decimal.as_tuple()` sees them: a signed
    coefficient and a base-10 exponent, value `coef × 10^exp`. Different
    pairs may denote the same number (`1.0` and `1.00`), exactly as in
    Python, where they compare equal but have different exponents. */
module Decimals {

  datatype Dec = Dec(coef: int, exp: int)

  function Pow10(n: nat): (r: nat)
    ensures r >= 1
  {
    if n == 0 then 1 else 10 * Pow10(n - 1)
  }

  function Min(a: int, b: int): int { if a <= b then a else b }

  /** The coefficient `a` has when written with the smaller exponent `e`. */
  function CoefAt(a: Dec, e: int): int
    requires e <= a.exp
  {
    a.coef * Pow10(a.exp - e)
  }

  /** Numeric `a < b`, comparing both at their common exponent. */
  predicate Less(a: Dec, b: Dec)
  {
    var e := Min(a.exp, b.exp);
    CoefAt(a, e) < CoefAt(b, e)
  }

  /** Numeric `a < 0`. */
  predicate IsNegative(a: Dec)
  {
    a.coef < 0
  }

  lemma MulSucc(q: int, d: int)
    ensures (q + 1) * d == q * d + d
  {
  }

  lemma MulNeg(q: int, d: int)
    ensures (-q) * d == -(q * d)
  {
  }

  /** `n / d` rounded to the nearest integer, ties to the even neighbour,
      for `n >= 0`. */
  function DivHalfEvenNat(n: nat, d: int): (q: int)
    requires d > 0
    ensures -d <= 2 * (n - q * d) <= d
    ensures 2 * (n - q * d) == d || 2 * (n - q * d) == -d ==> q % 2 == 0
  {
    var q0, r := n / d, n % d;
    assert n == q0 * d + r && 0 <= r < d;
    if 2 * r > d || (2 * r == d && q0 % 2 == 1) then
      MulSucc(q0, d);
      q0 + 1
    else q0
  }

  /** `n / d` rounded to the nearest integer, ties to the even neighbour
      (Python's default rounding, ROUND_HALF_EVEN); symmetric in the sign. */
  function DivHalfEven(n: int, d: int): (q: int)
    requires d > 0
    ensures -d <= 2 * (n - q * d) <= d
    ensures 2 * (n - q * d) == d || 2 * (n - q * d) == -d ==> q % 2 == 0
  {
    if n >= 0 then DivHalfEvenNat(n, d)
    else
      var q' := DivHalfEvenNat(-n, d);
      MulNeg(q', d);
      -q'
  }

  /** `a.quantize(Decimal('0.01'))`: `a` rewritten with exponent -2, exactly
      when it already has at most two decimals, rounded half-even otherwise. */
  function Quantize2(a: Dec): (r: Dec)
    ensures r.exp == -2
    ensures a.exp >= -2 ==> CoefAt(a, -2) == r.coef
    ensures a.exp < -2 ==>
      var k: int := Pow10(-2 - a.exp);
      -k <= 2 * (a.coef - CoefAt(r, a.exp)) <= k
    ensures a.exp < -2 ==>
      var k: int := Pow10(-2 - a.exp);
      (2 * (a.coef - CoefAt(r, a.exp)) == k || 2 * (a.coef - CoefAt(r, a.exp)) == -k) ==> r.coef % 2 == 0
  {
    if a.exp >= -2 then Dec(a.coef * Pow10(a.exp + 2), -2)
    else Dec(DivHalfEven(a.coef, Pow10(-2 - a.exp)), -2)
  }
}
