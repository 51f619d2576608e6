/**
 * Finite values of Python's `decimal.Decimal` in the default context
 * (precision 28): a coefficient and a power-of-ten exponent, and the
 * `quantize` operation with rounding ROUND_DOWN (truncation toward zero).
 */
module Decimals {
  import opened Python

  /** coef × 10^exp, as Decimal keeps it: `Decimal('1.50')` is Decimal(150, -2). */
  datatype Decimal = Decimal(coef: int, exp: int)

  /** 10^28: a coefficient must stay below this in magnitude (the context's 28 digits). */
  const CoefficientBound: nat := 10_000_000_000_000_000_000_000_000_000

  /** The exponent of `Decimal('0.00000001')`: eight decimal places. */
  const EightPlaces: int := -8

  function Pow10(n: nat): (r: nat)
    ensures r >= 1
  {
    if n == 0 then 1 else 10 * Pow10(n - 1)
  }

  /** 10^e as a real number, for any integer e. */
  function Scale(e: int): (r: real)
    ensures r > 0.0
  {
    if e >= 0 then Pow10(e) as real else 1.0 / Pow10(-e) as real
  }

  /** The number a Decimal stands for. */
  function Value(d: Decimal): real {
    d.coef as real * Scale(d.exp)
  }

  predicate FitsPrecision(c: int) {
    -(CoefficientBound as int) < c < CoefficientBound
  }

  /** Integer division truncating toward zero, as Decimal's ROUND_DOWN does. */
  function TruncDiv(a: int, b: nat): (q: int)
    requires b > 0
    ensures a >= 0 ==> 0 <= q * b <= a < (q + 1) * b
    ensures a < 0 ==> (q - 1) * b < a <= q * b <= 0
  {
    if a >= 0 then
      DivBounds(a, b);
      a / b
    else
      DivBounds(-a, b);
      NegatedBounds(-a, b, (-a) / b);
      -((-a) / b)
  }

  lemma DivBounds(a: nat, b: nat)
    requires b > 0
    ensures 0 <= (a / b) * b <= a < (a / b + 1) * b
  {
    var q, r := a / b, a % b;
    assert a == q * b + r && 0 <= r < b;
    assert (q + 1) * b == q * b + b;
    assert q >= 0;
    NatProduct(q, b);
  }

  lemma NatProduct(x: nat, y: nat)
    ensures x * y >= 0
  {
  }

  lemma NegatedBounds(n: int, b: nat, q: int)
    requires b > 0 && 0 <= q * b <= n < (q + 1) * b
    ensures (-q - 1) * b < -n <= (-q) * b <= 0
  {
    assert (-q) * b == -(q * b);
    assert (-q - 1) * b == -((q + 1) * b);
  }

  /** The coefficient `d` has once rescaled to exponent `target`, cut toward zero. */
  function RescaledDown(d: Decimal, target: int): int {
    if d.exp >= target then d.coef * Pow10(d.exp - target)
    else TruncDiv(d.coef, Pow10(target - d.exp))
  }

  /**
   * `d.quantize(Decimal(1E<target>), rounding=ROUND_DOWN)`: the value of `d`
   * with exponent `target`, digits beyond it cut off toward zero; None when
   * the coefficient would need more than 28 digits (InvalidOperation).
   */
  function QuantizeDown(d: Decimal, target: int): (r: Option<Decimal>)
    ensures r.Some? <==> FitsPrecision(RescaledDown(d, target))
    ensures r.Some? ==> r.value.exp == target && r.value.coef == RescaledDown(d, target)
  {
    var c := RescaledDown(d, target);
    if FitsPrecision(c) then Some(Decimal(c, target)) else None
  }

  /** `q` is `d` cut toward zero at q's exponent: no larger, and short by less than one unit of it. */
  predicate TruncationOf(q: Decimal, d: Decimal) {
    Value(q) <= Value(d) < Value(q) + Scale(q.exp)
  }

  /** One unit at eight decimal places is 10^-8. */
  lemma EightPlacesUnit()
    ensures Scale(EightPlaces) == 1.0 / 100_000_000.0
  {
    assert Pow10(8) == 100_000_000;
  }

  /**
   * Cutting a non-negative Decimal down to eight places never increases it
   * and loses less than 10^-8; when it has at most eight places already it
   * loses nothing.
   */
  lemma RescaleEightPlacesBounds(d: Decimal)
    requires d.coef >= 0
    ensures TruncationOf(Decimal(RescaledDown(d, EightPlaces), EightPlaces), d)
    ensures d.exp >= EightPlaces ==> Value(Decimal(RescaledDown(d, EightPlaces), EightPlaces)) == Value(d)
  {
    if d.exp >= 0 {
      RescaleFromWhole(d);
    } else if d.exp >= EightPlaces {
      RescaleFromFewPlaces(d);
    } else {
      RescaleFromManyPlaces(d);
    }
  }

  lemma RescaleFromWhole(d: Decimal)
    requires d.exp >= 0
    ensures Value(Decimal(RescaledDown(d, EightPlaces), EightPlaces)) == Value(d)
  {
    ExactAbove(d.coef, d.exp, RescaledDown(d, EightPlaces));
  }

  lemma RescaleFromFewPlaces(d: Decimal)
    requires EightPlaces <= d.exp < 0
    ensures Value(Decimal(RescaledDown(d, EightPlaces), EightPlaces)) == Value(d)
  {
    ExactBelow(d.coef, d.exp, RescaledDown(d, EightPlaces));
  }

  lemma RescaleFromManyPlaces(d: Decimal)
    requires d.exp < EightPlaces && d.coef >= 0
    ensures TruncationOf(Decimal(RescaledDown(d, EightPlaces), EightPlaces), d)
  {
    Truncated(d.coef, d.exp, RescaledDown(d, EightPlaces));
  }

  lemma {:induction false} Pow10Add(a: nat, b: nat)
    ensures Pow10(a + b) == Pow10(a) * Pow10(b)
  {
    if a > 0 {
      Pow10Add(a - 1, b);
    }
  }

  lemma Pow10Sum(a: nat, b: nat, c: nat)
    requires c == a + b
    ensures Pow10(c) == Pow10(a) * Pow10(b)
  {
    Pow10Add(a, b);
  }

  /** An integer product, read as reals. */
  lemma RealOfProduct(a: int, b: int, c: int)
    requires c == a * b
    ensures c as real == a as real * b as real
  {
  }

  lemma ExactAbove(m: int, e: nat, c: int)
    requires c == m * Pow10(e + 8)
    ensures c as real * (1.0 / Pow10(8) as real) == m as real * Pow10(e) as real
  {
    Pow10Sum(e, 8, e + 8);
    RealOfProduct(Pow10(e), Pow10(8), Pow10(e + 8));
    RealOfProduct(m, Pow10(e + 8), c);
    CancelRight(m as real, Pow10(e) as real, Pow10(8) as real);
  }

  lemma ExactBelow(m: int, e: int, c: int)
    requires -8 <= e < 0 && c == m * Pow10(e + 8)
    ensures c as real * (1.0 / Pow10(8) as real) == m as real * (1.0 / Pow10(-e) as real)
  {
    Pow10Sum(e + 8, -e, 8);
    RealOfProduct(Pow10(e + 8), Pow10(-e), Pow10(8));
    RealOfProduct(m, Pow10(e + 8), c);
    CancelLeft(m as real, Pow10(e + 8) as real, Pow10(-e) as real);
  }

  lemma Truncated(m: int, e: int, c: int)
    requires e < -8 && m >= 0 && c == TruncDiv(m, Pow10(-8 - e))
    ensures c as real * (1.0 / Pow10(8) as real) <= m as real * (1.0 / Pow10(-e) as real)
    ensures m as real * (1.0 / Pow10(-e) as real) < c as real * (1.0 / Pow10(8) as real) + 1.0 / Pow10(8) as real
  {
    var p := Pow10(-8 - e);
    Pow10Sum(-8 - e, 8, -e);
    TruncatedBy(m, c, p, Pow10(8), Pow10(-e));
  }

  /** `c` is `m` divided by `p` and truncated; then c / u and m / (p u) differ by less than 1 / u. */
  lemma TruncatedBy(m: int, c: int, p: nat, u: nat, pu: nat)
    requires p > 0 && u > 0 && pu == p * u
    requires c * p <= m < (c + 1) * p
    ensures c as real * (1.0 / u as real) <= m as real * (1.0 / pu as real)
    ensures m as real * (1.0 / pu as real) < c as real * (1.0 / u as real) + 1.0 / u as real
  {
    RealOfProduct(p, u, pu);
    assert c as real * p as real <= m as real < (c as real + 1.0) * p as real by {
      RealOfProduct(c, p, c * p);
      RealOfProduct(c + 1, p, (c + 1) * p);
    }
    DivideBounds(c as real, m as real, p as real, u as real);
  }

  lemma CancelRight(m: real, p: real, q: real)
    requires q > 0.0
    ensures (m * (p * q)) * (1.0 / q) == m * p
  {
  }

  lemma CancelLeft(m: real, p: real, q: real)
    requires p > 0.0 && q > 0.0
    ensures (m * p) * (1.0 / (p * q)) == m * (1.0 / q)
  {
  }

  lemma DivideBounds(c: real, m: real, p: real, q: real)
    requires p > 0.0 && q > 0.0
    requires c * p <= m < (c + 1.0) * p
    ensures c * (1.0 / q) <= m * (1.0 / (p * q)) < c * (1.0 / q) + 1.0 / q
  {
    assert m * (1.0 / (p * q)) == (m / p) * (1.0 / q);
    assert c <= m / p < c + 1.0;
  }
}
