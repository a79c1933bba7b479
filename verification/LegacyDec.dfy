/**
 Fixed-point decimals with 18 fractional digits, as x/mint uses them.

 A `Dec` is stored as its whole number of 10^-18 units.  Division by another
 decimal scales by 10^36, truncates, and then rounds half to even; division by
 an integer and conversion to an integer truncate toward zero.
 */
module LegacyDec {

  const UNIT: int := 1_000_000_000_000_000_000
  const HALF: int := 500_000_000_000_000_000

  /** A decimal, as its number of 10^-18 units. */
  type Dec = int

  /** Division of big integers: the quotient is truncated toward zero. */
  function TruncQuo(a: int, b: int): (q: int)
    requires b != 0
  {
    if a >= 0 then
      if b > 0 then a / b else -(a / -b)
    else
      if b > 0 then -(-a / b) else -a / -b
  }

  /** Drops 18 digits of a non-negative number, rounding half to even. */
  function RoundHalfEven(n: nat): int {
    var q, r := n / UNIT, n % UNIT;
    if r < HALF then q
    else if r > HALF then q + 1
    else if q % 2 == 0 then q
    else q + 1
  }

  /** Drops 18 digits; a negative number is rounded by its magnitude. */
  function ChopAndRound(n: int): int {
    if n >= 0 then RoundHalfEven(n) else 0 - RoundHalfEven(0 - n)
  }

  function FromInt(i: int): Dec { i * UNIT }

  function Mul(a: Dec, b: Dec): Dec { ChopAndRound(a * b) }

  function Quo(a: Dec, b: Dec): Dec
    requires b != 0
  {
    ChopAndRound(TruncQuo(a * UNIT * UNIT, b))
  }

  function MulInt(a: Dec, i: int): Dec { a * i }

  function QuoInt(a: Dec, i: int): Dec
    requires i != 0
  {
    TruncQuo(a, i)
  }

  function TruncateInt(a: Dec): int { TruncQuo(a, UNIT) }

  // ---------------------------------------------------------------- rounding

  /** Rounding picks a nearest multiple, and an even one on a tie. */
  lemma ChopIsNearestEven(n: int)
    ensures -UNIT <= 2 * (UNIT * ChopAndRound(n) - n) <= UNIT
    ensures 2 * (UNIT * ChopAndRound(n) - n) in {UNIT, -UNIT} ==> ChopAndRound(n) % 2 == 0
  {
    RoundIsNearestEven(if n < 0 then -n else n);
    hide RoundHalfEven;
  }

  lemma RoundIsNearestEven(n: nat)
    ensures -UNIT <= 2 * (UNIT * RoundHalfEven(n) - n) <= UNIT
    ensures 2 * (UNIT * RoundHalfEven(n) - n) in {UNIT, -UNIT} ==> RoundHalfEven(n) % 2 == 0
  {
    var q, r := n / UNIT, n % UNIT;
    assert n == UNIT * q + r;
  }

  lemma ChopIsMonotone(a: int, b: int)
    requires a <= b
    ensures ChopAndRound(a) <= ChopAndRound(b)
  {
    ChopIsNearestEven(a);
    ChopIsNearestEven(b);
  }

  lemma FloorQuo(a: int, b: int)
    requires b > 0
    ensures a >= 0 ==> b * TruncQuo(a, b) <= a < b * TruncQuo(a, b) + b
    ensures a <= 0 ==> b * TruncQuo(a, b) - b < a <= b * TruncQuo(a, b)
    ensures a >= 0 ==> TruncQuo(a, b) >= 0
    ensures a <= 0 ==> TruncQuo(a, b) <= 0
  {
    var m := if a < 0 then -a else a;
    assert m == b * (m / b) + m % b;
    assert m / b >= 0;
    if a == 0 { assert 0 / b == 0; }
  }

  lemma ProductOrder(b: int, x: int, y: int)
    requires b > 0 && b * x < b * y + b
    ensures x <= y
  {
    if x > y {
      ProductStep(b, x, y);
    }
  }

  lemma ProductStep(b: int, x: int, y: int)
    requires b > 0 && x > y
    ensures b * x >= b * y + b
  {
    assert b * x == b * (x - y - 1) + b * y + b;
  }

  lemma TruncQuoIsMonotone(a: int, c: int, b: int)
    requires b > 0 && a <= c
    ensures TruncQuo(a, b) <= TruncQuo(c, b)
  {
    FloorQuo(a, b);
    FloorQuo(c, b);
    if c < 0 {
      ProductOrder(b, TruncQuo(a, b), TruncQuo(c, b));
    } else if a >= 0 {
      ProductOrder(b, TruncQuo(a, b), TruncQuo(c, b));
    }
  }

  /** A quotient by a positive decimal is off by at most half a unit and a 10^-18 part of
      one, so it is a nearest decimal unless the exact one lies that close to a tie. */
  lemma QuoIsNearest(a: Dec, b: Dec)
    requires b > 0
    ensures -(UNIT * b + 2 * b) <= 2 * (UNIT * (b * Quo(a, b)) - a * UNIT * UNIT) <= UNIT * b + 2 * b
  {
    var n := a * UNIT * UNIT;
    var q := TruncQuo(n, b);
    var r := ChopAndRound(q);
    FloorQuo(n, b);
    ChopIsNearestEven(q);
    hide TruncQuo, ChopAndRound;
    var d := 2 * (UNIT * r - q);
    ProductMonotone(b, d, UNIT);
    ProductMonotone(b, -UNIT, d);
    Regrouped(b, r, q);
  }

  lemma Regrouped(b: int, r: int, q: int)
    ensures b * (2 * (UNIT * r - q)) == 2 * (UNIT * (b * r)) - 2 * (b * q)
  {
  }

  /** Ties go to the even neighbour: half a unit to none, one and a half to two. */
  lemma QuoTies()
    ensures Quo(1, 2 * UNIT) == 0 && Quo(3, 2 * UNIT) == 2 && Quo(-3, 2 * UNIT) == -2
    ensures Mul(1, HALF) == 0 && Mul(3, HALF) == 2
  {
  }

  /** Division by a positive decimal never reverses an order. */
  lemma QuoIsMonotone(a: Dec, c: Dec, b: Dec)
    requires b > 0 && a <= c
    ensures Quo(a, b) <= Quo(c, b)
  {
    TruncQuoIsMonotone(a * UNIT * UNIT, c * UNIT * UNIT, b);
    ChopIsMonotone(TruncQuo(a * UNIT * UNIT, b), TruncQuo(c * UNIT * UNIT, b));
  }

  /** Multiplication by a non-negative decimal never reverses an order. */
  lemma MulIsMonotone(a: Dec, c: Dec, b: Dec)
    requires b >= 0 && a <= c
    ensures Mul(a, b) <= Mul(c, b)
  {
    assert a * b <= c * b;
    ChopIsMonotone(a * b, c * b);
  }

  /** Truncating twice is the same as one floor division by the product. */
  lemma TruncateTwice(a: int, b: int)
    requires a >= 0 && b > 0
    ensures var p := TruncateInt(QuoInt(a, b));
            p >= 0 && UNIT * (b * p) <= a < UNIT * (b * p) + UNIT * b
  {
    var q := QuoInt(a, b);
    var p := TruncateInt(q);
    FloorQuo(a, b);
    FloorQuo(q, UNIT);
    Sandwich(a, b, q, p);
  }

  lemma Sandwich(a: int, b: int, q: int, p: int)
    requires b > 0
    requires b * q <= a < b * q + b
    requires UNIT * p <= q < UNIT * p + UNIT
    ensures UNIT * (b * p) <= a < UNIT * (b * p) + UNIT * b
  {
    var r := q - UNIT * p;
    Expand(b, p, r);
    ProductMonotone(b, 0, r);
    ProductMonotone(b, r + 1, UNIT);
  }

  lemma Expand(b: int, p: int, r: int)
    ensures b * (UNIT * p + r) == UNIT * (b * p) + b * r
    ensures b * (r + 1) == b * r + b
  {
  }

  lemma ProductMonotone(b: int, x: int, y: int)
    requires b >= 0 && x <= y
    ensures b * x <= b * y
  {
  }
}
