/**
 The inflation arithmetic of x/mint: the yearly inflation rate is nudged toward
 the bonding goal, clamped so that a year pays out between two token amounts,
 and turned into an amount per block.
 */
module Inflation {
  import opened Basics
  import opened LegacyDec

  const TWO_63: int := 0x8000_0000_0000_0000

  /** BlocksPerYear is an unsigned 64-bit field. */
  datatype Params = Params(
    mintDenom: string,
    inflationRateChange: Dec,
    goalBonded: Dec,
    blocksPerYear: nat,
    maxTokenPerYear: int,
    minTokenPerYear: int)

  datatype Minter = Minter(inflation: Dec, annualProvisions: Dec)

  datatype Provision = Coin(denom: string, amount: nat) | Panic

  /** What Params.Validate accepts (the denomination's syntax is not modelled). */
  predicate ValidParams(p: Params) {
    && 0 <= p.inflationRateChange <= UNIT
    && 0 < p.goalBonded <= UNIT
    && 0 < p.blocksPerYear < TWO_64
    && p.minTokenPerYear <= p.maxTokenPerYear
  }

  /** Go's int64(uint64) conversion: the upper half of the range turns negative. */
  function ToInt64(u: nat): int
    requires u < TWO_64
  {
    if u < TWO_63 then u else u - TWO_64
  }

  /** The rate change of one block, possibly negative. */
  function RateChange(p: Params, bondedRatio: Dec): Dec
    requires ValidParams(p)
  {
    var perYear := Mul(UNIT - Quo(bondedRatio, p.goalBonded), p.inflationRateChange);
    Quo(perYear, FromInt(ToInt64(p.blocksPerYear)))
  }

  function Clamp(x: Dec, low: Dec, high: Dec): Dec {
    var capped := if x > high then high else x;
    if capped < low then low else capped
  }

  function NextInflationRate(m: Minter, p: Params, bondedRatio: Dec, supply: int): Dec
    requires ValidParams(p)
  {
    if FromInt(supply) < 1 then
      m.inflation
    else
      var high := Quo(FromInt(p.maxTokenPerYear), FromInt(supply));
      var low := Quo(FromInt(p.minTokenPerYear), FromInt(supply));
      Clamp(m.inflation + RateChange(p, bondedRatio), low, high)
  }

  function NextAnnualProvisions(m: Minter, supply: int): Dec {
    MulInt(m.inflation, supply)
  }

  function ProvisionAmount(m: Minter, p: Params): int
    requires ValidParams(p)
  {
    TruncateInt(QuoInt(m.annualProvisions, ToInt64(p.blocksPerYear)))
  }

  /** A coin with a negative amount cannot be built: the constructor panics. */
  function BlockProvision(m: Minter, p: Params): Provision
    requires ValidParams(p)
  {
    var amount := ProvisionAmount(m, p);
    if amount < 0 then Panic else Coin(p.mintDenom, amount)
  }

  /** The minter stored at the start of a block. */
  function NextMinter(m: Minter, p: Params, bondedRatio: Dec, supply: int): Minter
    requires ValidParams(p)
  {
    var next := m.(inflation := NextInflationRate(m, p, bondedRatio, supply));
    next.(annualProvisions := NextAnnualProvisions(next, supply))
  }

  // ------------------------------------------------------------ inflation rate

  /** The rounded ratio of a token amount to the supply, times the supply. */
  lemma RatioTimesSupply(tokens: int, supply: int)
    requires tokens >= 0 && supply > 0
    ensures var r := Quo(FromInt(tokens), FromInt(supply));
            && 2 * (r * supply) <= 2 * (UNIT * tokens) + supply
            && r * supply >= UNIT * tokens - supply
  {
    var n, d := FromInt(tokens) * UNIT * UNIT, FromInt(supply);
    var q := TruncQuo(n, d);
    var r := ChopAndRound(q);
    FloorQuo(n, d);
    ChopIsNearestEven(q);
    Rescale(supply, q);
    assert supply * q <= UNIT * (UNIT * tokens) < supply * q + supply;
    Scale(supply, 2 * (UNIT * r - q), UNIT);
    Spread(supply, r, q);
  }

  lemma Rescale(s: int, q: int)
    ensures (s * UNIT) * q == UNIT * (s * q)
  {
  }

  lemma Spread(s: int, r: int, q: int)
    ensures s * (2 * (UNIT * r - q)) == 2 * UNIT * (r * s) - 2 * (s * q)
  {
  }

  lemma Scale(s: int, x: int, bound: int)
    requires s > 0 && -bound <= x <= bound
    ensures -(s * bound) <= s * x <= s * bound
  {
    ProductMonotone(s, x, bound);
    ProductMonotone(s, -bound, x);
    assert s * -bound == -(s * bound);
  }

  /** The same for an amount below zero: rounding is by magnitude. */
  lemma NegativeRatioTimesSupply(tokens: int, supply: int)
    requires tokens <= 0 && supply > 0
    ensures var r := Quo(FromInt(tokens), FromInt(supply));
            && 2 * (r * supply) >= 2 * (UNIT * tokens) - supply
            && r * supply <= UNIT * tokens + supply
  {
    hide Quo;
    RatioTimesSupply(-tokens, supply);
    QuoOfNegative(FromInt(-tokens), FromInt(supply));
    assert FromInt(tokens) == -FromInt(-tokens);
    NegatedProduct(Quo(FromInt(-tokens), FromInt(supply)), supply);
  }

  lemma NegatedProduct(x: int, y: int)
    ensures (-x) * y == -(x * y)
  {
  }

  lemma QuoOfNegative(a: Dec, b: Dec)
    requires b > 0
    ensures Quo(-a, b) == -Quo(a, b)
  {
    NegatedProduct(a, UNIT);
    NegatedProduct(a * UNIT, UNIT);
    var n := a * UNIT * UNIT;
    TruncQuoIsOdd(n, b);
    ChopIsOdd(TruncQuo(n, b));
    hide TruncQuo, ChopAndRound;
  }

  lemma TruncQuoIsOdd(n: int, b: int)
    requires b > 0
    ensures TruncQuo(-n, b) == -TruncQuo(n, b)
  {
  }

  lemma ChopIsOdd(n: int)
    ensures ChopAndRound(-n) == -ChopAndRound(n)
  {
    hide RoundHalfEven;
    if n == 0 {
      RoundingNothing();
    }
  }

  lemma RoundingNothing()
    ensures RoundHalfEven(0) == 0
  {
  }

  /** The rate stays between the rounded yearly minimum and maximum ratios, whatever
      their signs, and so the yearly provisions stay within one supply unit of the two
      token amounts: within half a unit where rounding goes away from zero. */
  lemma InflationStaysInBand(m: Minter, p: Params, bondedRatio: Dec, supply: int)
    requires ValidParams(p) && supply > 0
    ensures var r := NextInflationRate(m, p, bondedRatio, supply);
            && Quo(FromInt(p.minTokenPerYear), FromInt(supply)) <= r
            && r <= Quo(FromInt(p.maxTokenPerYear), FromInt(supply))
            && UNIT * p.minTokenPerYear - supply <= r * supply <= UNIT * p.maxTokenPerYear + supply
            && (p.maxTokenPerYear >= 0 ==> 2 * (r * supply) <= 2 * (UNIT * p.maxTokenPerYear) + supply)
            && (p.minTokenPerYear <= 0 ==> 2 * (r * supply) >= 2 * (UNIT * p.minTokenPerYear) - supply)
  {
    var r := NextInflationRate(m, p, bondedRatio, supply);
    var high := Quo(FromInt(p.maxTokenPerYear), FromInt(supply));
    var low := Quo(FromInt(p.minTokenPerYear), FromInt(supply));
    QuoIsMonotone(FromInt(p.minTokenPerYear), FromInt(p.maxTokenPerYear), FromInt(supply));
    InOrder(low, r, high, supply);
    hide Quo, RateChange;
    if p.maxTokenPerYear >= 0 {
      RatioTimesSupply(p.maxTokenPerYear, supply);
    } else {
      NegativeRatioTimesSupply(p.maxTokenPerYear, supply);
    }
    if p.minTokenPerYear >= 0 {
      RatioTimesSupply(p.minTokenPerYear, supply);
    } else {
      NegativeRatioTimesSupply(p.minTokenPerYear, supply);
    }
    assert low <= r <= high;
  }

  lemma InOrder(x: int, y: int, z: int, s: int)
    requires x <= y <= z && s > 0
    ensures x * s <= y * s <= z * s
  {
  }

  /** More bonding never raises the next inflation rate. */
  lemma InflationFallsWithBonding(m: Minter, p: Params, low: Dec, high: Dec, supply: int)
    requires ValidParams(p) && p.blocksPerYear < TWO_63
    requires low <= high
    ensures NextInflationRate(m, p, high, supply) <= NextInflationRate(m, p, low, supply)
  {
    hide Quo, Mul;
    QuoIsMonotone(low, high, p.goalBonded);
    var a, b := UNIT - Quo(high, p.goalBonded), UNIT - Quo(low, p.goalBonded);
    MulIsMonotone(a, b, p.inflationRateChange);
    QuoIsMonotone(Mul(a, p.inflationRateChange), Mul(b, p.inflationRateChange),
                  FromInt(ToInt64(p.blocksPerYear)));
  }

  // ------------------------------------------------------------ the bonding goal

  /** A decimal quotient is off by at most one unit. */
  lemma QuoIsNear(a: Dec, b: Dec)
    requires b > 0
    ensures -b <= Quo(a, b) * b - a * UNIT <= b
  {
    hide Quo;
    QuoIsNearest(a, b);
    WithoutUnit(b * Quo(a, b), a, b);
  }

  lemma WithoutUnit(x: int, a: int, b: int)
    requires b > 0 && -(UNIT * b + 2 * b) <= 2 * (UNIT * x - a * UNIT * UNIT) <= UNIT * b + 2 * b
    ensures -b <= x - a * UNIT <= b
  {
  }

  /** Two errors, scaled and added. */
  lemma AddErrors(x: int, e: int, y: int, d: int)
    requires x >= 0 && -e <= y <= e && d == x * e
    ensures -d <= x * y <= d
  {
    ProductMonotone(x, y, e);
    ProductMonotone(x, -e, y);
  }

  /** The change of a block, times the blocks of a year and the goal, is the yearly
      change times the distance to the goal, up to the roundings. */
  lemma ChangeIsProportional(p: Params, bondedRatio: Dec)
    requires ValidParams(p)
    ensures var b := ToInt64(p.blocksPerYear);
            var error := RateChange(p, bondedRatio) * b * p.goalBonded
                         - (p.goalBonded - bondedRatio) * p.inflationRateChange;
            var most := p.goalBonded * (2 * (if b < 0 then -b else b) + 3);
            -most <= 2 * error <= most
  {
    hide Quo, Mul, ToInt64;
    var b, g, c := ToInt64(p.blocksPerYear), p.goalBonded, p.inflationRateChange;
    BlocksAreSome(p);
    QuoIsNear(bondedRatio, g);
    var a := UNIT - Quo(bondedRatio, g);
    MulIsNear(a, c);
    var m := Mul(a, c);
    QuoByInt(m, b);
    var x := Quo(m, FromInt(b));
    Proportion(x, b, if b < 0 then -b else b, m, a, g, c, bondedRatio, Quo(bondedRatio, g));
  }

  lemma BlocksAreSome(p: Params)
    requires ValidParams(p)
    ensures ToInt64(p.blocksPerYear) != 0 && FromInt(ToInt64(p.blocksPerYear)) != 0
  {
  }

  lemma MulIsNear(a: Dec, b: Dec)
    ensures -UNIT <= 2 * (UNIT * Mul(a, b) - a * b) <= UNIT
  {
    ChopIsNearestEven(a * b);
    hide ChopAndRound;
  }

  lemma QuoByInt(m: Dec, b: int)
    requires b != 0
    ensures FromInt(b) != 0
    ensures var size := if b < 0 then -b else b;
            -size <= Quo(m, FromInt(b)) * b - m <= size
  {
    hide Quo;
    var size := if b < 0 then -b else b;
    QuoIsNear(m, FromInt(size));
    if b < 0 {
      QuoByNegative(m, FromInt(b));
      NegatedProduct(Quo(m, FromInt(size)), size);
      assert FromInt(size) == -FromInt(b);
    }
    Unscaled(Quo(m, FromInt(size)), size, m);
  }

  lemma Unscaled(x: int, b: int, m: int)
    requires -(b * UNIT) <= x * (b * UNIT) - m * UNIT <= b * UNIT
    ensures -b <= x * b - m <= b
  {
    assert x * (b * UNIT) - m * UNIT == (x * b - m) * UNIT;
  }

  lemma Proportion(x: int, b: int, size: int, m: int, a: int, g: int, c: int, r: int, q: int)
    requires g > 0 && 0 <= c <= UNIT && a == UNIT - q && size >= 0
    requires -g <= q * g - r * UNIT <= g
    requires -UNIT <= 2 * (UNIT * m - a * c) <= UNIT
    requires -size <= x * b - m <= size
    ensures var error, most := x * b * g - (g - r) * c, g * (2 * size + 3);
            -most <= 2 * error <= most
  {
    AddErrors(g, size, x * b - m, g * size);
    AddErrors(g, UNIT, 2 * (UNIT * m - a * c), g * UNIT);
    ShareOfGoal(g, c, a, q, r);
    Together(x * b, m, a, g, c, r);
    assert g * (2 * size + 3) == 2 * (g * size) + 3 * g;
  }

  lemma ShareOfGoal(g: int, c: int, a: int, q: int, r: int)
    requires g > 0 && 0 <= c <= UNIT && a == UNIT - q
    requires -g <= q * g - r * UNIT <= g
    ensures -(g * UNIT) <= c * (a * g - (g - r) * UNIT) <= g * UNIT
  {
    assert a * g - (g - r) * UNIT == r * UNIT - q * g;
    AddErrors(c, g, r * UNIT - q * g, c * g);
    ProductMonotone(g, c, UNIT);
  }

  /** The three errors of a block's change, brought together. */
  lemma Together(y: int, m: int, a: int, g: int, c: int, r: int)
    ensures 2 * UNIT * (y * g - (g - r) * c)
            == 2 * UNIT * (g * (y - m)) + g * (2 * (UNIT * m - a * c)) + 2 * (c * (a * g - (g - r) * UNIT))
  {
    assert g * (y - m) == g * y - g * m;
    assert g * (2 * (UNIT * m - a * c)) == 2 * UNIT * (g * m) - 2 * (g * (a * c));
    assert c * (a * g - (g - r) * UNIT) == c * (a * g) - UNIT * (c * (g - r));
    assert g * (a * c) == c * (a * g);
  }

  /** With fewer than 2^63 blocks a year the rate of a block rises below the bonding
      goal, stands at it, and falls above it. */
  lemma ChangeAroundGoal(p: Params, bondedRatio: Dec)
    requires ValidParams(p) && p.blocksPerYear < TWO_63
    ensures bondedRatio <= p.goalBonded ==> RateChange(p, bondedRatio) >= 0
    ensures bondedRatio >= p.goalBonded ==> RateChange(p, bondedRatio) <= 0
  {
    hide Quo, Mul;
    var c, blocks := p.inflationRateChange, FromInt(ToInt64(p.blocksPerYear));
    NoDistance(p.goalBonded, c, blocks);
    var a := UNIT - Quo(bondedRatio, p.goalBonded);
    if bondedRatio <= p.goalBonded {
      QuoIsMonotone(bondedRatio, p.goalBonded, p.goalBonded);
      MulIsMonotone(0, a, c);
      QuoIsMonotone(Mul(0, c), Mul(a, c), blocks);
    }
    if bondedRatio >= p.goalBonded {
      QuoIsMonotone(p.goalBonded, bondedRatio, p.goalBonded);
      MulIsMonotone(a, 0, c);
      QuoIsMonotone(Mul(a, c), Mul(0, c), blocks);
    }
  }

  lemma Exactly(b: int, q: int)
    requires b > 0 && q >= 0
    ensures b * q >= 0 && TruncQuo(b * q, b) == q
  {
    AddErrors(b, q, q, b * q);
    FloorQuo(b * q, b);
    var t := TruncQuo(b * q, b);
    hide TruncQuo;
    ProductOrder(b, t, q);
    ProductOrder(b, q, t);
  }

  lemma NoDistance(goal: Dec, c: Dec, blocks: Dec)
    requires goal > 0 && blocks > 0
    ensures Quo(goal, goal) == UNIT && Quo(Mul(0, c), blocks) == 0
  {
    Exactly(goal, UNIT * UNIT);
    assert ChopAndRound(UNIT * UNIT) == UNIT;
    assert goal * UNIT * UNIT == goal * (UNIT * UNIT);
    Exactly(blocks, 0);
    assert 0 * c == 0 && 0 * UNIT * UNIT == 0;
    assert ChopAndRound(0) == 0;
    hide TruncQuo, ChopAndRound;
  }

  /** A rate inside its band moves toward the goal: up while less than the goal is
      bonded, down while more is, and not at all at the goal. */
  lemma RateMovesToGoal(m: Minter, p: Params, bondedRatio: Dec, supply: int)
    requires ValidParams(p) && p.blocksPerYear < TWO_63 && supply > 0
    requires Quo(FromInt(p.minTokenPerYear), FromInt(supply)) <= m.inflation
    requires m.inflation <= Quo(FromInt(p.maxTokenPerYear), FromInt(supply))
    ensures var next := NextInflationRate(m, p, bondedRatio, supply);
            && (bondedRatio <= p.goalBonded ==> next >= m.inflation)
            && (bondedRatio >= p.goalBonded ==> next <= m.inflation)
  {
    hide Quo, RateChange;
    ChangeAroundGoal(p, bondedRatio);
  }

  /** A rate that does not reach an end of its band moves by the yearly change times the
      relative distance to the goal, over the blocks of a year, up to the roundings;
      without supply it does not move. */
  lemma RateMovesBy(m: Minter, p: Params, bondedRatio: Dec, supply: int)
    requires ValidParams(p)
    ensures supply <= 0 ==> NextInflationRate(m, p, bondedRatio, supply) == m.inflation
    ensures supply > 0 ==>
              var b, next := ToInt64(p.blocksPerYear), NextInflationRate(m, p, bondedRatio, supply);
              var error := (next - m.inflation) * b * p.goalBonded
                           - (p.goalBonded - bondedRatio) * p.inflationRateChange;
              var most := p.goalBonded * (2 * (if b < 0 then -b else b) + 3);
              Quo(FromInt(p.minTokenPerYear), FromInt(supply)) < next
                < Quo(FromInt(p.maxTokenPerYear), FromInt(supply)) ==>
              -most <= 2 * error <= most
  {
    hide Quo, RateChange, ToInt64;
    ChangeIsProportional(p, bondedRatio);
    assert (m.inflation + RateChange(p, bondedRatio)) - m.inflation == RateChange(p, bondedRatio);
  }

  /** A bonded ratio: tokens bonded over tokens there are. */
  predicate IsRatio(r: Dec) { 0 <= r <= UNIT }

  /** Never, for any minter, bonded ratios and supply, does more bonding raise the rate. */
  ghost predicate FallsWithBonding(p: Params)
    requires ValidParams(p)
  {
    forall m: Minter, low: Dec, high: Dec, supply: int ::
      IsRatio(low) && IsRatio(high) && low <= high && supply > 0 ==>
        NextInflationRate(m, p, high, supply) <= NextInflationRate(m, p, low, supply)
  }

  lemma QuoByNegative(a: Dec, b: Dec)
    requires b < 0
    ensures Quo(a, b) == -Quo(a, -b)
  {
    var n := a * UNIT * UNIT;
    assert TruncQuo(n, b) == -TruncQuo(n, -b);
    ChopIsOdd(TruncQuo(n, -b));
    hide TruncQuo, ChopAndRound;
  }

  /** With a year of 2^63 blocks or more the conversion to a signed number makes the
      divisor negative, and the rate change of a block rises with the bonded ratio. */
  lemma ChangeRisesWhenTheYearOverflows(p: Params, low: Dec, high: Dec)
    requires ValidParams(p) && p.blocksPerYear >= TWO_63 && low <= high
    ensures RateChange(p, low) <= RateChange(p, high)
  {
    hide Quo, Mul;
    var blocks := FromInt(ToInt64(p.blocksPerYear));
    assert blocks < 0;
    hide FromInt, ToInt64;
    QuoIsMonotone(low, high, p.goalBonded);
    var a, b := UNIT - Quo(high, p.goalBonded), UNIT - Quo(low, p.goalBonded);
    MulIsMonotone(a, b, p.inflationRateChange);
    QuoIsMonotone(Mul(a, p.inflationRateChange), Mul(b, p.inflationRateChange), -blocks);
    QuoByNegative(Mul(a, p.inflationRateChange), blocks);
    QuoByNegative(Mul(b, p.inflationRateChange), blocks);
  }

  lemma WholeRatio(tokens: int)
    ensures Quo(FromInt(tokens), FromInt(1)) == FromInt(tokens)
  {
    var n := tokens * UNIT * UNIT;
    assert FromInt(tokens) * UNIT * UNIT == n * UNIT;
    assert TruncQuo(n * UNIT, UNIT) == n;
    assert ChopAndRound(n) == tokens * UNIT;
  }

  /** Then a chain with everything bonded has a higher rate than one with nothing bonded,
      where the rate starts low enough to be free to move. */
  lemma InflationRisesWhenTheYearOverflows(p: Params)
    requires ValidParams(p) && p.blocksPerYear >= TWO_63 && p.minTokenPerYear != p.maxTokenPerYear
    requires RateChange(p, 0) != RateChange(p, UNIT)
    ensures var m := Minter(FromInt(p.minTokenPerYear) - RateChange(p, 0), 0);
            NextInflationRate(m, p, 0, 1) < NextInflationRate(m, p, UNIT, 1)
  {
    ChangeRisesWhenTheYearOverflows(p, 0, UNIT);
    WholeRatio(p.minTokenPerYear);
    WholeRatio(p.maxTokenPerYear);
    hide RateChange, Quo;
  }

  /** Such parameters exist: a year of 2^64 - 1 blocks. */
  lemma InflationRisesInAnOverflowingYear()
    ensures var p := Params("stake", UNIT, UNIT, TWO_64 - 1, 10, -10);
            ValidParams(p) && RateChange(p, 0) < RateChange(p, UNIT) && !FallsWithBonding(p)
  {
    var p := Params("stake", UNIT, UNIT, TWO_64 - 1, 10, -10);
    assert Quo(0, UNIT) == 0 && Quo(UNIT, UNIT) == UNIT;
    assert Mul(UNIT, UNIT) == UNIT && Mul(0, UNIT) == 0;
    assert ToInt64(p.blocksPerYear) == -1;
    assert Quo(UNIT, FromInt(-1)) == -UNIT && Quo(0, FromInt(-1)) == 0;
    assert RateChange(p, 0) == -UNIT && RateChange(p, UNIT) == 0;
    hide NextInflationRate, RateChange;
    InflationFallsWithBondingIff(p);
  }

  /** A rate with no room between its bounds, or with one change for all ratios, does
      not move with the ratio. */
  lemma InflationStandsStill(m: Minter, p: Params, low: Dec, high: Dec, supply: int)
    requires ValidParams(p) && supply > 0
    requires RateChange(p, low) == RateChange(p, high) || p.minTokenPerYear == p.maxTokenPerYear
    ensures NextInflationRate(m, p, high, supply) == NextInflationRate(m, p, low, supply)
  {
    hide Quo, RateChange;
  }

  /** Exactly when more bonding never raises the rate: the year does not overflow a
      signed number, or there is no room to move, or the change of a block is rounded to
      the same for nothing and for everything bonded. */
  lemma InflationFallsWithBondingIff(p: Params)
    requires ValidParams(p)
    ensures FallsWithBonding(p) <==>
            p.blocksPerYear < TWO_63 || p.minTokenPerYear == p.maxTokenPerYear
            || RateChange(p, 0) == RateChange(p, UNIT)
  {
    hide NextInflationRate, RateChange;
    if p.blocksPerYear < TWO_63 || p.minTokenPerYear == p.maxTokenPerYear || RateChange(p, 0) == RateChange(p, UNIT) {
      forall m: Minter, low: Dec, high: Dec, supply: int
        | IsRatio(low) && IsRatio(high) && low <= high && supply > 0
        ensures NextInflationRate(m, p, high, supply) <= NextInflationRate(m, p, low, supply)
      {
        if p.blocksPerYear < TWO_63 {
          InflationFallsWithBonding(m, p, low, high, supply);
        } else {
          ChangeRisesWhenTheYearOverflows(p, 0, low);
          ChangeRisesWhenTheYearOverflows(p, low, high);
          ChangeRisesWhenTheYearOverflows(p, high, UNIT);
          InflationStandsStill(m, p, low, high, supply);
        }
      }
    } else {
      InflationRisesWhenTheYearOverflows(p);
    }
  }

  // ---------------------------------------------------------- block provisions

  /** Exactly when paying a block panics: the yearly amount is at least a whole token
      per block below zero, or, when the year has overflowed a signed number, above
      it. */
  lemma ProvisionPanicsIff(m: Minter, p: Params)
    requires ValidParams(p)
    ensures BlockProvision(m, p).Panic? <==>
            if p.blocksPerYear < TWO_63 then m.annualProvisions <= -(UNIT * p.blocksPerYear)
            else m.annualProvisions >= UNIT * (TWO_64 - p.blocksPerYear)
  {
    var a, b := m.annualProvisions, ToInt64(p.blocksPerYear);
    if b > 0 {
      NegativeAmountIff(a, b);
    } else {
      assert QuoInt(a, b) == QuoInt(-a, -b);
      NegativeAmountIff(-a, -b);
    }
  }

  /** Two truncating divisions leave a negative number exactly from here on. */
  lemma NegativeAmountIff(a: int, b: int)
    requires b > 0
    ensures TruncateInt(QuoInt(a, b)) < 0 <==> a <= -(UNIT * b)
  {
    if a >= 0 {
      TruncateTwice(a, b);
      assert UNIT * b > 0;
    } else {
      TruncateTwice(-a, b);
      var k := TruncateInt(QuoInt(-a, b));
      assert QuoInt(a, b) == -QuoInt(-a, b);
      assert TruncateInt(QuoInt(a, b)) == -k;
      WholeTokens(-a, b, k);
    }
  }

  lemma WholeTokens(a: nat, b: nat, k: nat)
    requires b > 0 && UNIT * (b * k) <= a < UNIT * (b * k) + UNIT * b
    ensures k > 0 <==> a >= UNIT * b
  {
    if k > 0 {
      ProductMonotone(b, 1, k);
    }
  }

  /** A block of this supply can panic, from some minter and at some bonded ratio. */
  ghost predicate CanPanic(p: Params, supply: int)
    requires ValidParams(p)
  {
    exists m: Minter, ratio: Dec :: BlockProvision(NextMinter(m, p, ratio, supply), p).Panic?
  }

  /** The parameters and the supply decide whether a block can panic: through the
      yearly minimum if it is negative, through the maximum if the year overflowed. */
  lemma CanPanicIff(p: Params, supply: int)
    requires ValidParams(p) && supply > 0
    ensures CanPanic(p, supply) <==>
            if p.blocksPerYear < TWO_63
            then Quo(FromInt(p.minTokenPerYear), FromInt(supply)) * supply <= -(UNIT * p.blocksPerYear)
            else Quo(FromInt(p.maxTokenPerYear), FromInt(supply)) * supply >= UNIT * (TWO_64 - p.blocksPerYear)
  {
    var low, high := Quo(FromInt(p.minTokenPerYear), FromInt(supply)), Quo(FromInt(p.maxTokenPerYear), FromInt(supply));
    QuoIsMonotone(FromInt(p.minTokenPerYear), FromInt(p.maxTokenPerYear), FromInt(supply));
    forall m: Minter, ratio: Dec
      ensures var next := NextMinter(m, p, ratio, supply);
              && low * supply <= next.annualProvisions <= high * supply
              && (BlockProvision(next, p).Panic? <==>
                    if p.blocksPerYear < TWO_63 then next.annualProvisions <= -(UNIT * p.blocksPerYear)
                    else next.annualProvisions >= UNIT * (TWO_64 - p.blocksPerYear))
    {
      var next := NextMinter(m, p, ratio, supply);
      InflationStaysInBand(m, p, ratio, supply);
      InOrder(low, next.inflation, high, supply);
      ProvisionPanicsIff(next, p);
    }
    var change := RateChange(p, 0);
    var lowest, highest := Minter(low - change, 0), Minter(high - change, 0);
    assert NextMinter(lowest, p, 0, supply).annualProvisions == low * supply;
    assert NextMinter(highest, p, 0, supply).annualProvisions == high * supply;
    hide NextMinter, BlockProvision, Quo, RateChange;
  }

  /** A negative minimum is accepted, and halts the chain in its first block. */
  lemma NegativeMinimumPanics()
    ensures var p := Params("stake", 0, UNIT, 1, -1, -1);
            ValidParams(p) && BlockProvision(NextMinter(Minter(0, 0), p, 0, 1), p).Panic?
  {
    var p := Params("stake", 0, UNIT, 1, -1, -1);
    WholeRatio(-1);
    var next := NextMinter(Minter(0, 0), p, 0, 1);
    assert next.inflation == -UNIT;
    ProvisionPanicsIff(next, p);
  }

  datatype BlockInput = BlockInput(supply: int, bondedRatio: Dec)

  /** One block's payout, scaled by the number of blocks of a year. */
  lemma BlockBounds(m: Minter, p: Params, b: BlockInput)
    requires ValidParams(p) && p.blocksPerYear < TWO_63 && p.minTokenPerYear >= 0
    requires b.supply > 0
    ensures var x := ProvisionAmount(NextMinter(m, p, b.bondedRatio, b.supply), p);
            && x >= 0
            && 2 * (UNIT * (p.blocksPerYear * x)) <= 2 * (UNIT * p.maxTokenPerYear) + b.supply
            && UNIT * (p.blocksPerYear * x)
               >= UNIT * p.minTokenPerYear - b.supply - UNIT * p.blocksPerYear
  {
    hide NextInflationRate, Quo, FromInt, QuoInt, TruncateInt, ToInt64, ChopAndRound;
    var rate := NextInflationRate(m, p, b.bondedRatio, b.supply);
    InflationStaysInBand(m, p, b.bondedRatio, b.supply);
    NonNegativeRate(p, b.supply);
    NonNegativeProduct(rate, b.supply);
    TruncateTwice(rate * b.supply, p.blocksPerYear);
    SmallYear(p.blocksPerYear);
  }

  lemma NonNegativeProduct(x: int, y: int)
    requires x >= 0 && y >= 0
    ensures x * y >= 0
  {
  }

  lemma SmallYear(blocks: nat)
    requires blocks < TWO_63
    ensures ToInt64(blocks) == blocks
  {
  }

  lemma NonNegativeRate(p: Params, supply: int)
    requires p.minTokenPerYear >= 0 && supply > 0
    ensures Quo(FromInt(p.minTokenPerYear), FromInt(supply)) >= 0
  {
    FloorQuo(FromInt(p.minTokenPerYear) * UNIT * UNIT, FromInt(supply));
  }

  /** What consecutive blocks pay out in all, the minter carried along. */
  function Emission(m: Minter, p: Params, blocks: seq<BlockInput>): int
    requires ValidParams(p)
    decreases blocks
  {
    if blocks == [] then 0
    else
      var next := NextMinter(m, p, blocks[0].bondedRatio, blocks[0].supply);
      ProvisionAmount(next, p) + Emission(next, p, blocks[1..])
  }

  lemma {:induction false} EmissionBounds(m: Minter, p: Params, blocks: seq<BlockInput>, supply: int)
    requires ValidParams(p) && p.blocksPerYear < TWO_63 && p.minTokenPerYear >= 0
    requires forall i :: 0 <= i < |blocks| ==> 0 < blocks[i].supply <= supply
    ensures var total := p.blocksPerYear * Emission(m, p, blocks);
            && 2 * (UNIT * total) <= |blocks| * YearHigh(p, supply)
            && UNIT * total >= |blocks| * YearLow(p, supply)
    decreases blocks
  {
    hide NextMinter, ProvisionAmount, YearHigh, YearLow;
    if blocks == [] {
      assert p.blocksPerYear * 0 == 0 == 0 * YearHigh(p, supply) == 0 * YearLow(p, supply);
    } else {
      var b := blocks[0];
      var next := NextMinter(m, p, b.bondedRatio, b.supply);
      BlockWithinYear(m, p, b, supply);
      EmissionBounds(next, p, blocks[1..], supply);
      EmissionStep(p, ProvisionAmount(next, p), Emission(next, p, blocks[1..]), |blocks| - 1, supply);
    }
  }

  lemma BlockWithinYear(m: Minter, p: Params, b: BlockInput, supply: int)
    requires ValidParams(p) && p.blocksPerYear < TWO_63 && p.minTokenPerYear >= 0 && 0 < b.supply <= supply
    ensures var x := ProvisionAmount(NextMinter(m, p, b.bondedRatio, b.supply), p);
            && 2 * (UNIT * (p.blocksPerYear * x)) <= YearHigh(p, supply)
            && UNIT * (p.blocksPerYear * x) >= YearLow(p, supply)
  {
    BlockBounds(m, p, b);
    hide NextMinter, ProvisionAmount;
  }

  lemma EmissionStep(p: Params, x: int, rest: int, n: nat, supply: int)
    requires 2 * (UNIT * (p.blocksPerYear * x)) <= YearHigh(p, supply)
    requires UNIT * (p.blocksPerYear * x) >= YearLow(p, supply)
    requires 2 * (UNIT * (p.blocksPerYear * rest)) <= n * YearHigh(p, supply)
    requires UNIT * (p.blocksPerYear * rest) >= n * YearLow(p, supply)
    ensures 2 * (UNIT * (p.blocksPerYear * (x + rest))) <= (n + 1) * YearHigh(p, supply)
    ensures UNIT * (p.blocksPerYear * (x + rest)) >= (n + 1) * YearLow(p, supply)
  {
    hide *;
    Distribute(p.blocksPerYear, x, rest);
    OneMore(n, YearHigh(p, supply));
    OneMore(n, YearLow(p, supply));
  }

  /** Twice the most a year may pay out, in 10^-18 tokens. */
  function YearHigh(p: Params, supply: int): int {
    2 * (UNIT * p.maxTokenPerYear) + supply
  }

  /** The least a year may pay out, in 10^-18 tokens. */
  function YearLow(p: Params, supply: int): int {
    UNIT * p.minTokenPerYear - supply - UNIT * p.blocksPerYear
  }

  lemma Distribute(n: int, x: int, y: int)
    ensures n * (x + y) == n * x + n * y
  {
  }

  /** A year of blocks pays at most the yearly maximum, and at least the yearly
      minimum, up to rounding: half a supply unit above, one supply unit and one
      token per block below (a supply unit is 10^-18 of the largest supply). */
  lemma YearlyEmission(m: Minter, p: Params, blocks: seq<BlockInput>, supply: int)
    requires ValidParams(p) && p.blocksPerYear < TWO_63 && p.minTokenPerYear >= 0
    requires |blocks| == p.blocksPerYear
    requires forall i :: 0 <= i < |blocks| ==> 0 < blocks[i].supply <= supply
    ensures var total := Emission(m, p, blocks);
            && 2 * (UNIT * total) <= 2 * (UNIT * p.maxTokenPerYear) + supply
            && UNIT * total >= UNIT * p.minTokenPerYear - supply - UNIT * p.blocksPerYear
  {
    var n, total := p.blocksPerYear, Emission(m, p, blocks);
    EmissionBounds(m, p, blocks, supply);
    Regroup(n, total);
    Cancel(n, 2 * (UNIT * total), YearHigh(p, supply));
    Cancel(n, YearLow(p, supply), UNIT * total);
  }

  lemma Regroup(n: int, x: int)
    ensures n * (2 * (UNIT * x)) == 2 * (UNIT * (n * x))
    ensures n * (UNIT * x) == UNIT * (n * x)
  {
  }

  lemma Cancel(n: int, x: int, y: int)
    requires n > 0 && n * x <= n * y
    ensures x <= y
  {
    if x > y {
      ProductStep(n, x, y);
    }
  }
}
