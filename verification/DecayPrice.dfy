/**
  Exact price arithmetic of the dead-stock decay (app/services/decay_service.py).
  Prices are integer cents; the configured percentage is an exact rational in (0, 100].
*/
module DecayPrice {

  datatype PercentRow = Pct(num: int, den: int)

  /** DECAY_DISCOUNT_PCT: num/den percent with 0 < num/den <= 100. */
  type Percent = p: PercentRow | p.den > 0 && 0 < p.num <= 100 * p.den witness Pct(10, 1)

  function Max(a: int, b: int): int { if a >= b then a else b }

  function Min(a: int, b: int): int { if a <= b then a else b }

  /** The integer nearest to n/d, ties away from zero: Decimal's ROUND_HALF_UP. */
  function RoundHalfUp(n: int, d: int): int
    requires d > 0
  {
    if n >= 0 then (2 * n + d) / (2 * d) else -((d - 2 * n) / (2 * d))
  }

  /** `r` is n/d rounded to nearest, ties up. */
  ghost predicate NearestTo(r: int, n: int, d: int) {
    2 * (r * d) - d <= 2 * n < 2 * (r * d) + d
  }

  lemma {:induction false} RoundHalfUpIsNearest(n: nat, d: int, r: int)
    requires d > 0
    ensures r == RoundHalfUp(n, d) <==> NearestTo(r, n, d)
  {
    var x, y := 2 * n + d, 2 * d;
    var q := x / y;
    assert x == q * y + x % y;
    assert q * y == 2 * (q * d);
    assert NearestTo(q, n, d);
    if NearestTo(r, n, d) {
      if r < q {
        MulGap(r, q, d);
      } else if q < r {
        MulGap(q, r, d);
      }
    }
  }

  lemma MulMonotone(a: int, b: int, d: int)
    requires a <= b && d >= 0
    ensures a * d <= b * d
  {
  }

  lemma MulGap(a: int, b: int, d: int)
    requires a < b && d >= 0
    ensures a * d + d <= b * d
  {
    MulMonotone(a + 1, b, d);
    assert (a + 1) * d == a * d + d;
  }

  lemma {:induction false} RoundHalfUpMonotone(m: nat, n: nat, d: int)
    requires d > 0 && m <= n
    ensures 0 <= RoundHalfUp(m, d) <= RoundHalfUp(n, d)
  {
    var a, b := RoundHalfUp(m, d), RoundHalfUp(n, d);
    RoundHalfUpIsNearest(m, d, a);
    RoundHalfUpIsNearest(n, d, b);
    if b < a {
      MulGap(b, a, d);
    }
  }

  /** The discounted price before the floor is applied. */
  function Discounted(price: int, pct: Percent): int {
    RoundHalfUp(price * (100 * pct.den - pct.num), 100 * pct.den)
  }

  /** calculate_decay_price. */
  function CalculateDecayPrice(price: int, floor: int, pct: Percent): int {
    Max(Discounted(price, pct), floor)
  }

  /** The price that rounding can no longer lower: floor(50 / d) cents for d percent. */
  function StuckPrice(pct: Percent): nat {
    (50 * pct.den) / pct.num
  }

  /** n successive discounts without the floor. */
  function DiscountedTimes(n: nat, price: int, pct: Percent): int {
    if n == 0 then price else Discounted(DiscountedTimes(n - 1, price, pct), pct)
  }

  /** n successive decay steps with a fixed floor. */
  function DecayTimes(n: nat, price: int, floor: int, pct: Percent): int {
    if n == 0 then price else CalculateDecayPrice(DecayTimes(n - 1, price, floor, pct), floor, pct)
  }

  /** What a rounded discount does: it never raises, keeps order, and stops exactly at floor(50/d). */
  lemma {:induction false} DiscountedFacts(price: nat, pct: Percent)
    ensures 0 <= Discounted(price, pct) <= price
    ensures Discounted(price, pct) == price <==> price <= StuckPrice(pct)
  {
    var x, d := price * pct.num, 100 * pct.den;
    MulMonotone(pct.num, d, price);
    assert price * (100 * pct.den - pct.num) == price * d - x;
    RoundBelow(price, x, d);
    StuckPriceSpec(price, pct);
  }

  /** Rounding price - x/d, for an x/d between 0 and price. */
  lemma {:induction false} RoundBelow(price: nat, x: nat, d: int)
    requires d > 0 && x <= price * d
    ensures 0 <= RoundHalfUp(price * d - x, d) <= price
    ensures RoundHalfUp(price * d - x, d) == price <==> 2 * x <= d
  {
    var n := price * d - x;
    var g := RoundHalfUp(n, d);
    RoundHalfUpIsNearest(n, d, g);
    RoundHalfUpIsNearest(n, d, price);
    if g > price {
      MulGap(price, g, d);
    }
  }

  lemma {:induction false} StuckPriceSpec(price: nat, pct: Percent)
    ensures price <= StuckPrice(pct) <==> 2 * (price * pct.num) <= 100 * pct.den
  {
    var x, y := 50 * pct.den, pct.num;
    var q := StuckPrice(pct);
    assert x == q * y + x % y;
    if price <= q {
      MulMonotone(price, q, y);
    } else {
      MulGap(q, price, y);
    }
  }

  lemma {:induction false} DiscountedMonotone(p: nat, q: nat, pct: Percent)
    requires p <= q
    ensures Discounted(p, pct) <= Discounted(q, pct)
  {
    var m := 100 * pct.den - pct.num;
    MulMonotone(p, q, m);
    assert p * m >= 0;
    RoundHalfUpMonotone(p * m, q * m, 100 * pct.den);
  }

  /** The decay step is monotone in the price. */
  lemma {:induction false} DecayMonotone(p: nat, q: nat, floor: nat, pct: Percent)
    requires p <= q
    ensures CalculateDecayPrice(p, floor, pct) <= CalculateDecayPrice(q, floor, pct)
  {
    DiscountedMonotone(p, q, pct);
  }

  /**
    A decay step never raises a price exactly when the price is at or above the floor, and it keeps
    every price band [floor, top] that contains the price.
  */
  lemma {:induction false} DecayNeverRaisesIffAtFloor(p: nat, floor: nat, top: nat, pct: Percent)
    ensures CalculateDecayPrice(p, floor, pct) <= p <==> floor <= p
    ensures floor <= p <= top ==> floor <= CalculateDecayPrice(p, floor, pct) <= top
    ensures 0 <= CalculateDecayPrice(p, floor, pct)
  {
    DiscountedFacts(p, pct);
  }

  /**
    What one step answers, and the only answer: the price less its percentage, rounded to the nearest cent with
    ties up, where that is above the floor; and the floor where it is not.
  */
  lemma {:induction false} StepIsNearestOrFloor(p: nat, floor: nat, pct: Percent, r: int)
    ensures r == CalculateDecayPrice(p, floor, pct)
            <==> && r >= floor
                 && (r > floor ==> NearestTo(r, p * (100 * pct.den - pct.num), 100 * pct.den))
                 && (r == floor ==> 2 * (p * (100 * pct.den - pct.num)) < (2 * floor + 1) * (100 * pct.den))
  {
    var n, d := p * (100 * pct.den - pct.num), 100 * pct.den;
    assert n >= 0;
    NearestOrFloor(n, d, RoundHalfUp(n, d), floor, r);
  }

  lemma {:induction false} NearestOrFloor(n: nat, d: int, g: int, floor: nat, r: int)
    requires d > 0 && g == RoundHalfUp(n, d)
    ensures r == Max(g, floor) <==> && r >= floor && (r > floor ==> NearestTo(r, n, d))
                                    && (r == floor ==> 2 * n < (2 * floor + 1) * d)
  {
    RoundHalfUpIsNearest(n, d, g);
    RoundHalfUpIsNearest(n, d, r);
    assert (2 * floor + 1) * d == 2 * (floor * d) + d;
    if g <= floor {
      MulMonotone(g, floor, d);
    } else {
      MulGap(floor, g, d);
    }
  }

  /** The schema's example price at the default 10 percent: 4990.00 becomes 4491.00, well above a floor of 2990.00. */
  lemma FirstStepOfTheExample()
    ensures CalculateDecayPrice(499000, 299000, Pct(10, 1)) == 449100
  {
  }

  lemma {:induction false} DiscountedTimesFacts(n: nat, price: nat, pct: Percent)
    ensures 0 <= DiscountedTimes(n, price, pct) <= price
  {
    if n > 0 {
      DiscountedTimesFacts(n - 1, price, pct);
      DiscountedFacts(DiscountedTimes(n - 1, price, pct), pct);
    }
  }

  /** Clamping at the floor after every step equals clamping once at the end. */
  lemma {:induction false} ClampEveryStepIsClampOnce(n: nat, price: nat, floor: nat, pct: Percent)
    requires n >= 1
    ensures DecayTimes(n, price, floor, pct) == Max(floor, DiscountedTimes(n, price, pct))
  {
    if n > 1 {
      ClampEveryStepIsClampOnce(n - 1, price, floor, pct);
      var free := DiscountedTimes(n - 1, price, pct);
      DiscountedTimesFacts(n - 1, price, pct);
      DiscountedFacts(floor, pct);
      if free <= floor {
        DiscountedMonotone(free, floor, pct);
      }
    } else {
      assert DecayTimes(1, price, floor, pct) == CalculateDecayPrice(DecayTimes(0, price, floor, pct), floor, pct);
      assert DiscountedTimes(1, price, pct) == Discounted(DiscountedTimes(0, price, pct), pct);
    }
  }

  /** Each discount above the stuck price lowers it by at least a cent, and none goes below it. */
  lemma {:induction false} DiscountsDescendToLimit(n: nat, price: nat, pct: Percent)
    ensures var limit := Min(price, StuckPrice(pct));
            limit <= DiscountedTimes(n, price, pct) <= Max(limit, price - n)
  {
    if n > 0 {
      DiscountsDescendToLimit(n - 1, price, pct);
      var limit, before := Min(price, StuckPrice(pct)), DiscountedTimes(n - 1, price, pct);
      DiscountedFacts(before, pct);
      DiscountedFacts(limit, pct);
      DiscountedMonotone(limit, before, pct);
      DiscountedTimesFacts(n - 1, price, pct);
      if before > limit {
        assert before > StuckPrice(pct);
      }
    }
  }

  function DecayLimit(price: nat, floor: nat, pct: Percent): nat {
    Max(floor, Min(price, StuckPrice(pct)))
  }

  /**
    The decay limit. From any price the sequence settles at max(floor, min(price, floor(50/d))): it is
    there after max(1, price - limit) steps at the latest and, from the first step on, never below it.
  */
  lemma {:induction false} DecaySettles(n: nat, price: nat, floor: nat, pct: Percent)
    ensures n >= 1 ==> DecayLimit(price, floor, pct) <= DecayTimes(n, price, floor, pct)
    ensures n >= 1 && n >= price - DecayLimit(price, floor, pct)
            ==> DecayTimes(n, price, floor, pct) == DecayLimit(price, floor, pct)
    ensures price >= floor && n >= price - DecayLimit(price, floor, pct)
            ==> DecayTimes(n, price, floor, pct) == DecayLimit(price, floor, pct)
  {
    if n >= 1 {
      ClampEveryStepIsClampOnce(n, price, floor, pct);
      DiscountsDescendToLimit(n, price, pct);
    }
  }

  /** The limit is the floor exactly when rounding does not get stuck above it. */
  lemma {:induction false} LimitIsFloorIff(price: nat, floor: nat, pct: Percent)
    ensures (forall n: nat | n >= 1 && n >= price - floor :: DecayTimes(n, price, floor, pct) == floor)
            <==> price <= floor || 2 * ((floor + 1) * pct.num) > 100 * pct.den
  {
    StuckPriceSpec(floor + 1, pct);
    var limit := DecayLimit(price, floor, pct);
    if limit == floor {
      forall n: nat | n >= 1 && n >= price - floor
        ensures DecayTimes(n, price, floor, pct) == floor
      {
        DecaySettles(n, price, floor, pct);
      }
    } else {
      var n: nat := Max(1, price - floor);
      DecaySettles(n, price, floor, pct);
      assert DecayTimes(n, price, floor, pct) != floor;
    }
  }

  /** Five cents at 10 percent with a floor of one cent: rounding keeps the price at five for ever. */
  lemma {:induction false} StuckAboveTheFloor(n: nat)
    ensures DecayTimes(n, 5, 1, Pct(10, 1)) == 5
  {
    if n > 0 {
      StuckAboveTheFloor(n - 1);
    }
  }

  /** x * m^n. */
  function Geometric(x: real, m: real, n: nat): real { if n == 0 then x else m * Geometric(x, m, n - 1) }

  /** 1 - d/100. */
  function Multiplier(pct: Percent): real {
    1.0 - pct.num as real / (100.0 * pct.den as real)
  }

  /** 50/d, as a real. */
  function HalfCentTail(pct: Percent): real {
    50.0 * pct.den as real / pct.num as real
  }

  /** Geometric bound: after n steps the price is at most max(floor, price * (1 - d/100)^n + 50/d). */
  lemma {:induction false} DecayGeometricBound(n: nat, price: nat, floor: nat, pct: Percent)
    ensures DecayTimes(n, price, floor, pct) as real <= floor as real
            || DecayTimes(n, price, floor, pct) as real
               <= Geometric(price as real, Multiplier(pct), n) + HalfCentTail(pct)
  {
    DiscountGeometricBound(n, price, pct);
    if n >= 1 {
      ClampEveryStepIsClampOnce(n, price, floor, pct);
    }
  }

  lemma {:induction false} DiscountGeometricBound(n: nat, price: nat, pct: Percent)
    ensures DiscountedTimes(n, price, pct) as real
            <= Geometric(price as real, Multiplier(pct), n) + HalfCentTail(pct)
  {
    if n > 0 {
      DiscountGeometricBound(n - 1, price, pct);
      DiscountedTimesFacts(n - 1, price, pct);
      GeometricStep(DiscountedTimes(n - 1, price, pct), Geometric(price as real, Multiplier(pct), n - 1), pct);
    } else {
      TailNonNegative(50.0 * pct.den as real, pct.num as real);
    }
  }

  /** From below: after n steps the price is at least price * (1 - d/100)^n - 50/d. */
  lemma {:induction false} DecayGeometricFloor(n: nat, price: nat, floor: nat, pct: Percent)
    ensures DecayTimes(n, price, floor, pct) as real
            >= Geometric(price as real, Multiplier(pct), n) - HalfCentTail(pct)
  {
    DiscountGeometricFloor(n, price, pct);
    if n >= 1 {
      ClampEveryStepIsClampOnce(n, price, floor, pct);
    }
  }

  lemma {:induction false} DiscountGeometricFloor(n: nat, price: nat, pct: Percent)
    ensures DiscountedTimes(n, price, pct) as real >= Geometric(price as real, Multiplier(pct), n) - HalfCentTail(pct)
  {
    if n > 0 {
      DiscountGeometricFloor(n - 1, price, pct);
      DiscountedTimesFacts(n - 1, price, pct);
      GeometricStepDown(DiscountedTimes(n - 1, price, pct), Geometric(price as real, Multiplier(pct), n - 1), pct);
    } else {
      TailNonNegative(50.0 * pct.den as real, pct.num as real);
    }
  }

  lemma {:induction false} GeometricStepDown(x: nat, bound: real, pct: Percent)
    requires x as real >= bound - HalfCentTail(pct)
    ensures Discounted(x, pct) as real >= Multiplier(pct) * bound - HalfCentTail(pct)
  {
    MultiplierIs(pct);
    TailIsFixed(pct);
    DiscountedAtLeast(x, pct, Multiplier(pct));
    BoundStepDown(x as real, bound, HalfCentTail(pct), Multiplier(pct));
  }

  lemma {:induction false} BoundStepDown(x: real, y: real, h: real, m: real)
    requires x >= y - h && m >= 0.0 && h * m + 0.5 == h
    ensures x * m - 0.5 >= m * y - h
  {
    MulMonotoneReal(y - h, x, m);
    assert (y - h) * m == y * m - h * m;
  }

  /** Rounding takes off at most half a cent. */
  lemma {:induction false} DiscountedAtLeast(x: nat, pct: Percent, k: real)
    requires (100 * pct.den - pct.num) as real == k * (100 * pct.den) as real
    ensures Discounted(x, pct) as real >= x as real * k - 0.5
  {
    var m, d := 100 * pct.den - pct.num, 100 * pct.den;
    RoundedAtLeast(x, m, d, RoundHalfUp(x * m, d), k);
  }

  lemma {:induction false} RoundedAtLeast(x: nat, m: nat, d: int, g: int, k: real)
    requires d > 0 && g == RoundHalfUp(x * m, d) && m as real == k * d as real
    ensures g as real >= x as real * k - 0.5
  {
    RoundHalfUpIsNearest(x * m, d, g);
    var gr, dr, mr, xr := g as real, d as real, m as real, x as real;
    assert (g * d) as real == gr * dr;
    assert (x * m) as real == xr * mr;
    assert xr * mr == (xr * k) * dr;
    assert (xr * k - 0.5) * dr == (xr * k) * dr - 0.5 * dr;
    CancelMul(xr * k - 0.5, gr, dr);
  }

  lemma {:induction false} GeometricStep(x: nat, bound: real, pct: Percent)
    requires x as real <= bound + HalfCentTail(pct)
    ensures Discounted(x, pct) as real <= Multiplier(pct) * bound + HalfCentTail(pct)
  {
    MultiplierIs(pct);
    TailIsFixed(pct);
    DiscountedAtMost(x, pct, Multiplier(pct));
    BoundStep(x as real, bound, HalfCentTail(pct), Multiplier(pct));
  }

  lemma TailNonNegative(a: real, b: real)
    requires a >= 0.0 && b > 0.0
    ensures a / b >= 0.0
  {
  }

  lemma {:induction false} BoundStep(x: real, y: real, h: real, m: real)
    requires x <= y + h && m >= 0.0 && h * m + 0.5 == h
    ensures x * m + 0.5 <= m * y + h
  {
    MulMonotoneReal(x, y + h, m);
    assert (y + h) * m == y * m + h * m;
  }

  lemma MulMonotoneReal(a: real, b: real, m: real)
    requires a <= b && m >= 0.0
    ensures a * m <= b * m
  {
  }

  /** Rounding adds at most half a cent. */
  lemma {:induction false} DiscountedAtMost(x: nat, pct: Percent, k: real)
    requires (100 * pct.den - pct.num) as real == k * (100 * pct.den) as real
    ensures Discounted(x, pct) as real <= x as real * k + 0.5
  {
    var m, d := 100 * pct.den - pct.num, 100 * pct.den;
    RoundedAtMost(x, m, d, RoundHalfUp(x * m, d), k);
  }

  lemma {:induction false} RoundedAtMost(x: nat, m: nat, d: int, g: int, k: real)
    requires d > 0 && g == RoundHalfUp(x * m, d) && m as real == k * d as real
    ensures g as real <= x as real * k + 0.5
  {
    RoundHalfUpIsNearest(x * m, d, g);
    var gr, dr, mr, xr := g as real, d as real, m as real, x as real;
    assert (g * d) as real == gr * dr;
    assert (x * m) as real == xr * mr;
    assert xr * mr == (xr * k) * dr;
    assert (xr * k + 0.5) * dr == (xr * k) * dr + 0.5 * dr;
    CancelMul(gr, xr * k + 0.5, dr);
  }

  lemma CancelMul(a: real, b: real, d: real)
    requires a * d <= b * d && d > 0.0
    ensures a <= b
  {
    if a > b { StrictMul(b, a, d); }
  }

  lemma StrictMul(a: real, b: real, d: real)
    requires a < b && d > 0.0
    ensures a * d < b * d
  {
  }

  lemma {:induction false} MultiplierIs(pct: Percent)
    ensures (100 * pct.den - pct.num) as real == Multiplier(pct) * (100 * pct.den) as real
    ensures Multiplier(pct) >= 0.0
  {
    var a, d := pct.num as real, 100.0 * pct.den as real;
    var q := a / d;
    assert q * d == a;
    assert (1.0 - q) * d == d - a;
    if q > 1.0 {
      StrictMul(1.0, q, d);
    }
  }

  lemma {:induction false} TailIsFixed(pct: Percent)
    ensures HalfCentTail(pct) * Multiplier(pct) + 0.5 == HalfCentTail(pct)
  {
    var a, b := pct.num as real, pct.den as real;
    HalvesMeet(a, b, 50.0 * b / a, a / (100.0 * b));
  }

  lemma {:induction false} HalvesMeet(a: real, b: real, h: real, q: real)
    requires a > 0.0 && b > 0.0 && h * a == 50.0 * b && q * (100.0 * b) == a
    ensures h * (1.0 - q) + 0.5 == h
  {
    var c := 100.0 * b;
    assert h * (q * c) == (h * q) * c;
    CancelMul(h * q, 0.5, c);
    CancelMul(0.5, h * q, c);
    assert h * (1.0 - q) == h - h * q;
  }
}
