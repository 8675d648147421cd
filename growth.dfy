/** Compound growth: `base * (1 + rate) ^ years` over exact reals, and what it
    promises about the base year, the yearly step, the sign of the rate and the
    ordering of two rates. */
module Growth {

  /** `x` raised to the natural power `n`, one factor per year. */
  function Pow(x: real, n: nat): (r: real)
    ensures x >= 0.0 ==> r >= 0.0
    ensures x > 0.0 ==> r > 0.0
  {
    if n == 0 then 1.0 else Pow(x, n - 1) * x
  }

  /** The value of `base` after `years` years of growth at `rate` per year. */
  function Project(base: real, rate: real, years: nat): (p: real)
    ensures years == 0 ==> p == base
    ensures base == 0.0 ==> p == 0.0
    ensures base > 0.0 && rate > -1.0 ==> p > 0.0
    ensures base >= 0.0 && rate > -1.0 ==> p >= 0.0
  {
    base * Pow(1.0 + rate, years)
  }

  /** One more year multiplies the projection by `1 + rate`. */
  lemma ProjectStep(base: real, rate: real, t: nat)
    ensures Project(base, rate, t + 1) == Project(base, rate, t) * (1.0 + rate)
  {
    var x, p := 1.0 + rate, Pow(1.0 + rate, t);
    assert Pow(x, t + 1) == p * x;
    assert base * (p * x) == (base * p) * x;
  }

  /** For a positive base and a rate above -1, the projection rises, stays or
      falls from one year to the next exactly as the rate is positive, zero or
      negative. */
  lemma StepFollowsRateSign(base: real, rate: real, t: nat)
    requires base > 0.0 && rate > -1.0
    ensures Project(base, rate, t + 1) > Project(base, rate, t) <==> rate > 0.0
    ensures Project(base, rate, t + 1) == Project(base, rate, t) <==> rate == 0.0
    ensures Project(base, rate, t + 1) < Project(base, rate, t) <==> rate < 0.0
  {
    ProjectStep(base, rate, t);
    var p := Project(base, rate, t);
    assert p > 0.0;
    assert Project(base, rate, t + 1) - p == p * rate;
    if rate > 0.0 {
      assert p * rate > 0.0;
    } else if rate < 0.0 {
      assert p * rate < 0.0;
    }
  }

  /** A positive rate makes a positive base grow strictly every year. */
  lemma {:induction false} ProjectIncreasing(base: real, rate: real, i: nat, j: nat)
    requires base > 0.0 && rate > 0.0 && i < j
    ensures Project(base, rate, i) < Project(base, rate, j)
    decreases j
  {
    StepFollowsRateSign(base, rate, j - 1);
    if i < j - 1 {
      ProjectIncreasing(base, rate, i, j - 1);
    }
  }

  /** A zero rate leaves every base where it started, whatever the year. */
  lemma {:induction false} ProjectConstant(base: real, t: nat)
    ensures Project(base, 0.0, t) == base
  {
    if t > 0 {
      ProjectConstant(base, t - 1);
      ProjectStep(base, 0.0, t - 1);
    }
  }

  /** A rate strictly between -1 and 0 makes a positive base shrink strictly
      every year. */
  lemma {:induction false} ProjectDecreasing(base: real, rate: real, i: nat, j: nat)
    requires base > 0.0 && -1.0 < rate < 0.0 && i < j
    ensures Project(base, rate, i) > Project(base, rate, j)
    decreases j
  {
    StepFollowsRateSign(base, rate, j - 1);
    if i < j - 1 {
      ProjectDecreasing(base, rate, i, j - 1);
    }
  }

  /** Powers of non-negative numbers keep the order of their bases. */
  lemma {:induction false} PowMonotone(x: real, y: real, n: nat)
    requires 0.0 <= x <= y
    ensures Pow(x, n) <= Pow(y, n)
  {
    if n > 0 {
      PowMonotone(x, y, n - 1);
      var px, py := Pow(x, n - 1), Pow(y, n - 1);
      assert px <= py;
      MulOnRight(px, py, x);
      MulOnLeft(py, x, y);
      calc {
        Pow(x, n);
      ==
        px * x;
      <=
        py * x;
      <=
        py * y;
      ==
        Pow(y, n);
      }
    }
  }

  /** Powers of positive numbers grow strictly with the base after the first year. */
  lemma PowStrictlyMonotone(x: real, y: real, n: nat)
    requires 0.0 < x < y && n > 0
    ensures Pow(x, n) < Pow(y, n)
  {
    var px, py := Pow(x, n - 1), Pow(y, n - 1);
    PowMonotone(x, y, n - 1);
    var mid := py * x;
    MulOnRight(px, py, x);
    MulOnLeftStrict(py, x, y);
    assert Pow(x, n) == px * x;
    assert Pow(y, n) == py * y;
    assert px * x <= mid < py * y;
  }

  /** Multiplying on the right by a non-negative number keeps order. */
  lemma MulOnRight(a: real, b: real, c: real)
    requires a <= b && c >= 0.0
    ensures a * c <= b * c
  {
    assert (b - a) * c >= 0.0;
  }

  /** Multiplying on the left by a non-negative number keeps order. */
  lemma MulOnLeft(c: real, a: real, b: real)
    requires a <= b && c >= 0.0
    ensures c * a <= c * b
  {
    assert c * (b - a) >= 0.0;
  }

  /** Multiplying on the left by a positive number keeps strict order. */
  lemma MulOnLeftStrict(c: real, a: real, b: real)
    requires a < b && c > 0.0
    ensures c * a < c * b
  {
    assert c * (b - a) > 0.0;
  }

  /** For a non-negative base, a lower rate never projects above a higher one. */
  lemma ProjectMonotoneInRate(base: real, low: real, high: real, t: nat)
    requires base >= 0.0 && -1.0 < low <= high
    ensures Project(base, low, t) <= Project(base, high, t)
  {
    var pl, ph := Pow(1.0 + low, t), Pow(1.0 + high, t);
    PowMonotone(1.0 + low, 1.0 + high, t);
    MulOnLeft(base, pl, ph);
    var vl, vh := base * pl, base * ph;
    assert vl <= vh;
    assert Project(base, low, t) == vl;
    assert Project(base, high, t) == vh;
  }

  /** For a positive base, a strictly lower rate projects strictly lower after
      the base year. */
  lemma ProjectStrictlyMonotoneInRate(base: real, low: real, high: real, t: nat)
    requires base > 0.0 && -1.0 < low < high && t > 0
    ensures Project(base, low, t) < Project(base, high, t)
  {
    var pl, ph := Pow(1.0 + low, t), Pow(1.0 + high, t);
    PowStrictlyMonotone(1.0 + low, 1.0 + high, t);
    MulOnLeftStrict(base, pl, ph);
    var vl, vh := base * pl, base * ph;
    assert vl < vh;
    assert Project(base, low, t) == vl;
    assert Project(base, high, t) == vh;
  }

  /** With a rate above -1 a projection is zero exactly when its base is. */
  lemma ProjectZeroIff(base: real, rate: real, t: nat)
    requires rate > -1.0
    ensures Project(base, rate, t) == 0.0 <==> base == 0.0
    ensures Project(base, rate, t) > 0.0 <==> base > 0.0
    ensures Project(base, rate, t) < 0.0 <==> base < 0.0
  {
    var p := Pow(1.0 + rate, t);
    assert p > 0.0;
    if base < 0.0 {
      assert base * p < 0.0;
    } else if base > 0.0 {
      assert base * p > 0.0;
    }
  }
}
