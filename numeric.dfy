/** The values a float column can hold once division is involved, the division
    of two such values, and the half-to-even rounding used for display. */
module Numeric {
  import opened Growth

  /** One cell of a float column: a finite value, or one of the non-finite
      values a division by zero produces. */
  datatype Num = Real(v: real) | PosInf | NegInf | NaN

  /** Floating-point division on cells: finite divisors divide, a zero divisor
      gives an infinity of the dividend's sign, or NaN for 0 / 0. Signed zero is
      not represented; every zero is taken as +0. */
  function Quotient(a: Num, b: Num): (q: Num)
    ensures a.Real? && b.Real? ==> (q.Real? <==> b.v != 0.0)
    ensures a.Real? && b.Real? && q.Real? ==> q.v * b.v == a.v
    ensures a.Real? && b == Real(0.0) ==> (q == PosInf <==> a.v > 0.0)
    ensures a.Real? && b == Real(0.0) ==> (q == NegInf <==> a.v < 0.0)
    ensures a.Real? && b == Real(0.0) ==> (q == NaN <==> a.v == 0.0)
    ensures a == NaN || b == NaN ==> q == NaN
  {
    match (a, b)
    case (NaN, _) => NaN
    case (_, NaN) => NaN
    case (Real(x), Real(y)) =>
      if y != 0.0 then Real(x / y)
      else if x > 0.0 then PosInf
      else if x < 0.0 then NegInf
      else NaN
    case (Real(_), _) => Real(0.0)
    case (_, Real(y)) => if y >= 0.0 then a else Negate(a)
    case (_, _) => NaN
  }

  /** The sign change of a cell. */
  function Negate(a: Num): (n: Num)
    ensures a.Real? <==> n.Real?
    ensures a.Real? ==> n.v == -a.v
    ensures a == PosInf <==> n == NegInf
    ensures a == NaN <==> n == NaN
  {
    match a
    case Real(x) => Real(-x)
    case PosInf => NegInf
    case NegInf => PosInf
    case NaN => NaN
  }

  /** The integer nearest to `x`; a tie goes to the even neighbour. */
  function RoundHalfEven(x: real): (k: int)
    ensures -0.5 <= k as real - x <= 0.5
    ensures k as real - x == 0.5 || x - k as real == 0.5 ==> k % 2 == 0
    ensures x == x.Floor as real ==> k as real == x
  {
    var f := x.Floor;
    var frac := x - f as real;
    if frac < 0.5 then f
    else if frac > 0.5 then f + 1
    else if f % 2 == 0 then f
    else f + 1
  }

  /** Rounding to `decimals` decimal places: scale by `10 ^ decimals`, round
      half to even, scale back. */
  function RoundTo(x: real, decimals: nat): (r: real)
    ensures -0.5 <= r * TenPow(decimals) - x * TenPow(decimals) <= 0.5
  {
    RoundScaled(x, TenPow(decimals))
  }

  /** How many units of the `decimals`-th decimal place make one:
      `10 ^ decimals`. */
  function TenPow(decimals: nat): (s: real)
    ensures s > 0.0
  {
    Pow(10.0, decimals)
  }

  /** Scaled by `10 ^ decimals`, a value rounded to `decimals` places is the
      integer nearest to the scaled input, so it has at most `decimals`
      decimal places and lies within half a unit of the last kept place from
      the input. */
  lemma {:induction false} RoundToSpec(x: real, decimals: nat)
    ensures var s, r := TenPow(decimals), RoundTo(x, decimals);
      && r * s == RoundHalfEven(x * s) as real
      && -0.5 <= r * s - x * s <= 0.5
  {
    RoundScaledSpec(x, TenPow(decimals));
  }

  /** Rounding to a grid of step `1 / scale`. */
  function RoundScaled(x: real, scale: real): (r: real)
    requires scale > 0.0
  {
    RoundHalfEven(x * scale) as real / scale
  }

  /** Scaled back up, a value rounded to a grid of step `1 / scale` is the
      integer nearest to the scaled input. */
  lemma RoundScaledSpec(x: real, scale: real)
    requires scale > 0.0
    ensures RoundScaled(x, scale) * scale == RoundHalfEven(x * scale) as real
    ensures -0.5 <= RoundScaled(x, scale) * scale - x * scale <= 0.5
  {
  }

  /** Rounding a cell: finite values are rounded, infinities and NaN stay. */
  function RoundCell(c: Num, decimals: nat): (d: Num)
    ensures c.Real? <==> d.Real?
    ensures !c.Real? ==> d == c
    ensures c.Real? ==> d.v == RoundTo(c.v, decimals)
  {
    if c.Real? then Real(RoundTo(c.v, decimals)) else c
  }
}
