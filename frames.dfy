/** Tables as the charting step sees them (a year column, then float columns
    kept in order and looked up by name), the year axis, and the whole-column
    operations the table builders apply. */
module Frames {
  import opened Numeric

  /** A table: `years` is the integer year column, `names` the float columns
      in the order they were added, `data` each float column by name. */
  datatype Frame = Frame(years: seq<int>, names: seq<string>, data: map<string, seq<Num>>)

  /** Names are exactly the keys, no name appears twice, and every column has
      one cell per year. */
  ghost predicate Valid(f: Frame) {
    && (forall n :: n in f.data <==> n in f.names)
    && (forall i, j :: 0 <= i < j < |f.names| ==> f.names[i] != f.names[j])
    && (forall n :: n in f.data ==> |f.data[n]| == |f.years|)
  }

  /** A table from its year column and its named float columns, in order,
      as a dictionary of distinct column names builds one. */
  function FromColumns(years: seq<int>, names: seq<string>, cols: seq<seq<Num>>): (f: Frame)
    requires |names| == |cols|
    requires forall i, j :: 0 <= i < j < |names| ==> names[i] != names[j]
    requires forall k :: 0 <= k < |cols| ==> |cols[k]| == |years|
    ensures Valid(f)
    ensures f.years == years && f.names == names
    ensures forall k :: 0 <= k < |names| ==> f.data[names[k]] == cols[k]
  {
    var data := map k | 0 <= k < |names| :: names[k] := cols[k];
    assert forall n :: n in data ==> exists k :: 0 <= k < |names| && names[k] == n && data[n] == cols[k];
    Frame(years, names, data)
  }

  /** The integers from `start` up to but excluding `stop`, ascending. */
  function Arange(start: int, stop: int): (r: seq<int>)
    ensures |r| == if start < stop then stop - start else 0
    ensures forall i :: 0 <= i < |r| ==> r[i] == start + i
    decreases stop - start
  {
    if start >= stop then [] else [start] + Arange(start + 1, stop)
  }

  /** Years counted from `origin`. */
  function Elapsed(years: seq<int>, origin: int): (t: seq<nat>)
    requires forall i :: 0 <= i < |years| ==> years[i] >= origin
    ensures |t| == |years|
    ensures forall i :: 0 <= i < |t| ==> t[i] == years[i] - origin
  {
    seq(|years|, i requires 0 <= i < |years| => years[i] - origin)
  }

  /** A float column holding the given finite values. */
  function Cells(xs: seq<real>): (c: seq<Num>)
    ensures |c| == |xs|
    ensures forall i :: 0 <= i < |c| ==> c[i] == Real(xs[i])
  {
    seq(|xs|, i requires 0 <= i < |xs| => Real(xs[i]))
  }

  /** A finite column divided by a non-zero constant, cell by cell. */
  function DivideBy(xs: seq<real>, d: real): (c: seq<real>)
    requires d != 0.0
    ensures |c| == |xs|
    ensures forall i :: 0 <= i < |c| ==> c[i] * d == xs[i]
  {
    seq(|xs|, i requires 0 <= i < |xs| => xs[i] / d)
  }

  /** One finite column divided by another, row by row, with floating-point
      results for a zero divisor. */
  function DivideColumns(xs: seq<real>, ys: seq<real>): (c: seq<Num>)
    requires |xs| == |ys|
    ensures |c| == |xs|
    ensures forall i :: 0 <= i < |c| ==> c[i] == Quotient(Real(xs[i]), Real(ys[i]))
  {
    seq(|xs|, i requires 0 <= i < |xs| => Quotient(Real(xs[i]), Real(ys[i])))
  }

  /** A finite column rounded to `decimals` decimal places, cell by cell. */
  function RoundReals(xs: seq<real>, decimals: nat): (c: seq<real>)
    ensures |c| == |xs|
    ensures forall i :: 0 <= i < |c| ==> c[i] == RoundTo(xs[i], decimals)
  {
    seq(|xs|, i requires 0 <= i < |xs| => RoundTo(xs[i], decimals))
  }

  /** A column of cells rounded to `decimals` decimal places, cell by cell. */
  function RoundCells(xs: seq<Num>, decimals: nat): (c: seq<Num>)
    ensures |c| == |xs|
    ensures forall i :: 0 <= i < |c| ==> c[i] == RoundCell(xs[i], decimals)
  {
    seq(|xs|, i requires 0 <= i < |xs| => RoundCell(xs[i], decimals))
  }
}
