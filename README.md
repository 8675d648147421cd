# Taiwan growth projection — a Dafny model

The application projects Taiwan's economy from 2024 to 2029 under two
scenarios: a "natural" path that keeps the historical compound annual growth
rates, and a "China model" path in which each rate is cut by a shock factor.
Its core is the compound-growth formula `project`, two table builders and the
reshape that prepares a table for a line chart:

- `build_macro` grows the 2024 GDP and FDI bases under both scenarios and adds
  each series again in units of ten million US dollars;
- `build_personal` grows a household's 2024 income at the GDP rates and its
  housing value at the housing rates, divides housing by income to get the
  housing-price-to-income ratio, and then rounds money to whole New Taiwan
  dollars and ratios to two decimals;
- `line_chart` turns the year column into text and melts the chosen columns
  into one (year, series, value) record per point.

The model works over exact reals. Modules:

- `Growth` (growth.dfy): `Pow`, `Project` and the properties of compound growth.
- `Params` (params.dfy): the rates, the bases and the year range.
- `Numeric` (numeric.dfy): a float cell (`Real`, `PosInf`, `NegInf`, `NaN`),
  IEEE-style division on cells and half-to-even rounding.
- `Frames` (frames.dfy): a table with a year column and float columns looked
  up by name, and the whole-column operations the builders apply.
- `Projection` (projection.dfy): the macro and personal tables, their
  builders and the properties of their rows.
- `Chart` (chart.dfy): year-to-text conversion and the melt reshape.
- `Wrappers` (wrappers.dfy): `Option`.

Behaviour of the code that the model keeps:

- `project` raises no error for a rate at or below -1; it is total here, and
  the sign lemmas state the rate range they need.
- The builders do not reject negative inputs. Only the input widgets bound
  them at zero, so non-negativity appears as a precondition of the lemmas
  that need it, not of the builders.
- pandas `melt` is column-major: all rows of the first listed column come
  first, then all rows of the next, so record `j * rows + i` is row `i` of
  the `j`-th listed column.
- A zero income gives `inf` or `NaN` ratios instead of an error. The model
  keeps those values in the `Num` cell type.

## Model

| member | source | states |
|---|---|---|
| Growth.Pow | app.py:36 | `(1 + cagr) ** years` for a natural exponent: non-negative for a non-negative base, positive for a positive base |
| Growth.Project | app.py:34-36 | the base year returns the base unchanged; a zero base stays zero; a positive base with a rate above -1 stays positive |
| Growth.ProjectStep | app.py:36 | one more year multiplies the projection by `1 + rate` |
| Growth.StepFollowsRateSign | app.py:34-36 | for a positive base and a rate above -1, the next year is larger, equal or smaller exactly when the rate is positive, zero or negative |
| Growth.ProjectIncreasing | app.py:34-36 | a positive rate makes a positive base strictly increasing in the year |
| Growth.ProjectConstant | app.py:34-36 | a zero rate keeps every base constant in every year |
| Growth.ProjectDecreasing | app.py:34-36 | a rate in (-1, 0) makes a positive base strictly decreasing in the year |
| Growth.PowMonotone | app.py:36 | powers of non-negative numbers preserve the order of their bases |
| Growth.PowStrictlyMonotone | app.py:36 | powers of positive numbers preserve strict order for a positive exponent |
| Growth.ProjectMonotoneInRate | app.py:34-36 | for a non-negative base, a lower rate (above -1) never projects above a higher one |
| Growth.ProjectStrictlyMonotoneInRate | app.py:34-36 | for a positive base, a strictly lower rate projects strictly lower after the base year |
| Growth.ProjectZeroIff | app.py:34-36 | with a rate above -1 the projection is zero, positive or negative exactly as the base is |
| Params.ShockRatesBelowNatural | app.py:13-27 | each China-model rate is positive and below its natural rate; both bases are positive; the year range holds six years |
| Numeric.Quotient | app.py:85-86 | float division: finite for a non-zero divisor with quotient times divisor equal to the dividend; for a zero divisor `inf`, `-inf` or `NaN` exactly as the dividend is positive, negative or zero; `NaN` propagates |
| Numeric.Negate | app.py:85-86 | sign change of a cell, swapping the infinities and keeping `NaN` |
| Numeric.RoundHalfEven | app.py:89-94 | the result is within one half of the input, an exact tie goes to the even integer, and integers are kept |
| Numeric.RoundTo | app.py:89-94 | `round(decimals)` of a finite value: scaled by `10 ^ decimals`, the result lies within half a unit of the scaled input; `Numeric.RoundToSpec` states that it is the nearest integer with ties to even |
| Numeric.TenPow | app.py:89-94 | the scale of the last kept decimal place, `10 ^ decimals`, is positive |
| Numeric.RoundScaledSpec | app.py:89-94 | a value rounded to a grid of step `1/scale`, scaled back up, is the integer nearest to the scaled input and lies within half a step of it |
| Numeric.RoundToSpec | app.py:89-94 | a value rounded to `d` decimals, times `10 ^ d`, is the integer nearest to the input times `10 ^ d`: at most `d` decimals, within half a unit of the last kept place |
| Numeric.RoundCell | app.py:93-94 | rounding a ratio cell rounds finite values and keeps `inf`, `-inf` and `NaN` |
| Frames.FromColumns | app.py:49-55 | a table built from distinct named columns of one length per year keeps the year column and the column order, and looks each column up by its name |
| Frames.Arange | app.py:41 | `stop - start` integers (none when empty), the `i`-th being `start + i` |
| Frames.Elapsed | app.py:42 | one exponent per year, the year minus the base year |
| Frames.Cells | app.py:49-55 | a column of finite values holds those values, row by row |
| Frames.DivideBy | app.py:58-61 | each cell of the rescaled column times the divisor gives back the original cell |
| Frames.DivideColumns | app.py:85-86 | one column divided by another, row by row, with float division |
| Frames.RoundReals | app.py:89-92 | every money cell replaced by its rounded value, same length |
| Frames.RoundCells | app.py:93-94 | every ratio cell replaced by its rounded value, same length |
| Projection.YearAxis | app.py:41 | six years, the `i`-th being `2024 + i` |
| Projection.ProjectAll | app.py:44-47 | the projection applied to every exponent of the column |
| Projection.BuildMacro | app.py:39-63 | every column has one cell per year; six rows; row `i` has year `2024 + i` |
| Projection.PersonalRaw | app.py:66-86 | every column has one cell per year, over the same year axis |
| Projection.BuildPersonal | app.py:66-96 | every column has one cell per year; six rows; row `i` has year `2024 + i` |
| Projection.MacroFrame | app.py:49-61 | the macro table as named columns in its column order, each name holding its column |
| Projection.PersonalFrame | app.py:76-86 | the personal table as named columns in its column order, each name holding its column |
| Projection.MacroProjections | app.py:44-47 | row `i` of each dollar column is its 2024 base grown for `i` years at its scenario's rate |
| Projection.MacroRescaled | app.py:58-61 | every ten-million column equals its dollar column divided by 10,000,000, row by row |
| Projection.MacroChinaBelowNatural | app.py:44-61 | China-model GDP and FDI equal the natural ones in 2024 and lie strictly below them in every later year, in dollars and in ten millions |
| Projection.MacroGdpIn2029 | app.py:23-44 | the natural GDP of 2029 lies between 952.9 and 953.1 billion US dollars |
| Projection.PersonalProjections | app.py:71-74 | row `i` grows income at the GDP rates and housing at the housing rates for `i` years |
| Projection.PersonalRatioIsHouseOverIncome | app.py:85-86 | with a non-zero income every ratio is finite and equals the housing value of its row and scenario divided by the income |
| Projection.PersonalRoundsAfterDividing | app.py:85-94 | the returned money cells are the unrounded projections rounded to units, and each ratio is the rounded quotient of the unrounded housing value and income |
| Projection.PersonalZeroIncome | app.py:85-94 | a zero income makes every ratio `inf`, `-inf` or `NaN` by the sign of the housing value, never a finite number |
| Projection.PersonalChinaBelowNatural | app.py:71-74 | for non-negative inputs China-model income and housing equal the natural ones in 2024, never exceed them, and fall strictly below for a positive base after 2024 |
| Projection.PersonalRatioIn2024 | app.py:85-94 | an income of 1,000,000 and a home of 10,000,000 give a 2024 ratio of 10.00 under both scenarios |
| Chart.DigitChar | app.py:105 | the character of a decimal digit is a digit character of that value |
| Chart.NatToString | app.py:105 | the text of a natural number is non-empty, all digits, without a leading zero |
| Chart.IntToString | app.py:105 | the text of an integer is non-empty, all digits for a non-negative integer, with a leading minus sign exactly for a negative integer; its value is stated by `Chart.IntToStringValue` |
| Chart.IntToStringValue | app.py:105 | the text of an integer reads back as the integer: its digits give `n` for `n >= 0`, and for `n < 0` the characters after the minus sign are digits that give `-n` |
| Chart.NatToStringRoundTrip | app.py:105 | reading the text of a natural number back gives the number |
| Chart.IntToStringInjective | app.py:105 | distinct years give distinct year texts |
| Chart.MeltColumn | app.py:107 | one record per row of the column, carrying the row's year text, the column name and the cell |
| Chart.Melt | app.py:107 | no result exactly when a listed column is missing; otherwise `rows * columns` records |
| Chart.MeltAt | app.py:105-107 | record `j * rows + i` is row `i` of the `j`-th listed column, with that row's year text, the column name and the cell |

## Left out

- Streamlit page setup, the sidebar inputs, the text and the tables shown
  (app.py:168-345): user interface. The input widgets' lower bound of zero
  appears only as a precondition of the lemmas that need it.
- Altair chart encoding, colours, axes and tooltips (app.py:109-160):
  presentation.
- The integer display rounding of the macro table and the loops that round
  columns for display (app.py:230-243): user interface.
- The `macro_df_round[[ ... ]]` selection (app.py:277): a placeholder that
  indexes with `Ellipsis`, not projection logic.
- IEEE double precision: every value is an exact real, so the constants are
  the exact decimals written in the source, and rounding errors of `**`, `/`
  and `round` are not modelled.
- Quotient: does not model signed zero; every zero divisor is taken as `+0`.
- pandas index alignment and dtype handling: columns are sequences of one
  length that share one row order.
- The `var_name` and `value_name` of the melted table (指標, 數值): the model
  uses the field names of `Chart.Record`.
- Melt: a missing column is an absent result instead of pandas' `KeyError`.
  Listed columns are taken as distinct, as at every call (app.py:256-331);
  pandas keeps a repeated column once, the model twice.
