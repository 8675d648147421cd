/** The two tables of the projection: the macro table of GDP and FDI, raw and
    in ten millions of US dollars, and the personal table of income, housing
    value and the housing-price-to-income ratio, each under the natural and the
    China-model scenario over the years 2024 to 2029. */
module Projection {
  import opened Growth
  import opened Numeric
  import opened Params
  import opened Frames

  /** Macro column names, in table order (US dollars, then ten millions of
      US dollars). */
  const GDP_NATURAL_USD := "自然_GDP_美元"
  const GDP_CHINA_USD := "中國模式_GDP_美元"
  const FDI_NATURAL_USD := "自然_FDI_美元"
  const FDI_CHINA_USD := "中國模式_FDI_美元"
  const GDP_NATURAL_TEN_MILLION := "自然_GDP_千萬美元"
  const GDP_CHINA_TEN_MILLION := "中國模式_GDP_千萬美元"
  const FDI_NATURAL_TEN_MILLION := "自然_FDI_千萬美元"
  const FDI_CHINA_TEN_MILLION := "中國模式_FDI_千萬美元"

  /** Personal column names, in table order (New Taiwan dollars, then the
      housing-price-to-income ratio as a multiple). */
  const INCOME_NATURAL := "自然_收入_新台幣"
  const INCOME_CHINA := "中國模式_收入_新台幣"
  const HOUSE_NATURAL := "自然_房價_新台幣"
  const HOUSE_CHINA := "中國模式_房價_新台幣"
  const RATIO_NATURAL := "自然_房價所得比"
  const RATIO_CHINA := "中國模式_房價所得比"

  const MACRO_COLUMNS := [GDP_NATURAL_USD, GDP_CHINA_USD, FDI_NATURAL_USD, FDI_CHINA_USD,
                          GDP_NATURAL_TEN_MILLION, GDP_CHINA_TEN_MILLION,
                          FDI_NATURAL_TEN_MILLION, FDI_CHINA_TEN_MILLION]
  const PERSONAL_COLUMNS := [INCOME_NATURAL, INCOME_CHINA, HOUSE_NATURAL, HOUSE_CHINA,
                             RATIO_NATURAL, RATIO_CHINA]

  /** The macro table: one row per year, the four projected columns in US
      dollars, then the same four in ten millions of US dollars. */
  datatype MacroTable = MacroTable(
    years: seq<int>,
    gdpNaturalUsd: seq<real>, gdpChinaUsd: seq<real>,
    fdiNaturalUsd: seq<real>, fdiChinaUsd: seq<real>,
    gdpNaturalTenMillion: seq<real>, gdpChinaTenMillion: seq<real>,
    fdiNaturalTenMillion: seq<real>, fdiChinaTenMillion: seq<real>)
  {
    /** Every column has one cell per year. */
    predicate Rectangular() {
      && |gdpNaturalUsd| == |gdpChinaUsd| == |fdiNaturalUsd| == |fdiChinaUsd| == |years|
      && |gdpNaturalTenMillion| == |gdpChinaTenMillion| == |years|
      && |fdiNaturalTenMillion| == |fdiChinaTenMillion| == |years|
    }
  }

  /** The personal table: one row per year, income and housing value in New
      Taiwan dollars under both scenarios, and the two housing-price-to-income
      ratios, which may be infinite or NaN when an income is zero. */
  datatype PersonalTable = PersonalTable(
    years: seq<int>,
    incomeNatural: seq<real>, incomeChina: seq<real>,
    houseNatural: seq<real>, houseChina: seq<real>,
    ratioNatural: seq<Num>, ratioChina: seq<Num>)
  {
    /** Every column has one cell per year. */
    predicate Rectangular() {
      && |incomeNatural| == |incomeChina| == |houseNatural| == |houseChina| == |years|
      && |ratioNatural| == |ratioChina| == |years|
    }
  }

  /** The year axis: every year from the base year to the end year, ascending
      by one. */
  function YearAxis(): (years: seq<int>)
    ensures |years| == END_YEAR - BASE_YEAR + 1
    ensures forall i :: 0 <= i < |years| ==> years[i] == BASE_YEAR + i
  {
    Arange(BASE_YEAR, END_YEAR + 1)
  }

  /** `Project` applied to each exponent of a column. */
  function ProjectAll(base: real, rate: real, t: seq<nat>): (ps: seq<real>)
    ensures |ps| == |t|
    ensures forall i :: 0 <= i < |t| ==> ps[i] == Project(base, rate, t[i])
  {
    seq(|t|, i requires 0 <= i < |t| => Project(base, rate, t[i]))
  }

  /** The macro table: GDP and FDI grown from their 2024 bases at the rate of
      each scenario, then each divided by ten million. */
  function BuildMacro(): (m: MacroTable)
    ensures m.Rectangular()
    ensures |m.years| == END_YEAR - BASE_YEAR + 1
    ensures forall i :: 0 <= i < |m.years| ==> m.years[i] == BASE_YEAR + i
  {
    var years := YearAxis();
    var t := Elapsed(years, BASE_YEAR);
    var gdpNatural := ProjectAll(BASE_GDP, GDP_RATE_NATURAL, t);
    var gdpChina := ProjectAll(BASE_GDP, GDP_RATE_CHINA, t);
    var fdiNatural := ProjectAll(BASE_FDI, FDI_RATE_NATURAL, t);
    var fdiChina := ProjectAll(BASE_FDI, FDI_RATE_CHINA, t);
    MacroTable(
      years, gdpNatural, gdpChina, fdiNatural, fdiChina,
      DivideBy(gdpNatural, TEN_MILLION), DivideBy(gdpChina, TEN_MILLION),
      DivideBy(fdiNatural, TEN_MILLION), DivideBy(fdiChina, TEN_MILLION))
  }

  /** The personal table before display rounding: income grows at the GDP
      rates, housing at the housing rates, and each ratio divides the housing
      column by the income column of its scenario. */
  function PersonalRaw(income: real, house: real): (p: PersonalTable)
    ensures p.Rectangular() && p.years == YearAxis()
  {
    var years := YearAxis();
    var t := Elapsed(years, BASE_YEAR);
    var incomeNatural := ProjectAll(income, GDP_RATE_NATURAL, t);
    var incomeChina := ProjectAll(income, GDP_RATE_CHINA, t);
    var houseNatural := ProjectAll(house, HOUSE_RATE_NATURAL, t);
    var houseChina := ProjectAll(house, HOUSE_RATE_CHINA, t);
    PersonalTable(
      years, incomeNatural, incomeChina, houseNatural, houseChina,
      DivideColumns(houseNatural, incomeNatural), DivideColumns(houseChina, incomeChina))
  }

  /** The personal table as returned: the raw table with the money columns
      overwritten by their values rounded to whole units and the ratios by
      theirs rounded to two decimals. */
  function BuildPersonal(income: real, house: real): (p: PersonalTable)
    ensures p.Rectangular()
    ensures |p.years| == END_YEAR - BASE_YEAR + 1
    ensures forall i :: 0 <= i < |p.years| ==> p.years[i] == BASE_YEAR + i
  {
    var df := PersonalRaw(income, house);
    df.(incomeNatural := RoundReals(df.incomeNatural, 0),
        incomeChina := RoundReals(df.incomeChina, 0),
        houseNatural := RoundReals(df.houseNatural, 0),
        houseChina := RoundReals(df.houseChina, 0),
        ratioNatural := RoundCells(df.ratioNatural, 2),
        ratioChina := RoundCells(df.ratioChina, 2))
  }

  /** The macro table as named float columns, in its column order. */
  function MacroFrame(m: MacroTable): (f: Frame)
    requires m.Rectangular()
    ensures Valid(f) && f.years == m.years && f.names == MACRO_COLUMNS
    ensures f.data[GDP_NATURAL_USD] == Cells(m.gdpNaturalUsd)
    ensures f.data[GDP_CHINA_USD] == Cells(m.gdpChinaUsd)
    ensures f.data[FDI_NATURAL_USD] == Cells(m.fdiNaturalUsd)
    ensures f.data[FDI_CHINA_USD] == Cells(m.fdiChinaUsd)
    ensures f.data[GDP_NATURAL_TEN_MILLION] == Cells(m.gdpNaturalTenMillion)
    ensures f.data[GDP_CHINA_TEN_MILLION] == Cells(m.gdpChinaTenMillion)
    ensures f.data[FDI_NATURAL_TEN_MILLION] == Cells(m.fdiNaturalTenMillion)
    ensures f.data[FDI_CHINA_TEN_MILLION] == Cells(m.fdiChinaTenMillion)
  {
    MacroColumnsDistinct();
    var cols := [Cells(m.gdpNaturalUsd), Cells(m.gdpChinaUsd), Cells(m.fdiNaturalUsd), Cells(m.fdiChinaUsd),
                 Cells(m.gdpNaturalTenMillion), Cells(m.gdpChinaTenMillion),
                 Cells(m.fdiNaturalTenMillion), Cells(m.fdiChinaTenMillion)];
    assert MACRO_COLUMNS[0] == GDP_NATURAL_USD && MACRO_COLUMNS[1] == GDP_CHINA_USD;
    assert MACRO_COLUMNS[2] == FDI_NATURAL_USD && MACRO_COLUMNS[3] == FDI_CHINA_USD;
    assert MACRO_COLUMNS[4] == GDP_NATURAL_TEN_MILLION && MACRO_COLUMNS[5] == GDP_CHINA_TEN_MILLION;
    assert MACRO_COLUMNS[6] == FDI_NATURAL_TEN_MILLION && MACRO_COLUMNS[7] == FDI_CHINA_TEN_MILLION;
    FromColumns(m.years, MACRO_COLUMNS, cols)
  }

  /** No macro column name appears twice. */
  lemma MacroColumnsDistinct()
    ensures forall i, j :: 0 <= i < j < |MACRO_COLUMNS| ==> MACRO_COLUMNS[i] != MACRO_COLUMNS[j]
  {
  }

  /** No personal column name appears twice. */
  lemma PersonalColumnsDistinct()
    ensures forall i, j :: 0 <= i < j < |PERSONAL_COLUMNS| ==> PERSONAL_COLUMNS[i] != PERSONAL_COLUMNS[j]
  {
  }

  /** The personal table as named float columns, in its column order. */
  function PersonalFrame(p: PersonalTable): (f: Frame)
    requires p.Rectangular()
    ensures Valid(f) && f.years == p.years && f.names == PERSONAL_COLUMNS
    ensures f.data[INCOME_NATURAL] == Cells(p.incomeNatural)
    ensures f.data[INCOME_CHINA] == Cells(p.incomeChina)
    ensures f.data[HOUSE_NATURAL] == Cells(p.houseNatural)
    ensures f.data[HOUSE_CHINA] == Cells(p.houseChina)
    ensures f.data[RATIO_NATURAL] == p.ratioNatural
    ensures f.data[RATIO_CHINA] == p.ratioChina
  {
    PersonalColumnsDistinct();
    assert PERSONAL_COLUMNS[0] == INCOME_NATURAL && PERSONAL_COLUMNS[1] == INCOME_CHINA;
    assert PERSONAL_COLUMNS[2] == HOUSE_NATURAL && PERSONAL_COLUMNS[3] == HOUSE_CHINA;
    assert PERSONAL_COLUMNS[4] == RATIO_NATURAL && PERSONAL_COLUMNS[5] == RATIO_CHINA;
    FromColumns(p.years, PERSONAL_COLUMNS,
      [Cells(p.incomeNatural), Cells(p.incomeChina), Cells(p.houseNatural), Cells(p.houseChina),
       p.ratioNatural, p.ratioChina])
  }

  /** Row `row` of the macro table grows the 2024 GDP and FDI bases for `row`
      years at the rate of each scenario. */
  lemma MacroProjections(row: nat)
    requires row <= END_YEAR - BASE_YEAR
    ensures var m := BuildMacro();
      && m.years[row] == BASE_YEAR + row
      && m.gdpNaturalUsd[row] == Project(BASE_GDP, GDP_RATE_NATURAL, row)
      && m.gdpChinaUsd[row] == Project(BASE_GDP, GDP_RATE_CHINA, row)
      && m.fdiNaturalUsd[row] == Project(BASE_FDI, FDI_RATE_NATURAL, row)
      && m.fdiChinaUsd[row] == Project(BASE_FDI, FDI_RATE_CHINA, row)
  {
  }

  /** Every rescaled macro cell is its dollar cell divided by ten million. */
  lemma MacroRescaled()
    ensures var m := BuildMacro();
      forall i :: 0 <= i < |m.years| ==>
        && m.gdpNaturalTenMillion[i] == m.gdpNaturalUsd[i] / TEN_MILLION
        && m.gdpChinaTenMillion[i] == m.gdpChinaUsd[i] / TEN_MILLION
        && m.fdiNaturalTenMillion[i] == m.fdiNaturalUsd[i] / TEN_MILLION
        && m.fdiChinaTenMillion[i] == m.fdiChinaUsd[i] / TEN_MILLION
  {
  }

  /** The China-model GDP and FDI equal the natural ones in the base year and
      lie strictly below them afterwards, in dollars and in ten millions. */
  lemma MacroChinaBelowNatural(row: nat)
    requires row <= END_YEAR - BASE_YEAR
    ensures var m := BuildMacro();
      && (row == 0 ==>
            && m.gdpChinaUsd[row] == m.gdpNaturalUsd[row]
            && m.fdiChinaUsd[row] == m.fdiNaturalUsd[row]
            && m.gdpChinaTenMillion[row] == m.gdpNaturalTenMillion[row]
            && m.fdiChinaTenMillion[row] == m.fdiNaturalTenMillion[row])
      && (row > 0 ==>
            && m.gdpChinaUsd[row] < m.gdpNaturalUsd[row]
            && m.fdiChinaUsd[row] < m.fdiNaturalUsd[row]
            && m.gdpChinaTenMillion[row] < m.gdpNaturalTenMillion[row]
            && m.fdiChinaTenMillion[row] < m.fdiNaturalTenMillion[row])
  {
    MacroProjections(row);
    MacroRescaled();
    ShockRatesBelowNatural();
    if row > 0 {
      ProjectStrictlyMonotoneInRate(BASE_GDP, GDP_RATE_CHINA, GDP_RATE_NATURAL, row);
      ProjectStrictlyMonotoneInRate(BASE_FDI, FDI_RATE_CHINA, FDI_RATE_NATURAL, row);
    }
  }

  /** The natural GDP of 2029 is about 953.0 billion US dollars. */
  lemma MacroGdpIn2029()
    ensures var m := BuildMacro();
      && m.years[5] == 2029
      && 952_900_000_000.0 < m.gdpNaturalUsd[5] < 953_100_000_000.0
  {
    MacroProjections(5);
    var x := 1.0 + GDP_RATE_NATURAL;
    assert Pow(x, 5) == x * x * x * x * x;
  }

  /** Row `row` of the raw personal table grows the income at the GDP rates
      and the housing value at the housing rates for `row` years. */
  lemma PersonalProjections(income: real, house: real, row: nat)
    requires row <= END_YEAR - BASE_YEAR
    ensures var p := PersonalRaw(income, house);
      && p.years[row] == BASE_YEAR + row
      && p.incomeNatural[row] == Project(income, GDP_RATE_NATURAL, row)
      && p.incomeChina[row] == Project(income, GDP_RATE_CHINA, row)
      && p.houseNatural[row] == Project(house, HOUSE_RATE_NATURAL, row)
      && p.houseChina[row] == Project(house, HOUSE_RATE_CHINA, row)
  {
  }

  /** With a non-zero income every ratio of the raw table is finite and is
      the housing value of its row and scenario divided by the income. */
  lemma PersonalRatioIsHouseOverIncome(income: real, house: real, row: nat)
    requires income != 0.0 && row <= END_YEAR - BASE_YEAR
    ensures var p := PersonalRaw(income, house);
      && p.ratioNatural[row].Real? && p.ratioChina[row].Real?
      && p.ratioNatural[row].v * p.incomeNatural[row] == p.houseNatural[row]
      && p.ratioChina[row].v * p.incomeChina[row] == p.houseChina[row]
  {
    ShockRatesBelowNatural();
    PersonalProjections(income, house, row);
    ProjectZeroIff(income, GDP_RATE_NATURAL, row);
    ProjectZeroIff(income, GDP_RATE_CHINA, row);
  }

  /** The returned table holds the unrounded projections rounded for
      display, and its ratios are the unrounded housing values divided by the
      unrounded incomes, rounded only afterwards. */
  lemma PersonalRoundsAfterDividing(income: real, house: real, row: nat)
    requires row <= END_YEAR - BASE_YEAR
    ensures var p := BuildPersonal(income, house);
      var incomeNatural, incomeChina := Project(income, GDP_RATE_NATURAL, row), Project(income, GDP_RATE_CHINA, row);
      var houseNatural, houseChina := Project(house, HOUSE_RATE_NATURAL, row), Project(house, HOUSE_RATE_CHINA, row);
      && p.incomeNatural[row] == RoundTo(incomeNatural, 0)
      && p.incomeChina[row] == RoundTo(incomeChina, 0)
      && p.houseNatural[row] == RoundTo(houseNatural, 0)
      && p.houseChina[row] == RoundTo(houseChina, 0)
      && p.ratioNatural[row] == RoundCell(Quotient(Real(houseNatural), Real(incomeNatural)), 2)
      && p.ratioChina[row] == RoundCell(Quotient(Real(houseChina), Real(incomeChina)), 2)
  {
    PersonalProjections(income, house, row);
  }

  /** A zero income leaves every ratio undefined: positive infinity for a
      positive housing value, negative infinity for a negative one and NaN
      for zero, never a finite number. */
  lemma PersonalZeroIncome(house: real, row: nat)
    requires row <= END_YEAR - BASE_YEAR
    ensures var p := BuildPersonal(0.0, house);
      var undefined := if house > 0.0 then PosInf else if house < 0.0 then NegInf else NaN;
      && p.ratioNatural[row] == undefined
      && p.ratioChina[row] == undefined
  {
    ShockRatesBelowNatural();
    PersonalRoundsAfterDividing(0.0, house, row);
    ProjectZeroIff(house, HOUSE_RATE_NATURAL, row);
    ProjectZeroIff(house, HOUSE_RATE_CHINA, row);
  }

  /** For non-negative inputs the China-model income and housing value equal
      the natural ones in the base year and never exceed them afterwards;
      they fall strictly below for a positive base. */
  lemma PersonalChinaBelowNatural(income: real, house: real, row: nat)
    requires income >= 0.0 && house >= 0.0 && row <= END_YEAR - BASE_YEAR
    ensures var p := PersonalRaw(income, house);
      && (row == 0 ==> p.incomeChina[row] == p.incomeNatural[row] && p.houseChina[row] == p.houseNatural[row])
      && p.incomeChina[row] <= p.incomeNatural[row]
      && p.houseChina[row] <= p.houseNatural[row]
      && (row > 0 && income > 0.0 ==> p.incomeChina[row] < p.incomeNatural[row])
      && (row > 0 && house > 0.0 ==> p.houseChina[row] < p.houseNatural[row])
  {
    ShockRatesBelowNatural();
    PersonalProjections(income, house, row);
    ProjectMonotoneInRate(income, GDP_RATE_CHINA, GDP_RATE_NATURAL, row);
    ProjectMonotoneInRate(house, HOUSE_RATE_CHINA, HOUSE_RATE_NATURAL, row);
    if row > 0 && income > 0.0 {
      ProjectStrictlyMonotoneInRate(income, GDP_RATE_CHINA, GDP_RATE_NATURAL, row);
    }
    if row > 0 && house > 0.0 {
      ProjectStrictlyMonotoneInRate(house, HOUSE_RATE_CHINA, HOUSE_RATE_NATURAL, row);
    }
  }

  /** An income of one million and a home worth ten million give a ratio of
      10.00 in 2024 under both scenarios. */
  lemma PersonalRatioIn2024()
    ensures var p := BuildPersonal(1_000_000.0, 10_000_000.0);
      p.years[0] == 2024 && p.ratioNatural[0] == Real(10.0) && p.ratioChina[0] == Real(10.0)
  {
    PersonalRoundsAfterDividing(1_000_000.0, 10_000_000.0, 0);
    assert Pow(10.0, 2) == 100.0;
    assert RoundHalfEven(1000.0) == 1000;
  }
}
