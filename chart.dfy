/** The data step of a line chart: the year column turned into text and the
    wide table reshaped into one (year, series, value) record per plotted
    point. Drawing the chart is not modelled. */
module Chart {
  import opened Wrappers
  import opened Numeric
  import opened Frames

  /** One plotted point: the year as text, the column it came from, its value. */
  datatype Record = Record(year: string, series: string, value: Num)

  /** `c` is one of the characters '0' to '9'. */
  predicate IsDigit(c: char) {
    '0' as int <= c as int <= '9' as int
  }

  /** The character of a decimal digit. */
  function DigitChar(d: nat): (c: char)
    requires d < 10
    ensures IsDigit(c) && (c as int) - ('0' as int) == d
  {
    (('0' as int) + d) as char
  }

  /** The decimal numeral of a natural number, without leading zeros. */
  function NatToString(n: nat): (s: string)
    ensures |s| > 0
    ensures forall i :: 0 <= i < |s| ==> IsDigit(s[i])
    ensures s[0] == '0' ==> n == 0
    decreases n
  {
    if n < 10 then [DigitChar(n)] else NatToString(n / 10) + [DigitChar(n % 10)]
  }

  /** The decimal text of an integer, with a leading minus sign when negative. */
  function IntToString(n: int): (s: string)
    ensures |s| > 0
    ensures n >= 0 ==> forall i :: 0 <= i < |s| ==> IsDigit(s[i])
    ensures n < 0 ==> s[0] == '-' && |s| > 1
  {
    if n < 0 then "-" + NatToString(-n) else NatToString(n)
  }

  /** The value of a string of decimal digits. */
  function DigitsValue(s: string): (v: nat)
    requires forall i :: 0 <= i < |s| ==> IsDigit(s[i])
  {
    if |s| == 0 then 0
    else
      assert IsDigit(s[|s| - 1]);
      DigitsValue(s[..|s| - 1]) * 10 + ((s[|s| - 1] as int) - ('0' as int))
  }

  /** Reading back a decimal numeral gives the number it was written from. */
  lemma {:induction false} NatToStringRoundTrip(n: nat)
    ensures DigitsValue(NatToString(n)) == n
    decreases n
  {
    var s := NatToString(n);
    if n >= 10 {
      NatToStringRoundTrip(n / 10);
      assert s[..|s| - 1] == NatToString(n / 10);
    }
  }

  /** The text of an integer determines the integer. */
  lemma IntToStringInjective(a: int, b: int)
    requires IntToString(a) == IntToString(b)
    ensures a == b
  {
    var s := IntToString(a);
    if a < 0 {
      assert b < 0;
      NatToStringRoundTrip(-a);
      NatToStringRoundTrip(-b);
      assert NatToString(-a) == s[1..] == NatToString(-b);
    } else {
      assert b >= 0;
      NatToStringRoundTrip(a);
      NatToStringRoundTrip(b);
    }
  }

  /** The text of an integer reads back as the integer: its digits give `n`
      when `n` is not negative, and after the minus sign they give `-n`. */
  lemma IntToStringValue(n: int)
    ensures n >= 0 ==> DigitsValue(IntToString(n)) == n
    ensures n < 0 ==> forall i :: 1 <= i < |IntToString(n)| ==> IsDigit(IntToString(n)[i])
    ensures n < 0 ==> DigitsValue(IntToString(n)[1..]) == -n
  {
    if n >= 0 {
      NatToStringRoundTrip(n);
    } else {
      NatToStringRoundTrip(-n);
      assert IntToString(n)[1..] == NatToString(-n);
    }
  }

  /** The records of one column: one per row, in row order. */
  function MeltColumn(f: Frame, name: string): (r: seq<Record>)
    requires Valid(f) && name in f.data
    ensures |r| == |f.years|
    ensures forall i :: 0 <= i < |r| ==> r[i] == Record(IntToString(f.years[i]), name, f.data[name][i])
  {
    seq(|f.years|, i requires 0 <= i < |f.years| => Record(IntToString(f.years[i]), name, f.data[name][i]))
  }

  /** The long form of a table for the listed columns: every row of the first
      column, then every row of the next, and so on; no result when a listed
      column does not exist. */
  function Melt(f: Frame, columns: seq<string>): (r: Option<seq<Record>>)
    requires Valid(f)
    ensures r.None? <==> exists j :: 0 <= j < |columns| && columns[j] !in f.data
    ensures r.Some? ==> |r.value| == |columns| * |f.years|
  {
    if |columns| == 0 then Some([])
    else if columns[0] !in f.data then None
    else
      match Melt(f, columns[1..])
      case None => None
      case Some(rest) => Some(MeltColumn(f, columns[0]) + rest)
  }

  /** The record at position `j * rows + i` of the long form is row `i` of
      the `j`-th listed column: its year as text, the column name and the cell. */
  lemma {:induction false} MeltAt(f: Frame, columns: seq<string>, j: nat, i: nat)
    requires Valid(f) && Melt(f, columns).Some?
    requires j < |columns| && i < |f.years|
    ensures j * |f.years| + i < |Melt(f, columns).value|
    ensures columns[j] in f.data
    ensures Melt(f, columns).value[j * |f.years| + i]
         == Record(IntToString(f.years[i]), columns[j], f.data[columns[j]][i])
  {
    var k := |f.years|;
    var all := Melt(f, columns).value;
    var first := MeltColumn(f, columns[0]);
    var rest := Melt(f, columns[1..]).value;
    assert all == first + rest;
    if j > 0 {
      MeltAt(f, columns[1..], j - 1, i);
      var idx := (j - 1) * k + i;
      assert j * k + i == k + idx by {
        assert j * k == (j - 1) * k + k;
      }
      assert all[k + idx] == rest[idx];
    }
  }
}
