/** The proleptic Gregorian calendar behind `DateTime`: the day number of a date (days since
    0001-01-01), its inverse, and the `yyyyMMdd` rendering used in invoice numbers, with the
    parse that reads a rendering back. */
module Civil {
  import opened Base
  import opened Text

  predicate IsLeapYear(y: int) {
    y % 4 == 0 && (y % 100 != 0 || y % 400 == 0)
  }

  /** The length of a year, leap or common. */
  function YearLength(leap: bool): nat {
    if leap then 366 else 365
  }

  function DaysInYear(y: int): nat {
    YearLength(IsLeapYear(y))
  }

  /** The length of month `m` in a leap or a common year. */
  function DaysInMonth(leap: bool, m: int): nat
    requires 1 <= m <= 12
  {
    if m == 2 then (if leap then 29 else 28)
    else if m == 4 || m == 6 || m == 9 || m == 11 then 30
    else 31
  }

  datatype Date = Date(Year: nat, Month: nat, Day: nat)

  predicate ValidDate(d: Date) {
    d.Year >= 1 && 1 <= d.Month <= 12 && 1 <= d.Day <= DaysInMonth(IsLeapYear(d.Year), d.Month)
  }

  /** Days from 0001-01-01 to the first day of year `y`. */
  function DaysBeforeYear(y: nat): nat
    requires y >= 1
  {
    if y == 1 then 0 else DaysBeforeYear(y - 1) + DaysInYear(y - 1)
  }

  /** Days from the first of the year to the first of month `m`. */
  function DaysBeforeMonth(leap: bool, m: nat): nat
    requires 1 <= m <= 12
  {
    if m == 1 then 0 else DaysBeforeMonth(leap, m - 1) + DaysInMonth(leap, m - 1)
  }

  /** The day number of a date: days since 0001-01-01. */
  function DayNumber(d: Date): nat
    requires ValidDate(d)
  {
    DaysBeforeYear(d.Year) + DaysBeforeMonth(IsLeapYear(d.Year), d.Month) + d.Day - 1
  }

  /** The twelve months make up the year. */
  lemma MonthsFillYear(leap: bool)
    ensures DaysBeforeMonth(leap, 12) + DaysInMonth(leap, 12) == YearLength(leap)
  {
    assert DaysBeforeMonth(leap, 2) == 31;
    assert DaysBeforeMonth(leap, 3) == 31 + DaysInMonth(leap, 2);
    assert DaysBeforeMonth(leap, 4) == 62 + DaysInMonth(leap, 2);
    assert DaysBeforeMonth(leap, 5) == 92 + DaysInMonth(leap, 2);
    assert DaysBeforeMonth(leap, 6) == 123 + DaysInMonth(leap, 2);
    assert DaysBeforeMonth(leap, 7) == 153 + DaysInMonth(leap, 2);
    assert DaysBeforeMonth(leap, 8) == 184 + DaysInMonth(leap, 2);
    assert DaysBeforeMonth(leap, 9) == 215 + DaysInMonth(leap, 2);
    assert DaysBeforeMonth(leap, 10) == 245 + DaysInMonth(leap, 2);
    assert DaysBeforeMonth(leap, 11) == 276 + DaysInMonth(leap, 2);
    assert DaysBeforeMonth(leap, 12) == 306 + DaysInMonth(leap, 2);
  }

  /** The year holding day `n` counted from the first of year `y`, and the day within it. */
  function YearFrom(y: nat, n: nat): (r: (nat, nat))
    requires y >= 1
    ensures r.0 >= y && r.1 < DaysInYear(r.0)
    ensures DaysBeforeYear(r.0) + r.1 == DaysBeforeYear(y) + n
    decreases n
  {
    if n < DaysInYear(y) then (y, n) else YearFrom(y + 1, n - DaysInYear(y))
  }

  /** The month holding day `n` counted from the first of month `m`, and the day within it. */
  function MonthFrom(leap: bool, m: nat, n: nat): (r: (nat, nat))
    requires 1 <= m <= 12
    requires DaysBeforeMonth(leap, m) + n < YearLength(leap)
    ensures m <= r.0 <= 12 && r.1 < DaysInMonth(leap, r.0)
    ensures DaysBeforeMonth(leap, r.0) + r.1 == DaysBeforeMonth(leap, m) + n
    decreases 12 - m
  {
    if n < DaysInMonth(leap, m) then (m, n)
    else
      MonthsFillYear(leap);
      MonthFrom(leap, m + 1, n - DaysInMonth(leap, m))
  }

  /** The date of day number `n`: `new DateTime(ticks).Date`'s year, month and day. */
  function DateOf(n: nat): (d: Date)
    ensures ValidDate(d) && DayNumber(d) == n
  {
    var (y, k) := YearFrom(1, n);
    var (m, j) := MonthFrom(IsLeapYear(y), 1, k);
    Date(y, m, j + 1)
  }

  lemma {:induction false} DaysBeforeYearGrows(y0: nat, y: nat)
    requires 1 <= y0 <= y
    ensures DaysBeforeYear(y0) <= DaysBeforeYear(y)
    decreases y - y0
  {
    if y0 < y {
      DaysBeforeYearGrows(y0 + 1, y);
    }
  }

  lemma {:induction false} DaysBeforeMonthBound(leap: bool, m: nat)
    requires 1 <= m <= 12
    ensures DaysBeforeMonth(leap, m) + DaysInMonth(leap, m) <= YearLength(leap)
    decreases 12 - m
  {
    if m == 12 {
      MonthsFillYear(leap);
    } else {
      DaysBeforeMonthBound(leap, m + 1);
    }
  }

  lemma {:induction false} DaysBeforeMonthGrows(leap: bool, m0: nat, m: nat)
    requires 1 <= m0 <= m <= 12
    ensures DaysBeforeMonth(leap, m0) <= DaysBeforeMonth(leap, m)
    decreases m - m0
  {
    if m0 < m {
      DaysBeforeMonthGrows(leap, m0 + 1, m);
    }
  }

  /** A later year's days start after every day of an earlier year. */
  lemma YearOrder(a: nat, x: nat, b: nat, y: nat)
    requires 1 <= a < b && x < DaysInYear(a)
    ensures DaysBeforeYear(a) + x < DaysBeforeYear(b) + y
  {
    DaysBeforeYearGrows(a + 1, b);
  }

  /** A day number names one year and one day within it. */
  lemma YearUnique(a: nat, x: nat, b: nat, y: nat)
    requires a >= 1 && b >= 1 && x < DaysInYear(a) && y < DaysInYear(b)
    requires DaysBeforeYear(a) + x == DaysBeforeYear(b) + y
    ensures a == b && x == y
  {
    if a < b {
      YearOrder(a, x, b, y);
    } else if b < a {
      YearOrder(b, y, a, x);
    }
  }

  /** A later month's days start after every day of an earlier month. */
  lemma MonthOrder(leap: bool, a: nat, x: nat, b: nat, y: nat)
    requires 1 <= a < b <= 12 && x < DaysInMonth(leap, a)
    ensures DaysBeforeMonth(leap, a) + x < DaysBeforeMonth(leap, b) + y
  {
    DaysBeforeMonthGrows(leap, a + 1, b);
  }

  /** A day of the year names one month and one day within it. */
  lemma MonthUnique(leap: bool, a: nat, x: nat, b: nat, y: nat)
    requires 1 <= a <= 12 && 1 <= b <= 12 && x < DaysInMonth(leap, a) && y < DaysInMonth(leap, b)
    requires DaysBeforeMonth(leap, a) + x == DaysBeforeMonth(leap, b) + y
    ensures a == b && x == y
  {
    if a < b {
      MonthOrder(leap, a, x, b, y);
    } else if b < a {
      MonthOrder(leap, b, y, a, x);
    }
  }

  /** Day numbers and valid dates correspond one to one. */
  lemma DateOfDayNumber(d: Date)
    requires ValidDate(d)
    ensures DateOf(DayNumber(d)) == d
  {
    var leap := IsLeapYear(d.Year);
    var k := DaysBeforeMonth(leap, d.Month) + d.Day - 1;
    DaysBeforeMonthBound(leap, d.Month);
    var (y, k') := YearFrom(1, DayNumber(d));
    YearUnique(y, k', d.Year, k);
    var (m, j) := MonthFrom(leap, 1, k);
    MonthUnique(leap, m, j, d.Month, d.Day - 1);
  }

  /** `s` left-padded with zeros to at least `width` characters. */
  function PadLeft(s: string, width: nat): (r: string)
    ensures |r| == if |s| >= width then |s| else width
    ensures AllDigits(s) ==> AllDigits(r)
    decreases width - |s|
  {
    if |s| >= width then s else PadLeft("0" + s, width)
  }

  /** Leading zeros do not change the number a digit string denotes. */
  lemma {:induction false} LeadingZeroValue(s: string)
    requires AllDigits(s)
    ensures DigitsValue("0" + s) == DigitsValue(s)
    decreases |s|
  {
    var t := "0" + s;
    if |s| > 0 {
      assert t[..|t| - 1] == "0" + s[..|s| - 1];
      LeadingZeroValue(s[..|s| - 1]);
    }
  }

  lemma {:induction false} PadLeftValue(s: string, width: nat)
    requires AllDigits(s)
    ensures DigitsValue(PadLeft(s, width)) == DigitsValue(s)
    decreases width - |s|
  {
    if |s| < width {
      LeadingZeroValue(s);
      PadLeftValue("0" + s, width);
    }
  }

  /** `yyyyMMdd` */
  function DateStamp(d: Date): (r: string)
    requires ValidDate(d)
    ensures AllDigits(r)
    ensures d.Year <= 9999 ==> |r| == 8
  {
    var r := PadLeft(NatToString(d.Year), 4) + PadLeft(NatToString(d.Month), 2) + PadLeft(NatToString(d.Day), 2);
    if d.Year <= 9999 then
      NatToStringShort(d.Year, 4);
      NatToStringShort(d.Month, 2);
      NatToStringShort(d.Day, 2);
      r
    else r
  }

  /** Reads a `yyyyMMdd` rendering back. */
  function ParseStamp(s: string): Option<Date> {
    if |s| == 8 && AllDigits(s) then Some(Date(DigitsValue(s[..4]), DigitsValue(s[4..6]), DigitsValue(s[6..])))
    else None
  }

  /** The rendering of a date up to year 9999 reads back as that date. */
  lemma StampRoundTrip(d: Date)
    requires ValidDate(d) && d.Year <= 9999
    ensures ParseStamp(DateStamp(d)) == Some(d)
  {
    NatToStringShort(d.Year, 4);
    NatToStringShort(d.Month, 2);
    NatToStringShort(d.Day, 2);
    var y := PadLeft(NatToString(d.Year), 4);
    var m := PadLeft(NatToString(d.Month), 2);
    var dd := PadLeft(NatToString(d.Day), 2);
    var s := DateStamp(d);
    assert s == y + m + dd;
    assert s[..4] == y && s[4..6] == m && s[6..] == dd;
    PadLeftValue(NatToString(d.Year), 4);
    PadLeftValue(NatToString(d.Month), 2);
    PadLeftValue(NatToString(d.Day), 2);
    NatToStringValue(d.Year);
    NatToStringValue(d.Month);
    NatToStringValue(d.Day);
  }
}
