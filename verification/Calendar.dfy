/** Day numbers and calendar dates, after the abstract operations of ECMA-262, section 21.4.1.

Every time value in `packages/contracts/src/dates.ts` is a midnight, so a time value is its day number.
Months count from zero, as they do there. */
module Calendar {
  import opened Arithmetic

  predicate Leap(y: int) { y % 4 == 0 && (y % 100 != 0 || y % 400 == 0) }

  function DaysInYear(y: int): int { if Leap(y) then 366 else 365 }

  /** The number of the first day of a year. */
  function DayFromYear(y: int): int {
    365 * (y - 1970) + (y - 1969) / 4 - (y - 1901) / 100 + (y - 1601) / 400
  }

  /** The largest year that has begun on day `d`, searched from a year `y`. */
  function YearFrom(d: int, y: int): (r: int)
    ensures DayFromYear(r) <= d < DayFromYear(r + 1)
    decreases if d < DayFromYear(y) then DayFromYear(y) - d else d - DayFromYear(y) + 1
  {
    NextYear(y);
    NextYear(y - 1);
    hide DayFromYear;
    if d < DayFromYear(y) then
      if d < DayFromYear(y - 1) then YearFrom(d, y - 1) else y - 1
    else if d >= DayFromYear(y + 1) then YearFrom(d, y + 1)
    else y
  }

  function YearOf(d: int): int { YearFrom(d, 1970) }

  lemma NextYear(y: int)
    ensures DayFromYear(y + 1) == DayFromYear(y) + DaysInYear(y)
  {
    FloorStep(y, 1969, 4);
    FloorStep(y, 1901, 100);
    FloorStep(y, 1601, 400);
    CenturiesAreFourfold(y);
  }

  /** A floored quotient steps up exactly at the multiples. */
  lemma FloorStep(y: int, c: int, k: int)
    requires k > 1 && (c - 1) % k == 0
    ensures (y + 1 - c) / k == (y - c) / k + if y % k == 0 then 1 else 0
  {
    var z := y - (c - 1);
    var q, r := z / k, z % k;
    var e := (c - 1) / k;
    assert y == k * (q + e) + r;
    QuotientIs(y, k, q + e, r);
    if r == 0 {
      assert z - 1 == k * (q - 1) + (k - 1);
      QuotientIs(z - 1, k, q - 1, k - 1);
    } else {
      QuotientIs(z - 1, k, q, r - 1);
    }
  }

  lemma CenturiesAreFourfold(y: int)
    ensures y % 100 == 0 ==> y % 4 == 0
    ensures y % 400 == 0 ==> y % 100 == 0
  {
  }

  lemma {:induction false} YearsAscend(a: int, b: int)
    requires a < b
    ensures DayFromYear(a) + 365 <= DayFromYear(b)
    decreases b - a
  {
    NextYear(a);
    if a + 1 < b { YearsAscend(a + 1, b); }
  }

  type Month = m: int | 0 <= m < 12

  /** Days of a year before the first of month `m`. */
  function DaysBefore(m: int, leap: bool): int
    requires 0 <= m <= 12
  {
    var l := if leap then 1 else 0;
    match m
    case 0 => 0
    case 1 => 31
    case 2 => 59 + l
    case 3 => 90 + l
    case 4 => 120 + l
    case 5 => 151 + l
    case 6 => 181 + l
    case 7 => 212 + l
    case 8 => 243 + l
    case 9 => 273 + l
    case 10 => 304 + l
    case 11 => 334 + l
    case _ => 365 + l
  }

  /** The Gregorian calendar, apart from the table: thirty days hath September, April, June and November. */
  function MonthLength(y: int, m: Month): (n: int)
    ensures 28 <= n <= 31
  {
    if m == 8 || m == 3 || m == 5 || m == 10 then 30
    else if m != 1 then 31
    else if y % 400 == 0 || (y % 4 == 0 && y % 100 != 0) then 29 else 28
  }

  /** By the table, every month has its length. */
  function DaysInMonth(y: int, m: Month): (n: int)
    ensures n == MonthLength(y, m)
  {
    CenturiesAreFourfold(y);
    DaysBefore(m + 1, Leap(y)) - DaysBefore(m, Leap(y))
  }

  lemma NextMonth(y: int, m: Month)
    ensures DaysBefore(m + 1, Leap(y)) == DaysBefore(m, Leap(y)) + MonthLength(y, m)
  {
    assert DaysInMonth(y, m) == MonthLength(y, m);
  }

  /** The month that holds the day at an offset into a year, searched from month `m`. */
  function MonthFrom(offset: int, leap: bool, m: Month): (r: Month)
    requires DaysBefore(m, leap) <= offset < DaysBefore(12, leap)
    ensures DaysBefore(r, leap) <= offset < DaysBefore(r + 1, leap)
    decreases 12 - m
  {
    if offset < DaysBefore(m + 1, leap) then m else MonthFrom(offset, leap, m + 1)
  }

  function MonthOf(d: int): Month {
    var y := YearOf(d);
    YearBounds(d);
    MonthFrom(d - DayFromYear(y), Leap(y), 0)
  }

  lemma YearBounds(d: int)
    ensures 0 <= d - DayFromYear(YearOf(d)) < DaysBefore(12, Leap(YearOf(d)))
  {
    hide DayFromYear;
    NextYear(YearOf(d));
  }

  function DateOf(d: int): int { d - DayFromYear(YearOf(d)) - DaysBefore(MonthOf(d), Leap(YearOf(d))) + 1 }

  /** `MakeDay`: months outside the year carry into it, and days outside the month carry into the day number. */
  function MakeDay(year: int, month: int, date: int): int {
    var y := year + month / 12;
    DayFromYear(y) + DaysBefore(month % 12, Leap(y)) + date - 1
  }

  /** The dates of the Gregorian calendar. */
  predicate IsDate(y: int, m: int, d: int) { 0 <= m < 12 && 1 <= d <= MonthLength(y, m) }

  /** A calendar date and its day number determine each other. */
  lemma DayRoundTrip(y: int, m: Month, d: int)
    requires IsDate(y, m, d)
    ensures YearOf(MakeDay(y, m, d)) == y && MonthOf(MakeDay(y, m, d)) == m && DateOf(MakeDay(y, m, d)) == d
  {
    hide DayFromYear, DaysBefore, MonthLength, Leap;
    var n := MakeDay(y, m, d);
    assert n == DayFromYear(y) + DaysBefore(m, Leap(y)) + d - 1;
    NextMonth(y, m);
    WholeYear(Leap(y));
    MonthsAscend(m + 1, 12, Leap(y));
    MonthsAscend(0, m, Leap(y));
    NextYear(y);
    YearIs(n, y);
    MonthIs(n, y, m);
  }

  lemma YearIs(n: int, y: int)
    requires DayFromYear(y) <= n < DayFromYear(y + 1)
    ensures YearOf(n) == y
  {
    hide DayFromYear;
    var r := YearOf(n);
    if r < y { YearsAscendWeakly(r + 1, y); }
    if y < r { YearsAscendWeakly(y + 1, r); }
  }

  lemma MonthIs(n: int, y: int, m: Month)
    requires YearOf(n) == y
    requires DaysBefore(m, Leap(y)) <= n - DayFromYear(y) < DaysBefore(m + 1, Leap(y))
    ensures MonthOf(n) == m
  {
    hide DayFromYear;
    hide DaysBefore;
    var s := MonthOf(n);
    if s < m { MonthsAscend(s + 1, m, Leap(y)); }
    if m < s { MonthsAscend(m + 1, s, Leap(y)); }
  }

  lemma DateOfDay(n: int)
    ensures IsDate(YearOf(n), MonthOf(n), DateOf(n)) && MakeDay(YearOf(n), MonthOf(n), DateOf(n)) == n
  {
    hide DayFromYear;
    hide DaysBefore;
    hide YearOf;
    hide MonthLength;
    var m := MonthOf(n);
    NextMonth(YearOf(n), m);
    assert m / 12 == 0 && m % 12 == m;
  }

  lemma YearsAscendWeakly(a: int, b: int)
    requires a <= b
    ensures DayFromYear(a) <= DayFromYear(b)
  {
    if a < b { YearsAscend(a, b); }
  }

  lemma {:induction false} MonthsAscend(a: int, b: int, leap: bool)
    requires 0 <= a <= b <= 12
    ensures DaysBefore(a, leap) <= DaysBefore(b, leap)
    decreases b - a
  {
    if a < b { MonthsAscend(a + 1, b, leap); }
  }

  /** Whether a date comes before or on another, field by field. */
  predicate NotAfter(y: int, m: int, d: int, y': int, m': int, d': int) {
    y < y' || (y == y' && (m < m' || (m == m' && d <= d')))
  }

  /** Field order is the order of day numbers. */
  lemma FieldOrderIsDayOrder(y: int, m: Month, d: int, y': int, m': Month, d': int)
    requires IsDate(y, m, d) && IsDate(y', m', d')
    ensures NotAfter(y, m, d, y', m', d') <==> MakeDay(y, m, d) <= MakeDay(y', m', d')
  {
    hide MakeDay;
    hide YearOf;
    hide MonthOf;
    hide DateOf;
    if NotAfter(y, m, d, y', m', d') {
      DaysAscend(y, m, d, y', m', d');
    } else {
      DaysAscend(y', m', d', y, m, d);
      DayRoundTrip(y, m, d);
      DayRoundTrip(y', m', d');
    }
  }

  lemma WholeYear(leap: bool)
    ensures DaysBefore(0, leap) == 0 && DaysBefore(12, leap) == if leap then 366 else 365
  {
  }

  lemma DaysAscend(y: int, m: Month, d: int, y': int, m': Month, d': int)
    requires IsDate(y, m, d) && IsDate(y', m', d') && NotAfter(y, m, d, y', m', d')
    ensures MakeDay(y, m, d) <= MakeDay(y', m', d')
  {
    hide DayFromYear;
    hide DaysBefore;
    hide MonthLength;
    NextYear(y);
    NextMonth(y, m);
    NextMonth(y', m');
    if y < y' {
      YearsAscendWeakly(y + 1, y');
      MonthsAscend(m + 1, 12, Leap(y));
      MonthsAscend(0, m', Leap(y'));
      WholeYear(Leap(y));
      WholeYear(Leap(y'));
    } else if m < m' {
      MonthsAscend(m + 1, m', Leap(y));
    }
  }
}
