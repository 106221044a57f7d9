/** The calendar-date arithmetic of `packages/contracts/src/dates.ts`. */
module Dates {
  import opened JsText
  import opened Wrappers
  import opened Calendar
  import opened DateTexts
  import opened DecimalText

  // ---- Time values ----------------------------------------------------------------------------

  /** `TimeClip`: past a hundred million days from 1970 a time value is not a number. */
  const MAX_DAY: int := 100_000_000

  function TimeClip(day: int): Option<int> { if -MAX_DAY <= day <= MAX_DAY then Some(day) else None }

  /** `setUTCDate`, `setUTCFullYear` and `setUTCMonth` on a time value. A year is set on day zero when the time
  value is not a number; the other two leave it so. */
  function WithDate(time: Option<int>, date: Option<int>): Option<int> {
    if time.None? || date.None? then None
    else TimeClip(MakeDay(YearOf(time.value), MonthOf(time.value), date.value))
  }

  function WithFullYear(time: Option<int>, year: Option<int>): Option<int> {
    var t := if time.None? then 0 else time.value;
    if year.None? then None else TimeClip(MakeDay(year.value, MonthOf(t), DateOf(t)))
  }

  function WithMonth(time: Option<int>, month: Option<int>): Option<int> {
    if time.None? || month.None? then None
    else TimeClip(MakeDay(YearOf(time.value), month.value, DateOf(time.value)))
  }

  /** `MakeFullYear`: `Date.UTC` reads the years 0 to 99 as 1900 to 1999. */
  function FullYear(y: int): int { if 0 <= y <= 99 then 1900 + y else y }

  /** `Date.UTC(year, month, date)`. */
  function DateUTC(year: Option<int>, month: Option<int>, date: int): Option<int> {
    if year.None? || month.None? then None else TimeClip(MakeDay(FullYear(year.value), month.value, date))
  }

  function Plus(x: Option<int>, y: int): Option<int> { if x.None? then None else Some(x.value + y) }

  /** `Math.min`, which is not a number when either argument is not. */
  function MathMin(x: Option<int>, y: Option<int>): Option<int> {
    if x.None? || y.None? then None else if x.value <= y.value then x else y
  }

  class UtcDate {
    var time: Option<int>

    constructor (time: Option<int>)
      ensures this.time == time
    {
      this.time := time;
    }

    function GetUTCDate(): Option<int>
      reads this
    {
      if time.None? then None else Some(DateOf(time.value))
    }

    function GetUTCMonth(): Option<int>
      reads this
    {
      if time.None? then None else Some(MonthOf(time.value))
    }

    function GetUTCFullYear(): Option<int>
      reads this
    {
      if time.None? then None else Some(YearOf(time.value))
    }

    method SetUTCDate(date: Option<int>)
      modifies this
      ensures time == WithDate(old(time), date)
    {
      time := WithDate(time, date);
    }

    method SetUTCFullYear(year: Option<int>)
      modifies this
      ensures time == WithFullYear(old(time), year)
    {
      time := WithFullYear(time, year);
    }

    method SetUTCMonth(month: Option<int>)
      modifies this
      ensures time == WithMonth(old(time), month)
    {
      time := WithMonth(time, month);
    }
  }

  // ---- Valid dates ----------------------------------------------------------------------------

  /** Midnight of a date text. ECMA-262 takes a day the month does not have as no date at all; some engines
  roll it into the next month instead. */
  function ParseMidnight(text: Text, rolls: bool): Option<int>
    requires MatchesPattern(text)
  {
    var y, m, d := YearField(text), MonthField(text), DayField(text);
    if 0 <= m < 12 && 1 <= d <= (if rolls then 31 else DaysInMonth(y, m)) then Some(MakeDay(y, m, d)) else None
  }

  /** `isLocalDate`, on an engine that rolls over or one that does not. */
  predicate ChecksOut(text: Text, rolls: bool) {
    MatchesPattern(text) &&
    var time := ParseMidnight(text, rolls);
    time.Some? && Iso10(YearOf(time.value), MonthOf(time.value), DateOf(time.value)) == text
  }

  predicate IsLocalDate(text: Text) { ChecksOut(text, false) }

  /** The check accepts exactly the texts of calendar dates of the years 0000 to 9999, on either engine. */
  lemma LocalDateIsCalendarDate(text: Text, rolls: bool)
    ensures ChecksOut(text, rolls)
       <==> MatchesPattern(text) && IsDate(YearField(text), MonthField(text), DayField(text))
    ensures ChecksOut(text, rolls) ==>
      && 0 <= YearField(text) <= 9999
      && text == Iso10(YearField(text), MonthField(text), DayField(text))
      && ParseMidnight(text, rolls) == Some(MakeDay(YearField(text), MonthField(text), DayField(text)))
  {
    hide Iso10;
    hide MakeDay;
    hide YearOf;
    hide MonthOf;
    hide DateOf;
    if MatchesPattern(text) {
      var y, m, d := YearField(text), MonthField(text), DayField(text);
      if 0 <= m < 12 {
        PatternIsIso(text);
        if IsDate(y, m, d) {
          DayRoundTrip(y, m, d);
        } else if ParseMidnight(text, rolls).Some? {
          RolledOver(text, y, m, d);
        }
      }
    }
  }

  lemma FieldsOf(text: Text)
    requires IsLocalDate(text)
    ensures MatchesPattern(text) && 0 <= YearField(text) <= 9999
    ensures IsDate(YearField(text), MonthField(text), DayField(text))
    ensures text == Iso10(YearField(text), MonthField(text), DayField(text))
    ensures ParseMidnight(text, false) == Some(MakeDay(YearField(text), MonthField(text), DayField(text)))
  {
    LocalDateIsCalendarDate(text, false);
  }

  lemma RolledOver(text: Text, y: int, m: Month, d: int)
    requires MatchesPattern(text) && 0 <= y <= 9999 && !IsDate(y, m, d) && 1 <= d <= 31 && text == Iso10(y, m, d)
    ensures var n := MakeDay(y, m, d); Iso10(YearOf(n), MonthOf(n), DateOf(n)) != text
  {
    hide Iso10;
    hide MakeDay;
    hide YearOf;
    hide MonthOf;
    hide DateOf;
    var n := MakeDay(y, m, d);
    DateOfDay(n);
    var y', m', d' := YearOf(n), MonthOf(n), DateOf(n);
    if 0 <= y' <= 9999 {
      IsoMatchesPattern(y', m', d');
      IsoMatchesPattern(y, m, d);
    } else {
      SignedSortsFirst(y', m', d', y, m, d);
    }
  }

  // ---- Clamped arithmetic ---------------------------------------------------------------------

  /** A date text, or the error thrown: the input is not a date, or the result is no time value. */
  datatype Outcome = Ok(text: Text) | NotADate | OutOfRange

  /** The last day the clamp allows. `Date.UTC` is asked about the year 1900 in place of the year 0, so the
  leap day of the year 0 is out of reach. */
  function LastDay(y: int, m: Month): (d: int)
    ensures 28 <= d <= 31
  {
    if y == 0 && m == 1 then 28 else MonthLength(y, m)
  }

  /** The months whose first and last days are both time values. */
  predicate InRange(y: int, m: Month) {
    NotAfter(-271821, 4, 1, y, m, 1) && NotAfter(y, m, 1, 275760, 7, 1)
  }

  function Min(x: int, y: int): int { if x <= y then x else y }

  /** A day moved into a month, clamped to that month's end. */
  function Landing(y: int, m: Month, d: int): Outcome
    requires 1 <= d
  {
    if InRange(y, m) then Ok(Iso10(y, m, Min(d, LastDay(y, m)))) else OutOfRange
  }

  function ShiftYears(value: Text, years: int): Outcome {
    if !IsLocalDate(value) then NotADate
    else
      FieldsOf(value);
      Landing(YearField(value) + years, MonthField(value), DayField(value))
  }

  function AddYears(value: Text, years: int): Outcome { ShiftYears(value, years) }

  function SubtractYears(value: Text, years: int): Outcome { ShiftYears(value, -years) }

  /** The year and the month that lie some months back. */
  function YearBack(y: int, m: int, months: int): int { y + (m - months) / 12 }

  function MonthBack(m: int, months: int): Month { (m - months) % 12 }

  function SubtractMonths(value: Text, months: int): Outcome {
    if !IsLocalDate(value) then NotADate
    else
      FieldsOf(value);
      var y, m := YearField(value), MonthField(value);
      Landing(YearBack(y, m, months), MonthBack(m, months), DayField(value))
  }

  lemma MonthStartsAscend(y: int, m: Month, y': int, m': Month)
    ensures NotAfter(y, m, 1, y', m', 1) <==> MakeDay(y, m, 1) <= MakeDay(y', m', 1)
  {
    FieldOrderIsDayOrder(y, m, 1, y', m', 1);
  }

  /** Day zero of the next month is the last day of this one. */
  lemma DayZero(y: int, m: Month)
    ensures MakeDay(y, m + 1, 0) == MakeDay(y, m, DaysInMonth(y, m)) == MakeDay(y, m, 1) + DaysInMonth(y, m) - 1
  {
    hide DayFromYear;
    if m == 11 {
      NextYear(y);
      assert (m + 1) / 12 == 1 && (m + 1) % 12 == 0;
      WholeYear(Leap(y));
      WholeYear(Leap(y + 1));
    }
  }

  lemma RangeIsClip(y: int, m: Month)
    ensures InRange(y, m) <==> -MAX_DAY <= MakeDay(y, m, 1) && MakeDay(y, m + 1, 0) <= MAX_DAY
  {
    Extremes();
    DayZero(y, m);
    DayZero(275760, 7);
    MonthStartsAscend(-271821, 4, y, m);
    MonthStartsAscend(y, m, -271821, 3);
    MonthStartsAscend(y, m, 275760, 7);
    MonthStartsAscend(275760, 8, y, m);
    assert 275760 % 4 == 0;
  }

  lemma Extremes()
    ensures MakeDay(-271821, 3, 1) == -MAX_DAY - 19 && MakeDay(-271821, 4, 1) == -MAX_DAY + 11
    ensures MakeDay(275760, 7, 1) == MAX_DAY - 43 && MakeDay(275760, 8, 1) == MAX_DAY - 12
  {
    assert DayFromYear(-271821) == -MAX_DAY - 109 && !Leap(-271821);
    assert DayFromYear(275760) == MAX_DAY - 256 && Leap(275760);
  }

  lemma FourDigitInRange(y: int, m: Month, d: int)
    requires 0 <= y <= 9999 && IsDate(y, m, d)
    ensures -MAX_DAY <= MakeDay(y, m, d) <= MAX_DAY
  {
    Extremes();
    FieldOrderIsDayOrder(y, m, d, 275760, 7, 1);
    FieldOrderIsDayOrder(-271821, 4, 1, y, m, d);
  }

  lemma LeapOf1900(y: int)
    requires 1 <= y <= 99
    ensures Leap(1900 + y) == Leap(y)
  {
  }

  /** What remains of `addYears` and its siblings once the month is set. */
  function Clamped(time: Option<int>, day: Option<int>): Outcome {
    var y := if time.None? then None else Some(YearOf(time.value));
    var m := if time.None? then None else Some(MonthOf(time.value));
    var last := DateUTC(y, Plus(m, 1), 0);
    var lastDay := if last.None? then None else Some(DateOf(last.value));
    var result := WithDate(time, MathMin(day, lastDay));
    if result.None? then OutOfRange
    else
      DateOfDay(result.value);
      Ok(Iso10(YearOf(result.value), MonthOf(result.value), DateOf(result.value)))
  }

  method ClampDay(date: UtcDate, day: Option<int>) returns (r: Outcome)
    modifies date
    ensures r == Clamped(old(date.time), day)
  {
    var lastDayOfMonth := new UtcDate(DateUTC(date.GetUTCFullYear(), Plus(date.GetUTCMonth(), 1), 0));
    date.SetUTCDate(MathMin(day, lastDayOfMonth.GetUTCDate()));
    if date.time.None? { return OutOfRange; }
    DateOfDay(date.time.value);
    r := Ok(Iso10(YearOf(date.time.value), MonthOf(date.time.value), DateOf(date.time.value)));
  }

  lemma FullYearMonth(y: int, m: Month)
    requires InRange(y, m)
    ensures InRange(FullYear(y), m) && DaysInMonth(FullYear(y), m) == LastDay(y, m)
  {
    if 0 < y <= 99 { LeapOf1900(y); }
  }

  lemma LastDayOfMonth(y: int, m: Month)
    requires InRange(y, m)
    ensures var last := DateUTC(Some(y), Some(m + 1), 0); last.Some? && DateOf(last.value) == LastDay(y, m)
  {
    hide MakeDay;
    hide DateOf;
    hide InRange;
    hide DaysInMonth;
    hide FullYear;
    hide YearOf;
    hide MonthOf;
    FullYearMonth(y, m);
    var Y := FullYear(y);
    RangeIsClip(Y, m);
    DayZero(Y, m);
    FieldOrderIsDayOrder(Y, m, 1, Y, m, DaysInMonth(Y, m));
    DayRoundTrip(Y, m, DaysInMonth(Y, m));
  }

  /** From the first of a month, the clamp lands on the day asked for or on the month's last. */
  lemma ClampedIsLanding(y: int, m: Month, d: int)
    requires 1 <= d
    ensures Clamped(TimeClip(MakeDay(y, m, 1)), Some(d)) == Landing(y, m, d)
  {
    hide MakeDay;
    hide YearOf;
    hide MonthOf;
    hide DateOf;
    hide Iso10;
    RangeIsClip(y, m);
    DayZero(y, m);
    DayRoundTrip(y, m, 1);
    if InRange(y, m) {
      LastDayOfMonth(y, m);
      var e := Min(d, LastDay(y, m));
      assert IsDate(y, m, e) by { if 0 < y <= 99 { LeapOf1900(y); } }
      FieldOrderIsDayOrder(y, m, 1, y, m, e);
      FieldOrderIsDayOrder(y, m, e, y, m, DaysInMonth(y, m));
      DayRoundTrip(y, m, e);
    } else if TimeClip(MakeDay(y, m, 1)).Some? {
      var Y := FullYear(y);
      assert Y == y;
    }
  }

  method AddYearsTo(value: Text, years: int) returns (r: Outcome)
    ensures r == AddYears(value, years)
  {
    hide YearOf;
    hide MonthOf;
    hide DateOf;
    hide TimeClip;
    hide Iso10;
    hide MakeDay;
    hide Landing;
    hide Clamped;
    if !IsLocalDate(value) { return NotADate; }
    FieldsOf(value);
    ghost var y, m, d := YearField(value), MonthField(value), DayField(value);
    var date := new UtcDate(ParseMidnight(value, false));
    DayRoundTrip(y, m, d);
    var day := date.GetUTCDate();
    FirstOfMonth(y, m, d);
    date.SetUTCDate(Some(1));
    date.SetUTCFullYear(Plus(date.GetUTCFullYear(), years));
    ClampedIsLanding(y + years, m, d);
    r := ClampDay(date, day);
  }

  method SubtractYearsFrom(value: Text, years: int) returns (r: Outcome)
    ensures r == SubtractYears(value, years)
  {
    hide YearOf;
    hide MonthOf;
    hide DateOf;
    hide TimeClip;
    hide Iso10;
    hide MakeDay;
    hide Landing;
    hide Clamped;
    if !IsLocalDate(value) { return NotADate; }
    FieldsOf(value);
    ghost var y, m, d := YearField(value), MonthField(value), DayField(value);
    var date := new UtcDate(ParseMidnight(value, false));
    DayRoundTrip(y, m, d);
    var day := date.GetUTCDate();
    FirstOfMonth(y, m, d);
    date.SetUTCDate(Some(1));
    date.SetUTCFullYear(Plus(date.GetUTCFullYear(), -years));
    ClampedIsLanding(y - years, m, d);
    r := ClampDay(date, day);
  }

  method SubtractMonthsFrom(value: Text, months: int) returns (r: Outcome)
    ensures r == SubtractMonths(value, months)
  {
    hide YearOf;
    hide MonthOf;
    hide DateOf;
    hide TimeClip;
    hide Iso10;
    hide MakeDay;
    hide Landing;
    hide Clamped;
    if !IsLocalDate(value) { return NotADate; }
    FieldsOf(value);
    ghost var y, m, d := YearField(value), MonthField(value), DayField(value);
    var date := new UtcDate(ParseMidnight(value, false));
    DayRoundTrip(y, m, d);
    var day := date.GetUTCDate();
    FirstOfMonth(y, m, d);
    date.SetUTCDate(Some(1));
    date.SetUTCMonth(Plus(date.GetUTCMonth(), -months));
    MonthCarries(y, m - months);
    ghost var y', m' := YearBack(y, m, months), MonthBack(m, months);
    assert date.time == TimeClip(MakeDay(y', m', 1));
    ClampedIsLanding(y', m', d);
    r := ClampDay(date, day);
    assert r == Landing(y', m', d);
  }

  /** Moving to the first of the month stays a time value and keeps the month. */
  lemma FirstOfMonth(y: int, m: Month, d: int)
    requires 0 <= y <= 9999 && IsDate(y, m, d)
    ensures WithDate(Some(MakeDay(y, m, d)), Some(1)) == Some(MakeDay(y, m, 1))
    ensures YearOf(MakeDay(y, m, 1)) == y && MonthOf(MakeDay(y, m, 1)) == m && DateOf(MakeDay(y, m, 1)) == 1
  {
    hide MakeDay;
    DayRoundTrip(y, m, d);
    DayRoundTrip(y, m, 1);
    FourDigitInRange(y, m, 1);
  }

  lemma MonthCarries(y: int, month: int)
    ensures MakeDay(y, month, 1) == MakeDay(y + month / 12, month % 12, 1)
  {
    hide DayFromYear;
    hide DaysBefore;
    assert month % 12 / 12 == 0 && month % 12 % 12 == month % 12;
  }

  // ---- The two bounds of a period -------------------------------------------------------------

  /** Start and end dates the two bounds disagree on: the end is a leap day, the start is 28 February of the year
  it falls back to, and that year has no leap day the clamp could reach. */
  predicate LeapDayGap(start: Text, end: Text, n: nat)
    requires MatchesPattern(start) && MatchesPattern(end)
  {
    && YearField(end) - n == YearField(start)
    && MonthField(end) == MonthField(start) == 1
    && DayField(end) == 29 && DayField(start) == 28
    && LastDay(YearField(start), 1) == 28
  }

  /** The other two ways the bounds part: the added year needs five digits, and the leap day of the year 0. */
  predicate OutOfReach(start: Text, end: Text, n: nat)
    requires MatchesPattern(start)
  {
    YearField(start) + n > 9999 || (n == 0 && start == end == Iso10(0, 1, 29))
  }

  lemma ClampedOrder(y: int, y': int, m: Month, m': Month, d: int, d': int, n: nat)
    requires 0 <= y <= 9999 && 0 <= y' <= 9999 && IsDate(y, m, d) && IsDate(y', m', d')
    ensures NotAfter(y', m', d', y + n, m, Min(d, LastDay(y + n, m)))
       <==> (NotAfter(y' - n, m', Min(d', LastDay(y' - n, m')), y, m, d)
             && !(y' - n == y && m' == m == 1 && d' == 29 && d == 28 && LastDay(y, 1) == 28)
             && !(n == 0 && y == y' == 0 && m == m' == 1 && d == d' == 29))
  {
  }

  /** A date text compared with a result of the arithmetic: a result outside the four-digit years sorts first. */
  lemma CompareLanding(end: Text, y: int, m: Month, d: int)
    requires IsLocalDate(end) && 0 <= d <= 31
    ensures MatchesPattern(end)
    ensures 0 <= y <= 9999 ==>
      (AtMost(end, Iso10(y, m, d)) <==> NotAfter(YearField(end), MonthField(end), DayField(end), y, m, d))
    ensures 0 <= y <= 9999 ==>
      (AtMost(Iso10(y, m, d), end) <==> NotAfter(y, m, d, YearField(end), MonthField(end), DayField(end)))
    ensures !(0 <= y <= 9999) ==> AtMost(Iso10(y, m, d), end) && !AtMost(end, Iso10(y, m, d))
  {
    hide Iso10;
    FieldsOf(end);
    var y', m', d' := YearField(end), MonthField(end), DayField(end);
    if 0 <= y <= 9999 {
      TextOrderIsFieldOrder(y', m', d', y, m, d);
      TextOrderIsFieldOrder(y, m, d, y', m', d');
    } else {
      SignedSortsFirst(y, m, d, y', m', d');
      if AtMost(end, Iso10(y, m, d)) { AtMostAntisymmetric(end, Iso10(y, m, d)); }
    }
  }

  /** The upper and the lower bound of one period agree, except on the dates named above. */
  lemma BoundsAgree(start: Text, end: Text, n: nat)
    requires IsLocalDate(start) && IsLocalDate(end)
    requires AddYears(start, n).Ok? && SubtractYears(end, n).Ok?
    ensures MatchesPattern(start) && MatchesPattern(end)
    ensures AtMost(end, AddYears(start, n).text)
       <==> (AtMost(SubtractYears(end, n).text, start) && !LeapDayGap(start, end, n) && !OutOfReach(start, end, n))
  {
    hide AtMost;
    hide IsDate;
    hide Iso10;
    hide IsLocalDate;
    hide LastDay;
    FieldsOf(start);
    FieldsOf(end);
    var y, m, d := YearField(start), MonthField(start), DayField(start);
    var y', m', d' := YearField(end), MonthField(end), DayField(end);
    IsoMatchesPattern(0, 1, 29);
    assert OutOfReach(start, end, n)
      == (y + n > 9999 || (n == 0 && y == y' == 0 && m == m' == 1 && d == d' == 29));
    CompareLanding(end, y + n, m, Min(d, LastDay(y + n, m)));
    CompareLanding(start, y' - n, m', Min(d', LastDay(y' - n, m')));
    ClampedOrder(y, y', m, m', d, d', n);
  }

  /** 28 February 2023 to 29 February 2024 is within one year of its end but not of its start; and the leap day of
  the year 0 is not its own anniversary. */
  lemma BoundsDisagree()
    ensures var start, end := Iso10(2023, 1, 28), Iso10(2024, 1, 29);
      IsLocalDate(start) && IsLocalDate(end) && AddYears(start, 1).Ok? && SubtractYears(end, 1).Ok?
      && AtMost(SubtractYears(end, 1).text, start) && !AtMost(end, AddYears(start, 1).text)
    ensures var day := Iso10(0, 1, 29);
      IsLocalDate(day) && AddYears(day, 0) == SubtractYears(day, 0) == Ok(Iso10(0, 1, 28))
  {
    hide Iso10;
    hide AtMost;
    hide IsLocalDate;
    assert Leap(2024) && !Leap(2023) && Leap(0);
    IsoIsLocalDate(2023, 1, 28);
    IsoIsLocalDate(2024, 1, 29);
    IsoIsLocalDate(0, 1, 29);
    BoundsAgree(Iso10(2023, 1, 28), Iso10(2024, 1, 29), 1);
    CompareLanding(Iso10(2023, 1, 28), 2023, 1, 28);
  }

  lemma IsoIsLocalDate(y: int, m: Month, d: int)
    requires 0 <= y <= 9999 && IsDate(y, m, d)
    ensures IsLocalDate(Iso10(y, m, d)) && MatchesPattern(Iso10(y, m, d))
    ensures YearField(Iso10(y, m, d)) == y && MonthField(Iso10(y, m, d)) == m && DayField(Iso10(y, m, d)) == d
  {
    hide Iso10;
    IsoMatchesPattern(y, m, d);
    LocalDateIsCalendarDate(Iso10(y, m, d), false);
  }

  /** Two dates shifted by the same years keep their order exactly unless only the later one leaves the four-digit
  years, or both end before the year 0 in different years. */
  lemma AddYearsMonotone(a: Text, b: Text, n: int)
    requires IsLocalDate(a) && IsLocalDate(b) && AtMost(a, b) && AddYears(a, n).Ok? && AddYears(b, n).Ok?
    ensures MatchesPattern(a) && MatchesPattern(b)
    ensures var y, y' := YearField(a) + n, YearField(b) + n;
      AtMost(AddYears(a, n).text, AddYears(b, n).text) <==> !(0 <= y <= 9999 < y') && !(y < y' < 0)
  {
    hide Iso10, IsLocalDate, LastDay, AtMost;
    FieldsOf(a);
    FieldsOf(b);
    var y, m, d := YearField(a), MonthField(a), DayField(a);
    var y', m', d' := YearField(b), MonthField(b), DayField(b);
    TextOrderIsFieldOrder(y, m, d, y', m', d');
    ShiftedOrder(y + n, m, Min(d, LastDay(y + n, m)), y' + n, m', Min(d', LastDay(y' + n, m')));
  }

  lemma ShiftedOrder(y: int, m: Month, d: int, y': int, m': Month, d': int)
    requires -300000 < y <= y' < 300000 && y' - y <= 9999 && 0 <= d < 100 && 0 <= d' < 100
    requires y == y' ==> m <= m'
    requires y == y' && m == m' ==> d <= d'
    ensures AtMost(Iso10(y, m, d), Iso10(y', m', d')) <==> !(0 <= y <= 9999 < y') && !(y < y' < 0)
  {
    hide Iso10, AtMost;
    if 0 <= y && y' <= 9999 {
      TextOrderIsFieldOrder(y, m, d, y', m', d');
    } else if y < 0 <= y' {
      SignedSortsFirst(y, m, d, y', m', d');
    } else if y <= 9999 < y' {
      SignedSortsFirst(y', m', d', y, m, d);
      if AtMost(Iso10(y, m, d), Iso10(y', m', d')) { AtMostAntisymmetric(Iso10(y, m, d), Iso10(y', m', d')); }
    } else {
      SignedOrder(y, m, d, y', m', d');
    }
  }

  // ---- Months ---------------------------------------------------------------------------------

  lemma TwelveMonthsAreAYear(value: Text, n: int)
    ensures SubtractMonths(value, 12 * n) == SubtractYears(value, n)
  {
    hide Landing;
    hide IsLocalDate;
    if IsLocalDate(value) {
      FieldsOf(value);
      TwelveMonths(MonthField(value), n);
    }
  }

  lemma TwelveMonths(m: Month, n: int)
    ensures (m - 12 * n) / 12 == -n && (m - 12 * n) % 12 == m
  {
  }

  /** Two subtractions never land after the combined one, and land on it exactly when the first clamp left at
  least the day the combined one keeps. */
  lemma SuccessiveMonths(value: Text, a: nat, b: nat)
    requires SubtractMonths(value, a).Ok? && IsLocalDate(SubtractMonths(value, a).text)
    ensures SubtractMonths(SubtractMonths(value, a).text, b).Ok? <==> SubtractMonths(value, a + b).Ok?
    ensures SubtractMonths(value, a + b).Ok? ==>
      var twice, once := SubtractMonths(SubtractMonths(value, a).text, b).text, SubtractMonths(value, a + b).text;
      AtMost(twice, once)
      && (IsLocalDate(once) ==> (twice == once <==> DayField(SubtractMonths(value, a).text) >= DayField(once)))
  {
    hide SubtractMonths, IsLocalDate, LastDay, InRange, Iso10, AtMost, IsDate, MonthLength, YearBack, MonthBack, MatchesPattern,
      YearField, MonthField, DayField;
    LandsOn(value, a);
    FieldsOf(value);
    var y, m, d := YearField(value), MonthField(value), DayField(value);
    var y2, m2 := YearBack(y, m, a + b), MonthBack(m, a + b);
    var first := SubtractMonths(value, a).text;
    FieldsOf(first);
    var d1 := DayField(first);
    SecondLanding(value, a, b);
    CompareSameMonth(y2, m2, Min(d1, LastDay(y2, m2)), Min(d, LastDay(y2, m2)));
  }

  /** Both ways of going back land in one month, from the clamped day and from the day itself. */
  lemma SecondLanding(value: Text, a: nat, b: nat)
    requires SubtractMonths(value, a).Ok? && IsLocalDate(SubtractMonths(value, a).text)
    ensures IsLocalDate(value)
    ensures var first := SubtractMonths(value, a).text;
      var y, m := YearBack(YearField(value), MonthField(value), a + b), MonthBack(MonthField(value), a + b);
      && DayField(first) <= DayField(value)
      && SubtractMonths(first, b) == Landing(y, m, DayField(first))
      && SubtractMonths(value, a + b) == Landing(y, m, DayField(value))
  {
    FirstLanding(value, a);
    var first := SubtractMonths(value, a).text;
    hide SubtractMonths, IsLocalDate, Landing, Iso10, YearBack, MonthBack, YearField, MonthField, DayField;
    FieldsOf(value);
    FieldsOf(first);
    MonthsOf(YearField(value), MonthField(value), DayField(value), a + b);
    MonthsOf(YearField(first), MonthField(first), DayField(first), b);
    CarriesAdd(YearField(value), MonthField(value), a, b);
  }

  /** Going back `a` months lands in the carried month, on the clamped day. */
  lemma FirstLanding(value: Text, a: nat)
    requires SubtractMonths(value, a).Ok? && IsLocalDate(SubtractMonths(value, a).text)
    ensures IsLocalDate(value)
    ensures var first := SubtractMonths(value, a).text;
      && MatchesPattern(first) && MatchesPattern(value)
      && YearField(first) == YearBack(YearField(value), MonthField(value), a)
      && MonthField(first) == MonthBack(MonthField(value), a)
      && DayField(first) <= DayField(value)
  {
    LandsOn(value, a);
    hide SubtractMonths, IsLocalDate, LastDay, Iso10, YearBack, MonthBack, YearField, MonthField, DayField, MatchesPattern, IsDate;
    FieldsOf(value);
    var y1, m1 := YearBack(YearField(value), MonthField(value), a), MonthBack(MonthField(value), a);
    FieldsOfLanding(y1, m1, Min(DayField(value), LastDay(y1, m1)));
  }

  lemma LandsOn(value: Text, a: nat)
    requires SubtractMonths(value, a).Ok?
    ensures IsLocalDate(value) && MatchesPattern(value)
    ensures var y1, m1 := YearBack(YearField(value), MonthField(value), a), MonthBack(MonthField(value), a);
      1 <= DayField(value) <= 31 && SubtractMonths(value, a).text == Iso10(y1, m1, Min(DayField(value), LastDay(y1, m1)))
  {
    assert IsLocalDate(value);
    hide IsLocalDate, LastDay, InRange, Iso10, YearBack, MonthBack, YearField, MonthField, DayField, MatchesPattern;
    FieldsOf(value);
  }

  lemma MonthsOf(y: int, m: Month, d: int, months: int)
    requires 1 <= d <= 31 && IsLocalDate(Iso10(y, m, d))
    ensures SubtractMonths(Iso10(y, m, d), months) == Landing(YearBack(y, m, months), MonthBack(m, months), d)
  {
    hide IsLocalDate;
    hide Landing;
    FieldsOfLanding(y, m, d);
  }

  lemma CarriesAdd(y: int, m: int, a: int, b: int)
    ensures YearBack(YearBack(y, m, a), MonthBack(m, a), b) == YearBack(y, m, a + b)
    ensures MonthBack(MonthBack(m, a), b) == MonthBack(m, a + b)
  {
  }

  /** A result that is itself a valid date has the fields it was made from. */
  lemma FieldsOfLanding(y: int, m: Month, d: int)
    requires 1 <= d <= 31 && IsLocalDate(Iso10(y, m, d))
    ensures 0 <= y <= 9999
    ensures MatchesPattern(Iso10(y, m, d)) && YearField(Iso10(y, m, d)) == y
    ensures MonthField(Iso10(y, m, d)) == m && DayField(Iso10(y, m, d)) == d
  {
    hide Digits;
    hide ParseMidnight;
    if 0 <= y <= 9999 { IsoMatchesPattern(y, m, d); }
  }

  lemma CompareSameMonth(y: int, m: Month, d: int, e: int)
    requires 1 <= d <= e <= 31
    ensures AtMost(Iso10(y, m, d), Iso10(y, m, e))
    ensures IsLocalDate(Iso10(y, m, e)) ==>
      DayField(Iso10(y, m, e)) == e && (Iso10(y, m, d) == Iso10(y, m, e) <==> d == e)
  {
    if 0 <= y <= 9999 {
      TextOrderIsFieldOrder(y, m, d, y, m, e);
      IsoMatchesPattern(y, m, d);
      IsoMatchesPattern(y, m, e);
    } else {
      AtMostReflexive(Iso10(y, m, d));
      if IsLocalDate(Iso10(y, m, e)) { FieldsOfLanding(y, m, e); }
    }
  }

  // ---- The length of a period -----------------------------------------------------------------

  /** `end <= addYears(start, n)`. */
  predicate Covers(start: Text, end: Text, n: nat) {
    AddYears(start, n).Ok? && AtMost(end, AddYears(start, n).text)
  }

  lemma CoversFields(start: Text, end: Text, n: nat)
    requires IsLocalDate(start) && IsLocalDate(end)
    ensures MatchesPattern(start) && MatchesPattern(end)
    ensures var y := YearField(start) + n;
      Covers(start, end, n) <==>
      (y <= 9999
       && NotAfter(YearField(end), MonthField(end), DayField(end),
                   y, MonthField(start), Min(DayField(start), LastDay(y, MonthField(start)))))
  {
    hide Iso10;
    hide IsLocalDate;
    hide LastDay;
    FieldsOf(start);
    FieldsOf(end);
    var y, m := YearField(start) + n, MonthField(start);
    CompareLanding(end, y, m, Min(DayField(start), LastDay(y, m)));
  }

  /** Within four-digit years one more year lands no earlier. */
  lemma LaterLandings(start: Text, k: nat, n: nat)
    requires IsLocalDate(start) && k <= n
    requires MatchesPattern(start) && YearField(start) + n <= 9999
    ensures AddYears(start, k).Ok? && AddYears(start, n).Ok? && AtMost(AddYears(start, k).text, AddYears(start, n).text)
  {
    hide Iso10, IsLocalDate, LastDay;
    FieldsOf(start);
    var y, m, d := YearField(start), MonthField(start), DayField(start);
    TextOrderIsFieldOrder(y + k, m, Min(d, LastDay(y + k, m)), y + n, m, Min(d, LastDay(y + n, m)));
    assert k < n || Min(d, LastDay(y + k, m)) == Min(d, LastDay(y + n, m));
  }

  /** A text that starts with four digits, as every date text does. */
  predicate HasYear(text: Text) { |text| >= 4 && AllDigits(text[..4]) }

  /** `Number(text.slice(0, 4))`. */
  function LeadingYear(text: Text): (y: int)
    requires HasYear(text)
    ensures 0 <= y <= 9999
    ensures MatchesPattern(text) ==> y == YearField(text)
  {
    Tens();
    assert text[0..4] == text[..4];
    Number(text[..4])
  }

  datatype Period = Years(n: nat) | InvalidStart | RangeError

  /** The start may be any text, and the end any text that begins with a year. */
  method BacktestPeriodYears(start: Text, end: Text) returns (r: Period)
    requires HasYear(end)
    ensures r.InvalidStart? <==> !IsLocalDate(start)
    ensures r.Years? ==> Covers(start, end, r.n) && forall k: nat :: k < r.n ==> !Covers(start, end, k)
    ensures r.RangeError? ==> forall k: nat :: !Covers(start, end, k)
  {
    hide IsLocalDate, AtMost, Iso10, LastDay, AllDigits, ShiftYears;
    // From a start without a year nothing is counted: the first addition throws, whatever the difference.
    var years := if HasYear(start) then LeadingYear(end) - LeadingYear(start) else 0;
    if years < 0 { years := 0; }
    if IsLocalDate(start) { StartHasYear(start); }
    while years > 0
      invariant 0 <= years
      invariant IsLocalDate(start) ==> MatchesPattern(start) && 0 <= YearField(start) && YearField(start) + years <= 9999
    {
      var fewer := AddYearsTo(start, years - 1);
      ShiftFails(start, years - 1);
      if fewer.NotADate? { return InvalidStart; }
      LaterLandings(start, years - 1, years);
      if !AtMost(end, fewer.text) { break; }
      years := years - 1;
    }
    if IsLocalDate(start) { NoneBelow(start, end, years); }
    while true
      invariant 0 <= years
      invariant IsLocalDate(start) ==> forall k: nat :: k < years ==> !Covers(start, end, k)
      decreases 285761 - years
    {
      var added := AddYearsTo(start, years);
      ShiftFails(start, years);
      if added.NotADate? { return InvalidStart; }
      if added.OutOfRange? {
        BeyondRange(start, end, years);
        return RangeError;
      }
      if AtMost(end, added.text) { return Years(years); }
      years := years + 1;
    }
  }

  lemma StartHasYear(start: Text)
    requires IsLocalDate(start)
    ensures HasYear(start) && MatchesPattern(start)
  {
    FieldsOf(start);
  }

  /** Only an invalid date is refused as one, and only years far away are out of range. */
  lemma ShiftFails(value: Text, n: nat)
    ensures ShiftYears(value, n).NotADate? <==> !IsLocalDate(value)
    ensures n >= 275761 ==> !ShiftYears(value, n).Ok?
  {
    hide IsLocalDate, Iso10, LastDay;
    if IsLocalDate(value) { FieldsOf(value); }
  }

  lemma NoneBelow(start: Text, end: Text, n: nat)
    requires IsLocalDate(start)
    requires n > 0 ==> !Covers(start, end, n - 1)
    requires MatchesPattern(start) && YearField(start) + n <= 10000
    ensures forall k: nat :: k < n ==> !Covers(start, end, k)
  {
    hide IsLocalDate, AtMost, ShiftYears;
    forall k: nat | k < n ensures !Covers(start, end, k) {
      LaterLandings(start, k, n - 1);
      if Covers(start, end, k) { AtMostTransitive(end, AddYears(start, k).text, AddYears(start, n - 1).text); }
    }
  }

  lemma BeyondRange(start: Text, end: Text, n: nat)
    requires IsLocalDate(start) && AddYears(start, n).OutOfRange?
    ensures forall k: nat :: n <= k ==> !Covers(start, end, k)
  {
    hide IsLocalDate, Iso10, AtMost;
    FieldsOf(start);
  }

  /** Some number of years covers the period unless the end is in the year 9999 and its day of the year comes
  after the start's. */
  lemma CoverableWhen(start: Text, end: Text)
    requires IsLocalDate(start) && IsLocalDate(end)
    ensures MatchesPattern(start) && MatchesPattern(end)
    ensures (exists n: nat :: Covers(start, end, n)) <==>
      (YearField(end) < 9999
       || NotAfter(0, MonthField(end), DayField(end),
                   0, MonthField(start), Min(DayField(start), LastDay(9999, MonthField(start)))))
  {
    hide Covers;
    hide IsLocalDate;
    FieldsOf(start);
    FieldsOf(end);
    CoversFields(start, end, 9999 - YearField(start));
    if n: nat :| Covers(start, end, n) {
      CoversFields(start, end, n);
    }
  }
}
