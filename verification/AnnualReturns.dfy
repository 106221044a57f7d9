/** The per-year returns of `packages/contracts/src/backtests.ts`, over the reals. */
module AnnualReturns {
  import opened JsText
  import opened Wrappers
  import opened Collections
  import opened Sorting
  import opened TextSorting
  import Calendar
  import DateTexts
  import DecimalText

  /** A JavaScript number: a real value, or NaN or an infinity. */
  datatype Reading = Finite(value: real) | NotFinite

  datatype Point = Point(date: Text, returnIndex: Reading, benchmarkIndex: Option<Reading>)

  datatype Row = Row(
    year: Text, simulatedThrough: Text, returnPercent: real, benchmarkReturnPercent: Option<real>, partial: bool)

  datatype Period = Period(startDate: Text, endDate: Text)

  /** `usableIndex`: a reading that can be divided by. */
  function UsableIndex(x: Option<Reading>): (r: Option<real>)
    ensures r.Some? ==> r.value > 0.0
  {
    if x.Some? && x.value.Finite? && x.value.value > 0.0 then Some(x.value.value) else None
  }

  predicate Reads(p: Point) { p.returnIndex.Finite? && p.returnIndex.value > 0.0 }

  /** `slice(0, 4)` and `slice(5)`. */
  function YearOf(date: Text): Text { if |date| < 4 then date else date[..4] }

  function DayOfYear(date: Text): Text { if |date| < 5 then [] else date[5..] }

  // ---- The last usable point of each year -----------------------------------------------------

  type Held = m: map<Text, Point> | forall year :: year in m ==> Reads(m[year]) && YearOf(m[year].date) == year

  /** A point replaces the one held for its year unless it cannot be read or is dated earlier. */
  function Hold(held: Held, p: Point): Held {
    var year := YearOf(p.date);
    if Reads(p) && (year !in held || AtMost(held[year].date, p.date)) then held[year := p] else held
  }

  /** The map after the loop has visited `points`. */
  function LastOfYear(points: seq<Point>): Held {
    if points == [] then map[] else Hold(LastOfYear(points[..|points| - 1]), points[|points| - 1])
  }

  function AddKey(keys: seq<Text>, p: Point): seq<Text> {
    if Reads(p) && YearOf(p.date) !in keys then keys + [YearOf(p.date)] else keys
  }

  /** The map's keys in the order they were first set. */
  function Keys(points: seq<Point>): seq<Text> {
    if points == [] then [] else AddKey(Keys(points[..|points| - 1]), points[|points| - 1])
  }

  function Years(points: seq<Point>): seq<Text> { Sort(Keys(points), TextOrder()) }

  lemma {:induction false} KeysOfHeld(points: seq<Point>)
    ensures forall year :: year in Keys(points) <==> year in LastOfYear(points)
    ensures Distinct(Keys(points))
  {
    if points != [] { KeysOfHeld(points[..|points| - 1]); }
  }

  lemma YearsAreKeys(points: seq<Point>)
    ensures forall year :: year in Years(points) <==> year in LastOfYear(points)
  {
    KeysOfHeld(points);
    forall year ensures year in Years(points) <==> year in Keys(points) {
      assert year in Years(points) <==> year in multiset(Years(points));
    }
  }

  // ---- The rows -------------------------------------------------------------------------------

  predicate IsPartial(year: Text, period: Period) {
    (year == YearOf(period.startDate) && Less(Ascii("01-01"), DayOfYear(period.startDate)))
    || (year == YearOf(period.endDate) && Less(DayOfYear(period.endDate), Ascii("12-31")))
  }

  /** One row, from the anchors at its two ends. */
  function RowFor(p: Point, previous: real, anchor: Option<real>, previousAnchor: Option<real>, period: Period): Row
    requires Reads(p) && previous > 0.0 && (previousAnchor.Some? ==> previousAnchor.value > 0.0)
  {
    var year := YearOf(p.date);
    Row(year, p.date, (p.returnIndex.value / previous - 1.0) * 100.0,
        if anchor.None? || previousAnchor.None? then None
        else Some((anchor.value / previousAnchor.value - 1.0) * 100.0),
        IsPartial(year, period))
  }

  /** The benchmark's reading at the end of a year; a run without a benchmark has none. */
  function Anchor(held: Held, year: Text, hasBenchmark: bool): (r: Option<real>)
    requires year in held
    ensures r.Some? ==> r.value > 0.0
  {
    if hasBenchmark then UsableIndex(held[year].benchmarkIndex) else None
  }

  ghost predicate Covers(held: Held, years: seq<Text>) { forall year :: year in years ==> year in held }

  /** The year's return index and anchor, or the base before the first year. */
  function IndexBefore(held: Held, years: seq<Text>, k: nat): (r: real)
    requires k <= |years| && Covers(held, years)
    ensures r > 0.0
  {
    if k == 0 then 1.0 else held[years[k - 1]].returnIndex.value
  }

  function AnchorBefore(held: Held, years: seq<Text>, k: nat, hasBenchmark: bool, base: Option<real>): (r: Option<real>)
    requires k <= |years| && Covers(held, years)
    requires base.Some? ==> base.value > 0.0
    ensures r.Some? ==> r.value > 0.0
  {
    if k == 0 then base else Anchor(held, years[k - 1], hasBenchmark)
  }

  /** Row `k` is measured from the end of the year before it. */
  function RowAt(held: Held, years: seq<Text>, k: nat, hasBenchmark: bool, base: Option<real>, period: Period): Row
    requires k < |years| && Covers(held, years)
    requires base.Some? ==> base.value > 0.0
  {
    RowFor(held[years[k]], IndexBefore(held, years, k), Anchor(held, years[k], hasBenchmark),
           AnchorBefore(held, years, k, hasBenchmark, base), period)
  }

  function Rows(held: Held, years: seq<Text>, k: nat, hasBenchmark: bool, base: Option<real>, period: Period): seq<Row>
    requires k <= |years| && Covers(held, years)
    requires base.Some? ==> base.value > 0.0
  {
    if k == 0 then []
    else Rows(held, years, k - 1, hasBenchmark, base, period) + [RowAt(held, years, k - 1, hasBenchmark, base, period)]
  }

  /** `benchmark` is absent, or holds the index on the first simulated date. */
  function BaseOf(benchmark: Option<Option<Reading>>): (r: Option<real>)
    ensures r.Some? ==> r.value > 0.0
  {
    if benchmark.None? then None else UsableIndex(benchmark.value)
  }

  function Returns(points: seq<Point>, period: Period, benchmark: Option<Option<Reading>>): seq<Row> {
    YearsAreKeys(points);
    Rows(LastOfYear(points), Years(points), |Years(points)|, benchmark.Some?, BaseOf(benchmark), period)
  }

  method CollectLastOfYear(points: seq<Point>) returns (lastOfYear: Held, keys: seq<Text>)
    ensures lastOfYear == LastOfYear(points) && keys == Keys(points)
  {
    hide AtMost, YearOf;
    lastOfYear, keys := map[], [];
    for at := 0 to |points|
      invariant lastOfYear == LastOfYear(points[..at]) && keys == Keys(points[..at])
    {
      var point := points[at];
      assert points[..at + 1][..at] == points[..at];
      KeysOfHeld(points[..at]);
      assert LastOfYear(points[..at + 1]) == Hold(lastOfYear, point) && Keys(points[..at + 1]) == AddKey(keys, point);
      if !Reads(point) { continue; }
      var year := YearOf(point.date);
      if year !in lastOfYear || AtMost(lastOfYear[year].date, point.date) {
        if year !in lastOfYear { keys := keys + [year]; }
        lastOfYear := lastOfYear[year := point];
      }
    }
    assert points[..|points|] == points;
  }

  method BacktestAnnualReturns(points: seq<Point>, period: Period, benchmark: Option<Option<Reading>>)
    returns (rows: seq<Row>)
    ensures rows == Returns(points, period, benchmark)
  {
    hide AtMost, LastOfYear, Keys, RowFor, UsableIndex, Sort;
    YearsAreKeys(points);
    var lastOfYear, keys := CollectLastOfYear(points);
    var previousIndex := 1.0;
    var previousBenchmarkIndex := BaseOf(benchmark);
    var years := Sort(keys, TextOrder());
    rows := [];
    for at := 0 to |years|
      invariant previousIndex == IndexBefore(lastOfYear, years, at)
      invariant previousBenchmarkIndex == AnchorBefore(lastOfYear, years, at, benchmark.Some?, BaseOf(benchmark))
      invariant rows == Rows(lastOfYear, years, at, benchmark.Some?, BaseOf(benchmark), period)
    {
      var point := lastOfYear[years[at]];
      var benchmarkIndex := if benchmark.Some? then UsableIndex(point.benchmarkIndex) else None;
      rows := rows + [RowFor(point, previousIndex, benchmarkIndex, previousBenchmarkIndex, period)];
      previousIndex := point.returnIndex.value;
      previousBenchmarkIndex := benchmarkIndex;
    }
  }

  // ---- Chaining -------------------------------------------------------------------------------

  function Compound(growth: real, percent: real): real { growth * (1.0 + percent / 100.0) }

  /** The index that growth reaches from a base. */
  function Reached(base: real, growth: real): real { growth * base }

  /** The product of (1 + r / 100) over the reported years. */
  function Growth(rows: seq<Row>): real {
    if rows == [] then 1.0 else Compound(Growth(rows[..|rows| - 1]), rows[|rows| - 1].returnPercent)
  }

  function BenchmarkGrowth(rows: seq<Row>): real
    requires forall i :: 0 <= i < |rows| ==> rows[i].benchmarkReturnPercent.Some?
  {
    if rows == [] then 1.0
    else Compound(BenchmarkGrowth(rows[..|rows| - 1]), rows[|rows| - 1].benchmarkReturnPercent.value)
  }

  lemma GrowthExtends(rows: seq<Row>, row: Row)
    ensures Growth(rows + [row]) == Compound(Growth(rows), row.returnPercent)
  {
    hide Compound;
    assert (rows + [row])[..|rows|] == rows;
  }

  lemma BenchmarkGrowthExtends(rows: seq<Row>, row: Row)
    requires row.benchmarkReturnPercent.Some?
    requires forall i :: 0 <= i < |rows| ==> rows[i].benchmarkReturnPercent.Some?
    ensures BenchmarkGrowth(rows + [row]) == Compound(BenchmarkGrowth(rows), row.benchmarkReturnPercent.value)
  {
    hide Compound;
    assert (rows + [row])[..|rows|] == rows;
  }

  lemma Chain(x: real, y: real, percent: real)
    requires x > 0.0 && percent == (y / x - 1.0) * 100.0
    ensures Compound(x, percent) == y
  {
    var q := y / x;
    assert q * x == y;
    assert 1.0 + percent / 100.0 == q;
  }

  lemma ChainFrom(base: real, growth: real, x: real, y: real, percent: real)
    requires x > 0.0 && percent == (y / x - 1.0) * 100.0
    requires growth * base == x
    ensures Reached(base, Compound(growth, percent)) == y
  {
    Chain(x, y, percent);
    var step := 1.0 + percent / 100.0;
    assert growth * step * base == growth * base * step;
  }

  /** The rows measured so far, by the anchors at both ends of each year. */
  lemma {:induction false} RowsAre(
    held: Held, years: seq<Text>, k: nat, hasBenchmark: bool, base: Option<real>, period: Period)
    requires k <= |years| && Covers(held, years)
    requires base.Some? ==> base.value > 0.0
    ensures |Rows(held, years, k, hasBenchmark, base, period)| == k
    ensures forall i :: 0 <= i < k ==>
      Rows(held, years, k, hasBenchmark, base, period)[i] == RowAt(held, years, i, hasBenchmark, base, period)
  {
    hide RowAt, Covers;
    if k > 0 { RowsAre(held, years, k - 1, hasBenchmark, base, period); }
  }

  lemma RowChains(
    held: Held, years: seq<Text>, k: nat, hasBenchmark: bool, base: Option<real>, period: Period, growth: real)
    requires k < |years| && Covers(held, years)
    requires base.Some? ==> base.value > 0.0
    requires growth == IndexBefore(held, years, k)
    ensures Compound(growth, RowAt(held, years, k, hasBenchmark, base, period).returnPercent)
      == IndexBefore(held, years, k + 1)
  {
    hide UsableIndex, IsPartial;
    Chain(growth, IndexBefore(held, years, k + 1), RowAt(held, years, k, hasBenchmark, base, period).returnPercent);
  }

  lemma BenchmarkRowChains(
    held: Held, years: seq<Text>, k: nat, base: Option<real>, period: Period, growth: real)
    requires k < |years| && Covers(held, years)
    requires base.Some? && base.value > 0.0
    requires AnchorBefore(held, years, k, true, base).Some? && Anchor(held, years[k], true).Some?
    requires Reached(base.value, growth) == AnchorBefore(held, years, k, true, base).value
    ensures RowAt(held, years, k, true, base, period).benchmarkReturnPercent.Some?
    ensures Reached(base.value, Compound(growth, RowAt(held, years, k, true, base, period).benchmarkReturnPercent.value))
      == AnchorBefore(held, years, k + 1, true, base).value
  {
    hide UsableIndex, IsPartial;
    ChainFrom(base.value, growth, AnchorBefore(held, years, k, true, base).value,
              Anchor(held, years[k], true).value, RowAt(held, years, k, true, base, period).benchmarkReturnPercent.value);
  }

  /** Chaining the reported years reproduces the return index of the last one. */
  lemma {:induction false} YearsChain(
    held: Held, years: seq<Text>, k: nat, hasBenchmark: bool, base: Option<real>, period: Period)
    requires k <= |years| && Covers(held, years)
    requires base.Some? ==> base.value > 0.0
    ensures Growth(Rows(held, years, k, hasBenchmark, base, period)) == IndexBefore(held, years, k)
  {
    hide Compound;
    if k > 0 {
      hide Growth, IndexBefore, RowAt, Covers;
      YearsChain(held, years, k - 1, hasBenchmark, base, period);
      var before := Rows(held, years, k - 1, hasBenchmark, base, period);
      RowChains(held, years, k - 1, hasBenchmark, base, period, Growth(before));
      GrowthExtends(before, RowAt(held, years, k - 1, hasBenchmark, base, period));
    }
  }

  /** With every benchmark anchor readable, the benchmark's figures chain from the base to its last reading. */
  lemma {:induction false} BenchmarkChains(held: Held, years: seq<Text>, k: nat, base: Option<real>, period: Period)
    requires k <= |years| && Covers(held, years)
    requires base.Some? && base.value > 0.0
    requires forall i :: 0 <= i < k ==> Anchor(held, years[i], true).Some?
    ensures var rows := Rows(held, years, k, true, base, period);
      && (forall i :: 0 <= i < |rows| ==> rows[i].benchmarkReturnPercent.Some?)
      && AnchorBefore(held, years, k, true, base).Some?
      && Reached(base.value, BenchmarkGrowth(rows)) == AnchorBefore(held, years, k, true, base).value
  {
    hide Compound, UsableIndex;
    if k > 0 {
      hide Reached;
      assert AnchorBefore(held, years, k, true, base) == Anchor(held, years[k - 1], true);
      hide BenchmarkGrowth, AnchorBefore, Anchor, RowAt, Covers;
      BenchmarkChains(held, years, k - 1, base, period);
      var before := Rows(held, years, k - 1, true, base, period);
      BenchmarkRowChains(held, years, k - 1, base, period, BenchmarkGrowth(before));
      BenchmarkGrowthExtends(before, RowAt(held, years, k - 1, true, base, period));
    }
  }

  /** The product over all reported years is the last usable return index, whatever the benchmark. */
  lemma ReturnsChain(points: seq<Point>, period: Period, benchmark: Option<Option<Reading>>)
    ensures var held, years := LastOfYear(points), Years(points);
      Covers(held, years)
      && Growth(Returns(points, period, benchmark)) == IndexBefore(held, years, |years|)
  {
    hide LastOfYear, Years;
    YearsAreKeys(points);
    YearsChain(LastOfYear(points), Years(points), |Years(points)|, benchmark.Some?, BaseOf(benchmark), period);
  }

  /** A reading that is there, finite and positive. */
  predicate IsPositive(x: Option<Reading>) {
    match x
    case None => false
    case Some(NotFinite) => false
    case Some(Finite(value)) => 0.0 < value
  }

  /** A year's benchmark figure is missing exactly when one of its two anchors is. */
  lemma BenchmarkMissing(points: seq<Point>, period: Period, benchmark: Option<Option<Reading>>, k: nat)
    requires k < |Years(points)|
    ensures Covers(LastOfYear(points), Years(points))
      && var held, years, rows := LastOfYear(points), Years(points), Returns(points, period, benchmark);
      && |rows| == |years| && rows[k].year == years[k]
      && (rows[k].benchmarkReturnPercent.None? <==>
          benchmark.None?
          || !IsPositive(held[years[k]].benchmarkIndex)
          || !IsPositive(if k == 0 then benchmark.value else held[years[k - 1]].benchmarkIndex))
  {
    hide LastOfYear, Years, IsPartial;
    YearsAreKeys(points);
    RowsAre(LastOfYear(points), Years(points), |Years(points)|, benchmark.Some?, BaseOf(benchmark), period);
  }

  ghost predicate AllPositive(held: Held) { forall year :: year in held ==> IsPositive(held[year].benchmarkIndex) }

  /** The benchmark's reading at the end of the last year, or its base when no year is reported. */
  ghost function LastReading(held: Held, years: seq<Text>, base: real): real
    requires Covers(held, years) && AllPositive(held)
  {
    if years == [] then base
    else
      assert years[|years| - 1] in years;
      held[years[|years| - 1]].benchmarkIndex.value.value
  }

  lemma PositiveAnchors(held: Held, years: seq<Text>, base: Option<Reading>)
    requires Covers(held, years) && AllPositive(held) && IsPositive(base)
    ensures UsableIndex(base) == Some(base.value.value)
    ensures forall i :: 0 <= i < |years| ==> Anchor(held, years[i], true).Some?
    ensures AnchorBefore(held, years, |years|, true, UsableIndex(base)) == Some(LastReading(held, years, base.value.value))
  {
    assert forall i :: 0 <= i < |years| ==> years[i] in years;
  }

  /** When the base and every year's last reading are finite and positive, the benchmark's figures multiply from the
  base to the last reading. */
  lemma BenchmarkReturnsChain(points: seq<Point>, period: Period, benchmark: Option<Option<Reading>>)
    requires benchmark.Some? && IsPositive(benchmark.value) && AllPositive(LastOfYear(points))
    ensures Covers(LastOfYear(points), Years(points))
    ensures var rows, base := Returns(points, period, benchmark), benchmark.value.value.value;
      && (forall i :: 0 <= i < |rows| ==> rows[i].benchmarkReturnPercent.Some?)
      && BenchmarkGrowth(rows) * base == LastReading(LastOfYear(points), Years(points), base)
  {
    YearsAreKeys(points);
    hide LastOfYear, Years, BenchmarkGrowth, Rows, AllPositive, IsPositive, UsableIndex, LastReading, AnchorBefore, Anchor;
    PositiveAnchors(LastOfYear(points), Years(points), benchmark.value);
    BenchmarkChains(LastOfYear(points), Years(points), |Years(points)|, BaseOf(benchmark), period);
  }

  // ---- Partial years --------------------------------------------------------------------------

  function DayText(m: Calendar.Month, d: int): Text
    requires 1 <= d <= 31
  {
    DecimalText.Digits(m + 1, 2) + ([DateTexts.HYPHEN] + DecimalText.Digits(d, 2))
  }

  lemma DayTexts(m: Calendar.Month, d: int)
    requires 1 <= d <= 31
    ensures Less(Ascii("01-01"), DayText(m, d)) <==> !(m == 0 && d == 1)
    ensures Less(DayText(m, d), Ascii("12-31")) <==> !(m == 11 && d == 31)
  {
    hide AtMost, DayText, Ascii;
    FirstAndLast();
    DayOrder(0, 1, m, d);
    DayOrder(m, d, 11, 31);
  }

  lemma FirstAndLast()
    ensures Ascii("01-01") == DayText(0, 1) && Ascii("12-31") == DayText(11, 31)
  {
    hide DecimalText.Digits;
    TwoDigits(1);
    TwoDigits(12);
    TwoDigits(31);
  }

  lemma TwoDigits(n: nat)
    requires n < 100
    ensures DecimalText.Digits(n, 2) == [48 + n / 10, 48 + n % 10]
  {
    assert DecimalText.Digits(n / 10, 1) == [] + [48 + n / 10 % 10];
  }

  /** The text of a day of the year orders as the day, and determines it. */
  lemma DayOrder(m: Calendar.Month, d: int, m': Calendar.Month, d': int)
    requires 1 <= d <= 31 && 1 <= d' <= 31
    ensures var s, t := DayText(m, d), DayText(m', d');
      && (AtMost(s, t) <==> m < m' || (m == m' && d <= d'))
      && (s == t <==> m == m' && d == d')
  {
    hide AtMost, DecimalText.Digits;
    DateTexts.Tens();
    var h: Text := [DateTexts.HYPHEN];
    var a, b := DecimalText.Digits(d, 2), DecimalText.Digits(d', 2);
    var x, y := DecimalText.Digits(m + 1, 2), DecimalText.Digits(m' + 1, 2);
    DateTexts.DigitsOrder(m + 1, m' + 1, 2);
    DateTexts.DigitsOrder(d, d', 2);
    DateTexts.AtMostOfConcat(x, y, h + a, h + b);
    DateTexts.AtMostOfConcat(h, h, a, b);
    if x + (h + a) == y + (h + b) {
      assert x == (x + (h + a))[..2] && y == (y + (h + b))[..2];
      assert a == (x + (h + a))[3..] && b == (y + (h + b))[3..];
    }
  }

  /** A four-digit date text is its year, a hyphen and its day of the year. */
  lemma DateParts(y: int, m: Calendar.Month, d: int)
    requires 0 <= y <= 9999 && 1 <= d <= 31
    ensures YearOf(DateTexts.Iso10(y, m, d)) == DecimalText.Digits(y, 4)
    ensures DayOfYear(DateTexts.Iso10(y, m, d)) == DayText(m, d)
  {
    hide DecimalText.Digits;
  }

  /**
   * For a period from one calendar date to another, the partial years are the first one, unless the period starts on
   * the first of January, and the last one, unless it ends on the thirty-first of December.
   */
  lemma PartialYears(points: seq<Point>, y: int, m: Calendar.Month, d: int, y': int, m': Calendar.Month, d': int,
                     benchmark: Option<Option<Reading>>, k: nat)
    requires 0 <= y <= 9999 && 0 <= y' <= 9999 && Calendar.IsDate(y, m, d) && Calendar.IsDate(y', m', d')
    requires k < |Years(points)|
    ensures var rows := Returns(points, Period(DateTexts.Iso10(y, m, d), DateTexts.Iso10(y', m', d')), benchmark);
      && |rows| == |Years(points)| && rows[k].year == Years(points)[k]
      && (rows[k].partial <==>
          || (rows[k].year == DecimalText.Digits(y, 4) && !(m == 0 && d == 1))
          || (rows[k].year == DecimalText.Digits(y', 4) && !(m' == 11 && d' == 31)))
  {
    hide LastOfYear, Years, UsableIndex, IsPartial;
    var period := Period(DateTexts.Iso10(y, m, d), DateTexts.Iso10(y', m', d'));
    YearsAreKeys(points);
    RowsAre(LastOfYear(points), Years(points), |Years(points)|, benchmark.Some?, BaseOf(benchmark), period);
    PartialIs(Years(points)[k], y, m, d, y', m', d');
  }

  lemma PartialIs(year: Text, y: int, m: Calendar.Month, d: int, y': int, m': Calendar.Month, d': int)
    requires 0 <= y <= 9999 && 0 <= y' <= 9999 && Calendar.IsDate(y, m, d) && Calendar.IsDate(y', m', d')
    ensures IsPartial(year, Period(DateTexts.Iso10(y, m, d), DateTexts.Iso10(y', m', d'))) <==>
      (year == DecimalText.Digits(y, 4) && !(m == 0 && d == 1))
      || (year == DecimalText.Digits(y', 4) && !(m' == 11 && d' == 31))
  {
    hide DateTexts.Iso10, DecimalText.Digits, DayText, Ascii, Less;
    DateParts(y, m, d);
    DateParts(y', m', d');
    DayTexts(m, d);
    DayTexts(m', d');
  }

  // ---- What the order of the points is worth --------------------------------------------------

  /** A usable point that no usable point of its year is dated after. */
  ghost predicate Latest(points: seq<Point>, p: Point) {
    && p in points && IsPositive(Some(p.returnIndex))
    && forall r :: r in points && IsPositive(Some(r.returnIndex)) && YearOf(r.date) == YearOf(p.date) ==> AtMost(r.date, p.date)
  }

  /** No year ends on two different readings of one date. */
  ghost predicate LatestUnique(points: seq<Point>) {
    forall p, q :: Latest(points, p) && Latest(points, q) && p.date == q.date ==> p == q
  }

  /** The point held for a year is a finite positive reading of that year, and none is dated later. */
  lemma {:induction false} HeldIsLast(points: seq<Point>, p: Point)
    requires p in points && IsPositive(Some(p.returnIndex))
    ensures YearOf(p.date) in LastOfYear(points)
    ensures var held := LastOfYear(points)[YearOf(p.date)];
      held in points && IsPositive(Some(held.returnIndex)) && AtMost(p.date, held.date)
  {
    hide AtMost, YearOf;
    var rest, last := points[..|points| - 1], points[|points| - 1];
    assert points == rest + [last];
    var held := LastOfYear(rest);
    if p in rest { HeldIsLast(rest, p); }
    HeldComesFrom(rest);
    AtMostReflexive(p.date);
    var year := YearOf(p.date);
    if year in held && Reads(last) && YearOf(last.date) == year {
      AtMostTotal(held[year].date, last.date);
      if p in rest && AtMost(held[year].date, last.date) {
        AtMostTransitive(p.date, held[year].date, last.date);
      }
    }
  }

  lemma {:induction false} HeldComesFrom(points: seq<Point>)
    ensures forall year :: year in LastOfYear(points) ==> LastOfYear(points)[year] in points
  {
    hide AtMost, YearOf;
    if points != [] {
      HeldComesFrom(points[..|points| - 1]);
      assert points == points[..|points| - 1] + [points[|points| - 1]];
    }
  }

  /** `fewer` keeps, for every usable point, one of its year that is dated no earlier. */
  ghost predicate KeepsLast(points: seq<Point>, fewer: seq<Point>) {
    && (forall p :: p in fewer ==> p in points)
    && (forall p :: p in points && Reads(p) ==>
      exists q :: q in fewer && Reads(q) && YearOf(q.date) == YearOf(p.date) && AtMost(p.date, q.date))
  }

  lemma KeptFor(points: seq<Point>, fewer: seq<Point>, p: Point) returns (q: Point)
    requires KeepsLast(points, fewer) && p in points && Reads(p)
    ensures q in fewer && Reads(q) && YearOf(q.date) == YearOf(p.date) && AtMost(p.date, q.date)
  {
    hide AtMost, YearOf;
    q :| q in fewer && Reads(q) && YearOf(q.date) == YearOf(p.date) && AtMost(p.date, q.date);
  }

  lemma HeldIsLatest(points: seq<Point>, year: Text)
    requires year in LastOfYear(points)
    ensures Latest(points, LastOfYear(points)[year])
  {
    hide AtMost, YearOf, LastOfYear;
    HeldComesFrom(points);
    var p := LastOfYear(points)[year];
    forall r | r in points && Reads(r) && YearOf(r.date) == YearOf(p.date) ensures AtMost(r.date, p.date) {
      HeldIsLast(points, r);
    }
  }

  /** The years reported ascend strictly. */
  lemma YearsAscend(points: seq<Point>)
    ensures forall i, j :: 0 <= i < j < |Years(points)| ==> Less(Years(points)[i], Years(points)[j])
  {
    hide AtMost, LastOfYear, Keys;
    KeysOfHeld(points);
    TextOrderIsOrder();
    SortSorted(Keys(points), TextOrder());
    PermutationDistinct(Keys(points), Years(points));
    forall i, j | 0 <= i < j < |Years(points)| ensures Less(Years(points)[i], Years(points)[j]) {
      assert TextOrder()(Years(points)[i], Years(points)[j]);
    }
  }

  /**
   * There is a row for each year that has a finite positive reading and for no other, in ascending order; it names
   * the date of a latest reading of its year.
   */
  lemma RowsCoverYears(points: seq<Point>, period: Period, benchmark: Option<Option<Reading>>)
    ensures var rows := Returns(points, period, benchmark);
      && (forall i, j :: 0 <= i < j < |rows| ==> Less(rows[i].year, rows[j].year))
      && (forall p :: p in points && IsPositive(Some(p.returnIndex)) ==>
        exists k :: 0 <= k < |rows| && rows[k].year == YearOf(p.date))
      && (forall k :: 0 <= k < |rows| ==>
        exists p :: Latest(points, p) && YearOf(p.date) == rows[k].year && p.date == rows[k].simulatedThrough)
  {
    var held, years, rows := LastOfYear(points), Years(points), Returns(points, period, benchmark);
    hide LastOfYear, Years, UsableIndex, IsPartial, AtMost, YearOf, Latest, Less;
    YearsAreKeys(points);
    YearsAscend(points);
    RowsAre(held, years, |years|, benchmark.Some?, BaseOf(benchmark), period);
    forall p | p in points && IsPositive(Some(p.returnIndex)) ensures exists k :: 0 <= k < |rows| && rows[k].year == YearOf(p.date) {
      HeldIsLast(points, p);
      var k :| 0 <= k < |years| && years[k] == YearOf(p.date);
      assert rows[k].year == years[k];
    }
    forall k | 0 <= k < |rows|
      ensures exists p :: Latest(points, p) && YearOf(p.date) == rows[k].year && p.date == rows[k].simulatedThrough
    {
      assert years[k] in years;
      HeldIsLatest(points, years[k]);
    }
  }

  /** A usable point dated as late as the held one of its year is latest too. */
  lemma DatedAsLate(points: seq<Point>, p: Point, r: Point)
    requires Latest(points, p) && r in points && Reads(r) && YearOf(r.date) == YearOf(p.date) && AtMost(p.date, r.date)
    ensures Latest(points, r) && r.date == p.date
  {
    hide YearOf;
    AtMostAntisymmetric(p.date, r.date);
  }

  lemma SameLatest(points: seq<Point>, p: Point, q: Point)
    requires LatestUnique(points) && Latest(points, p) && Latest(points, q) && p.date == q.date
    ensures p == q
  {
    hide Latest;
  }

  lemma KeptIsGiven(points: seq<Point>, fewer: seq<Point>, p: Point)
    requires KeepsLast(points, fewer) && p in fewer
    ensures p in points
  {
    hide AtMost, YearOf;
  }

  lemma SameHeldAt(points: seq<Point>, fewer: seq<Point>, year: Text)
    requires LatestUnique(points) && KeepsLast(points, fewer) && year in LastOfYear(points)
    ensures year in LastOfYear(fewer) && LastOfYear(fewer)[year] == LastOfYear(points)[year]
  {
    hide AtMost, YearOf, LastOfYear, KeepsLast, Latest, LatestUnique;
    var p := LastOfYear(points)[year];
    HeldIsLatest(points, year);
    assert p in points && Reads(p) by { HeldComesFrom(points); }
    var q := KeptFor(points, fewer, p);
    HeldIsLast(fewer, q);
    var r := LastOfYear(fewer)[year];
    KeptIsGiven(points, fewer, r);
    AtMostTransitive(p.date, q.date, r.date);
    DatedAsLate(points, p, r);
    SameLatest(points, p, r);
  }

  lemma SameHeld(points: seq<Point>, fewer: seq<Point>)
    requires LatestUnique(points) && KeepsLast(points, fewer)
    ensures LastOfYear(fewer) == LastOfYear(points)
  {
    hide AtMost, YearOf, LastOfYear, LatestUnique;
    HeldComesFrom(fewer);
    forall year | year in LastOfYear(points)
      ensures year in LastOfYear(fewer) && LastOfYear(fewer)[year] == LastOfYear(points)[year]
    {
      SameHeldAt(points, fewer, year);
    }
    forall year | year in LastOfYear(fewer) ensures year in LastOfYear(points) {
      HeldIsLast(points, LastOfYear(fewer)[year]);
    }
  }

  /** Only the last usable point of each year is read, so daily equity and yearly milestones agree. */
  lemma OnlyLastPointsMatter(
    points: seq<Point>, fewer: seq<Point>, period: Period, benchmark: Option<Option<Reading>>)
    requires LatestUnique(points) && KeepsLast(points, fewer)
    ensures Returns(fewer, period, benchmark) == Returns(points, period, benchmark)
  {
    SameHeld(points, fewer);
    KeysOfHeld(points);
    KeysOfHeld(fewer);
    SameElements(Keys(points), Keys(fewer));
    TextOrderIsOrder();
    SortOfPermutation(Keys(points), Keys(fewer), TextOrder());
  }

  lemma YearsFollowDates(a: Text, b: Text)
    requires AtMost(a, b)
    ensures AtMost(YearOf(a), YearOf(b))
  {
    Truncated(a, b, 4);
  }

  lemma {:induction false} Truncated(a: Text, b: Text, n: nat)
    requires AtMost(a, b)
    ensures AtMost(if |a| < n then a else a[..n], if |b| < n then b else b[..n])
  {
    if n > 0 && a != [] && a[0] == b[0] {
      Truncated(a[1..], b[1..], n - 1);
      var x, y := if |a| < n then a else a[..n], if |b| < n then b else b[..n];
      assert x[1..] == if |a[1..]| < n - 1 then a[1..] else a[1..][..n - 1];
      assert y[1..] == if |b[1..]| < n - 1 then b[1..] else b[1..][..n - 1];
    }
  }

  /** The reported years compound to the return index of the latest usable point. */
  lemma ReturnsReachLatest(points: seq<Point>, latest: Point, period: Period, benchmark: Option<Option<Reading>>)
    requires LatestUnique(points) && latest in points && IsPositive(Some(latest.returnIndex))
    requires forall p :: p in points && IsPositive(Some(p.returnIndex)) ==> AtMost(p.date, latest.date)
    ensures Growth(Returns(points, period, benchmark)) == latest.returnIndex.value
  {
    hide AtMost, YearOf, LastOfYear, Growth, Rows, Keys, Latest;
    ReturnsChain(points, period, benchmark);
    var held, years := LastOfYear(points), Years(points);
    YearsAreKeys(points);
    HeldComesFrom(points);
    HeldIsLast(points, latest);
    LastYearIs(points, YearOf(latest.date), latest.date);
    HeldIsLatest(points, YearOf(latest.date));
    DatedAsLate(points, held[YearOf(latest.date)], latest);
  }

  /** The last reported year is the year of the latest date. */
  lemma LastYearIs(points: seq<Point>, year: Text, latest: Text)
    requires year in LastOfYear(points) && YearOf(latest) == year
    requires forall y :: y in LastOfYear(points) ==> AtMost(LastOfYear(points)[y].date, latest)
    ensures Years(points) != [] && Years(points)[|Years(points)| - 1] == year
  {
    hide AtMost, YearOf, LastOfYear, Keys, Sort;
    YearsAreKeys(points);
    var years := Years(points);
    var i :| 0 <= i < |years| && years[i] == year;
    var last := years[|years| - 1];
    TextOrderIsOrder();
    SortSorted(Keys(points), TextOrder());
    AtMostReflexive(last);
    assert AtMost(year, last) by { assert i < |years| - 1 ==> TextOrder()(years[i], last); }
    YearsFollowDates(LastOfYear(points)[last].date, latest);
    AtMostAntisymmetric(year, last);
  }
}
