/** When the order of the points decides the annual returns of `packages/contracts/src/backtests.ts`, exactly. */
module ReturnsOrder {
  import opened JsText
  import opened Wrappers
  import opened Collections
  import opened Sorting
  import opened TextSorting
  import opened AnnualReturns

  // ---- Choosing which of several latest readings is held --------------------------------------

  lemma Removed(points: seq<Point>, p: Point) returns (rest: seq<Point>)
    requires p in points
    ensures multiset(points) == multiset(rest) + multiset{p}
  {
    var i :| 0 <= i < |points| && points[i] == p;
    rest := points[..i] + points[i + 1..];
    assert points == points[..i] + [p] + points[i + 1..];
  }

  lemma SameMembers(points: seq<Point>, other: seq<Point>)
    requires multiset(points) == multiset(other)
    ensures forall p :: p in points <==> p in other
  {
    forall p ensures p in points <==> p in other {
      assert p in points <==> p in multiset(points);
      assert p in other <==> p in multiset(other);
    }
  }

  lemma LatestOfPermutation(points: seq<Point>, other: seq<Point>, p: Point)
    requires multiset(points) == multiset(other) && Latest(points, p)
    ensures Latest(other, p)
  {
    SameMembers(points, other);
    hide AtMost, YearOf;
  }

  /** A latest point that comes last in the list is the one held. */
  lemma LastIsHeld(points: seq<Point>, rest: seq<Point>, p: Point)
    requires Latest(points, p) && forall r :: r in rest ==> r in points
    ensures LastOfYear(rest + [p]) == LastOfYear(rest)[YearOf(p.date) := p]
  {
    HeldComesFrom(rest);
    hide AtMost, YearOf;
    assert (rest + [p])[..|rest|] == rest;
  }

  /** Some order of the points holds `p` for its year. */
  lemma OrderHolding(points: seq<Point>, p: Point) returns (other: seq<Point>)
    requires Latest(points, p)
    ensures multiset(other) == multiset(points)
    ensures YearOf(p.date) in LastOfYear(other) && LastOfYear(other)[YearOf(p.date)] == p
  {
    hide AtMost, YearOf, LastOfYear;
    var rest := Removed(points, p);
    other := rest + [p];
    forall r | r in rest ensures r in points { assert r in multiset(rest); assert r in multiset(points); }
    LastIsHeld(points, rest, p);
  }

  /** Some order of the points holds `p` and `q`, of two different years. */
  lemma OrderHoldingBoth(points: seq<Point>, p: Point, q: Point) returns (other: seq<Point>)
    requires Latest(points, p) && Latest(points, q) && YearOf(p.date) != YearOf(q.date)
    ensures multiset(other) == multiset(points)
    ensures YearOf(p.date) in LastOfYear(other) && LastOfYear(other)[YearOf(p.date)] == p
    ensures YearOf(q.date) in LastOfYear(other) && LastOfYear(other)[YearOf(q.date)] == q
  {
    hide AtMost, YearOf, LastOfYear;
    var some := Removed(points, p);
    assert q in multiset(some) by { assert q in multiset(points); }
    var rest := Removed(some, q);
    other := rest + [q] + [p];
    forall r | r in some ensures r in points { assert r in multiset(some); assert r in multiset(points); }
    forall r | r in rest ensures r in some { assert r in multiset(rest); assert r in multiset(some); }
    LastIsHeld(points, rest, q);
    LastIsHeld(points, rest + [q], p);
  }

  // ---- Which points are held ------------------------------------------------------------------

  lemma PermutationHasYear(points: seq<Point>, other: seq<Point>, year: Text)
    requires multiset(points) == multiset(other) && year in LastOfYear(points)
    ensures year in LastOfYear(other) && Latest(points, LastOfYear(other)[year])
    ensures LastOfYear(other)[year].date == LastOfYear(points)[year].date
  {
    hide AtMost, LastOfYear, Latest;
    var p := LastOfYear(points)[year];
    HeldComesFrom(points);
    HeldIsLatest(points, year);
    SameMembers(points, other);
    HeldIsLast(other, p);
    HeldIsLatest(other, year);
    LatestOfPermutation(other, points, LastOfYear(other)[year]);
    HeldComesFrom(other);
    DatedAsLate(points, p, LastOfYear(other)[year]);
  }

  /** Of a year's latest readings, the one listed last is held. */
  lemma {:induction false} LastListedIsHeld(points: seq<Point>, i: nat)
    requires i < |points| && Latest(points, points[i])
    requires forall j :: i < j < |points| && Reads(points[j]) ==> points[j].date != points[i].date
    ensures YearOf(points[i].date) in LastOfYear(points) && LastOfYear(points)[YearOf(points[i].date)] == points[i]
    decreases |points|
  {
    var p, rest, last := points[i], points[..|points| - 1], points[|points| - 1];
    assert points == rest + [last];
    if i == |rest| {
      LastIsHeld(points, rest, p);
    } else {
      assert rest[i] == p;
      hide AtMost, YearOf;
      LastListedIsHeld(rest, i);
      if Reads(last) && YearOf(last.date) == YearOf(p.date) && AtMost(p.date, last.date) { AtMostAntisymmetric(p.date, last.date); }
    }
  }

  /** Every order of the points holds the same ones. */
  ghost predicate HeldInAnyOrder(points: seq<Point>) {
    forall other :: multiset(other) == multiset(points) ==> LastOfYear(other) == LastOfYear(points)
  }

  /** Every order holds the same points exactly when no year ends on two different readings of one date. */
  lemma HeldForgetsOrder(points: seq<Point>)
    ensures HeldInAnyOrder(points) <==> LatestUnique(points)
  {
    if HeldInAnyOrder(points) { OrderShowsLatest(points); }
    if LatestUnique(points) {
      hide LastOfYear, LatestUnique;
      forall other | multiset(other) == multiset(points) ensures LastOfYear(other) == LastOfYear(points) {
        UniqueHeld(points, other);
      }
    }
  }

  lemma OrderShowsLatest(points: seq<Point>)
    requires HeldInAnyOrder(points)
    ensures LatestUnique(points)
  {
    hide AtMost, YearOf, LastOfYear, Latest;
    forall p, q | Latest(points, p) && Latest(points, q) && p.date == q.date ensures p == q {
      var one := OrderHolding(points, p);
      var two := OrderHolding(points, q);
      assert LastOfYear(one) == LastOfYear(points) == LastOfYear(two);
    }
  }

  lemma UniqueHeld(points: seq<Point>, other: seq<Point>)
    requires multiset(other) == multiset(points) && LatestUnique(points)
    ensures LastOfYear(other) == LastOfYear(points)
  {
    hide LatestUnique, AtMost, YearOf, LastOfYear, Latest;
    forall year | year in LastOfYear(points)
      ensures year in LastOfYear(other) && LastOfYear(other)[year] == LastOfYear(points)[year]
    {
      PermutationHasYear(points, other, year);
      HeldIsLatest(points, year);
      SameLatest(points, LastOfYear(points)[year], LastOfYear(other)[year]);
    }
    forall year | year in LastOfYear(other) ensures year in LastOfYear(points) { PermutationHasYear(other, points, year); }
    var a: map<Text, Point>, b: map<Text, Point> := LastOfYear(other), LastOfYear(points);
    assert a == b;
  }

  lemma PermutationYears(points: seq<Point>, other: seq<Point>)
    requires multiset(points) == multiset(other)
    ensures Years(other) == Years(points)
  {
    hide LastOfYear, AtMost;
    KeysOfHeld(points);
    KeysOfHeld(other);
    forall year ensures year in Keys(points) <==> year in Keys(other) {
      if year in LastOfYear(points) { PermutationHasYear(points, other, year); }
      if year in LastOfYear(other) { PermutationHasYear(other, points, year); }
    }
    SameElements(Keys(points), Keys(other));
    TextOrderIsOrder();
    SortOfPermutation(Keys(points), Keys(other), TextOrder());
  }

  // ---- Which rows are reported ----------------------------------------------------------------

  /** Latest readings of one date have the same return index. */
  ghost predicate IndicesAgree(points: seq<Point>) {
    forall p, q :: Latest(points, p) && Latest(points, q) && p.date == q.date ==> p.returnIndex == q.returnIndex
  }

  /** All latest readings of a year give the same benchmark anchor. */
  ghost predicate AnchorsAgree(points: seq<Point>, year: Text) {
    forall p, q :: Latest(points, p) && Latest(points, q) && YearOf(p.date) == YearOf(q.date) == year ==>
      UsableIndex(p.benchmarkIndex) == UsableIndex(q.benchmarkIndex)
  }

  /** No latest reading of a year gives a benchmark anchor. */
  ghost predicate AnchorsMissing(points: seq<Point>, year: Text) {
    forall p :: Latest(points, p) && YearOf(p.date) == year ==> UsableIndex(p.benchmarkIndex).None?
  }

  /** The benchmark figure of a year is fixed: missing at one end whatever is held, or with both ends settled. */
  ghost predicate FigureFixed(points: seq<Point>, base: Option<real>, k: nat)
    requires k < |Years(points)|
  {
    || AnchorsMissing(points, Years(points)[k])
    || (if k == 0 then base.None? else AnchorsMissing(points, Years(points)[k - 1]))
    || (AnchorsAgree(points, Years(points)[k]) && (k == 0 || AnchorsAgree(points, Years(points)[k - 1])))
  }

  function Figure(anchor: Option<real>, previous: Option<real>): Option<real>
    requires previous.Some? ==> previous.value > 0.0
  {
    if anchor.None? || previous.None? then None else Some((anchor.value / previous.value - 1.0) * 100.0)
  }

  lemma QuotientDetermines(a: real, b: real, c: real, d: real)
    requires b > 0.0 && d > 0.0 && (a / b - 1.0) * 100.0 == (c / d - 1.0) * 100.0
    ensures a * d == c * b
  {
    var q, r := a / b, c / d;
    assert q == r && a == q * b && c == r * d;
    assert a * d == q * b * d == c * b;
  }

  /** Changing one end of a figure changes it. */
  lemma FigureShows(a: real, b: real, c: real)
    requires a > 0.0 && b > 0.0 && c > 0.0
    ensures Figure(Some(a), Some(b)) == Figure(Some(c), Some(b)) ==> a == c
    ensures Figure(Some(a), Some(b)) == Figure(Some(a), Some(c)) ==> b == c
  {
    if Figure(Some(a), Some(b)) == Figure(Some(c), Some(b)) {
      QuotientDetermines(a, b, c, b);
      Cancels(a, c, b);
    }
    if Figure(Some(a), Some(b)) == Figure(Some(a), Some(c)) {
      QuotientDetermines(a, b, a, c);
      Cancels(c, b, a);
    }
  }

  lemma Cancels(x: real, y: real, z: real)
    requires z > 0.0 && x * z == y * z
    ensures x == y
  {
    assert x == x * z / z && y == y * z / z;
  }

  /** Row `k` by its fields. */
  lemma RowFields(points: seq<Point>, period: Period, benchmark: Option<Option<Reading>>, k: nat)
    requires k < |Years(points)|
    ensures Covers(LastOfYear(points), Years(points))
    ensures |Returns(points, period, benchmark)| == |Years(points)|
    ensures var held, years, row := LastOfYear(points), Years(points), Returns(points, period, benchmark)[k];
      && row.year == years[k] && row.simulatedThrough == held[years[k]].date
      && row.returnPercent == (held[years[k]].returnIndex.value / IndexBefore(held, years, k) - 1.0) * 100.0
      && row.benchmarkReturnPercent == Figure(
        Anchor(held, years[k], benchmark.Some?), AnchorBefore(held, years, k, benchmark.Some?, BaseOf(benchmark)))
      && row.partial == IsPartial(years[k], period)
  {
    hide LastOfYear, Years, UsableIndex, IsPartial;
    YearsAreKeys(points);
    RowsAre(LastOfYear(points), Years(points), |Years(points)|, benchmark.Some?, BaseOf(benchmark), period);
  }

  lemma {:induction false} RowsPrefix(
    held: Held, years: seq<Text>, k: nat, n: nat, hasBenchmark: bool, base: Option<real>, period: Period)
    requires k <= n <= |years| && Covers(held, years)
    requires base.Some? ==> base.value > 0.0
    ensures |Rows(held, years, n, hasBenchmark, base, period)| == n
    ensures Rows(held, years, n, hasBenchmark, base, period)[..k] == Rows(held, years, k, hasBenchmark, base, period)
  {
    hide RowAt, Covers;
    if k < n {
      RowsPrefix(held, years, k, n - 1, hasBenchmark, base, period);
    } else {
      RowsAre(held, years, n, hasBenchmark, base, period);
    }
  }

  /** Equal rows come from equal return indices, year by year. */
  lemma RowsShowIndices(
    points: seq<Point>, other: seq<Point>, period: Period, benchmark: Option<Option<Reading>>, k: nat)
    requires Years(other) == Years(points) && k < |Years(points)|
    requires Returns(other, period, benchmark) == Returns(points, period, benchmark)
    ensures Covers(LastOfYear(points), Years(points)) && Covers(LastOfYear(other), Years(points))
    ensures LastOfYear(other)[Years(points)[k]].returnIndex == LastOfYear(points)[Years(points)[k]].returnIndex
  {
    hide LastOfYear, Years, Growth, RowAt, UsableIndex;
    YearsAreKeys(points);
    YearsAreKeys(other);
    var years, base := Years(points), BaseOf(benchmark);
    RowsPrefix(LastOfYear(points), years, k + 1, |years|, benchmark.Some?, base, period);
    RowsPrefix(LastOfYear(other), years, k + 1, |years|, benchmark.Some?, base, period);
    YearsChain(LastOfYear(points), years, k + 1, benchmark.Some?, base, period);
    YearsChain(LastOfYear(other), years, k + 1, benchmark.Some?, base, period);
  }

  /** Every order of the points gives the same rows. */
  ghost predicate RowsInAnyOrder(points: seq<Point>, period: Period, benchmark: Option<Option<Reading>>) {
    forall other :: multiset(other) == multiset(points) ==>
      Returns(other, period, benchmark) == Returns(points, period, benchmark)
  }

  ghost predicate FiguresFixed(points: seq<Point>, base: Option<real>) {
    forall k :: 0 <= k < |Years(points)| ==> FigureFixed(points, base, k)
  }

  // ---- The condition suffices -----------------------------------------------------------------

  /** What two orders hold for a year: latest readings of one date. */
  lemma HeldInEither(points: seq<Point>, other: seq<Point>, k: nat)
    requires multiset(other) == multiset(points) && k < |Years(points)|
    ensures Years(other) == Years(points)
    ensures var year := Years(points)[k];
      && year in LastOfYear(points) && year in LastOfYear(other)
      && Latest(points, LastOfYear(points)[year]) && Latest(points, LastOfYear(other)[year])
      && LastOfYear(other)[year].date == LastOfYear(points)[year].date
  {
    hide LastOfYear, Years, Latest;
    PermutationYears(points, other);
    YearsAreKeys(points);
    PermutationHasYear(points, other, Years(points)[k]);
    HeldIsLatest(points, Years(points)[k]);
  }

  lemma SameIndexHeld(points: seq<Point>, other: seq<Point>, k: nat)
    requires multiset(other) == multiset(points) && IndicesAgree(points) && k < |Years(points)|
    ensures Years(points)[k] in LastOfYear(points) && Years(points)[k] in LastOfYear(other)
    ensures LastOfYear(other)[Years(points)[k]].returnIndex == LastOfYear(points)[Years(points)[k]].returnIndex
  {
    HeldInEither(points, other, k);
    hide LastOfYear, Years, Latest;
  }

  lemma SameAnchorHeld(points: seq<Point>, other: seq<Point>, k: nat)
    requires multiset(other) == multiset(points) && k < |Years(points)|
    ensures var year := Years(points)[k];
      && year in LastOfYear(points) && year in LastOfYear(other)
      && var a, b := UsableIndex(LastOfYear(points)[year].benchmarkIndex), UsableIndex(LastOfYear(other)[year].benchmarkIndex);
      && (AnchorsAgree(points, year) ==> a == b)
      && (AnchorsMissing(points, year) ==> a.None? && b.None?)
  {
    HeldInEither(points, other, k);
    hide LastOfYear, Years, Latest, UsableIndex, YearOf;
  }

  lemma SameFigureHeld(points: seq<Point>, other: seq<Point>, benchmark: Option<Option<Reading>>, k: nat)
    requires multiset(other) == multiset(points) && k < |Years(points)|
    requires benchmark.Some? ==> FigureFixed(points, BaseOf(benchmark), k)
    ensures Years(other) == Years(points)
    ensures Covers(LastOfYear(points), Years(points)) && Covers(LastOfYear(other), Years(points))
    ensures var some, years, base := benchmark.Some?, Years(points), BaseOf(benchmark);
      Figure(Anchor(LastOfYear(other), years[k], some), AnchorBefore(LastOfYear(other), years, k, some, base))
      == Figure(Anchor(LastOfYear(points), years[k], some), AnchorBefore(LastOfYear(points), years, k, some, base))
  {
    hide LastOfYear, Years, Latest, UsableIndex, AnchorsAgree, AnchorsMissing;
    PermutationYears(points, other);
    YearsAreKeys(points);
    YearsAreKeys(other);
    SameAnchorHeld(points, other, k);
    if k > 0 { SameAnchorHeld(points, other, k - 1); }
  }

  lemma FixedRows(points: seq<Point>, other: seq<Point>, period: Period, benchmark: Option<Option<Reading>>)
    requires multiset(other) == multiset(points) && IndicesAgree(points)
    requires benchmark.Some? ==> FiguresFixed(points, BaseOf(benchmark))
    ensures Returns(other, period, benchmark) == Returns(points, period, benchmark)
  {
    PermutationYears(points, other);
    var a, b := Returns(other, period, benchmark), Returns(points, period, benchmark);
    hide Returns, Years, LastOfYear, IndicesAgree, FigureFixed, Figure, Latest;
    NoYearsNoRows(points, period, benchmark);
    NoYearsNoRows(other, period, benchmark);
    forall k | 0 <= k < |Years(points)| ensures a[k] == b[k] { FixedRow(points, other, period, benchmark, k); }
  }

  lemma NoYearsNoRows(points: seq<Point>, period: Period, benchmark: Option<Option<Reading>>)
    ensures |Returns(points, period, benchmark)| == |Years(points)|
  {
    hide LastOfYear, Years, RowAt;
    YearsAreKeys(points);
    RowsAre(LastOfYear(points), Years(points), |Years(points)|, benchmark.Some?, BaseOf(benchmark), period);
  }

  lemma FixedRow(points: seq<Point>, other: seq<Point>, period: Period, benchmark: Option<Option<Reading>>, k: nat)
    requires multiset(other) == multiset(points) && IndicesAgree(points) && k < |Years(points)|
    requires Years(other) == Years(points)
    requires benchmark.Some? ==> FigureFixed(points, BaseOf(benchmark), k)
    ensures k < |Returns(other, period, benchmark)| && k < |Returns(points, period, benchmark)|
    ensures Returns(other, period, benchmark)[k] == Returns(points, period, benchmark)[k]
  {
    hide Returns, Years, LastOfYear, IndicesAgree, FigureFixed, Figure, Latest, UsableIndex, Anchor, AnchorBefore, IsPartial;
    RowFields(points, period, benchmark, k);
    RowFields(other, period, benchmark, k);
    HeldInEither(points, other, k);
    SameIndexHeld(points, other, k);
    if k > 0 { SameIndexHeld(points, other, k - 1); }
    SameFigureHeld(points, other, benchmark, k);
  }

  // ---- The condition is needed ----------------------------------------------------------------

  lemma RowsShowReadings(points: seq<Point>, period: Period, benchmark: Option<Option<Reading>>)
    requires RowsInAnyOrder(points, period, benchmark)
    ensures IndicesAgree(points)
  {
    hide Latest, LastOfYear, Years, Returns, YearOf;
    forall p, q | Latest(points, p) && Latest(points, q) && p.date == q.date ensures p.returnIndex == q.returnIndex {
      var one := OrderHolding(points, p);
      var two := OrderHolding(points, q);
      HeldShowsIndex(points, one, period, benchmark, p);
      HeldShowsIndex(points, two, period, benchmark, q);
    }
  }

  lemma HeldShowsIndex(
    points: seq<Point>, other: seq<Point>, period: Period, benchmark: Option<Option<Reading>>, p: Point)
    requires multiset(other) == multiset(points)
    requires Returns(other, period, benchmark) == Returns(points, period, benchmark)
    requires YearOf(p.date) in LastOfYear(other) && LastOfYear(other)[YearOf(p.date)] == p
    ensures YearOf(p.date) in LastOfYear(points)
    ensures p.returnIndex == LastOfYear(points)[YearOf(p.date)].returnIndex
  {
    hide LastOfYear, Years, Returns, YearOf;
    PermutationYears(points, other);
    YearsAreKeys(points);
    YearsAreKeys(other);
    var k :| 0 <= k < |Years(points)| && Years(points)[k] == YearOf(p.date);
    RowsShowIndices(points, other, period, benchmark, k);
  }

  /** The figure that some order reports for the year of `p`, after `q` or the base. */
  lemma SomeOrderReports(
    points: seq<Point>, period: Period, benchmark: Option<Option<Reading>>, k: nat, p: Point, q: Point)
    requires RowsInAnyOrder(points, period, benchmark) && benchmark.Some? && k < |Years(points)|
    requires Latest(points, p) && YearOf(p.date) == Years(points)[k]
    requires k > 0 ==> Latest(points, q) && YearOf(q.date) == Years(points)[k - 1]
    ensures k < |Returns(points, period, benchmark)|
    ensures Returns(points, period, benchmark)[k].benchmarkReturnPercent ==
      Figure(UsableIndex(p.benchmarkIndex), if k == 0 then BaseOf(benchmark) else UsableIndex(q.benchmarkIndex))
  {
    YearsDiffer(points, k);
    hide Latest, LastOfYear, Years, Returns, YearOf, Figure, UsableIndex;
    var other: seq<Point>;
    if k == 0 { other := OrderHolding(points, p); } else { other := OrderHoldingBoth(points, p, q); }
    PermutationYears(points, other);
    RowFields(other, period, benchmark, k);
    RowFields(points, period, benchmark, k);
    assert Returns(other, period, benchmark) == Returns(points, period, benchmark);
  }

  lemma YearsDiffer(points: seq<Point>, k: nat)
    requires k < |Years(points)|
    ensures k > 0 ==> Years(points)[k] != Years(points)[k - 1]
  {
    hide AtMost;
    KeysOfHeld(points);
    PermutationDistinct(Keys(points), Years(points));
  }

  lemma RowsShowFigure(points: seq<Point>, period: Period, benchmark: Option<Option<Reading>>, k: nat)
    requires RowsInAnyOrder(points, period, benchmark) && benchmark.Some? && k < |Years(points)|
    ensures FigureFixed(points, BaseOf(benchmark), k)
  {
    hide Latest, LastOfYear, Years, Returns, YearOf, Figure, UsableIndex, RowsInAnyOrder;
    var here, base := Years(points)[k], BaseOf(benchmark);
    if !AnchorsMissing(points, here) {
      var p :| Latest(points, p) && YearOf(p.date) == here && UsableIndex(p.benchmarkIndex).Some?;
      if k == 0 {
        if base.Some? { FirstAnchorsAgree(points, period, benchmark); }
      } else if !AnchorsMissing(points, Years(points)[k - 1]) {
        var q :| Latest(points, q) && YearOf(q.date) == Years(points)[k - 1] && UsableIndex(q.benchmarkIndex).Some?;
        LaterAnchorsAgree(points, period, benchmark, k, p, q);
      }
    }
  }

  /** A figure shows both of its ends, or that one of them is missing. */
  lemma FigureEnds(a: Option<real>, b: Option<real>, c: Option<real>, d: Option<real>)
    requires a.Some? && a.value > 0.0 && b.Some? && b.value > 0.0
    requires (c.Some? ==> c.value > 0.0) && (d.Some? ==> d.value > 0.0)
    ensures Figure(a, b) == Figure(c, b) ==> c == a
    ensures Figure(a, b) == Figure(a, d) ==> d == b
  {
    if c.Some? { FigureShows(a.value, b.value, c.value); }
    if d.Some? { FigureShows(a.value, b.value, d.value); }
  }

  lemma FirstAnchorsAgree(points: seq<Point>, period: Period, benchmark: Option<Option<Reading>>)
    requires RowsInAnyOrder(points, period, benchmark) && benchmark.Some? && |Years(points)| > 0 && BaseOf(benchmark).Some?
    requires !AnchorsMissing(points, Years(points)[0])
    ensures AnchorsAgree(points, Years(points)[0])
  {
    hide Latest, LastOfYear, Years, Returns, YearOf, Figure, UsableIndex, RowsInAnyOrder;
    var year := Years(points)[0];
    var p :| Latest(points, p) && YearOf(p.date) == year && UsableIndex(p.benchmarkIndex).Some?;
    SomeOrderReports(points, period, benchmark, 0, p, p);
    forall r | Latest(points, r) && YearOf(r.date) == year ensures UsableIndex(r.benchmarkIndex) == UsableIndex(p.benchmarkIndex) {
      SomeOrderReports(points, period, benchmark, 0, r, r);
      FigureEnds(UsableIndex(p.benchmarkIndex), BaseOf(benchmark), UsableIndex(r.benchmarkIndex), None);
    }
  }

  lemma LaterAnchorsAgree(
    points: seq<Point>, period: Period, benchmark: Option<Option<Reading>>, k: nat, p: Point, q: Point)
    requires RowsInAnyOrder(points, period, benchmark) && benchmark.Some? && 0 < k < |Years(points)|
    requires Latest(points, p) && YearOf(p.date) == Years(points)[k] && UsableIndex(p.benchmarkIndex).Some?
    requires Latest(points, q) && YearOf(q.date) == Years(points)[k - 1] && UsableIndex(q.benchmarkIndex).Some?
    ensures AnchorsAgree(points, Years(points)[k]) && AnchorsAgree(points, Years(points)[k - 1])
  {
    hide Latest, LastOfYear, Years, Returns, YearOf, Figure, UsableIndex, RowsInAnyOrder;
    SomeOrderReports(points, period, benchmark, k, p, q);
    var a, b := UsableIndex(p.benchmarkIndex), UsableIndex(q.benchmarkIndex);
    forall r | Latest(points, r) && YearOf(r.date) == Years(points)[k] ensures UsableIndex(r.benchmarkIndex) == a {
      SomeOrderReports(points, period, benchmark, k, r, q);
      FigureEnds(a, b, UsableIndex(r.benchmarkIndex), None);
    }
    forall r | Latest(points, r) && YearOf(r.date) == Years(points)[k - 1] ensures UsableIndex(r.benchmarkIndex) == b {
      SomeOrderReports(points, period, benchmark, k, p, r);
      FigureEnds(a, b, None, UsableIndex(r.benchmarkIndex));
    }
  }

  /**
   * Every order of the points gives the same rows exactly when latest readings of one date share their return
   * index and, if there is a benchmark, every figure is fixed at both of its ends.
   */
  lemma RowsForgetOrder(points: seq<Point>, period: Period, benchmark: Option<Option<Reading>>)
    ensures RowsInAnyOrder(points, period, benchmark)
      <==> IndicesAgree(points) && (benchmark.Some? ==> FiguresFixed(points, BaseOf(benchmark)))
  {
    hide Years, IndicesAgree, FigureFixed;
    if RowsInAnyOrder(points, period, benchmark) {
      RowsShowReadings(points, period, benchmark);
      if benchmark.Some? {
        forall k | 0 <= k < |Years(points)| ensures FigureFixed(points, BaseOf(benchmark), k) {
          RowsShowFigure(points, period, benchmark, k);
        }
      }
    }
    hide Returns;
    if IndicesAgree(points) && (benchmark.Some? ==> FiguresFixed(points, BaseOf(benchmark))) {
      forall other | multiset(other) == multiset(points)
        ensures Returns(other, period, benchmark) == Returns(points, period, benchmark)
      {
        FixedRows(points, other, period, benchmark);
      }
    }
  }
}
