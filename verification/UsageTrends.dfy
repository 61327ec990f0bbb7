/**
 Usage trends: the API reports per tenant and day a request count and a rounded average latency; the console merges
 the points of several tenants by day and rounds again.  Days are numbered; averages are exact rationals rounded half
 up, as Math.round does.
 */
module UsageTrends {

  datatype Point = Point(date: int, requestCount: nat, errorCount: nat, averageLatencyMs: int)

  function RoundDiv(a: int, b: nat): int
    requires b > 0
  {
    (2 * a + b) / (2 * b)
  }

  lemma RoundDivIsNear(a: int, b: nat)
    requires b > 0
    ensures 0 - b < 2 * (RoundDiv(a, b) * b) - 2 * a <= b
  {
    var q := RoundDiv(a, b);
    assert 2 * b * q == 2 * (q * b);
  }

  lemma RoundDivStaysBetween(a: int, b: nat, lo: int, hi: int)
    requires b > 0 && lo * b <= a <= hi * b
    ensures lo <= RoundDiv(a, b) <= hi
  {
    var q := RoundDiv(a, b);
    RoundDivIsNear(a, b);
    if q < lo { MulStrict(b, q, lo); }
    if q > hi { MulStrict(b, hi, q); }
  }

  lemma MulStrict(b: nat, x: int, y: int)
    requires b > 0 && x < y
    ensures x * b + b <= y * b
  {
    Times(b, y - x - 1);
    assert (y - x - 1) * b == y * b - (x * b + b);
  }

  lemma Times(b: int, n: nat)
    requires b > 0
    ensures n * b >= 0
  {
  }

  // ------------------------------------------------------------- per day sums

  function Requests(points: seq<Point>, date: int): nat {
    if points == [] then 0 else
    var last := points[|points| - 1];
    Requests(points[..|points| - 1], date) + (if last.date == date then last.requestCount else 0)
  }

  function Errors(points: seq<Point>, date: int): nat {
    if points == [] then 0 else
    var last := points[|points| - 1];
    Errors(points[..|points| - 1], date) + (if last.date == date then last.errorCount else 0)
  }

  function Weight(p: Point): int {
    p.averageLatencyMs * p.requestCount
  }

  function Latency(points: seq<Point>, date: int): int {
    if points == [] then 0 else
    var last := points[|points| - 1];
    Latency(points[..|points| - 1], date) + (if last.date == date then Weight(last) else 0)
  }

  function MergedPoint(points: seq<Point>, date: int): Point {
    var n := Requests(points, date);
    Point(date, n, Errors(points, date), if n > 0 then RoundDiv(Latency(points, date), n) else 0)
  }

  ghost predicate HasDate(points: seq<Point>, date: int) {
    exists i :: 0 <= i < |points| && points[i].date == date
  }

  /** A merge: one point per day that occurs, in increasing order of days, with that day's sums. */
  ghost predicate IsMerge(points: seq<Point>, merged: seq<Point>) {
    && (forall i, j | 0 <= i < j < |merged| :: merged[i].date < merged[j].date)
    && (forall i | 0 <= i < |merged| :: merged[i] == MergedPoint(points, merged[i].date))
    && (forall date :: HasDate(points, date) <==> HasDate(merged, date))
  }

  // ------------------------------------------------------------ order of input

  lemma {:induction false} SumsSplit(a: seq<Point>, b: seq<Point>, date: int)
    ensures Requests(a + b, date) == Requests(a, date) + Requests(b, date)
    ensures Errors(a + b, date) == Errors(a, date) + Errors(b, date)
    ensures Latency(a + b, date) == Latency(a, date) + Latency(b, date)
  {
    if b == [] {
      assert a + b == a;
    } else {
      var n := |b| - 1;
      assert (a + b)[..|a + b| - 1] == a + b[..n];
      SumsSplit(a, b[..n], date);
    }
  }

  lemma SumsAfterRemoval(b: seq<Point>, k: nat, date: int)
    requires k < |b|
    ensures Requests(b, date) == Requests(b[..k] + b[k + 1..], date) + Requests([b[k]], date)
    ensures Errors(b, date) == Errors(b[..k] + b[k + 1..], date) + Errors([b[k]], date)
    ensures Latency(b, date) == Latency(b[..k] + b[k + 1..], date) + Latency([b[k]], date)
  {
    assert b == b[..k] + ([b[k]] + b[k + 1..]);
    SumsSplit(b[..k], [b[k]] + b[k + 1..], date);
    SumsSplit([b[k]], b[k + 1..], date);
    SumsSplit(b[..k], b[k + 1..], date);
  }

  lemma RemovedMultiset(b: seq<Point>, k: nat)
    requires k < |b|
    ensures multiset(b[..k] + b[k + 1..]) == multiset(b) - multiset{b[k]}
  {
    assert b == b[..k] + [b[k]] + b[k + 1..];
  }

  lemma {:induction false} SumsIgnoreOrder(a: seq<Point>, b: seq<Point>, date: int)
    requires multiset(a) == multiset(b)
    ensures Requests(a, date) == Requests(b, date) && Errors(a, date) == Errors(b, date)
    ensures Latency(a, date) == Latency(b, date)
    decreases |a|
  {
    if a == [] {
      assert |multiset(b)| == 0;
    } else {
      var n := |a| - 1;
      assert a[n] in multiset(a);
      assert a[n] in b;
      var k :| 0 <= k < |b| && b[k] == a[n];
      RemovedMultiset(a, n);
      RemovedMultiset(b, k);
      SumsIgnoreOrder(a[..n] + a[n + 1..], b[..k] + b[k + 1..], date);
      SumsAfterRemoval(a, n, date);
      SumsAfterRemoval(b, k, date);
    }
  }

  lemma LastDateIsLatest(a: seq<Point>, b: seq<Point>)
    requires b != [] && forall i, j | 0 <= i < j < |a| :: a[i].date < a[j].date
    requires forall date | HasDate(b, date) :: HasDate(a, date)
    ensures a != [] && b[|b| - 1].date <= a[|a| - 1].date
  {
    assert HasDate(b, b[|b| - 1].date);
  }

  lemma {:induction false} SortedSameDates(a: seq<Point>, b: seq<Point>)
    requires forall i, j | 0 <= i < j < |a| :: a[i].date < a[j].date
    requires forall i, j | 0 <= i < j < |b| :: b[i].date < b[j].date
    requires forall date :: HasDate(a, date) <==> HasDate(b, date)
    requires forall i, j | 0 <= i < |a| && 0 <= j < |b| && a[i].date == b[j].date :: a[i] == b[j]
    ensures a == b
    decreases |a|
  {
    assert b != [] ==> HasDate(b, b[0].date);
    if a != [] {
      var p := a[|a| - 1];
      assert HasDate(a, p.date);
      LastDateIsLatest(a, b);
      LastDateIsLatest(b, a);
      var a', b' := a[..|a| - 1], b[..|b| - 1];
      forall date ensures HasDate(a', date) <==> HasDate(b', date) {
        DateOfInit(a, date);
        DateOfInit(b, date);
      }
      SortedSameDates(a', b');
      assert a == a' + [p] && b == b' + [p];
    }
  }

  lemma DateOfInit(a: seq<Point>, date: int)
    requires a != [] && forall i, j | 0 <= i < j < |a| :: a[i].date < a[j].date
    ensures HasDate(a[..|a| - 1], date) <==> HasDate(a, date) && date != a[|a| - 1].date
  {
    if HasDate(a, date) && date != a[|a| - 1].date {
      var i :| 0 <= i < |a| && a[i].date == date;
      assert a[..|a| - 1][i].date == date;
    }
    if HasDate(a[..|a| - 1], date) {
      var i :| 0 <= i < |a| - 1 && a[..|a| - 1][i].date == date;
      assert a[i].date == date;
    }
  }

  lemma SameMultisetSameDates(p: seq<Point>, q: seq<Point>, date: int)
    requires multiset(p) == multiset(q) && HasDate(p, date)
    ensures HasDate(q, date)
  {
    var i :| 0 <= i < |p| && p[i].date == date;
    assert p[i] in multiset(p);
    assert p[i] in q;
    var j :| 0 <= j < |q| && q[j] == p[i];
    assert q[j].date == date;
  }

  /** The merge depends on the points alone, not on their order; in particular it is unique. */
  lemma MergeIgnoresOrder(p: seq<Point>, q: seq<Point>, a: seq<Point>, b: seq<Point>)
    requires multiset(p) == multiset(q) && IsMerge(p, a) && IsMerge(q, b)
    ensures a == b
  {
    forall date ensures HasDate(a, date) <==> HasDate(b, date) {
      if HasDate(p, date) { SameMultisetSameDates(p, q, date); }
      if HasDate(q, date) { SameMultisetSameDates(q, p, date); }
    }
    forall i, j | 0 <= i < |a| && 0 <= j < |b| && a[i].date == b[j].date ensures a[i] == b[j] {
      SumsIgnoreOrder(p, q, a[i].date);
    }
    SortedSameDates(a, b);
  }

  // -------------------------------------------------------------- conservation

  function TotalRequests(points: seq<Point>): nat {
    if points == [] then 0 else TotalRequests(points[..|points| - 1]) + points[|points| - 1].requestCount
  }

  function TotalErrors(points: seq<Point>): nat {
    if points == [] then 0 else TotalErrors(points[..|points| - 1]) + points[|points| - 1].errorCount
  }

  // Points of the days that occur in `days`.
  function Within(points: seq<Point>, days: seq<Point>): seq<Point> {
    if points == [] then [] else
    var rest := Within(points[..|points| - 1], days);
    var last := points[|points| - 1];
    if (exists i :: 0 <= i < |days| && days[i].date == last.date) then rest + [last] else rest
  }

  lemma {:induction false} OneMoreDay(points: seq<Point>, days: seq<Point>)
    requires days != [] && !HasDate(days[..|days| - 1], days[|days| - 1].date)
    ensures TotalRequests(Within(points, days))
      == TotalRequests(Within(points, days[..|days| - 1])) + Requests(points, days[|days| - 1].date)
    ensures TotalErrors(Within(points, days))
      == TotalErrors(Within(points, days[..|days| - 1])) + Errors(points, days[|days| - 1].date)
  {
    if points == [] {
    } else {
      var init, last := days[..|days| - 1], days[|days| - 1];
      OneMoreDay(points[..|points| - 1], days);
      var p := points[|points| - 1];
      assert HasDate(days, p.date) <==> HasDate(init, p.date) || p.date == last.date by {
        if i :| 0 <= i < |days| && days[i].date == p.date {
          assert i < |days| - 1 ==> init[i].date == p.date;
        }
        if i :| 0 <= i < |init| && init[i].date == p.date {
          assert days[i].date == p.date;
        }
        assert days[|days| - 1].date == last.date;
      }
      WithinSnoc(points, days);
      WithinSnoc(points, init);
    }
  }

  lemma WithinSnoc(points: seq<Point>, days: seq<Point>)
    requires points != []
    ensures var rest, p := Within(points[..|points| - 1], days), points[|points| - 1];
      && TotalRequests(Within(points, days))
         == TotalRequests(rest) + (if HasDate(days, p.date) then p.requestCount else 0)
      && TotalErrors(Within(points, days)) == TotalErrors(rest) + (if HasDate(days, p.date) then p.errorCount else 0)
  {
    var rest, p := Within(points[..|points| - 1], days), points[|points| - 1];
    assert (rest + [p])[..|rest|] == rest;
  }

  lemma {:induction false} NothingWithinNoDays(points: seq<Point>)
    ensures Within(points, []) == []
  {
    if points == [] {
    } else {
      NothingWithinNoDays(points[..|points| - 1]);
    }
  }

  lemma {:induction false} EverythingWithin(points: seq<Point>, days: seq<Point>)
    requires forall i | 0 <= i < |points| :: HasDate(days, points[i].date)
    ensures Within(points, days) == points
  {
    if points == [] {
    } else {
      EverythingWithin(points[..|points| - 1], days);
      assert HasDate(days, points[|points| - 1].date);
      assert points == points[..|points| - 1] + [points[|points| - 1]];
    }
  }

  lemma {:induction false} DayTotals(points: seq<Point>, days: seq<Point>)
    requires forall i, j | 0 <= i < j < |days| :: days[i].date < days[j].date
    requires forall i | 0 <= i < |days| :: days[i] == MergedPoint(points, days[i].date)
    ensures TotalRequests(days) == TotalRequests(Within(points, days))
    ensures TotalErrors(days) == TotalErrors(Within(points, days))
  {
    if days == [] {
      NothingWithinNoDays(points);
    } else {
      DayTotals(points, days[..|days| - 1]);
      OneMoreDay(points, days);
    }
  }

  /** Merging preserves the total number of requests and of errors. */
  lemma MergePreservesTotals(points: seq<Point>, merged: seq<Point>)
    requires IsMerge(points, merged)
    ensures TotalRequests(merged) == TotalRequests(points) && TotalErrors(merged) == TotalErrors(points)
  {
    DayTotals(points, merged);
    forall i | 0 <= i < |points| ensures HasDate(merged, points[i].date) {
      assert HasDate(points, points[i].date);
    }
    EverythingWithin(points, merged);
  }

  // ------------------------------------------------------------------ latency

  lemma {:induction false} LatencyBetween(points: seq<Point>, date: int, lo: int, hi: int)
    requires forall i | 0 <= i < |points| && points[i].date == date && points[i].requestCount > 0 ::
      lo <= points[i].averageLatencyMs <= hi
    ensures lo * Requests(points, date) <= Latency(points, date) <= hi * Requests(points, date)
  {
    if points == [] {
    } else {
      var p := points[|points| - 1];
      LatencyBetween(points[..|points| - 1], date, lo, hi);
      if p.date == date {
        if p.requestCount > 0 { ScaleBoth(lo, p.averageLatencyMs, hi, p.requestCount); }
        SplitProduct(lo, Requests(points[..|points| - 1], date), p.requestCount);
        SplitProduct(hi, Requests(points[..|points| - 1], date), p.requestCount);
      }
    }
  }

  lemma SplitProduct(a: int, m: nat, n: nat)
    ensures a * (m + n) == a * m + a * n
  {
  }

  lemma ScaleBoth(lo: int, x: int, hi: int, n: nat)
    requires lo <= x <= hi
    ensures lo * n <= x * n <= hi * n
  {
  }

  /** A day's latency lies between the smallest and the largest average that contributed requests to it. */
  lemma MergedLatencyBetween(points: seq<Point>, date: int, lo: int, hi: int)
    requires Requests(points, date) > 0
    requires forall i | 0 <= i < |points| && points[i].date == date && points[i].requestCount > 0 ::
      lo <= points[i].averageLatencyMs <= hi
    ensures lo <= MergedPoint(points, date).averageLatencyMs <= hi
  {
    LatencyBetween(points, date, lo, hi);
    RoundDivStaysBetween(Latency(points, date), Requests(points, date), lo, hi);
  }

  // The events of one tenant on one day; the grouped query returns only groups that have some.
  datatype Group = Group(date: int, durations: seq<int>, errorCount: nat)

  function Total(durations: seq<int>): int {
    if durations == [] then 0 else Total(durations[..|durations| - 1]) + durations[|durations| - 1]
  }

  function ReportedPoint(g: Group): Point
    requires g.durations != []
  {
    Point(g.date, |g.durations|, g.errorCount, RoundDiv(Total(g.durations), |g.durations|))
  }

  ghost predicate Reports(groups: seq<Group>, points: seq<Point>) {
    && |points| == |groups|
    && forall i | 0 <= i < |groups| :: groups[i].durations != [] && points[i] == ReportedPoint(groups[i])
  }

  function ExactLatency(groups: seq<Group>, date: int): int {
    if groups == [] then 0 else
    ExactLatency(groups[..|groups| - 1], date)
    + (if groups[|groups| - 1].date == date then Total(groups[|groups| - 1].durations) else 0)
  }

  lemma {:induction false} RoundedSumIsNear(groups: seq<Group>, points: seq<Point>, date: int)
    requires Reports(groups, points)
    ensures var error := 2 * Latency(points, date) - 2 * ExactLatency(groups, date);
      0 - Requests(points, date) <= error <= Requests(points, date)
  {
    if groups == [] {
    } else {
      var n := |groups| - 1;
      RoundedSumIsNear(groups[..n], points[..n], date);
      RoundDivIsNear(Total(groups[n].durations), |groups[n].durations|);
    }
  }

  /** After both roundings a day's latency is within 1 ms of the exact mean over all its events. */
  lemma DashboardLatencyWithinOne(groups: seq<Group>, points: seq<Point>, date: int)
    requires Reports(groups, points) && Requests(points, date) > 0
    ensures var n := Requests(points, date);
      ExactLatency(groups, date) - n <= MergedPoint(points, date).averageLatencyMs * n <= ExactLatency(groups, date) + n
  {
    RoundedSumIsNear(groups, points, date);
    RoundDivIsNear(Latency(points, date), Requests(points, date));
  }

  /** Total is the sum of the durations. */
  lemma {:induction false} TotalAdds(a: seq<int>, b: seq<int>, x: int)
    ensures Total(a + b) == Total(a) + Total(b) && Total([x]) == x
  {
    assert [x][..0] == [];
    if b == [] {
      assert a + b == a;
    } else {
      assert (a + b)[..|a + b| - 1] == a + b[..|b| - 1];
      TotalAdds(a, b[..|b| - 1], x);
    }
  }

  function EventsOn(groups: seq<Group>, date: int): nat {
    if groups == [] then 0 else
    var last := groups[|groups| - 1];
    EventsOn(groups[..|groups| - 1], date) + (if last.date == date then |last.durations| else 0)
  }

  function ErrorsOn(groups: seq<Group>, date: int): nat {
    if groups == [] then 0 else
    var last := groups[|groups| - 1];
    ErrorsOn(groups[..|groups| - 1], date) + (if last.date == date then last.errorCount else 0)
  }

  /** The merged point of a day counts its events and errors over all tenants. */
  lemma {:induction false} DashboardCountsEvents(groups: seq<Group>, points: seq<Point>, date: int)
    requires Reports(groups, points)
    ensures MergedPoint(points, date).requestCount == EventsOn(groups, date)
    ensures MergedPoint(points, date).errorCount == ErrorsOn(groups, date)
  {
    if groups == [] {
    } else {
      DashboardCountsEvents(groups[..|groups| - 1], points[..|groups| - 1], date);
    }
  }

  /** A day is made up of its own points: with one day only its sums are the totals, and other days add nothing. */
  lemma {:induction false} DaysStandAlone(points: seq<Point>, date: int)
    ensures (forall i | 0 <= i < |points| :: points[i].date == date) ==>
      Requests(points, date) == TotalRequests(points) && Errors(points, date) == TotalErrors(points)
    ensures (forall i | 0 <= i < |points| :: points[i].date != date) ==>
      Requests(points, date) == 0 && Errors(points, date) == 0 && Latency(points, date) == 0
  {
    if points == [] {
    } else {
      DaysStandAlone(points[..|points| - 1], date);
    }
  }

  /** A point by itself is merged to itself, its latency being zero if it had no requests. */
  lemma MergeOfOne(p: Point)
    ensures MergedPoint([p], p.date) == if p.requestCount > 0 then p else p.(averageLatencyMs := 0)
  {
    assert Requests([p], p.date) == Requests([p][..0], p.date) + p.requestCount;
    assert Errors([p], p.date) == Errors([p][..0], p.date) + p.errorCount;
    assert Latency([p], p.date) == Latency([p][..0], p.date) + Weight(p);
    assert [p][..0] == [];
    if p.requestCount > 0 {
      RoundDivStaysBetween(Weight(p), p.requestCount, p.averageLatencyMs, p.averageLatencyMs);
    }
  }

  // ----------------------------------------------------------------- the code

  datatype Accumulator = Accumulator(requestCount: nat, errorCount: nat, latencyRequestMs: int)

  function Finish(date: int, a: Accumulator): Point {
    Point(date, a.requestCount, a.errorCount,
          if a.requestCount > 0 then RoundDiv(a.latencyRequestMs, a.requestCount) else 0)
  }

  function InsertByDate(p: Point, sorted: seq<Point>): (r: seq<Point>)
    requires forall i, j | 0 <= i < j < |sorted| :: sorted[i].date < sorted[j].date
    requires forall i | 0 <= i < |sorted| :: sorted[i].date != p.date
    ensures forall i, j | 0 <= i < j < |r| :: r[i].date < r[j].date
    ensures forall q :: q in r <==> q == p || q in sorted
  {
    if sorted == [] then [p]
    else if p.date < sorted[0].date then [p] + sorted
    else
      var rest := InsertByDate(p, sorted[1..]);
      assert forall i | 0 <= i < |rest| :: rest[i] in rest;
      assert forall q :: q in sorted[1..] ==> sorted[0].date < q.date;
      [sorted[0]] + rest
  }

  method Accumulate(points: seq<Point>) returns (byDate: map<int, Accumulator>, dates: seq<int>)
    ensures forall date :: date in byDate <==> HasDate(points, date)
    ensures forall date | date in byDate ::
      byDate[date] == Accumulator(Requests(points, date), Errors(points, date), Latency(points, date))
    ensures forall date :: date in dates <==> date in byDate
    ensures forall i, j | 0 <= i < j < |dates| :: dates[i] != dates[j]
  {
    byDate, dates := map[], [];
    assert points[..0] == [];
    for i := 0 to |points|
      invariant forall date :: date in byDate <==> HasDate(points[..i], date)
      invariant forall date | date !in byDate ::
        Requests(points[..i], date) == 0 && Errors(points[..i], date) == 0 && Latency(points[..i], date) == 0
      invariant forall date | date in byDate ::
        byDate[date] == Accumulator(Requests(points[..i], date), Errors(points[..i], date), Latency(points[..i], date))
      invariant forall date :: date in dates <==> date in byDate
      invariant forall k, j | 0 <= k < j < |dates| :: dates[k] != dates[j]
    {
      var p := points[i];
      assert points[..i + 1][..i] == points[..i];
      OneMorePoint(points, i);
      var existing := if p.date in byDate then byDate[p.date] else Accumulator(0, 0, 0);
      if p.date !in byDate {
        dates := dates + [p.date];
      }
      byDate := byDate[p.date := Accumulator(
        existing.requestCount + p.requestCount,
        existing.errorCount + p.errorCount,
        existing.latencyRequestMs + p.averageLatencyMs * p.requestCount)];
    }
    assert points[..|points|] == points;
  }

  lemma OneMorePoint(points: seq<Point>, i: nat)
    requires i < |points|
    ensures forall date :: HasDate(points[..i + 1], date) <==> HasDate(points[..i], date) || date == points[i].date
  {
    assert points[..i + 1] == points[..i] + [points[i]];
    forall date | HasDate(points[..i], date) ensures HasDate(points[..i + 1], date) {
      var k :| 0 <= k < i && points[..i][k].date == date;
      assert points[..i + 1][k].date == date;
    }
    assert points[..i + 1][i].date == points[i].date;
  }

  method MergeUsageTrends(points: seq<Point>) returns (merged: seq<Point>)
    ensures IsMerge(points, merged)
  {
    var byDate, dates := Accumulate(points);
    merged := [];
    for i := 0 to |dates|
      invariant forall k, j | 0 <= k < j < |merged| :: merged[k].date < merged[j].date
      invariant forall q | q in merged :: q.date in dates[..i] && q == MergedPoint(points, q.date)
      invariant forall date | date in dates[..i] :: MergedPoint(points, date) in merged
    {
      assert dates[..i + 1] == dates[..i] + [dates[i]];
      assert dates[i] in dates;
      var p := Finish(dates[i], byDate[dates[i]]);
      merged := InsertByDate(p, merged);
    }
    assert dates[..|dates|] == dates;
    forall date ensures HasDate(points, date) <==> HasDate(merged, date) {
      if HasDate(points, date) {
        var k :| 0 <= k < |merged| && merged[k] == MergedPoint(points, date);
        assert merged[k].date == date;
      }
      if HasDate(merged, date) {
        var k :| 0 <= k < |merged| && merged[k].date == date;
        assert merged[k] in merged;
      }
    }
  }
}
