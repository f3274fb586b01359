/**
 * extractSegments: one pass over a trip's positions that cuts it into in-transit runs. The
 * pass is proved to find exactly the maximal runs of fast points that last two whole minutes.
 */
module Segments {
  import opened Common
  import opened Geohash

  /** A telemetry row as scanned: coordinates, speed and time may be missing. Times are nanoseconds. */
  datatype Row = Row(lat: Option<real>, lng: Option<real>, speed: Option<real>, time: Option<int>) {
    predicate Usable() {
      lat.Some? && lng.Some? && time.Some?
    }
  }

  datatype Point = Point(lat: real, lng: real, speed: Option<real>, time: int) {
    predicate Fast() {
      speed.Some? && speed.value > 5.0
    }
  }

  datatype Segment = Segment(start: string, end: string, durationMinutes: int)

  const MINUTE := 60_000_000_000

  /** Whole minutes of a duration, truncated towards zero. */
  function WholeMinutes(d: int): int {
    if d >= 0 then d / MINUTE else -((-d) / MINUTE)
  }

  function Minutes(p: seq<Point>, i: nat, j: nat): int
    requires i < |p| && j < |p|
  {
    WholeMinutes(p[j].time - p[i].time)
  }

  /** The rows the pass does not skip. */
  function Points(rows: seq<Row>): seq<Point> {
    if rows == [] then [] else
      var last := rows[|rows| - 1];
      Points(rows[..|rows| - 1]) + if last.Usable() then [Point(last.lat.value, last.lng.value, last.speed, last.time.value)] else []
  }

  // ------------------------------------------------------------- runs

  /** The point reports more than 5 km/h; one without a speed does not. */
  predicate OverFive(pt: Point) {
    match pt.speed
    case None => false
    case Some(kmh) => kmh > 5.0
  }

  /** p[i..j] is a maximal run of points faster than 5 km/h. */
  ghost predicate IsRun(p: seq<Point>, i: nat, j: nat) {
    && i < j <= |p|
    && (forall k :: i <= k < j ==> OverFive(p[k]))
    && (i == 0 || !OverFive(p[i - 1]))
    && (j == |p| || !OverFive(p[j]))
  }

  /** Rows without a position or a time are skipped, the others kept as they are. */
  lemma PointsKept(rows: seq<Row>, lat: Option<real>, lng: Option<real>, speed: Option<real>, time: Option<int>)
    ensures Points(rows + [Row(lat, lng, speed, time)]) == Points(rows) +
      match (lat, lng, time) case (Some(y), Some(x), Some(t)) => [Point(y, x, speed, t)] case _ => []
  {
    var all := rows + [Row(lat, lng, speed, time)];
    assert all[..|all| - 1] == rows;
    assert Points(rows) + [] == Points(rows);
  }

  /** The point that ends the run p[i..j]: the next slow point, or the last point of the trip. */
  function Closing(p: seq<Point>, j: nat): nat
    requires p != [] && j <= |p|
  {
    if j < |p| then j else |p| - 1
  }

  predicate StartsRun(p: seq<Point>, i: nat)
    requires i < |p|
  {
    p[i].Fast() && (i == 0 || !p[i - 1].Fast())
  }

  /** The end of the run of fast points from i on. */
  function RunEnd(p: seq<Point>, i: nat): (j: nat)
    requires i <= |p|
    ensures i <= j <= |p| && (forall k :: i <= k < j ==> p[k].Fast()) && (j < |p| ==> !p[j].Fast())
    decreases |p| - i
  {
    if i < |p| && p[i].Fast() then RunEnd(p, i + 1) else i
  }

  datatype Span = Span(first: nat, last: nat)

  /** The kept runs that start before n, in order. */
  function Spans(p: seq<Point>, n: nat): (r: seq<Span>)
    requires n <= |p|
    ensures forall s :: s in r ==> s.first < n && s.first <= s.last < |p|
  {
    if n == 0 then [] else
      var i := n - 1;
      var end := Closing(p, RunEnd(p, i));
      Spans(p, i) + if StartsRun(p, i) && Minutes(p, i, end) >= 2 then [Span(i, end)] else []
  }

  function SegmentOf(p: seq<Point>, s: Span): Segment
    requires s.first < |p| && s.last < |p|
  {
    Segment(HashOf(p[s.first].lat, p[s.first].lng), HashOf(p[s.last].lat, p[s.last].lng), Minutes(p, s.first, s.last))
  }

  function SegmentsOf(p: seq<Point>, spans: seq<Span>): seq<Segment>
    requires forall s :: s in spans ==> s.first < |p| && s.last < |p|
  {
    seq(|spans|, k requires 0 <= k < |spans| => assert spans[k] in spans; SegmentOf(p, spans[k]))
  }

  /** A segment goes from the cell of the run's first point to the cell of the point that ends it, in whole minutes. */
  lemma SegmentSpansItsRun(p: seq<Point>, spans: seq<Span>, k: nat)
    requires forall s :: s in spans ==> s.first < |p| && s.first <= s.last < |p|
    requires k < |spans| && p[spans[k].first].time <= p[spans[k].last].time
    ensures |SegmentsOf(p, spans)| == |spans|
    ensures var seg, a, z := SegmentsOf(p, spans)[k], p[spans[k].first], p[spans[k].last];
      && seg.start == HashOf(a.lat, a.lng) && seg.end == HashOf(z.lat, z.lng)
      && seg.durationMinutes * 60_000_000_000 <= z.time - a.time < (seg.durationMinutes + 1) * 60_000_000_000
  {
    hide HashOf;
    assert spans[k] in spans;
  }

  /** The spans are exactly the maximal runs that last at least two whole minutes. */
  lemma {:induction false} SpansAreTheLongRuns(p: seq<Point>, n: nat, s: Span)
    requires n <= |p|
    ensures s in Spans(p, n) <==>
      s.first < n && exists j: nat :: IsRun(p, s.first, j) && s.last == (if j < |p| then j else |p| - 1)
                                 && p[s.last].time - p[s.first].time >= 120_000_000_000
  {
    if n > 0 {
      SpansAreTheLongRuns(p, n - 1, s);
      OneMoreRun(p, n - 1, s);
      RunFrom(p, n - 1, s.last);
      hide Spans, RunEnd, IsRun, StartsRun, Closing;
    }
  }

  lemma OneMoreRun(p: seq<Point>, i: nat, s: Span)
    requires i < |p|
    ensures s in Spans(p, i + 1) <==>
      s in Spans(p, i)
      || (s == Span(i, Closing(p, RunEnd(p, i))) && StartsRun(p, i) && p[Closing(p, RunEnd(p, i))].time - p[i].time >= 120_000_000_000)
    ensures s in Spans(p, i) ==> s.first < i
  {
    TwoMinutesOrMore(p, i, Closing(p, RunEnd(p, i)));
    hide Minutes, RunEnd, StartsRun;
  }

  lemma RunFrom(p: seq<Point>, i: nat, last: nat)
    requires i < |p|
    ensures (exists j: nat :: IsRun(p, i, j) && last == (if j < |p| then j else |p| - 1))
      <==> StartsRun(p, i) && last == Closing(p, RunEnd(p, i))
  {
    var end := RunEnd(p, i);
    forall j: nat | IsRun(p, i, j) ensures j == end { RunIsUnique(p, i, j, end); }
    if StartsRun(p, i) { assert IsRun(p, i, end); }
  }

  lemma TwoMinutesOrMore(p: seq<Point>, i: nat, j: nat)
    requires i < |p| && j < |p|
    ensures Minutes(p, i, j) >= 2 <==> p[j].time - p[i].time >= 120_000_000_000
  {
  }

  lemma RunIsUnique(p: seq<Point>, i: nat, j: nat, k: nat)
    requires IsRun(p, i, j)
    requires i <= k <= |p| && (forall m :: i <= m < k ==> p[m].Fast()) && (k < |p| ==> !p[k].Fast())
    ensures j == k
  {
    if j < |p| { assert !p[j].Fast(); }
    if k < |p| { assert !p[k].Fast(); }
  }

  // ------------------------------------------------------------- order and total

  ghost predicate TimeOrdered(p: seq<Point>) {
    forall i, j :: 0 <= i < j < |p| ==> p[i].time <= p[j].time
  }

  /** Spans come in order and each ends before the next begins. */
  lemma {:induction false} SpansDisjoint(p: seq<Point>, n: nat)
    requires n <= |p|
    ensures forall s :: s in Spans(p, n) && n < |p| && StartsRun(p, n) ==> s.last < n
    ensures forall a, b :: 0 <= a < b < |Spans(p, n)| ==> Spans(p, n)[a].last < Spans(p, n)[b].first
  {
    if n > 0 {
      var i := n - 1;
      SpansDisjoint(p, i);
      forall s | s in Spans(p, n) && n < |p| && StartsRun(p, n) ensures s.last < n {
        if s.first < i && s in Spans(p, i) { SpanStopsBefore(p, i, s, n); }
      }
    }
  }

  lemma SpanStopsBefore(p: seq<Point>, m: nat, s: Span, n: nat)
    requires m <= n < |p| && s in Spans(p, m) && StartsRun(p, n)
    ensures s.last < n
  {
    SpansAreTheLongRuns(p, m, s);
    var j: nat :| IsRun(p, s.first, j) && s.last == Closing(p, j);
    assert s.first < m <= n;
    assert !p[n - 1].Fast();
  }

  function TotalMinutes(p: seq<Point>, spans: seq<Span>): int
    requires forall s :: s in spans ==> s.first < |p| && s.last < |p|
  {
    if spans == [] then 0
    else TotalMinutes(p, spans[..|spans| - 1]) + Minutes(p, spans[|spans| - 1].first, spans[|spans| - 1].last)
  }

  lemma WholeMinutesAdd(a: int, b: int)
    requires a >= 0 && b >= 0
    ensures 0 <= WholeMinutes(a) + WholeMinutes(b) <= WholeMinutes(a + b)
  {
  }

  lemma WholeMinutesMonotone(a: int, b: int)
    requires 0 <= a <= b
    ensures WholeMinutes(a) <= WholeMinutes(b)
  {
  }

  lemma MinutesChain(total: int, t0: int, t1: int, t2: int, t3: int)
    requires t0 <= t1 <= t2 <= t3 && total <= WholeMinutes(t1 - t0)
    ensures total + WholeMinutes(t2 - t1) <= WholeMinutes(t3 - t0)
  {
    hide WholeMinutes;
    WholeMinutesAdd(t1 - t0, t2 - t1);
    WholeMinutesMonotone(t2 - t0, t3 - t0);
  }

  /** The spans end at or before point k. */
  ghost predicate EndBy(spans: seq<Span>, k: int) {
    spans == [] || spans[|spans| - 1].last <= k
  }

  lemma {:induction false} TotalWithin(p: seq<Point>, n: nat, k: nat)
    requires n <= |p| && k < |p| && TimeOrdered(p) && EndBy(Spans(p, n), k)
    ensures TotalMinutes(p, Spans(p, n)) <= Minutes(p, 0, k)
  {
    hide RunEnd, WholeMinutes, TimeOrdered;
    if n == 0 {
      TimesAscend(p, 0, k);
      WholeMinutesMonotone(0, p[k].time - p[0].time);
      NoMinutes();
    } else {
      var i := n - 1;
      var before, spans := Spans(p, i), Spans(p, n);
      if spans == before {
        TotalWithin(p, i, k);
      } else {
        var s := spans[|spans| - 1];
        assert spans == before + [s] && s.first == i && s.last <= k;
        LastEndsBefore(p, i);
        TotalWithin(p, i, i);
        TotalGrows(p, before, s, k);
      }
    }
  }

  lemma {:induction false} EachTwoMinutes(p: seq<Point>, n: nat)
    requires n <= |p|
    ensures forall s :: s in Spans(p, n) ==> s.first < |p| && s.last < |p|
    ensures TotalMinutes(p, Spans(p, n)) >= 2 * |Spans(p, n)|
  {
    hide WholeMinutes;
    if n > 0 {
      EachTwoMinutes(p, n - 1);
      var before, spans := Spans(p, n - 1), Spans(p, n);
      assert spans != before ==> spans[..|spans| - 1] == before;
    }
  }

  lemma TotalGrows(p: seq<Point>, before: seq<Span>, s: Span, k: nat)
    requires TimeOrdered(p) && s.first <= s.last <= k < |p| && (forall b :: b in before ==> b.first < |p| && b.last < |p|)
    requires TotalMinutes(p, before) <= Minutes(p, 0, s.first)
    ensures TotalMinutes(p, before + [s]) <= Minutes(p, 0, k)
  {
    assert (before + [s])[..|before + [s]| - 1] == before;
    hide WholeMinutes, TimeOrdered;
    TimesAscend(p, 0, s.first);
    TimesAscend(p, s.first, s.last);
    TimesAscend(p, s.last, k);
    MinutesChain(TotalMinutes(p, before), p[0].time, p[s.first].time, p[s.last].time, p[k].time);
  }

  lemma TimesAscend(p: seq<Point>, i: nat, j: nat)
    requires TimeOrdered(p) && i <= j < |p|
    ensures p[i].time <= p[j].time
  {
  }

  lemma NoMinutes()
    ensures WholeMinutes(0) == 0
  {
  }

  lemma LastEndsBefore(p: seq<Point>, i: nat)
    requires i < |p| && StartsRun(p, i)
    ensures EndBy(Spans(p, i), i)
  {
    hide RunEnd, Spans;
    SpansDisjoint(p, i);
    var spans := Spans(p, i);
    if spans != [] { assert spans[|spans| - 1] in spans; }
  }

  /** For time-ordered points the segments are disjoint and their minutes add up to at most
      the whole minutes of the trip. */
  lemma SegmentsFitTheTrip(p: seq<Point>)
    requires p != [] && TimeOrdered(p)
    ensures var spans := Spans(p, |p|);
      && (forall a, b :: 0 <= a < b < |spans| ==> p[spans[a].last].time <= p[spans[b].first].time)
      && 2 * |spans| <= TotalMinutes(p, spans) <= Minutes(p, 0, |p| - 1)
  {
    hide Spans, RunEnd, WholeMinutes, Minutes, TotalMinutes;
    EachTwoMinutes(p, |p|);
    SpansDisjoint(p, |p|);
    var spans := Spans(p, |p|);
    LastSpanEnds(p, spans);
    TotalWithin(p, |p|, |p| - 1);
    forall a, b | 0 <= a < b < |spans| ensures p[spans[a].last].time <= p[spans[b].first].time {
      assert spans[a] in spans && spans[b] in spans;
    }
  }

  lemma LastSpanEnds(p: seq<Point>, spans: seq<Span>)
    requires forall s :: s in spans ==> s.first < |p| && s.last < |p|
    ensures spans != [] ==> spans[|spans| - 1].last <= |p| - 1
  {
    if spans != [] { assert spans[|spans| - 1] in spans; }
  }

  // ------------------------------------------------------------- the pass

  /** No run starts inside a run. */
  lemma {:induction false} NoStartInside(p: seq<Point>, i: nat, n: nat)
    requires i < n <= |p| && (forall k :: i <= k < n ==> !StartsRun(p, k) || k == i)
    ensures Spans(p, n) == Spans(p, i + 1)
    decreases n
  {
    if i + 1 < n { NoStartInside(p, i, n - 1); }
  }

  lemma PointsPrefix(rows: seq<Row>, n: nat)
    requires n <= |rows|
    ensures Points(rows[..n]) <= Points(rows)
    decreases |rows|
  {
    if n < |rows| {
      PointsPrefix(rows[..|rows| - 1], n);
      assert rows[..|rows| - 1][..n] == rows[..n];
    } else {
      assert rows[..n] == rows;
    }
  }

  /** What the pass knows after m points: the runs closed so far, and the run still open. */
  ghost predicate Pass(p: seq<Point>, m: nat, open: Option<nat>, segments: seq<Segment>) {
    m <= |p| &&
    match open
    case None => segments == SegmentsOf(p, Spans(p, m)) && (m == 0 || !p[m - 1].Fast())
    case Some(i) =>
      i < m && StartsRun(p, i) && (forall k :: i <= k < m ==> p[k].Fast()) && segments == SegmentsOf(p, Spans(p, i))
  }

  lemma PassFast(p: seq<Point>, m: nat, open: Option<nat>, segments: seq<Segment>)
    requires Pass(p, m, open, segments) && m < |p| && p[m].Fast()
    ensures Pass(p, m + 1, if open.None? then Some(m) else open, segments)
  {
  }

  /** When a run ends at m, the spans before m + 1 are those before it and, if long enough, the run. */
  lemma RunCloses(p: seq<Point>, i: nat, m: nat, n: nat)
    requires i < m <= |p| && StartsRun(p, i) && (forall k :: i <= k < m ==> p[k].Fast()) && (m < |p| ==> !p[m].Fast())
    requires n == Min(m + 1, |p|)
    ensures var last := Closing(p, m);
      SegmentsOf(p, Spans(p, n)) == SegmentsOf(p, Spans(p, i)) + if Minutes(p, i, last) >= 2 then [SegmentOf(p, Span(i, last))] else []
  {
    hide SegmentsOf, SegmentOf, WholeMinutes, RunEnd, Spans;
    RunEndIs(p, i, m);
    NoStartInside(p, i, n);
    OneMoreSpan(p, i, Closing(p, m));
  }

  lemma PassSlow(p: seq<Point>, m: nat, open: Option<nat>, segments: seq<Segment>)
    requires Pass(p, m, open, segments) && m < |p| && !p[m].Fast()
    ensures open.None? ==> Pass(p, m + 1, None, segments)
    ensures open.Some? ==> Pass(p, m + 1, None, segments +
      if Minutes(p, open.value, m) >= 2 then [SegmentOf(p, Span(open.value, m))] else [])
  {
    hide HashOf, WholeMinutes, RunEnd;
    if open.Some? {
      RunCloses(p, open.value, m, m + 1);
    }
  }

  lemma PassEnds(p: seq<Point>, open: Option<nat>, segments: seq<Segment>)
    requires Pass(p, |p|, open, segments)
    ensures SegmentsOf(p, Spans(p, |p|)) == segments +
      if open.Some? && Minutes(p, open.value, |p| - 1) >= 2 then [SegmentOf(p, Span(open.value, |p| - 1))] else []
  {
    hide SegmentsOf, SegmentOf, Minutes, RunEnd, Spans, StartsRun;
    if open.Some? {
      var last := |p| - 1;
      RunCloses(p, open.value, last + 1, last + 1);
      assert Closing(p, last + 1) == last;
    }
    assert segments + [] == segments;
  }

  lemma OneMoreSpan(p: seq<Point>, i: nat, last: nat)
    requires i < |p| && StartsRun(p, i) && last == Closing(p, RunEnd(p, i))
    ensures SegmentsOf(p, Spans(p, i + 1)) == SegmentsOf(p, Spans(p, i)) +
      if Minutes(p, i, last) >= 2 then [SegmentOf(p, Span(i, last))] else []
  {
    hide HashOf, WholeMinutes, RunEnd;
  }

  lemma {:induction false} RunEndIs(p: seq<Point>, i: nat, j: nat)
    requires i <= j <= |p| && (forall k :: i <= k < j ==> p[k].Fast()) && (j < |p| ==> !p[j].Fast())
    ensures RunEnd(p, i) == j
    decreases j - i
  {
    if i < j { RunEndIs(p, i + 1, j); }
  }

  /** One pass over the rows. */
  method ExtractSegments(rows: seq<Row>) returns (segments: seq<Segment>)
    ensures segments == SegmentsOf(Points(rows), Spans(Points(rows), |Points(rows)|))
  {
    hide Pass, SegmentsOf, Spans, HashOf, WholeMinutes;
    segments := [];
    var segStart: Option<Point> := None;
    var lastPos: Option<Point> := None;
    ghost var p: seq<Point>, m: nat, open: Option<nat> := Points(rows), 0, None;
    PassStarts(p);
    for n := 0 to |rows|
      invariant m == |Points(rows[..n])| && Points(rows[..n]) <= p
      invariant Pass(p, m, open, segments)
      invariant m <= |p| && lastPos == (if m == 0 then None else Some(p[m - 1]))
      invariant open.Some? ==> open.value < m
      invariant segStart == if open.None? then None else Some(p[open.value])
    {
      var row := rows[n];
      PointsPrefix(rows, n + 1);
      assert rows[..n + 1][..n] == rows[..n] && rows[..n + 1][n] == row;
      if !row.Usable() {
        continue;
      }
      var pos := Point(row.lat.value, row.lng.value, row.speed, row.time.value);
      assert Points(rows[..n + 1])[m] == pos == p[m];
      lastPos := Some(pos);
      if pos.Fast() {
        PassFast(p, m, open, segments);
        if segStart.None? {
          segStart := Some(pos);
          open := Some(m);
        }
      } else {
        PassSlow(p, m, open, segments);
        assert segments + [] == segments;
        if segStart.Some? {
          var dur := WholeMinutes(pos.time - segStart.value.time);
          if dur >= 2 {
            segments := segments + [MakeSegment(segStart.value, pos, dur)];
          }
          segStart := None;
          open := None;
        }
      }
      m := m + 1;
    }
    assert rows[..|rows|] == rows;
    PassEnds(p, open, segments);
    assert segments + [] == segments;
    if segStart.Some? && lastPos.Some? {
      var dur := WholeMinutes(lastPos.value.time - segStart.value.time);
      if dur >= 2 {
        segments := segments + [MakeSegment(segStart.value, lastPos.value, dur)];
      }
    }
  }

  function MakeSegment(first: Point, last: Point, dur: int): Segment {
    Segment(HashOf(first.lat, first.lng), HashOf(last.lat, last.lng), dur)
  }

  lemma PassStarts(p: seq<Point>)
    ensures Pass(p, 0, None, [])
  {
  }
}
