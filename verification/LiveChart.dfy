/**
 The dashboard's live price series: merging incoming points, capping the series by an
 index sample, and finding the point nearest to a time. Timestamps are milliseconds.
 */
module LiveChart {
  import opened Division
  import opened MarketData

  const MAX_DISPLAY_POINTS: int := 720
  const MAX_LIVE_SERIES_POINTS: int := 1200
  const LIVE_POINT_INTERVAL_MS: int := 150

  datatype Point = Point(timestamp: int, price: real)

  ghost predicate Sorted(points: seq<Point>) {
    forall j, k :: 0 <= j <= k < |points| ==> points[j].timestamp <= points[k].timestamp
  }

  // ---------- sampling ----------

  /** JavaScript's `Math.round(index * step)` with `step` the exact quotient: halves round up. */
  function SampleIndex(n: int, maximum: int, index: int): int
    requires maximum >= 2
  {
    (2 * (index * (n - 1)) + (maximum - 1)) / (2 * (maximum - 1))
  }

  /** The sampled index is an integer nearest to the exact position. */
  lemma SampleIndexNearest(n: int, maximum: int, index: int)
    requires maximum >= 2
    ensures var position, width := index * (n - 1), maximum - 1; var k := SampleIndex(n, maximum, index);
            -width < 2 * (k * width - position) <= width
  {
    var position, width := index * (n - 1), maximum - 1;
    var k := SampleIndex(n, maximum, index);
    assert k * (2 * width) <= 2 * position + width < k * (2 * width) + 2 * width;
    assert k * (2 * width) == 2 * (k * width);
  }

  lemma SampleEnds(n: int, maximum: int)
    requires maximum >= 2
    ensures SampleIndex(n, maximum, 0) == 0 && SampleIndex(n, maximum, maximum - 1) == n - 1
  {
    var width := maximum - 1;
    HalfFloor(0, width);
    HalfFloor(n - 1, width);
    assert 0 * (n - 1) == 0 && width * (n - 1) == (n - 1) * width;
  }

  lemma HalfFloor(x: int, width: int)
    requires width > 0
    ensures (2 * (x * width) + width) / (2 * width) == x
  {
    var q, d := (2 * (x * width) + width) / (2 * width), 2 * width;
    assert x * d == 2 * (x * width) && (x + 1) * d == x * d + d && (q + 1) * d == q * d + d;
    assert q * d <= x * d + width < q * d + d;
    OrderByProduct(q, x + 1, d);
    OrderByProduct(x, q + 1, d);
  }

  /** With more points than slots, neighbouring slots take different points. */
  lemma SampleStep(n: int, maximum: int, index: int)
    requires 2 <= maximum <= n
    ensures SampleIndex(n, maximum, index) < SampleIndex(n, maximum, index + 1)
  {
    var width := maximum - 1;
    assert (index + 1) * (n - 1) == index * (n - 1) + (n - 1);
    FloorStep(2 * (index * (n - 1)) + width, 2 * ((index + 1) * (n - 1)) + width, 2 * width, 1);
  }

  lemma {:induction false} SampleOrder(n: int, maximum: int, i: int, j: int)
    requires 2 <= maximum <= n && i <= j
    ensures SampleIndex(n, maximum, i) + (j - i) <= SampleIndex(n, maximum, j)
    decreases j - i
  {
    if i < j {
      SampleOrder(n, maximum, i, j - 1);
      SampleStep(n, maximum, j - 1);
    }
  }

  lemma SampleInRange(n: int, maximum: int, index: int)
    requires 2 <= maximum <= n && 0 <= index < maximum
    ensures 0 <= SampleIndex(n, maximum, index) < n
  {
    SampleEnds(n, maximum);
    SampleOrder(n, maximum, 0, index);
    SampleOrder(n, maximum, index, maximum - 1);
  }

  /** `r` is `points` read at strictly increasing indices, the first and the last included. */
  ghost predicate IsIndexSample(points: seq<Point>, r: seq<Point>, indices: seq<int>) {
    && |indices| == |r|
    && (forall k :: 0 <= k < |r| ==> 0 <= indices[k] < |points| && r[k] == points[indices[k]])
    && (forall j, k :: 0 <= j < k < |r| ==> indices[j] < indices[k])
    && (points != [] ==> r != [] && indices[0] == 0 && indices[|r| - 1] == |points| - 1)
  }

  lemma IndicesRise(n: int, maximum: int, indices: seq<int>)
    requires 2 <= maximum <= n && |indices| == maximum
    requires forall k :: 0 <= k < maximum ==> indices[k] == SampleIndex(n, maximum, k)
    ensures forall k :: 0 <= k < maximum ==> 0 <= indices[k] < n
    ensures forall j, k :: 0 <= j < k < maximum ==> indices[j] < indices[k]
    ensures indices[0] == 0 && indices[maximum - 1] == n - 1
  {
    forall k | 0 <= k < maximum ensures 0 <= indices[k] < n {
      SampleInRange(n, maximum, k);
    }
    forall j, k | 0 <= j < k < maximum ensures indices[j] < indices[k] {
      SampleOrder(n, maximum, j, k);
    }
    SampleEnds(n, maximum);
  }

  function SampleIndices(n: int, maximum: int): (indices: seq<int>)
    requires 2 <= maximum <= n
    ensures |indices| == maximum && forall k :: 0 <= k < maximum ==> 0 <= indices[k] < n
    ensures forall j, k :: 0 <= j < k < maximum ==> indices[j] < indices[k]
    ensures indices[0] == 0 && indices[maximum - 1] == n - 1
  {
    var indices := seq(maximum, k => SampleIndex(n, maximum, k));
    IndicesRise(n, maximum, indices);
    indices
  }

  function Pick(points: seq<Point>, indices: seq<int>): seq<Point>
    requires forall k :: 0 <= k < |indices| ==> 0 <= indices[k] < |points|
  {
    seq(|indices|, k requires 0 <= k < |indices| => points[indices[k]])
  }

  function SamplePoints(points: seq<Point>, maximum: int): seq<Point>
    requires maximum >= 2
  {
    if |points| <= maximum then points else Pick(points, SampleIndices(|points|, maximum))
  }

  lemma PickIsIndexSample(points: seq<Point>, indices: seq<int>)
    requires indices != [] && indices[0] == 0 && indices[|indices| - 1] == |points| - 1
    requires forall k :: 0 <= k < |indices| ==> 0 <= indices[k] < |points|
    requires forall j, k :: 0 <= j < k < |indices| ==> indices[j] < indices[k]
    ensures IsIndexSample(points, Pick(points, indices), indices)
  {}

  /** Every point when they fit, and otherwise exactly `maximum` of them. */
  lemma SampleIsIndexSample(points: seq<Point>, maximum: int) returns (indices: seq<int>)
    requires maximum >= 2
    ensures IsIndexSample(points, SamplePoints(points, maximum), indices)
    ensures |SamplePoints(points, maximum)| == if |points| <= maximum then |points| else maximum
  {
    indices := if |points| <= maximum then seq(|points|, k => k) else SampleIndices(|points|, maximum);
    if |points| > maximum {
      PickIsIndexSample(points, indices);
    } else {
      AllPoints(points, indices);
    }
  }

  lemma AllPoints(points: seq<Point>, indices: seq<int>)
    requires |indices| == |points| && forall k :: 0 <= k < |points| ==> indices[k] == k
    ensures IsIndexSample(points, points, indices)
  {}

  lemma IndexSampleSorted(points: seq<Point>, r: seq<Point>, indices: seq<int>)
    requires Sorted(points) && IsIndexSample(points, r, indices)
    ensures Sorted(r)
  {
    forall j, k | 0 <= j <= k < |r| ensures r[j].timestamp <= r[k].timestamp {
      assert j < k ==> indices[j] < indices[k];
    }
  }

  // ---------- merging ----------

  function CapLiveSeries(points: seq<Point>): seq<Point> {
    if |points| <= MAX_LIVE_SERIES_POINTS then points else SamplePoints(points, MAX_DISPLAY_POINTS)
  }

  function MergeLivePoint(points: seq<Point>, incoming: Point): seq<Point> {
    if points == [] then [incoming]
    else
      var last := points[|points| - 1];
      if incoming.timestamp < last.timestamp then points
      else if incoming.timestamp - last.timestamp <= LIVE_POINT_INTERVAL_MS then points[..|points| - 1] + [incoming]
      else CapLiveSeries(points + [incoming])
  }

  function MergeAll(points: seq<Point>, stream: seq<Point>): seq<Point> {
    if stream == [] then points
    else MergeLivePoint(MergeAll(points, stream[..|stream| - 1]), stream[|stream| - 1])
  }

  ghost predicate Newest(points: seq<Point>, time: int) {
    points != [] && points[|points| - 1].timestamp == time
  }

  lemma CapKeeps(points: seq<Point>)
    requires Sorted(points)
    ensures var r := CapLiveSeries(points);
            && Sorted(r) && |r| <= MAX_LIVE_SERIES_POINTS && (forall p <- r :: p in points)
            && (points != [] ==> r != [] && r[0] == points[0] && r[|r| - 1] == points[|points| - 1])
  {
    if |points| > MAX_LIVE_SERIES_POINTS {
      var indices := SampleIsIndexSample(points, MAX_DISPLAY_POINTS);
      IndexSampleSorted(points, SamplePoints(points, MAX_DISPLAY_POINTS), indices);
    }
  }

  /** A series of 1200 points that gets one more becomes a sample of 720 of the 1201, both ends included. */
  lemma FullSeriesIsSampled(points: seq<Point>, incoming: Point) returns (indices: seq<int>)
    requires |points| == 1200 && incoming.timestamp - points[1199].timestamp > 150
    ensures var r := MergeLivePoint(points, incoming); |r| == 720 && IsIndexSample(points + [incoming], r, indices)
  {
    indices := SampleIsIndexSample(points + [incoming], MAX_DISPLAY_POINTS);
  }

  /** One point: the series stays sorted and bounded, and ends with the newest time known. */
  lemma MergeKeeps(points: seq<Point>, incoming: Point)
    requires Sorted(points) && |points| <= MAX_LIVE_SERIES_POINTS
    ensures var r := MergeLivePoint(points, incoming);
            && Sorted(r) && 0 < |r| <= MAX_LIVE_SERIES_POINTS
            && (forall p <- r :: p in points || p == incoming)
            && (if points == [] || points[|points| - 1].timestamp <= incoming.timestamp then r[|r| - 1] == incoming
                else r == points)
  {
    if points != [] && incoming.timestamp - points[|points| - 1].timestamp > LIVE_POINT_INTERVAL_MS {
      AppendSorted(points, incoming);
      CapKeeps(points + [incoming]);
    } else if points != [] && points[|points| - 1].timestamp <= incoming.timestamp {
      AppendSorted(points[..|points| - 1], incoming);
    }
  }

  lemma AppendSorted(points: seq<Point>, x: Point)
    requires Sorted(points) && (points != [] ==> points[|points| - 1].timestamp <= x.timestamp)
    ensures Sorted(points + [x])
  {}

  ghost predicate LiveSeries(r: seq<Point>) {
    Sorted(r) && |r| <= MAX_LIVE_SERIES_POINTS
  }

  /** Every point comes from `sources`, and the last is as new as any of them. */
  ghost predicate ShowsNewest(r: seq<Point>, sources: seq<Point>) {
    && (forall p <- r :: p in sources)
    && (forall p <- sources :: r != [] && p.timestamp <= r[|r| - 1].timestamp)
  }

  lemma MergeShowsNewest(r: seq<Point>, sources: seq<Point>, x: Point)
    requires LiveSeries(r) && ShowsNewest(r, sources)
    ensures LiveSeries(MergeLivePoint(r, x)) && ShowsNewest(MergeLivePoint(r, x), sources + [x])
  {
    MergeKeeps(r, x);
    forall p <- sources + [x] ensures p.timestamp <= MergeLivePoint(r, x)[|MergeLivePoint(r, x)| - 1].timestamp {
      assert p in sources || p == x;
    }
  }

  lemma SortedShowsNewest(points: seq<Point>)
    requires Sorted(points)
    ensures ShowsNewest(points, points)
  {
    forall p <- points ensures p.timestamp <= points[|points| - 1].timestamp {
      var k :| 0 <= k < |points| && points[k] == p;
    }
  }

  /** Any live stream, in any order, leaves a sorted series of at most 1200 points that ends with the newest time. */
  lemma {:induction false} StreamKeepsSeries(points: seq<Point>, stream: seq<Point>)
    requires LiveSeries(points)
    ensures LiveSeries(MergeAll(points, stream)) && ShowsNewest(MergeAll(points, stream), points + stream)
  {
    if stream == [] {
      SortedShowsNewest(points);
      assert points + stream == points;
    } else {
      var before, x := stream[..|stream| - 1], stream[|stream| - 1];
      assert points + stream == (points + before) + [x];
      StreamKeepsSeries(points, before);
      MergeShowsNewest(MergeAll(points, before), points + before, x);
    }
  }

  // ---------- how far a stream grows the series ----------

  function LastTime(points: seq<Point>): Option<int> {
    if points == [] then None else Some(points[|points| - 1].timestamp)
  }

  /** The newest time after a stream, `first` being the newest before it. */
  function RunningMaximum(first: Option<int>, stream: seq<Point>): Option<int> {
    if stream == [] then first
    else
      var before, time := RunningMaximum(first, stream[..|stream| - 1]), stream[|stream| - 1].timestamp;
      if before.None? || before.value <= time then Some(time) else before
  }

  /** A point adds to the series when it lies more than the interval after everything seen, or is the first. */
  predicate IsAdded(newest: Option<int>, time: int) {
    newest.None? || time - newest.value > 150
  }

  /** How many points of the stream add to the series. */
  function Additions(first: Option<int>, stream: seq<Point>): nat {
    if stream == [] then 0
    else
      var before := stream[..|stream| - 1];
      Additions(first, before)
      + (if IsAdded(RunningMaximum(first, before), stream[|stream| - 1].timestamp) then 1 else 0)
  }

  lemma MergeGrows(points: seq<Point>, x: Point)
    requires |points| + (if IsAdded(LastTime(points), x.timestamp) then 1 else 0) <= MAX_LIVE_SERIES_POINTS
    ensures |MergeLivePoint(points, x)| == |points| + (if IsAdded(LastTime(points), x.timestamp) then 1 else 0)
    ensures LastTime(MergeLivePoint(points, x)) ==
            if points == [] || points[|points| - 1].timestamp <= x.timestamp then Some(x.timestamp)
            else LastTime(points)
  {}

  /**
   While the series fits, a stream in any order grows it by exactly its points that lie more than
   150 ms after the running maximum: the interval is measured from the point last put in.
  */
  lemma {:induction false} StreamGrowth(points: seq<Point>, stream: seq<Point>)
    requires |points| + Additions(LastTime(points), stream) <= MAX_LIVE_SERIES_POINTS
    ensures |MergeAll(points, stream)| == |points| + Additions(LastTime(points), stream)
    ensures LastTime(MergeAll(points, stream)) == RunningMaximum(LastTime(points), stream)
  {
    if stream != [] {
      StreamGrowth(points, stream[..|stream| - 1]);
      MergeGrows(MergeAll(points, stream[..|stream| - 1]), stream[|stream| - 1]);
    }
  }

  /** No point of the stream is that far ahead of everything before it. */
  ghost predicate NoneAhead(first: Option<int>, stream: seq<Point>) {
    forall k :: 0 <= k < |stream| ==> !IsAdded(RunningMaximum(first, stream[..k]), stream[k].timestamp)
  }

  lemma NoneAheadAppend(first: Option<int>, stream: seq<Point>, x: Point)
    ensures NoneAhead(first, stream + [x]) <==>
            NoneAhead(first, stream) && !IsAdded(RunningMaximum(first, stream), x.timestamp)
  {
    var more, n := stream + [x], |stream|;
    assert more[..n] == stream && more[n] == x;
    forall k | 0 <= k < n
      ensures IsAdded(RunningMaximum(first, more[..k]), more[k].timestamp) <==>
              IsAdded(RunningMaximum(first, stream[..k]), stream[k].timestamp)
    {
      assert more[..k] == stream[..k];
    }
  }

  lemma {:induction false} NoAdditions(first: Option<int>, stream: seq<Point>)
    ensures Additions(first, stream) == 0 <==> NoneAhead(first, stream)
  {
    if stream != [] {
      var before, x := stream[..|stream| - 1], stream[|stream| - 1];
      assert before + [x] == stream;
      NoAdditions(first, before);
      NoneAheadAppend(first, before, x);
    }
  }

  /** A stream of any length adds no point exactly when none of its points is that far ahead. */
  lemma NeverGrowsExactly(points: seq<Point>, stream: seq<Point>)
    requires |points| + Additions(LastTime(points), stream) <= MAX_LIVE_SERIES_POINTS
    ensures |MergeAll(points, stream)| == |points| <==> NoneAhead(LastTime(points), stream)
  {
    StreamGrowth(points, stream);
    NoAdditions(LastTime(points), stream);
  }

  /** The series fits at least while every point of the stream would. */
  lemma {:induction false} AdditionsBounded(first: Option<int>, stream: seq<Point>)
    ensures Additions(first, stream) <= |stream|
  {
    if stream != [] { AdditionsBounded(first, stream[..|stream| - 1]); }
  }

  ghost predicate FastStream(stream: seq<Point>) {
    forall k :: 0 < k < |stream| ==> 0 <= stream[k].timestamp - stream[k - 1].timestamp <= LIVE_POINT_INTERVAL_MS
  }

  /** A stream whose every gap is at most 150 ms replaces one point for ever, whatever the series holds. */
  lemma {:induction false} FastStreamReplaces(points: seq<Point>, stream: seq<Point>)
    requires points != [] && stream != [] && FastStream([points[|points| - 1]] + stream)
    ensures MergeAll(points, stream) == points[..|points| - 1] + [stream[|stream| - 1]]
  {
    var n := |stream| - 1;
    var before, all := stream[..n], [points[|points| - 1]] + stream;
    assert all[n + 1] == stream[n];
    if before == [] {
      assert stream == [stream[0]] && all[1 - 1] == points[|points| - 1];
    } else {
      var shorter := [points[|points| - 1]] + before;
      assert forall k :: 0 <= k < |shorter| ==> shorter[k] == all[k];
      FastStreamReplaces(points, before);
      assert all[n + 1 - 1] == before[n - 1];
    }
  }

  // ---------- the nearest point ----------

  function Distance(a: int, b: int): int {
    if a >= b then a - b else b - a
  }

  /** Nearer to the target, or as near and not later. */
  predicate AtLeastAsNear(a: int, b: int, target: int) {
    Distance(a, target) < Distance(b, target) || (Distance(a, target) == Distance(b, target) && a <= b)
  }

  /** A nearest point, and of an earlier and a later one at the same distance the earlier. */
  ghost predicate IsNearest(points: seq<Point>, target: int, r: int) {
    && 0 <= r < |points|
    && (forall k :: 0 <= k < |points| ==> AtLeastAsNear(points[r].timestamp, points[k].timestamp, target))
  }

  /** The binary search for the hovered time; on an empty series the chart also answers 0. */
  method NearestIndexByTimestamp(points: seq<Point>, target: int) returns (r: int)
    ensures points == [] ==> r == 0
    ensures points != [] && Sorted(points) ==> IsNearest(points, target, r)
  {
    var low, high := 0, |points| - 1;
    while low < high
      invariant 0 <= low && (points != [] ==> low <= high < |points|) && (points == [] ==> low == 0)
      invariant Sorted(points) ==> forall k :: 0 <= k < low ==> points[k].timestamp < target
      invariant Sorted(points) && points != [] ==> forall k :: high < k < |points| ==> points[k].timestamp >= target
      invariant Sorted(points) && points != [] && high < |points| - 1 ==> points[high].timestamp >= target
    {
      var middle := (low + high) / 2;
      if points[middle].timestamp < target {
        low := middle + 1;
      } else {
        high := middle;
      }
    }
    if low == 0 {
      return low;
    }
    var previous := low - 1;
    r := if Distance(points[low].timestamp, target) < Distance(points[previous].timestamp, target)
      then low else previous;
  }
}
