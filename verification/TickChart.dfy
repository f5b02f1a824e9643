/**
 Largest-triangle-three-buckets down-sampling of a tick series. Widths and averages are exact
 rationals where the chart service uses floating point.
 */
module TickChart {
  import opened Division
  import opened MarketData

  /** The floor of `b` bucket widths, for `n` ticks and `m` points. */
  function Cut(n: int, m: int, b: int): int
    requires m >= 3
  {
    b * (n - 2) / (m - 2)
  }

  function LeastInt(a: int, b: int): int {
    if a <= b then a else b
  }

  function TimeSum(ticks: seq<Tick>): real {
    if ticks == [] then 0.0 else TimeSum(ticks[..|ticks| - 1]) + ticks[|ticks| - 1].timestamp as real
  }

  function PriceSum(ticks: seq<Tick>): real {
    if ticks == [] then 0.0 else PriceSum(ticks[..|ticks| - 1]) + ticks[|ticks| - 1].price
  }

  datatype Point = Point(time: real, price: real)

  function Average(ticks: seq<Tick>): Point
    requires ticks != []
  {
    Point(TimeSum(ticks) / |ticks| as real, PriceSum(ticks) / |ticks| as real)
  }

  /** Twice the area of the triangle of the previous pick, a candidate and the next average. */
  function Area(previous: Tick, candidate: Tick, next: Point): real {
    Abs((previous.timestamp as real - next.time) * (candidate.price - previous.price)
        - (previous.timestamp as real - candidate.timestamp as real) * (next.price - previous.price))
  }

  // ---------- the candidate ranges ----------

  lemma CutEnds(n: int, m: int)
    requires m >= 3
    ensures Cut(n, m, 0) == 0 && Cut(n, m, m - 2) == n - 2
  {
    ExactQuotient(n - 2, m - 2);
    assert (m - 2) * (n - 2) == (n - 2) * (m - 2);
  }

  /** With more ticks than points every bucket is at least one tick wide. */
  lemma CutStep(n: int, m: int, b: int)
    requires 3 <= m < n
    ensures Cut(n, m, b) + 1 <= Cut(n, m, b + 1)
  {
    assert (b + 1) * (n - 2) == b * (n - 2) + (n - 2);
    FloorStep(b * (n - 2), (b + 1) * (n - 2), m - 2, 1);
  }

  lemma {:induction false} CutOrder(n: int, m: int, b: int, c: int)
    requires 3 <= m < n && b <= c
    ensures Cut(n, m, b) + (c - b) <= Cut(n, m, c)
    decreases c - b
  {
    if b < c {
      CutOrder(n, m, b, c - 1);
      CutStep(n, m, c - 1);
    }
  }

  /** The candidates of bucket `b` are the indices from `First(b)` up to but excluding `First(b + 1)`. */
  function First(n: int, m: int, b: int): int
    requires m >= 3
  {
    Cut(n, m, b) + 1
  }

  /** No clamp and no fallback of the service ever takes effect. */
  lemma RangesAreTight(n: int, m: int, b: int)
    requires 3 <= m < n && 0 <= b < m - 2
    ensures 1 <= First(n, m, b) < First(n, m, b + 1) <= n - 1
    ensures LeastInt(First(n, m, b), n - 2) == First(n, m, b)
    ensures LeastInt(First(n, m, b + 1), n - 1) == First(n, m, b + 1)
    ensures First(n, m, b + 1) < LeastInt(First(n, m, b + 2), n)
  {
    CutEnds(n, m);
    CutOrder(n, m, 0, b);
    CutStep(n, m, b);
    CutStep(n, m, b + 1);
    CutOrder(n, m, b + 1, m - 2);
  }

  /** Every inner index is a candidate of exactly one bucket. */
  lemma {:induction false} RangesPartition(n: int, m: int, i: int, upTo: int) returns (b: int)
    requires 3 <= m < n && 0 < upTo <= m - 2 && 1 <= i < First(n, m, upTo)
    ensures 0 <= b < upTo && First(n, m, b) <= i < First(n, m, b + 1)
    ensures forall c :: 0 <= c < m - 2 && First(n, m, c) <= i < First(n, m, c + 1) ==> c == b
  {
    if First(n, m, upTo - 1) <= i {
      b := upTo - 1;
    } else {
      CutEnds(n, m);
      b := RangesPartition(n, m, i, upTo - 1);
    }
    forall c | 0 <= c < m - 2 && First(n, m, c) <= i < First(n, m, c + 1) ensures c == b {
      if c < b { CutOrder(n, m, c + 1, b); }
      if b < c { CutOrder(n, m, b + 1, c); }
    }
  }

  // ---------- specification ----------

  function NextAverage(ticks: seq<Tick>, m: int, b: int): Point
    requires 3 <= m < |ticks| && 0 <= b < m - 2
  {
    var n := |ticks|;
    RangesAreTight(n, m, b);
    Average(ticks[First(n, m, b + 1)..LeastInt(First(n, m, b + 2), n)])
  }

  /** `k` is the first index of greatest area in `[low, high)`. */
  ghost predicate FirstLargest(ticks: seq<Tick>, previous: int, next: Point, low: int, high: int, k: int)
    requires 0 <= low <= high <= |ticks| && 0 <= previous < |ticks|
  {
    && low <= k < high
    && (forall j :: low <= j < high ==> Area(ticks[previous], ticks[j], next) <= Area(ticks[previous], ticks[k], next))
    && (forall j :: low <= j < k ==> Area(ticks[previous], ticks[j], next) < Area(ticks[previous], ticks[k], next))
  }

  /** The first `count` buckets have contributed the right index each, after the first tick. */
  ghost predicate PicksSoFar(ticks: seq<Tick>, m: int, picks: seq<int>, count: int)
    requires 3 <= m < |ticks| && 0 <= count <= m - 2
  {
    && |picks| == count + 1 && picks[0] == 0
    && (forall k :: 0 < k <= count ==> PickedFrom(ticks, m, picks[k - 1], picks[k], k - 1))
  }

  ghost predicate PickedFrom(ticks: seq<Tick>, m: int, previous: int, k: int, b: int)
    requires 3 <= m < |ticks| && 0 <= b < m - 2
  {
    var n := |ticks|;
    RangesAreTight(n, m, b);
    0 <= previous < n && FirstLargest(ticks, previous, NextAverage(ticks, m, b), First(n, m, b), First(n, m, b + 1), k)
  }

  /** The indices of a complete sample: the first tick, one pick per bucket, the last tick. */
  ghost predicate IsSample(ticks: seq<Tick>, m: int, picks: seq<int>)
    requires 3 <= m < |ticks|
  {
    |picks| == m && picks[m - 1] == |ticks| - 1 && PicksSoFar(ticks, m, picks[..m - 1], m - 2)
  }

  function Select(ticks: seq<Tick>, picks: seq<int>): seq<Tick>
    requires forall k :: 0 <= k < |picks| ==> 0 <= picks[k] < |ticks|
  {
    seq(|picks|, k requires 0 <= k < |picks| => ticks[picks[k]])
  }

  lemma SelectAppend(ticks: seq<Tick>, picks: seq<int>, k: int)
    requires forall j :: 0 <= j < |picks| ==> 0 <= picks[j] < |ticks|
    requires 0 <= k < |ticks|
    ensures forall j :: 0 <= j < |picks + [k]| ==> 0 <= (picks + [k])[j] < |ticks|
    ensures Select(ticks, picks + [k]) == Select(ticks, picks) + [ticks[k]]
  {
  }

  // ---------- what is averaged and what is maximised ----------

  lemma MeanTimes(sum: real, n: nat)
    requires n > 0
    ensures sum / n as real * n as real == sum
  {}

  lemma SumsAppend(ticks: seq<Tick>, t: Tick)
    ensures TimeSum(ticks + [t]) == TimeSum(ticks) + t.timestamp as real
    ensures PriceSum(ticks + [t]) == PriceSum(ticks) + t.price
  {
    assert (ticks + [t])[..|ticks|] == ticks;
  }

  /** The average moves with each tick as a mean does, and a single tick is its own average. */
  lemma AverageAppend(ticks: seq<Tick>, t: Tick)
    ensures Average([t]) == Point(t.timestamp as real, t.price)
    ensures ticks != [] ==>
              var (n, before, after) := (|ticks|, Average(ticks), Average(ticks + [t]));
              && after.time * (n + 1) as real == before.time * n as real + t.timestamp as real
              && after.price * (n + 1) as real == before.price * n as real + t.price
  {
    assert [] + [t] == [t];
    SumsAppend([], t);
    SumsAppend(ticks, t);
    assert |ticks + [t]| == |ticks| + 1;
    if ticks != [] {
      MeanTimes(TimeSum(ticks), |ticks|);
      MeanTimes(PriceSum(ticks), |ticks|);
    }
    MeanTimes(TimeSum(ticks) + t.timestamp as real, |ticks| + 1);
    MeanTimes(PriceSum(ticks) + t.price, |ticks| + 1);
  }

  lemma SignedArea(dt: real, dp: real, width: real, slope: real)
    ensures -width * dp - -dt * (slope * width) == -(width * (dp - slope * dt))
  {}

  lemma AbsProduct(a: real, b: real)
    ensures Abs(-(a * b)) == Abs(a) * Abs(b)
  {}

  /**
   The area is the vertical distance of the candidate from the line through the previous pick and the
   next average, times the width of that line: the pick is the candidate farthest from the line.
  */
  lemma AreaIsDistance(previous: Tick, candidate: Tick, next: Point, width: real, slope: real, dt: real)
    requires width == next.time - previous.timestamp as real && next.price - previous.price == slope * width
    requires dt == candidate.timestamp as real - previous.timestamp as real
    ensures Area(previous, candidate, next) == Abs(width) * Abs(candidate.price - (previous.price + slope * dt))
  {
    SignedArea(dt, candidate.price - previous.price, width, slope);
    AbsProduct(width, candidate.price - previous.price - slope * dt);
  }

  /** The average before the last bucket is that of the next bucket's candidates, and then the last tick. */
  lemma NextAverageIs(ticks: seq<Tick>, m: int, b: int)
    requires 3 <= m < |ticks| && 0 <= b < m - 2
    ensures var n := |ticks|;
            && 0 <= First(n, m, b + 1) && (b < m - 3 ==> First(n, m, b + 1) < First(n, m, b + 2) <= n)
            && NextAverage(ticks, m, b) ==
               (if b < m - 3 then Average(ticks[First(n, m, b + 1)..First(n, m, b + 2)]) else Average([ticks[n - 1]]))
  {
    var n := |ticks|;
    RangesAreTight(n, m, b);
    if b < m - 3 {
      RangesAreTight(n, m, b + 1);
    } else {
      CutEnds(n, m);
      CutStep(n, m, m - 2);
      assert ticks[n - 1..n] == [ticks[n - 1]];
    }
  }

  /** The candidate ranges are as even as whole ticks allow: no two widths differ by more than one. */
  lemma WidthsAreEven(n: int, m: int, b: int, c: int)
    requires 3 <= m < n && 0 <= b < m - 2 && 0 <= c < m - 2
    ensures var width := (k: int) => First(n, m, k + 1) - First(n, m, k); width(b) <= width(c) + 1
  {
    WidthNear(n, m, b);
    WidthNear(n, m, c);
  }

  /** A bucket starts after the whole ticks that fit before it. */
  lemma FirstIsFloor(n: int, m: int, b: int)
    requires 3 <= m < n
    ensures (First(n, m, b) - 1) * (m - 2) <= b * (n - 2) < First(n, m, b) * (m - 2)
  {
    FloorWithin(b * (n - 2), m - 2, Cut(n, m, b));
  }

  lemma WidthNear(n: int, m: int, b: int)
    requires 3 <= m < n
    ensures (n - 2) / (m - 2) <= First(n, m, b + 1) - First(n, m, b) <= (n - 2) / (m - 2) + 1
  {
    assert (b + 1) * (n - 2) == b * (n - 2) + (n - 2);
    FloorSum(b * (n - 2), n - 2, m - 2);
  }

  // ---------- what a sample looks like ----------

  /** A pick lies after the picks of earlier buckets and before those of later ones. */
  lemma PickInRange(ticks: seq<Tick>, m: int, previous: int, k: int, b: int)
    requires 3 <= m < |ticks| && 0 <= b < m - 2 && PickedFrom(ticks, m, previous, k, b)
    ensures Cut(|ticks|, m, b) < k <= Cut(|ticks|, m, b + 1)
  {
  }

  lemma PickUnique(ticks: seq<Tick>, m: int, previous: int, j: int, k: int, b: int)
    requires 3 <= m < |ticks| && 0 <= b < m - 2
    requires PickedFrom(ticks, m, previous, j, b) && PickedFrom(ticks, m, previous, k, b)
    ensures j == k
  {
    RangesAreTight(|ticks|, m, b);
    FirstLargestUnique(ticks, previous, NextAverage(ticks, m, b), First(|ticks|, m, b), First(|ticks|, m, b + 1), j, k);
  }

  lemma FirstLargestUnique(ticks: seq<Tick>, previous: int, next: Point, low: int, high: int, j: int, k: int)
    requires 0 <= low <= high <= |ticks| && 0 <= previous < |ticks|
    requires FirstLargest(ticks, previous, next, low, high, j) && FirstLargest(ticks, previous, next, low, high, k)
    ensures j == k
  {
    var a, b := Area(ticks[previous], ticks[j], next), Area(ticks[previous], ticks[k], next);
    assert a <= b && b <= a;
  }

  lemma {:induction false} PicksIncrease(ticks: seq<Tick>, m: int, picks: seq<int>, count: int)
    requires 3 <= m < |ticks| && 0 <= count <= m - 2 && PicksSoFar(ticks, m, picks, count)
    ensures forall k :: 0 <= k < |picks| ==> 0 <= picks[k] <= Cut(|ticks|, m, count)
    ensures forall j, k :: 0 <= j < k < |picks| ==> picks[j] < picks[k]
  {
    if count == 0 {
      CutEnds(|ticks|, m);
    } else {
      assert PicksSoFar(ticks, m, picks[..count], count - 1);
      PicksIncrease(ticks, m, picks[..count], count - 1);
      PickInRange(ticks, m, picks[count - 1], picks[count], count - 1);
      IncreaseByLast(picks, picks[..count], Cut(|ticks|, m, count - 1));
      CutStep(|ticks|, m, count - 1);
    }
  }

  lemma IncreaseByLast(s: seq<int>, init: seq<int>, bound: int)
    requires |s| > 0 && init == s[..|s| - 1] && bound < s[|s| - 1]
    requires forall k :: 0 <= k < |init| ==> init[k] <= bound
    requires forall j, k :: 0 <= j < k < |init| ==> init[j] < init[k]
    ensures forall j, k :: 0 <= j < k < |s| ==> s[j] < s[k]
  {
    forall j | 0 <= j < |init| ensures s[j] == init[j] {}
  }

  /** A sample has strictly increasing indices and keeps both endpoints. */
  lemma SampleIncreases(ticks: seq<Tick>, m: int, picks: seq<int>)
    requires 3 <= m < |ticks| && IsSample(ticks, m, picks)
    ensures |picks| == m && picks[0] == 0 && picks[m - 1] == |ticks| - 1
    ensures forall j, k :: 0 <= j < k < m ==> 0 <= picks[j] < picks[k] < |ticks|
  {
    CutEnds(|ticks|, m);
    PicksIncrease(ticks, m, picks[..m - 1], m - 2);
    IncreaseByLast(picks, picks[..m - 1], |ticks| - 2);
    assert picks[..m - 1][0] == picks[0] && forall k :: 0 <= k < m - 1 ==> picks[k] == picks[..m - 1][k];
  }

  /** The specification has one solution. */
  lemma {:induction false} PicksUnique(ticks: seq<Tick>, m: int, p: seq<int>, q: seq<int>, count: int)
    requires 3 <= m < |ticks| && 0 <= count <= m - 2
    requires PicksSoFar(ticks, m, p, count) && PicksSoFar(ticks, m, q, count)
    ensures p == q
  {
    if count > 0 {
      PicksUnique(ticks, m, p[..count], q[..count], count - 1);
      SameInit(p, q, count);
      PickUnique(ticks, m, p[count - 1], p[count], q[count], count - 1);
    }
  }

  lemma SameInit(p: seq<int>, q: seq<int>, count: int)
    requires count > 0 && |p| == |q| == count + 1 && p[..count] == q[..count]
    ensures p[count - 1] == q[count - 1]
    ensures p[count] == q[count] ==> p == q
  {
    assert p[count - 1] == p[..count][count - 1] && q[count - 1] == q[..count][count - 1];
    assert p == p[..count] + [p[count]] && q == q[..count] + [q[count]];
  }

  /** So the sample a call returns is determined by its input. */
  lemma SampleUnique(ticks: seq<Tick>, m: int, p: seq<int>, q: seq<int>)
    requires 3 <= m < |ticks| && IsSample(ticks, m, p) && IsSample(ticks, m, q)
    ensures p == q
  {
    PicksUnique(ticks, m, p[..m - 1], q[..m - 1], m - 2);
    assert p == p[..m - 1] + [p[m - 1]] && q == q[..m - 1] + [q[m - 1]];
  }

  lemma PicksExtend(ticks: seq<Tick>, m: int, picks: seq<int>, count: int, k: int)
    requires 3 <= m < |ticks| && 0 <= count < m - 2
    requires PicksSoFar(ticks, m, picks, count) && PickedFrom(ticks, m, picks[count], k, count)
    ensures PicksSoFar(ticks, m, picks + [k], count + 1)
  {
    var more := picks + [k];
    forall j | 0 < j <= count + 1 ensures PickedFrom(ticks, m, more[j - 1], more[j], j - 1) {
      if j <= count { assert more[j - 1] == picks[j - 1] && more[j] == picks[j]; }
    }
  }

  // ---------- the service's loops ----------

  /** The inner loop: the first candidate of greatest area. */
  method FindLargest(ticks: seq<Tick>, previous: int, next: Point, low: int, high: int) returns (chosen: int)
    requires 0 <= low < high <= |ticks| && 0 <= previous < |ticks|
    ensures FirstLargest(ticks, previous, next, low, high, chosen)
  {
    var largest := -1.0;
    chosen := low;
    for i := low to high
      invariant i == low ==> chosen == low && largest == -1.0
      invariant i > low ==> FirstLargest(ticks, previous, next, low, i, chosen)
                            && largest == Area(ticks[previous], ticks[chosen], next)
    {
      var area := Area(ticks[previous], ticks[i], next);
      if area > largest {
        largest := area;
        chosen := i;
      }
    }
  }

  /** One bucket of the outer loop. */
  method PickBucket(ticks: seq<Tick>, m: int, previous: int, b: int) returns (chosen: int)
    requires 3 <= m < |ticks| && 0 <= b < m - 2 && 0 <= previous < |ticks|
    ensures 0 <= chosen < |ticks| && PickedFrom(ticks, m, previous, chosen, b)
  {
    var n := |ticks|;
    RangesAreTight(n, m, b);
    var averageStart := LeastInt(Cut(n, m, b + 1) + 1, n - 1);
    var averageEnd := LeastInt(Cut(n, m, b + 2) + 1, n);
    var bucket, last := ticks[averageStart..averageEnd], ticks[n - 1];
    if bucket == [] {
      bucket := [last];
    }
    var next := Average(bucket);
    assert next == NextAverage(ticks, m, b);
    var candidateStart := LeastInt(Cut(n, m, b) + 1, n - 2);
    var candidateEnd := LeastInt(Cut(n, m, b + 1) + 1, n - 1);
    if candidateEnd <= candidateStart {
      candidateEnd := candidateStart + 1;
    }
    chosen := FindLargest(ticks, previous, next, candidateStart, candidateEnd);
  }

  /** None where the service raises; `picks` are the chosen indices when there are too many ticks. */
  method DownsampleTicks(ticks: seq<Tick>, maxPoints: int) returns (r: Option<seq<Tick>>, ghost picks: seq<int>)
    ensures r.None? <==> maxPoints < 3
    ensures maxPoints >= 3 && |ticks| <= maxPoints ==> r == Some(ticks)
    ensures 3 <= maxPoints < |ticks| ==>
              && IsSample(ticks, maxPoints, picks)
              && (forall k :: 0 <= k < |picks| ==> 0 <= picks[k] < |ticks|)
              && r == Some(Select(ticks, picks))
  {
    picks := [];
    if maxPoints < 3 {
      return None, picks;
    }
    if |ticks| <= maxPoints {
      return Some(ticks), picks;
    }
    var selected := [ticks[0]];
    var previous := 0;
    picks := [0];
    for b := 0 to maxPoints - 2
      invariant PicksSoFar(ticks, maxPoints, picks, b)
      invariant forall k :: 0 <= k < |picks| ==> 0 <= picks[k] < |ticks|
      invariant selected == Select(ticks, picks) && previous == picks[b]
    {
      var chosen := PickBucket(ticks, maxPoints, previous, b);
      selected := selected + [ticks[chosen]];
      PicksExtend(ticks, maxPoints, picks, b, chosen);
      SelectAppend(ticks, picks, chosen);
      picks := picks + [chosen];
      previous := chosen;
    }
    selected := selected + [ticks[|ticks| - 1]];
    SelectAppend(ticks, picks, |ticks| - 1);
    assert IsSample(ticks, maxPoints, picks + [|ticks| - 1]) by {
      assert (picks + [|ticks| - 1])[..maxPoints - 1] == picks;
    }
    picks := picks + [|ticks| - 1];
    r := Some(selected);
  }
}
