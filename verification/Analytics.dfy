/**
 Realised performance over closed outcomes: statistics, the one-pass maximum drawdown, and
 the grouping into reporting periods. Period keys are any function of an outcome.
 */
module Analytics {
  import opened MarketData
  import opened Sequences
  import opened OutcomeStore
  import opened KeyOrder
  import opened StableSort

  // ---------- the drawdown, stated over all pairs of points ----------

  /** The loss from the `i`-th to the `j`-th point of the equity curve; point 0 is the start. */
  function Drop(pnls: seq<real>, i: int, j: int): real
    requires 0 <= i <= j <= |pnls|
  {
    Sum(pnls[..i]) - Sum(pnls[..j])
  }

  ghost predicate IsLargestDrop(d: real, pnls: seq<real>) {
    && (forall i, j :: 0 <= i <= j <= |pnls| ==> Drop(pnls, i, j) <= d)
    && (exists i, j :: 0 <= i <= j <= |pnls| && Drop(pnls, i, j) == d)
  }

  lemma LargestDropUnique(d: real, e: real, pnls: seq<real>)
    requires IsLargestDrop(d, pnls) && IsLargestDrop(e, pnls)
    ensures d == e
  {
    var i, j :| 0 <= i <= j <= |pnls| && Drop(pnls, i, j) == d;
    var k, l :| 0 <= k <= l <= |pnls| && Drop(pnls, k, l) == e;
  }

  // ---------- what the single pass computes ----------

  /** The highest point reached, measured from the start. */
  function Peak(pnls: seq<real>): real {
    if pnls == [] then 0.0 else Max(Peak(pnls[..|pnls| - 1]), Sum(pnls))
  }

  function Drawdown(pnls: seq<real>): real {
    Peak(pnls) - Sum(pnls)
  }

  function MaxDrawdown(pnls: seq<real>): real {
    if pnls == [] then 0.0 else Max(MaxDrawdown(pnls[..|pnls| - 1]), Drawdown(pnls))
  }

  lemma {:induction false} PeakIsHighest(pnls: seq<real>)
    ensures forall i :: 0 <= i <= |pnls| ==> Sum(pnls[..i]) <= Peak(pnls)
    ensures exists i :: 0 <= i <= |pnls| && Sum(pnls[..i]) == Peak(pnls)
  {
    var n := |pnls|;
    assert pnls[..n] == pnls;
    if n > 0 {
      var init := pnls[..n - 1];
      PeakIsHighest(init);
      assert forall i :: 0 <= i <= n - 1 ==> init[..i] == pnls[..i];
      var i :| 0 <= i <= n - 1 && Sum(init[..i]) == Peak(init);
      assert Sum(pnls[..if Peak(init) >= Sum(pnls) then i else n]) == Peak(pnls);
    }
  }

  /** The single pass finds the largest loss between any two points, in order, of the curve. */
  lemma {:induction false} MaxDrawdownIsLargest(pnls: seq<real>)
    ensures IsLargestDrop(MaxDrawdown(pnls), pnls)
  {
    var n := |pnls|;
    if n == 0 {
      assert Drop(pnls, 0, 0) == 0.0;
    } else {
      var init := pnls[..n - 1];
      MaxDrawdownIsLargest(init);
      assert forall i, j :: 0 <= i <= j <= n - 1 ==> Drop(pnls, i, j) == Drop(init, i, j) by {
        assert forall i :: 0 <= i <= n - 1 ==> init[..i] == pnls[..i];
      }
      LastDrops(pnls);
      var i, j :| 0 <= i <= j <= n - 1 && Drop(init, i, j) == MaxDrawdown(init);
      assert Drop(pnls, i, j) == MaxDrawdown(init);
    }
  }

  lemma LastDrops(pnls: seq<real>)
    ensures forall i :: 0 <= i <= |pnls| ==> Drop(pnls, i, |pnls|) <= Drawdown(pnls)
    ensures exists i :: 0 <= i <= |pnls| && Drop(pnls, i, |pnls|) == Drawdown(pnls)
  {
    PeakIsHighest(pnls);
    assert pnls[..|pnls|] == pnls;
    var i :| 0 <= i <= |pnls| && Sum(pnls[..i]) == Peak(pnls);
    assert Drop(pnls, i, |pnls|) == Drawdown(pnls);
  }

  function Pnls(outcomes: seq<Outcome>): (r: seq<real>)
    ensures |r| == |outcomes|
  {
    seq(|outcomes|, k requires 0 <= k < |outcomes| => RealizedPnl(outcomes[k]))
  }

  function Share(loss: real, peak: real): real
    requires peak > 0.0
  {
    loss / peak
  }

  /** The fraction belongs to the first point at which the largest loss is reached. */
  ghost predicate IsFraction(start: real, pnls: seq<real>, fraction: real) {
    exists j :: FirstWorst(pnls, j) && start + Peak(pnls[..j]) > 0.0
                && fraction == Share(MaxDrawdown(pnls), start + Peak(pnls[..j]))
  }

  ghost predicate FirstWorst(pnls: seq<real>, j: int) {
    && 0 <= j <= |pnls| && Drawdown(pnls[..j]) == MaxDrawdown(pnls)
    && (forall k :: 0 <= k < j ==> Drawdown(pnls[..k]) < MaxDrawdown(pnls))
  }

  /** The variables of the single pass after the results `done`; `worst` is where the largest loss was first reached. */
  ghost predicate DrawdownState(start: real, done: seq<real>, equity: real, peak: real, drawdown: real, fraction: real,
                                worst: int, worstPeak: real)
  {
    && equity == start + Sum(done) && peak == start + Peak(done) && peak >= start > 0.0
    && drawdown == MaxDrawdown(done) && FirstWorst(done, worst)
    && worstPeak == start + Peak(done[..worst]) && worstPeak > 0.0 && fraction == Share(drawdown, worstPeak)
  }

  /** `_maximum_drawdown`: the amount does not depend on the starting equity. */
  method MaximumDrawdown(start: real, pnls: seq<real>) returns (drawdown: real, fraction: real)
    requires start > 0.0
    ensures IsLargestDrop(drawdown, pnls)
    ensures IsFraction(start, pnls, fraction)
  {
    var equity, peak := start, start;
    drawdown, fraction := 0.0, 0.0;
    ghost var worst, worstPeak := 0, start;
    DrawdownStart(start);
    for n := 0 to |pnls|
      invariant DrawdownState(start, pnls[..n], equity, peak, drawdown, fraction, worst, worstPeak)
    {
      assert pnls[..n + 1] == pnls[..n] + [pnls[n]];
      DrawdownStep(start, pnls[..n], pnls[n], equity, peak, drawdown, fraction, worst, worstPeak);
      equity := equity + pnls[n];
      peak := Max(peak, equity);
      var current := peak - equity;
      if current > drawdown {
        drawdown := current;
        fraction := Share(current, peak);
        worst, worstPeak := n + 1, peak;
      }
    }
    assert pnls[..|pnls|] == pnls;
    DrawdownEnd(start, pnls, equity, peak, drawdown, fraction, worst, worstPeak);
  }

  lemma DrawdownEnd(start: real, pnls: seq<real>, equity: real, peak: real, drawdown: real, fraction: real,
                    worst: int, worstPeak: real)
    requires DrawdownState(start, pnls, equity, peak, drawdown, fraction, worst, worstPeak)
    ensures IsLargestDrop(drawdown, pnls) && IsFraction(start, pnls, fraction)
  {
    MaxDrawdownIsLargest(pnls);
  }

  lemma DrawdownStart(start: real)
    requires start > 0.0
    ensures DrawdownState(start, [], start, start, 0.0, 0.0, 0, start)
  {
    assert Drawdown([]) == 0.0;
  }

  lemma DrawdownStep(start: real, done: seq<real>, pnl: real, equity: real, peak: real, drawdown: real, fraction: real,
                     worst: int, worstPeak: real)
    requires DrawdownState(start, done, equity, peak, drawdown, fraction, worst, worstPeak)
    ensures var newPeak := Max(peak, equity + pnl); var current := newPeak - (equity + pnl);
            && newPeak > 0.0
            && (if current > drawdown then
                  DrawdownState(start, done + [pnl], equity + pnl, newPeak, current, Share(current, newPeak),
                                |done| + 1, newPeak)
                else DrawdownState(start, done + [pnl], equity + pnl, newPeak, drawdown, fraction, worst, worstPeak))
  {
    var more := done + [pnl];
    PrefixStep(done, pnl);
    WorstStep(done, pnl, worst);
    assert more[..worst] == done[..worst] && more[..|done| + 1] == more;
  }

  lemma PrefixStep(done: seq<real>, pnl: real)
    ensures Sum(done + [pnl]) == Sum(done) + pnl
    ensures Peak(done + [pnl]) == Max(Peak(done), Sum(done + [pnl]))
    ensures MaxDrawdown(done + [pnl]) == Max(MaxDrawdown(done), Drawdown(done + [pnl]))
  {
    assert (done + [pnl])[..|done|] == done;
  }

  lemma WorstStep(done: seq<real>, pnl: real, worst: int)
    requires FirstWorst(done, worst)
    ensures Drawdown(done + [pnl]) > MaxDrawdown(done) ==> FirstWorst(done + [pnl], |done| + 1)
    ensures Drawdown(done + [pnl]) <= MaxDrawdown(done) ==> FirstWorst(done + [pnl], worst)
  {
    var more := done + [pnl];
    PrefixStep(done, pnl);
    assert more[..|done| + 1] == more;
    forall k | 0 <= k <= |done| ensures more[..k] == done[..k] && Drawdown(more[..k]) <= MaxDrawdown(done) {
      PrefixDrawdown(done, k);
    }
  }

  lemma {:induction false} PrefixDrawdown(pnls: seq<real>, k: int)
    requires 0 <= k <= |pnls|
    ensures Drawdown(pnls[..k]) <= MaxDrawdown(pnls)
  {
    if k < |pnls| {
      assert pnls[..|pnls| - 1][..k] == pnls[..k];
      PrefixDrawdown(pnls[..|pnls| - 1], k);
    } else {
      assert pnls[..k] == pnls;
    }
  }

  // ---------- when the reported fraction is the largest ----------

  lemma PeakNonNegative(pnls: seq<real>)
    ensures Peak(pnls) >= 0.0
  {
    PeakIsHighest(pnls);
    assert Sum(pnls[..0]) == 0.0;
  }

  /** The drawdown at point `k`, as a share of the peak before it. */
  function FractionAt(start: real, pnls: seq<real>, k: int): real
    requires start > 0.0 && 0 <= k <= |pnls|
  {
    PeakNonNegative(pnls[..k]);
    Share(Drawdown(pnls[..k]), start + Peak(pnls[..k]))
  }

  ghost predicate IsLargestFraction(start: real, pnls: seq<real>, fraction: real)
    requires start > 0.0
  {
    forall k :: 0 <= k <= |pnls| ==> FractionAt(start, pnls, k) <= fraction
  }

  lemma FractionIs(start: real, pnls: seq<real>, fraction: real, j: int)
    requires start > 0.0 && FirstWorst(pnls, j)
    ensures IsFraction(start, pnls, fraction) <==> fraction == FractionAt(start, pnls, j)
  {
    PeakNonNegative(pnls[..j]);
    if IsFraction(start, pnls, fraction) {
      var i :| FirstWorst(pnls, i) && start + Peak(pnls[..i]) > 0.0
               && fraction == Share(MaxDrawdown(pnls), start + Peak(pnls[..i]));
      assert i == j;
    }
  }

  lemma ShareOrder(a: real, b: real, c: real, d: real)
    requires b > 0.0 && d > 0.0
    ensures Share(a, b) <= Share(c, d) <==> a * d <= c * b
  {
    var x, y := Share(a, b), Share(c, d);
    assert x * b == a && y * d == c;
    var scale := b * d;
    assert scale > 0.0 && a * d == x * scale && c * b == y * scale;
    if x <= y { assert (y - x) * scale >= 0.0; } else { ScaleUp(y, x, scale); }
  }

  lemma ScaleUp(x: real, y: real, scale: real)
    requires x < y && scale > 0.0
    ensures x * scale < y * scale
  {}

  /** A loss `d` after the peak `p` against the largest loss `m` after the peak `q`. */
  predicate Outweighed(d: real, p: real, m: real, q: real) {
    d * q <= m * p
  }

  lemma OutweighedLater(d: real, p: real, m: real, q: real, start: real)
    requires d <= m && Outweighed(d, p, m, q) && start > 0.0
    ensures Outweighed(d, start + p, m, start + q)
  {
    assert d * (start + q) == d * start + d * q && m * (start + p) == m * start + m * p;
    assert (m - d) * start >= 0.0;
  }

  /** A small enough starting equity lets the larger share show. */
  lemma NotOutweighedSooner(d: real, p: real, m: real, q: real) returns (start: real)
    requires d <= m && !Outweighed(d, p, m, q)
    ensures start > 0.0 && !Outweighed(d, start + p, m, start + q)
  {
    var excess, rest := d * q - m * p, m - d;
    start := if rest == 0.0 then 1.0 else excess / (2.0 * rest);
    SmallStart(excess, rest, start);
    assert d * (start + q) == d * start + d * q && m * (start + p) == m * start + m * p;
    assert rest * start == m * start - d * start;
  }

  lemma SmallStart(excess: real, rest: real, start: real)
    requires excess > 0.0 && rest >= 0.0 && start == if rest == 0.0 then 1.0 else excess / (2.0 * rest)
    ensures start > 0.0 && rest * start < excess
  {
    if rest > 0.0 {
      var twice := 2.0 * rest;
      assert start * twice == excess;
      assert start > 0.0;
      assert rest * start == excess / 2.0;
    }
  }

  /** The drawdown at `k` does not outweigh the largest one, reached at `j`. */
  predicate OutweighedAt(pnls: seq<real>, j: int, k: int)
    requires 0 <= j <= |pnls| && 0 <= k <= |pnls|
  {
    Outweighed(Drawdown(pnls[..k]), Peak(pnls[..k]), MaxDrawdown(pnls), Peak(pnls[..j]))
  }

  lemma ShareLater(d: real, p: real, m: real, q: real, start: real)
    requires d <= m && p >= 0.0 && q >= 0.0 && start > 0.0 && Outweighed(d, p, m, q)
    ensures Share(d, start + p) <= Share(m, start + q)
  {
    OutweighedLater(d, p, m, q, start);
    ShareOrder(d, start + p, m, start + q);
  }

  lemma ShareSooner(d: real, p: real, m: real, q: real) returns (start: real)
    requires d <= m && p >= 0.0 && q >= 0.0 && !Outweighed(d, p, m, q)
    ensures start > 0.0 && Share(d, start + p) > Share(m, start + q)
  {
    start := NotOutweighedSooner(d, p, m, q);
    ShareOrder(d, start + p, m, start + q);
  }

  lemma DrawdownsAt(pnls: seq<real>, j: int, k: int) returns (d: real, p: real, m: real, q: real)
    requires FirstWorst(pnls, j) && 0 <= k <= |pnls|
    ensures d <= m && p >= 0.0 && q >= 0.0 && (OutweighedAt(pnls, j, k) <==> Outweighed(d, p, m, q))
    ensures forall start :: start > 0.0 ==>
              FractionAt(start, pnls, k) == Share(d, start + p) && FractionAt(start, pnls, j) == Share(m, start + q)
  {
    PeakNonNegative(pnls[..j]);
    PeakNonNegative(pnls[..k]);
    PrefixDrawdown(pnls, k);
    d, p, m, q := Drawdown(pnls[..k]), Peak(pnls[..k]), MaxDrawdown(pnls), Peak(pnls[..j]);
  }

  lemma NeverLarger(start: real, pnls: seq<real>, j: int, k: int)
    requires start > 0.0 && FirstWorst(pnls, j) && 0 <= k <= |pnls| && OutweighedAt(pnls, j, k)
    ensures FractionAt(start, pnls, k) <= FractionAt(start, pnls, j)
  {
    var d, p, m, q := DrawdownsAt(pnls, j, k);
    ShareLater(d, p, m, q, start);
  }

  lemma SometimesLarger(pnls: seq<real>, j: int, k: int) returns (start: real)
    requires FirstWorst(pnls, j) && 0 <= k <= |pnls| && !OutweighedAt(pnls, j, k)
    ensures start > 0.0 && FractionAt(start, pnls, k) > FractionAt(start, pnls, j)
  {
    var d, p, m, q := DrawdownsAt(pnls, j, k);
    start := ShareSooner(d, p, m, q);
  }

  /**
   The reported fraction is the largest one for every starting equity exactly when no drawdown, weighed
   with the peak before the largest one, exceeds the largest weighed with its own peak.
  */
  lemma FractionLargestExactly(pnls: seq<real>, j: int)
    requires FirstWorst(pnls, j)
    ensures (forall start, fraction :: start > 0.0 && IsFraction(start, pnls, fraction) ==>
               IsLargestFraction(start, pnls, fraction)) <==>
            (forall k :: 0 <= k <= |pnls| ==> OutweighedAt(pnls, j, k))
  {
    if forall k :: 0 <= k <= |pnls| ==> OutweighedAt(pnls, j, k) {
      forall start, fraction | start > 0.0 && IsFraction(start, pnls, fraction)
        ensures IsLargestFraction(start, pnls, fraction)
      {
        FractionIs(start, pnls, fraction, j);
        forall k | 0 <= k <= |pnls| ensures FractionAt(start, pnls, k) <= fraction {
          NeverLarger(start, pnls, j, k);
        }
      }
    } else {
      var k :| 0 <= k <= |pnls| && !OutweighedAt(pnls, j, k);
      var start := SometimesLarger(pnls, j, k);
      FractionIs(start, pnls, FractionAt(start, pnls, j), j);
      assert !IsLargestFraction(start, pnls, FractionAt(start, pnls, j));
    }
  }

  /** There is such a point in every history. */
  lemma {:induction false} FirstWorstExists(pnls: seq<real>) returns (j: int)
    ensures FirstWorst(pnls, j)
  {
    if pnls == [] {
      j := 0;
    } else {
      var done, pnl := pnls[..|pnls| - 1], pnls[|pnls| - 1];
      assert done + [pnl] == pnls;
      j := FirstWorstExists(done);
      WorstStep(done, pnl, j);
      if Drawdown(pnls) > MaxDrawdown(done) { j := |pnls|; }
    }
  }

  lemma SegmentSum(pnls: seq<real>, a: int, b: int, k: int)
    requires 0 <= a <= b <= |pnls| && 0 <= k <= b - a
    ensures Sum(pnls[..a + k]) == Sum(pnls[..a]) + Sum(pnls[a..b][..k])
  {
    assert pnls[a..b][..k] == pnls[a..a + k];
    assert pnls[..a] + pnls[a..a + k] == pnls[..a + k];
    SumConcat(pnls[..a], pnls[a..a + k]);
  }

  /** A stretch of the curve never loses more than the whole curve. */
  lemma SegmentDrawdown(pnls: seq<real>, a: int, b: int)
    requires 0 <= a <= b <= |pnls|
    ensures MaxDrawdown(pnls[a..b]) <= MaxDrawdown(pnls)
  {
    var part := pnls[a..b];
    MaxDrawdownIsLargest(part);
    var i, j :| 0 <= i <= j <= |part| && Drop(part, i, j) == MaxDrawdown(part);
    SegmentSum(pnls, a, b, i);
    SegmentSum(pnls, a, b, j);
    assert Drop(pnls, a + i, a + j) == Drop(part, i, j);
    MaxDrawdownIsLargest(pnls);
  }

  // ---------- statistics ----------

  datatype Statistics = Statistics(
    total: int, winning: int, losing: int, winRate: Option<real>, profitFactor: Option<real>,
    expectancy: Option<real>, maximumDrawdown: real, drawdownFraction: real)

  function Gains(outcomes: seq<Outcome>): seq<real> {
    if outcomes == [] then []
    else
      var p := RealizedPnl(outcomes[|outcomes| - 1]);
      Gains(outcomes[..|outcomes| - 1]) + (if p > 0.0 then [p] else [])
  }

  function Losses(outcomes: seq<Outcome>): seq<real> {
    if outcomes == [] then []
    else
      var p := RealizedPnl(outcomes[|outcomes| - 1]);
      Losses(outcomes[..|outcomes| - 1]) + (if p < 0.0 then [p] else [])
  }

  function Ratio(a: real, b: real): Option<real> {
    if b == 0.0 then None else Some(a / b)
  }

  ghost predicate IsStatistics(s: Statistics, start: real, outcomes: seq<Outcome>) {
    && IsTally(s, outcomes)
    && IsLargestDrop(s.maximumDrawdown, Pnls(outcomes))
    && IsFraction(start, Pnls(outcomes), s.drawdownFraction)
  }

  ghost predicate IsTally(s: Statistics, outcomes: seq<Outcome>) {
    var gains, losses := Gains(outcomes), Losses(outcomes);
    && s.total == |outcomes| && s.winning == |gains| && s.losing == |losses|
    && s.winRate == Ratio(|gains| as real, (|gains| + |losses|) as real)
    && s.profitFactor == Ratio(Sum(gains), Abs(Sum(losses)))
    && s.expectancy == Ratio(Sum(Pnls(outcomes)), |outcomes| as real)
  }

  method ComputeStatistics(start: real, outcomes: seq<Outcome>) returns (s: Statistics)
    requires start > 0.0
    ensures IsStatistics(s, start, outcomes)
  {
    var gains, losses := Gains(outcomes), Losses(outcomes);
    var drawdown, fraction := MaximumDrawdown(start, Pnls(outcomes));
    s := Statistics(
      |outcomes|, |gains|, |losses|,
      Ratio(|gains| as real, (|gains| + |losses|) as real), Ratio(Sum(gains), Abs(Sum(losses))),
      Ratio(Sum(Pnls(outcomes)), |outcomes| as real), drawdown, fraction);
  }

  // ---------- periods ----------

  datatype Period = Period(key: int, statistics: Statistics)

  ghost predicate Ascending(keys: seq<int>) {
    forall j, k :: 0 <= j < k < |keys| ==> keys[j] < keys[k]
  }

  ghost predicate CoversAll(outcomes: seq<Outcome>, key: Outcome -> int, keys: seq<int>) {
    forall o <- outcomes :: key(o) in keys
  }

  function KeysOf(periods: seq<Period>): (r: seq<int>)
    ensures |r| == |periods|
  {
    seq(|periods|, k requires 0 <= k < |periods| => periods[k].key)
  }

  /** One entry per period that has an outcome, in key order, over exactly its outcomes. */
  ghost predicate ArePeriods(periods: seq<Period>, start: real, outcomes: seq<Outcome>, key: Outcome -> int) {
    && Ascending(KeysOf(periods)) && CoversAll(outcomes, key, KeysOf(periods))
    && (forall p <- periods :: IsPeriod(p, start, outcomes, key))
  }

  ghost predicate IsPeriod(p: Period, start: real, outcomes: seq<Outcome>, key: Outcome -> int) {
    WithKey(outcomes, key, p.key) != [] && IsStatistics(p.statistics, start, WithKey(outcomes, key, p.key))
  }

  /** The dictionary holds, for each key seen, the outcomes of that key. */
  ghost predicate IsGroupedBy(grouped: map<int, seq<Outcome>>, outcomes: seq<Outcome>, key: Outcome -> int) {
    && (forall v <- grouped :: grouped[v] == WithKey(outcomes, key, v) && grouped[v] != [])
    && (forall v :: v !in grouped ==> WithKey(outcomes, key, v) == [])
  }

  lemma {:induction false} WithKeyHas(outcomes: seq<Outcome>, key: Outcome -> int, o: Outcome)
    requires o in outcomes
    ensures o in WithKey(outcomes, key, key(o))
  {
    var n := |outcomes| - 1;
    if o != outcomes[n] { WithKeyHas(outcomes[..n], key, o); }
  }

  lemma NothingGrouped(key: Outcome -> int)
    ensures IsGroupedBy(map[], [], key)
  {}

  lemma GroupOneMore(grouped: map<int, seq<Outcome>>, outcomes: seq<Outcome>, key: Outcome -> int, o: Outcome)
    requires IsGroupedBy(grouped, outcomes, key)
    ensures var v := key(o);
            IsGroupedBy(grouped[v := (if v in grouped then grouped[v] else []) + [o]], outcomes + [o], key)
  {
    var v := key(o);
    var more := grouped[v := (if v in grouped then grouped[v] else []) + [o]];
    forall u <- more ensures more[u] == WithKey(outcomes + [o], key, u) && more[u] != [] {
      WithKeyMore(outcomes, o, key, u);
    }
    forall u | u !in more ensures WithKey(outcomes + [o], key, u) == [] {
      WithKeyMore(outcomes, o, key, u);
    }
  }

  lemma WithKeyMore(outcomes: seq<Outcome>, o: Outcome, key: Outcome -> int, u: int)
    ensures WithKey(outcomes + [o], key, u) ==
            if key(o) == u then WithKey(outcomes, key, u) + [o] else WithKey(outcomes, key, u)
  {
    WithKeyAppend(outcomes, o, key, u);
    assert WithKey(outcomes, key, u) + [] == WithKey(outcomes, key, u);
  }

  /** The dictionary of lists the snapshot builds. */
  method GroupByKey(outcomes: seq<Outcome>, key: Outcome -> int) returns (grouped: map<int, seq<Outcome>>)
    ensures IsGroupedBy(grouped, outcomes, key)
  {
    grouped := map[];
    ghost var done := [];
    NothingGrouped(key);
    for n := 0 to |outcomes|
      invariant done == outcomes[..n] && IsGroupedBy(grouped, done, key)
    {
      var o := outcomes[n];
      var v := key(o);
      GroupOneMore(grouped, done, key, o);
      grouped := grouped[v := (if v in grouped then grouped[v] else []) + [o]];
      done := done + [o];
    }
    assert outcomes[..|outcomes|] == outcomes;
  }

  method PeriodStatistics(start: real, outcomes: seq<Outcome>, key: Outcome -> int) returns (periods: seq<Period>)
    requires start > 0.0
    ensures ArePeriods(periods, start, outcomes, key)
  {
    var grouped := GroupByKey(outcomes, key);
    var keys := SortedKeys(grouped.Keys);
    periods := [];
    for n := 0 to |keys|
      invariant |periods| == n
      invariant forall k :: 0 <= k < n ==> periods[k].key == keys[k] && IsPeriod(periods[k], start, outcomes, key)
    {
      assert keys[n] in keys;
      var p := OnePeriod(start, outcomes, key, keys[n], grouped[keys[n]]);
      periods := periods + [p];
    }
    KeysCover(grouped, outcomes, key, keys);
    assert KeysOf(periods) == keys;
  }

  method OnePeriod(start: real, ghost outcomes: seq<Outcome>, ghost key: Outcome -> int, v: int, own: seq<Outcome>)
    returns (p: Period)
    requires start > 0.0 && own == WithKey(outcomes, key, v) && own != []
    ensures p.key == v && IsPeriod(p, start, outcomes, key)
  {
    var s := ComputeStatistics(start, own);
    p := Period(v, s);
  }

  lemma KeysCover(grouped: map<int, seq<Outcome>>, outcomes: seq<Outcome>, key: Outcome -> int, keys: seq<int>)
    requires IsGroupedBy(grouped, outcomes, key) && forall k :: k in keys <==> k in grouped.Keys
    ensures CoversAll(outcomes, key, keys)
  {
    forall o <- outcomes ensures key(o) in keys {
      WithKeyHas(outcomes, key, o);
      assert key(o) in grouped;
      assert key(o) in grouped.Keys;
    }
  }

  // ---------- the periods add up, whatever the key ----------

  function Total(outcomes: seq<Outcome>, weight: Outcome -> real): real {
    if outcomes == [] then 0.0
    else Total(outcomes[..|outcomes| - 1], weight) + weight(outcomes[|outcomes| - 1])
  }

  function PeriodTotal(outcomes: seq<Outcome>, key: Outcome -> int, keys: seq<int>, weight: Outcome -> real): real {
    if keys == [] then 0.0
    else
      PeriodTotal(outcomes, key, keys[..|keys| - 1], weight)
      + Total(WithKey(outcomes, key, keys[|keys| - 1]), weight)
  }

  lemma TotalAppend(outcomes: seq<Outcome>, o: Outcome, weight: Outcome -> real)
    ensures Total(outcomes + [o], weight) == Total(outcomes, weight) + weight(o)
  {
    assert (outcomes + [o])[..|outcomes|] == outcomes;
  }

  lemma WithKeyTotal(outcomes: seq<Outcome>, o: Outcome, key: Outcome -> int, v: int, weight: Outcome -> real)
    ensures Total(WithKey(outcomes + [o], key, v), weight)
         == Total(WithKey(outcomes, key, v), weight) + (if key(o) == v then weight(o) else 0.0)
  {
    WithKeyAppend(outcomes, o, key, v);
    if key(o) == v {
      TotalAppend(WithKey(outcomes, key, v), o, weight);
    } else {
      assert WithKey(outcomes + [o], key, v) == WithKey(outcomes, key, v);
    }
  }

  lemma {:induction false} PeriodTotalAppend(outcomes: seq<Outcome>, o: Outcome, key: Outcome -> int, keys: seq<int>,
                                             weight: Outcome -> real)
    requires Ascending(keys)
    ensures PeriodTotal(outcomes + [o], key, keys, weight)
         == PeriodTotal(outcomes, key, keys, weight) + (if key(o) in keys then weight(o) else 0.0)
  {
    if keys != [] {
      var n := |keys| - 1;
      PeriodTotalAppend(outcomes, o, key, keys[..n], weight);
      WithKeyTotal(outcomes, o, key, keys[n], weight);
      assert key(o) in keys <==> key(o) in keys[..n] || key(o) == keys[n];
    }
  }

  lemma {:induction false} NoTotals(key: Outcome -> int, keys: seq<int>, weight: Outcome -> real)
    ensures PeriodTotal([], key, keys, weight) == 0.0
  {
    if keys != [] { NoTotals(key, keys[..|keys| - 1], weight); }
  }

  lemma {:induction false} TotalsPartition(outcomes: seq<Outcome>, key: Outcome -> int, keys: seq<int>,
      weight: Outcome -> real)
    requires Ascending(keys) && CoversAll(outcomes, key, keys)
    ensures PeriodTotal(outcomes, key, keys, weight) == Total(outcomes, weight)
  {
    if outcomes == [] {
      NoTotals(key, keys, weight);
    } else {
      var before, o := outcomes[..|outcomes| - 1], outcomes[|outcomes| - 1];
      assert before + [o] == outcomes && o in outcomes;
      assert forall x <- before :: x in outcomes;
      TotalsPartition(before, key, keys, weight);
      PeriodTotalAppend(before, o, key, keys, weight);
    }
  }

  /** A figure added over the periods. */
  function Added(periods: seq<Period>, figure: Statistics -> real): real {
    if periods == [] then 0.0 else Added(periods[..|periods| - 1], figure) + figure(periods[|periods| - 1].statistics)
  }

  lemma {:induction false} AddedIsTotal(periods: seq<Period>, outcomes: seq<Outcome>, key: Outcome -> int,
                                        figure: Statistics -> real, weight: Outcome -> real)
    requires forall p <- periods :: figure(p.statistics) == Total(WithKey(outcomes, key, p.key), weight)
    ensures Added(periods, figure) == PeriodTotal(outcomes, key, KeysOf(periods), weight)
  {
    if periods != [] {
      var n := |periods| - 1;
      assert periods[n] in periods && forall p <- periods[..n] :: p in periods;
      AddedIsTotal(periods[..n], outcomes, key, figure, weight);
      assert KeysOf(periods)[..n] == KeysOf(periods[..n]);
    }
  }

  function Signals(s: Statistics): real { s.total as real }

  function Wins(s: Statistics): real { s.winning as real }

  function Defeats(s: Statistics): real { s.losing as real }

  /** The realised result behind an expectancy. */
  function Profit(s: Statistics): real {
    if s.expectancy.None? then 0.0 else s.expectancy.value * s.total as real
  }

  function One(o: Outcome): real { 1.0 }

  function IsWin(o: Outcome): real { if RealizedPnl(o) > 0.0 then 1.0 else 0.0 }

  function IsDefeat(o: Outcome): real { if RealizedPnl(o) < 0.0 then 1.0 else 0.0 }

  lemma {:induction false} CountsAreTotals(outcomes: seq<Outcome>)
    ensures |outcomes| as real == Total(outcomes, One)
    ensures |Gains(outcomes)| as real == Total(outcomes, IsWin)
    ensures |Losses(outcomes)| as real == Total(outcomes, IsDefeat)
    ensures Sum(Pnls(outcomes)) == Total(outcomes, RealizedPnl)
  {
    if outcomes != [] {
      var init := outcomes[..|outcomes| - 1];
      CountsAreTotals(init);
      assert Pnls(outcomes)[..|init|] == Pnls(init);
    }
  }

  lemma QuotientTimes(a: real, b: real)
    requires b != 0.0
    ensures Ratio(a, b).Some? && Ratio(a, b).value * b == a
  {}

  /** What a trade won and what it lost; at most one of them is not zero. */
  function Gain(o: Outcome): real { Max(0.0, RealizedPnl(o)) }

  function Loss(o: Outcome): real { Max(0.0, -RealizedPnl(o)) }

  lemma SumMaybe(s: seq<real>, x: real, more: bool)
    ensures Sum(s + (if more then [x] else [])) == Sum(s) + (if more then x else 0.0)
  {
    SumAppend(s, x);
    assert s + [] == s;
  }

  lemma {:induction false} SumsAreTotals(outcomes: seq<Outcome>)
    ensures Sum(Gains(outcomes)) == Total(outcomes, Gain) >= 0.0
    ensures Sum(Losses(outcomes)) == -Total(outcomes, Loss) <= 0.0
    ensures Sum(Pnls(outcomes)) == Total(outcomes, Gain) - Total(outcomes, Loss)
  {
    if outcomes != [] {
      var init, p := outcomes[..|outcomes| - 1], RealizedPnl(outcomes[|outcomes| - 1]);
      SumsAreTotals(init);
      SumMaybe(Gains(init), p, p > 0.0);
      SumMaybe(Losses(init), p, p < 0.0);
      assert Pnls(outcomes) == Pnls(init) + [p];
      SumAppend(Pnls(init), p);
    }
  }

  /** The quotient, missing exactly when it would divide by zero. */
  predicate IsRatio(r: Option<real>, a: real, b: real) {
    (r.None? <==> b == 0.0) && (r.Some? ==> r.value * b == a)
  }

  lemma RatioIs(r: Option<real>, a: real, b: real)
    requires r == Ratio(a, b)
    ensures IsRatio(r, a, b)
  {
    if b != 0.0 { QuotientTimes(a, b); }
  }

  /** Wins and defeats are the trades with a gain and with a loss; the win rate leaves trades without either out. */
  lemma RateMeans(s: Statistics, outcomes: seq<Outcome>, wins: real, defeats: real)
    requires IsTally(s, outcomes) && wins == Total(outcomes, IsWin) && defeats == Total(outcomes, IsDefeat)
    ensures s.winning as real == wins && s.losing as real == defeats && IsRatio(s.winRate, wins, wins + defeats)
  {
    CountsAreTotals(outcomes);
    RatioIs(s.winRate, wins, wins + defeats);
  }

  /** The profit factor is the ratio of all gains to all losses, whose difference is the realised result. */
  lemma FactorMeans(s: Statistics, outcomes: seq<Outcome>, gain: real, loss: real)
    requires IsTally(s, outcomes) && gain == Total(outcomes, Gain) && loss == Total(outcomes, Loss)
    ensures Sum(Pnls(outcomes)) == gain - loss && IsRatio(s.profitFactor, gain, loss)
  {
    SumsAreTotals(outcomes);
    RatioIs(s.profitFactor, gain, loss);
  }

  /** The expectancy is the realised result of a trade on average. */
  lemma ExpectancyMeans(s: Statistics, outcomes: seq<Outcome>, result: real, count: real)
    requires IsTally(s, outcomes) && result == Sum(Pnls(outcomes)) && count == |outcomes| as real
    ensures s.total as real == count && IsRatio(s.expectancy, result, count)
  {
    RatioIs(s.expectancy, result, count);
  }

  lemma ProfitIs(s: Statistics, sum: real)
    requires s.expectancy == Ratio(sum, s.total as real) && (s.total == 0 ==> sum == 0.0)
    ensures Profit(s) == sum
  {
    if s.total != 0 { QuotientTimes(sum, s.total as real); }
  }

  lemma FiguresAreTotals(s: Statistics, outcomes: seq<Outcome>)
    requires IsTally(s, outcomes)
    ensures Signals(s) == Total(outcomes, One) && Wins(s) == Total(outcomes, IsWin)
    ensures Defeats(s) == Total(outcomes, IsDefeat) && Profit(s) == Total(outcomes, RealizedPnl)
  {
    CountsAreTotals(outcomes);
    ProfitIs(s, Sum(Pnls(outcomes)));
  }

  /** For any period key at all, counts and realised results of the periods add up to the overall ones. */
  lemma PeriodsAddUp(periods: seq<Period>, overall: Statistics, start: real, outcomes: seq<Outcome>,
      key: Outcome -> int)
    requires ArePeriods(periods, start, outcomes, key) && IsStatistics(overall, start, outcomes)
    ensures Added(periods, Signals) == overall.total as real
    ensures Added(periods, Wins) == overall.winning as real && Added(periods, Defeats) == overall.losing as real
    ensures Added(periods, Profit) == Profit(overall) == Sum(Pnls(outcomes))
  {
    forall p <- periods
      ensures Signals(p.statistics) == Total(WithKey(outcomes, key, p.key), One)
      ensures Wins(p.statistics) == Total(WithKey(outcomes, key, p.key), IsWin)
      ensures Defeats(p.statistics) == Total(WithKey(outcomes, key, p.key), IsDefeat)
      ensures Profit(p.statistics) == Total(WithKey(outcomes, key, p.key), RealizedPnl)
    {
      FiguresAreTotals(p.statistics, WithKey(outcomes, key, p.key));
    }
    AddedIsTotal(periods, outcomes, key, Signals, One);
    AddedIsTotal(periods, outcomes, key, Wins, IsWin);
    AddedIsTotal(periods, outcomes, key, Defeats, IsDefeat);
    AddedIsTotal(periods, outcomes, key, Profit, RealizedPnl);
    TotalsPartition(outcomes, key, KeysOf(periods), One);
    TotalsPartition(outcomes, key, KeysOf(periods), IsWin);
    TotalsPartition(outcomes, key, KeysOf(periods), IsDefeat);
    TotalsPartition(outcomes, key, KeysOf(periods), RealizedPnl);
    FiguresAreTotals(overall, outcomes);
    CountsAreTotals(outcomes);
  }

  // ---------- periods as stretches of the history ----------

  /** An outcome of another key lies between two of one key. */
  ghost predicate Interleaved(outcomes: seq<Outcome>, key: Outcome -> int) {
    exists i, j, k :: SeparatedAt(outcomes, key, i, j, k)
  }

  predicate SeparatedAt(outcomes: seq<Outcome>, key: Outcome -> int, i: int, j: int, k: int) {
    0 <= i < j < k < |outcomes| && key(outcomes[i]) == key(outcomes[k]) != key(outcomes[j])
  }

  lemma SortedIsNotInterleaved(outcomes: seq<Outcome>, key: Outcome -> int)
    requires SortedBy(outcomes, key)
    ensures !Interleaved(outcomes, key)
  {}

  ghost predicate IsStretch(outcomes: seq<Outcome>, key: Outcome -> int, v: int, a: int, b: int) {
    && 0 <= a <= b <= |outcomes| && WithKey(outcomes, key, v) == outcomes[a..b]
    && (forall k :: a <= k < b ==> key(outcomes[k]) == v)
    && (forall k :: 0 <= k < a || b <= k < |outcomes| ==> key(outcomes[k]) != v)
  }

  lemma StretchOther(outcomes: seq<Outcome>, o: Outcome, key: Outcome -> int, v: int, a: int, b: int)
    requires IsStretch(outcomes, key, v, a, b) && key(o) != v
    ensures IsStretch(outcomes + [o], key, v, a, b)
  {
    var more := outcomes + [o];
    WithKeyMore(outcomes, o, key, v);
    assert more[a..b] == outcomes[a..b];
    forall k | 0 <= k < |more| && (k < a || b <= k) ensures key(more[k]) != v {
      assert k < |outcomes| ==> more[k] == outcomes[k];
    }
  }

  lemma StretchOpens(outcomes: seq<Outcome>, o: Outcome, key: Outcome -> int, v: int, a: int)
    requires IsStretch(outcomes, key, v, a, a) && key(o) == v
    ensures IsStretch(outcomes + [o], key, v, |outcomes|, |outcomes| + 1)
  {
    WithKeyMore(outcomes, o, key, v);
    assert (outcomes + [o])[|outcomes|..|outcomes| + 1] == [o];
  }

  lemma StretchGrows(outcomes: seq<Outcome>, o: Outcome, key: Outcome -> int, v: int, a: int, b: int)
    requires IsStretch(outcomes, key, v, a, b) && key(o) == v && a < b && !Interleaved(outcomes + [o], key)
    ensures IsStretch(outcomes + [o], key, v, a, |outcomes| + 1)
  {
    var more, n := outcomes + [o], |outcomes|;
    assert b < n ==> SeparatedAt(more, key, a, b, n);
    WithKeyMore(outcomes, o, key, v);
    assert outcomes[a..n] + [o] == more[a..n + 1];
  }

  lemma InterleavedRemains(outcomes: seq<Outcome>, o: Outcome, key: Outcome -> int)
    ensures Interleaved(outcomes, key) ==> Interleaved(outcomes + [o], key)
  {
    if Interleaved(outcomes, key) {
      var i, j, k :| SeparatedAt(outcomes, key, i, j, k);
      assert SeparatedAt(outcomes + [o], key, i, j, k);
    }
  }

  /** The outcomes of one key are a stretch of the sequence. */
  lemma {:induction false} KeyIsStretch(outcomes: seq<Outcome>, key: Outcome -> int, v: int) returns (a: int, b: int)
    requires !Interleaved(outcomes, key)
    ensures IsStretch(outcomes, key, v, a, b)
  {
    if outcomes == [] {
      a, b := 0, 0;
    } else {
      var before, o := outcomes[..|outcomes| - 1], outcomes[|outcomes| - 1];
      assert before + [o] == outcomes;
      InterleavedRemains(before, o, key);
      a, b := KeyIsStretch(before, key, v);
      if key(o) != v {
        StretchOther(before, o, key, v, a, b);
      } else if a == b {
        StretchOpens(before, o, key, v, a);
        a, b := |before|, |outcomes|;
      } else {
        StretchGrows(before, o, key, v, a, b);
        b := |outcomes|;
      }
    }
  }

  function Joined(outcomes: seq<Outcome>, key: Outcome -> int, keys: seq<int>): seq<Outcome> {
    if keys == [] then []
    else Joined(outcomes, key, keys[..|keys| - 1]) + WithKey(outcomes, key, keys[|keys| - 1])
  }

  lemma {:induction false} JoinedNothing(key: Outcome -> int, keys: seq<int>)
    ensures Joined([], key, keys) == []
  {
    if keys != [] { JoinedNothing(key, keys[..|keys| - 1]); }
  }

  lemma {:induction false} JoinedOther(outcomes: seq<Outcome>, o: Outcome, key: Outcome -> int, keys: seq<int>)
    requires key(o) !in keys
    ensures Joined(outcomes + [o], key, keys) == Joined(outcomes, key, keys)
  {
    if keys != [] {
      WithKeyAppend(outcomes, o, key, keys[|keys| - 1]);
      JoinedOther(outcomes, o, key, keys[..|keys| - 1]);
    }
  }

  lemma {:induction false} NoneAbove(outcomes: seq<Outcome>, key: Outcome -> int, v: int)
    requires forall o <- outcomes :: key(o) < v
    ensures WithKey(outcomes, key, v) == []
  {
    if outcomes != [] { NoneAbove(outcomes[..|outcomes| - 1], key, v); }
  }

  lemma JoinedMore(outcomes: seq<Outcome>, key: Outcome -> int, keys: seq<int>, v: int)
    ensures Joined(outcomes, key, keys + [v]) == Joined(outcomes, key, keys) + WithKey(outcomes, key, v)
  {
    assert (keys + [v])[..|keys|] == keys;
  }

  lemma AscendingInit(keys: seq<int>, v: int)
    requires Ascending(keys + [v])
    ensures Ascending(keys) && forall k <- keys :: k < v
  {
    var all := keys + [v];
    assert all[|keys|] == v && forall j :: 0 <= j < |keys| ==> all[j] == keys[j];
  }

  lemma {:induction false} JoinedAppend(outcomes: seq<Outcome>, o: Outcome, key: Outcome -> int, keys: seq<int>)
    requires Ascending(keys) && key(o) in keys && forall x <- outcomes :: key(x) <= key(o)
    ensures Joined(outcomes + [o], key, keys) == Joined(outcomes, key, keys) + [o]
  {
    var front, v := keys[..|keys| - 1], keys[|keys| - 1];
    assert front + [v] == keys;
    AscendingInit(front, v);
    JoinedMore(outcomes, key, front, v);
    JoinedMore(outcomes + [o], key, front, v);
    WithKeyAppend(outcomes, o, key, v);
    if v == key(o) {
      JoinedOther(outcomes, o, key, front);
      Regroup(Joined(outcomes, key, front), WithKey(outcomes, key, v), o);
    } else {
      JoinedAppend(outcomes, o, key, front);
      NoneAbove(outcomes, key, v);
      Regroup(Joined(outcomes, key, front), [], o);
    }
  }

  lemma Regroup<T>(a: seq<T>, b: seq<T>, x: T)
    ensures a + (b + [x]) == (a + b) + [x]
    ensures b == [] ==> (a + [x]) + (b + []) == (a + b) + [x]
  {}

  /** Laid end to end in key order, the periods are the whole history. */
  lemma {:induction false} PeriodsAreContiguous(outcomes: seq<Outcome>, key: Outcome -> int, keys: seq<int>)
    requires SortedBy(outcomes, key) && Ascending(keys) && CoversAll(outcomes, key, keys)
    ensures Joined(outcomes, key, keys) == outcomes
  {
    if outcomes == [] {
      JoinedNothing(key, keys);
    } else {
      var before, o := outcomes[..|outcomes| - 1], outcomes[|outcomes| - 1];
      assert before + [o] == outcomes && o in outcomes;
      assert forall x <- before :: x in outcomes;
      PeriodsAreContiguous(before, key, keys);
      JoinedAppend(before, o, key, keys);
    }
  }

  lemma DrawdownOf(s: Statistics, start: real, outcomes: seq<Outcome>)
    requires IsStatistics(s, start, outcomes)
    ensures s.maximumDrawdown == MaxDrawdown(Pnls(outcomes))
  {
    MaxDrawdownIsLargest(Pnls(outcomes));
    LargestDropUnique(s.maximumDrawdown, MaxDrawdown(Pnls(outcomes)), Pnls(outcomes));
  }

  lemma StretchDrawdown(outcomes: seq<Outcome>, key: Outcome -> int, v: int)
    requires !Interleaved(outcomes, key)
    ensures MaxDrawdown(Pnls(WithKey(outcomes, key, v))) <= MaxDrawdown(Pnls(outcomes))
  {
    var a, b := KeyIsStretch(outcomes, key, v);
    assert Pnls(outcomes[a..b]) == Pnls(outcomes)[a..b];
    SegmentDrawdown(Pnls(outcomes), a, b);
  }

  /** When no key is interleaved with another, no period reports a larger drawdown than the whole. */
  lemma PeriodDrawdownBounded(periods: seq<Period>, overall: Statistics, start: real, outcomes: seq<Outcome>,
                              key: Outcome -> int)
    requires ArePeriods(periods, start, outcomes, key) && IsStatistics(overall, start, outcomes)
    requires !Interleaved(outcomes, key)
    ensures forall p <- periods :: p.statistics.maximumDrawdown <= overall.maximumDrawdown
  {
    forall p <- periods ensures p.statistics.maximumDrawdown <= overall.maximumDrawdown {
      assert IsPeriod(p, start, outcomes, key);
      StretchDrawdown(outcomes, key, p.key);
      DrawdownOf(overall, start, outcomes);
      DrawdownOf(p.statistics, start, WithKey(outcomes, key, p.key));
    }
  }

  // ---------- exactly which period keys keep the bound ----------

  /** A key read off the close time alone, as every reporting period is. */
  function OfTime(keyOf: int -> int): Outcome -> int {
    (o: Outcome) => keyOf(o.closedAt)
  }

  ghost predicate TimesInterleaved(times: seq<int>, keyOf: int -> int) {
    exists i, j, k :: 0 <= i < j < k < |times| && keyOf(times[i]) == keyOf(times[k]) != keyOf(times[j])
  }

  /** Real trades, closed at these times in this order. */
  ghost predicate IsHistory(outcomes: seq<Outcome>, times: seq<int>) {
    && |outcomes| == |times|
    && (forall k :: 0 <= k < |times| ==>
          && outcomes[k].closedAt == times[k] && outcomes[k].direction in {Buy, Sell}
          && outcomes[k].entryPrice > 0.0 && outcomes[k].exitPrice > 0.0 && outcomes[k].size >= 1)
  }

  /** No period of the history loses more than the whole history. */
  ghost predicate PeriodsBounded(outcomes: seq<Outcome>, key: Outcome -> int) {
    forall v :: MaxDrawdown(Pnls(WithKey(outcomes, key, v))) <= MaxDrawdown(Pnls(outcomes))
  }

  /** Ten lost, ten won back, ten lost again, and nothing in between. */
  function Pulse(n: int, i: int, j: int, k: int): real {
    if n == i || n == k then -10.0 else if n == j then 10.0 else 0.0
  }

  function PulseHistory(times: seq<int>, i: int, j: int, k: int): (outcomes: seq<Outcome>)
    ensures IsHistory(outcomes, times)
    ensures forall n :: 0 <= n < |times| ==> RealizedPnl(outcomes[n]) == Pulse(n, i, j, k)
  {
    seq(|times|, n requires 0 <= n < |times| => Outcome("", Buy, 100.0, 100.0 + Pulse(n, i, j, k), 1, times[n]))
  }

  ghost predicate IsPulse(outcomes: seq<Outcome>, i: int, j: int, k: int) {
    forall m :: 0 <= m < |outcomes| ==> RealizedPnl(outcomes[m]) == Pulse(m, i, j, k)
  }

  /** The whole curve only ever stands at zero or at minus ten. */
  lemma {:induction false} PulseCurve(outcomes: seq<Outcome>, i: int, j: int, k: int, n: int)
    requires 0 <= i < j < k < |outcomes| && 0 <= n <= |outcomes| && IsPulse(outcomes, i, j, k)
    ensures Sum(Pnls(outcomes[..n])) == if i < n <= j || k < n then -10.0 else 0.0
  {
    if n > 0 {
      PulseCurve(outcomes, i, j, k, n - 1);
      assert outcomes[..n] == outcomes[..n - 1] + [outcomes[n - 1]];
      PnlsAppend(outcomes[..n - 1], outcomes[n - 1]);
    }
  }

  /** The period without the gain between ends twenty down. */
  lemma {:induction false} PulsePeriod(outcomes: seq<Outcome>, key: Outcome -> int, v: int, i: int, j: int, k: int,
      n: int)
    requires 0 <= i < j < k < |outcomes| && 0 <= n <= |outcomes| && IsPulse(outcomes, i, j, k)
    requires key(outcomes[i]) == key(outcomes[k]) == v != key(outcomes[j])
    ensures Sum(Pnls(WithKey(outcomes[..n], key, v))) == if n <= i then 0.0 else if n <= k then -10.0 else -20.0
  {
    if n > 0 {
      var o, pulse := outcomes[n - 1], Pulse(n - 1, i, j, k);
      PulsePeriod(outcomes, key, v, i, j, k, n - 1);
      assert outcomes[..n] == outcomes[..n - 1] + [o];
      assert RealizedPnl(o) == pulse;
      OwnSum(outcomes[..n - 1], o, key, v, pulse);
      PulseCounts(key(o) == v, n, i, j, k);
    }
  }

  lemma PulseCounts(own: bool, n: int, i: int, j: int, k: int)
    requires 0 <= i < j < k && 0 < n
    requires (n == i + 1 || n == k + 1 ==> own) && (n == j + 1 ==> !own)
    ensures (if own then Pulse(n - 1, i, j, k) else 0.0) == if n == i + 1 || n == k + 1 then -10.0 else 0.0
  {}

  lemma OwnSum(outcomes: seq<Outcome>, o: Outcome, key: Outcome -> int, v: int, pnl: real)
    requires RealizedPnl(o) == pnl
    ensures Sum(Pnls(WithKey(outcomes + [o], key, v)))
         == Sum(Pnls(WithKey(outcomes, key, v))) + (if key(o) == v then pnl else 0.0)
  {
    WithKeyMore(outcomes, o, key, v);
    PnlsAppend(WithKey(outcomes, key, v), o);
  }

  lemma PnlsAppend(outcomes: seq<Outcome>, o: Outcome)
    ensures Sum(Pnls(outcomes + [o])) == Sum(Pnls(outcomes)) + RealizedPnl(o)
  {
    assert Pnls(outcomes + [o]) == Pnls(outcomes) + [RealizedPnl(o)];
    SumAppend(Pnls(outcomes), RealizedPnl(o));
  }

  lemma EndsDown(pnls: seq<real>)
    ensures MaxDrawdown(pnls) >= -Sum(pnls)
  {
    MaxDrawdownIsLargest(pnls);
    assert pnls[..0] == [] && pnls[..|pnls|] == pnls;
    assert Drop(pnls, 0, |pnls|) == -Sum(pnls);
  }

  lemma StaysNear(pnls: seq<real>)
    requires forall n :: 0 <= n <= |pnls| ==> -10.0 <= Sum(pnls[..n]) <= 0.0
    ensures MaxDrawdown(pnls) <= 10.0
  {
    MaxDrawdownIsLargest(pnls);
    var i, j :| 0 <= i <= j <= |pnls| && Drop(pnls, i, j) == MaxDrawdown(pnls);
  }

  lemma PulseExceeds(times: seq<int>, keyOf: int -> int, i: int, j: int, k: int) returns (outcomes: seq<Outcome>)
    requires 0 <= i < j < k < |times| && keyOf(times[i]) == keyOf(times[k]) != keyOf(times[j])
    ensures IsHistory(outcomes, times) && !PeriodsBounded(outcomes, OfTime(keyOf))
  {
    outcomes := PulseHistory(times, i, j, k);
    var key, v, pnls := OfTime(keyOf), keyOf(times[i]), Pnls(outcomes);
    forall n | 0 <= n <= |pnls| ensures -10.0 <= Sum(pnls[..n]) <= 0.0 {
      PulseCurve(outcomes, i, j, k, n);
      assert pnls[..n] == Pnls(outcomes[..n]);
    }
    StaysNear(pnls);
    PulsePeriod(outcomes, key, v, i, j, k, |outcomes|);
    assert outcomes[..|outcomes|] == outcomes;
    EndsDown(Pnls(WithKey(outcomes, key, v)));
  }

  /**
   For keys read off the close time, no period loses more than the whole, whatever the trades closed
   at these times realised, exactly when no key is interleaved with another.
  */
  lemma PeriodDrawdownExactly(times: seq<int>, keyOf: int -> int)
    ensures (forall outcomes :: IsHistory(outcomes, times) ==> PeriodsBounded(outcomes, OfTime(keyOf))) <==>
            !TimesInterleaved(times, keyOf)
  {
    if TimesInterleaved(times, keyOf) {
      var i, j, k :| 0 <= i < j < k < |times| && keyOf(times[i]) == keyOf(times[k]) != keyOf(times[j]);
      var outcomes := PulseExceeds(times, keyOf, i, j, k);
    } else {
      forall outcomes | IsHistory(outcomes, times) ensures PeriodsBounded(outcomes, OfTime(keyOf)) {
        forall i, j, k ensures !SeparatedAt(outcomes, OfTime(keyOf), i, j, k) {
        }
        forall v ensures MaxDrawdown(Pnls(WithKey(outcomes, OfTime(keyOf), v))) <= MaxDrawdown(Pnls(outcomes)) {
          StretchDrawdown(outcomes, OfTime(keyOf), v);
        }
      }
    }
  }

  // ---------- keys that follow the close time ----------

  ghost predicate FollowsTime(key: Outcome -> int) {
    forall o: Outcome, p: Outcome :: o.closedAt <= p.closedAt ==> key(o) <= key(p)
  }

  /** The stored outcomes, listed by close time, are sorted by any key that follows the close time. */
  lemma ListedByKey(outcomes: seq<Outcome>, key: Outcome -> int)
    requires SortedBy(outcomes, ClosedAt) && FollowsTime(key)
    ensures SortedBy(outcomes, key)
  {
    forall j, k | 0 <= j < k < |outcomes| ensures key(outcomes[j]) <= key(outcomes[k]) {
      assert ClosedAt(outcomes[j]) <= ClosedAt(outcomes[k]);
    }
  }

  /**
   A report over the listed outcomes: with keys that follow the close time its periods, laid end to
   end, are the whole history, and none reports a larger drawdown than the whole.
  */
  lemma SnapshotPeriods(stored: seq<Outcome>, key: Outcome -> int, start: real, overall: Statistics,
      periods: seq<Period>)
    requires FollowsTime(key) && IsStatistics(overall, start, Sort(stored, ClosedAt))
    requires ArePeriods(periods, start, Sort(stored, ClosedAt), key)
    ensures Joined(Sort(stored, ClosedAt), key, KeysOf(periods)) == Sort(stored, ClosedAt)
    ensures forall p <- periods :: p.statistics.maximumDrawdown <= overall.maximumDrawdown
  {
    var listed := Sort(stored, ClosedAt);
    SortCorrect(stored, ClosedAt, 0);
    ListedByKey(listed, key);
    SortedIsNotInterleaved(listed, key);
    PeriodsAreContiguous(listed, key, KeysOf(periods));
    PeriodDrawdownBounded(periods, overall, start, listed, key);
  }

  lemma Equity3(a: real, b: real, c: real)
    ensures Sum([a]) == a && Sum([a, b]) == a + b && Sum([a, b, c]) == a + b + c
  {
    assert [a][..0] == [] && [a, b][..1] == [a] && [a, b, c][..2] == [a, b];
  }

  lemma Curve3(a: real, b: real, c: real)
    ensures MaxDrawdown([a]) == Max(0.0, Drawdown([a]))
            && MaxDrawdown([a, b]) == Max(MaxDrawdown([a]), Drawdown([a, b]))
    ensures MaxDrawdown([a, b, c]) == Max(MaxDrawdown([a, b]), Drawdown([a, b, c]))
    ensures Peak([a]) == Max(0.0, a) && Peak([a, b]) == Max(Peak([a]), a + b)
    ensures Peak([a, b, c]) == Max(Peak([a, b]), a + b + c)
  {
    Equity3(a, b, c);
    assert [a][..0] == [] && [a, b][..1] == [a] && [a, b, c][..2] == [a, b];
  }

  /**
   The reported fraction belongs to the largest amount and need not be the largest fraction:
   from 100, a loss of 50 and then, after a gain, a loss of 60 report the fraction at the second.
  */
  lemma FractionIsNotTheLargest(gain: real, fraction: real)
    requires gain == 950.0 && IsFraction(100.0, [-50.0, gain, -60.0], fraction)
    ensures fraction == Share(60.0, 1000.0) < Share(50.0, 100.0)
    ensures Share(Drawdown([-50.0]), 100.0 + Peak([-50.0])) == Share(50.0, 100.0)
  {
    var pnls := [-50.0, gain, -60.0];
    Curve3(-50.0, gain, -60.0);
    Equity3(-50.0, gain, -60.0);
    var j :| FirstWorst(pnls, j) && 100.0 + Peak(pnls[..j]) > 0.0
             && fraction == Share(MaxDrawdown(pnls), 100.0 + Peak(pnls[..j]));
    assert pnls[..0] == [] && pnls[..1] == [-50.0] && pnls[..2] == [-50.0, gain] && pnls[..3] == pnls;
    assert j == 3;
  }

  lemma OutcomesOfThree(a: Outcome, b: Outcome, c: Outcome, key: Outcome -> int)
    requires key(a) == key(c) != key(b)
    ensures WithKey([a, b, c], key, key(a)) == [a, c]
  {
    WithKeyMore([], a, key, key(a));
    WithKeyMore([a], b, key, key(a));
    WithKeyMore([a, b], c, key, key(a));
    assert [] + [a] == [a] && [a] + [b] == [a, b] && [a, b] + [c] == [a, b, c] && [a] + [c] == [a, c];
  }

  /** Without monotone keys a period can report a larger drawdown than the whole history. */
  lemma InterleavedPeriodLosesMore(a: Outcome, b: Outcome, c: Outcome, key: Outcome -> int)
    requires key(a) == key(c) != key(b) && RealizedPnl(a) == RealizedPnl(c) == -10.0 && RealizedPnl(b) == 10.0
    ensures MaxDrawdown(Pnls([a, b, c])) == 10.0
    ensures MaxDrawdown(Pnls(WithKey([a, b, c], key, key(a)))) == 20.0
  {
    assert [a, b, c][..2] == [a, b] && [a, b][..1] == [a] && [a][..0] == [];
    OutcomesOfThree(a, b, c, key);
    assert Pnls([a, c]) == [-10.0, -10.0] && Pnls([a, b, c]) == [-10.0, 10.0, -10.0];
    Curve3(-10.0, 10.0, -10.0);
    Equity3(-10.0, 10.0, -10.0);
    Curve3(-10.0, -10.0, 0.0);
    Equity3(-10.0, -10.0, 0.0);
  }

  // ---------- the engine ----------

  class AnalyticsEngine {
    const startingEquity: real
    const store: InMemoryOutcomeStore

    ghost predicate Valid()
      reads this, store
    {
      startingEquity > 0.0 && store.Valid()
    }

    constructor (startingEquity: real, store: InMemoryOutcomeStore)
      requires startingEquity > 0.0 && store.Valid()
      ensures Valid() && this.startingEquity == startingEquity && this.store == store
    {
      this.startingEquity, this.store := startingEquity, store;
    }

    method RecordOutcome(o: Outcome) returns (ok: bool)
      requires Valid()
      modifies store
      ensures Valid() && ok == (o.id !in Ids(old(store.outcomes)))
      ensures store.outcomes == if ok then old(store.outcomes) + [o] else old(store.outcomes)
    {
      ok := store.Append(o);
    }

    /** One report, over the outcomes by close time; `key` is one of the period keys. */
    method Snapshot(key: Outcome -> int) returns (overall: Statistics, periods: seq<Period>)
      requires Valid()
      ensures IsStatistics(overall, startingEquity, Sort(store.outcomes, ClosedAt))
      ensures ArePeriods(periods, startingEquity, Sort(store.outcomes, ClosedAt), key)
      ensures FollowsTime(key) ==>
                && Joined(Sort(store.outcomes, ClosedAt), key, KeysOf(periods)) == Sort(store.outcomes, ClosedAt)
                && forall p <- periods :: p.statistics.maximumDrawdown <= overall.maximumDrawdown
    {
      var outcomes := store.ListOutcomes();
      overall := ComputeStatistics(startingEquity, outcomes);
      periods := PeriodStatistics(startingEquity, outcomes, key);
      if FollowsTime(key) {
        SnapshotPeriods(store.outcomes, key, startingEquity, overall, periods);
      }
    }
  }
}
