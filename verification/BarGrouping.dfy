/**
 Grouping time-ordered ticks into bars, independent of any calendar: each tick
 comes with the bucket it falls in.
 */
module BarGrouping {
  import opened MarketData

  datatype Placed = Placed(tick: Tick, bucket: Bucket)

  function Seed(t: Tick, b: Bucket): Bar {
    Bar(b, t.price, t.price, t.price, t.price, t.size)
  }

  function Extend(bar: Bar, t: Tick): Bar {
    bar.(high := Max(bar.high, t.price), low := Min(bar.low, t.price), close := t.price, volume := bar.volume + t.size)
  }

  /** One bar that covers an earlier and a later bar. */
  function Merge(a: Bar, b: Bar): Bar {
    Bar(a.bucket, a.open, Max(a.high, b.high), Min(a.low, b.low), b.close, a.volume + b.volume)
  }

  ghost predicate Within(t: Tick, b: Bucket) {
    b.start <= t.timestamp < b.end
  }

  /** Each tick is inside its bucket; two ticks share a bucket or the earlier bucket ends before the later starts. */
  ghost predicate WellPlaced(p: seq<Placed>) {
    && (forall k :: 0 <= k < |p| ==> Within(p[k].tick, p[k].bucket))
    && (forall j, k :: 0 <= j < k < |p| ==> p[j].bucket == p[k].bucket || p[j].bucket.end <= p[k].bucket.start)
  }

  // ---------- specification ----------

  function InBucket(p: seq<Placed>, b: Bucket): seq<Tick> {
    if p == [] then []
    else
      var t := p[|p| - 1].tick;
      InBucket(p[..|p| - 1], b) + (if b.start <= t.timestamp < b.end then [t] else [])
  }

  function TotalSize(ticks: seq<Tick>): real {
    if ticks == [] then 0.0 else TotalSize(ticks[..|ticks| - 1]) + ticks[|ticks| - 1].size
  }

  /** `bar` is the OHLCV summary of exactly these ticks. */
  ghost predicate Summarises(bar: Bar, ticks: seq<Tick>) {
    && ticks != []
    && bar.open == ticks[0].price
    && bar.close == ticks[|ticks| - 1].price
    && (forall t <- ticks :: bar.low <= t.price <= bar.high)
    && (exists t <- ticks :: t.price == bar.high)
    && (exists t <- ticks :: t.price == bar.low)
    && bar.volume == TotalSize(ticks)
  }

  ghost predicate Ascending(bars: seq<Bar>) {
    forall j, k :: 0 <= j < k < |bars| ==> bars[j].bucket.end <= bars[k].bucket.start
  }

  ghost function BucketsHit(p: seq<Placed>): set<Bucket> {
    set x <- p :: x.bucket
  }

  ghost function BucketsOf(bars: seq<Bar>): set<Bucket> {
    set x <- bars :: x.bucket
  }

  /** One bar per bucket hit, in time order, each summarising all ticks of its bucket. */
  ghost predicate IsGrouping(p: seq<Placed>, bars: seq<Bar>) {
    && Ascending(bars)
    && BucketsOf(bars) == BucketsHit(p)
    && AllSummarise(p, bars)
  }

  ghost predicate AllSummarise(p: seq<Placed>, bars: seq<Bar>) {
    forall b <- bars :: Summarises(b, InBucket(p, b.bucket))
  }

  // ---------- the fold ----------

  function Push(bars: seq<Bar>, x: Placed): seq<Bar> {
    var n := |bars| - 1;
    if n >= 0 && bars[n].bucket == x.bucket then bars[..n] + [Extend(bars[n], x.tick)]
    else bars + [Seed(x.tick, x.bucket)]
  }

  function Group(p: seq<Placed>): seq<Bar> {
    if p == [] then [] else Push(Group(p[..|p| - 1]), p[|p| - 1])
  }

  ghost predicate EndsWith(p: seq<Placed>, bars: seq<Bar>) {
    if p == [] then bars == [] else bars != [] && bars[|bars| - 1].bucket == p[|p| - 1].bucket
  }

  // ---------- the fold meets the specification ----------

  lemma SummaryExtends(bar: Bar, ticks: seq<Tick>, t: Tick)
    requires Summarises(bar, ticks)
    ensures Summarises(Extend(bar, t), ticks + [t])
  {
    var more := ticks + [t];
    assert more[..|ticks|] == ticks;
    assert t in more;
    assert forall u <- ticks :: u in more;
  }

  lemma SeedSummarises(t: Tick, b: Bucket)
    ensures Summarises(Seed(t, b), [t])
  {
    assert t in [t];
    assert [t][..0] == [];
    assert TotalSize([t]) == TotalSize([t][..0]) + t.size;
  }

  lemma InBucketAppend(p: seq<Placed>, x: Placed, b: Bucket)
    ensures InBucket(p + [x], b) == InBucket(p, b) + (if Within(x.tick, b) then [x.tick] else [])
  {
    assert (p + [x])[..|p|] == p;
  }

  lemma {:induction false} InBucketNone(p: seq<Placed>, b: Bucket)
    requires forall x <- p :: !Within(x.tick, b)
    ensures InBucket(p, b) == []
  {
    if p != [] { InBucketNone(p[..|p| - 1], b); }
  }

  lemma BucketsAppend(bars: seq<Bar>, b: Bar)
    ensures BucketsOf(bars + [b]) == BucketsOf(bars) + {b.bucket}
  {
    assert b in bars + [b];
    assert forall x <- bars :: x in bars + [b];
  }

  lemma HitAppend(p: seq<Placed>, x: Placed)
    ensures BucketsHit(p + [x]) == BucketsHit(p) + {x.bucket}
  {
    assert x in p + [x];
    assert forall y <- p :: y in p + [x];
  }

  lemma SummariesKeep(p: seq<Placed>, x: Placed, bars: seq<Bar>)
    requires AllSummarise(p, bars) && forall b <- bars :: !Within(x.tick, b.bucket)
    ensures AllSummarise(p + [x], bars)
  {
    forall b <- bars ensures Summarises(b, InBucket(p + [x], b.bucket)) {
      InBucketAppend(p, x, b.bucket);
      assert InBucket(p + [x], b.bucket) == InBucket(p, b.bucket);
    }
  }

  lemma AscendingAppend(bars: seq<Bar>, b: Bar)
    requires Ascending(bars) && forall x <- bars :: x.bucket.end <= b.bucket.start
    ensures Ascending(bars + [b])
  {}

  lemma SummariesAppend(q: seq<Placed>, bars: seq<Bar>, b: Bar)
    requires AllSummarise(q, bars) && Summarises(b, InBucket(q, b.bucket))
    ensures AllSummarise(q, bars + [b])
  {
    forall x <- bars + [b] ensures Summarises(x, InBucket(q, x.bucket)) {
      if x != b { assert x in bars; }
    }
  }

  lemma AppendBar(q: seq<Placed>, bars: seq<Bar>, b: Bar, ticks: seq<Tick>)
    requires Ascending(bars) && AllSummarise(q, bars)
    requires forall x <- bars :: x.bucket.end <= b.bucket.start
    requires BucketsOf(bars) + {b.bucket} == BucketsHit(q)
    requires Summarises(b, ticks) && ticks == InBucket(q, b.bucket)
    ensures IsGrouping(q, bars + [b])
  {
    BucketsAppend(bars, b);
    AscendingAppend(bars, b);
    SummariesAppend(q, bars, b);
  }

  lemma DropBar(p: seq<Placed>, bars: seq<Bar>, b: Bar)
    requires IsGrouping(p, bars + [b])
    ensures Ascending(bars) && AllSummarise(p, bars)
    ensures forall x <- bars :: x.bucket.end <= b.bucket.start
    ensures BucketsOf(bars) + {b.bucket} == BucketsHit(p)
    ensures Summarises(b, InBucket(p, b.bucket))
  {
    BucketsAppend(bars, b);
    var all := bars + [b];
    assert all[|bars|] == b;
    assert forall k :: 0 <= k < |bars| ==> all[k] == bars[k];
    assert b in all;
  }

  /** A tick of the last bar's bucket extends that bar. */
  lemma GroupExtend(p: seq<Placed>, x: Placed, bars: seq<Bar>, last: Bar)
    requires IsGrouping(p, bars + [last]) && Within(x.tick, x.bucket) && last.bucket == x.bucket
    ensures IsGrouping(p + [x], bars + [Extend(last, x.tick)])
  {
    DropBar(p, bars, last);
    HitAppend(p, x);
    SummariesKeep(p, x, bars);
    InBucketAppend(p, x, x.bucket);
    SummaryExtends(last, InBucket(p, x.bucket), x.tick);
    AppendBar(p + [x], bars, Extend(last, x.tick), InBucket(p, x.bucket) + [x.tick]);
  }

  lemma FreshBucket(p: seq<Placed>, x: Placed, bars: seq<Bar>)
    requires WellPlaced(p) && BucketsOf(bars) == BucketsHit(p) && Within(x.tick, x.bucket)
    requires forall b <- bars :: b.bucket.end <= x.bucket.start
    ensures InBucket(p + [x], x.bucket) == [x.tick]
  {
    forall y <- p ensures !Within(y.tick, x.bucket) {
      assert y.bucket in BucketsHit(p);
      assert y.bucket in BucketsOf(bars);
    }
    InBucketNone(p, x.bucket);
    InBucketAppend(p, x, x.bucket);
  }

  /** A tick after every bar's bucket opens a new bar. */
  lemma GroupAppend(p: seq<Placed>, x: Placed, bars: seq<Bar>)
    requires IsGrouping(p, bars) && WellPlaced(p) && Within(x.tick, x.bucket)
    requires forall b <- bars :: b.bucket.end <= x.bucket.start
    ensures IsGrouping(p + [x], bars + [Seed(x.tick, x.bucket)])
  {
    FreshBucket(p, x, bars);
    SeedSummarises(x.tick, x.bucket);
    SummariesKeep(p, x, bars);
    HitAppend(p, x);
    AppendBar(p + [x], bars, Seed(x.tick, x.bucket), [x.tick]);
  }

  lemma LastEndsLatest(p: seq<Placed>, bars: seq<Bar>)
    requires WellPlaced(p) && IsGrouping(p, bars)
    ensures forall b <- bars :: b.bucket.end <= bars[|bars| - 1].bucket.end
  {
    if bars != [] {
      var n := |bars| - 1;
      assert bars[n].bucket in BucketsOf(bars);
      assert bars[n].bucket in BucketsHit(p);
    }
  }

  lemma WellPlacedLast(p: seq<Placed>, x: Placed)
    requires WellPlaced(p + [x])
    ensures WellPlaced(p) && Within(x.tick, x.bucket)
    ensures p != [] ==> var b := p[|p| - 1].bucket; b == x.bucket || b.end <= x.bucket.start
  {
    var q := p + [x];
    assert q[|p|] == x;
    assert forall k :: 0 <= k < |p| ==> q[k] == p[k];
  }

  lemma PushAppends(p: seq<Placed>, x: Placed, bars: seq<Bar>)
    requires WellPlaced(p) && IsGrouping(p, bars) && EndsWith(p, bars) && Within(x.tick, x.bucket)
    requires p != [] ==> var b := p[|p| - 1].bucket; b != x.bucket && b.end <= x.bucket.start
    ensures IsGrouping(p + [x], Push(bars, x))
  {
    LastEndsLatest(p, bars);
    GroupAppend(p, x, bars);
  }

  lemma PushExtends(p: seq<Placed>, x: Placed, bars: seq<Bar>)
    requires IsGrouping(p, bars) && Within(x.tick, x.bucket) && bars != [] && bars[|bars| - 1].bucket == x.bucket
    ensures IsGrouping(p + [x], Push(bars, x))
  {
    assert bars[..|bars| - 1] + [bars[|bars| - 1]] == bars;
    GroupExtend(p, x, bars[..|bars| - 1], bars[|bars| - 1]);
  }

  lemma GroupStep(p: seq<Placed>, x: Placed, bars: seq<Bar>)
    requires WellPlaced(p + [x]) && IsGrouping(p, bars) && EndsWith(p, bars)
    ensures IsGrouping(p + [x], Push(bars, x)) && EndsWith(p + [x], Push(bars, x))
  {
    WellPlacedLast(p, x);
    if p != [] && p[|p| - 1].bucket == x.bucket {
      PushExtends(p, x, bars);
    } else {
      PushAppends(p, x, bars);
    }
  }

  /** The fold yields the grouping, and its last bar belongs to the last tick. */
  lemma {:induction false} GroupCorrect(p: seq<Placed>)
    requires WellPlaced(p)
    ensures IsGrouping(p, Group(p)) && EndsWith(p, Group(p))
  {
    if p != [] {
      var before, x := p[..|p| - 1], p[|p| - 1];
      assert before + [x] == p;
      assert WellPlaced(before) by { WellPlacedLast(before, x); }
      GroupCorrect(before);
      GroupStep(before, x, Group(before));
    }
  }

  lemma SummaryUnique(a: Bar, b: Bar, ticks: seq<Tick>)
    requires Summarises(a, ticks) && Summarises(b, ticks) && a.bucket == b.bucket
    ensures a == b
  {}

  ghost predicate Nonempty(bars: seq<Bar>) {
    forall b <- bars :: b.bucket.start < b.bucket.end
  }

  lemma DropLastBucket(bars: seq<Bar>, b: Bar)
    requires Ascending(bars + [b]) && Nonempty(bars + [b])
    ensures Ascending(bars) && Nonempty(bars)
    ensures forall x <- bars :: x.bucket.end <= b.bucket.start && x.bucket != b.bucket
    ensures b.bucket.start < b.bucket.end
    ensures BucketsOf(bars) == BucketsOf(bars + [b]) - {b.bucket}
  {
    BucketsAppend(bars, b);
    var all := bars + [b];
    assert all[|bars|] == b && b in all;
    assert forall k :: 0 <= k < |bars| ==> all[k] == bars[k] && bars[k] in all;
  }

  lemma SameLastBucket(a: seq<Bar>, x: Bar, b: seq<Bar>, y: Bar)
    requires Ascending(a + [x]) && Nonempty(a + [x]) && Ascending(b + [y]) && Nonempty(b + [y])
    requires BucketsOf(a + [x]) == BucketsOf(b + [y])
    ensures x.bucket == y.bucket
  {
    DropLastBucket(a, x);
    DropLastBucket(b, y);
    BucketsAppend(a, x);
    BucketsAppend(b, y);
  }

  lemma {:induction false} AscendingUnique(a: seq<Bar>, b: seq<Bar>)
    requires Ascending(a) && Nonempty(a) && Ascending(b) && Nonempty(b)
    requires BucketsOf(a) == BucketsOf(b)
    requires forall x <- a, y <- b :: x.bucket == y.bucket ==> x == y
    ensures a == b
  {
    if a == [] || b == [] {
      assert a != [] ==> a[0].bucket in BucketsOf(a);
      assert b != [] ==> b[0].bucket in BucketsOf(b);
    } else {
      var (a', x, b', y) := (a[..|a| - 1], a[|a| - 1], b[..|b| - 1], b[|b| - 1]);
      assert a' + [x] == a && b' + [y] == b;
      SameLastBucket(a', x, b', y);
      DropLastBucket(a', x);
      DropLastBucket(b', y);
      AscendingUnique(a', b');
    }
  }

  /** The specification has one solution: it fixes buckets, order, prices and volumes. */
  lemma GroupingUnique(p: seq<Placed>, a: seq<Bar>, b: seq<Bar>)
    requires WellPlaced(p) && IsGrouping(p, a) && IsGrouping(p, b)
    ensures a == b
  {
    forall c <- BucketsHit(p) ensures c.start < c.end {}
    assert forall x <- a :: x.bucket in BucketsOf(a);
    assert forall x <- b :: x.bucket in BucketsOf(b);
    forall x <- a, y <- b | x.bucket == y.bucket ensures x == y {
      SummaryUnique(x, y, InBucket(p, x.bucket));
    }
    AscendingUnique(a, b);
  }

  // ---------- coalescing and regrouping ----------

  /** Append a bar, merging it into the last one when both are for the same bucket. */
  function AddBar(bars: seq<Bar>, b: Bar): seq<Bar> {
    var n := |bars| - 1;
    if n >= 0 && bars[n].bucket == b.bucket then bars[..n] + [Merge(bars[n], b)] else bars + [b]
  }

  function Coalesce(bars: seq<Bar>): seq<Bar> {
    if bars == [] then [] else AddBar(Coalesce(bars[..|bars| - 1]), bars[|bars| - 1])
  }

  /** Rebuild coarser bars from finer ones, given the coarse bucket of each fine bucket. */
  function Regroup(bars: seq<Bar>, coarse: Bucket -> Bucket): seq<Bar> {
    if bars == [] then []
    else
      var b := bars[|bars| - 1];
      AddBar(Regroup(bars[..|bars| - 1], coarse), b.(bucket := coarse(b.bucket)))
  }

  function TotalVolume(bars: seq<Bar>): real {
    if bars == [] then 0.0 else TotalVolume(bars[..|bars| - 1]) + bars[|bars| - 1].volume
  }

  lemma AddExtended(bars: seq<Bar>, b: Bar, t: Tick)
    ensures AddBar(bars, Extend(b, t)) == Push(AddBar(bars, b), Placed(t, b.bucket))
  {
    var n := |bars| - 1;
    var added := AddBar(bars, b);
    if n >= 0 && bars[n].bucket == b.bucket {
      assert added[..n] == bars[..n];
    } else {
      assert added[..|bars|] == bars;
    }
  }

  lemma AddSeed(bars: seq<Bar>, x: Placed)
    ensures AddBar(bars, Seed(x.tick, x.bucket)) == Push(bars, x)
  {}

  ghost predicate LastIn(bars: seq<Bar>, b: Bucket) {
    bars != [] && bars[|bars| - 1].bucket == b
  }

  lemma AddBarLast(bars: seq<Bar>, b: Bar)
    ensures LastIn(AddBar(bars, b), b.bucket)
  {}

  lemma CoalesceAppend(bars: seq<Bar>, b: Bar)
    ensures Coalesce(bars + [b]) == AddBar(Coalesce(bars), b)
    ensures LastIn(Coalesce(bars + [b]), b.bucket)
  {
    assert (bars + [b])[..|bars|] == bars;
    AddBarLast(Coalesce(bars), b);
  }

  lemma CoalesceLast(bars: seq<Bar>)
    requires bars != []
    ensures LastIn(Coalesce(bars), bars[|bars| - 1].bucket)
  {
    AddBarLast(Coalesce(bars[..|bars| - 1]), bars[|bars| - 1]);
  }

  lemma RegroupAppend(bars: seq<Bar>, b: Bar, coarse: Bucket -> Bucket)
    ensures Regroup(bars + [b], coarse) == AddBar(Regroup(bars, coarse), b.(bucket := coarse(b.bucket)))
  {
    assert (bars + [b])[..|bars|] == bars;
  }

  ghost predicate NoRepeat(bars: seq<Bar>) {
    forall k :: 0 < k < |bars| ==> bars[k - 1].bucket != bars[k].bucket
  }

  lemma NoRepeatAppend(bars: seq<Bar>, b: Bar)
    ensures NoRepeat(bars + [b]) <==> NoRepeat(bars) && !LastIn(bars, b.bucket)
  {
    var all := bars + [b];
    assert forall k :: 0 <= k < |bars| ==> all[k] == bars[k];
    if NoRepeat(all) {
      assert bars != [] ==> all[|bars| - 1].bucket != all[|bars|].bucket;
      assert forall k :: 0 < k < |bars| ==> all[k - 1].bucket != all[k].bucket;
    }
  }

  /** Coalescing changes nothing exactly when no two neighbours share a bucket. */
  lemma {:induction false} CoalesceIdentity(bars: seq<Bar>)
    ensures |Coalesce(bars)| <= |bars|
    ensures NoRepeat(bars) ==> Coalesce(bars) == bars
    ensures !NoRepeat(bars) ==> |Coalesce(bars)| < |bars|
  {
    if bars != [] {
      var first, b := bars[..|bars| - 1], bars[|bars| - 1];
      CoalesceIdentity(first);
      assert first + [b] == bars;
      NoRepeatAppend(first, b);
      if first != [] { CoalesceLast(first); }
    }
  }

  /** Coarse bars built from fine bars are the coarse bars built from the ticks. */
  lemma {:induction false} RegroupCorrect(fine: seq<Placed>, coarse: seq<Placed>, f: Bucket -> Bucket)
    requires |fine| == |coarse|
    requires forall k :: 0 <= k < |fine| ==> coarse[k] == Placed(fine[k].tick, f(fine[k].bucket))
    ensures Regroup(Group(fine), f) == Group(coarse)
  {
    if fine != [] {
      var n := |fine| - 1;
      RegroupCorrect(fine[..n], coarse[..n], f);
      RegroupPush(Group(fine[..n]), fine[n], f);
    }
  }

  lemma RegroupExtend(bars: seq<Bar>, b: Bar, t: Tick, f: Bucket -> Bucket)
    ensures Regroup(bars + [Extend(b, t)], f) == Push(Regroup(bars + [b], f), Placed(t, f(b.bucket)))
  {
    RegroupAppend(bars, b, f);
    RegroupAppend(bars, Extend(b, t), f);
    AddExtended(Regroup(bars, f), b.(bucket := f(b.bucket)), t);
  }

  lemma RegroupPush(bars: seq<Bar>, x: Placed, f: Bucket -> Bucket)
    ensures Regroup(Push(bars, x), f) == Push(Regroup(bars, f), Placed(x.tick, f(x.bucket)))
  {
    var n := |bars| - 1;
    if n >= 0 && bars[n].bucket == x.bucket {
      assert bars[..n] + [bars[n]] == bars;
      RegroupExtend(bars[..n], bars[n], x.tick, f);
    } else {
      RegroupAppend(bars, Seed(x.tick, x.bucket), f);
      AddSeed(Regroup(bars, f), Placed(x.tick, f(x.bucket)));
    }
  }

  /** Merging two fine bars of one bucket before regrouping changes nothing. */
  lemma RegroupMerge(bars: seq<Bar>, a: Bar, b: Bar, f: Bucket -> Bucket)
    requires a.bucket == b.bucket
    ensures Regroup(bars + [Merge(a, b)], f) == AddBar(Regroup(bars + [a], f), b.(bucket := f(b.bucket)))
  {
    RegroupAppend(bars, a, f);
    RegroupAppend(bars, Merge(a, b), f);
    AddTwice(Regroup(bars, f), a.(bucket := f(a.bucket)), b.(bucket := f(b.bucket)));
  }

  lemma RegroupMerged(bars: seq<Bar>, b: Bar, f: Bucket -> Bucket)
    ensures Regroup(AddBar(bars, b), f) == AddBar(Regroup(bars, f), b.(bucket := f(b.bucket)))
  {
    var n := |bars| - 1;
    if n >= 0 && bars[n].bucket == b.bucket {
      assert bars[..n] + [bars[n]] == bars;
      RegroupMerge(bars[..n], bars[n], b, f);
    } else {
      RegroupAppend(bars, b, f);
    }
  }

  lemma AddTwice(bars: seq<Bar>, a: Bar, b: Bar)
    requires a.bucket == b.bucket
    ensures AddBar(AddBar(bars, a), b) == AddBar(bars, Merge(a, b))
  {
    var n := |bars| - 1;
    var added := AddBar(bars, a);
    if n >= 0 && bars[n].bucket == a.bucket {
      assert added[..n] == bars[..n];
    } else {
      assert added[..|bars|] == bars;
    }
  }

  lemma {:induction false} RegroupCoalesced(bars: seq<Bar>, f: Bucket -> Bucket)
    ensures Regroup(Coalesce(bars), f) == Regroup(bars, f)
  {
    if bars != [] {
      var n := |bars| - 1;
      RegroupCoalesced(bars[..n], f);
      RegroupMerged(Coalesce(bars[..n]), bars[n], f);
    }
  }

  function TicksOf(p: seq<Placed>): seq<Tick> {
    if p == [] then [] else TicksOf(p[..|p| - 1]) + [p[|p| - 1].tick]
  }

  lemma VolumeAppend(bars: seq<Bar>, b: Bar)
    ensures TotalVolume(bars + [b]) == TotalVolume(bars) + b.volume
  {
    assert (bars + [b])[..|bars|] == bars;
  }

  lemma AddBarVolume(bars: seq<Bar>, b: Bar)
    ensures TotalVolume(AddBar(bars, b)) == TotalVolume(bars) + b.volume
  {
    var n := |bars| - 1;
    VolumeAppend(bars, b);
    if n >= 0 { VolumeAppend(bars[..n], Merge(bars[n], b)); }
  }

  /** Coalescing conserves volume. */
  lemma {:induction false} CoalesceVolume(bars: seq<Bar>)
    ensures TotalVolume(Coalesce(bars)) == TotalVolume(bars)
  {
    if bars != [] {
      CoalesceVolume(bars[..|bars| - 1]);
      AddBarVolume(Coalesce(bars[..|bars| - 1]), bars[|bars| - 1]);
    }
  }

  /** The bars of a grouping carry the volume of all ticks, whatever the buckets are. */
  lemma {:induction false} GroupVolume(p: seq<Placed>)
    ensures TotalVolume(Group(p)) == TotalSize(TicksOf(p))
  {
    if p != [] {
      var n := |p| - 1;
      GroupVolume(p[..n]);
      AddSeed(Group(p[..n]), p[n]);
      AddBarVolume(Group(p[..n]), Seed(p[n].tick, p[n].bucket));
      assert (TicksOf(p[..n]) + [p[n].tick])[..|TicksOf(p[..n])|] == TicksOf(p[..n]);
    }
  }
}
