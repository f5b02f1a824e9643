/**
 Historical candles rebuilt from stored ticks by replaying a fresh engine.
 */
module CandleHistory {
  import opened MarketData
  import opened BarGrouping
  import CE = CandleEngine
  import opened CandleAggregation
  import ExchangeCalendar
  import StableSort

  datatype Request = Request(symbol: string, interval: Interval, startAt: int, endAt: int)

  predicate Matches(r: Request, t: Tick) {
    r.symbol == t.symbol && r.startAt <= t.timestamp < r.endAt
  }

  predicate InRange(r: Request, b: Bucket) {
    r.startAt <= b.start && b.end <= r.endAt
  }

  function Filtered(r: Request, ticks: seq<Tick>): seq<Tick> {
    if ticks == [] then []
    else
      var rest := Filtered(r, ticks[..|ticks| - 1]);
      if Matches(r, ticks[|ticks| - 1]) then rest + [ticks[|ticks| - 1]] else rest
  }

  function ByTime(ticks: seq<Tick>): seq<Tick> {
    StableSort.Sort(ticks, (t: Tick) => t.timestamp)
  }

  /** The in-session ticks the replay folds. */
  function Replayed(cal: BucketLookup, r: Request, ticks: seq<Tick>): seq<Placed> {
    Place(cal, r.interval, Filtered(r, ByTime(ticks)))
  }

  function BarsInRange(r: Request, bars: seq<Bar>): seq<Bar> {
    if bars == [] then []
    else
      var rest := BarsInRange(r, bars[..|bars| - 1]);
      if InRange(r, bars[|bars| - 1].bucket) then rest + [bars[|bars| - 1]] else rest
  }

  /** The intended history: every bar of the replay inside the requested range. */
  function FullHistory(cal: BucketLookup, r: Request, ticks: seq<Tick>): seq<Bar> {
    BarsInRange(r, Group(Replayed(cal, r, ticks)))
  }

  /** What the replay returns: the last bar only, when it is inside the range. */
  function FallbackHistory(cal: BucketLookup, r: Request, ticks: seq<Tick>): seq<Bar> {
    var bars := Group(Replayed(cal, r, ticks));
    BarsInRange(r, bars[if bars == [] then 0 else |bars| - 1..])
  }

  // ---------- the state a replay reaches ----------

  ghost predicate OnlySymbol(symbol: string, ticks: seq<Tick>) {
    forall t <- ticks :: t.symbol == symbol
  }

  lemma {:induction false} FilteredCorrect(r: Request, ticks: seq<Tick>)
    requires Chronological(ticks)
    ensures var f := Filtered(r, ticks);
            && Chronological(f) && OnlySymbol(r.symbol, f)
            && (f != [] ==> ticks != [] && f[|f| - 1].timestamp <= ticks[|ticks| - 1].timestamp)
  {
    if ticks != [] {
      FilteredCorrect(r, ticks[..|ticks| - 1]);
    }
  }

  lemma SortedChronological(ticks: seq<Tick>)
    ensures Chronological(ByTime(ticks))
  {
    StableSort.SortCorrect(ticks, (t: Tick) => t.timestamp, 0);
  }

  lemma InOrderArrive(symbol: string, events: seq<Event>, t: Tick)
    requires t.symbol == symbol && NotOlder(InOrder(symbol, events), t)
    ensures InOrder(symbol, events + [Arrive(t)]) == InOrder(symbol, events) + [t]
  {
    assert (events + [Arrive(t)])[..|events|] == events;
  }

  lemma {:induction false} ArrivalsInOrder(symbol: string, ticks: seq<Tick>)
    requires Chronological(ticks) && OnlySymbol(symbol, ticks)
    ensures InOrder(symbol, Arrivals(ticks)) == ticks
    ensures forall e <- Arrivals(ticks) :: e.Arrive?
  {
    if ticks != [] {
      var n := |ticks| - 1;
      ArrivalsInOrder(symbol, ticks[..n]);
      assert ticks[n] in ticks;
      assert ticks[..n] + [ticks[n]] == ticks;
      assert n > 0 ==> ticks[n - 1].timestamp <= ticks[n].timestamp;
      InOrderArrive(symbol, Arrivals(ticks[..n]), ticks[n]);
    }
  }

  lemma {:induction false} OnlyOneSeries(cal: BucketLookup, i: Interval, symbol: string, ticks: seq<Tick>)
    requires OnlySymbol(symbol, ticks)
    ensures Run(cal, [i], Arrivals(ticks)).active.Keys <= {CE.Key(symbol, i)}
  {
    if ticks != [] {
      var n := |ticks| - 1;
      OnlyOneSeries(cal, i, symbol, ticks[..n]);
      assert Arrivals(ticks)[..|Arrivals(ticks[..n])|] == Arrivals(ticks[..n]);
      assert ticks[n] in ticks;
      OneIntervalKeys(cal, Run(cal, [i], Arrivals(ticks[..n])), ticks[n], i);
    }
  }

  lemma OneIntervalKeys(cal: BucketLookup, s: CE.EngineState, t: Tick, i: Interval)
    ensures CE.ProcessTickSpec(cal, [i], s, t).0.active.Keys <= s.active.Keys + {CE.Key(t.symbol, i)}
  {
    forall k <- CE.ProcessTickSpec(cal, [i], s, t).0.active.Keys ensures k in s.active || k == CE.Key(t.symbol, i) {
      AdvanceAllAt(cal, s.active, t, [i], k);
    }
  }

  lemma TicksAlone(cal: BucketLookup, key: CE.Key, events: seq<Event>)
    requires forall e <- events :: e.Arrive?
    ensures var s := SeriesRun(cal, key, events);
            && Coalesce(CandleAggregation.Bars(s)) == CandleAggregation.Bars(s)
            && (s.active.None? ==> s.done == [])
  {
    var s := SeriesRun(cal, key, events);
    ArrivalsSplitNothing(cal, key, events);
    CoalesceIdentity(CandleAggregation.Bars(s));
  }

  /** After replaying ticks alone, the emitted bars are the grouping and the last one is active. */
  lemma ReplayedSeries(cal: BucketLookup, key: CE.Key, ticks: seq<Tick>)
    requires Chronological(ticks) && OnlySymbol(key.symbol, ticks)
    ensures var s := SeriesRun(cal, key, Arrivals(ticks)); var bars := Group(Place(cal, key.interval, ticks));
            && CandleAggregation.Bars(s) == bars
            && s.active == (if bars == [] then None else Some(bars[|bars| - 1]))
  {
    ArrivalsInOrder(key.symbol, ticks);
    TicksAlone(cal, key, Arrivals(ticks));
    SeriesGroups(cal, key, Arrivals(ticks));
  }

  /** The engine then holds the last bar of the grouping and nothing else. */
  lemma ReplayState(cal: BucketLookup, r: Request, ticks: seq<Tick>)
    ensures var bars := Group(Replayed(cal, r, ticks));
            Run(cal, [r.interval], Arrivals(Filtered(r, ByTime(ticks)))).active ==
            (if bars == [] then map[] else map[CE.Key(r.symbol, r.interval) := bars[|bars| - 1]])
  {
    var kept := Filtered(r, ByTime(ticks));
    var key := CE.Key(r.symbol, r.interval);
    SortedChronological(ticks);
    FilteredCorrect(r, ByTime(ticks));
    OnlyOneSeries(cal, r.interval, r.symbol, kept);
    Separable(cal, [r.interval], Arrivals(kept), key);
    ReplayedSeries(cal, key, kept);
  }

  // ---------- the replay as the provider runs it ----------

  function ToCandles(r: Request, bars: seq<Bar>): seq<Candle> {
    seq(|bars|, k requires 0 <= k < |bars| => Candle(r.symbol, r.interval, bars[k], true))
  }

  predicate Requested(r: Request, c: Candle) {
    c.symbol == r.symbol && c.interval == r.interval && InRange(r, c.bar.bucket)
  }

  lemma HasElement<T(!new)>(s: seq<T>)
    requires s != []
    ensures exists y :: y in s
  {
    assert s[0] in s;
  }

  lemma NoElement<T(!new)>(s: seq<T>)
    requires forall y :: y !in s
    ensures s == []
  {
    if s != [] { HasElement(s); }
  }

  lemma FirstTwoDiffer<T>(s: seq<T>)
    requires CE.Distinct(s) && |s| > 1
    ensures s[0] != s[1]
  {}

  lemma AllEqual<T>(s: seq<T>, x: T)
    requires forall y <- s :: y == x
    ensures forall k :: 0 <= k < |s| ==> s[k] == x
  {
    forall k | 0 <= k < |s| ensures s[k] == x { assert s[k] in s; }
  }

  /** A list without repeats that holds exactly one element. */
  lemma OneElement<T(!new)>(s: seq<T>, x: T)
    requires CE.Distinct(s) && forall y :: y in s <==> y == x
    ensures s == [x]
  {
    AllEqual(s, x);
    if |s| > 1 { FirstTwoDiffer(s); }
    assert x in s;
  }

  lemma RunArrive(cal: BucketLookup, intervals: seq<Interval>, ticks: seq<Tick>, t: Tick)
    ensures Run(cal, intervals, Arrivals(ticks + [t]))
         == CE.ProcessTickSpec(cal, intervals, Run(cal, intervals, Arrivals(ticks)), t).0
  {
    ArrivalsAppend(ticks, t);
    assert (Arrivals(ticks) + [Arrive(t)])[..|Arrivals(ticks)|] == Arrivals(ticks);
  }

  method AggregateFallbackTicks(cal: BucketLookup, r: Request, ticks: seq<Tick>) returns (candles: seq<Candle>)
    ensures candles == ToCandles(r, FallbackHistory(cal, r, ticks))
  {
    var engine := Replay(cal, r, ByTime(ticks));
    ReplayState(cal, r, ticks);
    candles := FinishReplay(engine, r, Group(Replayed(cal, r, ticks)));
  }

  lemma FilteredMore(r: Request, ticks: seq<Tick>, n: nat)
    requires n < |ticks|
    ensures Filtered(r, ticks[..n + 1]) ==
            if Matches(r, ticks[n]) then Filtered(r, ticks[..n]) + [ticks[n]] else Filtered(r, ticks[..n])
  {
    assert ticks[..n + 1][..n] == ticks[..n];
  }

  method Replay(cal: BucketLookup, r: Request, sorted: seq<Tick>) returns (engine: CE.CandleEngine)
    ensures fresh(engine) && engine.Valid()
    ensures engine.State() == Run(cal, [r.interval], Arrivals(Filtered(r, sorted)))
  {
    engine := new CE.CandleEngine(cal, [r.interval]);
    var n := 0;
    while n < |sorted|
      invariant 0 <= n <= |sorted|
      invariant engine.Valid() && fresh(engine) && fresh(engine.active.Values)
      invariant engine.calendar == cal && engine.intervals == [r.interval]
      invariant engine.State() == Run(cal, [r.interval], Arrivals(Filtered(r, sorted[..n])))
    {
      FilteredMore(r, sorted, n);
      if Matches(r, sorted[n]) {
        RunArrive(cal, [r.interval], Filtered(r, sorted[..n]), sorted[n]);
        var _ := engine.ProcessTick(sorted[n]);
      }
      n := n + 1;
    }
    assert sorted[..n] == sorted;
  }

  function Kept(r: Request, candles: seq<Candle>): seq<Candle> {
    if candles == [] then []
    else
      var rest := Kept(r, candles[..|candles| - 1]);
      if Requested(r, candles[|candles| - 1]) then rest + [candles[|candles| - 1]] else rest
  }

  lemma FinishedBars(r: Request, bars: seq<Bar>, s: CE.EngineState, completed: seq<Candle>)
    requires s.active == if bars == [] then map[] else map[CE.Key(r.symbol, r.interval) := bars[|bars| - 1]]
    requires CE.Distinct(completed)
    requires forall c :: c in completed <==> CE.IsExpiredCandle(CE.ExpiredBars(s, r.endAt), c)
    ensures Kept(r, completed) == ToCandles(r, BarsInRange(r, bars[if bars == [] then 0 else |bars| - 1..]))
  {
    var expired := CE.ExpiredBars(s, r.endAt);
    if bars == [] {
      NoElement(completed);
    } else {
      var last := bars[|bars| - 1];
      var c := Candle(r.symbol, r.interval, last, true);
      if CE.Expired(last, r.endAt) { OneElement(completed, c); } else { NoElement(completed); }
      assert bars[|bars| - 1..] == [last] && [last][..0] == [] && [c][..0] == [];
    }
  }

  method FinishReplay(engine: CE.CandleEngine, r: Request, ghost bars: seq<Bar>) returns (candles: seq<Candle>)
    requires engine.Valid()
    requires engine.State().active == if bars == [] then map[]
             else map[CE.Key(r.symbol, r.interval) := bars[|bars| - 1]]
    modifies engine
    ensures candles == ToCandles(r, BarsInRange(r, bars[if bars == [] then 0 else |bars| - 1..]))
  {
    ghost var before := engine.State();
    var update := engine.FinalizeThrough(r.endAt);
    candles := [];
    for k := 0 to |update.completed|
      invariant candles == Kept(r, update.completed[..k])
    {
      assert update.completed[..k + 1][..k] == update.completed[..k];
      if Requested(r, update.completed[k]) { candles := candles + [update.completed[k]]; }
    }
    assert update.completed[..|update.completed|] == update.completed;
    FinishedBars(r, bars, before, update.completed);
  }

  // ---------- what the intended history contains ----------

  /** All in-session stored ticks of the symbol, with no limit on time. */
  function AllPlaced(cal: BucketLookup, r: Request, ticks: seq<Tick>): seq<Placed> {
    Place(cal, r.interval, OfSymbol(r.symbol, ByTime(ticks)))
  }

  ghost predicate SameInside(r: Request, p: seq<Placed>, q: seq<Placed>) {
    && (forall b :: InRange(r, b) ==> InBucket(p, b) == InBucket(q, b))
    && (forall b :: InRange(r, b) ==> (b in BucketsHit(p) <==> b in BucketsHit(q)))
  }

  lemma PlaceAppend(cal: BucketLookup, i: Interval, ticks: seq<Tick>, t: Tick)
    ensures Place(cal, i, ticks + [t]) == PlaceMore(Place(cal, i, ticks), t, cal(t.timestamp, i))
  {
    assert (ticks + [t])[..|ticks|] == ticks;
  }

  lemma SameInsideBoth(r: Request, p: seq<Placed>, q: seq<Placed>, x: Placed)
    requires SameInside(r, p, q)
    ensures SameInside(r, p + [x], q + [x])
  {
    HitAppend(p, x);
    HitAppend(q, x);
    forall b | InRange(r, b) ensures InBucket(p + [x], b) == InBucket(q + [x], b) {
      InBucketAppend(p, x, b);
      InBucketAppend(q, x, b);
    }
  }

  lemma SameInsideOutside(r: Request, p: seq<Placed>, q: seq<Placed>, x: Placed)
    requires SameInside(r, p, q) && Within(x.tick, x.bucket)
    requires !(r.startAt <= x.tick.timestamp < r.endAt)
    ensures SameInside(r, p, q + [x])
  {
    HitAppend(q, x);
    forall b | InRange(r, b) ensures InBucket(p, b) == InBucket(q + [x], b) {
      InBucketAppend(q, x, b);
    }
  }

  lemma SameInsideStep(r: Request, p: seq<Placed>, q: seq<Placed>, t: Tick, b: Option<Bucket>)
    requires SameInside(r, p, q) && (b.Some? ==> Within(t, b.value))
    ensures SameInside(r, if r.startAt <= t.timestamp < r.endAt then PlaceMore(p, t, b) else p, PlaceMore(q, t, b))
  {
    if b.Some? {
      if r.startAt <= t.timestamp < r.endAt { SameInsideBoth(r, p, q, Placed(t, b.value)); }
      else { SameInsideOutside(r, p, q, Placed(t, b.value)); }
    }
  }

  ghost predicate RangeKeeps(cal: BucketLookup, r: Request, ticks: seq<Tick>) {
    SameInside(r, Place(cal, r.interval, Filtered(r, ticks)), Place(cal, r.interval, OfSymbol(r.symbol, ticks)))
  }

  lemma FilterAppend(r: Request, before: seq<Tick>, t: Tick)
    ensures Filtered(r, before + [t]) == if Matches(r, t) then Filtered(r, before) + [t] else Filtered(r, before)
    ensures OfSymbol(r.symbol, before + [t])
            == if t.symbol == r.symbol then OfSymbol(r.symbol, before) + [t] else OfSymbol(r.symbol, before)
  {
    assert (before + [t])[..|before|] == before;
  }

  lemma RangeKeepsStep(cal: BucketLookup, r: Request, before: seq<Tick>, t: Tick)
    requires RangeKeeps(cal, r, before)
    ensures RangeKeeps(cal, r, before + [t])
  {
    var f, o := Filtered(r, before), OfSymbol(r.symbol, before);
    var p, q := Place(cal, r.interval, f), Place(cal, r.interval, o);
    FilterAppend(r, before, t);
    if t.symbol == r.symbol {
      var b := PlaceTick(cal, r.interval, t, o, f);
      assert SameInside(r, if Matches(r, t) then PlaceMore(p, t, b) else p, PlaceMore(q, t, b)) by {
        SameInsideStep(r, p, q, t, b);
      }
    }
  }

  /** Ticks outside the requested range touch no bucket inside it. */
  lemma {:induction false} RangeKeepsBuckets(cal: BucketLookup, r: Request, ticks: seq<Tick>)
    ensures RangeKeeps(cal, r, ticks)
  {
    if ticks != [] {
      var before, t := ticks[..|ticks| - 1], ticks[|ticks| - 1];
      RangeKeepsBuckets(cal, r, before);
      assert RangeKeeps(cal, r, before + [t]) by { RangeKeepsStep(cal, r, before, t); }
      assert before + [t] == ticks;
    }
  }

  /** The bucket, if any, with which one tick extends two placements. */
  lemma PlaceTick(cal: BucketLookup, i: Interval, t: Tick, p: seq<Tick>, q: seq<Tick>) returns (b: Option<Bucket>)
    ensures b.Some? ==> Within(t, b.value)
    ensures Place(cal, i, p + [t]) == PlaceMore(Place(cal, i, p), t, b)
    ensures Place(cal, i, q + [t]) == PlaceMore(Place(cal, i, q), t, b)
  {
    b := cal(t.timestamp, i);
    PlaceAppend(cal, i, p, t);
    PlaceAppend(cal, i, q, t);
  }

  lemma {:induction false} BarsInRangeKeeps(r: Request, bars: seq<Bar>)
    requires Ascending(bars)
    ensures var kept := BarsInRange(r, bars);
            && (forall b :: b in kept <==> b in bars && InRange(r, b.bucket))
            && Ascending(kept)
  {
    if bars != [] {
      var n := |bars| - 1;
      BarsInRangeKeeps(r, bars[..n]);
      assert bars[..n] + [bars[n]] == bars;
      var kept := BarsInRange(r, bars[..n]);
      forall x <- kept ensures x.bucket.end <= bars[n].bucket.start {
        assert x in bars[..n];
      }
      AscendingAppend(kept, bars[n]);
    }
  }

  lemma ReplayedGrouping(cal: BucketLookup, r: Request, ticks: seq<Tick>)
    ensures WellPlaced(Replayed(cal, r, ticks)) && IsGrouping(Replayed(cal, r, ticks), Group(Replayed(cal, r, ticks)))
    ensures EndsWith(Replayed(cal, r, ticks), Group(Replayed(cal, r, ticks)))
  {
    var kept := Filtered(r, ByTime(ticks));
    SortedChronological(ticks);
    FilteredCorrect(r, ByTime(ticks));
    var latest := if kept == [] then 0 else kept[|kept| - 1].timestamp;
    PlaceCorrect(cal, r.interval, kept, latest);
    PlacedWell(cal, r.interval, Place(cal, r.interval, kept), latest);
    GroupCorrect(Replayed(cal, r, ticks));
  }

  /** Keeping the bars inside the range keeps the buckets inside it. */
  lemma BucketsInRange(r: Request, bars: seq<Bar>, b: Bucket)
    requires Ascending(bars)
    ensures b in BucketsOf(BarsInRange(r, bars)) <==> b in BucketsOf(bars) && InRange(r, b)
  {
    BarsInRangeKeeps(r, bars);
    if b in BucketsOf(bars) && InRange(r, b) {
      var x :| x in bars && x.bucket == b;
      assert x in BarsInRange(r, bars);
    }
  }

  lemma HistorySummarises(cal: BucketLookup, r: Request, ticks: seq<Tick>)
    requires IsGrouping(Replayed(cal, r, ticks), Group(Replayed(cal, r, ticks)))
    ensures Ascending(FullHistory(cal, r, ticks)) && AllSummarise(AllPlaced(cal, r, ticks), FullHistory(cal, r, ticks))
  {
    var p, all := Replayed(cal, r, ticks), AllPlaced(cal, r, ticks);
    RangeKeepsBuckets(cal, r, ByTime(ticks));
    BarsInRangeKeeps(r, Group(p));
    forall b <- FullHistory(cal, r, ticks) ensures Summarises(b, InBucket(all, b.bucket)) {
      assert InBucket(p, b.bucket) == InBucket(all, b.bucket);
    }
  }

  /**
   Keeping the replay's completions would give one bar for exactly the in-range buckets hit by
   stored ticks of the symbol, in time order, each folding all stored ticks of its bucket.
  */
  lemma FullHistoryComplete(cal: BucketLookup, r: Request, ticks: seq<Tick>)
    ensures var full, all := FullHistory(cal, r, ticks), AllPlaced(cal, r, ticks);
            && Ascending(full)
            && AllSummarise(all, full)
            && BucketsOf(full) == set b | b in BucketsHit(all) && r.startAt <= b.start && b.end <= r.endAt
  {
    var p, full, all := Replayed(cal, r, ticks), FullHistory(cal, r, ticks), AllPlaced(cal, r, ticks);
    ReplayedGrouping(cal, r, ticks);
    HistorySummarises(cal, r, ticks);
    RangeKeepsBuckets(cal, r, ByTime(ticks));
    forall b ensures b in BucketsOf(full) <==> b in BucketsHit(all) && InRange(r, b) {
      BucketsInRange(r, Group(p), b);
    }
  }

  /** Every in-range bucket that was hit is the bucket of the newest tick. */
  ghost predicate OnlyNewestBucket(r: Request, p: seq<Placed>) {
    forall x <- p :: InRange(r, x.bucket) ==> x.bucket == p[|p| - 1].bucket
  }

  lemma PrefixGone<T>(a: seq<T>, b: seq<T>)
    ensures b == a + b <==> a == []
  {
    if b == a + b { assert |a| == 0; }
  }

  lemma BarsInRangeAppend(r: Request, bars: seq<Bar>, b: Bar)
    ensures BarsInRange(r, bars + [b]) == BarsInRange(r, bars) + BarsInRange(r, [b])
  {
    assert (bars + [b])[..|bars|] == bars && [b][..0] == [];
    assert BarsInRange(r, [b]) == if InRange(r, b.bucket) then [b] else [];
  }

  lemma NoEarlyBar(r: Request, p: seq<Placed>, first: seq<Bar>, last: Bar)
    requires WellPlaced(p) && IsGrouping(p, first + [last]) && EndsWith(p, first + [last])
    ensures BarsInRange(r, first) == [] <==> OnlyNewestBucket(r, p)
  {
    var early := BarsInRange(r, first);
    DropBar(p, first, last);
    BarsInRangeKeeps(r, first);
    assert (first + [last])[|first|] == last;
    if OnlyNewestBucket(r, p) {
      forall b ensures b !in early {
        if b in early { EarlyBar(r, p, first, last, b); }
      }
      NoElement(early);
    } else {
      var x :| x in p && InRange(r, x.bucket) && x.bucket != p[|p| - 1].bucket;
      assert x.bucket in BucketsHit(p);
      assert x.bucket in BucketsOf(first);
      var b :| b in first && b.bucket == x.bucket;
      assert b in early;
    }
  }

  lemma LastBarAlone(r: Request, p: seq<Placed>, first: seq<Bar>, last: Bar)
    requires WellPlaced(p) && IsGrouping(p, first + [last]) && EndsWith(p, first + [last])
    ensures BarsInRange(r, [last]) == BarsInRange(r, first + [last]) <==> OnlyNewestBucket(r, p)
  {
    NoEarlyBar(r, p, first, last);
    BarsInRangeAppend(r, first, last);
    PrefixGone(BarsInRange(r, first), BarsInRange(r, [last]));
  }

  /** The provider's history is the full one exactly when no in-range bucket precedes the newest one. */
  lemma FallbackLosesEarlierBars(cal: BucketLookup, r: Request, ticks: seq<Tick>)
    ensures FallbackHistory(cal, r, ticks) == FullHistory(cal, r, ticks)
            <==> OnlyNewestBucket(r, Replayed(cal, r, ticks))
  {
    var bars := Group(Replayed(cal, r, ticks));
    ReplayedGrouping(cal, r, ticks);
    if bars == [] {
      assert bars[0..] == bars;
    } else {
      var n := |bars| - 1;
      assert bars[n..] == [bars[n]];
      assert bars[..n] + [bars[n]] == bars;
      LastBarAlone(r, Replayed(cal, r, ticks), bars[..n], bars[n]);
    }
  }

  lemma TwoSorted(ticks: seq<Tick>)
    requires |ticks| == 2 && ticks[0].timestamp <= ticks[1].timestamp
    ensures ByTime(ticks) == ticks
  {
    StableSort.SortedUnchanged(ticks, (t: Tick) => t.timestamp);
  }

  lemma TwoReplayed(cal: BucketLookup, r: Request, ticks: seq<Tick>, b: Bucket, c: Bucket)
    requires |ticks| == 2 && ticks[0].timestamp <= ticks[1].timestamp && Matches(r, ticks[0]) && Matches(r, ticks[1])
    requires cal(ticks[0].timestamp, r.interval) == Some(b) && cal(ticks[1].timestamp, r.interval) == Some(c)
    ensures Replayed(cal, r, ticks) == [Placed(ticks[0], b), Placed(ticks[1], c)]
  {
    TwoSorted(ticks);
    assert ticks[..1] == [ticks[0]] && ticks[..1][..0] == [] && ticks == [ticks[0]] + [ticks[1]];
    assert Filtered(r, ticks[..1]) == [ticks[0]] && Filtered(r, ticks) == ticks;
    PlaceAppend(cal, r.interval, [], ticks[0]);
    PlaceAppend(cal, r.interval, [ticks[0]], ticks[1]);
    assert [] + [ticks[0]] == [ticks[0]];
  }

  /** In the first session of the sample calendar, minutes 0 and 1 are buckets of their own. */
  lemma FirstMinutes(open: int)
    requires open == ExchangeCalendar.SampleCalendar()[0].open
    ensures var cal := ExchangeCalendar.LookupIn(ExchangeCalendar.SampleCalendar());
            && cal(open, OneMinute) == Some(Bucket(open, open + ExchangeCalendar.MINUTE))
            && cal(open + ExchangeCalendar.MINUTE, OneMinute)
               == Some(Bucket(open + ExchangeCalendar.MINUTE, open + 2 * ExchangeCalendar.MINUTE))
  {
    var sample, minute := ExchangeCalendar.SampleCalendar(), ExchangeCalendar.MINUTE;
    ExchangeCalendar.SessionUnique(sample, open, 0);
    ExchangeCalendar.SessionUnique(sample, open + minute, 0);
    ExchangeCalendar.FloorIs(0, minute, 0);
    ExchangeCalendar.FloorIs(minute, minute, 1);
  }

  /** A lost bar: two ticks in the first two minutes of a session, and a request for exactly those minutes. */
  lemma FallbackLosesABar(r: Request, ticks: seq<Tick>, open: int)
    requires open == ExchangeCalendar.SampleCalendar()[0].open
    requires r == Request("SPY", OneMinute, open, open + 2 * ExchangeCalendar.MINUTE) && |ticks| == 2
    requires ticks[0].symbol == ticks[1].symbol == "SPY"
    requires ticks[0].timestamp == open && ticks[1].timestamp == open + ExchangeCalendar.MINUTE
    ensures var cal := ExchangeCalendar.LookupIn(ExchangeCalendar.SampleCalendar());
            FallbackHistory(cal, r, ticks) != FullHistory(cal, r, ticks)
  {
    var cal, minute := ExchangeCalendar.LookupIn(ExchangeCalendar.SampleCalendar()), ExchangeCalendar.MINUTE;
    var b, c := Bucket(open, open + minute), Bucket(open + minute, open + 2 * minute);
    FirstMinutes(open);
    TwoReplayed(cal, r, ticks, b, c);
    var p := Replayed(cal, r, ticks);
    assert p[0] in p && InRange(r, p[0].bucket) && p[0].bucket != p[|p| - 1].bucket;
    FallbackLosesEarlierBars(cal, r, ticks);
  }

  lemma EarlyBar(r: Request, p: seq<Placed>, bars: seq<Bar>, last: Bar, b: Bar)
    requires IsGrouping(p, bars + [last]) && WellPlaced(p) && EndsWith(p, bars + [last])
    requires b in bars && InRange(r, b.bucket)
    ensures exists x <- p :: InRange(r, x.bucket) && x.bucket != p[|p| - 1].bucket
  {
    DropBar(p, bars, last);
    assert b.bucket in BucketsOf(bars);
    assert b.bucket in BucketsHit(p);
    var x :| x in p && x.bucket == b.bucket;
    assert (bars + [last])[|bars|] == last;
    assert last.bucket == p[|p| - 1].bucket;
    assert last.bucket in BucketsHit(p);
  }
}
