/**
 What a run of the candle engine computes: the candles of one series are the
 in-session ticks of its symbol, grouped by bucket.
 */
module CandleAggregation {
  import opened MarketData
  import opened BarGrouping
  import opened CandleEngine

  datatype Event = Arrive(tick: Tick) | Finalize(asOf: int)

  function Arrivals(ticks: seq<Tick>): seq<Event> {
    if ticks == [] then [] else Arrivals(ticks[..|ticks| - 1]) + [Arrive(ticks[|ticks| - 1])]
  }

  function OfSymbol(symbol: string, ticks: seq<Tick>): seq<Tick> {
    if ticks == [] then []
    else
      var rest := OfSymbol(symbol, ticks[..|ticks| - 1]);
      if ticks[|ticks| - 1].symbol == symbol then rest + [ticks[|ticks| - 1]] else rest
  }

  lemma ArrivalsAppend(ticks: seq<Tick>, t: Tick)
    ensures Arrivals(ticks + [t]) == Arrivals(ticks) + [Arrive(t)]
  {
    assert (ticks + [t])[..|ticks|] == ticks;
  }

  lemma OfSymbolAppend(symbol: string, ticks: seq<Tick>, t: Tick)
    ensures OfSymbol(symbol, ticks + [t]) ==
            if t.symbol == symbol then OfSymbol(symbol, ticks) + [t] else OfSymbol(symbol, ticks)
  {
    assert (ticks + [t])[..|ticks|] == ticks;
  }

  // ---------- a run of the whole engine ----------

  function Run(cal: BucketLookup, intervals: seq<Interval>, events: seq<Event>): EngineState {
    if events == [] then EngineState(map[], map[])
    else
      var s := Run(cal, intervals, events[..|events| - 1]);
      match events[|events| - 1]
      case Arrive(t) => ProcessTickSpec(cal, intervals, s, t).0
      case Finalize(asOf) => FinalizeSpec(s, asOf)
  }

  /** The bars of one series among a list of candles. */
  function BarsOf(candles: seq<Candle>, key: Key): seq<Bar> {
    if candles == [] then []
    else
      var rest := BarsOf(candles[..|candles| - 1], key);
      var c := candles[|candles| - 1];
      if KeyOf(c) == key then rest + [c.bar] else rest
  }

  /** Every bar of one series completed during a run, in order. */
  function Completed(cal: BucketLookup, intervals: seq<Interval>, events: seq<Event>, key: Key): seq<Bar> {
    if events == [] then []
    else
      var before := events[..|events| - 1];
      var s := Run(cal, intervals, before);
      Completed(cal, intervals, before, key) +
      match events[|events| - 1]
      case Arrive(t) => BarsOf(ProcessTickSpec(cal, intervals, s, t).1.completed, key)
      case Finalize(asOf) => Optional(Lookup(ExpiredBars(s, asOf), key))
  }

  function Optional<T>(o: Option<T>): seq<T> {
    match o
    case None => []
    case Some(x) => [x]
  }

  /** Completed bars followed by the active one. */
  function Emitted(cal: BucketLookup, intervals: seq<Interval>, events: seq<Event>, key: Key): seq<Bar> {
    Completed(cal, intervals, events, key) + Optional(Lookup(Run(cal, intervals, events).active, key))
  }

  // ---------- the same run seen by one series ----------

  datatype Series = Series(done: seq<Bar>, active: Option<Bar>, mark: Option<int>)

  function SeriesStep(cal: BucketLookup, key: Key, s: Series, e: Event): Series {
    match e
    case Finalize(asOf) =>
      if s.active.Some? && Expired(s.active.value, asOf) then s.(done := s.done + [s.active.value], active := None)
      else s
    case Arrive(t) =>
      if t.symbol != key.symbol || (s.mark.Some? && t.timestamp < s.mark.value) then s
      else
        match cal(t.timestamp, key.interval)
        case None => s.(mark := Some(t.timestamp))
        case Some(b) =>
          var (done, bar) := Advance(s.active, t, b);
          Series(s.done + Optional(done), Some(bar), Some(t.timestamp))
  }

  function SeriesRun(cal: BucketLookup, key: Key, events: seq<Event>): Series {
    if events == [] then Series([], None, None)
    else SeriesStep(cal, key, SeriesRun(cal, key, events[..|events| - 1]), events[|events| - 1])
  }

  lemma BarsOfAppend(candles: seq<Candle>, c: Candle, key: Key)
    ensures BarsOf(candles + [c], key) == BarsOf(candles, key) + (if KeyOf(c) == key then [c.bar] else [])
  {
    assert (candles + [c])[..|candles|] == candles;
  }

  lemma {:induction false} BarsOfConcat(a: seq<Candle>, b: seq<Candle>, key: Key)
    ensures BarsOf(a + b, key) == BarsOf(a, key) + BarsOf(b, key)
  {
    if b == [] {
      assert a + b == a;
    } else {
      var n := |b| - 1;
      assert a + b == (a + b[..n]) + [b[n]] && b == b[..n] + [b[n]];
      BarsOfConcat(a, b[..n], key);
      BarsOfAppend(a + b[..n], b[n], key);
      BarsOfAppend(b[..n], b[n], key);
    }
  }

  /** One tick moves each series of its symbol by one `Advance` and leaves every other series alone. */
  lemma {:induction false} AdvanceAllAt(cal: BucketLookup, active: map<Key, Bar>, t: Tick, intervals: seq<Interval>,
      key: Key)
    requires Distinct(intervals)
    ensures var p := AdvanceAll(cal, active, t, intervals);
            var b := cal(t.timestamp, key.interval);
            if key.symbol == t.symbol && key.interval in intervals && b.Some? then
              var (done, bar) := Advance(Lookup(active, key), t, b.value);
              Lookup(p.active, key) == Some(bar) && BarsOf(p.completed, key) == Optional(done)
            else
              Lookup(p.active, key) == Lookup(active, key) && BarsOf(p.completed, key) == []
  {
    if intervals != [] {
      var n := |intervals| - 1;
      var i := intervals[n];
      AdvanceAllAt(cal, active, t, intervals[..n], key);
      var p := AdvanceAll(cal, active, t, intervals[..n]);
      assert key.interval in intervals <==> key.interval in intervals[..n] || key.interval == i;
      match cal(t.timestamp, i)
      case None =>
      case Some(b) =>
        var (done, bar) := Advance(Lookup(p.active, Key(t.symbol, i)), t, b);
        if done.Some? {
          BarsOfAppend(p.completed, Candle(t.symbol, i, done.value, true), key);
        }
    }
  }

  lemma {:induction false} NoUpdateNoChange(cal: BucketLookup, active: map<Key, Bar>, t: Tick, intervals: seq<Interval>)
    ensures var p := AdvanceAll(cal, active, t, intervals);
            p.updated == [] ==> p.completed == []
  {
    if intervals != [] {
      NoUpdateNoChange(cal, active, t, intervals[..|intervals| - 1]);
    }
  }

  lemma SeparableArrive(cal: BucketLookup, intervals: seq<Interval>, s: EngineState, t: Tick, done: seq<Bar>, key: Key)
    requires Distinct(intervals) && key.interval in intervals
    ensures var r := ProcessTickSpec(cal, intervals, s, t);
            Series(done + BarsOf(r.1.completed, key), Lookup(r.0.active, key), Lookup(r.0.watermark, key.symbol)) ==
            SeriesStep(cal, key, Series(done, Lookup(s.active, key), Lookup(s.watermark, key.symbol)), Arrive(t))
  {
    AdvanceAllAt(cal, s.active, t, intervals, key);
    NoUpdateNoChange(cal, s.active, t, intervals);
  }

  /** The engine is separable: each series of a run depends on its own symbol and interval only. */
  lemma {:induction false} Separable(cal: BucketLookup, intervals: seq<Interval>, events: seq<Event>, key: Key)
    requires Distinct(intervals) && key.interval in intervals
    ensures Series(Completed(cal, intervals, events, key),
                   Lookup(Run(cal, intervals, events).active, key),
                   Lookup(Run(cal, intervals, events).watermark, key.symbol))
         == SeriesRun(cal, key, events)
  {
    if events != [] {
      var before := events[..|events| - 1];
      Separable(cal, intervals, before, key);
      match events[|events| - 1]
      case Finalize(asOf) =>
      case Arrive(t) =>
        SeparableArrive(cal, intervals, Run(cal, intervals, before), t, Completed(cal, intervals, before, key), key);
    }
  }

  // ---------- the in-progress candles a run shows ----------

  /** Every in-progress bar of one series shown during a run, in order. */
  function Updated(cal: BucketLookup, intervals: seq<Interval>, events: seq<Event>, key: Key): seq<Bar> {
    if events == [] then []
    else
      var before := events[..|events| - 1];
      match events[|events| - 1]
      case Finalize(_) => Updated(cal, intervals, before, key)
      case Arrive(t) =>
        Updated(cal, intervals, before, key)
        + BarsOf(ProcessTickSpec(cal, intervals, Run(cal, intervals, before), t).1.updated, key)
  }

  /** The same, seen by one series. */
  function Shown(cal: BucketLookup, key: Key, events: seq<Event>): seq<Bar> {
    if events == [] then []
    else
      var before := events[..|events| - 1];
      Shown(cal, key, before) + ShownBy(cal, key, SeriesRun(cal, key, before), events[|events| - 1])
  }

  function ShownBy(cal: BucketLookup, key: Key, s: Series, e: Event): seq<Bar> {
    match e
    case Finalize(_) => []
    case Arrive(t) =>
      if t.symbol != key.symbol || (s.mark.Some? && t.timestamp < s.mark.value) then []
      else
        match cal(t.timestamp, key.interval)
        case None => []
        case Some(b) => [Advance(s.active, t, b).1]
  }

  lemma {:induction false} UpdatedAt(cal: BucketLookup, active: map<Key, Bar>, t: Tick, intervals: seq<Interval>,
      key: Key)
    requires Distinct(intervals)
    ensures var b := cal(t.timestamp, key.interval);
            BarsOf(AdvanceAll(cal, active, t, intervals).updated, key) ==
            if key.symbol == t.symbol && key.interval in intervals && b.Some? then
              [Advance(Lookup(active, key), t, b.value).1]
            else []
  {
    if intervals != [] {
      var n := |intervals| - 1;
      var i := intervals[n];
      UpdatedAt(cal, active, t, intervals[..n], key);
      AdvanceAllAt(cal, active, t, intervals[..n], key);
      var p := AdvanceAll(cal, active, t, intervals[..n]);
      assert key.interval in intervals <==> key.interval in intervals[..n] || key.interval == i;
      match cal(t.timestamp, i)
      case None =>
      case Some(b) =>
        var bar := Advance(Lookup(p.active, Key(t.symbol, i)), t, b).1;
        BarsOfAppend(p.updated, Candle(t.symbol, i, bar, false), key);
    }
  }

  /** The enabled intervals that have a bucket at a time, in order. */
  function OpenIntervals(cal: BucketLookup, time: int, intervals: seq<Interval>): seq<Interval> {
    if intervals == [] then []
    else
      var (before, i) := (intervals[..|intervals| - 1], intervals[|intervals| - 1]);
      OpenIntervals(cal, time, before) + (if cal(time, i).Some? then [i] else [])
  }

  /** One candle of the tick per open interval, in order, none complete, each closing at the tick's price. */
  ghost predicate UpdatedBy(t: Tick, open: seq<Interval>, updated: seq<Candle>) {
    && |updated| == |open|
    && forall k :: 0 <= k < |open| ==>
         && updated[k].interval == open[k] && updated[k].symbol == t.symbol && !updated[k].isComplete
         && updated[k].bar.close == t.price && updated[k].bar.low <= t.price <= updated[k].bar.high
  }

  lemma {:induction false} AdvanceAllShape(cal: BucketLookup, active: map<Key, Bar>, t: Tick, intervals: seq<Interval>)
    ensures UpdatedBy(t, OpenIntervals(cal, t.timestamp, intervals), AdvanceAll(cal, active, t, intervals).updated)
    ensures forall c <- AdvanceAll(cal, active, t, intervals).completed ::
              c.isComplete && c.symbol == t.symbol && c.interval in intervals
  {
    if intervals != [] {
      var n := |intervals| - 1;
      AdvanceAllShape(cal, active, t, intervals[..n]);
      assert forall i <- intervals[..n] :: i in intervals;
      assert intervals[n] in intervals;
    }
  }

  /**
   What one tick reports. A late tick changes nothing; any other becomes the watermark of its symbol and
   updates one incomplete candle per enabled interval that is open, in order. It is ignored exactly when
   it updates none, with the reason, and what it completes is complete and of its own symbol.
  */
  lemma TickReports(cal: BucketLookup, intervals: seq<Interval>, s: EngineState, t: Tick)
    ensures var (after, u) := ProcessTickSpec(cal, intervals, s, t);
            var late := t.symbol in s.watermark && t.timestamp < s.watermark[t.symbol];
            && after.watermark == (if late then s.watermark else s.watermark[t.symbol := t.timestamp])
            && UpdatedBy(t, if late then [] else OpenIntervals(cal, t.timestamp, intervals), u.updated)
            && (forall c <- u.completed :: c.isComplete && c.symbol == t.symbol && c.interval in intervals)
            && (u.ignored <==> u.updated == []) && (u.ignored ==> after.active == s.active && u.completed == [])
            && u.reason == (if !u.ignored then None
                            else if late then Some("timestamp_precedes_symbol_watermark")
                            else Some("outside_regular_trading_session"))
  {
    AdvanceAllShape(cal, s.active, t, intervals);
    NoUpdateNothing(cal, s.active, t, intervals);
  }

  lemma {:induction false} NoUpdateNothing(cal: BucketLookup, active: map<Key, Bar>, t: Tick, intervals: seq<Interval>)
    ensures var p := AdvanceAll(cal, active, t, intervals); p.updated == [] ==> p.active == active && p.completed == []
  {
    if intervals != [] { NoUpdateNothing(cal, active, t, intervals[..|intervals| - 1]); }
  }

  lemma ShownArrive(cal: BucketLookup, intervals: seq<Interval>, s: EngineState, t: Tick, done: seq<Bar>, key: Key)
    requires Distinct(intervals) && key.interval in intervals
    ensures BarsOf(ProcessTickSpec(cal, intervals, s, t).1.updated, key) ==
            ShownBy(cal, key, Series(done, Lookup(s.active, key), Lookup(s.watermark, key.symbol)), Arrive(t))
  {
    UpdatedAt(cal, s.active, t, intervals, key);
  }

  /** The in-progress bars shown for a series depend on its own symbol and interval only. */
  lemma {:induction false} ShownSeparable(cal: BucketLookup, intervals: seq<Interval>, events: seq<Event>, key: Key)
    requires Distinct(intervals) && key.interval in intervals
    ensures Updated(cal, intervals, events, key) == Shown(cal, key, events)
  {
    if events != [] {
      var before := events[..|events| - 1];
      ShownSeparable(cal, intervals, before, key);
      Separable(cal, intervals, before, key);
      match events[|events| - 1]
      case Finalize(_) =>
      case Arrive(t) =>
        ShownArrive(cal, intervals, Run(cal, intervals, before), t, Completed(cal, intervals, before, key), key);
    }
  }

  lemma ShownUnfold(cal: BucketLookup, key: Key, before: seq<Event>, e: Event)
    ensures Shown(cal, key, before + [e]) == Shown(cal, key, before) + ShownBy(cal, key, SeriesRun(cal, key, before), e)
  {
    assert (before + [e])[..|before|] == before;
  }

  // ---------- the accepted ticks of a symbol ----------

  predicate NotOlder(kept: seq<Tick>, t: Tick) {
    kept == [] || kept[|kept| - 1].timestamp <= t.timestamp
  }

  /** The ticks of a symbol that no earlier tick of the symbol is newer than. */
  function InOrder(symbol: string, events: seq<Event>): seq<Tick> {
    if events == [] then []
    else
      var kept := InOrder(symbol, events[..|events| - 1]);
      match events[|events| - 1]
      case Finalize(_) => kept
      case Arrive(t) => if t.symbol == symbol && NotOlder(kept, t) then kept + [t] else kept
  }

  /** The in-session ticks with their buckets. */
  function Place(cal: BucketLookup, i: Interval, ticks: seq<Tick>): seq<Placed> {
    if ticks == [] then []
    else PlaceMore(Place(cal, i, ticks[..|ticks| - 1]), ticks[|ticks| - 1], cal(ticks[|ticks| - 1].timestamp, i))
  }

  function PlaceMore(p: seq<Placed>, t: Tick, b: Option<Bucket>): seq<Placed> {
    match b
    case None => p
    case Some(bucket) => p + [Placed(t, bucket)]
  }

  function Accepted(cal: BucketLookup, key: Key, events: seq<Event>): seq<Placed> {
    Place(cal, key.interval, InOrder(key.symbol, events))
  }

  ghost predicate Chronological(ticks: seq<Tick>) {
    forall j, k :: 0 <= j <= k < |ticks| ==> ticks[j].timestamp <= ticks[k].timestamp
  }

  /** Each tick carries its own bucket, and none is newer than `latest`. */
  ghost predicate PlacedBy(cal: BucketLookup, i: Interval, p: seq<Placed>, latest: int) {
    && (forall k :: 0 <= k < |p| ==> cal(p[k].tick.timestamp, i) == Some(p[k].bucket))
    && (forall j, k :: 0 <= j <= k < |p| ==> p[j].tick.timestamp <= p[k].tick.timestamp)
    && (forall k :: 0 <= k < |p| ==> p[k].tick.timestamp <= latest)
  }

  lemma InOrderChronological(symbol: string, events: seq<Event>)
    ensures Chronological(InOrder(symbol, events))
  {}

  lemma PlacedByMore(cal: BucketLookup, i: Interval, p: seq<Placed>, t: Tick)
    requires PlacedBy(cal, i, p, t.timestamp)
    ensures PlacedBy(cal, i, PlaceMore(p, t, cal(t.timestamp, i)), t.timestamp)
  {
    var b := cal(t.timestamp, i);
    if b.Some? {
      var more := p + [Placed(t, b.value)];
      assert more[|p|] == Placed(t, b.value) && forall k :: 0 <= k < |p| ==> more[k] == p[k];
    }
  }

  lemma PlacedByLater(cal: BucketLookup, i: Interval, p: seq<Placed>, latest: int, later: int)
    requires PlacedBy(cal, i, p, latest) && latest <= later
    ensures PlacedBy(cal, i, p, later)
  {}

  lemma {:induction false} PlaceCorrect(cal: BucketLookup, i: Interval, ticks: seq<Tick>, latest: int)
    requires Chronological(ticks) && (ticks != [] ==> ticks[|ticks| - 1].timestamp <= latest)
    ensures PlacedBy(cal, i, Place(cal, i, ticks), latest)
  {
    if ticks != [] {
      var before, t := ticks[..|ticks| - 1], ticks[|ticks| - 1];
      PlaceCorrect(cal, i, before, t.timestamp);
      PlacedByMore(cal, i, Place(cal, i, before), t);
      PlacedByLater(cal, i, Place(cal, i, ticks), t.timestamp, latest);
    }
  }

  lemma PlacedWell(cal: BucketLookup, i: Interval, p: seq<Placed>, latest: int)
    requires PlacedBy(cal, i, p, latest)
    ensures WellPlaced(p)
  {
    forall k | 0 <= k < |p| ensures Within(p[k].tick, p[k].bucket) {
    }
    forall j, k | 0 <= j < k < |p| ensures p[j].bucket == p[k].bucket || p[j].bucket.end <= p[k].bucket.start {
    }
  }

  lemma AcceptedWell(cal: BucketLookup, key: Key, events: seq<Event>)
    ensures WellPlaced(Accepted(cal, key, events))
  {
    var ticks := InOrder(key.symbol, events);
    InOrderChronological(key.symbol, events);
    var latest := if ticks == [] then 0 else ticks[|ticks| - 1].timestamp;
    PlaceCorrect(cal, key.interval, ticks, latest);
    PlacedWell(cal, key.interval, Accepted(cal, key, events), latest);
  }

  // ---------- the emitted bars are the grouping ----------

  function Bars(s: Series): seq<Bar> {
    s.done + Optional(s.active)
  }

  lemma NothingMore<T>(s: seq<T>)
    ensures s + Optional(None) == s
  {}

  lemma OneMore<T>(s: seq<T>, x: T)
    ensures s + Optional(Some(x)) == s + [x]
  {}

  /** A new bar behind `bars` pushes its first tick. */
  lemma AdvanceFresh(bars: seq<Bar>, p: seq<Placed>, x: Placed)
    requires Coalesce(bars) == Group(p)
    ensures Coalesce(bars + [Seed(x.tick, x.bucket)]) == Group(p + [x])
  {
    CoalesceAppend(bars, Seed(x.tick, x.bucket));
    AddSeed(Group(p), x);
    assert (p + [x])[..|p|] == p;
  }

  /** Extending the active bar pushes a tick of its bucket. */
  lemma AdvanceSame(done: seq<Bar>, a: Bar, p: seq<Placed>, x: Placed)
    requires Coalesce(done + [a]) == Group(p) && a.bucket == x.bucket
    ensures Coalesce(done + [Extend(a, x.tick)]) == Group(p + [x])
  {
    CoalesceAppend(done, a);
    CoalesceAppend(done, Extend(a, x.tick));
    AddExtended(Coalesce(done), a, x.tick);
    assert (p + [x])[..|p|] == p;
  }

  /** One in-session tick pushes onto the coalesced bars. */
  lemma AdvancePushes(done: seq<Bar>, active: Option<Bar>, p: seq<Placed>, x: Placed)
    requires WellPlaced(p + [x]) && Coalesce(done + Optional(active)) == Group(p)
    ensures var (bar, now) := Advance(active, x.tick, x.bucket);
            Coalesce((done + Optional(bar)) + [now]) == Group(p + [x])
  {
    var (bar, now) := Advance(active, x.tick, x.bucket);
    NothingMore(done);
    if active.None? {
      AdvanceFresh(done, p, x);
    } else {
      OneMore(done, active.value);
      if bar.Some? {
        AdvanceFresh(done + [active.value], p, x);
      } else {
        CoalesceAppend(done, active.value);
        SameBucket(active.value, p, x);
        AdvanceSame(done, active.value, p, x);
      }
    }
  }

  /** A tick that does not start after the active bar belongs to it. */
  lemma SameBucket(a: Bar, p: seq<Placed>, x: Placed)
    requires WellPlaced(p + [x]) && LastIn(Group(p), a.bucket) && x.bucket.start <= a.bucket.start
    ensures a.bucket == x.bucket
  {
    var q := p + [x];
    assert forall k :: 0 <= k < |p| ==> q[k] == p[k];
    GroupCorrect(p);
    assert q[|p| - 1] == p[|p| - 1] && q[|p|] == x;
    assert Within(p[|p| - 1].tick, a.bucket);
  }

  lemma {:induction false} MarkIsLatest(cal: BucketLookup, key: Key, events: seq<Event>)
    ensures var kept := InOrder(key.symbol, events);
            SeriesRun(cal, key, events).mark == (if kept == [] then None else Some(kept[|kept| - 1].timestamp))
  {
    if events != [] {
      MarkIsLatest(cal, key, events[..|events| - 1]);
    }
  }

  lemma SeriesArrive(cal: BucketLookup, key: Key, s: Series, p: seq<Placed>, t: Tick)
    requires t.symbol == key.symbol && (s.mark.Some? ==> s.mark.value <= t.timestamp)
    requires Coalesce(Bars(s)) == Group(p)
    requires WellPlaced(PlaceMore(p, t, cal(t.timestamp, key.interval)))
    ensures Coalesce(Bars(SeriesStep(cal, key, s, Arrive(t)))) == Group(PlaceMore(p, t, cal(t.timestamp, key.interval)))
  {
    match cal(t.timestamp, key.interval)
    case None =>
    case Some(b) =>
      AdvancePushes(s.done, s.active, p, Placed(t, b));
      var (bar, now) := Advance(s.active, t, b);
      OneMore(s.done + Optional(bar), now);
  }

  lemma AcceptedMore(cal: BucketLookup, key: Key, before: seq<Event>, t: Tick)
    ensures Accepted(cal, key, before + [Arrive(t)]) ==
            if t.symbol == key.symbol && NotOlder(InOrder(key.symbol, before), t)
            then PlaceMore(Accepted(cal, key, before), t, cal(t.timestamp, key.interval))
            else Accepted(cal, key, before)
  {
    var kept := InOrder(key.symbol, before);
    assert (before + [Arrive(t)])[..|before|] == before;
    assert (kept + [t])[..|kept|] == kept;
  }

  lemma SeriesGroupsArrive(cal: BucketLookup, key: Key, before: seq<Event>, t: Tick)
    requires Coalesce(Bars(SeriesRun(cal, key, before))) == Group(Accepted(cal, key, before))
    ensures Coalesce(Bars(SeriesStep(cal, key, SeriesRun(cal, key, before), Arrive(t))))
         == Group(Accepted(cal, key, before + [Arrive(t)]))
  {
    var kept := InOrder(key.symbol, before);
    MarkIsLatest(cal, key, before);
    AcceptedMore(cal, key, before, t);
    if t.symbol == key.symbol && NotOlder(kept, t) {
      AcceptedWell(cal, key, before + [Arrive(t)]);
      SeriesArrive(cal, key, SeriesRun(cal, key, before), Accepted(cal, key, before), t);
    }
  }

  lemma FinalizeKeepsBars(cal: BucketLookup, key: Key, s: Series, asOf: int)
    ensures Bars(SeriesStep(cal, key, s, Finalize(asOf))) == Bars(s)
  {}

  lemma SeriesRunUnfold(cal: BucketLookup, key: Key, before: seq<Event>, e: Event)
    ensures SeriesRun(cal, key, before + [e]) == SeriesStep(cal, key, SeriesRun(cal, key, before), e)
  {
    assert (before + [e])[..|before|] == before;
  }

  ghost predicate Groups(cal: BucketLookup, key: Key, events: seq<Event>) {
    Coalesce(Bars(SeriesRun(cal, key, events))) == Group(Accepted(cal, key, events))
  }

  lemma SeriesGroupsStep(cal: BucketLookup, key: Key, before: seq<Event>, e: Event)
    requires Groups(cal, key, before)
    ensures Groups(cal, key, before + [e])
  {
    SeriesRunUnfold(cal, key, before, e);
    match e
    case Finalize(asOf) =>
      assert (before + [e])[..|before|] == before;
      FinalizeKeepsBars(cal, key, SeriesRun(cal, key, before), asOf);
    case Arrive(t) =>
      SeriesGroupsArrive(cal, key, before, t);
  }

  lemma NothingGroups(cal: BucketLookup, key: Key)
    ensures Groups(cal, key, [])
  {}

  lemma {:induction false} SeriesGroups(cal: BucketLookup, key: Key, events: seq<Event>)
    ensures Groups(cal, key, events)
  {
    if events == [] {
      NothingGroups(cal, key);
    } else {
      var before, e := events[..|events| - 1], events[|events| - 1];
      assert before + [e] == events;
      SeriesGroups(cal, key, before);
      SeriesGroupsStep(cal, key, before, e);
    }
  }

  /**
   For every run of ticks and finalizations and every series: the completed bars followed by
   the active one, with neighbours of the same bucket merged, are the group-and-fold of the
   accepted in-session ticks, and their total volume is the total traded size.
  */
  lemma EmittedIsGrouping(cal: BucketLookup, intervals: seq<Interval>, events: seq<Event>, key: Key)
    requires Distinct(intervals) && key.interval in intervals
    ensures var bars := Emitted(cal, intervals, events, key); var ticks := Accepted(cal, key, events);
            && IsGrouping(ticks, Coalesce(bars))
            && (IsGrouping(ticks, bars) <==> NoRepeat(bars))
            && TotalVolume(bars) == TotalSize(TicksOf(ticks))
  {
    var bars := Emitted(cal, intervals, events, key);
    var ticks := Accepted(cal, key, events);
    Separable(cal, intervals, events, key);
    SeriesGroups(cal, key, events);
    AcceptedWell(cal, key, events);
    GroupCorrect(ticks);
    CoalesceIdentity(bars);
    CoalesceVolume(bars);
    GroupVolume(ticks);
    if IsGrouping(ticks, bars) {
      GroupingUnique(ticks, bars, Coalesce(bars));
    }
  }

  // ---------- what the watermark keeps ----------

  ghost predicate NoNewerBefore(symbol: string, events: seq<Event>, time: int) {
    forall e <- events :: e.Arrive? && e.tick.symbol == symbol ==> e.tick.timestamp <= time
  }

  /** A tick is kept exactly when no earlier tick of its symbol, kept or dropped, is newer. */
  lemma {:induction false} KeptExactly(symbol: string, events: seq<Event>, t: Tick)
    requires t.symbol == symbol
    ensures InOrder(symbol, events + [Arrive(t)]) ==
            if NoNewerBefore(symbol, events, t.timestamp) then InOrder(symbol, events) + [t]
            else InOrder(symbol, events)
  {
    var kept := InOrder(symbol, events);
    assert (events + [Arrive(t)])[..|events|] == events;
    KeptLatest(symbol, events);
    assert NotOlder(kept, t) <==> NoNewerBefore(symbol, events, t.timestamp);
  }

  lemma {:induction false} KeptLatest(symbol: string, events: seq<Event>)
    ensures var kept := InOrder(symbol, events);
            if kept == [] then forall e <- events :: e.Arrive? ==> e.tick.symbol != symbol
            else NoNewerBefore(symbol, events, kept[|kept| - 1].timestamp)
                 && exists e <- events ::
                      e.Arrive? && e.tick.symbol == symbol && e.tick.timestamp == kept[|kept| - 1].timestamp
  {
    if events != [] {
      var before, e := events[..|events| - 1], events[|events| - 1];
      KeptLatest(symbol, before);
      assert before + [e] == events;
      assert e in events;
      assert forall x <- before :: x in events;
    }
  }

  // ---------- each bucket completes once ----------

  /** Event `p` is an in-session tick of the series that is kept, and `b` is its bucket. */
  ghost predicate KeptIn(cal: BucketLookup, key: Key, events: seq<Event>, p: int, b: Bucket) {
    && 0 <= p < |events| && events[p].Arrive? && events[p].tick.symbol == key.symbol
    && NoNewerBefore(key.symbol, events[..p], events[p].tick.timestamp)
    && cal(events[p].tick.timestamp, key.interval) == Some(b)
  }

  ghost predicate FinalizedAt(events: seq<Event>, q: int, end: int) {
    0 <= q < |events| && events[q].Finalize? && end <= events[q].asOf
  }

  ghost predicate SplitAt(cal: BucketLookup, key: Key, events: seq<Event>, p: int, q: int, r: int, b: Bucket) {
    p < q < r && KeptIn(cal, key, events, p, b) && FinalizedAt(events, q, b.end) && KeptIn(cal, key, events, r, b)
  }

  /** Some bucket is finalized between two kept ticks of it. */
  ghost predicate SplitsBucket(cal: BucketLookup, key: Key, events: seq<Event>) {
    exists p, q, r, b :: SplitAt(cal, key, events, p, q, r, b)
  }

  /** The newest kept tick of the bucket has not been followed by a finalization through its end. */
  ghost predicate OpenSince(cal: BucketLookup, key: Key, events: seq<Event>, r: int, b: Bucket) {
    KeptIn(cal, key, events, r, b) && forall q :: FinalizedAt(events, q, b.end) ==> q < r
  }

  ghost predicate ClosedBetween(cal: BucketLookup, key: Key, events: seq<Event>, p: int, q: int, b: Bucket) {
    p < q && KeptIn(cal, key, events, p, b) && FinalizedAt(events, q, b.end)
  }

  /** What the events say of the last bar: active and open, or completed and finalized. */
  ghost predicate LastExplained(cal: BucketLookup, key: Key, events: seq<Event>, s: Series) {
    && (s.active.Some? ==> exists r :: OpenSince(cal, key, events, r, s.active.value.bucket))
    && (s.active.None? && s.done != [] ==> Closed(cal, key, events, s.done[|s.done| - 1].bucket))
  }

  ghost predicate Closed(cal: BucketLookup, key: Key, events: seq<Event>, b: Bucket) {
    exists p, q :: ClosedBetween(cal, key, events, p, q, b)
  }

  /** Every kept tick lies in the last bar's bucket or in an earlier one. */
  ghost predicate NoneLater(cal: BucketLookup, key: Key, events: seq<Event>, bars: seq<Bar>) {
    forall p, b :: KeptIn(cal, key, events, p, b) ==> bars != [] && Follows(b, bars[|bars| - 1].bucket)
  }

  ghost predicate SplitTracked(cal: BucketLookup, key: Key, events: seq<Event>, s: Series) {
    && (NoRepeat(Bars(s)) <==> !SplitsBucket(cal, key, events))
    && LastExplained(cal, key, events, s) && NoneLater(cal, key, events, Bars(s))
  }

  lemma KeptPrefix(cal: BucketLookup, key: Key, before: seq<Event>, e: Event, p: int, b: Bucket)
    requires p < |before|
    ensures KeptIn(cal, key, before + [e], p, b) <==> KeptIn(cal, key, before, p, b)
  {
    if 0 <= p { assert (before + [e])[..p] == before[..p]; }
  }

  lemma FinalizedPrefix(before: seq<Event>, e: Event, q: int, end: int)
    requires q < |before|
    ensures FinalizedAt(before + [e], q, end) <==> FinalizedAt(before, q, end)
  {}

  lemma SplitPrefix(cal: BucketLookup, key: Key, before: seq<Event>, e: Event, p: int, q: int, r: int, b: Bucket)
    requires r < |before|
    ensures SplitAt(cal, key, before + [e], p, q, r, b) <==> SplitAt(cal, key, before, p, q, r, b)
  {
    if p < q < r {
      KeptPrefix(cal, key, before, e, p, b);
      FinalizedPrefix(before, e, q, b.end);
      KeptPrefix(cal, key, before, e, r, b);
    }
  }

  lemma SplitRemains(cal: BucketLookup, key: Key, before: seq<Event>, e: Event)
    requires SplitsBucket(cal, key, before)
    ensures SplitsBucket(cal, key, before + [e])
  {
    var p, q, r, b :| SplitAt(cal, key, before, p, q, r, b);
    SplitPrefix(cal, key, before, e, p, q, r, b);
  }

  /** A new split ends with the new event. */
  lemma SplitIsNew(cal: BucketLookup, key: Key, before: seq<Event>, e: Event) returns (p: int, q: int, b: Bucket)
    requires SplitsBucket(cal, key, before + [e]) && !SplitsBucket(cal, key, before)
    ensures SplitAt(cal, key, before + [e], p, q, |before|, b)
    ensures ClosedBetween(cal, key, before, p, q, b) && KeptIn(cal, key, before + [e], |before|, b)
  {
    var r;
    p, q, r, b :| SplitAt(cal, key, before + [e], p, q, r, b);
    if r < |before| { SplitPrefix(cal, key, before, e, p, q, r, b); }
    KeptPrefix(cal, key, before, e, p, b);
    FinalizedPrefix(before, e, q, b.end);
  }

  lemma ExplainedRemains(cal: BucketLookup, key: Key, before: seq<Event>, e: Event, s: Series)
    requires LastExplained(cal, key, before, s)
    requires s.active.Some? ==> !FinalizedAt(before + [e], |before|, s.active.value.bucket.end)
    ensures LastExplained(cal, key, before + [e], s)
  {
    if s.active.Some? {
      var b := s.active.value.bucket;
      var r :| OpenSince(cal, key, before, r, b);
      KeptPrefix(cal, key, before, e, r, b);
      forall q | FinalizedAt(before + [e], q, b.end) ensures q < r {
        FinalizedPrefix(before, e, q, b.end);
      }
      assert OpenSince(cal, key, before + [e], r, b);
    } else if s.done != [] {
      var b := s.done[|s.done| - 1].bucket;
      var p, q :| ClosedBetween(cal, key, before, p, q, b);
      KeptPrefix(cal, key, before, e, p, b);
      FinalizedPrefix(before, e, q, b.end);
      assert ClosedBetween(cal, key, before + [e], p, q, b);
    }
  }

  /** An event that is no kept tick of the series splits nothing. */
  lemma QuietEvent(cal: BucketLookup, key: Key, before: seq<Event>, e: Event, bars: seq<Bar>)
    requires forall b :: !KeptIn(cal, key, before + [e], |before|, b)
    ensures SplitsBucket(cal, key, before + [e]) <==> SplitsBucket(cal, key, before)
    ensures NoneLater(cal, key, before, bars) ==> NoneLater(cal, key, before + [e], bars)
  {
    if SplitsBucket(cal, key, before) {
      SplitRemains(cal, key, before, e);
    } else if SplitsBucket(cal, key, before + [e]) {
      var _, _, b := SplitIsNew(cal, key, before, e);
    }
    if NoneLater(cal, key, before, bars) {
      forall p, b | KeptIn(cal, key, before + [e], p, b) ensures bars != [] && Follows(b, bars[|bars| - 1].bucket) {
        assert p != |before|;
        KeptPrefix(cal, key, before, e, p, b);
      }
    }
  }

  lemma TrackFinalize(cal: BucketLookup, key: Key, before: seq<Event>, asOf: int, s: Series)
    requires SplitTracked(cal, key, before, s)
    ensures SplitTracked(cal, key, before + [Finalize(asOf)], SeriesStep(cal, key, s, Finalize(asOf)))
  {
    var e := Finalize(asOf);
    var events, s' := before + [e], SeriesStep(cal, key, s, e);
    assert Bars(s') == Bars(s);
    QuietEvent(cal, key, before, e, Bars(s));
    if s.active.Some? && Expired(s.active.value, asOf) {
      var b := s.active.value.bucket;
      var r :| OpenSince(cal, key, before, r, b);
      KeptPrefix(cal, key, before, e, r, b);
      assert ClosedBetween(cal, key, events, r, |before|, b);
      assert s'.done[|s'.done| - 1] == s.active.value;
    } else {
      ExplainedRemains(cal, key, before, e, s);
    }
  }

  /** The watermark keeps exactly the ticks that no earlier tick of the symbol is newer than. */
  lemma MarkDecides(cal: BucketLookup, key: Key, before: seq<Event>, t: Tick)
    requires t.symbol == key.symbol
    ensures var mark := SeriesRun(cal, key, before).mark;
            (mark.None? || mark.value <= t.timestamp) <==> NoNewerBefore(key.symbol, before, t.timestamp)
  {
    MarkIsLatest(cal, key, before);
    KeptLatest(key.symbol, before);
  }

  /** The last bar's bucket is that of a kept tick, so a newer kept tick lies in it or after it. */
  lemma LastBefore(cal: BucketLookup, key: Key, before: seq<Event>, s: Series, t: Tick, b: Bucket)
    requires LastExplained(cal, key, before, s) && Bars(s) != []
    requires NoNewerBefore(key.symbol, before, t.timestamp) && cal(t.timestamp, key.interval) == Some(b)
    ensures var last := Bars(s)[|Bars(s)| - 1].bucket; Follows(last, b) && last.start < last.end
  {
    var last := Bars(s)[|Bars(s)| - 1].bucket;
    var p;
    if s.active.Some? {
      p :| OpenSince(cal, key, before, p, last);
    } else {
      var q;
      p, q :| ClosedBetween(cal, key, before, p, q, last);
    }
    assert KeptIn(cal, key, before, p, last);
    assert before[p] in before;
  }

  lemma SplitBefore(cal: BucketLookup, key: Key, before: seq<Event>, p: int, q: int, r: int, b: Bucket)
    requires ClosedBetween(cal, key, before, p, q, b) && OpenSince(cal, key, before, r, b)
    ensures SplitsBucket(cal, key, before)
  {
    assert SplitAt(cal, key, before, p, q, r, b);
  }

  /** A tick of the active bar's bucket splits it only if an earlier tick already had. */
  lemma ExtendSplitsNothing(cal: BucketLookup, key: Key, before: seq<Event>, e: Event, b: Bucket, r: int)
    requires OpenSince(cal, key, before, r, b) && (forall c :: KeptIn(cal, key, before + [e], |before|, c) ==> c == b)
    ensures SplitsBucket(cal, key, before + [e]) <==> SplitsBucket(cal, key, before)
  {
    if SplitsBucket(cal, key, before) {
      SplitRemains(cal, key, before, e);
    } else if SplitsBucket(cal, key, before + [e]) {
      var p, q, c := SplitIsNew(cal, key, before, e);
      SplitBefore(cal, key, before, p, q, r, b);
    }
  }

  /** A tick of a bucket behind the last bar splits nothing. */
  lemma FreshSplitsNothing(cal: BucketLookup, key: Key, before: seq<Event>, e: Event, b: Bucket, bars: seq<Bar>)
    requires NoneLater(cal, key, before, bars) && (forall c :: KeptIn(cal, key, before + [e], |before|, c) ==> c == b)
    requires bars != [] ==> var last := bars[|bars| - 1].bucket; last != b && Follows(last, b) && last.start < last.end
    requires b.start < b.end
    ensures SplitsBucket(cal, key, before + [e]) <==> SplitsBucket(cal, key, before)
  {
    if SplitsBucket(cal, key, before) {
      SplitRemains(cal, key, before, e);
    } else if SplitsBucket(cal, key, before + [e]) {
      var _, _, c := SplitIsNew(cal, key, before, e);
    }
  }

  lemma KeptNow(cal: BucketLookup, key: Key, before: seq<Event>, t: Tick, b: Bucket)
    requires t.symbol == key.symbol && NoNewerBefore(key.symbol, before, t.timestamp)
    requires cal(t.timestamp, key.interval) == Some(b)
    ensures forall c :: KeptIn(cal, key, before + [Arrive(t)], |before|, c) <==> c == b
    ensures b.start < b.end
  {
    assert (before + [Arrive(t)])[..|before|] == before;
  }

  /** Once a tick of `b` is kept, every kept tick lies in `b` or earlier. */
  lemma NoneLaterNow(cal: BucketLookup, key: Key, before: seq<Event>, e: Event, b: Bucket, bars: seq<Bar>,
      now: seq<Bar>)
    requires NoneLater(cal, key, before, bars) && (forall c :: KeptIn(cal, key, before + [e], |before|, c) ==> c == b)
    requires bars != [] ==> var last := bars[|bars| - 1].bucket; Follows(last, b) && last.start < last.end
    requires now != [] && now[|now| - 1].bucket == b
    ensures NoneLater(cal, key, before + [e], now)
  {
    forall p, c | KeptIn(cal, key, before + [e], p, c) ensures Follows(c, b) {
      if p < |before| { KeptPrefix(cal, key, before, e, p, c); }
    }
  }

  lemma OpenNow(cal: BucketLookup, key: Key, before: seq<Event>, t: Tick, b: Bucket)
    requires KeptIn(cal, key, before + [Arrive(t)], |before|, b)
    ensures OpenSince(cal, key, before + [Arrive(t)], |before|, b)
  {}

  /** A kept tick of the active bar's bucket. */
  lemma TrackExtend(cal: BucketLookup, key: Key, before: seq<Event>, t: Tick, s: Series, b: Bucket)
    requires LastExplained(cal, key, before, s) && s.active.Some? && s.active.value.bucket == b
    requires forall c :: KeptIn(cal, key, before + [Arrive(t)], |before|, c) <==> c == b
    ensures Advance(s.active, t, b).0 == None && Advance(s.active, t, b).1.bucket == b
    ensures NoRepeat(s.done + [Advance(s.active, t, b).1]) <==> NoRepeat(Bars(s))
    ensures SplitsBucket(cal, key, before + [Arrive(t)]) <==> SplitsBucket(cal, key, before)
  {
    OneMore(s.done, s.active.value);
    NoRepeatAppend(s.done, s.active.value);
    NoRepeatAppend(s.done, Advance(s.active, t, b).1);
    var r :| OpenSince(cal, key, before, r, b);
    ExtendSplitsNothing(cal, key, before, Arrive(t), b, r);
  }

  /** A kept tick that opens a bar behind `bars`. */
  lemma TrackAppend(cal: BucketLookup, key: Key, before: seq<Event>, t: Tick, b: Bucket, bars: seq<Bar>)
    requires NoneLater(cal, key, before, bars) && b.start < b.end
    requires NoRepeat(bars) <==> !SplitsBucket(cal, key, before)
    requires forall c :: KeptIn(cal, key, before + [Arrive(t)], |before|, c) <==> c == b
    requires bars != [] ==> var last := bars[|bars| - 1].bucket;
                            Follows(last, b) && last.start < last.end && (last == b ==> Closed(cal, key, before, b))
    ensures NoRepeat(bars + [Seed(t, b)]) <==> !SplitsBucket(cal, key, before + [Arrive(t)])
  {
    var e := Arrive(t);
    NoRepeatAppend(bars, Seed(t, b));
    if bars != [] && bars[|bars| - 1].bucket == b {
      var p, q :| ClosedBetween(cal, key, before, p, q, b);
      KeptPrefix(cal, key, before, e, p, b);
      FinalizedPrefix(before, e, q, b.end);
      assert SplitAt(cal, key, before + [e], p, q, |before|, b);
    } else {
      FreshSplitsNothing(cal, key, before, e, b, bars);
    }
  }

  lemma TrackArrive(cal: BucketLookup, key: Key, before: seq<Event>, t: Tick, s: Series, b: Bucket)
    requires SplitTracked(cal, key, before, s) && t.symbol == key.symbol
    requires s.mark.None? || s.mark.value <= t.timestamp
    requires NoNewerBefore(key.symbol, before, t.timestamp) && cal(t.timestamp, key.interval) == Some(b)
    ensures SplitTracked(cal, key, before + [Arrive(t)], SeriesStep(cal, key, s, Arrive(t)))
  {
    var s', bars := SeriesStep(cal, key, s, Arrive(t)), Bars(s);
    var (done, now) := Advance(s.active, t, b);
    KeptNow(cal, key, before, t, b);
    OpenNow(cal, key, before, t, b);
    if bars != [] { LastBefore(cal, key, before, s, t, b); }
    NothingMore(s.done);
    OneMore(s.done + Optional(done), now);
    if s.active.Some? && s.active.value.bucket == b {
      TrackExtend(cal, key, before, t, s, b);
    } else {
      BehindAppends(s, t, b);
      TrackAppend(cal, key, before, t, b, bars);
    }
    NoneLaterNow(cal, key, before, Arrive(t), b, bars, Bars(s'));
  }

  /** A tick of another bucket than the active bar's appends a bar. */
  lemma BehindAppends(s: Series, t: Tick, b: Bucket)
    requires s.active.Some? ==>
               var a := s.active.value.bucket; a != b && Follows(a, b) && a.start < a.end
    ensures var (done, now) := Advance(s.active, t, b); s.done + Optional(done) == Bars(s) && now == Seed(t, b)
  {}

  lemma TrackQuiet(cal: BucketLookup, key: Key, before: seq<Event>, t: Tick, s: Series)
    requires SplitTracked(cal, key, before, s)
    requires t.symbol == key.symbol ==>
               ((s.mark.None? || s.mark.value <= t.timestamp) <==> NoNewerBefore(key.symbol, before, t.timestamp))
    requires t.symbol != key.symbol || !NoNewerBefore(key.symbol, before, t.timestamp)
             || cal(t.timestamp, key.interval).None?
    ensures SplitTracked(cal, key, before + [Arrive(t)], SeriesStep(cal, key, s, Arrive(t)))
  {
    var e := Arrive(t);
    var s' := SeriesStep(cal, key, s, e);
    assert s'.done == s.done && s'.active == s.active;
    assert (before + [e])[..|before|] == before;
    QuietEvent(cal, key, before, e, Bars(s));
    ExplainedRemains(cal, key, before, e, s);
  }

  lemma {:induction false} SplitsAreTracked(cal: BucketLookup, key: Key, events: seq<Event>)
    ensures SplitTracked(cal, key, events, SeriesRun(cal, key, events))
  {
    if events != [] {
      var before, e := events[..|events| - 1], events[|events| - 1];
      assert before + [e] == events;
      SplitsAreTracked(cal, key, before);
      match e
      case Finalize(asOf) => TrackFinalize(cal, key, before, asOf, SeriesRun(cal, key, before));
      case Arrive(t) =>
        if t.symbol == key.symbol { MarkDecides(cal, key, before, t); }
        var b := cal(t.timestamp, key.interval);
        if t.symbol == key.symbol && NoNewerBefore(key.symbol, before, t.timestamp) && b.Some? {
          TrackArrive(cal, key, before, t, SeriesRun(cal, key, before), b.value);
        } else {
          TrackQuiet(cal, key, before, t, SeriesRun(cal, key, before));
        }
    }
  }

  /**
   The emitted bars are the group-and-fold of the accepted ticks, one bar per bucket, exactly
   when no bucket is finalized between two kept ticks of it.
  */
  lemma EachBucketOnce(cal: BucketLookup, intervals: seq<Interval>, events: seq<Event>, key: Key)
    requires Distinct(intervals) && key.interval in intervals
    ensures IsGrouping(Accepted(cal, key, events), Emitted(cal, intervals, events, key)) <==>
            !SplitsBucket(cal, key, events)
  {
    Separable(cal, intervals, events, key);
    SplitsAreTracked(cal, key, events);
    EmittedIsGrouping(cal, intervals, events, key);
  }

  lemma ArrivalsSplitNothing(cal: BucketLookup, key: Key, events: seq<Event>)
    requires forall e <- events :: e.Arrive?
    ensures NoRepeat(Bars(SeriesRun(cal, key, events)))
    ensures SeriesRun(cal, key, events).active.None? ==> SeriesRun(cal, key, events).done == []
  {
    SplitsAreTracked(cal, key, events);
    forall q, end ensures !FinalizedAt(events, q, end) {
      if 0 <= q < |events| { assert events[q] in events; }
    }
  }

  /** And every bucket can be split: finalization does not advance the watermark. */
  lemma FinalizedBucketReopens(cal: BucketLookup, t: Tick, u: Tick, i: Interval)
    requires t.symbol == u.symbol && t.timestamp <= u.timestamp
    requires cal(t.timestamp, i).Some? && cal(t.timestamp, i) == cal(u.timestamp, i)
    ensures var b := cal(t.timestamp, i).value;
            Emitted(cal, [i], [Arrive(t), Finalize(b.end), Arrive(u)], Key(t.symbol, i)) == [Seed(t, b), Seed(u, b)]
  {
    var b := cal(t.timestamp, i).value;
    var key := Key(t.symbol, i);
    var e0, e1 := [Arrive(t)], [Arrive(t), Finalize(b.end)];
    Separable(cal, [i], e1 + [Arrive(u)], key);
    ReopenSteps(cal, key, t, u, b);
    SeriesRunUnfold(cal, key, [], Arrive(t));
    SeriesRunUnfold(cal, key, e0, Finalize(b.end));
    SeriesRunUnfold(cal, key, e1, Arrive(u));
    assert [] + [Arrive(t)] == e0 && e0 + [Finalize(b.end)] == e1;
    assert e1 + [Arrive(u)] == [Arrive(t), Finalize(b.end), Arrive(u)];
  }

  lemma ReopenSteps(cal: BucketLookup, key: Key, t: Tick, u: Tick, b: Bucket)
    requires t.symbol == u.symbol == key.symbol && t.timestamp <= u.timestamp
    requires cal(t.timestamp, key.interval) == cal(u.timestamp, key.interval) == Some(b)
    ensures var s1 := SeriesStep(cal, key, Series([], None, None), Arrive(t));
            var s2 := SeriesStep(cal, key, s1, Finalize(b.end));
            SeriesStep(cal, key, s2, Arrive(u)) == Series([Seed(t, b)], Some(Seed(u, b)), Some(u.timestamp))
  {
    var none := Optional<Bar>(None);
    assert [] + none == [] && [Seed(t, b)] + none == [Seed(t, b)];
  }

  // ---------- bars of different intervals agree ----------

  function CoarseBucket(cal: BucketLookup, coarse: Interval, b: Bucket): Bucket {
    match cal(b.start, coarse)
    case None => b
    case Some(c) => c
  }

  lemma CoarseOfFine(cal: BucketLookup, fine: Interval, coarse: Interval, t: int)
    requires Nested(cal, fine, coarse) && cal(t, fine).Some?
    ensures cal(t, coarse) == Some(CoarseBucket(cal, coarse, cal(t, fine).value))
  {
    var b := cal(t, fine).value;
    assert cal(b.start, fine) == Some(b);
  }

  lemma {:induction false} PlaceCoarse(cal: BucketLookup, fine: Interval, coarse: Interval, ticks: seq<Tick>)
    requires Nested(cal, fine, coarse)
    ensures var p, q := Place(cal, fine, ticks), Place(cal, coarse, ticks);
            |p| == |q| && forall k :: 0 <= k < |p| ==> q[k] == Placed(p[k].tick, CoarseBucket(cal, coarse, p[k].bucket))
  {
    if ticks != [] {
      var t := ticks[|ticks| - 1].timestamp;
      PlaceCoarse(cal, fine, coarse, ticks[..|ticks| - 1]);
      if cal(t, fine).Some? { CoarseOfFine(cal, fine, coarse, t); }
    }
  }

  /**
   At every reachable state, merging the emitted fine bars inside each coarse bucket gives the
   emitted coarse bars, whenever the fine interval nests in the coarse one.
  */
  lemma FineBarsRebuildCoarse(cal: BucketLookup, intervals: seq<Interval>, events: seq<Event>,
                              symbol: string, fine: Interval, coarse: Interval)
    requires Distinct(intervals) && fine in intervals && coarse in intervals && Nested(cal, fine, coarse)
    ensures Regroup(Emitted(cal, intervals, events, Key(symbol, fine)), b => CoarseBucket(cal, coarse, b))
         == Coalesce(Emitted(cal, intervals, events, Key(symbol, coarse)))
  {
    var f := b => CoarseBucket(cal, coarse, b);
    var (kf, kc) := (Key(symbol, fine), Key(symbol, coarse));
    Separable(cal, intervals, events, kf);
    Separable(cal, intervals, events, kc);
    SeriesGroups(cal, kf, events);
    SeriesGroups(cal, kc, events);
    PlaceCoarse(cal, fine, coarse, InOrder(symbol, events));
    RegroupCorrect(Accepted(cal, kf, events), Accepted(cal, kc, events), f);
    RegroupCoalesced(Emitted(cal, intervals, events, kf), f);
  }

  lemma {:induction false} SameTicksEverywhere(cal: BucketLookup, i: Interval, j: Interval, ticks: seq<Tick>)
    ensures TicksOf(Place(cal, i, ticks)) == TicksOf(Place(cal, j, ticks))
  {
    if ticks != [] {
      SameTicksEverywhere(cal, i, j, ticks[..|ticks| - 1]);
    }
  }

  /** Every interval of a symbol carries the same total volume at every reachable state. */
  lemma VolumeSameAcrossIntervals(cal: BucketLookup, intervals: seq<Interval>, events: seq<Event>,
                                  symbol: string, i: Interval, j: Interval)
    requires Distinct(intervals) && i in intervals && j in intervals
    ensures TotalVolume(Emitted(cal, intervals, events, Key(symbol, i)))
         == TotalVolume(Emitted(cal, intervals, events, Key(symbol, j)))
  {
    EmittedIsGrouping(cal, intervals, events, Key(symbol, i));
    EmittedIsGrouping(cal, intervals, events, Key(symbol, j));
    SameTicksEverywhere(cal, i, j, InOrder(symbol, events));
  }
}
