/**
 The streaming aggregator: one active candle per (symbol, interval), a timestamp
 watermark per symbol, and completed candles handed out at bucket changes.

 The classes mirror the mutable records of the engine; each method is tied to a
 specification function over `EngineState`, whose properties are in CandleAggregation.
 */
module CandleEngine {
  import opened MarketData
  import opened BarGrouping

  datatype Key = Key(symbol: string, interval: Interval)

  datatype CandleUpdate = CandleUpdate(updated: seq<Candle>, completed: seq<Candle>, ignored: bool,
      reason: Option<string>)

  datatype EngineState = EngineState(active: map<Key, Bar>, watermark: map<string, int>)

  class ActiveCandle {
    const symbol: string
    const interval: Interval
    const bucket: Bucket
    var open: real
    var high: real
    var low: real
    var close: real
    var volume: real

    constructor FromTick(t: Tick, i: Interval, b: Bucket)
      ensures symbol == t.symbol && interval == i && View() == Seed(t, b)
    {
      symbol, interval, bucket := t.symbol, i, b;
      open, high, low, close, volume := t.price, t.price, t.price, t.price, t.size;
    }

    ghost function View(): Bar
      reads this
    {
      Bar(bucket, open, high, low, close, volume)
    }

    method Apply(t: Tick)
      modifies this
      ensures View() == Extend(old(View()), t)
    {
      high := Max(high, t.price);
      low := Min(low, t.price);
      close := t.price;
      volume := volume + t.size;
    }

    method ToCandle(isComplete: bool) returns (c: Candle)
      ensures c == Candle(symbol, interval, View(), isComplete)
    {
      c := Candle(symbol, interval, Bar(bucket, open, high, low, close, volume), isComplete);
    }
  }

  // ---------- specification of one engine step ----------

  /** What one in-session tick does to one series: the bar it completes, if any, and the new active bar. */
  function Advance(active: Option<Bar>, t: Tick, b: Bucket): (Option<Bar>, Bar) {
    match active
    case None => (None, Seed(t, b))
    case Some(bar) =>
      if b.start > bar.bucket.start then (Some(bar), Seed(t, b)) else (None, Extend(bar, t))
  }

  function Lookup<K, V>(m: map<K, V>, k: K): Option<V> {
    if k in m then Some(m[k]) else None
  }

  /** Active bars with the updated and completed candles produced so far by one tick. */
  datatype Progress = Progress(active: map<Key, Bar>, updated: seq<Candle>, completed: seq<Candle>)

  function AdvanceInterval(cal: BucketLookup, p: Progress, t: Tick, i: Interval): Progress {
    match cal(t.timestamp, i)
    case None => p
    case Some(b) => AdvanceSeries(p, t, i, b)
  }

  function AdvanceSeries(p: Progress, t: Tick, i: Interval, b: Bucket): Progress {
    var key := Key(t.symbol, i);
    var (done, bar) := Advance(Lookup(p.active, key), t, b);
    Progress(p.active[key := bar],
             p.updated + [Candle(t.symbol, i, bar, false)],
             if done.Some? then p.completed + [Candle(t.symbol, i, done.value, true)] else p.completed)
  }

  function AdvanceAll(cal: BucketLookup, active: map<Key, Bar>, t: Tick, intervals: seq<Interval>): Progress {
    if intervals == [] then Progress(active, [], [])
    else AdvanceInterval(cal, AdvanceAll(cal, active, t, intervals[..|intervals| - 1]), t, intervals[|intervals| - 1])
  }

  predicate Late(watermark: map<string, int>, t: Tick) {
    t.symbol in watermark && t.timestamp < watermark[t.symbol]
  }

  function ProcessTickSpec(cal: BucketLookup, intervals: seq<Interval>, s: EngineState, t: Tick)
    : (EngineState, CandleUpdate)
  {
    if Late(s.watermark, t) then
      (s, CandleUpdate([], [], true, Some("timestamp_precedes_symbol_watermark")))
    else
      var p := AdvanceAll(cal, s.active, t, intervals);
      (EngineState(p.active, s.watermark[t.symbol := t.timestamp]),
       if p.updated == [] then CandleUpdate([], [], true, Some("outside_regular_trading_session"))
       else CandleUpdate(p.updated, p.completed, false, None))
  }

  predicate Expired(bar: Bar, cutoff: int) {
    bar.bucket.end <= cutoff
  }

  function FinalizeSpec(s: EngineState, cutoff: int): EngineState {
    s.(active := map k | k in s.active && !Expired(s.active[k], cutoff) :: s.active[k])
  }

  function ExpiredBars(s: EngineState, cutoff: int): map<Key, Bar> {
    map k | k in s.active && Expired(s.active[k], cutoff) :: s.active[k]
  }

  function KeyOf(c: Candle): Key {
    Key(c.symbol, c.interval)
  }

  ghost predicate IsExpiredCandle(expired: map<Key, Bar>, c: Candle) {
    KeyOf(c) in expired && c == Candle(c.symbol, c.interval, expired[KeyOf(c)], true)
  }

  predicate Distinct<T(==)>(s: seq<T>) {
    forall j, k :: 0 <= j < k < |s| ==> s[j] != s[k]
  }

  // ---------- the engine ----------

  class CandleEngine {
    const calendar: BucketLookup
    const intervals: seq<Interval>
    var active: map<Key, ActiveCandle>
    var watermark: map<string, int>

    /** Every active candle sits under its own key, so no two keys share an object. */
    ghost predicate Valid()
      reads this, active.Values
    {
      && intervals != [] && Distinct(intervals)
      && (forall k <- active :: active[k].symbol == k.symbol && active[k].interval == k.interval)
    }

    ghost function Bars(): map<Key, Bar>
      reads this, active.Values
    {
      map k <- active :: active[k].View()
    }

    ghost function State(): EngineState
      reads this, active.Values
    {
      EngineState(Bars(), watermark)
    }

    /** Empty or repeated interval lists are refused. */
    static method Create(calendar: BucketLookup, intervals: seq<Interval>) returns (r: Option<CandleEngine>)
      ensures r.Some? <==> intervals != [] && Distinct(intervals)
      ensures r.Some? ==> fresh(r.value) && r.value.Valid() && r.value.calendar == calendar
                          && r.value.intervals == intervals && r.value.State() == EngineState(map[], map[])
    {
      if intervals == [] || !Distinct(intervals) {
        return None;
      }
      var engine := new CandleEngine(calendar, intervals);
      r := Some(engine);
    }

    constructor (calendar: BucketLookup, intervals: seq<Interval>)
      requires intervals != [] && Distinct(intervals)
      ensures Valid() && this.calendar == calendar && this.intervals == intervals
      ensures active == map[] && State() == EngineState(map[], map[])
    {
      this.calendar, this.intervals := calendar, intervals;
      active, watermark := map[], map[];
    }

    method ProcessTick(t: Tick) returns (u: CandleUpdate)
      requires Valid()
      modifies this, active.Values
      ensures Valid() && fresh(active.Values - old(active.Values))
      ensures (State(), u) == ProcessTickSpec(calendar, intervals, old(State()), t)
    {
      if t.symbol in watermark && t.timestamp < watermark[t.symbol] {
        return CandleUpdate([], [], true, Some("timestamp_precedes_symbol_watermark"));
      }
      var updated, completed := UpdateAll(t);
      ghost var bars := Bars();
      watermark := watermark[t.symbol := t.timestamp];
      assert Bars() == bars;
      if updated == [] {
        return CandleUpdate([], [], true, Some("outside_regular_trading_session"));
      }
      u := CandleUpdate(updated, completed, false, None);
    }

    /** The loop over the enabled intervals. */
    method UpdateAll(t: Tick) returns (updated: seq<Candle>, completed: seq<Candle>)
      requires Valid()
      modifies this`active, active.Values
      ensures Valid() && fresh(active.Values - old(active.Values))
      ensures Progress(Bars(), updated, completed) == AdvanceAll(calendar, old(Bars()), t, intervals)
    {
      updated, completed := [], [];
      var n := 0;
      while n < |intervals|
        invariant 0 <= n <= |intervals|
        invariant Valid() && fresh(active.Values - old(active.Values))
        invariant Progress(Bars(), updated, completed) == AdvanceAll(calendar, old(Bars()), t, intervals[..n])
      {
        assert intervals[..n + 1][..n] == intervals[..n];
        updated, completed := UpdateInterval(t, intervals[n], updated, completed);
        n := n + 1;
      }
      assert intervals[..n] == intervals;
    }

    /** One iteration of the loop over intervals. */
    method UpdateInterval(t: Tick, i: Interval, updated: seq<Candle>, completed: seq<Candle>)
      returns (updated': seq<Candle>, completed': seq<Candle>)
      requires Valid()
      modifies this`active, active.Values
      ensures Valid() && fresh(active.Values - old(active.Values))
      ensures Progress(Bars(), updated', completed')
           == AdvanceInterval(calendar, Progress(old(Bars()), updated, completed), t, i)
    {
      updated', completed' := updated, completed;
      var bucket := calendar(t.timestamp, i);
      if bucket.Some? {
        var done, snapshot := UpdateSeries(t, i, bucket.value);
        updated' := updated + [snapshot];
        if done.Some? { completed' := completed + [done.value]; }
      }
    }

    /** The part of the loop over intervals that runs for a tick inside a session. */
    method UpdateSeries(t: Tick, i: Interval, bucket: Bucket) returns (done: Option<Candle>, snapshot: Candle)
      requires Valid()
      modifies this`active, active.Values
      ensures Valid() && fresh(active.Values - old(active.Values))
      ensures var (bar, now) := Advance(Lookup(old(Bars()), Key(t.symbol, i)), t, bucket);
              && Bars() == old(Bars())[Key(t.symbol, i) := now]
              && snapshot == Candle(t.symbol, i, now, false)
              && done == (if bar.Some? then Some(Candle(t.symbol, i, bar.value, true)) else None)
    {
      var key := Key(t.symbol, i);
      done := None;
      var current: ActiveCandle? := if key in active then active[key] else null;
      if current != null && bucket.start > current.bucket.start {
        var candle := current.ToCandle(true);
        done := Some(candle);
        current := null;
      }
      if current == null {
        current := new ActiveCandle.FromTick(t, i, bucket);
        active := active[key := current];
      } else {
        current.Apply(t);
      }
      snapshot := current.ToCandle(false);
      assert Bars() == old(Bars())[key := current.View()];
    }

    /** The bars that end no later than `cutoff`, as completed candles; their order is left open. */
    method ExpiredCandles(cutoff: int) returns (completed: seq<Candle>)
      requires Valid()
      ensures Distinct(completed)
      ensures forall c :: c in completed <==> IsExpiredCandle(ExpiredBars(State(), cutoff), c)
    {
      ghost var expired := ExpiredBars(State(), cutoff);
      completed := [];
      var pending := active.Keys;
      while pending != {}
        invariant pending <= active.Keys
        invariant Distinct(completed)
        invariant forall c <- completed :: IsExpiredCandle(expired, c) && KeyOf(c) !in pending
        invariant forall k <- expired :: k in pending || Candle(k.symbol, k.interval, expired[k], true) in completed
        decreases pending
      {
        var k :| k in pending;
        assert forall c <- completed :: KeyOf(c) != k;
        pending := pending - {k};
        if active[k].bucket.end <= cutoff {
          var c := active[k].ToCandle(true);
          assert c !in completed;
          completed := completed + [c];
        }
      }
    }

    method FinalizeThrough(cutoff: int) returns (u: CandleUpdate)
      requires Valid()
      modifies this`active
      ensures Valid() && active.Values <= old(active.Values)
      ensures State() == FinalizeSpec(old(State()), cutoff)
      ensures u == CandleUpdate([], u.completed, false, None) && Distinct(u.completed)
      ensures forall c :: c in u.completed <==> IsExpiredCandle(ExpiredBars(old(State()), cutoff), c)
    {
      var completed := ExpiredCandles(cutoff);
      active := map k | k in active && !(active[k].bucket.end <= cutoff) :: active[k];
      u := CandleUpdate([], completed, false, None);
    }
  }
}
