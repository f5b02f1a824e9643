/**
 The tick processor in front of the store and the candle engine: a watermark per symbol that
 drops late ticks when the policy says so.
 */
module TickProcessor {
  import opened MarketData
  import opened CandleAggregation
  import opened TickStore
  import BarGrouping
  import CandleHistory
  import CE = CandleEngine

  datatype State = State(watermark: map<string, int>, kept: seq<Tick>)

  /** One tick: the new state and whether the tick was accepted. */
  function ProcessSpec(reject: bool, s: State, t: Tick): (State, bool) {
    if reject && CE.Late(s.watermark, t) then (s, false)
    else
      var raised := t.symbol !in s.watermark || t.timestamp > s.watermark[t.symbol];
      (State(if raised then s.watermark[t.symbol := t.timestamp] else s.watermark, s.kept + [t]), true)
  }

  function Processed(reject: bool, ticks: seq<Tick>): State {
    if ticks == [] then State(map[], [])
    else ProcessSpec(reject, Processed(reject, ticks[..|ticks| - 1]), ticks[|ticks| - 1]).0
  }

  class TickProcessor {
    const store: InMemoryTickStore
    const reject: bool
    var latest: map<string, int>

    constructor (store: InMemoryTickStore, rejectOutOfOrderTicks: bool)
      ensures this.store == store && reject == rejectOutOfOrderTicks && latest == map[]
    {
      this.store, reject, latest := store, rejectOutOfOrderTicks, map[];
    }

    ghost function View(): State
      reads this, store
    {
      State(latest, store.log)
    }

    method Process(t: Tick) returns (accepted: bool)
      requires store.Valid()
      modifies this, store
      ensures store.Valid()
      ensures (View(), accepted) == ProcessSpec(reject, old(View()), t)
    {
      if reject && t.symbol in latest && t.timestamp < latest[t.symbol] {
        return false;
      }
      store.Append(t);
      if t.symbol !in latest || t.timestamp > latest[t.symbol] {
        latest := latest[t.symbol := t.timestamp];
      }
      accepted := true;
    }
  }

  // ---------- what the watermark is and what passes it ----------

  ghost predicate IsNewest(mark: Option<int>, ticks: seq<Tick>) {
    match mark
    case None => ticks == []
    case Some(m) => (forall t <- ticks :: t.timestamp <= m) && exists t <- ticks :: t.timestamp == m
  }

  /** Under either policy the watermark is the newest timestamp received, dropped ticks included. */
  lemma {:induction false} WatermarkIsNewest(reject: bool, ticks: seq<Tick>, symbol: string)
    ensures IsNewest(CE.Lookup(Processed(reject, ticks).watermark, symbol), OfSymbol(symbol, ticks))
  {
    if ticks != [] {
      var before, t := ticks[..|ticks| - 1], ticks[|ticks| - 1];
      WatermarkIsNewest(reject, before, symbol);
      NewestStep(CE.Lookup(Processed(reject, before).watermark, symbol), OfSymbol(symbol, before), t);
    }
  }

  lemma NewestStep(mark: Option<int>, ticks: seq<Tick>, t: Tick)
    requires IsNewest(mark, ticks)
    ensures mark.Some? && t.timestamp <= mark.value ==> IsNewest(mark, ticks + [t])
    ensures mark.None? || mark.value <= t.timestamp ==> IsNewest(Some(t.timestamp), ticks + [t])
  {
    assert t in ticks + [t];
    assert forall x <- ticks :: x in ticks + [t];
  }

  /** What the engine behind the processor will not drop. */
  function EngineKeeps(symbol: string, ticks: seq<Tick>): seq<Tick> {
    InOrder(symbol, Arrivals(ticks))
  }

  lemma EngineKeepsAppend(symbol: string, ticks: seq<Tick>, t: Tick)
    ensures EngineKeeps(symbol, ticks + [t]) ==
            if t.symbol == symbol && NotOlder(EngineKeeps(symbol, ticks), t) then EngineKeeps(symbol, ticks) + [t]
            else EngineKeeps(symbol, ticks)
  {
    ArrivalsAppend(ticks, t);
    assert (Arrivals(ticks) + [Arrive(t)])[..|Arrivals(ticks)|] == Arrivals(ticks);
  }

  function LastTime(ticks: seq<Tick>): Option<int> {
    if ticks == [] then None else Some(ticks[|ticks| - 1].timestamp)
  }

  lemma RejectStep(s: State, kept: seq<Tick>, t: Tick, symbol: string)
    requires OfSymbol(symbol, s.kept) == kept && CE.Lookup(s.watermark, symbol) == LastTime(kept)
    ensures var s' := ProcessSpec(true, s, t).0;
            var kept' := if t.symbol == symbol && NotOlder(kept, t) then kept + [t] else kept;
            OfSymbol(symbol, s'.kept) == kept' && CE.Lookup(s'.watermark, symbol) == LastTime(kept')
  {
    OfSymbolAppend(symbol, s.kept, t);
  }

  /** The rejecting processor passes on exactly the ticks the engine would have kept. */
  lemma {:induction false} RejectingFiltersAsEngine(ticks: seq<Tick>, symbol: string)
    ensures OfSymbol(symbol, Processed(true, ticks).kept) == EngineKeeps(symbol, ticks)
    ensures CE.Lookup(Processed(true, ticks).watermark, symbol) == LastTime(EngineKeeps(symbol, ticks))
  {
    if ticks != [] {
      var before, t := ticks[..|ticks| - 1], ticks[|ticks| - 1];
      RejectingFiltersAsEngine(before, symbol);
      RejectStep(Processed(true, before), EngineKeeps(symbol, before), t, symbol);
      EngineKeepsAppend(symbol, before, t);
      assert before + [t] == ticks;
    }
  }

  lemma {:induction false} AcceptingKeepsAll(ticks: seq<Tick>)
    ensures Processed(false, ticks).kept == ticks
  {
    if ticks != [] {
      AcceptingKeepsAll(ticks[..|ticks| - 1]);
      assert ticks[..|ticks| - 1] + [ticks[|ticks| - 1]] == ticks;
    }
  }

  lemma {:induction false} ChronologicalKept(symbol: string, ticks: seq<Tick>)
    requires Chronological(OfSymbol(symbol, ticks))
    ensures EngineKeeps(symbol, ticks) == OfSymbol(symbol, ticks)
  {
    if ticks != [] {
      var before, t := ticks[..|ticks| - 1], ticks[|ticks| - 1];
      var some, all := OfSymbol(symbol, before), OfSymbol(symbol, ticks);
      assert before + [t] == ticks;
      OfSymbolAppend(symbol, before, t);
      EngineKeepsAppend(symbol, before, t);
      assert forall k :: 0 <= k < |some| ==> some[k] == all[k];
      ChronologicalKept(symbol, before);
      if t.symbol == symbol && some != [] {
        assert all[|some| - 1].timestamp <= all[|some|].timestamp;
      }
    }
  }

  /** Under the rejecting policy the engine never drops a tick the processor accepted. */
  lemma AcceptedNeverLate(ticks: seq<Tick>, symbol: string)
    ensures EngineKeeps(symbol, Processed(true, ticks).kept) == OfSymbol(symbol, Processed(true, ticks).kept)
  {
    RejectingFiltersAsEngine(ticks, symbol);
    InOrderChronological(symbol, Arrivals(ticks));
    ChronologicalKept(symbol, Processed(true, ticks).kept);
  }

  lemma {:induction false} ArrivalsOnly(ticks: seq<Tick>)
    ensures forall e <- Arrivals(ticks) :: e.Arrive?
  {
    if ticks != [] { ArrivalsOnly(ticks[..|ticks| - 1]); }
  }

  /** Without finalization the emitted bars are the grouping of what the engine keeps. */
  lemma TickRunGroups(cal: BucketLookup, intervals: seq<Interval>, ticks: seq<Tick>, key: CE.Key)
    requires CE.Distinct(intervals) && key.interval in intervals
    ensures Emitted(cal, intervals, Arrivals(ticks), key)
         == BarGrouping.Group(Place(cal, key.interval, EngineKeeps(key.symbol, ticks)))
  {
    ArrivalsOnly(ticks);
    Separable(cal, intervals, Arrivals(ticks), key);
    CandleHistory.TicksAlone(cal, key, Arrivals(ticks));
    SeriesGroups(cal, key, Arrivals(ticks));
  }

  /** So the policy changes the tick store, but never a candle. */
  lemma CandlesIgnorePolicy(cal: BucketLookup, intervals: seq<Interval>, ticks: seq<Tick>, key: CE.Key, reject: bool)
    requires CE.Distinct(intervals) && key.interval in intervals
    ensures Emitted(cal, intervals, Arrivals(Processed(reject, ticks).kept), key)
         == Emitted(cal, intervals, Arrivals(ticks), key)
  {
    if reject {
      AcceptedNeverLate(ticks, key.symbol);
      RejectingFiltersAsEngine(ticks, key.symbol);
      TickRunGroups(cal, intervals, ticks, key);
      TickRunGroups(cal, intervals, Processed(true, ticks).kept, key);
    } else {
      AcceptingKeepsAll(ticks);
    }
  }
}
