/** The bounded in-memory tick store: the last ticks of each symbol. */
module TickStore {
  import opened MarketData
  import opened Sequences
  import opened CandleAggregation

  datatype Query = Query(startAt: Option<int>, endAt: Option<int>, limit: Option<int>)

  predicate Wanted(q: Query, t: Tick) {
    && (q.startAt.Some? ==> t.timestamp >= q.startAt.value)
    && (q.endAt.Some? ==> t.timestamp <= q.endAt.value)
  }

  function Select(q: Query, ticks: seq<Tick>): seq<Tick> {
    if ticks == [] then []
    else Select(q, ticks[..|ticks| - 1]) + (if Wanted(q, ticks[|ticks| - 1]) then [ticks[|ticks| - 1]] else [])
  }

  class InMemoryTickStore {
    const max: nat
    var ticks: map<string, seq<Tick>>
    /** Every tick ever appended. */
    ghost var log: seq<Tick>

    function TicksOf(symbol: string): seq<Tick>
      reads this
    {
      if symbol in ticks then ticks[symbol] else []
    }

    ghost predicate Valid()
      reads this
    {
      max > 0 && forall symbol :: TicksOf(symbol) == LastSlice(OfSymbol(symbol, log), max)
    }

    /** None where the store's constructor raises. */
    static method Create(max: int) returns (r: Option<InMemoryTickStore>)
      ensures r.Some? <==> max > 0
      ensures r.Some? ==> fresh(r.value) && r.value.Valid() && r.value.max == max && r.value.log == []
    {
      if max <= 0 {
        return None;
      }
      var store := new InMemoryTickStore(max);
      r := Some(store);
    }

    constructor (max: nat)
      requires max > 0
      ensures Valid() && this.max == max && log == []
    {
      this.max, ticks, log := max, map[], [];
    }

    method Append(t: Tick)
      requires Valid()
      modifies this
      ensures Valid() && log == old(log) + [t]
    {
      ticks := ticks[t.symbol := LastSlice(TicksOf(t.symbol) + [t], max)];
      log := log + [t];
      forall symbol ensures TicksOf(symbol) == LastSlice(OfSymbol(symbol, log), max) {
        OfSymbolAppend(symbol, old(log), t);
        if symbol == t.symbol {
          SuffixStep(OfSymbol(symbol, old(log)), t, max);
        } else {
          assert TicksOf(symbol) == old(TicksOf(symbol));
        }
      }
    }

    method Latest(symbol: string) returns (r: Option<Tick>)
      requires Valid()
      ensures r.None? <==> OfSymbol(symbol, log) == []
      ensures r.Some? ==> r.value == OfSymbol(symbol, log)[|OfSymbol(symbol, log)| - 1]
    {
      var kept := TicksOf(symbol);
      r := if kept == [] then None else Some(kept[|kept| - 1]);
    }

    /** None where the store raises. */
    method ListTicks(symbol: string, q: Query) returns (r: Option<seq<Tick>>)
      requires Valid()
      ensures r.None? <==> q.limit.Some? && q.limit.value <= 0
      ensures r.Some? ==>
                var all := Select(q, LastSlice(OfSymbol(symbol, log), max));
                r.value == (if q.limit.Some? then LastSlice(all, q.limit.value) else all)
    {
      if q.limit.Some? && q.limit.value <= 0 {
        return None;
      }
      var all := Select(q, TicksOf(symbol));
      r := Some(if q.limit.Some? then LastSlice(all, q.limit.value) else all);
    }
  }

  /** At or after the start, and at or before the end, of those that are given. */
  ghost predicate Inside(q: Query, time: int) {
    && (forall start :: q.startAt == Some(start) ==> start <= time)
    && (forall end :: q.endAt == Some(end) ==> time <= end)
  }

  /** `r` reads `ticks` at exactly the positions inside the query, in order. */
  ghost predicate IsSelection(q: Query, ticks: seq<Tick>, r: seq<Tick>, at: seq<int>) {
    && |at| == |r|
    && (forall k :: 0 <= k < |r| ==> 0 <= at[k] < |ticks| && r[k] == ticks[at[k]])
    && (forall j, k :: 0 <= j < k < |r| ==> at[j] < at[k])
    && (forall i :: 0 <= i < |ticks| ==> (i in at <==> Inside(q, ticks[i].timestamp)))
  }

  lemma SelectionAppend(q: Query, ticks: seq<Tick>, t: Tick, r: seq<Tick>, at: seq<int>)
    requires IsSelection(q, ticks, r, at)
    ensures Wanted(q, t) ==> IsSelection(q, ticks + [t], r + [t], at + [|ticks|])
    ensures !Wanted(q, t) ==> IsSelection(q, ticks + [t], r, at)
  {
    assert Wanted(q, t) <==> Inside(q, t.timestamp);
    assert forall i :: i in at ==> i < |ticks|;
  }

  /** Every wanted tick once per occurrence, in the order of the store, and nothing else. */
  lemma {:induction false} SelectCorrect(q: Query, ticks: seq<Tick>) returns (at: seq<int>)
    ensures IsSelection(q, ticks, Select(q, ticks), at)
    ensures Chronological(ticks) ==> Chronological(Select(q, ticks))
  {
    at := [];
    if ticks != [] {
      var before, t := ticks[..|ticks| - 1], ticks[|ticks| - 1];
      assert before + [t] == ticks;
      at := SelectCorrect(q, before);
      SelectionAppend(q, before, t, Select(q, before), at);
      if Wanted(q, t) {
        at := at + [|before|];
      } else {
        assert Select(q, ticks) == Select(q, before);
      }
    }
    ChronologicalSelection(q, ticks, Select(q, ticks), at);
  }

  lemma ChronologicalSelection(q: Query, ticks: seq<Tick>, r: seq<Tick>, at: seq<int>)
    requires IsSelection(q, ticks, r, at)
    ensures Chronological(ticks) ==> Chronological(r)
  {
    if Chronological(ticks) {
      forall j, k | 0 <= j <= k < |r| ensures r[j].timestamp <= r[k].timestamp {
        assert at[j] <= at[k];
      }
    }
  }
}
