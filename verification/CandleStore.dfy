/**
 The bounded in-memory candle store. Each series keeps its candles by start time and, after
 every upsert, evicts the smallest start times until at most `max` remain.
 */
module CandleStore {
  import opened MarketData
  import opened CandleEngine
  import opened KeyOrder

  type Series = map<int, Candle>

  /** `kept` holds the `max` largest of `keys`, or all of them when there are fewer. */
  ghost predicate IsLargest(kept: set<int>, keys: set<int>, max: nat) {
    && kept <= keys
    && |kept| <= max
    && (|kept| < max ==> kept == keys)
    && (forall j, k :: j in keys && j !in kept && k in kept ==> j < k)
  }

  /** The store a sequence of upserts to one series would leave if nothing were ever evicted. */
  function Unbounded(candles: seq<Candle>): Series {
    if candles == [] then map[]
    else var c := candles[|candles| - 1]; Unbounded(candles[..|candles| - 1])[c.bar.bucket.start := c]
  }

  /** What the bounded series must be: the unbounded one restricted to its largest start times. */
  ghost predicate IsBounded(series: Series, all: Series, max: nat) {
    && IsLargest(series.Keys, all.Keys, max)
    && (forall k <- series :: series[k] == all[k])
  }

  // ---------- facts about the largest keys ----------

  lemma {:induction false} SmallerSet<T>(a: set<T>, b: set<T>)
    requires a <= b
    ensures |a| <= |b| && (|a| == |b| ==> a == b)
  {
    if a != {} {
      var x :| x in a;
      SmallerSet(a - {x}, b - {x});
    }
  }

  /** There is only one set of the `max` largest keys. */
  lemma LargestUnique(a: set<int>, b: set<int>, keys: set<int>, max: nat)
    requires IsLargest(a, keys, max) && IsLargest(b, keys, max)
    ensures a == b
  {
    forall x | x in a ensures x in b { LargestContains(a, b, keys, max, x); }
    forall x | x in b ensures x in a { LargestContains(b, a, keys, max, x); }
    assert a == b;
  }

  lemma LargestContains(a: set<int>, b: set<int>, keys: set<int>, max: nat, x: int)
    requires IsLargest(a, keys, max) && IsLargest(b, keys, max) && x in a
    ensures x in b
  {
    if x !in b {
      forall y | y in b ensures y in a {
        assert x < y;
      }
      SmallerSet(b, a - {x});
    }
  }

  /** A key that fits keeps the largest keys the largest. */
  lemma LargestAfterInsert(kept: set<int>, keys: set<int>, max: nat, k: int)
    requires IsLargest(kept, keys, max) && |kept + {k}| <= max
    ensures IsLargest(kept + {k}, keys + {k}, max)
  {
    if k in kept {
      assert kept + {k} == kept && keys + {k} == keys;
    } else {
      assert |kept + {k}| == |kept| + 1;
    }
  }

  /** A key too many, followed by the eviction of the least, keeps the largest keys the largest. */
  lemma LargestAfterEvict(kept: set<int>, keys: set<int>, max: nat, k: int, least: int)
    requires IsLargest(kept, keys, max) && |kept + {k}| > max && IsLeast(least, kept + {k})
    ensures IsLargest(kept + {k} - {least}, keys + {k}, max)
  {
    assert k in kept ==> kept + {k} == kept;
    var rest := kept + {k} - {least};
    assert |rest| == |kept + {k}| - 1;
    assert |kept + {k}| == |kept| + 1;
    forall j, x | j in keys + {k} && j !in rest && x in rest ensures j < x {
      if j != least { assert j in keys && j !in kept; }
    }
  }

  // ---------- specification ----------

  lemma {:induction false} LeastExists(keys: set<int>)
    requires keys != {}
    ensures exists k :: IsLeast(k, keys)
  {
    SomeElement(keys);
    var x :| x in keys;
    if keys == {x} {
      assert IsLeast(x, keys);
    } else {
      LeastExists(keys - {x});
      var j :| IsLeast(j, keys - {x});
      forall i | i in keys ensures x <= i || j <= i {
        if i != x { assert i in keys - {x}; }
      }
      assert IsLeast(if x < j then x else j, keys);
    }
  }

  ghost function Least(keys: set<int>): (k: int)
    requires keys != {}
    ensures IsLeast(k, keys)
  {
    LeastExists(keys);
    var k :| IsLeast(k, keys);
    k
  }

  /** The eviction loop. */
  ghost function Evict(s: Series, max: nat): Series
    decreases |s|
  {
    if |s| <= max then s
    else
      assert s.Keys != {};
      Evict(s - {Least(s.Keys)}, max)
  }

  ghost function Upserted(s: Series, c: Candle, max: nat): Series {
    Evict(s[c.bar.bucket.start := c], max)
  }

  /** One series after a sequence of upserts. */
  ghost function Upserts(candles: seq<Candle>, max: nat): Series {
    if candles == [] then map[] else Upserted(Upserts(candles[..|candles| - 1], max), candles[|candles| - 1], max)
  }

  function OfKey(log: seq<Candle>, key: Key): seq<Candle> {
    if log == [] then []
    else OfKey(log[..|log| - 1], key) + (if KeyOf(log[|log| - 1]) == key then [log[|log| - 1]] else [])
  }

  // ---------- the bounded series is the unbounded one restricted to its largest starts ----------

  lemma EvictOne(s: Series, max: nat)
    requires |s| == max + 1
    ensures s.Keys != {} && Evict(s, max) == s - {Least(s.Keys)}
    ensures Evict(s, max).Keys == s.Keys - {Least(s.Keys)}
  {
    assert |s.Keys| == |s|;
    var rest := s - {Least(s.Keys)};
    assert rest.Keys == s.Keys - {Least(s.Keys)};
    assert |rest| == |rest.Keys|;
  }

  /** At most one key goes, and the others keep their candles. */
  lemma EvictAtMostOne(s: Series, more: Series, k: int, max: nat)
    requires |s| <= max && more.Keys == s.Keys + {k}
    ensures |more| <= max ==> Evict(more, max) == more
    ensures |more| > max ==> more.Keys != {} && Evict(more, max).Keys == more.Keys - {Least(more.Keys)}
    ensures forall j <- Evict(more, max) :: j in more && Evict(more, max)[j] == more[j]
  {
    assert |more| == |more.Keys| && |s| == |s.Keys|;
    assert k in s.Keys ==> more.Keys == s.Keys;
    if |more| > max { EvictOne(more, max); }
  }

  lemma LargestAfterUpsert(kept: set<int>, keys: set<int>, more: set<int>, after: set<int>, max: nat, k: int)
    requires IsLargest(kept, keys, max) && more == kept + {k}
    requires |more| <= max ==> after == more
    requires |more| > max ==> more != {} && after == more - {Least(more)}
    ensures IsLargest(after, keys + {k}, max)
  {
    if |more| <= max {
      LargestAfterInsert(kept, keys, max, k);
    } else {
      LargestAfterEvict(kept, keys, max, k, Least(more));
    }
  }

  lemma UpsertedBounded(s: Series, all: Series, c: Candle, max: nat)
    requires IsBounded(s, all, max)
    ensures IsBounded(Upserted(s, c, max), all[c.bar.bucket.start := c], max)
  {
    var k := c.bar.bucket.start;
    var more, wide := s[k := c], all[k := c];
    KeysAfter(s, k, c);
    KeysAfter(all, k, c);
    assert |more| == |more.Keys| && |s| == |s.Keys|;
    EvictAtMostOne(s, more, k, max);
    var kept := Evict(more, max);
    LargestAfterUpsert(s.Keys, all.Keys, more.Keys, kept.Keys, max, k);
    forall j <- kept ensures kept[j] == wide[j] {
      assert j in kept.Keys && j in wide.Keys;
    }
  }

  lemma KeysAfter(s: Series, k: int, c: Candle)
    ensures s[k := c].Keys == s.Keys + {k}
  {
    assert s[k := c].Keys == s.Keys + {k};
  }

  /**
   Evicted keys that are written again included: after any upserts the series holds, for the
   largest start times ever written, the candle written last.
  */
  lemma {:induction false} BoundedSeries(candles: seq<Candle>, max: nat)
    ensures IsBounded(Upserts(candles, max), Unbounded(candles), max)
  {
    if candles != [] {
      BoundedSeries(candles[..|candles| - 1], max);
      UpsertedBounded(Upserts(candles[..|candles| - 1], max), Unbounded(candles[..|candles| - 1]),
                      candles[|candles| - 1], max);
    }
  }

  lemma BoundedUnique(s: Series, t: Series, all: Series, max: nat)
    requires IsBounded(s, all, max) && IsBounded(t, all, max)
    ensures s == t
  {
    LargestUnique(s.Keys, t.Keys, all.Keys, max);
    assert s.Keys == t.Keys;
    assert forall k <- s :: k in t && s[k] == t[k];
    assert s == t;
  }

  /** The latest candle of the bounded series is the latest of the unbounded one. */
  lemma LatestAgrees(s: Series, all: Series, max: nat, k: int)
    requires max > 0 && IsBounded(s, all, max) && IsGreatest(k, s.Keys)
    ensures IsGreatest(k, all.Keys) && s[k] == all[k]
  {
  }

  /** The completed and the new active candle of a bucket change may be written in either order. */
  lemma WriteOrderIrrelevant(candles: seq<Candle>, a: Candle, b: Candle, max: nat)
    requires a.bar.bucket.start != b.bar.bucket.start
    ensures Upserts(candles + [a] + [b], max) == Upserts(candles + [b] + [a], max)
  {
    UnboundedAppend(candles, a);
    UnboundedAppend(candles, b);
    UnboundedAppend(candles + [a], b);
    UnboundedAppend(candles + [b], a);
    BoundedSeries(candles + [a] + [b], max);
    BoundedSeries(candles + [b] + [a], max);
    BoundedUnique(Upserts(candles + [a] + [b], max), Upserts(candles + [b] + [a], max),
                  Unbounded(candles + [a] + [b]), max);
  }

  lemma {:induction false} UnboundedFiled(candles: seq<Candle>)
    ensures FiledByStart(Unbounded(candles))
  {
    if candles != [] {
      UnboundedFiled(candles[..|candles| - 1]);
    }
  }

  lemma UnboundedAppend(candles: seq<Candle>, c: Candle)
    ensures Unbounded(candles + [c]) == Unbounded(candles)[c.bar.bucket.start := c]
  {
    assert (candles + [c])[..|candles|] == candles;
  }

  lemma UpsertsAppend(candles: seq<Candle>, c: Candle, max: nat)
    ensures Upserts(candles + [c], max) == Upserted(Upserts(candles, max), c, max)
  {
    assert (candles + [c])[..|candles|] == candles;
  }

  lemma OfKeyAppend(log: seq<Candle>, c: Candle, key: Key)
    ensures OfKey(log + [c], key) == OfKey(log, key) + (if KeyOf(c) == key then [c] else [])
  {
    assert (log + [c])[..|log|] == log;
  }

  lemma LogStep(log: seq<Candle>, c: Candle, key: Key, max: nat)
    ensures Upserts(OfKey(log + [c], key), max)
         == (if key == KeyOf(c) then Upserted(Upserts(OfKey(log, key), max), c, max) else Upserts(OfKey(log, key), max))
  {
    OfKeyAppend(log, c, key);
    if key == KeyOf(c) {
      UpsertsAppend(OfKey(log, key), c, max);
    } else {
      assert OfKey(log + [c], key) == OfKey(log, key);
    }
  }

  // ---------- the store ----------

  predicate InRange(c: Candle, startAt: int, endAt: int) {
    startAt <= c.bar.bucket.start && c.bar.bucket.end <= endAt
  }

  ghost predicate Holds(s: Series, c: Candle) {
    c.bar.bucket.start in s && s[c.bar.bucket.start] == c
  }

  ghost predicate FiledByStart(s: Series) {
    forall k <- s :: s[k].bar.bucket.start == k
  }

  method EvictSmallest(before: Series, max: nat) returns (series: Series)
    ensures series == Evict(before, max)
  {
    series := before;
    while |series| > max
      invariant Evict(series, max) == Evict(before, max)
      decreases |series|
    {
      assert series.Keys != {} by { assert |series.Keys| == |series|; }
      var least := LeastKey(series.Keys);
      LeastIs(least, series.Keys);
      series := series - {least};
    }
  }

  lemma LeastIs(k: int, keys: set<int>)
    requires IsLeast(k, keys)
    ensures keys != {} && k == Least(keys)
  {
    assert k in keys;
  }

  /** The candles of a series inside a range, in ascending start order. */
  method Listed(series: Series, startAt: int, endAt: int) returns (r: seq<Candle>)
    requires FiledByStart(series)
    ensures forall i, j :: 0 <= i < j < |r| ==> r[i].bar.bucket.start < r[j].bar.bucket.start
    ensures forall c :: c in r <==> Holds(series, c) && InRange(c, startAt, endAt)
  {
    var starts := SortedKeys(series.Keys);
    assert forall j :: 0 <= j < |starts| ==> starts[j] in starts;
    r := [];
    for n := 0 to |starts|
      invariant forall i :: 0 <= i < |r| ==> n < |starts| ==> r[i].bar.bucket.start < starts[n]
      invariant forall i :: 0 <= i < |r| ==> Holds(series, r[i]) && InRange(r[i], startAt, endAt)
      invariant forall j :: 0 <= j < n && InRange(series[starts[j]], startAt, endAt) ==> series[starts[j]] in r
      invariant forall i, j :: 0 <= i < j < |r| ==> r[i].bar.bucket.start < r[j].bar.bucket.start
    {
      if startAt <= starts[n] && series[starts[n]].bar.bucket.end <= endAt {
        r := r + [series[starts[n]]];
      }
    }
    forall c | Holds(series, c) && InRange(c, startAt, endAt) ensures c in r {
      assert c.bar.bucket.start in starts;
    }
  }

  class InMemoryCandleStore {
    const max: nat
    var candles: map<Key, Series>
    /** Every candle ever written. */
    ghost var log: seq<Candle>

    function SeriesOf(key: Key): Series
      reads this
    {
      if key in candles then candles[key] else map[]
    }

    ghost predicate Valid()
      reads this
    {
      max > 0 && forall key :: SeriesOf(key) == Upserts(OfKey(log, key), max)
    }

    /** None where the store's constructor raises. */
    static method Create(max: int) returns (r: Option<InMemoryCandleStore>)
      ensures r.Some? <==> max > 0
      ensures r.Some? ==> fresh(r.value) && r.value.Valid() && r.value.max == max && r.value.log == []
    {
      if max <= 0 {
        return None;
      }
      var store := new InMemoryCandleStore(max);
      r := Some(store);
    }

    constructor (max: nat)
      requires max > 0
      ensures Valid() && this.max == max && log == []
    {
      this.max, candles, log := max, map[], [];
    }

    method Upsert(c: Candle)
      requires Valid()
      modifies this
      ensures Valid() && log == old(log) + [c]
    {
      var key := KeyOf(c);
      var series := EvictSmallest(SeriesOf(key)[c.bar.bucket.start := c], max);
      candles := candles[key := series];
      log := log + [c];
      forall k ensures SeriesOf(k) == Upserts(OfKey(log, k), max) {
        LogStep(old(log), c, k, max);
      }
    }

    /** The candle written last for the largest start time ever written. */
    method Latest(key: Key) returns (r: Option<Candle>)
      requires Valid()
      ensures r.None? <==> OfKey(log, key) == []
      ensures r.Some? ==> exists k :: IsGreatest(k, Unbounded(OfKey(log, key)).Keys)
                                   && r.value == Unbounded(OfKey(log, key))[k]
    {
      var series := SeriesOf(key);
      BoundedSeries(OfKey(log, key), max);
      if series == map[] {
        return None;
      }
      assert series.Keys != {};
      var k := GreatestKey(series.Keys);
      LatestAgrees(series, Unbounded(OfKey(log, key)), max, k);
      r := Some(series[k]);
    }

    /** The kept candles inside the range, in ascending start order, each once. */
    method ListCandles(key: Key, startAt: int, endAt: int) returns (r: seq<Candle>)
      requires Valid()
      ensures forall i, j :: 0 <= i < j < |r| ==> r[i].bar.bucket.start < r[j].bar.bucket.start
      ensures forall c :: c in r <==> Holds(Upserts(OfKey(log, key), max), c)
                                      && startAt <= c.bar.bucket.start && c.bar.bucket.end <= endAt
    {
      BoundedSeries(OfKey(log, key), max);
      UnboundedFiled(OfKey(log, key));
      r := Listed(SeriesOf(key), startAt, endAt);
    }
  }
}
