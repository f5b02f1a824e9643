/** The average true range of each series over its last completed candles. */
module AtrTracker {
  import opened MarketData
  import opened Sequences
  import opened CandleEngine
  import opened CandleAggregation

  function TrueRange(previousClose: Option<real>, bar: Bar): real {
    match previousClose
    case None => bar.high - bar.low
    case Some(p) => Max(Max(bar.high - bar.low, Abs(bar.high - p)), Abs(bar.low - p))
  }

  function LastClose(bars: seq<Bar>): Option<real> {
    if bars == [] then None else Some(bars[|bars| - 1].close)
  }

  function TrueRanges(bars: seq<Bar>): (r: seq<real>)
    ensures |r| == |bars|
  {
    if bars == [] then []
    else
      var before := bars[..|bars| - 1];
      TrueRanges(before) + [TrueRange(LastClose(before), bars[|bars| - 1])]
  }

  function Mean(s: seq<real>): real
    requires s != []
  {
    Sum(s) / |s| as real
  }

  /** The mean of the last `period` true ranges, once there are that many. */
  function Atr(bars: seq<Bar>, period: nat): Option<real>
    requires period > 0
  {
    MeanWhenFull(LastSlice(TrueRanges(bars), period), period)
  }

  function MeanWhenFull(recent: seq<real>, period: nat): Option<real>
    requires period > 0
  {
    if |recent| < period then None else Some(Mean(recent))
  }

  /** What the tracker must remember about one series after the candles `log`. */
  ghost predicate Tracks(previousClose: map<Key, real>, ranges: map<Key, seq<real>>, period: nat, log: seq<Candle>,
      key: Key) {
    var bars := BarsOf(log, key);
    && Lookup(previousClose, key) == LastClose(bars)
    && RangesOf(ranges, key) == LastSlice(TrueRanges(bars), period)
  }

  function RangesOf(ranges: map<Key, seq<real>>, key: Key): seq<real> {
    if key in ranges then ranges[key] else []
  }

  class AtrTracker {
    const period: nat
    var previousClose: map<Key, real>
    var ranges: map<Key, seq<real>>
    /** Every candle seen. */
    ghost var log: seq<Candle>

    ghost predicate Valid()
      reads this
    {
      period > 0 && forall key :: Tracks(previousClose, ranges, period, log, key)
    }

    constructor (period: nat)
      requires period > 0
      ensures Valid() && this.period == period && log == []
    {
      this.period, previousClose, ranges, log := period, map[], map[], [];
    }

    method Update(c: Candle) returns (atr: Option<real>)
      requires Valid()
      modifies this
      ensures Valid() && log == old(log) + [c]
      ensures atr == Atr(BarsOf(log, KeyOf(c)), period)
      ensures var bars := BarsOf(log, KeyOf(c));
              && (atr.Some? <==> |bars| >= period)
              && (atr.Some? ==> Times(atr.value, period) == Sum(LastSlice(TrueRanges(bars), period)))
    {
      var key := KeyOf(c);
      var trueRange := c.bar.high - c.bar.low;
      if key in previousClose {
        var p := previousClose[key];
        trueRange := Max(Max(trueRange, Abs(c.bar.high - p)), Abs(c.bar.low - p));
      }
      assert trueRange == TrueRange(Lookup(previousClose, key), c.bar);
      var recent := LastSlice(RangesOf(ranges, key) + [trueRange], period);
      var closes, newRanges := previousClose[key := c.bar.close], ranges[key := recent];
      ghost var more := log + [c];
      forall k ensures Tracks(closes, newRanges, period, more, k) {
        TrackStep(previousClose, ranges, period, log, c, trueRange, k);
      }
      previousClose, ranges, log := closes, newRanges, more;
      assert Tracks(previousClose, ranges, period, log, key);
      AtrIsMean(BarsOf(log, key), period);
      if |recent| < period {
        return None;
      }
      atr := Some(Mean(recent));
    }
  }

  lemma TrackStep(previousClose: map<Key, real>, ranges: map<Key, seq<real>>, period: nat,
                  log: seq<Candle>, c: Candle, trueRange: real, key: Key)
    requires period > 0 && Tracks(previousClose, ranges, period, log, key)
    requires trueRange == TrueRange(Lookup(previousClose, KeyOf(c)), c.bar)
    ensures var recent := LastSlice(RangesOf(ranges, KeyOf(c)) + [trueRange], period);
            Tracks(previousClose[KeyOf(c) := c.bar.close], ranges[KeyOf(c) := recent], period, log + [c], key)
  {
    BarsOfAppend(log, c, key);
    var bars := BarsOf(log, key);
    if KeyOf(c) == key {
      assert (bars + [c.bar])[..|bars|] == bars;
      SuffixStep(TrueRanges(bars), trueRange, period);
    } else {
      assert BarsOf(log + [c], key) == bars;
    }
  }

  // ---------- what a true range and its mean are ----------

  /** The true range is the span of the bar, together with the previous close when there is one. */
  lemma TrueRangeIsSpan(p: real, bar: Bar)
    requires bar.low <= bar.high
    ensures TrueRange(None, bar) == bar.high - bar.low
    ensures TrueRange(Some(p), bar) == Max(bar.high, p) - Min(bar.low, p)
  {}

  /** The ranges of a series: the first is its bar's own, each later one reaches to the close before it. */
  lemma {:induction false} RangeAt(bars: seq<Bar>, k: nat)
    requires k < |bars| && bars[k].low <= bars[k].high
    ensures TrueRanges(bars)[k] ==
            if k == 0 then bars[0].high - bars[0].low
            else Max(bars[k].high, bars[k - 1].close) - Min(bars[k].low, bars[k - 1].close)
  {
    var n := |bars| - 1;
    if k < n {
      RangeAt(bars[..n], k);
    } else if k > 0 {
      assert LastClose(bars[..n]) == Some(bars[k - 1].close);
      TrueRangeIsSpan(bars[k - 1].close, bars[k]);
    }
  }

  lemma QuotientBack(sum: real, n: nat)
    requires n > 0
    ensures Times(sum / n as real, n) == sum
  {}

  /** There is one exactly for `period` values, and it weighs them equally. */
  predicate IsMean(mean: Option<real>, recent: seq<real>, period: nat) {
    && (mean.Some? <==> |recent| == period)
    && (mean.Some? ==> Times(mean.value, period) == Sum(recent))
  }

  lemma MeanIs(recent: seq<real>, period: nat)
    requires 0 < period && |recent| <= period
    ensures IsMean(MeanWhenFull(recent, period), recent, period)
  {
    QuotientBack(Sum(recent), period);
  }

  /** There is an average from the `period`-th bar on, and it weighs the last `period` true ranges equally. */
  lemma AtrIsMean(bars: seq<Bar>, period: nat)
    requires period > 0
    ensures Atr(bars, period).Some? <==> |bars| >= period
    ensures IsMean(Atr(bars, period), LastSlice(TrueRanges(bars), period), period)
  {
    MeanIs(LastSlice(TrueRanges(bars), period), period);
  }

  lemma {:induction false} SumFront(x: real, s: seq<real>)
    ensures Sum([x] + s) == x + Sum(s)
  {
    var all := [x] + s;
    if s != [] {
      assert all[..|all| - 1] == [x] + s[..|s| - 1];
      SumFront(x, s[..|s| - 1]);
    } else {
      assert all[..0] == [] && Sum(all) == Sum([]) + x;
    }
  }

  lemma WindowSlides(s: seq<real>, x: real, period: nat)
    requires 0 < period <= |s|
    ensures Sum(LastSlice(s + [x], period)) - Sum(LastSlice(s, period)) == x - s[|s| - period]
  {
    var dropped, kept := s[|s| - period], s[|s| - period + 1..];
    assert LastSlice(s, period) == [dropped] + kept && LastSlice(s + [x], period) == kept + [x];
    assert (kept + [x])[..|kept|] == kept;
    SumFront(dropped, kept);
  }

  lemma RangesPrefix(bars: seq<Bar>, n: nat)
    requires |bars| == n + 1
    ensures TrueRanges(bars[..n]) == TrueRanges(bars)[..n]
  {}

  lemma SumSlides(s: seq<real>, more: seq<real>, n: nat, period: nat)
    requires 0 < period <= n == |s| && |more| == n + 1 && s == more[..n]
    ensures Sum(LastSlice(more, period)) - Sum(LastSlice(s, period)) == more[n] - more[n - period]
  {
    assert more == s + [more[n]];
    WindowSlides(s, more[n], period);
  }

  lemma RangesSlide(bars: seq<Bar>, n: nat, period: nat)
    requires 0 < period <= n && |bars| == n + 1
    ensures Sum(LastSlice(TrueRanges(bars), period)) - Sum(LastSlice(TrueRanges(bars[..n]), period))
         == TrueRanges(bars)[n] - TrueRanges(bars)[n - period]
  {
    RangesPrefix(bars, n);
    SumSlides(TrueRanges(bars[..n]), TrueRanges(bars), n, period);
  }

  /** The newest bar moves the average by the difference of the range that enters and the one that leaves. */
  lemma AtrSlides(bars: seq<Bar>, n: nat, period: nat)
    requires 0 < period <= n && |bars| == n + 1
    ensures Atr(bars[..n], period).Some? && Atr(bars, period).Some?
    ensures Times(Atr(bars, period).value, period) - Times(Atr(bars[..n], period).value, period)
         == TrueRanges(bars)[n] - TrueRanges(bars)[n - period]
  {
    AtrIsMean(bars[..n], period);
    AtrIsMean(bars, period);
    RangesSlide(bars, n, period);
  }

  ghost predicate WithinBounds(s: seq<real>, low: real, high: real) {
    forall x <- s :: low <= x <= high
  }

  function Times(x: real, n: nat): real {
    x * n as real
  }

  lemma TimesMore(x: real, n: nat)
    ensures Times(x, n + 1) == Times(x, n) + x
  {
    assert (n + 1) as real == n as real + 1.0;
  }

  lemma {:induction false} SumBounds(s: seq<real>, low: real, high: real)
    requires WithinBounds(s, low, high)
    ensures Times(low, |s|) <= Sum(s) <= Times(high, |s|)
  {
    if s != [] {
      var n := |s| - 1;
      assert s[n] in s && forall x <- s[..n] :: x in s;
      SumBounds(s[..n], low, high);
      TimesMore(low, n);
      TimesMore(high, n);
    }
  }

  lemma Quotient(low: real, sum: real, high: real, n: real)
    requires n > 0.0 && low * n <= sum <= high * n
    ensures low <= sum / n <= high
  {}

  lemma MeanBounds(s: seq<real>, low: real, high: real)
    requires s != [] && WithinBounds(s, low, high)
    ensures low <= Mean(s) <= high
  {
    SumBounds(s, low, high);
    Quotient(low, Sum(s), high, |s| as real);
  }

  /** The average lies between any bounds of the last `period` true ranges. */
  lemma AtrWithinRanges(bars: seq<Bar>, period: nat, low: real, high: real)
    requires 0 < period <= |bars| && WithinBounds(LastSlice(TrueRanges(bars), period), low, high)
    ensures Atr(bars, period).Some? && low <= Atr(bars, period).value <= high
  {
    var recent := LastSlice(TrueRanges(bars), period);
    assert |recent| == period;
    MeanBounds(recent, low, high);
  }
}
