/**
 Market-data values shared by the aggregation, strategy and chart modules.

 Timestamps are integers (microseconds since 1970-01-01T00:00Z) and decimals are
 exact reals.
 */
module MarketData {

  datatype Option<+T> = None | Some(value: T)

  datatype Interval =
    | OneMinute | TwoMinutes | ThreeMinutes | FiveMinutes | TenMinutes | FifteenMinutes
    | ThirtyMinutes | FortyFiveMinutes | OneHour | TwoHours | FourHours
    | Daily | Weekly | Monthly

  datatype Tick = Tick(symbol: string, timestamp: int, price: real, size: real)

  datatype Bucket = Bucket(start: int, end: int)

  /** An OHLCV bar without the series it belongs to. */
  datatype Bar = Bar(bucket: Bucket, open: real, high: real, low: real, close: real, volume: real)

  datatype Direction = Buy | Sell | Exit | Hold

  datatype Candle = Candle(symbol: string, interval: Interval, bar: Bar, isComplete: bool)

  // ---------- the calendar as its users see it ----------

  /** The regular-session bucket of an interval that contains a time, if any. */
  type RawLookup = (int, Interval) -> Option<Bucket>

  /**
   What the users of a calendar rely on: a bucket contains its times and starts with one of
   them, buckets follow time without overlap, and being open does not depend on the interval.
  */
  ghost predicate Lawful(cal: RawLookup) {
    && (forall t, i :: cal(t, i).Some? ==> Covers(cal(t, i).value, t) && cal(cal(t, i).value.start, i) == cal(t, i))
    && (forall t, u, i :: t <= u && cal(t, i).Some? && cal(u, i).Some? ==> Follows(cal(t, i).value, cal(u, i).value))
    && (forall t, i, j :: cal(t, i).Some? ==> cal(t, j).Some?)
  }

  type BucketLookup = cal: RawLookup | Lawful(cal) ghost witness (t: int, i: Interval) => None

  predicate Covers(b: Bucket, t: int) {
    b.start <= t < b.end
  }

  predicate Follows(b: Bucket, c: Bucket) {
    b == c || b.end <= c.start
  }

  /** Two times of one fine bucket are in one coarse bucket. */
  ghost predicate Nested(cal: BucketLookup, fine: Interval, coarse: Interval) {
    forall t, u :: cal(t, fine).Some? && cal(t, fine) == cal(u, fine) ==> cal(t, coarse) == cal(u, coarse)
  }

  function Max(a: real, b: real): real {
    if a >= b then a else b
  }

  function Min(a: real, b: real): real {
    if a <= b then a else b
  }

  function Abs(a: real): real {
    if a >= 0.0 then a else -a
  }
}
