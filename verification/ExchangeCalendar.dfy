/**
 Session-aligned candle buckets over an abstract trading calendar.

 The calendar library is a sorted sequence of disjoint sessions. A session carries
 its date (a day number) and the first and last day of its month.
 */
module ExchangeCalendar {
  import opened MarketData

  const MINUTE: int := 60_000_000

  datatype Session = Session(open: int, close: int, date: int, monthStart: int, monthEnd: int)

  ghost predicate WellFormed(sessions: seq<Session>) {
    && (forall i :: 0 <= i < |sessions| ==>
         sessions[i].open < sessions[i].close
         && sessions[i].monthStart <= sessions[i].date <= sessions[i].monthEnd)
    && (forall i, j {:trigger Precedes(sessions[i], sessions[j])} ::
         0 <= i < j < |sessions| ==> Precedes(sessions[i], sessions[j]))
  }

  /** An earlier session closes first, has an earlier date, and lies in the same month or an earlier one. */
  ghost predicate Precedes(a: Session, b: Session) {
    && a.close <= b.open
    && a.date < b.date
    && ((a.monthStart == b.monthStart && a.monthEnd == b.monthEnd) || a.monthEnd < b.monthStart)
  }

  type Calendar = s: seq<Session> | WellFormed(s) witness []

  predicate Intraday(i: Interval) {
    !i.Daily? && !i.Weekly? && !i.Monthly?
  }

  function Minutes(i: Interval): (m: int)
    requires Intraday(i)
    ensures 1 <= m <= 240
  {
    match i
    case OneMinute => 1
    case TwoMinutes => 2
    case ThreeMinutes => 3
    case FiveMinutes => 5
    case TenMinutes => 10
    case FifteenMinutes => 15
    case ThirtyMinutes => 30
    case FortyFiveMinutes => 45
    case OneHour => 60
    case TwoHours => 120
    case FourHours => 240
  }

  function Duration(i: Interval): (d: int)
    requires Intraday(i)
    ensures d > 0
  {
    Minutes(i) * MINUTE
  }

  // ---------- calendar lookups ----------

  ghost predicate InSession(s: Session, t: int) {
    s.open <= t < s.close
  }

  ghost predicate IsOpen(cal: Calendar, t: int) {
    exists k :: 0 <= k < |cal| && InSession(cal[k], t)
  }

  /** Index of the session containing `t`, searching from `from`. */
  function SessionAt(cal: Calendar, t: int, from: nat := 0): (r: Option<nat>)
    requires from <= |cal|
    ensures r.Some? ==> from <= r.value < |cal| && InSession(cal[r.value], t)
    ensures r.None? ==> forall k :: from <= k < |cal| ==> !InSession(cal[k], t)
    decreases |cal| - from
  {
    if from == |cal| then None
    else if cal[from].open <= t < cal[from].close then Some(from)
    else SessionAt(cal, t, from + 1)
  }

  /** First session dated on or after `date`; the lookup with direction "next". */
  function NextSession(cal: Calendar, date: int, from: nat := 0): (r: nat)
    requires from <= |cal|
    ensures from <= r <= |cal|
    ensures r < |cal| ==> cal[r].date >= date
    ensures forall k :: from <= k < r ==> cal[k].date < date
    decreases |cal| - from
  {
    if from == |cal| || cal[from].date >= date then from else NextSession(cal, date, from + 1)
  }

  /** One past the last session dated on or before `date`; the lookup with direction "previous". */
  function PreviousSession(cal: Calendar, date: int, upTo: nat := |cal|): (r: nat)
    requires upTo <= |cal|
    ensures r <= upTo
    ensures r > 0 ==> cal[r - 1].date <= date
    ensures forall k :: r <= k < upTo ==> cal[k].date > date
  {
    if upTo == 0 || cal[upTo - 1].date <= date then upTo else PreviousSession(cal, date, upTo - 1)
  }

  /** Day 0 is a Thursday, so Monday is weekday 0. */
  function WeekStart(date: int): int {
    date - (date + 3) % 7
  }

  /** First and last day of the week or month that holds session `k`. */
  function SpanOf(cal: Calendar, k: nat, i: Interval): (int, int)
    requires k < |cal| && (i.Weekly? || i.Monthly?)
  {
    if i.Weekly? then (WeekStart(cal[k].date), WeekStart(cal[k].date) + 6)
    else (cal[k].monthStart, cal[k].monthEnd)
  }

  /** From the open of the first session to the close of the last session of the span of days. */
  function SpanBoundaries(cal: Calendar, k: nat, i: Interval): (b: Bucket)
    requires k < |cal| && (i.Weekly? || i.Monthly?)
  {
    var (first, last) := SpanOf(cal, k, i);
    Bucket(cal[NextSession(cal, first)].open, cal[PreviousSession(cal, last) - 1].close)
  }

  function IntradayBucket(s: Session, t: int, d: int): Bucket
    requires d > 0
  {
    var start := s.open + (t - s.open) / d * d;
    Bucket(start, if start + d <= s.close then start + d else s.close)
  }

  function BucketIn(cal: Calendar, k: nat, t: int, i: Interval): Bucket
    requires k < |cal|
  {
    if Intraday(i) then IntradayBucket(cal[k], t, Duration(i))
    else if i.Daily? then Bucket(cal[k].open, cal[k].close)
    else SpanBoundaries(cal, k, i)
  }

  function BucketFor(cal: Calendar, t: int, i: Interval): Option<Bucket> {
    match SessionAt(cal, t)
    case None => None
    case Some(k) => Some(BucketIn(cal, k, t, i))
  }

  // ---------- buckets partition trading time ----------

  lemma SessionOrder(cal: Calendar, j: nat, k: nat)
    requires j < k < |cal|
    ensures Precedes(cal[j], cal[k])
  {}

  lemma SessionUnique(cal: Calendar, t: int, k: nat)
    requires k < |cal| && InSession(cal[k], t)
    ensures SessionAt(cal, t) == Some(k)
  {
    var j := SessionAt(cal, t).value;
    if j < k { SessionOrder(cal, j, k); }
    if k < j { SessionOrder(cal, k, j); }
  }

  lemma FloorBounds(a: int, d: int)
    requires d > 0
    ensures a / d * d <= a < a / d * d + d
  {}

  lemma {:induction false} ProductOrder(x: int, y: int, d: int)
    requires d > 0 && x < y
    ensures x * d + d <= y * d
    decreases y - x
  {
    OneMoreTimes(y - 1, d);
    if x + 1 < y { ProductOrder(x, y - 1, d); }
  }

  lemma OneMoreTimes(x: int, d: int)
    ensures (x + 1) * d == x * d + d
  {}

  lemma FloorGap(a: int, b: int, d: int)
    requires d > 0 && a <= b
    ensures a / d * d == b / d * d || a / d * d + d <= b / d * d
  {
    var x, y := a / d, b / d;
    FloorBounds(a, d);
    FloorBounds(b, d);
    if y < x { ProductOrder(y, x, d); }
    if x < y { ProductOrder(x, y, d); }
  }

  lemma WeekGap(a: int, b: int)
    requires a <= b
    ensures WeekStart(a) == WeekStart(b) || WeekStart(a) + 6 < WeekStart(b)
  {}

  lemma SpanContains(cal: Calendar, k: nat, i: Interval)
    requires k < |cal| && (i.Weekly? || i.Monthly?)
    ensures var (first, last) := SpanOf(cal, k, i);
            NextSession(cal, first) <= k < PreviousSession(cal, last)
    ensures var (first, last) := SpanOf(cal, k, i); first <= cal[k].date <= last
  {}

  lemma SpanGap(cal: Calendar, j: nat, k: nat, i: Interval)
    requires j <= k < |cal| && (i.Weekly? || i.Monthly?)
    ensures SpanOf(cal, j, i) == SpanOf(cal, k, i) || SpanOf(cal, j, i).1 < SpanOf(cal, k, i).0
  {
    if j < k { SessionOrder(cal, j, k); }
    WeekGap(cal[j].date, cal[k].date);
  }

  lemma LookupOrder(cal: Calendar, j: nat, k: nat, last: int, first: int)
    requires j < |cal| && k < |cal| && cal[j].date <= last < first <= cal[k].date
    ensures NextSession(cal, first) < |cal| && PreviousSession(cal, last) > 0
    ensures cal[PreviousSession(cal, last) - 1].close <= cal[NextSession(cal, first)].open
  {
    var p, q := PreviousSession(cal, last) - 1, NextSession(cal, first);
    if q < p { SessionOrder(cal, q, p); }
    if p < q { SessionOrder(cal, p, q); }
  }

  lemma SpanOrder(cal: Calendar, j: nat, k: nat, i: Interval)
    requires j <= k < |cal| && (i.Weekly? || i.Monthly?)
    ensures SpanOf(cal, j, i) == SpanOf(cal, k, i)
            || SpanBoundaries(cal, j, i).end <= SpanBoundaries(cal, k, i).start
  {
    SpanContains(cal, j, i);
    SpanContains(cal, k, i);
    SpanGap(cal, j, k, i);
    if SpanOf(cal, j, i) != SpanOf(cal, k, i) {
      LookupOrder(cal, j, k, SpanOf(cal, j, i).1, SpanOf(cal, k, i).0);
    }
  }

  /** Every bucket contains the time it was computed for. */
  lemma BucketContains(cal: Calendar, t: int, i: Interval)
    requires BucketFor(cal, t, i).Some?
    ensures var b := BucketFor(cal, t, i).value; b.start <= t < b.end
  {
    var k := SessionAt(cal, t).value;
    if Intraday(i) {
      FloorBounds(t - cal[k].open, Duration(i));
    } else if !i.Daily? {
      SpanContains(cal, k, i);
      var (first, last) := SpanOf(cal, k, i);
      var p, q := NextSession(cal, first), PreviousSession(cal, last) - 1;
      if p < k { SessionOrder(cal, p, k); }
      if k < q { SessionOrder(cal, k, q); }
    }
  }

  /** Buckets follow time: two trading times share a bucket, or the first bucket ends before the second starts. */
  lemma BucketOrder(cal: Calendar, t: int, u: int, i: Interval)
    requires t <= u
    requires BucketFor(cal, t, i).Some? && BucketFor(cal, u, i).Some?
    ensures var (b, c) := (BucketFor(cal, t, i).value, BucketFor(cal, u, i).value);
            b == c || b.end <= c.start
  {
    var j, k := SessionAt(cal, t).value, SessionAt(cal, u).value;
    if k < j { SessionOrder(cal, k, j); }
    if j < k { SessionOrder(cal, j, k); }
    if Intraday(i) {
      IntradayOrder(cal[j], cal[k], j == k, t, u, Duration(i));
    } else if !i.Daily? {
      SpanOrder(cal, j, k, i);
    }
  }

  lemma IntradayOrder(r: Session, s: Session, same: bool, t: int, u: int, d: int)
    requires d > 0 && t <= u && InSession(r, t) && InSession(s, u)
    requires if same then r == s else r.close <= s.open
    ensures var (b, c) := (IntradayBucket(r, t, d), IntradayBucket(s, u, d)); b == c || b.end <= c.start
  {
    if same {
      FloorGap(t - r.open, u - r.open, d);
    } else {
      FloorGap(0, u - s.open, d);
    }
  }

  /** A trading time lies inside a bucket exactly when that bucket is its own. */
  lemma BucketPartition(cal: Calendar, t: int, u: int, i: Interval)
    requires BucketFor(cal, t, i).Some? && BucketFor(cal, u, i).Some?
    ensures var b := BucketFor(cal, t, i).value;
            b.start <= u < b.end <==> BucketFor(cal, u, i).value == b
  {
    BucketContains(cal, t, i);
    BucketContains(cal, u, i);
    if t <= u {
      BucketOrder(cal, t, u, i);
    } else {
      BucketOrder(cal, u, t, i);
    }
  }

  /** The start of a bucket is a trading time of that bucket. */
  lemma BucketStartIsOpen(cal: Calendar, t: int, i: Interval)
    requires BucketFor(cal, t, i).Some?
    ensures var b := BucketFor(cal, t, i).value; BucketFor(cal, b.start, i) == Some(b)
  {
    var k := SessionAt(cal, t).value;
    var b := BucketFor(cal, t, i).value;
    BucketContains(cal, t, i);
    if Intraday(i) {
      var d := Duration(i);
      FloorGap(0, t - cal[k].open, d);
      assert InSession(cal[k], b.start);
      SessionUnique(cal, b.start, k);
    } else if i.Daily? {
      assert InSession(cal[k], b.start);
      SessionUnique(cal, b.start, k);
    } else {
      SpanContains(cal, k, i);
      var p := NextSession(cal, SpanOf(cal, k, i).0);
      assert InSession(cal[p], b.start);
      SessionUnique(cal, b.start, p);
    }
    BucketPartition(cal, t, b.start, i);
  }

  // ---------- the shape of a bucket ----------

  /** A time has a bucket exactly while a session is open. */
  lemma BucketWhileOpen(cal: Calendar, t: int, i: Interval)
    ensures BucketFor(cal, t, i).Some? <==> IsOpen(cal, t)
  {}

  lemma ProductDivides(x: int, d: int)
    requires d > 0
    ensures (x * d) % d == 0
  {
    var p := x * d;
    var q := p / d;
    assert p == q * d + p % d && 0 <= p % d < d;
    if q < x { ProductOrder(q, x, d); }
    if x < q { ProductOrder(x, q, d); }
  }

  /**
   An intraday bucket lies in one session, a whole number of durations after its open, and is
   a full duration long unless the close cuts it short.
  */
  lemma IntradayShape(cal: Calendar, t: int, i: Interval)
    requires Intraday(i) && BucketFor(cal, t, i).Some?
    ensures var s := cal[SessionAt(cal, t).value]; var b := BucketFor(cal, t, i).value; var d := Duration(i);
            && s.open <= b.start < b.end <= s.close
            && (b.start - s.open) % d == 0
            && (b.end - b.start == d || (b.end == s.close && b.end - b.start < d))
  {
    var s := cal[SessionAt(cal, t).value];
    var d := Duration(i);
    BucketContains(cal, t, i);
    FloorGap(0, t - s.open, d);
    ProductDivides((t - s.open) / d, d);
  }

  /** The bucket of an open lasts the minutes its interval is named for, unless the session is shorter. */
  lemma FirstBucketLasts(cal: Calendar, k: nat, i: Interval)
    requires k < |cal| && Intraday(i)
    ensures var named := map[OneMinute := 1, TwoMinutes := 2, ThreeMinutes := 3, FiveMinutes := 5, TenMinutes := 10,
                             FifteenMinutes := 15, ThirtyMinutes := 30, FortyFiveMinutes := 45, OneHour := 60,
                             TwoHours := 120, FourHours := 240];
            && i in named
            && var full := cal[k].open + named[i] * 60_000_000;
            BucketFor(cal, cal[k].open, i)
            == Some(Bucket(cal[k].open, if full <= cal[k].close then full else cal[k].close))
  {
    SessionUnique(cal, cal[k].open, k);
    FloorIs(0, Duration(i), 0);
  }

  /** A weekly or monthly bucket holds exactly the sessions of its span of days. */
  lemma SpanShape(cal: Calendar, t: int, i: Interval, j: nat)
    requires (i.Weekly? || i.Monthly?) && BucketFor(cal, t, i).Some? && j < |cal|
    ensures var k := SessionAt(cal, t).value; var b := BucketFor(cal, t, i).value;
            SpanOf(cal, j, i) == SpanOf(cal, k, i) <==> b.start <= cal[j].open && cal[j].close <= b.end
  {
    var k := SessionAt(cal, t).value;
    SpanEndsAfter(cal, j, i);
    if j <= k {
      SpanOrder(cal, j, k, i);
    } else {
      SpanOrder(cal, k, j, i);
    }
  }

  lemma SpanEndsAfter(cal: Calendar, j: nat, i: Interval)
    requires j < |cal| && (i.Weekly? || i.Monthly?)
    ensures var b := SpanBoundaries(cal, j, i); b.start <= cal[j].open < cal[j].close <= b.end
  {
    SpanContains(cal, j, i);
    var p, q := NextSession(cal, SpanOf(cal, j, i).0), PreviousSession(cal, SpanOf(cal, j, i).1) - 1;
    if p < j { SessionOrder(cal, p, j); }
    if j < q { SessionOrder(cal, j, q); }
  }

  lemma SpanSessions(cal: Calendar, j: nat, k: nat, i: Interval)
    requires j < |cal| && k < |cal| && (i.Weekly? || i.Monthly?)
    ensures SpanOf(cal, j, i) == SpanOf(cal, k, i) <==>
            NextSession(cal, SpanOf(cal, k, i).0) <= j < PreviousSession(cal, SpanOf(cal, k, i).1)
  {
    var (first, last) := SpanOf(cal, k, i);
    var p, q := NextSession(cal, first), PreviousSession(cal, last) - 1;
    SpanContains(cal, k, i);
    SpanContains(cal, j, i);
    if j <= k { SpanGap(cal, j, k, i); } else { SpanGap(cal, k, j, i); }
    if p < j { SessionOrder(cal, p, j); }
    if j < q { SessionOrder(cal, j, q); }
  }

  lemma SpansDecide(cal: Calendar, j: nat, k: nat, i: Interval)
    requires j < |cal| && k < |cal| && (i.Weekly? || i.Monthly?)
    ensures BucketFor(cal, cal[j].open, i) == BucketFor(cal, cal[k].open, i) <==>
            SpanOf(cal, j, i) == SpanOf(cal, k, i)
  {
    SessionUnique(cal, cal[j].open, j);
    SessionUnique(cal, cal[k].open, k);
    if SpanOf(cal, j, i) != SpanOf(cal, k, i) {
      if j <= k { DifferentSpans(cal, j, k, i); } else { DifferentSpans(cal, k, j, i); }
    }
  }

  /** The sessions that share the bucket are those from `p` to `q`. */
  ghost predicate SharedBy(cal: Calendar, b: Bucket, i: Interval, p: nat, q: nat) {
    forall n :: 0 <= n < |cal| ==> (BucketFor(cal, cal[n].open, i) == Some(b) <==> p <= n <= q)
  }

  lemma DailyAlone(cal: Calendar, k: nat, b: Bucket)
    requires k < |cal| && b == Bucket(cal[k].open, cal[k].close)
    ensures SharedBy(cal, b, Daily, k, k)
  {
    forall n | 0 <= n < |cal| ensures BucketFor(cal, cal[n].open, Daily) == Some(b) <==> n == k {
      SessionUnique(cal, cal[n].open, n);
      if n < k { SessionOrder(cal, n, k); }
      if k < n { SessionOrder(cal, k, n); }
    }
  }

  lemma SpanShared(cal: Calendar, k: nat, i: Interval, b: Bucket, p: nat, q: nat)
    requires k < |cal| && (i.Weekly? || i.Monthly?) && b == SpanBoundaries(cal, k, i)
    requires p == NextSession(cal, SpanOf(cal, k, i).0) && q == PreviousSession(cal, SpanOf(cal, k, i).1) - 1
    ensures SharedBy(cal, b, i, p, q)
  {
    forall n | 0 <= n < |cal| ensures BucketFor(cal, cal[n].open, i) == Some(b) <==> p <= n <= q {
      SessionUnique(cal, cal[k].open, k);
      SpansDecide(cal, n, k, i);
      SpanSessions(cal, n, k, i);
    }
  }

  lemma SpanEnds(cal: Calendar, k: nat, i: Interval, b: Bucket) returns (p: nat, q: nat)
    requires k < |cal| && (i.Weekly? || i.Monthly?) && b == SpanBoundaries(cal, k, i)
    ensures p == NextSession(cal, SpanOf(cal, k, i).0) && q == PreviousSession(cal, SpanOf(cal, k, i).1) - 1
    ensures p <= q < |cal| && b == Bucket(cal[p].open, cal[q].close)
  {
    SpanContains(cal, k, i);
    p, q := NextSession(cal, SpanOf(cal, k, i).0), PreviousSession(cal, SpanOf(cal, k, i).1) - 1;
  }

  lemma BucketOfSession(cal: Calendar, t: int, i: Interval, b: Bucket) returns (k: nat)
    requires !Intraday(i) && BucketFor(cal, t, i) == Some(b)
    ensures k < |cal| && b == if i.Daily? then Bucket(cal[k].open, cal[k].close) else SpanBoundaries(cal, k, i)
  {
    k := SessionAt(cal, t).value;
  }

  /**
   A daily bucket is one session. A weekly or monthly bucket runs from the open of the first to the
   close of the last of the sessions that share it, and those are consecutive.
  */
  lemma DayBucketEnds(cal: Calendar, t: int, i: Interval, b: Bucket) returns (p: nat, q: nat)
    requires !Intraday(i) && BucketFor(cal, t, i) == Some(b)
    ensures p <= q < |cal| && b == Bucket(cal[p].open, cal[q].close) && (i.Daily? ==> p == q)
    ensures SharedBy(cal, b, i, p, q)
  {
    var k := BucketOfSession(cal, t, i, b);
    if i.Daily? {
      p, q := k, k;
      DailyAlone(cal, k, b);
    } else {
      p, q := SpanEnds(cal, k, i, b);
      SpanShared(cal, k, i, b, p, q);
    }
  }

  /** Day 20269 is Monday 30 June 2025. */
  predicate IsMonday(day: int) {
    (day - 20269) % 7 == 0
  }

  lemma MondayBetween(a: int, b: int) returns (m: int)
    requires a <= b
    ensures WeekStart(a) != WeekStart(b) ==> a < m <= b && IsMonday(m)
    ensures WeekStart(a) == WeekStart(b) ==> forall n :: a < n <= b ==> !IsMonday(n)
  {
    m := WeekStart(b);
    WeekGap(a, b);
  }

  /** Sessions share a week exactly when no Monday lies after the one and up to the other. */
  lemma SameWeekExactly(cal: Calendar, j: nat, k: nat)
    requires j <= k < |cal|
    ensures BucketFor(cal, cal[j].open, Weekly) == BucketFor(cal, cal[k].open, Weekly) <==>
            !exists m :: cal[j].date < m <= cal[k].date && IsMonday(m)
  {
    SpansDecide(cal, j, k, Weekly);
    if j < k { SessionOrder(cal, j, k); }
    var m := MondayBetween(cal[j].date, cal[k].date);
  }

  /** Sessions share a month exactly when the later one is dated by the last day of the earlier one's month. */
  lemma SameMonthExactly(cal: Calendar, j: nat, k: nat)
    requires j <= k < |cal|
    ensures BucketFor(cal, cal[j].open, Monthly) == BucketFor(cal, cal[k].open, Monthly) <==>
            cal[k].date <= cal[j].monthEnd
  {
    SpansDecide(cal, j, k, Monthly);
    if j < k { SessionOrder(cal, j, k); }
  }

  // ---------- the calendar as its users see it ----------

  lemma CalendarIsLawful(cal: Calendar, f: RawLookup)
    requires forall t, i :: f(t, i) == BucketFor(cal, t, i)
    ensures Lawful(f)
  {
    forall t, i | f(t, i).Some? ensures Covers(f(t, i).value, t) && f(f(t, i).value.start, i) == f(t, i) {
      BucketContains(cal, t, i);
      BucketStartIsOpen(cal, t, i);
    }
    forall t, u, i | t <= u && f(t, i).Some? && f(u, i).Some? ensures Follows(f(t, i).value, f(u, i).value) {
      BucketOrder(cal, t, u, i);
    }
  }

  function LookupIn(cal: Calendar): BucketLookup {
    var f := (t: int, i: Interval) => BucketFor(cal, t, i);
    CalendarIsLawful(cal, f);
    f
  }

  // ---------- nesting of intervals ----------

  /** Fine buckets never straddle a coarse boundary. */
  predicate NestsIn(fine: Interval, coarse: Interval) {
    if Intraday(fine) then Intraday(coarse) ==> Minutes(coarse) % Minutes(fine) == 0
    else if fine.Daily? then !Intraday(coarse)
    else fine == coarse
  }

  lemma StartInSession(cal: Calendar, k: nat, t: int, fine: Interval)
    requires Intraday(fine) || fine.Daily?
    requires k < |cal| && InSession(cal[k], t)
    ensures InSession(cal[k], BucketIn(cal, k, t, fine).start)
  {
    if Intraday(fine) {
      FloorBounds(t - cal[k].open, Duration(fine));
      FloorGap(0, t - cal[k].open, Duration(fine));
    }
  }

  lemma SameFineSession(cal: Calendar, j: nat, k: nat, t: int, u: int, fine: Interval)
    requires Intraday(fine) || fine.Daily?
    requires j < |cal| && k < |cal| && InSession(cal[j], t) && InSession(cal[k], u)
    requires BucketIn(cal, j, t, fine) == BucketIn(cal, k, u, fine)
    ensures j == k
  {
    StartInSession(cal, j, t, fine);
    StartInSession(cal, k, u, fine);
    SessionUnique(cal, BucketIn(cal, j, t, fine).start, j);
    SessionUnique(cal, BucketIn(cal, j, t, fine).start, k);
  }

  /** The coarse cell holds the whole fine cell when its width is a multiple of the fine width. */
  lemma FloorNests(a: int, d: int, q: int)
    requires d > 0 && q > 0
    ensures a / (d * q) * (d * q) <= a / d * d
    ensures a / d * d + d <= a / (d * q) * (d * q) + d * q
  {
    var x, m := a / d, a / (d * q);
    FloorBounds(a, d * q);
    FloorBounds(a, d);
    assert m * (d * q) == (m * q) * d;
    assert m * (d * q) + d * q == (m * q + q) * d;
    if x < m * q { ProductOrder(x, m * q, d); }
    if m * q < x { ProductOrder(m * q, x, d); }
    if m * q + q - 1 < x { ProductOrder(m * q + q - 1, x, d); }
    if x < m * q + q { ProductOrder(x, m * q + q, d); }
  }

  lemma FloorNestsEqual(a: int, b: int, d: int, q: int)
    requires d > 0 && q > 0 && a / d * d == b / d * d
    ensures a / (d * q) * (d * q) == b / (d * q) * (d * q)
  {
    FloorNests(a, d, q);
    FloorNests(b, d, q);
    assert d * q > 0;
    if a <= b { FloorGap(a, b, d * q); } else { FloorGap(b, a, d * q); }
  }

  lemma IntradayNests(s: Session, t: int, u: int, d: int, q: int)
    requires d > 0 && q > 0 && IntradayBucket(s, t, d) == IntradayBucket(s, u, d)
    ensures d * q > 0 && IntradayBucket(s, t, d * q) == IntradayBucket(s, u, d * q)
  {
    FloorNestsEqual(t - s.open, u - s.open, d, q);
  }

  lemma DurationMultiple(fine: Interval, coarse: Interval)
    requires Intraday(fine) && Intraday(coarse) && Minutes(coarse) % Minutes(fine) == 0
    ensures var q := Minutes(coarse) / Minutes(fine); q > 0 && Duration(coarse) == Duration(fine) * q
  {
    var q := Minutes(coarse) / Minutes(fine);
    assert Minutes(coarse) == Minutes(fine) * q;
    assert q > 0;
  }

  lemma NestingAt(cal: Calendar, j: nat, k: nat, t: int, u: int, fine: Interval, coarse: Interval)
    requires NestsIn(fine, coarse)
    requires j < |cal| && k < |cal| && InSession(cal[j], t) && InSession(cal[k], u)
    requires BucketIn(cal, j, t, fine) == BucketIn(cal, k, u, fine)
    ensures BucketIn(cal, j, t, coarse) == BucketIn(cal, k, u, coarse)
  {
    if fine != coarse {
      SameFineSession(cal, j, k, t, u, fine);
      if Intraday(coarse) {
        var q := Minutes(coarse) / Minutes(fine);
        DurationMultiple(fine, coarse);
        IntradayNests(cal[j], t, u, Duration(fine), q);
      }
    }
  }

  lemma NestingInTime(cal: Calendar, t: int, u: int, fine: Interval, coarse: Interval)
    requires NestsIn(fine, coarse)
    requires BucketFor(cal, t, fine).Some? && BucketFor(cal, t, fine) == BucketFor(cal, u, fine)
    ensures BucketFor(cal, t, coarse) == BucketFor(cal, u, coarse)
  {
    NestingAt(cal, SessionAt(cal, t).value, SessionAt(cal, u).value, t, u, fine, coarse);
  }

  lemma NestingSound(cal: Calendar, fine: Interval, coarse: Interval)
    requires NestsIn(fine, coarse)
    ensures Nested(LookupIn(cal), fine, coarse)
  {
    forall t, u | LookupIn(cal)(t, fine).Some? && LookupIn(cal)(t, fine) == LookupIn(cal)(u, fine)
      ensures LookupIn(cal)(t, coarse) == LookupIn(cal)(u, coarse)
    {
      NestingInTime(cal, t, u, fine, coarse);
    }
  }

  /** Monday 30 June, Tuesday 1 July and Monday 7 July 2025, each open for 390 minutes. */
  function SampleCalendar(): Calendar {
    var june30 := SampleSession(20269, 20240, 20269);
    var july1 := SampleSession(20270, 20270, 20300);
    var july7 := SampleSession(20276, 20270, 20300);
    [june30, july1, july7]
  }

  function SampleSession(date: int, monthStart: int, monthEnd: int): Session {
    Session(date * 1440 * MINUTE, (date * 1440 + 390) * MINUTE, date, monthStart, monthEnd)
  }

  /** Two trading times that share a fine bucket and not the coarse one, whenever the fine interval does not nest. */
  function Straddle(fine: Interval, coarse: Interval): (int, int) {
    var cal := SampleCalendar();
    if Intraday(fine) then
      if !Intraday(coarse) then (0, 0)
      else if Minutes(fine) > Minutes(coarse) then (cal[0].open, cal[0].open + Duration(coarse))
      else (cal[0].open + Duration(coarse) - 1, cal[0].open + Duration(coarse))
    else if Intraday(coarse) then (cal[1].open, cal[1].open + Duration(coarse))
    else if fine.Weekly? then (cal[0].open, cal[1].open)
    else (cal[1].open, cal[2].open)
  }

  lemma FloorIs(a: int, d: int, x: int)
    requires d > 0 && x * d <= a < x * d + d
    ensures a / d == x
  {
    FloorBounds(a, d);
    if a / d < x { ProductOrder(a / d, x, d); }
    if x < a / d { ProductOrder(x, a / d, d); }
  }

  lemma Distribute(x: int, f: int, m: int)
    ensures (x * f) * m == x * (f * m)
    ensures (x * f + f) * m == x * (f * m) + f * m
  {}

  /** A coarse boundary that is not a multiple of the fine width lies strictly inside a fine cell. */
  lemma FloorStraddles(c: int, f: int, m: int, x: int)
    requires 0 < f < c && m > 0 && x * f < c < x * f + f
    ensures f * m > 0 && c * m > 0
    ensures (c * m - 1) / (f * m) == x == (c * m) / (f * m)
  {
    ProductOrder(0, f, m);
    ProductOrder(f, c, m);
    ProductOrder(x * f, c, m);
    ProductOrder(c, x * f + f, m);
    Distribute(x, f, m);
    FloorIs(c * m - 1, f * m, x);
    FloorIs(c * m, f * m, x);
  }

  lemma CellsDiffer(s: Session, d: int)
    requires d > 0
    ensures IntradayBucket(s, s.open + d - 1, d) != IntradayBucket(s, s.open + d, d)
    ensures IntradayBucket(s, s.open, d) != IntradayBucket(s, s.open + d, d)
  {
    FloorIs(0, d, 0);
    FloorIs(d - 1, d, 0);
    FloorIs(d, d, 1);
  }

  lemma StraddleIntraday(s: Session, fine: Interval, coarse: Interval)
    requires Intraday(fine) && Intraday(coarse) && !NestsIn(fine, coarse)
    ensures var f, c := Duration(fine), Duration(coarse);
            var t := if f > c then s.open else s.open + c - 1; var u := s.open + c;
            && IntradayBucket(s, t, f) == IntradayBucket(s, u, f)
            && IntradayBucket(s, t, c) != IntradayBucket(s, u, c)
  {
    var f, c := Duration(fine), Duration(coarse);
    CellsDiffer(s, c);
    if f > c {
      FloorIs(0, f, 0);
      FloorIs(c, f, 0);
    } else {
      SharedCell(s, Minutes(coarse), Minutes(fine), MINUTE);
    }
  }

  lemma SharedCell(s: Session, c: int, f: int, m: int)
    requires 0 < f <= c && c % f != 0 && m > 0
    ensures f * m > 0 && IntradayBucket(s, s.open + c * m - 1, f * m) == IntradayBucket(s, s.open + c * m, f * m)
  {
    ProductOrder(0, f, m);
    FloorBounds(c, f);
    FloorStraddles(c, f, m, c / f);
  }

  lemma DifferentSpans(cal: Calendar, j: nat, k: nat, i: Interval)
    requires j <= k < |cal| && (i.Weekly? || i.Monthly?)
    requires SpanOf(cal, j, i) != SpanOf(cal, k, i)
    ensures SpanBoundaries(cal, j, i) != SpanBoundaries(cal, k, i)
  {
    SpanOrder(cal, j, k, i);
    SessionUnique(cal, cal[k].open, k);
    BucketContains(cal, cal[k].open, i);
  }

  function StraddleSessions(fine: Interval, coarse: Interval): (nat, nat) {
    if Intraday(fine) then (0, 0)
    else if Intraday(coarse) then (1, 1)
    else if fine.Weekly? then (0, 1)
    else (1, 2)
  }

  lemma StraddleSessionsHold(fine: Interval, coarse: Interval)
    requires !NestsIn(fine, coarse)
    ensures var cal := SampleCalendar(); var (t, u) := Straddle(fine, coarse);
            var (j, k) := StraddleSessions(fine, coarse);
            InSession(cal[j], t) && InSession(cal[k], u)
  {}

  lemma SampleSpans()
    ensures var cal := SampleCalendar();
            && SpanOf(cal, 0, Weekly) == SpanOf(cal, 1, Weekly)
            && SpanOf(cal, 0, Monthly) != SpanOf(cal, 1, Monthly)
            && SpanOf(cal, 1, Monthly) == SpanOf(cal, 2, Monthly)
            && SpanOf(cal, 1, Weekly) != SpanOf(cal, 2, Weekly)
  {}

  lemma StraddleDays(cal: Calendar, fine: Interval, coarse: Interval)
    requires !NestsIn(fine, coarse) && !Intraday(fine) && !Intraday(coarse) && cal == SampleCalendar()
    ensures var (j, k) := StraddleSessions(fine, coarse);
            && BucketIn(cal, j, 0, fine) == BucketIn(cal, k, 0, fine)
            && BucketIn(cal, j, 0, coarse) != BucketIn(cal, k, 0, coarse)
  {
    var (j, k) := StraddleSessions(fine, coarse);
    SampleSpans();
    if coarse.Daily? {
      SessionOrder(cal, j, k);
    } else {
      DifferentSpans(cal, j, k, coarse);
    }
  }

  lemma StraddleBuckets(cal: Calendar, fine: Interval, coarse: Interval)
    requires !NestsIn(fine, coarse) && cal == SampleCalendar()
    ensures var (t, u) := Straddle(fine, coarse); var (j, k) := StraddleSessions(fine, coarse);
            && BucketIn(cal, j, t, fine) == BucketIn(cal, k, u, fine)
            && BucketIn(cal, j, t, coarse) != BucketIn(cal, k, u, coarse)
  {
    if Intraday(fine) {
      StraddleIntraday(cal[0], fine, coarse);
    } else if Intraday(coarse) {
      CellsDiffer(cal[1], Duration(coarse));
    } else {
      StraddleDays(cal, fine, coarse);
    }
  }

  lemma BucketInSession(cal: Calendar, k: nat, t: int, i: Interval)
    requires k < |cal| && InSession(cal[k], t)
    ensures BucketFor(cal, t, i) == Some(BucketIn(cal, k, t, i))
  {
    SessionUnique(cal, t, k);
  }

  lemma NotNested(cal: Calendar, t: int, u: int, j: nat, k: nat, fine: Interval, coarse: Interval)
    requires j < |cal| && k < |cal| && InSession(cal[j], t) && InSession(cal[k], u)
    requires BucketIn(cal, j, t, fine) == BucketIn(cal, k, u, fine)
    requires BucketIn(cal, j, t, coarse) != BucketIn(cal, k, u, coarse)
    ensures !Nested(LookupIn(cal), fine, coarse)
  {
    BucketInSession(cal, j, t, fine);
    BucketInSession(cal, j, t, coarse);
    BucketInSession(cal, k, u, fine);
    BucketInSession(cal, k, u, coarse);
    Straddled(LookupIn(cal), t, u, fine, coarse);
  }

  lemma Straddled(f: BucketLookup, t: int, u: int, fine: Interval, coarse: Interval)
    requires f(t, fine).Some? && f(t, fine) == f(u, fine) && f(t, coarse) != f(u, coarse)
    ensures !Nested(f, fine, coarse)
  {}

  lemma StraddleWitness(fine: Interval, coarse: Interval)
    requires !NestsIn(fine, coarse)
    ensures !Nested(LookupIn(SampleCalendar()), fine, coarse)
  {
    var (t, u) := Straddle(fine, coarse);
    var (j, k) := StraddleSessions(fine, coarse);
    StraddleSessionsHold(fine, coarse);
    StraddleBuckets(SampleCalendar(), fine, coarse);
    NotNested(SampleCalendar(), t, u, j, k, fine, coarse);
  }

  /** An interval nests in another exactly when its buckets refine the other's on every calendar. */
  lemma NestingExact(fine: Interval, coarse: Interval)
    ensures NestsIn(fine, coarse) <==> forall cal: Calendar :: Nested(LookupIn(cal), fine, coarse)
  {
    if NestsIn(fine, coarse) {
      forall cal: Calendar ensures Nested(LookupIn(cal), fine, coarse) {
        NestingSound(cal, fine, coarse);
      }
    } else {
      StraddleWitness(fine, coarse);
    }
  }
}
